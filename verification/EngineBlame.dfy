// Who gets banned: a failed hash is only ever laid at the door of somebody who
// sent wrong bytes, or of somebody suspected three times over.
module EngineBlame {
  import opened Prelude
  import opened Wire
  import opened PickerSpec
  import opened DiskSpec
  import opened EngineSpec
  import opened EngineInvariant
  import opened EngineSteps
  import opened EngineDelivery
  import opened EngineFrame
  import opened EngineTheorems
  import opened EngineSafety
  import Bitfields
  import Counting
  import Sorting

  /** The torrent's true bytes: each piece hashes as expected. */
  ghost predicate TrueContent(m: Meta, content: seq<byte>) {
    && |content| == m.geo.totalLength
    && forall i :: 0 <= i < m.geo.numPieces && i < |m.expected| ==>
         m.geo.PieceStart(i) + m.geo.PieceLen(i) <= |content| &&
         m.sha1(content[m.geo.PieceStart(i)..m.geo.PieceStart(i) + m.geo.PieceLen(i)]) == m.expected[i]
  }

  /** Every whole block a destination has sent is the true one. */
  ghost predicate Honest(m: Meta, content: seq<byte>, log: set<Delivery>, d: Dest) {
    forall x :: x in log && x.0 == d && m.geo.InRange(x.1) ==> TrueBlock(m, content, x.1, x.2)
  }

  predicate TrueBlock(m: Meta, content: seq<byte>, b: Block, data: seq<byte>) {
    |data| == m.geo.BlockLen(b.0, b.1) ==>
      m.geo.BlockStart(b) + |data| <= |content| && data == content[m.geo.BlockStart(b)..m.geo.BlockStart(b) + |data|]
  }

  /** A destination has sent, for some block of a piece, bytes that are not the
      true ones. */
  ghost predicate SentWrong(m: Meta, content: seq<byte>, log: set<Delivery>, d: Dest, index: nat) {
    exists x :: x in log && x.0 == d && x.1.0 == index && m.geo.InRange(x.1) && !TrueBlock(m, content, x.1, x.2)
  }

  ghost predicate SomebodyLied(m: Meta, content: seq<byte>, log: set<Delivery>) {
    exists d :: !Honest(m, content, log, d)
  }

  // ----- blame

  lemma {:induction false} ContributorsFacts(suppliers: map<Block, Dest>, index: nat, k: nat)
    ensures Sorting.Distinct(Contributors(suppliers, index, k))
    ensures forall j: nat :: j < k && (index, j) in suppliers ==> suppliers[(index, j)] in Contributors(suppliers, index, k)
  {
    if k > 0 { ContributorsFacts(suppliers, index, k - 1); }
  }

  lemma {:induction false} SuspectedCount(suspicion: map<Dest, nat>, dests: seq<Dest>)
    requires Sorting.Distinct(dests)
    ensures forall d :: d in dests ==> d in Suspected(suspicion, dests)
    ensures forall d :: d in dests ==> Suspected(suspicion, dests)[d] == (if d in suspicion then suspicion[d] else 0) + 1
    ensures forall d :: d !in dests ==>
      (d in Suspected(suspicion, dests) <==> d in suspicion) &&
      (d in suspicion ==> Suspected(suspicion, dests)[d] == suspicion[d])
  {
    if dests != [] {
      var init, last := dests[..|dests| - 1], dests[|dests| - 1];
      SuspectedCount(suspicion, init);
      assert dests == init + [last];
      assert last !in init;
    }
  }

  lemma {:induction false} OverLimitMembers(suspicion: map<Dest, nat>, dests: seq<Dest>)
    ensures forall d :: d in OverLimit(suspicion, dests) <==>
      d in dests && d in suspicion && suspicion[d] >= SUSPICION_LIMIT
  {
    if dests != [] {
      OverLimitMembers(suspicion, dests[..|dests| - 1]);
      assert dests == dests[..|dests| - 1] + [dests[|dests| - 1]];
    }
  }

  /** Blame bans the one contributor there is, or those whose count, this
      failure included, reaches the limit. */
  lemma BlameIsMeasured(s: State, index: nat, d: Dest)
    requires d in BlameSuppliers(s, index).banned && d !in s.banned
    ensures var who := Contributors(s.suppliers, index, s.picker.geo.Blocks(index));
      || who == [d]
      || (d in who && (if d in s.suspicion then s.suspicion[d] else 0) + 1 >= SUSPICION_LIMIT)
  {
    var blocks := s.picker.geo.Blocks(index);
    var who := Contributors(s.suppliers, index, blocks);
    var s' := s.(suppliers := DropPiece(s.suppliers, index, blocks));
    ContributorsFacts(s.suppliers, index, blocks);
    BanAllEffect(s', who);
    var suspicion := Suspected(s.suspicion, who);
    SuspectedCount(s.suspicion, who);
    OverLimitMembers(suspicion, who);
    BanAllEffect(s'.(suspicion := suspicion), OverLimit(suspicion, who));
  }

  // ----- honest deliveries verify

  /** The bytes of an honestly delivered block are the true ones. */
  lemma HonestBlock(m: Meta, s: State, log: set<Delivery>, content: seq<byte>, b: Block, o: nat)
    requires Inv(m, s, log) && b in s.suppliers && !SentWrong(m, content, log, s.suppliers[b], b.0)
    requires o < m.geo.BlockLen(b.0, b.1)
    ensures m.geo.BlockStart(b) + o < |s.disk| && m.geo.BlockStart(b) + o < |content|
    ensures s.disk[m.geo.BlockStart(b) + o] == Some(content[m.geo.BlockStart(b) + o])
  {
    hide PeersOk, FlightExact, AvailabilityExact, DestsOk, IdsOk;
    SuppliersInRange(s.picker, s.suppliers);
    assert WitnessedBlock(m, s.disk, s.suppliers[b], b, log);
    var data := Bytes(s.disk, m.geo.BlockStart(b), m.geo.BlockLen(b.0, b.1));
    var x: Delivery := (s.suppliers[b], b, data);
    assert x in log && TrueBlock(m, content, x.1, x.2);
    assert data[o] == content[m.geo.BlockStart(b)..m.geo.BlockStart(b) + |data|][o];
  }

  /** A piece none of whose contributors sent a wrong block of it does not fail
      its hash. */
  lemma HonestPieceVerifies(m: Meta, s: State, log: set<Delivery>, content: seq<byte>, index: nat, fault: Option<nat>)
    requires Inv(m, s, log) && WholeAndSettled(s, index) && TrueContent(m, content)
    requires forall d :: d in Contributors(s.suppliers, index, m.geo.Blocks(index)) ==> !SentWrong(m, content, log, d, index)
    ensures Verify(m, s.disk, index, fault) != Mismatch
  {
    hide Inv, SentWrong;
    ShapeOf(m, s, log);
    m.geo.PieceInside(index);
    forall k | m.geo.PieceStart(index) <= k < m.geo.PieceStart(index) + m.geo.PieceLen(index)
      ensures k < |s.disk| && k < |content| && s.disk[k] == Some(content[k])
    {
      HonestCell(m, s, log, content, index, k - m.geo.PieceStart(index));
    }
    TrueCellsVerify(m, s.disk, content, index, fault);
  }

  lemma HonestCell(m: Meta, s: State, log: set<Delivery>, content: seq<byte>, index: nat, o: nat)
    requires Inv(m, s, log) && WholeAndSettled(s, index) && o < m.geo.PieceLen(index)
    requires forall d :: d in Contributors(s.suppliers, index, m.geo.Blocks(index)) ==> !SentWrong(m, content, log, d, index)
    ensures var k := m.geo.PieceStart(index) + o;
      k < |s.disk| && k < |content| && s.disk[k] == Some(content[k])
  {
    hide PeersOk, FlightExact, AvailabilityExact, DestsOk, IdsOk, Witnessed, HeldVerified, SentWrong;
    var b: Block := (index, o / BLOCK_LEN);
    assert b.1 < m.geo.Blocks(index) && s.picker.Received(b);
    ContributorsFacts(s.suppliers, index, m.geo.Blocks(index));
    HonestBlock(m, s, log, content, b, o % BLOCK_LEN);
  }

  lemma TrueCellsVerify(m: Meta, disk: seq<Cell>, content: seq<byte>, index: nat, fault: Option<nat>)
    requires m.Valid() && |disk| == m.geo.totalLength && index < m.geo.numPieces && TrueContent(m, content)
    requires forall k :: m.geo.PieceStart(index) <= k < m.geo.PieceStart(index) + m.geo.PieceLen(index) ==>
      k < |disk| && k < |content| && disk[k] == Some(content[k])
    ensures Verify(m, disk, index, fault) != Mismatch
  {
    var start, len := m.geo.PieceStart(index), m.geo.PieceLen(index);
    m.geo.PieceInside(index);
    assert Present(disk, start, len);
    assert Bytes(disk, start, len) == content[start..start + len];
  }

  lemma JudgeBansTheGuilty(m: Meta, s: State, log: set<Delivery>, content: seq<byte>, index: nat, io: Io, d: Dest)
    requires Inv(m, s, log) && WholeAndSettled(s, index) && TrueContent(m, content)
    requires d in Judge(m, s, index, io).state.banned && d !in s.banned
    ensures var who := Contributors(s.suppliers, index, m.geo.Blocks(index));
      && d in who
      && (exists x :: x in who && SentWrong(m, content, log, x, index))
      && (!SentWrong(m, content, log, d, index) ==> Suspicion(s, d) + 1 >= SUSPICION_LIMIT)
  {
    hide Inv, SentWrong, TrueContent, WholeAndSettled, Contributors;
    ShapeOf(m, s, log);
    var who := Contributors(s.suppliers, index, m.geo.Blocks(index));
    var r := s.(picker := s.picker.ResetPiece(index));
    assert Verify(m, s.disk, index, io.verify) == Mismatch;
    BlameIsMeasured(r, index, d);
    if forall x :: x in who ==> !SentWrong(m, content, log, x, index) {
      HonestPieceVerifies(m, s, log, content, index, io.verify);
      assert false;
    }
  }

  function Suspicion(s: State, d: Dest): nat { Weight(s.suspicion, d) }

  function Weight(suspicion: map<Dest, nat>, d: Dest): nat { if d in suspicion then suspicion[d] else 0 }

  // ----- over a step

  /** Who wrote the blocks of a piece so far. */
  function SuppliersOf(suppliers: map<Block, Dest>, index: nat): set<Dest> {
    set c | c in suppliers && c.0 == index :: suppliers[c]
  }

  /** Who has a part in the piece a message completes: its suppliers so far and
      the sender. */
  function PartIn(s: State, e: Event): set<Dest> {
    if e.Receive? && e.msg.Piece? && Find(s.peers, e.id).Some?
    then SuppliersOf(s.suppliers, e.msg.index) + {s.peers[Find(s.peers, e.id).value].dest}
    else {}
  }

  /** A ban is just: it follows a `piece` message; the banned had a part in the
      piece it completed; somebody with a part in it sent a wrong block of it;
      and if that was not the banned itself, others had a part in it and this
      is at least its third suspicion. */
  ghost predicate JustBan(m: Meta, s: State, content: seq<byte>, log: set<Delivery>, e: Event, d: Dest) {
    && e.Receive? && e.msg.Piece? && d in PartIn(s, e)
    && (exists x :: x in PartIn(s, e) && SentWrong(m, content, log, x, e.msg.index))
    && (!SentWrong(m, content, log, d, e.msg.index) ==> |PartIn(s, e)| > 1 && Suspicion(s, d) + 1 >= SUSPICION_LIMIT)
  }

  lemma {:induction false} ContributorsSupply(suppliers: map<Block, Dest>, index: nat, k: nat)
    ensures forall x :: x in Contributors(suppliers, index, k) ==> x in SuppliersOf(suppliers, index)
  {
    if k > 0 { ContributorsSupply(suppliers, index, k - 1); }
  }

  lemma OneMorePart(suppliers: map<Block, Dest>, b: Block, d: Dest)
    ensures SuppliersOf(suppliers[b := d], b.0) <= SuppliersOf(suppliers, b.0) + {d}
  {}

  lemma TwoAreSeveral<T>(xs: set<T>, x: T, y: T)
    requires x in xs && y in xs && x != y
    ensures |xs| > 1
  {
    assert {x, y} <= xs;
    SmallerSet({x, y}, xs);
  }

  /** Every ban of a step is just. */
  lemma StepBansTheGuilty(m: Meta, s: State, log: set<Delivery>, content: seq<byte>, e: Event, d: Dest)
    requires Inv(m, s, log) && |s.disk| == Total(m.files) && TrueContent(m, content)
    requires d in Step(m, s, e).state.banned && d !in s.banned
    ensures JustBan(m, s, content, log + Heard(s, e), e, d)
  {
    hide Inv, OnMessage, OnTick, RemovePeer, RegisterPeer, SentWrong, TrueContent, PartIn;
    match e {
      case Receive(id, msg, now, io) => MessageBansTheGuilty(m, s, log, content, e, d);
      case Maintain(now) => TickBansNobody(m, s, log, now);
      case Register(dest, fast) => RegisterFrame(s, dest, fast);
      case DropPeer(id) => RemoveFrame(s, id);
      case _ =>
    }
  }

  /** In every reachable state, whatever happens next, a destination is banned
      only justly: an honest one never alone, and never before its third
      suspicion. */
  lemma BansAreJust(m: Meta, w: World, content: seq<byte>, e: Event, d: Dest)
    requires Reachable(m, w) && TrueContent(m, content)
    requires d in WorldStep(m, w, e).state.banned && d !in w.state.banned
    ensures JustBan(m, w.state, content, WorldStep(m, w, e).log, e, d)
    ensures Honest(m, content, WorldStep(m, w, e).log, d) ==>
      |PartIn(w.state, e)| > 1 && Suspicion(w.state, d) + 1 >= SUSPICION_LIMIT
  {
    hide Reachable, Step, JustBan, Inv;
    ReachableIsSafe(m, w);
    InvOf(m, w);
    ShapeOf(m, w.state, w.log);
    StepBansTheGuilty(m, w.state, w.log, content, e, d);
    HonestIsNotGuilty(m, w.state, content, WorldStep(m, w, e).log, e, d);
  }

  lemma HonestIsNotGuilty(m: Meta, s: State, content: seq<byte>, log: set<Delivery>, e: Event, d: Dest)
    requires JustBan(m, s, content, log, e, d)
    ensures Honest(m, content, log, d) ==> |PartIn(s, e)| > 1 && Suspicion(s, d) + 1 >= SUSPICION_LIMIT
    ensures SomebodyLied(m, content, log)
  {
    var x :| x in PartIn(s, e) && SentWrong(m, content, log, x, e.msg.index);
    assert !Honest(m, content, log, x);
  }

  lemma TickBansNobody(m: Meta, s: State, log: set<Delivery>, now: nat)
    requires Inv(m, s, log)
    ensures OnTick(s, now).state.banned == s.banned
  {
    hide Inv, MaintainBelow, ChokeRoundIfDue;
    MaintainFrame(m, s, log, now, |s.peers|);
    ChokeRoundFrame(m, MaintainBelow(s, now, |s.peers|).state, now);
  }

  lemma MessageBansTheGuilty(m: Meta, s: State, log: set<Delivery>, content: seq<byte>, e: Event, d: Dest)
    requires Inv(m, s, log) && |s.disk| == Total(m.files) && TrueContent(m, content) && e.Receive?
    requires d in OnMessage(m, s, e.id, e.msg, e.now, e.io).state.banned && d !in s.banned
    ensures JustBan(m, s, content, log + Claims(s, e.id, e.msg), e, d)
  {
    hide Inv, Handle, ChokeRoundIfDue, SentWrong, TrueContent, OnBlock, SuppliersOf;
    var found, msg := Find(s.peers, e.id), e.msg;
    var f := match found case None => Effect(s, []) case Some(k) => Handle(m, s, k, msg, e.now, e.io);
    ChokeRoundFrame(m, f.state, e.now);
    assert d in f.state.banned;
    if msg.Piece? {
      var k := found.value;
      OpenKeeps(m, s, log, k);
      var s1 := SetPeer(s, k, s.peers[k].(hasOpened := true));
      HandlePiece(m, s, k, msg.index, msg.begin, msg.block, e.now, e.io);
      BlockBansTheGuilty(m, s1, log, content, k, msg.index, msg.begin, msg.block, e.now, e.io, d);
    } else {
      OtherMessagesBanNobody(m, s, log, found.value, msg, e.now, e.io);
    }
  }

  lemma HandlePiece(m: Meta, s: State, k: nat, index: nat, begin: nat, data: seq<byte>, now: nat, io: Io)
    requires k < |s.peers| && |s.disk| == Total(m.files)
    ensures Handle(m, s, k, Piece(index, begin, data), now, io) ==
      OnBlock(m, SetPeer(s, k, s.peers[k].(hasOpened := true)), k, index, begin, data, now, io)
  {}

  lemma OtherMessagesBanNobody(m: Meta, s: State, log: set<Delivery>, k: nat, msg: Message, now: nat, io: Io)
    requires Inv(m, s, log) && k < |s.peers| && |s.disk| == Total(m.files) && !msg.Piece?
    ensures Handle(m, s, k, msg, now, io).state.banned == s.banned
  {
    hide Dispatch;
    var s1 := if Opens(msg) then SetPeer(s, k, s.peers[k].(hasOpened := true)) else s;
    DispatchBansNobody(m, s1, k, !s.peers[k].hasOpened, msg, now, io);
  }

  lemma DispatchBansNobody(m: Meta, s: State, k: nat, first: bool, msg: Message, now: nat, io: Io)
    requires k < |s.peers| && |s.disk| == Total(m.files) && !msg.Piece?
    ensures Dispatch(m, s, k, first, msg, now, io).state.banned == s.banned
  {
    hide FillRequests, UpdateInterest, RunChoker, OnBlock, AllPieces, Counting.Count, Present, Bytes, Picker.Release;
    var p := s.peers[k];
    match msg {
      case Unchoke => FillBansNobody(SetPeer(s, k, p.(peerChoking := false)), k, now);
      case Interested => RunChokerFrame(m, SetPeer(s, k, p.(theyInterested := true)));
      case Have(i) =>
        InterestBansNobody(SetPeer(s, k, p.(has := p.has + {i})).(picker := s.picker.AddSingle(i)), k, now);
      case Bitfield(bits) =>
        if Bitfields.Parse(bits, m.geo.numPieces).Ok? {
          InterestBansNobody(ReplacePieceSet(s, k, Bitfields.PiecesOf(bits, m.geo.numPieces)), k, now);
        }
      case HaveAll => InterestBansNobody(ReplacePieceSet(s, k, AllPieces(m.geo.numPieces)), k, now);
      case HaveNone => InterestBansNobody(ReplacePieceSet(s, k, {}), k, now);
      case _ =>
    }
  }

  lemma InterestBansNobody(s: State, k: nat, now: nat)
    requires k < |s.peers|
    ensures UpdateInterest(s, k, now).state.banned == s.banned
  {
    hide FillRequests, Interesting;
    FillBansNobody(SetPeer(s, k, s.peers[k].(weInterested := true)), k, now);
  }

  lemma FillBansNobody(t: State, idx: nat, now: nat)
    requires idx < |t.peers|
    ensures FillRequests(t, idx, now).state.banned == t.banned
  {}

  lemma BlockBansTheGuilty(m: Meta, s: State, log: set<Delivery>, content: seq<byte>, idx: nat,
                           index: nat, begin: nat, data: seq<byte>, now: nat, io: Io, d: Dest)
    requires Inv(m, s, log) && idx < |s.peers| && |s.disk| == Total(m.files) && TrueContent(m, content)
    requires d in OnBlock(m, s, idx, index, begin, data, now, io).state.banned && d !in s.banned
    ensures var log', who := log + {Said(s.peers[idx].dest, index, begin, data)}, SuppliersOf(s.suppliers, index) + {s.peers[idx].dest};
      && d in who
      && (exists x :: x in who && SentWrong(m, content, log', x, index))
      && (!SentWrong(m, content, log', d, index) ==> |who| > 1 && Suspicion(s, d) + 1 >= SUSPICION_LIMIT)
  {
    hide Inv, FillRequests, AcceptBlock, SentWrong, TrueContent, Judge, SettledState, NotedState, CancelElsewhere, SuppliersOf;
    var b: Block := (index, begin / BLOCK_LEN);
    forall t: State, i: nat | i < |t.peers| ensures FillRequests(t, i, now).state.banned == t.banned {
      FillBansNobody(t, i, now);
    }
    var p := s.peers[idx];
    assert b in p.inFlight;
    OwedIsAskable(m, s, log, idx, b);
    AcceptIsSettleThenJudge(m, s, log, idx, b, data, io);
    SettledStateKeeps(m, s, log, idx, b, data);
    SettledHoldings(m, s, log, idx, b, data);
    var t := SettledState(m, s, idx, b, data);
    SettledBlame(m, s, idx, b, data);
    JudgeBansTheGuilty(m, t, log + {(p.dest, b, data)}, content, index, io, d);
    PartsSpread(m, t, s, log + {(p.dest, b, data)}, content, b, p.dest, d);
  }

  lemma SettledBlame(m: Meta, s: State, idx: nat, b: Block, data: seq<byte>)
    requires idx < |s.peers| && |s.disk| == Total(m.files) && m.geo.BlockStart(b) + |data| <= |s.disk|
    ensures var t := SettledState(m, s, idx, b, data);
      t.suppliers == s.suppliers[b := s.peers[idx].dest] && t.suspicion == s.suspicion && t.banned == s.banned
  {
    hide WriteLinear, Picker.BlockReceived, Cancels, Withdrawn, Picker.Lower;
  }

  /** The contributors of a settled piece had a part in it. */
  lemma PartsSpread(m: Meta, t: State, s: State, log: set<Delivery>, content: seq<byte>, b: Block, dest: Dest, d: Dest)
    requires t.suppliers == s.suppliers[b := dest]
    requires var who := Contributors(t.suppliers, b.0, m.geo.Blocks(b.0));
      d in who && exists x :: x in who && SentWrong(m, content, log, x, b.0)
    ensures var who := SuppliersOf(s.suppliers, b.0) + {dest};
      && d in who
      && (exists x :: x in who && SentWrong(m, content, log, x, b.0))
      && (!SentWrong(m, content, log, d, b.0) ==> |who| > 1)
  {
    hide SentWrong, SuppliersOf;
    ContributorsSupply(t.suppliers, b.0, m.geo.Blocks(b.0));
    OneMorePart(s.suppliers, b, dest);
    var x :| x in Contributors(t.suppliers, b.0, m.geo.Blocks(b.0)) && SentWrong(m, content, log, x, b.0);
    if x != d { TwoAreSeveral(SuppliersOf(s.suppliers, b.0) + {dest}, x, d); }
  }

  /** In a swarm where every whole block ever sent is the true one, nobody is
      ever banned. */
  lemma {:induction false} HonestSwarmBansNobody(m: Meta, w: World, events: seq<Event>, content: seq<byte>)
    requires WorldInv(m, w) && TrueContent(m, content)
    requires forall d :: Honest(m, content, Run(m, w, events).log, d)
    ensures Run(m, w, events).state.banned == w.state.banned
  {
    hide WorldInv, Inv, Step, Honest, TrueContent;
    if events != [] {
      var init, last := events[..|events| - 1], events[|events| - 1];
      var before := Run(m, w, init);
      RunKeeps(m, w, init);
      LogOnlyGrows(m, before, last);
      assert before.log <= Run(m, w, events).log;
      forall d ensures Honest(m, content, before.log, d) {
        HonestEarlier(m, content, before.log, Run(m, w, events).log, d);
      }
      HonestSwarmBansNobody(m, w, init, content);
      StepInHonestSwarm(m, before, last, content);
    }
  }

  lemma HonestEarlier(m: Meta, content: seq<byte>, log: set<Delivery>, log': set<Delivery>, d: Dest)
    requires log <= log' && Honest(m, content, log', d)
    ensures Honest(m, content, log, d)
  {}

  lemma StepInHonestSwarm(m: Meta, w: World, e: Event, content: seq<byte>)
    requires WorldInv(m, w) && TrueContent(m, content)
    requires forall d :: Honest(m, content, WorldStep(m, w, e).log, d)
    ensures WorldStep(m, w, e).state.banned == w.state.banned
  {
    hide Inv, Step, Honest, TrueContent, AllTruthful, JustBan;
    WorldStepKeeps(m, w, e);
    forall d | d in WorldStep(m, w, e).state.banned ensures d in w.state.banned {
      if d !in w.state.banned {
        StepBansTheGuilty(m, w.state, w.log, content, e, d);
        HonestIsNotGuilty(m, w.state, content, WorldStep(m, w, e).log, e, d);
        assert false;
      }
    }
    GrowthKeepsBans(m, w.state, WorldStep(m, w, e).state);
  }

  lemma GrowthKeepsBans(m: Meta, s: State, t: State)
    requires HoldingsGrow(m, s, t)
    ensures s.banned <= t.banned
  {}

  /** The same from a fresh start: no bans in an honest swarm, ever. */
  lemma FreshHonestSwarmBansNobody(m: Meta, disk: seq<Cell>, have: set<nat>, mode: Mode, events: seq<Event>, content: seq<byte>)
    requires FairStart(m, disk, have) && TrueContent(m, content)
    requires forall d :: Honest(m, content, Run(m, Beginning(m, disk, have, mode), events).log, d)
    ensures Run(m, Beginning(m, disk, have, mode), events).state.banned == {}
  {
    BeginsWell(m, disk, have, mode);
    HonestSwarmBansNobody(m, Beginning(m, disk, have, mode), events, content);
  }
}
