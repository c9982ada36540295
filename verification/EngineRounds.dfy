// When a choke round is run, whom it serves, and that no slot stands free while
// somebody waits for one (crates/clove-core/src/torrent.rs, `run_choker`).
module EngineRounds {
  import opened Prelude
  import opened Wire
  import opened PickerSpec
  import opened PickerTheory
  import opened DiskSpec
  import opened EngineSpec
  import opened EngineInvariant
  import opened EngineSteps
  import opened EngineDelivery
  import opened EngineTheorems
  import opened EngineSafety
  import opened EngineEndgame
  import opened EngineStamps
  import ChokerSpec
  import ChokerMerit
  import Bitfields
  import Counting

  // ----- who is served

  /** What a peer exchanged since the round before: while we lack something
      wanted, what it sent us; once we lack nothing, what it took. */
  function Exchanged(seeding: bool, p: Peer): nat {
    if seeding then SatSub(p.uploaded, p.uploadedAtRound) else SatSub(p.downloaded, p.downloadedAtRound)
  }

  predicate Outdoes(seeding: bool, p: Peer, q: Peer) {
    || Exchanged(seeding, p) > Exchanged(seeding, q)
    || (Exchanged(seeding, p) == Exchanged(seeding, q) && p.id < q.id)
  }

  predicate LeftWaiting(p: Peer, p': Peer) { p.theyInterested && p'.weChoke }

  /** Everybody unchoked in `peers'`, but the peer named, outdid everybody who is
      interested and left choked. */
  ghost predicate BestServed(seeding: bool, peers: seq<Peer>, peers': seq<Peer>, lucky: Option<nat>) {
    && |peers'| == |peers|
    && forall i, j ::
         (0 <= i < |peers| && 0 <= j < |peers| && !peers'[i].weChoke && LeftWaiting(peers[j], peers'[j]) && Some(peers[i].id) != lucky) ==>
         Outdoes(seeding, peers[i], peers[j])
  }

  predicate Waiting(p: Peer) { p.theyInterested && p.weChoke }

  /** No slot is free while an interested peer is choked. */
  ghost predicate SlotsUsed(s: State) {
    (exists k :: 0 <= k < |s.peers| && Waiting(s.peers[k])) ==> Counting.Count(s.peers, Unchoked()) == s.slots
  }

  /** Each peer's exchange starts over. */
  ghost predicate MetersReset(peers: seq<Peer>, peers': seq<Peer>) {
    && |peers'| == |peers|
    && forall k :: 0 <= k < |peers| ==>
         && peers'[k].uploaded == peers'[k].uploadedAtRound == peers[k].uploaded
         && peers'[k].downloaded == peers'[k].downloadedAtRound == peers[k].downloaded
  }

  /** A round served the best of `peers`, in every third round but for one. */
  ghost predicate RoundServed(seeding: bool, round: nat, peers: seq<Peer>, peers': seq<Peer>) {
    && (exists lucky :: BestServed(seeding, peers, peers', lucky))
    && (round % 3 != 0 ==> BestServed(seeding, peers, peers', None))
    && MetersReset(peers, peers')
  }

  lemma AfterRound(s: State)
    requires IdsOk(s.peers, s.nextId)
    ensures var d, shots, t := ChokerSpec.Plan(s.slots, s.round + 1, Snapshots(s)), Snapshots(s), RunChoker(s).state;
      && ChokerSpec.DistinctIds(shots) && |shots| == |t.peers| == |s.peers|
      && forall k :: 0 <= k < |shots| ==>
           && t.peers[k].id == shots[k].id == s.peers[k].id && shots[k].interested == t.peers[k].theyInterested == s.peers[k].theyInterested
           && shots[k].rate == Exchanged(s.picker.Complete(), s.peers[k])
           && (ChokerSpec.UnchokedAfter(d, shots[k]) <==> !t.peers[k].weChoke)
  {
    hide ChokerSpec.Chosen, ChokerSpec.Decide, RunChoker;
    RunChokerEffect(s);
    var shots := Snapshots(s);
    assert ChokerSpec.DistinctIds(shots);
    ChokerSpec.DecisionRealisesTheChoice(ChokerSpec.Chosen(s.slots, s.round + 1, shots), shots);
    assert forall k :: 0 <= k < |shots| ==> shots[k] in shots;
  }

  lemma BestAreServed(s: State, lucky: Option<nat>)
    requires IdsOk(s.peers, s.nextId)
    requires ChokerMerit.FastestBut(ChokerSpec.Plan(s.slots, s.round + 1, Snapshots(s)), Snapshots(s), lucky)
    ensures BestServed(s.picker.Complete(), s.peers, RunChoker(s).state.peers, lucky)
  {
    hide ChokerSpec.Plan, RunChoker, Exchanged, ChokerSpec.UnchokedAfter;
    AfterRound(s);
    var shots, t, seeding := Snapshots(s), RunChoker(s).state, s.picker.Complete();
    var d := ChokerSpec.Plan(s.slots, s.round + 1, shots);
    forall i, j | 0 <= i < |s.peers| && 0 <= j < |s.peers| && !t.peers[i].weChoke && LeftWaiting(s.peers[j], t.peers[j])
      && Some(s.peers[i].id) != lucky
      ensures Outdoes(seeding, s.peers[i], s.peers[j])
    {
      assert shots[i] in shots && shots[j] in shots;
      assert ChokerMerit.LeftOut(d, shots[j]);
      assert ChokerMerit.Faster(shots[i], shots[j]);
    }
  }

  lemma RoundServes(s: State)
    requires IdsOk(s.peers, s.nextId) && s.slots > 0
    ensures RoundServed(s.picker.Complete(), s.round + 1, s.peers, RunChoker(s).state.peers)
  {
    hide ChokerSpec.Plan, RunChoker, BestServed, ChokerMerit.FastestBut;
    AfterRound(s);
    ChokerMerit.FastestAreServed(s.slots, s.round + 1, Snapshots(s));
    var d := ChokerSpec.Plan(s.slots, s.round + 1, Snapshots(s));
    var lucky :| ChokerMerit.FastestBut(d, Snapshots(s), lucky);
    BestAreServed(s, lucky);
    if (s.round + 1) % 3 != 0 { BestAreServed(s, None); }
    RunChokerEffect(s);
  }

  lemma RoundFillsSlots(s: State)
    requires IdsOk(s.peers, s.nextId) && s.slots > 0
    ensures SlotsUsed(RunChoker(s).state)
  {
    hide ChokerSpec.Plan, RunChoker, ChokerMerit.On, ChokerSpec.UnchokedAfter;
    AfterRound(s);
    RunChokerEffect(s);
    var d, shots, t := ChokerSpec.Plan(s.slots, s.round + 1, Snapshots(s)), Snapshots(s), RunChoker(s).state;
    ChokerMerit.SlotsAreUsed(s.slots, s.round + 1, shots);
    UnchokedAreOn(s);
    if k :| 0 <= k < |t.peers| && Waiting(t.peers[k]) {
      assert shots[k] in shots && ChokerMerit.LeftOut(d, shots[k]);
    }
  }

  lemma UnchokedAreOn(s: State)
    requires IdsOk(s.peers, s.nextId)
    ensures Counting.Count(RunChoker(s).state.peers, Unchoked()) ==
      |ChokerMerit.On(ChokerSpec.Plan(s.slots, s.round + 1, Snapshots(s)), Snapshots(s))|
  {
    hide ChokerSpec.Plan, RunChoker, ChokerSpec.UnchokedAfter;
    AfterRound(s);
    var d, shots, t := ChokerSpec.Plan(s.slots, s.round + 1, Snapshots(s)), Snapshots(s), RunChoker(s).state;
    var ids := KeysOf(t.peers);
    forall x ensures x in ids <==> x in ChokerMerit.On(d, shots) {
      if x in ids {
        var k :| 0 <= k < |t.peers| && !t.peers[k].weChoke && t.peers[k].id == x;
        assert shots[k] in shots;
      }
      if x in ChokerMerit.On(d, shots) {
        var p :| p in shots && ChokerSpec.UnchokedAfter(d, p) && p.id == x;
        var k :| 0 <= k < |shots| && shots[k] == p;
        assert !t.peers[k].weChoke && t.peers[k].id == x;
      }
    }
    assert ids == ChokerMerit.On(d, shots);
    CountIsKeys(t.peers);
  }

  function KeysOf(peers: seq<Peer>): set<nat> { set k: nat | k < |peers| && !peers[k].weChoke :: peers[k].id }

  lemma {:induction false} CountIsKeys(peers: seq<Peer>)
    requires forall i, j :: 0 <= i < j < |peers| ==> peers[i].id != peers[j].id
    ensures Counting.Count(peers, Unchoked()) == |KeysOf(peers)|
  {
    if peers == [] {
      assert KeysOf(peers) == {};
    } else {
      var init, last := peers[..|peers| - 1], peers[|peers| - 1];
      CountIsKeys(init);
      OneMoreKey(init, last);
      assert peers == init + [last];
    }
  }

  lemma OneMoreKey(init: seq<Peer>, last: Peer)
    requires forall i :: 0 <= i < |init| ==> init[i].id != last.id
    ensures |KeysOf(init + [last])| == |KeysOf(init)| + (if last.weChoke then 0 else 1)
  {
    var peers := init + [last];
    assert peers[|init|] == last;
    var more := if last.weChoke then {} else {last.id};
    forall x ensures x in KeysOf(peers) <==> x in KeysOf(init) || x in more {
      if x in KeysOf(init) {
        var k: nat :| k < |init| && !init[k].weChoke && init[k].id == x;
        assert peers[k] == init[k];
      }
    }
    assert KeysOf(peers) == KeysOf(init) + more;
    assert last.id !in KeysOf(init);
  }

  // ----- when

  /** Neither a round was run nor its timing changed. */
  predicate SameClock(s: State, t: State) {
    t.round == s.round && t.lastChokeRound == s.lastChokeRound && t.chokeInterval == s.chokeInterval
  }

  lemma FillClock(s: State, idx: nat, now: nat)
    requires idx < |s.peers|
    ensures SameClock(s, FillRequests(s, idx, now).state)
  {
    hide Picker.PickBlocks, Picker.AfterPick, Picker.Release, Asked, Asks, Again;
  }

  lemma InterestClock(s: State, idx: nat, now: nat)
    requires idx < |s.peers|
    ensures SameClock(s, UpdateInterest(s, idx, now).state)
  {
    hide FillRequests, Interesting;
    FillClock(SetPeer(s, idx, s.peers[idx].(weInterested := true)), idx, now);
  }

  lemma JudgeClock(m: Meta, s: State, index: nat, io: Io)
    ensures SameClock(s, Judge(m, s, index, io).state)
  {
    hide Verify, BlameSuppliers, CreditBelow, DropPiece;
    BlameEffect(s.(picker := s.picker.ResetPiece(index)), index);
  }

  lemma StoreClock(m: Meta, s: State, idx: nat, b: Block, data: seq<byte>, io: Io)
    requires idx < |s.peers| && |s.disk| == Total(m.files)
    ensures SameClock(s, StoreBlock(m, s, idx, b, data, io).0.state)
  {
    hide AcceptBlock, WriteLinear, Picker.BlockFailed;
    var start := m.geo.BlockStart(b);
    if start + |data| <= |s.disk| && !(io.write.Some? && io.write.value < |data|) {
      AcceptClock(m, s.(disk := WriteLinear(m.files, s.disk, start, data)), idx, b, |data|, io);
    }
  }

  lemma AcceptClock(m: Meta, s: State, idx: nat, b: Block, len: nat, io: Io)
    requires idx < |s.peers|
    ensures SameClock(s, AcceptBlock(m, s, idx, b, len, io).0.state)
  {
    hide Judge, Cancels, Withdrawn, Picker.BlockReceived, Picker.Lower;
    var p := s.peers[idx];
    var t := CancelElsewhere(SetPeer(s, idx, p.(downloaded := p.downloaded + len)).(suppliers := s.suppliers[b := p.dest]), idx, b).state;
    JudgeClock(m, t.(picker := t.picker.BlockReceived(b).0), b.0, io);
  }

  lemma OnBlockClock(m: Meta, s: State, idx: nat, index: nat, begin: nat, data: seq<byte>, now: nat, io: Io)
    requires idx < |s.peers| && |s.disk| == Total(m.files)
    ensures SameClock(s, OnBlock(m, s, idx, index, begin, data, now, io).state)
  {
    hide FillRequests, StoreBlock, Picker.BlockFailed;
    var b: Block := (index, begin / BLOCK_LEN);
    var p := s.peers[idx];
    if begin % BLOCK_LEN == 0 && index < m.geo.numPieces && |data| == m.geo.BlockLen(b.0, b.1) {
      var s1 := if b in p.inFlight then SetPeer(s, idx, p.(inFlight := p.inFlight - {b}, strikes := 0)) else s;
      FillClock(s1, idx, now);
      FillClock(s1.(picker := s.picker.BlockFailed(b)), idx, now);
      StoreClock(m, s1, idx, b, data, io);
      var t := StoreBlock(m, s1, idx, b, data, io).0.state;
      if idx < |t.peers| { FillClock(t, idx, now); }
    }
  }

  lemma DispatchClock(m: Meta, s: State, idx: nat, first: bool, msg: Message, now: nat, io: Io)
    requires idx < |s.peers| && |s.disk| == Total(m.files) && !msg.Interested?
    ensures SameClock(s, Dispatch(m, s, idx, first, msg, now, io).state)
  {
    hide FillRequests, UpdateInterest, OnBlock, AllPieces, Counting.Count, Present, Bytes, Picker.AddSingle, Picker.Release;
    hide Picker.AddBitfield, Picker.RemoveBitfield;
    var p := s.peers[idx];
    match msg {
      case Unchoke => FillClock(SetPeer(s, idx, p.(peerChoking := false)), idx, now);
      case Have(i) => InterestClock(SetPeer(s, idx, p.(has := p.has + {i})).(picker := s.picker.AddSingle(i)), idx, now);
      case Bitfield(bits) =>
        if Bitfields.Parse(bits, m.geo.numPieces).Ok? {
          InterestClock(ReplacePieceSet(s, idx, Bitfields.PiecesOf(bits, m.geo.numPieces)), idx, now);
        }
      case HaveAll => InterestClock(ReplacePieceSet(s, idx, AllPieces(m.geo.numPieces)), idx, now);
      case HaveNone => InterestClock(ReplacePieceSet(s, idx, {}), idx, now);
      case Piece(index, begin, data) => OnBlockClock(m, s, idx, index, begin, data, now, io);
      case _ =>
    }
  }

  /** Interest is news worth a round at once: a slot is free. */
  predicate Eager(s: State, e: Event) {
    e.Receive? && e.msg.Interested? && Find(s.peers, e.id).Some? && Counting.Count(s.peers, Unchoked()) < s.slots
  }

  predicate Due(s: State, now: nat) { SatSub(now, s.lastChokeRound) >= s.chokeInterval }

  /** The state once interest is noted, before any round. */
  function InterestNoted(s: State, idx: nat): State
    requires idx < |s.peers|
  {
    SetPeer(s, idx, s.peers[idx].(hasOpened := true, theyInterested := true))
  }

  lemma InterestedHandled(m: Meta, s: State, idx: nat, now: nat, io: Io)
    requires idx < |s.peers| && |s.disk| == Total(m.files)
    ensures var t := InterestNoted(s, idx);
      Handle(m, s, idx, Message.Interested, now, io) ==
        if Counting.Count(s.peers, Unchoked()) < s.slots then RunChoker(t) else Effect(t, [])
  {
    hide RunChoker, Counting.Count;
    var q := s.peers[idx].(hasOpened := true);
    EditTwice(s.peers, idx, q, q.(theyInterested := true));
    SameCount(s.peers, idx, q.(theyInterested := true));
  }

  lemma InterestedEffect(m: Meta, s: State, log: set<Delivery>, idx: nat, now: nat, io: Io)
    requires Inv(m, s, log) && idx < |s.peers| && |s.disk| == Total(m.files)
    ensures var t := Handle(m, s, idx, Message.Interested, now, io).state;
      && t.lastChokeRound == s.lastChokeRound && t.chokeInterval == s.chokeInterval
      && t.round == s.round + (if Counting.Count(s.peers, Unchoked()) < s.slots then 1 else 0)
      && SlotsUsed(t)
  {
    hide Inv, Handle, RunChoker, SlotsUsed, Counting.Count;
    var t := InterestNoted(s, idx);
    ClockFacts(m, s, log);
    InterestedHandled(m, s, idx, now, io);
    SameCount(s.peers, idx, t.peers[idx]);
    NotedIds(s, idx);
    RunChokerEffect(t);
    RoundFillsSlots(t);
    if Counting.Count(s.peers, Unchoked()) >= s.slots { FullIsUsed(t); }
  }

  lemma NotedIds(s: State, idx: nat)
    requires idx < |s.peers| && IdsOk(s.peers, s.nextId)
    ensures IdsOk(InterestNoted(s, idx).peers, s.nextId)
  {}

  lemma FullIsUsed(s: State)
    requires Counting.Count(s.peers, Unchoked()) == s.slots
    ensures SlotsUsed(s)
  {}

  lemma SameCount(peers: seq<Peer>, idx: nat, p: Peer)
    requires idx < |peers| && p.weChoke == peers[idx].weChoke
    ensures Counting.Count(peers[idx := p], Unchoked()) == Counting.Count(peers, Unchoked())
  {
    Counting.CountUpdate(peers, Unchoked(), idx, p);
  }

  lemma RoundClock(s: State, now: nat)
    requires IdsOk(s.peers, s.nextId) && s.slots > 0
    ensures var t := ChokeRoundIfDue(s, now).state;
      && t.lastChokeRound == (if Due(s, now) then now else s.lastChokeRound)
      && t.round == s.round + (if Due(s, now) then 1 else 0)
      && (Due(s, now) || SlotsUsed(s) ==> SlotsUsed(t))
  {
    hide RunChoker, SlotsUsed;
    RunChokerEffect(s.(lastChokeRound := now));
    RoundFillsSlots(s.(lastChokeRound := now));
  }

  lemma ClockFacts(m: Meta, s: State, log: set<Delivery>)
    requires Inv(m, s, log)
    ensures IdsOk(s.peers, s.nextId) && s.slots > 0 && Counting.Count(s.peers, Unchoked()) <= s.slots
  {}

  lemma MessageRounds(m: Meta, s: State, log: set<Delivery>, e: Event)
    requires Inv(m, s, log) && |s.disk| == Total(m.files) && e.Receive?
    ensures RoundsKept(s, e, Step(m, s, e).state)
  {
    hide Inv, Handle, ChokeRoundIfDue, SlotsUsed, Dispatch, Counting.Count;
    var found := Find(s.peers, e.id);
    var f := match found case None => Effect(s, []) case Some(k) => Handle(m, s, k, e.msg, e.now, e.io);
    ClockFacts(m, s, log);
    if found.Some? {
      var k := found.value;
      HandleKeeps(m, s, log, k, e.msg, e.now, e.io);
      ClockFacts(m, f.state, if e.msg.Piece? then log + {Said(s.peers[k].dest, e.msg.index, e.msg.begin, e.msg.block)} else log);
      if e.msg.Interested? {
        InterestedEffect(m, s, log, k, e.now, e.io);
      } else {
        HandleClock(m, s, k, e.msg, e.now, e.io);
      }
    }
    RoundClock(f.state, e.now);
    EmptiedKeeps(ChokeRoundIfDue(f.state, e.now).state);
  }

  lemma EmptiedKeeps(s: State)
    ensures SlotsUsed(s.(toDrop := [])) <==> SlotsUsed(s)
  {}

  lemma HandleClock(m: Meta, s: State, idx: nat, msg: Message, now: nat, io: Io)
    requires idx < |s.peers| && |s.disk| == Total(m.files) && !msg.Interested?
    ensures SameClock(s, Handle(m, s, idx, msg, now, io).state)
  {
    hide Dispatch;
    var p := s.peers[idx];
    DispatchClock(m, if Opens(msg) then SetPeer(s, idx, p.(hasOpened := true)) else s, idx, !p.hasOpened, msg, now, io);
  }

  lemma {:induction false} MaintainClock(s: State, now: nat, k: nat)
    ensures SameClock(s, MaintainBelow(s, now, k).state)
  {
    hide MaintainPeer;
    if k > 0 {
      MaintainClock(s, now, k - 1);
      var t := MaintainBelow(s, now, k - 1).state;
      if k - 1 < |t.peers| { MaintainPeerClock(t, k - 1, now); }
    }
  }

  lemma MaintainPeerClock(s: State, idx: nat, now: nat)
    requires idx < |s.peers|
    ensures SameClock(s, MaintainPeer(s, idx, now).state)
  {
    hide FillRequests, Expired, Picker.Release;
    var p, late := s.peers[idx], Expired(s, s.peers[idx], now);
    FillClock(s, idx, now);
    FillClock(SetPeer(s, idx, p.(inFlight := p.inFlight - late, strikes := p.strikes + 1)).(picker := s.picker.Release(late)), idx, now);
  }

  lemma TickRounds(m: Meta, s: State, log: set<Delivery>, e: Event)
    requires Inv(m, s, log) && |s.disk| == Total(m.files) && e.Maintain?
    ensures RoundsKept(s, e, Step(m, s, e).state)
  {
    hide Inv, MaintainBelow, ChokeRoundIfDue, SlotsUsed;
    var t := MaintainBelow(s, e.now, |s.peers|).state;
    MaintainKeeps(m, s, log, e.now, |s.peers|);
    ClockFacts(m, t, log);
    MaintainClock(s, e.now, |s.peers|);
    RoundClock(t, e.now);
    EmptiedKeeps(ChokeRoundIfDue(t, e.now).state);
  }

  /** A message or tick runs a round on time if one is due, one more at once if
      a peer's interest finds a slot free, and no other; and after either, and
      after any word of interest, no slot is free while somebody waits. */
  ghost predicate RoundsKept(s: State, e: Event, t: State)
    requires e.Receive? || e.Maintain?
  {
    && t.lastChokeRound == (if Due(s, e.now) then e.now else s.lastChokeRound)
    && t.round == s.round + (if Due(s, e.now) then 1 else 0) + (if Eager(s, e) then 1 else 0)
    && (Due(s, e.now) || (e.Receive? && e.msg.Interested? && Find(s.peers, e.id).Some?) ==> SlotsUsed(t))
  }

  lemma RoundsAreRunOnTime(m: Meta, w: World, e: Event)
    requires Reachable(m, w) && (e.Receive? || e.Maintain?)
    ensures |w.state.disk| == Total(m.files) && RoundsKept(w.state, e, Step(m, w.state, e).state)
  {
    hide Reachable, Inv, RoundsKept, Step;
    ReachableIsSafe(m, w);
    InvOf(m, w);
    ShapeOf(m, w.state, w.log);
    if e.Receive? { MessageRounds(m, w.state, w.log, e); } else { TickRounds(m, w.state, w.log, e); }
  }

  // ----- what a tick's round goes by

  /** Only debts and strikes differ. */
  ghost predicate SameMeters(s: State, t: State) {
    && |t.peers| == |s.peers| && t.picker.missingWanted == s.picker.missingWanted
    && forall k :: 0 <= k < |s.peers| ==>
         t.peers[k] == s.peers[k].(inFlight := t.peers[k].inFlight, strikes := t.peers[k].strikes)
  }

  lemma FillMeters(s: State, idx: nat, now: nat)
    requires idx < |s.peers|
    ensures SameMeters(s, FillRequests(s, idx, now).state)
  {
    hide Picker.PickBlocks, Asked, Asks, Again;
    RefillPeers(s, idx, now);
    AfterPickMissing(s.picker, s.peers[idx].has, SatSub(PIPELINE_DEPTH, |s.peers[idx].inFlight|), Again(s.peers[idx].inFlight, Handed(s, idx)));
  }

  lemma AfterPickMissing(pk: Picker, has: set<nat>, space: nat, blocks: set<Block>)
    ensures pk.AfterPick(has, space).Release(blocks).missingWanted == pk.missingWanted
    ensures pk.Release(blocks).missingWanted == pk.missingWanted
  {}

  lemma MaintainPeerMeters(s: State, idx: nat, now: nat)
    requires idx < |s.peers|
    ensures SameMeters(s, MaintainPeer(s, idx, now).state)
  {
    hide FillRequests, Expired, Picker.Release, SameMeters;
    var p, late := s.peers[idx], Expired(s, s.peers[idx], now);
    AfterPickMissing(s.picker, {}, 0, late);
    FillMeters(s, idx, now);
    var q := p.(inFlight := p.inFlight - late, strikes := p.strikes + 1);
    var t := SetPeer(s, idx, q).(picker := s.picker.Release(late));
    EditMeters(s, idx, q, t);
    FillMeters(t, idx, now);
    MetersThrough(s, t, FillRequests(t, idx, now).state);
  }

  lemma EditMeters(s: State, idx: nat, p: Peer, t: State)
    requires idx < |s.peers| && t.peers == s.peers[idx := p] && t.picker.missingWanted == s.picker.missingWanted
    requires p == s.peers[idx].(inFlight := p.inFlight, strikes := p.strikes)
    ensures SameMeters(s, t)
  {}

  lemma MetersThrough(s: State, t: State, u: State)
    requires SameMeters(s, t) && SameMeters(t, u)
    ensures SameMeters(s, u)
  {}

  lemma {:induction false} MaintainMeters(s: State, now: nat, k: nat)
    ensures SameMeters(s, MaintainBelow(s, now, k).state)
  {
    hide MaintainPeer;
    if k > 0 {
      MaintainMeters(s, now, k - 1);
      var t := MaintainBelow(s, now, k - 1).state;
      if k - 1 < |t.peers| { MaintainPeerMeters(t, k - 1, now); }
    }
  }

  /** A tick that comes when a round is due leaves unchoked those who exchanged
      the most with us since the last round, while we lack something by what they
      sent and once we are complete by what they took; in every third round all
      but one of them. The meters start over. */
  lemma RoundsRewardExchange(m: Meta, w: World, now: nat)
    requires Reachable(m, w) && Due(w.state, now)
    ensures RoundServed(w.state.picker.Complete(), w.state.round + 1, w.state.peers, OnTick(w.state, now).state.peers)
  {
    hide Reachable, Inv, RunChoker, MaintainBelow, RoundServed;
    ReachableIsSafe(m, w);
    InvOf(m, w);
    var s := w.state;
    var t := MaintainBelow(s, now, |s.peers|).state;
    MaintainMeters(s, now, |s.peers|);
    MaintainClock(s, now, |s.peers|);
    MaintainKeeps(m, s, w.log, now, |s.peers|);
    ClockFacts(m, t, w.log);
    var u := t.(lastChokeRound := now);
    RoundServes(u);
    ServedAlike(s.picker.Complete(), s.round + 1, s, t, RunChoker(u).state.peers);
  }

  lemma ServedAlike(seeding: bool, round: nat, s: State, t: State, peers': seq<Peer>)
    requires SameMeters(s, t) && RoundServed(seeding, round, t.peers, peers')
    ensures RoundServed(seeding, round, s.peers, peers')
  {
    forall lucky: Option<nat> | BestServed(seeding, t.peers, peers', lucky) ensures BestServed(seeding, s.peers, peers', lucky) {
      forall i, j | 0 <= i < |s.peers| && 0 <= j < |s.peers| && !peers'[i].weChoke && LeftWaiting(s.peers[j], peers'[j])
        && Some(s.peers[i].id) != lucky
        ensures Outdoes(seeding, s.peers[i], s.peers[j])
      {
        assert Outdoes(seeding, t.peers[i], t.peers[j]);
      }
    }
  }
}
