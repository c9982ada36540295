// A piece whose last block came while the disk would not read it back stays
// received and unverified (crates/clove-core/src/torrent.rs, `on_block`). When
// that happens, and that it is for good.
module EngineUnread {
  import opened Prelude
  import opened Wire
  import opened PickerSpec
  import opened PickerTheory
  import opened DiskSpec
  import opened EngineSpec
  import opened EngineInvariant
  import opened EngineSteps
  import opened EngineDelivery
  import opened EngineFrame
  import opened EngineTheorems
  import opened EngineSafety
  import opened EngineOutcomes
  import ChokerSpec
  import Bitfields
  import Counting

  /** The check of a piece meets a device error. */
  predicate ReadFails(geo: Geometry, index: nat, io: Io) {
    io.verify.Some? && io.verify.value * BLOCK_LEN < geo.PieceLen(index)
  }

  predicate Writes(io: Io, data: seq<byte>) { io.write.None? || io.write.value >= |data| }

  /** The data is the last block of piece `i`, owed by the peer, written but not
      read back. */
  ghost predicate Strands(m: Meta, s: State, p: Peer, index: nat, begin: nat, data: seq<byte>, io: Io, i: nat) {
    && index == i && !Unasked(m, p, i, begin, data) && Writes(io, data)
    && LastOfPiece(s, (i, begin / BLOCK_LEN)) && ReadFails(m.geo, i, io)
  }

  /** The event delivers the last block of piece `i`, written but not read back. */
  ghost predicate LeavesUnread(m: Meta, s: State, e: Event, i: nat) {
    e.Receive? && e.msg.Piece? && Find(s.peers, e.id).Some? &&
    Strands(m, s, s.peers[Find(s.peers, e.id).value], e.msg.index, e.msg.begin, e.msg.block, e.io, i)
  }

  // ----- whose receipts change

  /** Nothing was received, verified or given up. */
  ghost predicate SameReceipts(s: State, t: State) {
    t.suppliers == s.suppliers && t.picker.have == s.picker.have && t.picker.geo == s.picker.geo
  }

  lemma FillReceipts(s: State, idx: nat, now: nat)
    requires idx < |s.peers|
    ensures SameReceipts(s, FillRequests(s, idx, now).state)
  {
    hide Picker.PickBlocks, Asked, Asks, Again;
  }

  lemma InterestReceipts(s: State, idx: nat, now: nat)
    requires idx < |s.peers|
    ensures SameReceipts(s, UpdateInterest(s, idx, now).state)
  {
    hide FillRequests, Interesting;
    FillReceipts(SetPeer(s, idx, s.peers[idx].(weInterested := true)), idx, now);
  }

  lemma {:induction false} SetChokesReceipts(s: State, ids: seq<nat>, choke: bool)
    ensures SameReceipts(s, SetChokes(s, ids, choke).state)
  {
    if ids != [] { SetChokesReceipts(s, ids[..|ids| - 1], choke); }
  }

  lemma ChokerReceipts(s: State)
    ensures SameReceipts(s, RunChoker(s).state)
  {
    hide SetChokes, ChokerSpec.Plan;
    var d := ChokerSpec.Plan(s.slots, s.round + 1, Snapshots(s));
    var s' := s.(peers := Ranked(s.peers), round := s.round + 1);
    SetChokesReceipts(s', d.unchoke, false);
    SetChokesReceipts(SetChokes(s', d.unchoke, false).state, d.choke, true);
  }

  lemma RoundReceipts(s: State, now: nat)
    ensures SameReceipts(s, ChokeRoundIfDue(s, now).state)
  {
    hide RunChoker;
    ChokerReceipts(s.(lastChokeRound := now));
  }

  lemma DispatchReceipts(m: Meta, s: State, idx: nat, first: bool, msg: Message, now: nat, io: Io)
    requires idx < |s.peers| && |s.disk| == Total(m.files) && !msg.Piece?
    ensures SameReceipts(s, Dispatch(m, s, idx, first, msg, now, io).state)
  {
    hide FillRequests, UpdateInterest, RunChoker, OnBlock, AllPieces, Counting.Count, Present, Bytes, Bitfields.Parse, Bitfields.PiecesOf;
    var p := s.peers[idx];
    match msg {
      case Unchoke => FillReceipts(SetPeer(s, idx, p.(peerChoking := false)), idx, now);
      case Interested => ChokerReceipts(SetPeer(s, idx, p.(theyInterested := true)));
      case Have(i) =>
        InterestReceipts(SetPeer(s, idx, p.(has := p.has + {i})).(picker := s.picker.AddSingle(i)), idx, now);
      case Bitfield(bits) =>
        if Bitfields.Parse(bits, m.geo.numPieces).Ok? {
          InterestReceipts(ReplacePieceSet(s, idx, Bitfields.PiecesOf(bits, m.geo.numPieces)), idx, now);
        }
      case HaveAll => InterestReceipts(ReplacePieceSet(s, idx, AllPieces(m.geo.numPieces)), idx, now);
      case HaveNone => InterestReceipts(ReplacePieceSet(s, idx, {}), idx, now);
      case _ =>
    }
  }

  lemma MaintainPeerReceipts(s: State, idx: nat, now: nat)
    requires idx < |s.peers|
    ensures SameReceipts(s, MaintainPeer(s, idx, now).state)
  {
    hide FillRequests, Expired, Picker.Release;
    var p, late := s.peers[idx], Expired(s, s.peers[idx], now);
    var s' := SetPeer(s, idx, p.(inFlight := p.inFlight - late, strikes := p.strikes + 1)).(picker := s.picker.Release(late));
    FillReceipts(s, idx, now);
    FillReceipts(s', idx, now);
    ReleaseReceipts(s.picker, late);
  }

  lemma ReleaseReceipts(pk: Picker, blocks: set<Block>)
    ensures pk.Release(blocks).have == pk.have && pk.Release(blocks).geo == pk.geo
  {}

  lemma {:induction false} MaintainReceipts(s: State, now: nat, k: nat)
    ensures SameReceipts(s, MaintainBelow(s, now, k).state)
  {
    hide MaintainPeer;
    if k > 0 {
      MaintainReceipts(s, now, k - 1);
      var t := MaintainBelow(s, now, k - 1).state;
      if k - 1 < |t.peers| { MaintainPeerReceipts(t, k - 1, now); }
    }
  }

  // ----- one step

  /** Under the invariant, having all blocks of a missing piece can be read off
      the suppliers. */
  ghost predicate AllSupplied(s: State, i: nat) {
    && i < s.picker.geo.numPieces && i !in s.picker.have
    && forall k :: 0 <= k < s.picker.geo.Blocks(i) ==> (i, k) in s.suppliers
  }

  lemma WholeIsSupplied(m: Meta, s: State, log: set<Delivery>, i: nat)
    requires Inv(m, s, log)
    ensures WholeAndSettled(s, i) <==> AllSupplied(s, i)
  {
    hide PeersOk, FlightExact, AvailabilityExact, DestsOk, IdsOk, Witnessed, HeldVerified;
    assert forall b: Block :: b in s.suppliers <==> s.picker.Received(b);
  }

  lemma SameReceiptsSameWhole(m: Meta, s: State, t: State, log: set<Delivery>, log': set<Delivery>, i: nat)
    requires Inv(m, s, log) && Inv(m, t, log') && SameReceipts(s, t)
    ensures WholeAndSettled(t, i) <==> WholeAndSettled(s, i)
  {
    hide Inv, WholeAndSettled;
    WholeIsSupplied(m, s, log, i);
    WholeIsSupplied(m, t, log', i);
  }

  /** All of a whole piece is on disk, so its check fails to read exactly when
      the device does. */
  lemma WholeIsPresent(m: Meta, s: State, log: set<Delivery>, i: nat)
    requires Inv(m, s, log) && WholeAndSettled(s, i)
    ensures Present(s.disk, m.geo.PieceStart(i), m.geo.PieceLen(i))
  {
    hide Inv, WholeAndSettled;
    ShapeOf(m, s, log);
    m.geo.PieceInside(WholeIndex(s, i));
    forall k | m.geo.PieceStart(i) <= k < m.geo.PieceStart(i) + m.geo.PieceLen(i) ensures k < |s.disk| && s.disk[k].Some? {
      WholeCell(m, s, log, i, k - m.geo.PieceStart(i));
    }
  }

  function WholeIndex(s: State, i: nat): (r: nat)
    requires WholeAndSettled(s, i)
    ensures r == i < s.picker.geo.numPieces
  {
    i
  }

  lemma WholeCell(m: Meta, s: State, log: set<Delivery>, i: nat, o: nat)
    requires Inv(m, s, log) && WholeAndSettled(s, i) && o < m.geo.PieceLen(i)
    ensures var k := m.geo.PieceStart(i) + o; k < |s.disk| && s.disk[k].Some?
  {
    hide PeersOk, FlightExact, AvailabilityExact, DestsOk, IdsOk, HeldVerified;
    var b: Block := (i, o / BLOCK_LEN);
    assert b.1 < m.geo.Blocks(i) && s.picker.Received(b);
    assert WitnessedBlock(m, s.disk, s.suppliers[b], b, log);
  }

  lemma UnreadableExactly(m: Meta, disk: seq<Cell>, i: nat, io: Io)
    requires Present(disk, m.geo.PieceStart(i), m.geo.PieceLen(i)) && i < |m.expected| && m.geo.PieceLen(i) > 0
    ensures Verify(m, disk, i, io.verify) == Unreadable <==> ReadFails(m.geo, i, io)
  {}

  /** The pieces that are whole after an owed block was written. */
  lemma DeliveryLeaves(m: Meta, s: State, log: set<Delivery>, idx: nat, b: Block, data: seq<byte>, now: nat, io: Io, i: nat)
    requires Inv(m, s, log) && idx < |s.peers| && b in s.peers[idx].inFlight && |s.disk| == Total(m.files)
    requires |data| == m.geo.BlockLen(b.0, b.1) && Writes(io, data)
    ensures var t := OnBlock(m, s, idx, b.0, b.1 * BLOCK_LEN, data, now, io).state;
      WholeAndSettled(t, i) <==> WholeAndSettled(s, i) || (i == b.0 && LastOfPiece(s, b) && ReadFails(m.geo, i, io))
  {
    hide Inv, OnBlock, WholeAndSettled, LastOfPiece, ReadFails, Arrived, Askable, AllSupplied, OthersSupplied, Verify, WriteLinear;
    var t := OnBlock(m, s, idx, b.0, b.1 * BLOCK_LEN, data, now, io).state;
    var dest := s.peers[idx].dest;
    var log' := log + {Said(dest, b.0, b.1 * BLOCK_LEN, data)};
    OwedIsAskable(m, s, log, idx, b);
    AskableIsMissing(m, s, log, idx, b);
    OnBlockKeeps(m, s, log, idx, b.0, b.1 * BLOCK_LEN, data, now, io);
    DeliveryEffect(m, s, log, idx, b, data, now, io);
    WholeIsSupplied(m, s, log, i);
    WholeIsSupplied(m, t, log', i);
    LastIsSupplied(m, s, log, b);
    SettledIsReadable(m, s, log, idx, b, data, io);
    ShapeOf(m, t, log');
    ShapeOf(m, s, log);
    SuppliedAfter(m, s, t, idx, b, data, io, i);
  }

  lemma AskableIsMissing(m: Meta, s: State, log: set<Delivery>, idx: nat, b: Block)
    requires Inv(m, s, log) && idx < |s.peers| && b in s.peers[idx].inFlight
    ensures m.geo.InRange(b) && b.0 !in s.picker.have && b !in s.suppliers && !WholeAndSettled(s, b.0)
  {
    hide PeersOk, FlightExact, AvailabilityExact, DestsOk, IdsOk, Witnessed, HeldVerified;
    OwedIsAskable(m, s, log, idx, b);
    assert b in s.suppliers <==> s.picker.Received(b);
  }

  ghost predicate OthersSupplied(m: Meta, s: State, b: Block) {
    forall k :: 0 <= k < m.geo.Blocks(b.0) && k != b.1 ==> (b.0, k) in s.suppliers
  }

  lemma LastIsSupplied(m: Meta, s: State, log: set<Delivery>, b: Block)
    requires Inv(m, s, log)
    ensures LastOfPiece(s, b) <==> OthersSupplied(m, s, b)
  {
    hide PeersOk, FlightExact, AvailabilityExact, DestsOk, IdsOk, Witnessed, HeldVerified;
    assert forall c: Block :: c in s.suppliers <==> s.picker.Received(c);
  }

  /** The check of a piece just completed is unreadable exactly if the device
      fails it. */
  lemma SettledIsReadable(m: Meta, s: State, log: set<Delivery>, idx: nat, b: Block, data: seq<byte>, io: Io)
    requires Inv(m, s, log) && idx < |s.peers| && b in s.peers[idx].inFlight && |s.disk| == Total(m.files)
    requires |data| == m.geo.BlockLen(b.0, b.1) && m.geo.BlockStart(b) + |data| <= |s.disk|
    ensures LastOfPiece(s, b) ==>
      (Verify(m, WriteLinear(m.files, s.disk, m.geo.BlockStart(b), data), b.0, io.verify) == Unreadable <==> ReadFails(m.geo, b.0, io))
  {
    hide Inv, SettledState, WriteLinear, LastOfPiece, Verify, ReadFails, Pending, AcceptBlock, Judge;
    if LastOfPiece(s, b) {
      var t := SettledState(m, s, idx, b, data);
      var log' := log + {(s.peers[idx].dest, b, data)};
      SettledFacts(m, s, log, idx, b, data);
      AcceptUnfolds(m, s, idx, b, data, io);
      AcceptIsSettleThenJudge(m, s, log, idx, b, data, io);
      SettledStateKeeps(m, s, log, idx, b, data);
      WholeIsPresent(m, t, log', b.0);
      ShapeOf(m, t, log');
      m.geo.PieceInside(WholeIndex(t, b.0));
      UnreadableExactly(m, t.disk, b.0, io);
    }
  }

  /** The suppliers after an owed block was written, piece by piece. */
  lemma SuppliedAfter(m: Meta, s: State, t: State, idx: nat, b: Block, data: seq<byte>, io: Io, i: nat)
    requires idx < |s.peers| && |s.disk| == Total(m.files) && m.geo.BlockStart(b) + |data| <= |s.disk|
    requires Arrived(m, s, t, idx, b, data, io)
    requires s.picker.geo == t.picker.geo == m.geo && m.geo.InRange(b) && b.0 !in s.picker.have && b !in s.suppliers
    requires LastOfPiece(s, b) <==> OthersSupplied(m, s, b)
    requires LastOfPiece(s, b) ==>
      (Verify(m, WriteLinear(m.files, s.disk, m.geo.BlockStart(b), data), b.0, io.verify) == Unreadable <==> ReadFails(m.geo, b.0, io))
    ensures AllSupplied(t, i) <==> AllSupplied(s, i) || (i == b.0 && LastOfPiece(s, b) && ReadFails(m.geo, i, io))
  {
    hide LastOfPiece, ReadFails, Verify, WriteLinear, Picker.Received;
    var after := s.suppliers[b := s.peers[idx].dest];
    assert forall k: nat :: (i, k) in after <==> (i, k) in s.suppliers || (i, k) == b;
    if i != b.0 {
      assert forall k: nat :: (i, k) in DropPiece(after, b.0, m.geo.Blocks(b.0)) <==> (i, k) in s.suppliers;
    } else {
      assert (i, b.1) == b && b.1 < m.geo.Blocks(i);
      assert !AllSupplied(s, i);
      assert (i, b.1) !in DropPiece(after, b.0, m.geo.Blocks(b.0));
    }
  }

  lemma BlockLeaves(m: Meta, s: State, log: set<Delivery>, idx: nat, index: nat, begin: nat, data: seq<byte>, now: nat, io: Io, i: nat)
    requires Inv(m, s, log) && idx < |s.peers| && |s.disk| == Total(m.files)
    ensures var t := OnBlock(m, s, idx, index, begin, data, now, io).state;
      WholeAndSettled(t, i) <==> WholeAndSettled(s, i) || Strands(m, s, s.peers[idx], index, begin, data, io, i)
  {
    hide Inv, OnBlock, WholeAndSettled, LastOfPiece, ReadFails, WriteFailed, SameBeliefs;
    var b, log' := (index, begin / BLOCK_LEN), log + {Said(s.peers[idx].dest, index, begin, data)};
    var t := OnBlock(m, s, idx, index, begin, data, now, io).state;
    OnBlockKeeps(m, s, log, idx, index, begin, data, now, io);
    if Unasked(m, s.peers[idx], index, begin, data) {
      UnaskedEffect(m, s, log, idx, index, begin, data, now, io);
      SameBeliefsReceipts(m, s, t, log, log');
      SameReceiptsSameWhole(m, s, t, log, log', i);
    } else {
      assert b.1 * BLOCK_LEN == begin;
      if Writes(io, data) {
        DeliveryLeaves(m, s, log, idx, b, data, now, io, i);
      } else {
        FailedWriteEffect(m, s, log, idx, b, data, now, io);
        FailedReceipts(m, s, t, log, log', b, data[..io.write.value]);
        SameReceiptsSameWhole(m, s, t, log, log', i);
      }
    }
  }

  lemma SameBeliefsReceipts(m: Meta, s: State, t: State, log: set<Delivery>, log': set<Delivery>)
    requires Inv(m, s, log) && Inv(m, t, log') && SameBeliefs(s, t)
    ensures SameReceipts(s, t)
  {
    hide Inv;
    ShapeOf(m, s, log);
    ShapeOf(m, t, log');
  }

  lemma FailedReceipts(m: Meta, s: State, t: State, log: set<Delivery>, log': set<Delivery>, b: Block, written: seq<byte>)
    requires Inv(m, s, log) && Inv(m, t, log') && |s.disk| == Total(m.files) && m.geo.BlockStart(b) + |written| <= |s.disk|
    requires WriteFailed(m, s, t, b, written)
    ensures SameReceipts(s, t)
  {
    hide Inv, WriteLinear;
    ShapeOf(m, s, log);
    ShapeOf(m, t, log');
  }

  lemma HandleLeaves(m: Meta, s0: State, log: set<Delivery>, k: nat, msg: Message, now: nat, io: Io, i: nat)
    requires Inv(m, s0, log) && k < |s0.peers| && |s0.disk| == Total(m.files)
    ensures var t := Handle(m, s0, k, msg, now, io).state;
      if msg.Piece?
      then WholeAndSettled(t, i) <==> WholeAndSettled(s0, i) || Strands(m, s0, s0.peers[k], msg.index, msg.begin, msg.block, io, i)
      else WholeAndSettled(t, i) <==> WholeAndSettled(s0, i)
  {
    hide Inv, OnBlock, Dispatch, ReadFails, Writes;
    var s := if Opens(msg) then SetPeer(s0, k, s0.peers[k].(hasOpened := true)) else s0;
    OpenKeeps(m, s0, log, k);
    HandleKeeps(m, s0, log, k, msg, now, io);
    OpenedSame(s0, s, k);
    if msg.Piece? {
      DispatchPiece(m, s, k, !s0.peers[k].hasOpened, msg.index, msg.begin, msg.block, now, io);
      BlockLeaves(m, s, log, k, msg.index, msg.begin, msg.block, now, io, i);
    } else {
      DispatchReceipts(m, s, k, !s0.peers[k].hasOpened, msg, now, io);
      SameReceiptsSameWhole(m, s, Handle(m, s0, k, msg, now, io).state, log, log, i);
    }
  }

  lemma OpenedSame(s0: State, s: State, k: nat)
    requires k < |s0.peers| && (s == s0 || s == SetPeer(s0, k, s0.peers[k].(hasOpened := true)))
    ensures forall i: nat :: WholeAndSettled(s, i) <==> WholeAndSettled(s0, i)
    ensures forall b: Block :: LastOfPiece(s, b) <==> LastOfPiece(s0, b)
    ensures |s.peers| == |s0.peers| && s.peers[k].inFlight == s0.peers[k].inFlight && s.disk == s0.disk
  {}

  lemma DispatchPiece(m: Meta, s: State, idx: nat, first: bool, index: nat, begin: nat, data: seq<byte>, now: nat, io: Io)
    requires idx < |s.peers| && |s.disk| == Total(m.files)
    ensures Dispatch(m, s, idx, first, Piece(index, begin, data), now, io) == OnBlock(m, s, idx, index, begin, data, now, io)
  {
    hide OnBlock;
  }

  /** A missing piece has all its blocks after a step exactly if it had before,
      or this step delivered the last one and the disk failed to read it back. */
  lemma StepLeavesUnread(m: Meta, s: State, log: set<Delivery>, e: Event, i: nat)
    requires Inv(m, s, log) && |s.disk| == Total(m.files)
    ensures WholeAndSettled(Step(m, s, e).state, i) <==> WholeAndSettled(s, i) || LeavesUnread(m, s, e, i)
  {
    hide Inv, WholeAndSettled, LastOfPiece, Handle, ChokeRoundIfDue, MaintainBelow, ReadFails, Unasked;
    hide Picker.RemoveBitfield, Picker.Release, Picker.SetPriorities;
    StepKeeps(m, s, log, e);
    var t, log' := Step(m, s, e).state, log + Heard(s, e);
    match e {
      case Receive(id, msg, now, io) => MessageLeaves(m, s, log, id, msg, now, io, i);
      case Maintain(now) =>
        MaintainReceipts(s, now, |s.peers|);
        RoundReceipts(MaintainBelow(s, now, |s.peers|).state, now);
        SameReceiptsSameWhole(m, s, t, log, log', i);
      case _ =>
        SettingReceipts(m, s, e);
        SameReceiptsSameWhole(m, s, t, log, log', i);
    }
  }

  lemma SettingReceipts(m: Meta, s: State, e: Event)
    requires |s.disk| == Total(m.files) && !e.Receive? && !e.Maintain?
    ensures SameReceipts(s, Step(m, s, e).state)
  {}

  lemma MessageLeaves(m: Meta, s: State, log: set<Delivery>, id: nat, msg: Message, now: nat, io: Io, i: nat)
    requires Inv(m, s, log) && |s.disk| == Total(m.files)
    ensures WholeAndSettled(OnMessage(m, s, id, msg, now, io).state, i) <==>
      WholeAndSettled(s, i) || LeavesUnread(m, s, Receive(id, msg, now, io), i)
  {
    hide Inv, WholeAndSettled, LastOfPiece, Handle, ChokeRoundIfDue, ReadFails, Unasked;
    var found := Find(s.peers, id);
    var e := match found case None => Effect(s, []) case Some(k) => Handle(m, s, k, msg, now, io);
    var log' := log + Claims(s, id, msg);
    assert log + {} == log;
    if found.Some? {
      HandleLeaves(m, s, log, found.value, msg, now, io, i);
      HandleKeeps(m, s, log, found.value, msg, now, io);
    }
    RoundReceipts(e.state, now);
    OnMessageKeeps(m, s, log, id, msg, now, io);
    SameReceiptsSameWhole(m, e.state, OnMessage(m, s, id, msg, now, io).state, log', log', i);
  }

  // ----- every run

  /** In a run from the start a missing piece has all its blocks exactly if, at
      some step, its last block came and the disk failed to read it back. In
      particular, while the disk reads, none ever does. */
  lemma {:induction false} UnreadExactly(m: Meta, disk: seq<Cell>, have: set<nat>, mode: Mode, events: seq<Event>, i: nat)
    requires FairStart(m, disk, have)
    ensures var w := Beginning(m, disk, have, mode);
      WholeAndSettled(Run(m, w, events).state, i) <==> HappenedUnread(m, w, events, i)
  {
    hide FairStart, Beginning, Run, WorldStep, WholeAndSettled, LeavesUnread, HappenedUnread, WorldInv, Inv;
    BeginsWell(m, disk, have, mode);
    var w := Beginning(m, disk, have, mode);
    if events == [] {
      NothingYet(m, disk, have, mode, i);
      RunNothing(m, w);
    } else {
      var init, e := events[..|events| - 1], events[|events| - 1];
      UnreadExactly(m, disk, have, mode, init, i);
      RunKeeps(m, w, init);
      WorldStepLeaves(m, Run(m, w, init), e, i);
      RunSteps(m, w, events);
      HappenedNext(m, w, events, i);
    }
  }

  /** So while the disk reads what it is asked for, no missing piece ever has
      all its blocks: each is still asked for, or done. */
  lemma NothingUnreadWhileTheDiskReads(m: Meta, disk: seq<Cell>, have: set<nat>, mode: Mode, events: seq<Event>, i: nat)
    requires FairStart(m, disk, have)
    requires forall j :: 0 <= j < |events| && events[j].Receive? ==> events[j].io.verify.None?
    ensures !WholeAndSettled(Run(m, Beginning(m, disk, have, mode), events).state, i)
  {
    hide FairStart, Beginning, Run, WholeAndSettled, LastOfPiece, Unasked;
    UnreadExactly(m, disk, have, mode, events, i);
  }

  ghost predicate HappenedUnread(m: Meta, w: World, events: seq<Event>, i: nat) {
    exists j :: 0 <= j < |events| && LeavesUnread(m, Run(m, w, events[..j]).state, events[j], i)
  }

  lemma HappenedNext(m: Meta, w: World, events: seq<Event>, i: nat)
    requires events != []
    ensures var init, e := events[..|events| - 1], events[|events| - 1];
      HappenedUnread(m, w, events, i) <==> HappenedUnread(m, w, init, i) || LeavesUnread(m, Run(m, w, init).state, e, i)
  {
    hide LeavesUnread, Run;
    var n := |events| - 1;
    var init := events[..n];
    forall j | 0 <= j < n ensures init[..j] == events[..j] && init[j] == events[j] {}
    if HappenedUnread(m, w, init, i) {
      var j :| 0 <= j < |init| && LeavesUnread(m, Run(m, w, init[..j]).state, init[j], i);
      assert LeavesUnread(m, Run(m, w, events[..j]).state, events[j], i);
    }
    if HappenedUnread(m, w, events, i) {
      var j :| 0 <= j < |events| && LeavesUnread(m, Run(m, w, events[..j]).state, events[j], i);
      if j < n { assert LeavesUnread(m, Run(m, w, init[..j]).state, init[j], i); }
    }
  }

  lemma RunSteps(m: Meta, w: World, events: seq<Event>)
    requires events != []
    ensures Run(m, w, events) == WorldStep(m, Run(m, w, events[..|events| - 1]), events[|events| - 1])
  {
    hide WorldStep;
  }

  lemma WorldStepLeaves(m: Meta, w: World, e: Event, i: nat)
    requires WorldInv(m, w)
    ensures WholeAndSettled(WorldStep(m, w, e).state, i) <==> WholeAndSettled(w.state, i) || LeavesUnread(m, w.state, e, i)
  {
    hide Inv, Step, WholeAndSettled, LeavesUnread, AllTruthful;
    ShapeOf(m, w.state, w.log);
    StepLeavesUnread(m, w.state, w.log, e, i);
  }

  lemma NothingYet(m: Meta, disk: seq<Cell>, have: set<nat>, mode: Mode, i: nat)
    requires FairStart(m, disk, have)
    ensures !WholeAndSettled(Beginning(m, disk, have, mode).state, i) && !HappenedUnread(m, Beginning(m, disk, have, mode), [], i)
  {
    NewPickerValid(m.geo, mode);
    HaveAllOfFacts(NewPicker(m.geo, mode), have, m.geo.numPieces);
    if i < m.geo.numPieces {
      m.geo.PieceInside(i);
      assert !Beginning(m, disk, have, mode).state.picker.Received((i, 0));
    }
  }

  /** A missing piece with all its blocks is never asked for, owed, or done. */
  ghost predicate LeftOut(m: Meta, s: State, i: nat) {
    && WholeAndSettled(s, i)
    && (forall has: set<nat>, want: nat, b: Block :: b in s.picker.PickBlocks(has, want) ==> b.0 != i)
    && (forall k, b: Block :: 0 <= k < |s.peers| && b in s.peers[k].inFlight ==> b.0 != i)
    && (s.picker.Wants(i) ==> !s.picker.Complete())
  }

  lemma WholeIsLeftOut(m: Meta, s: State, log: set<Delivery>, i: nat)
    requires Inv(m, s, log) && WholeAndSettled(s, i)
    ensures LeftOut(m, s, i)
  {
    hide Witnessed, HeldVerified, Picker.PickBlocks;
    forall has: set<nat>, want: nat, b: Block | b in s.picker.PickBlocks(has, want) ensures b.0 != i {
      PickHandsOutTheBest(s.picker, has, want);
      assert s.picker.geo.InRange(b) && !s.picker.Received(b);
    }
    NobodyOwesWhole(s, i);
    CompleteMeansNothingMissing(s.picker);
  }

  /** Once unread, always unread: from any reachable state on, through every
      run, a missing piece with all its blocks stays so; nobody is asked for a
      block of it again, so it is not checked again either; and while it is
      wanted the download is not complete. */
  lemma {:induction false} UnreadForGood(m: Meta, w: World, events: seq<Event>, i: nat)
    requires Reachable(m, w) && WholeAndSettled(w.state, i)
    ensures LeftOut(m, Run(m, w, events).state, i)
  {
    hide Reachable, WholeAndSettled, WorldInv, LeftOut, Run, WorldStep, LeavesUnread, Inv;
    ReachableIsSafe(m, w);
    RunKeeps(m, w, events);
    if events == [] {
      RunNothing(m, w);
    } else {
      var init := events[..|events| - 1];
      UnreadForGood(m, w, init, i);
      RunKeeps(m, w, init);
      RunSteps(m, w, events);
      LeftOutIsWhole(m, Run(m, w, init).state, i);
      WorldStepLeaves(m, Run(m, w, init), events[|events| - 1], i);
    }
    InvOf(m, Run(m, w, events));
    WholeIsLeftOut(m, Run(m, w, events).state, Run(m, w, events).log, i);
  }

  lemma RunNothing(m: Meta, w: World)
    ensures Run(m, w, []) == w
  {}

  lemma LeftOutIsWhole(m: Meta, s: State, i: nat)
    requires LeftOut(m, s, i)
    ensures WholeAndSettled(s, i)
  {}
}
