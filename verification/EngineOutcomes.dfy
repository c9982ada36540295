// What a message about data comes to, from any reachable state: when a request
// is answered, and what becomes of a block that arrives.
module EngineOutcomes {
  import opened Prelude
  import opened Wire
  import opened PickerSpec
  import opened PickerTheory
  import opened DiskSpec
  import opened EngineSpec
  import opened EngineInvariant
  import opened EngineSteps
  import opened EngineDelivery
  import opened EngineTheorems
  import opened EngineSafety
  import ChokerSpec
  import Counting

  // ----- serving

  /** What a peer may ask and be given: some of a held piece, no more than a
      block's worth, while we do not choke it. */
  predicate Servable(m: Meta, s: State, p: Peer, req: BlockRequest) {
    && !p.weChoke && 0 < req.length <= BLOCK_LEN
    && req.index in s.picker.have && req.begin + req.length <= m.geo.PieceLen(req.index)
  }

  /** A request is answered exactly when it may be and the disk reads; the bytes
      are always there. Anything else is ignored. */
  lemma RequestsAreAnswered(m: Meta, w: World, idx: nat, req: BlockRequest, io: Io)
    requires Reachable(m, w) && idx < |w.state.peers|
    ensures var p, e := w.state.peers[idx], ServeRequest(m, w.state, idx, req, io);
      var start := m.geo.PieceStart(req.index) + req.begin;
      if Servable(m, w.state, p, req) && !io.serve
      then Present(w.state.disk, start, req.length)
        && e.out == [Outgoing(p.id, Piece(req.index, req.begin, Bytes(w.state.disk, start, req.length)))]
      else e == Effect(w.state, [])
  {
    hide Reachable, Tables, Witnessed, Bytes;
    ReachableIsSafe(m, w);
    if Servable(m, w.state, w.state.peers[idx], req) {
      assert Verified(m, w.state.disk, req.index);
    }
  }

  // ----- blocks

  /** Every other block of the piece is in. */
  ghost predicate LastOfPiece(s: State, b: Block) {
    forall k :: 0 <= k < s.picker.geo.Blocks(b.0) && k != b.1 ==> s.picker.Received((b.0, k))
  }

  /** The block is in, blamed on who sent it; nothing is decided. */
  ghost predicate Pending(s: State, t: State, b: Block, dest: Dest) {
    t.picker.have == s.picker.have && t.picker.Received(b) && t.suppliers == s.suppliers[b := dest]
  }

  /** The piece is thrown away, to be asked for again from the start. */
  ghost predicate Rejected(s: State, t: State, index: nat) {
    t.picker.have == s.picker.have && forall k: nat :: !t.picker.Received((index, k)) && (index, k) !in t.suppliers
  }

  /** Nobody is left to blame for the piece of the block that came; for the
      others, whoever was. */
  predicate PieceClosed(s: State, t: State, b: Block, dest: Dest) {
    t.suppliers == DropPiece(s.suppliers[b := dest], b.0, s.picker.geo.Blocks(b.0))
  }

  /** What the hash check makes of a piece whose last block `b` just came. */
  ghost predicate Decided(m: Meta, s: State, t: State, b: Block, dest: Dest, io: Io) {
    match Verify(m, t.disk, b.0, io.verify)
    case Matches => t.picker.have == s.picker.have + {b.0} && PieceClosed(s, t, b, dest)
    case Mismatch => Rejected(s, t, b.0) && PieceClosed(s, t, b, dest)
    case Unreadable => Pending(s, t, b, dest)
  }

  lemma DecidedThrough(m: Meta, s: State, t: State, u: State, b: Block, dest: Dest, io: Io)
    requires Decided(m, s, t, b, dest, io)
    requires u.disk == t.disk && u.suppliers == t.suppliers && u.picker.have == t.picker.have
    requires forall c: Block :: u.picker.Received(c) == t.picker.Received(c)
    ensures Decided(m, s, u, b, dest, io)
  {}

  lemma RefillLeaves(m: Meta, t: State, log: set<Delivery>, idx: nat, now: nat)
    requires Inv(m, t, log) && idx < |t.peers|
    ensures var u := FillRequests(t, idx, now).state;
      && u.disk == t.disk && u.suppliers == t.suppliers && u.picker.have == t.picker.have && u.banned == t.banned
      && forall c: Block :: u.picker.Received(c) == t.picker.Received(c)
  {
    hide Picker.PickBlocks, Picker.AfterPick, Picker.Release, Picker.Received, Asked, Asks, Again;
    var p := t.peers[idx];
    RefillPicker(t.picker, p.has, p.inFlight, SatSub(PIPELINE_DEPTH, |p.inFlight|));
  }

  /** The handler of an owed, well-formed block whose write succeeds. */
  lemma OwedIsAccepted(m: Meta, s: State, log: set<Delivery>, idx: nat, b: Block, data: seq<byte>, now: nat, io: Io)
    requires Inv(m, s, log) && idx < |s.peers| && b in s.peers[idx].inFlight && |s.disk| == Total(m.files)
    requires |data| == m.geo.BlockLen(b.0, b.1) && (io.write.Some? ==> io.write.value >= |data|)
    ensures m.geo.BlockStart(b) + |data| <= |s.disk|
    ensures var p := s.peers[idx];
      var s1 := SetPeer(s, idx, p.(inFlight := p.inFlight - {b}, strikes := 0))
        .(disk := WriteLinear(m.files, s.disk, m.geo.BlockStart(b), data));
      var (e, refill) := AcceptBlock(m, s1, idx, b, |data|, io);
      && idx < |e.state.peers|
      && OnBlock(m, s, idx, b.0, b.1 * BLOCK_LEN, data, now, io) ==
        if refill then FillRequests(e.state, idx, now).After(e.out) else e
  {
    hide Inv, AcceptBlock, FillRequests, WriteLinear;
    OwedIsAskable(m, s, log, idx, b);
    AcceptKeeps(m, s, log, idx, b, data, io);
  }

  /** The tables after an accepted block, before the verdict. */
  lemma SettledFacts(m: Meta, s: State, log: set<Delivery>, idx: nat, b: Block, data: seq<byte>)
    requires Inv(m, s, log) && idx < |s.peers| && b in s.peers[idx].inFlight && |s.disk| == Total(m.files)
    requires |data| == m.geo.BlockLen(b.0, b.1) && m.geo.BlockStart(b) + |data| <= |s.disk|
    ensures var t := SettledState(m, s, idx, b, data);
      && Pending(s, t, b, s.peers[idx].dest)
      && t.picker == s.picker.(progress := t.picker.progress)
      && (forall c: Block :: c != b ==> t.picker.Received(c) == s.picker.Received(c))
      && t.disk == WriteLinear(m.files, s.disk, m.geo.BlockStart(b), data)
      && (CancelElsewhere(NotedState(m, s, idx, b, data), idx, b).state.picker.BlockReceived(b).1 <==> LastOfPiece(s, b))
  {
    hide Inv, Picker.Valid, Cancels, Withdrawn, Picker.Lower, Picker.BlockReceived, WriteLinear;
    OwedIsAskable(m, s, log, idx, b);
    ShapeOf(m, s, log);
    var p := s.peers[idx];
    var p1 := p.(inFlight := p.inFlight - {b}, strikes := 0, downloaded := p.downloaded + |data|);
    var peers1 := s.peers[idx := p1];
    CancelsAreTheOtherOwers(m.geo, s.peers, idx, b, p1);
    SettledPicker(s.picker, b, |Cancels(m.geo, peers1, idx, b, |peers1|)|);
  }

  /** What judging comes to. */
  lemma JudgeOutcome(m: Meta, s: State, t: State, index: nat, io: Io, b: Block, dest: Dest)
    requires t.picker.Valid() && t.picker.geo == m.geo && s.picker.geo == m.geo && index == b.0 && index < m.geo.numPieces && index !in t.picker.have
    requires SuppliersExact(t.picker, t.suppliers) && Pending(s, t, b, dest)
    ensures var u := Judge(m, t, index, io).state;
      u.disk == t.disk && Decided(m, s, u, b, dest, io)
  {
    hide Verify, BlameSuppliers, CreditBelow;
    var r := t.(picker := t.picker.ResetPiece(index));
    BlameEffect(r, index);
    assert forall k: nat :: (index, k) in t.suppliers ==> t.picker.Received((index, k)) && k < m.geo.Blocks(index);
  }

  /** What becomes of an owed block of the right length that is written. */
  ghost predicate Arrived(m: Meta, s: State, t: State, idx: nat, b: Block, data: seq<byte>, io: Io)
    requires idx < |s.peers| && |s.disk| == Total(m.files) && m.geo.BlockStart(b) + |data| <= |s.disk|
  {
    && t.disk == WriteLinear(m.files, s.disk, m.geo.BlockStart(b), data)
    && if !LastOfPiece(s, b) then Pending(s, t, b, s.peers[idx].dest)
       else Decided(m, s, t, b, s.peers[idx].dest, io)
  }

  lemma DeliveryEffect(m: Meta, s: State, log: set<Delivery>, idx: nat, b: Block, data: seq<byte>, now: nat, io: Io)
    requires Inv(m, s, log) && idx < |s.peers| && b in s.peers[idx].inFlight && |s.disk| == Total(m.files)
    requires |data| == m.geo.BlockLen(b.0, b.1) && (io.write.Some? ==> io.write.value >= |data|)
    ensures m.geo.BlockStart(b) + |data| <= |s.disk|
    ensures Arrived(m, s, OnBlock(m, s, idx, b.0, b.1 * BLOCK_LEN, data, now, io).state, idx, b, data, io)
  {
    hide Inv, AcceptBlock, OnBlock, Judge, SettledState, WriteLinear, FillRequests, Pending, LastOfPiece, Decided;
    ShapeOf(m, s, log);
    OwedIsAccepted(m, s, log, idx, b, data, now, io);
    AcceptUnfolds(m, s, idx, b, data, io);
    SettledFacts(m, s, log, idx, b, data);
    AcceptIsSettleThenJudge(m, s, log, idx, b, data, io);
    SettledStateKeeps(m, s, log, idx, b, data);
    var log' := log + {(s.peers[idx].dest, b, data)};
    var t := SettledState(m, s, idx, b, data);
    if LastOfPiece(s, b) {
      JudgedFacts(m, s, t, log', b, s.peers[idx].dest, idx, now, io);
    }
  }

  /** An owed block of the right length, written without error: it stays pending
      until it completes its piece, and then the hash decides. */
  lemma DeliveryOutcome(m: Meta, w: World, idx: nat, b: Block, data: seq<byte>, now: nat, io: Io)
    requires Reachable(m, w) && idx < |w.state.peers| && b in w.state.peers[idx].inFlight
    requires |data| == m.geo.BlockLen(b.0, b.1) && (io.write.Some? ==> io.write.value >= |data|)
    ensures |w.state.disk| == Total(m.files) && m.geo.BlockStart(b) + |data| <= |w.state.disk|
    ensures Arrived(m, w.state, OnBlock(m, w.state, idx, b.0, b.1 * BLOCK_LEN, data, now, io).state, idx, b, data, io)
  {
    hide Reachable, Inv, OnBlock, Arrived;
    ReachableIsSafe(m, w);
    InvOf(m, w);
    ShapeOf(m, w.state, w.log);
    DeliveryEffect(m, w.state, w.log, idx, b, data, now, io);
  }

  lemma JudgedFacts(m: Meta, s: State, t: State, log: set<Delivery>, b: Block, dest: Dest, idx: nat, now: nat, io: Io)
    requires Inv(m, t, log) && WholeAndSettled(t, b.0) && Pending(s, t, b, dest) && idx < |t.peers| && s.picker.geo == m.geo
    ensures var e := Judge(m, t, b.0, io).state;
      && idx < |e.peers|
      && var u := FillRequests(e, idx, now).state; u.disk == t.disk && Decided(m, s, u, b, dest, io)
  {
    hide Judge, FillRequests, Decided, Inv, Pending, WholeAndSettled;
    JudgeNeeds(m, t, log, b.0);
    JudgeOutcome(m, s, t, b.0, io, b, dest);
    JudgeKeeps(m, t, log, b.0, io);
    var e := Judge(m, t, b.0, io).state;
    RefillLeaves(m, e, log, idx, now);
    DecidedThrough(m, s, e, FillRequests(e, idx, now).state, b, dest, io);
  }

  lemma JudgeNeeds(m: Meta, t: State, log: set<Delivery>, index: nat)
    requires Inv(m, t, log) && WholeAndSettled(t, index)
    ensures t.picker.Valid() && t.picker.geo == m.geo && index < m.geo.numPieces && index !in t.picker.have
    ensures SuppliersExact(t.picker, t.suppliers)
  {}

  /** A block whose write fails is as if it had not come, but for the bytes of
      it that reached the disk, which nothing relies on. */
  ghost predicate WriteFailed(m: Meta, s: State, t: State, b: Block, written: seq<byte>)
    requires |s.disk| == Total(m.files) && m.geo.BlockStart(b) + |written| <= |s.disk|
  {
    && t.disk == WriteLinear(m.files, s.disk, m.geo.BlockStart(b), written)
    && t.storageError && !t.picker.Received(b)
    && t.picker.have == s.picker.have && t.suppliers == s.suppliers && t.banned == s.banned
  }

  lemma FailedWriteOutcome(m: Meta, w: World, idx: nat, b: Block, data: seq<byte>, now: nat, io: Io)
    requires Reachable(m, w) && idx < |w.state.peers| && b in w.state.peers[idx].inFlight
    requires |data| == m.geo.BlockLen(b.0, b.1) && io.write.Some? && io.write.value < |data|
    ensures |w.state.disk| == Total(m.files) && m.geo.BlockStart(b) + |data| <= |w.state.disk|
    ensures WriteFailed(m, w.state, OnBlock(m, w.state, idx, b.0, b.1 * BLOCK_LEN, data, now, io).state, b, data[..io.write.value])
  {
    hide Reachable, Inv, OnBlock, WriteFailed;
    ReachableIsSafe(m, w);
    InvOf(m, w);
    ShapeOf(m, w.state, w.log);
    FailedWriteEffect(m, w.state, w.log, idx, b, data, now, io);
  }

  lemma FailedWriteEffect(m: Meta, s: State, log: set<Delivery>, idx: nat, b: Block, data: seq<byte>, now: nat, io: Io)
    requires Inv(m, s, log) && idx < |s.peers| && b in s.peers[idx].inFlight && |s.disk| == Total(m.files)
    requires |data| == m.geo.BlockLen(b.0, b.1) && io.write.Some? && io.write.value < |data|
    ensures m.geo.BlockStart(b) + |data| <= |s.disk|
    ensures WriteFailed(m, s, OnBlock(m, s, idx, b.0, b.1 * BLOCK_LEN, data, now, io).state, b, data[..io.write.value])
  {
    hide Inv, WriteLinear, FillRequests, OnBlock, Picker.BlockFailed, Picker.Received;
    var p, written := s.peers[idx], data[..io.write.value];
    ShapeOf(m, s, log);
    OwedIsAskable(m, s, log, idx, b);
    FailedWriteUnfolds(m, s, idx, b, data, now, io);
    FailedWriteKept(m, s, log, idx, b, written);
    var u := FailedWriteState(m, s, idx, b, written);
    RefillLeaves(m, u, log, idx, now);
    FillKeepsError(u, idx, now);
  }

  /** The state after a failed write, before the pipeline is refilled. */
  function FailedWriteState(m: Meta, s: State, idx: nat, b: Block, written: seq<byte>): State
    requires idx < |s.peers| && |s.disk| == Total(m.files) && m.geo.BlockStart(b) + |written| <= |s.disk|
  {
    SetPeer(s, idx, s.peers[idx].(inFlight := s.peers[idx].inFlight - {b}, strikes := 0))
      .(picker := s.picker.BlockFailed(b), storageError := true,
        disk := WriteLinear(m.files, s.disk, m.geo.BlockStart(b), written))
  }

  lemma FailedWriteUnfolds(m: Meta, s: State, idx: nat, b: Block, data: seq<byte>, now: nat, io: Io)
    requires idx < |s.peers| && b in s.peers[idx].inFlight && |s.disk| == Total(m.files)
    requires m.geo.InRange(b) && b.0 !in s.picker.have && !s.picker.Received(b)
    requires m.geo.BlockStart(b) + m.geo.BlockLen(b.0, b.1) <= |s.disk|
    requires |data| == m.geo.BlockLen(b.0, b.1) && io.write.Some? && io.write.value < |data|
    ensures OnBlock(m, s, idx, b.0, b.1 * BLOCK_LEN, data, now, io) ==
      FillRequests(FailedWriteState(m, s, idx, b, data[..io.write.value]), idx, now)
  {
    hide WriteLinear, FillRequests, AcceptBlock, Picker.BlockFailed;
    NothingBefore(FillRequests(FailedWriteState(m, s, idx, b, data[..io.write.value]), idx, now));
  }

  lemma FailedWriteKept(m: Meta, s: State, log: set<Delivery>, idx: nat, b: Block, written: seq<byte>)
    requires Inv(m, s, log) && idx < |s.peers| && b in s.peers[idx].inFlight && |s.disk| == Total(m.files)
    requires |written| <= m.geo.BlockLen(b.0, b.1) && m.geo.BlockStart(b) + |written| <= |s.disk|
    ensures var u := FailedWriteState(m, s, idx, b, written);
      && Inv(m, u, log)
      && (forall c: Block :: u.picker.Received(c) == s.picker.Received(c)) && !u.picker.Received(b)
      && u.picker.have == s.picker.have
  {
    hide Inv, WriteLinear, Picker.Received;
    OwedIsAskable(m, s, log, idx, b);
    PeerFlags(m, s, log, idx);
    ShapeOf(m, s, log);
    var p := s.peers[idx].(inFlight := s.peers[idx].inFlight - {b}, strikes := 0);
    GiveBackKeeps(m, s, log, idx, {b}, p);
    ReleaseOne(s.picker, b);
    ReleaseEffect(s.picker, {b});
    var t := SetPeer(s, idx, p).(picker := s.picker.BlockFailed(b));
    FailedWriteKeeps(m, t, log, b, written);
    var v := t.(disk := WriteLinear(m.files, t.disk, m.geo.BlockStart(b), written));
    SameCoreKeeps(m, v, v.(storageError := true), log);
  }

  lemma FillKeepsError(s: State, idx: nat, now: nat)
    requires idx < |s.peers|
    ensures FillRequests(s, idx, now).state.storageError == s.storageError
  {
    hide Picker.PickBlocks, Picker.AfterPick, Picker.Release, Asked, Asks, Again;
  }

  /** The message is not the delivery of a block this peer owes: it was not
      asked for, lies off the block boundaries, or has not the block's length. */
  predicate Unasked(m: Meta, p: Peer, index: nat, begin: nat, data: seq<byte>) {
    || (index, begin / BLOCK_LEN) !in p.inFlight
    || begin % BLOCK_LEN != 0
    || |data| != m.geo.BlockLen(index, begin / BLOCK_LEN)
  }

  /** Nothing that was stored or believed has changed. */
  ghost predicate SameBeliefs(s: State, t: State) {
    && t.disk == s.disk && t.suppliers == s.suppliers && t.picker.have == s.picker.have && t.banned == s.banned
    && forall c: Block :: t.picker.Received(c) == s.picker.Received(c)
  }

  lemma UnaskedEffect(m: Meta, s: State, log: set<Delivery>, idx: nat, index: nat, begin: nat, data: seq<byte>, now: nat, io: Io)
    requires Inv(m, s, log) && idx < |s.peers| && |s.disk| == Total(m.files)
    requires Unasked(m, s.peers[idx], index, begin, data)
    ensures var e := OnBlock(m, s, idx, index, begin, data, now, io);
      (e == Effect(s, []) || e == FillRequests(s, idx, now)) && SameBeliefs(s, e.state)
  {
    hide Inv, FillRequests, StoreBlock, Picker.Received;
    RefillLeaves(m, s, log, idx, now);
  }

  /** Data nobody asked this peer for, of a length that is not the block's, or
      off the block boundaries, changes nothing that was stored or believed. */
  lemma UnaskedIsIgnored(m: Meta, w: World, idx: nat, index: nat, begin: nat, data: seq<byte>, now: nat, io: Io)
    requires Reachable(m, w) && idx < |w.state.peers| && Unasked(m, w.state.peers[idx], index, begin, data)
    ensures |w.state.disk| == Total(m.files)
    ensures SameBeliefs(w.state, OnBlock(m, w.state, idx, index, begin, data, now, io).state)
  {
    hide Reachable, Inv, OnBlock, SameBeliefs;
    ReachableIsSafe(m, w);
    InvOf(m, w);
    ShapeOf(m, w.state, w.log);
    UnaskedEffect(m, w.state, w.log, idx, index, begin, data, now, io);
  }

  // ----- interest

  predicate SaysInterested(o: Outgoing) { o.msg.Interested? }

  predicate SaysNotInterested(o: Outgoing) { o.msg.NotInterested? }

  lemma {:induction false} AsksOnly(geo: Geometry, id: nat, owed: map<Block, nat>, blocks: seq<Block>)
    ensures forall o :: o in Asks(geo, id, owed, blocks) ==> o.to == id && o.msg.Request?
  {
    if blocks != [] { AsksOnly(geo, id, owed, blocks[..|blocks| - 1]); }
  }

  /** Once updated, interest is exactly that the peer has a piece we lack. The
      peer hears of a change, only of a change, and before any request; a
      choking peer gets none. */
  lemma InterestIsHonest(s: State, idx: nat, now: nat)
    requires idx < |s.peers|
    ensures var p, e := s.peers[idx], UpdateInterest(s, idx, now);
      var wants := exists i :: i in p.has && i !in s.picker.have;
      && |e.state.peers| == |s.peers|
      && (e.state.peers[idx].weInterested <==> wants)
      && (forall o :: o in e.out ==> o.to == p.id)
      && ((exists o :: o in e.out && SaysInterested(o)) <==> wants && !p.weInterested)
      && ((exists o :: o in e.out && SaysNotInterested(o)) <==> !wants && p.weInterested)
      && (forall k :: 0 <= k < |e.out| ==>
            if k == 0 then SaysInterested(e.out[0]) || SaysNotInterested(e.out[0]) else e.out[k].msg.Request?)
      && (p.peerChoking ==> |e.out| <= 1)
  {
    hide Picker.PickBlocks, Picker.AfterPick, Picker.Release, Asked, Again, Asks;
    var p, e := s.peers[idx], UpdateInterest(s, idx, now);
    AsksOnly(s.picker.geo, p.id, p.inFlight, s.picker.PickBlocks(p.has, SatSub(PIPELINE_DEPTH, |p.inFlight|)));
    if e.out != [] { assert e.out[0] in e.out; }
    assert Interesting(s, p) <==> exists i :: i in p.has && i !in s.picker.have;
  }

  // ----- time

  ghost predicate OnTime(p: Peer, timeout: nat, now: nat) {
    forall b :: b in p.inFlight ==> SatSub(now, p.inFlight[b]) < timeout
  }

  /** Refilling one pipeline stamps what it asks for and touches no other peer. */
  lemma RefillOnTime(s: State, idx: nat, now: nat)
    requires idx < |s.peers| && s.requestTimeout > 0 && OnTime(s.peers[idx], s.requestTimeout, now)
    ensures var t := FillRequests(s, idx, now).state;
      && t.requestTimeout == s.requestTimeout && |t.peers| == |s.peers|
      && OnTime(t.peers[idx], s.requestTimeout, now)
      && forall k :: 0 <= k < |s.peers| && k != idx ==> t.peers[k] == s.peers[k]
  {
    hide Picker.PickBlocks, Picker.AfterPick, Picker.Release, Asks, Again;
  }

  lemma MaintainedOnTime(s: State, idx: nat, now: nat)
    requires idx < |s.peers| && s.requestTimeout > 0
    ensures var t := MaintainPeer(s, idx, now).state;
      && t.requestTimeout == s.requestTimeout && |t.peers| == |s.peers|
      && OnTime(t.peers[idx], s.requestTimeout, now)
      && forall k :: 0 <= k < |s.peers| && k != idx ==> t.peers[k] == s.peers[k]
  {
    hide FillRequests, Picker.Release;
    var p, late := s.peers[idx], Expired(s, s.peers[idx], now);
    var s' := SetPeer(s, idx, p.(inFlight := p.inFlight - late, strikes := p.strikes + 1)).(picker := s.picker.Release(late));
    if late == {} {
      forall b | b in p.inFlight ensures SatSub(now, p.inFlight[b]) < s.requestTimeout { assert b !in late; }
      RefillOnTime(s, idx, now);
    } else {
      RefillOnTime(s', idx, now);
    }
  }

  lemma {:induction false} MaintainOnTime(s: State, now: nat, k: nat)
    requires k <= |s.peers| && s.requestTimeout > 0
    ensures var t := MaintainBelow(s, now, k).state;
      && t.requestTimeout == s.requestTimeout && |t.peers| == |s.peers|
      && forall j :: 0 <= j < k ==> OnTime(t.peers[j], s.requestTimeout, now)
  {
    hide MaintainPeer, OnTime;
    if k > 0 {
      MaintainOnTime(s, now, k - 1);
      MaintainedOnTime(MaintainBelow(s, now, k - 1).state, k - 1, now);
    }
  }

  /** A debt that is not due yet. */
  predicate Recent(p: Peer, b: Block, timeout: nat, now: nat) { b in p.inFlight && SatSub(now, p.inFlight[b]) < timeout }

  lemma MaintainedKeepsRecent(s: State, idx: nat, now: nat)
    requires idx < |s.peers|
    ensures var t := MaintainPeer(s, idx, now).state;
      && t.requestTimeout == s.requestTimeout && |t.peers| == |s.peers|
      && (forall b :: Recent(s.peers[idx], b, s.requestTimeout, now) ==> b in t.peers[idx].inFlight)
      && forall k :: 0 <= k < |s.peers| && k != idx ==> t.peers[k] == s.peers[k]
  {
    hide Picker.PickBlocks, Picker.AfterPick, Picker.Release, Asks, Again;
  }

  lemma {:induction false} MaintainKeepsRecent(s: State, now: nat, n: nat)
    requires n <= |s.peers|
    ensures var t := MaintainBelow(s, now, n).state;
      && t.requestTimeout == s.requestTimeout && |t.peers| == |s.peers|
      && (forall k, b {:trigger b in t.peers[k].inFlight} ::
            0 <= k < |s.peers| && Recent(s.peers[k], b, s.requestTimeout, now) ==> b in t.peers[k].inFlight)
      && forall k :: n <= k < |s.peers| ==> t.peers[k] == s.peers[k]
  {
    hide MaintainPeer;
    if n > 0 {
      MaintainKeepsRecent(s, now, n - 1);
      MaintainedKeepsRecent(MaintainBelow(s, now, n - 1).state, n - 1, now);
    }
  }

  lemma {:induction false} SetChokesKeepsDebts(s: State, ids: seq<nat>, choke: bool)
    ensures var t := SetChokes(s, ids, choke).state;
      |t.peers| == |s.peers| && forall k :: 0 <= k < |s.peers| ==> t.peers[k].inFlight == s.peers[k].inFlight
  {
    if ids != [] { SetChokesKeepsDebts(s, ids[..|ids| - 1], choke); }
  }

  lemma RoundKeepsDebts(s: State, now: nat)
    ensures var t := ChokeRoundIfDue(s, now).state;
      |t.peers| == |s.peers| && forall k :: 0 <= k < |s.peers| ==> t.peers[k].inFlight == s.peers[k].inFlight
  {
    hide SetChokes;
    var d := ChokerSpec.Plan(s.slots, s.round + 1, Snapshots(s));
    var s' := s.(lastChokeRound := now, peers := Ranked(s.peers), round := s.round + 1);
    SetChokesKeepsDebts(s', d.unchoke, false);
    SetChokesKeepsDebts(SetChokes(s', d.unchoke, false).state, d.choke, true);
  }

  /** After a maintenance tick no peer owes a block for as long as the timeout;
      what it still owes was asked for since, or just now. */
  lemma TickLeavesNothingOverdue(s: State, now: nat)
    requires s.requestTimeout > 0
    ensures var t := OnTick(s, now).state;
      forall k, b :: 0 <= k < |t.peers| && b in t.peers[k].inFlight ==> SatSub(now, t.peers[k].inFlight[b]) < s.requestTimeout
  {
    hide MaintainBelow, ChokeRoundIfDue;
    MaintainOnTime(s, now, |s.peers|);
    var u := MaintainBelow(s, now, |s.peers|).state;
    RoundKeepsDebts(u, now);
    var t := OnTick(s, now).state;
    forall k, b | 0 <= k < |t.peers| && b in t.peers[k].inFlight
      ensures SatSub(now, t.peers[k].inFlight[b]) < s.requestTimeout
    {
      assert OnTime(u.peers[k], s.requestTimeout, now);
    }
  }

  /** And it takes no debt off before its time. */
  lemma TickTakesOnlyTheOverdue(s: State, now: nat, k: nat, b: Block)
    requires k < |s.peers| && Recent(s.peers[k], b, s.requestTimeout, now)
    ensures var t := OnTick(s, now).state; k < |t.peers| && b in t.peers[k].inFlight
  {
    hide MaintainBelow, ChokeRoundIfDue, Recent;
    MaintainKeepsRecent(s, now, |s.peers|);
    RoundKeepsDebts(MaintainBelow(s, now, |s.peers|).state, now);
  }
}
