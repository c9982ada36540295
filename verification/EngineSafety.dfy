// The promises of the engine, read off its invariant, for every run.
module EngineSafety {
  import opened Prelude
  import opened Wire
  import opened PickerSpec
  import opened PickerTheory
  import opened DiskSpec
  import opened EngineSpec
  import opened EngineInvariant
  import opened EngineSteps
  import opened EngineDelivery
  import opened EngineFrame
  import opened EngineTheorems
  import Counting
  import Sorting

  // ----- the beginning

  lemma {:induction false} HaveAllOfFacts(p: Picker, have: set<nat>, k: nat)
    requires p.Valid() && k <= p.geo.numPieces && p.progress == map[] && p.have == {}
    ensures var q := HaveAllOf(p, have, k);
      && q.Valid() && q.geo == p.geo && q.progress == map[] && q.availability == p.availability
      && q.have == set i: nat | i < k && i in have
  {
    if k > 0 {
      HaveAllOfFacts(p, have, k - 1);
      SetHaveKeepsValid(HaveAllOf(p, have, k - 1), k - 1);
    }
  }

  /** The world before anything happened. */
  ghost function Beginning(m: Meta, disk: seq<Cell>, have: set<nat>, mode: Mode): World {
    World(Start(m, disk, have, mode), {}, [])
  }

  /** What is asked of whoever starts the engine: the metainfo was accepted,
      the files are there, and the pieces it is told it holds are on disk. */
  ghost predicate FairStart(m: Meta, disk: seq<Cell>, have: set<nat>) {
    m.Valid() && |disk| == m.geo.totalLength && forall i :: i in have ==> Verified(m, disk, i)
  }

  lemma BeginsWell(m: Meta, disk: seq<Cell>, have: set<nat>, mode: Mode)
    requires FairStart(m, disk, have)
    ensures WorldInv(m, Beginning(m, disk, have, mode))
  {
    NewPickerValid(m.geo, mode);
    HaveAllOfFacts(NewPicker(m.geo, mode), have, m.geo.numPieces);
  }

  /** Where a run that starts fairly gets to. */
  ghost predicate Reachable(m: Meta, w: World) {
    exists disk, have, mode, events ::
      FairStart(m, disk, have) && w == Run(m, Beginning(m, disk, have, mode), events)
  }

  /** The invariant holds in every reachable world. */
  lemma ReachableIsSafe(m: Meta, w: World)
    requires Reachable(m, w)
    ensures WorldInv(m, w)
  {
    var disk, have, mode, events :|
      FairStart(m, disk, have) && w == Run(m, Beginning(m, disk, have, mode), events);
    BeginsWell(m, disk, have, mode);
    RunKeeps(m, Beginning(m, disk, have, mode), events);
  }

  /** What is reachable from a reachable world is reachable. */
  lemma ReachableContinues(m: Meta, w: World, more: seq<Event>)
    requires Reachable(m, w)
    ensures Reachable(m, Run(m, w, more))
  {
    hide FairStart, Run, Beginning;
    var disk, have, mode, events :|
      FairStart(m, disk, have) && w == Run(m, Beginning(m, disk, have, mode), events);
    RunContinues(m, Beginning(m, disk, have, mode), events, more);
  }

  // ----- data safety

  /** Every held piece is on disk with the expected hash, and no further run of
      the engine un-holds it or changes one of its bytes. */
  lemma HeldPiecesAreSafe(m: Meta, w: World, events: seq<Event>, i: nat)
    requires Reachable(m, w) && i in w.state.picker.have
    ensures Verified(m, w.state.disk, i)
    ensures var later := Run(m, w, events);
      i in later.state.picker.have && SamePiece(m, w.state.disk, later.state.disk, i)
  {
    ReachableIsSafe(m, w);
    RunKeeps(m, w, events);
  }

  /** Every `piece` ever sent lies inside a piece that is held, now and at all
      later times, and its bytes are those of that verified piece. */
  lemma ServedBytesAreVerified(m: Meta, w: World, k: nat)
    requires Reachable(m, w) && k < |w.sent| && w.sent[k].msg.Piece?
    ensures var msg := w.sent[k].msg;
      var start, len := m.geo.PieceStart(msg.index), m.geo.PieceLen(msg.index);
      && msg.index in w.state.picker.have && Verified(m, w.state.disk, msg.index)
      && msg.begin + |msg.block| <= len
      && msg.block == Bytes(w.state.disk, start, len)[msg.begin..msg.begin + |msg.block|]
  {
    hide Tables, Witnessed, Reachable;
    ReachableIsSafe(m, w);
    var msg := w.sent[k].msg;
    assert Truthful(m, w.state.picker.have, w.state.disk, msg);
    assert Verified(m, w.state.disk, msg.index);
    BytesWithin(w.state.disk, m.geo.PieceStart(msg.index), m.geo.PieceLen(msg.index), msg.begin, |msg.block|);
  }

  lemma BytesWithin(disk: seq<Cell>, start: nat, len: nat, lo: nat, n: nat)
    requires Present(disk, start, len) && lo + n <= len
    ensures Present(disk, start + lo, n) && Bytes(disk, start + lo, n) == Bytes(disk, start, len)[lo..lo + n]
  {
    assert Bytes(disk, start + lo, n) == Bytes(disk, start, len)[lo..lo + n];
  }

  /** Every `have` ever sent was, and still is, true; every request and cancel
      ever sent names one existing block exactly. */
  lemma AnnouncementsAreTrue(m: Meta, w: World, k: nat)
    requires Reachable(m, w) && k < |w.sent|
    ensures w.sent[k].msg.Have? ==> w.sent[k].msg.piece in w.state.picker.have
    ensures w.sent[k].msg.Request? || w.sent[k].msg.Cancel? ==> NamesBlock(m.geo, w.sent[k].msg.req)
  {
    ReachableIsSafe(m, w);
    assert Truthful(m, w.state.picker.have, w.state.disk, w.sent[k].msg);
  }

  // ----- the tables agree

  /** A block's in-flight count is exactly the number of connected peers owing
      it; blocks that arrived, were verified or do not exist are owed by nobody. */
  lemma InFlightCountsAreExact(m: Meta, w: World, b: Block)
    requires Reachable(m, w)
    ensures w.state.picker.InFlight(b) == Counting.Count(w.state.peers, Owes(b))
    ensures w.state.picker.Received(b) || b.0 in w.state.picker.have || !m.geo.InRange(b) ==>
      forall k :: 0 <= k < |w.state.peers| ==> b !in w.state.peers[k].inFlight
  {
    ReachableIsSafe(m, w);
    forall k | 0 <= k < |w.state.peers| && b in w.state.peers[k].inFlight
      ensures Askable(w.state.picker, w.state.peers[k].has, b)
    {
      assert PeerOk(w.state.picker, w.state.peers[k]);
    }
  }

  /** A piece's availability is exactly the number of connected peers that have
      it, so withdrawing a departing peer's set never saturates. */
  lemma AvailabilityIsExact(m: Meta, w: World, k: nat, i: nat)
    requires Reachable(m, w) && i < m.geo.numPieces
    ensures i < |w.state.picker.availability|
    ensures w.state.picker.availability[i] == Counting.Count(w.state.peers, Holds(i))
    ensures k < |w.state.peers| && i in w.state.peers[k].has ==> w.state.picker.availability[i] > 0
  {
    ReachableIsSafe(m, w);
    Counting.CountZero(w.state.peers, Holds(i));
    assert k < |w.state.peers| && i in w.state.peers[k].has ==> Holds(i)(w.state.peers[k]);
  }

  /** Each block waiting for a verdict is on disk byte for byte as the one
      destination blamed for it sent it; no other block has anyone to blame. */
  lemma SuppliersAreExact(m: Meta, w: World, b: Block)
    requires Reachable(m, w)
    ensures b in w.state.suppliers <==> w.state.picker.Received(b)
    ensures b in w.state.suppliers ==>
      && Present(w.state.disk, m.geo.BlockStart(b), m.geo.BlockLen(b.0, b.1))
      && (w.state.suppliers[b], b, Bytes(w.state.disk, m.geo.BlockStart(b), m.geo.BlockLen(b.0, b.1))) in w.log
  {
    ReachableIsSafe(m, w);
    if b in w.state.suppliers {
      assert WitnessedBlock(m, w.state.disk, w.state.suppliers[b], b, w.log);
    }
  }

  /** No more peers are unchoked than there are slots, and each is interested. */
  lemma UnchokedPeersFit(m: Meta, w: World)
    requires Reachable(m, w)
    ensures Counting.Count(w.state.peers, Unchoked()) <= w.state.slots
    ensures forall k :: 0 <= k < |w.state.peers| && !w.state.peers[k].weChoke ==> w.state.peers[k].theyInterested
  {
    ReachableIsSafe(m, w);
    forall k | 0 <= k < |w.state.peers| && !w.state.peers[k].weChoke ensures w.state.peers[k].theyInterested {
      assert PeerOk(w.state.picker, w.state.peers[k]);
    }
  }

  /** No peer owes more than a pipeline's worth, none that chokes us owes
      anything, no two share an id, and no destination holds too many
      connections. */
  lemma PeerTableIsSound(m: Meta, w: World)
    requires Reachable(m, w)
    ensures forall k :: 0 <= k < |w.state.peers| ==>
      var p := w.state.peers[k];
      && |p.inFlight| <= PIPELINE_DEPTH && p.id < w.state.nextId
      && (p.peerChoking ==> p.inFlight == map[])
      && (forall b :: b in p.inFlight ==> b.0 in p.has)
    ensures forall i, j :: 0 <= i < j < |w.state.peers| ==> w.state.peers[i].id != w.state.peers[j].id
    ensures forall d: Dest :: Counting.Count(w.state.peers, From(d)) <= MAX_CONNECTIONS_PER_DEST
  {
    ReachableIsSafe(m, w);
    forall k | 0 <= k < |w.state.peers| ensures PeerOk(w.state.picker, w.state.peers[k]) {}
    forall k, b | 0 <= k < |w.state.peers| && b in w.state.peers[k].inFlight ensures b.0 in w.state.peers[k].has {
      assert Askable(w.state.picker, w.state.peers[k].has, b);
    }
  }
}
