// Refilling a request pipeline, in endgame and out of it: when it leaves work
// undone, and when it stamps anew what a peer owes already
// (crates/clove-core/src/torrent.rs, `fill_requests`).
module EngineEndgame {
  import opened Prelude
  import opened Wire
  import opened PickerSpec
  import opened PickerTheory
  import opened DiskSpec
  import opened EngineSpec
  import opened EngineInvariant
  import opened EngineSteps
  import opened EngineDelivery
  import opened EngineTheorems
  import opened EngineSafety
  import Counting
  import Sorting

  /** What a refill would be handed for a peer. */
  function Handed(s: State, idx: nat): seq<Block>
    requires idx < |s.peers|
  {
    var p := s.peers[idx];
    if p.peerChoking || !p.weInterested then [] else s.picker.PickBlocks(p.has, SatSub(PIPELINE_DEPTH, |p.inFlight|))
  }

  /** A refill would be handed a block the peer owes already. */
  ghost predicate Repeats(s: State, idx: nat)
    requires idx < |s.peers|
  {
    exists b :: b in Handed(s, idx) && b in s.peers[idx].inFlight
  }

  /** A block that could be asked of a peer and that nobody owes. */
  predicate Free(pk: Picker, has: set<nat>, b: Block) {
    pk.IsCandidate(has, b.0) && pk.geo.InRange(b) && !pk.Received(b) && pk.InFlight(b) == 0
  }

  /** A refill would leave out a free block. */
  ghost predicate PassedOver(s: State, idx: nat)
    requires idx < |s.peers|
  {
    exists b: Block :: Free(s.picker, s.peers[idx].has, b) && b !in Handed(s, idx)
  }

  /** The pipeline is full, or nothing free is left for the peer. */
  ghost predicate WorkDone(s: State, idx: nat)
    requires idx < |s.peers|
  {
    |s.peers[idx].inFlight| == PIPELINE_DEPTH || forall b: Block :: !Free(s.picker, s.peers[idx].has, b)
  }

  // ----- what a refill does

  lemma RefillPeers(s: State, idx: nat, now: nat)
    requires idx < |s.peers|
    ensures var p, t := s.peers[idx], FillRequests(s, idx, now).state;
      && t.peers == s.peers[idx := p.(inFlight := Asked(p.inFlight, Handed(s, idx), now))]
      && t == s.(picker := t.picker, peers := t.peers)
      && var space := SatSub(PIPELINE_DEPTH, |p.inFlight|);
      || (t.picker == s.picker && Handed(s, idx) == [])
      || (Handed(s, idx) == s.picker.PickBlocks(p.has, space)
          && t.picker == s.picker.AfterPick(p.has, space).Release(Again(p.inFlight, Handed(s, idx))))
  {
    hide Picker.PickBlocks, Picker.AfterPick, Picker.Release, Asked, Asks, Again;
    var p := s.peers[idx];
    NothingAsked(p.inFlight, now);
    NothingHanded(s.picker, p.has);
    assert s.peers[idx := p] == s.peers;
  }

  /** The peer and the picker after a refill. */
  lemma RefillShape(m: Meta, s: State, log: set<Delivery>, idx: nat, now: nat)
    requires Inv(m, s, log) && idx < |s.peers|
    ensures var p, t := s.peers[idx], FillRequests(s, idx, now).state;
      && t.peers == s.peers[idx := p.(inFlight := Asked(p.inFlight, Handed(s, idx), now))]
      && t.picker == s.picker.(progress := t.picker.progress)
      && (forall b: Block :: t.picker.Received(b) == s.picker.Received(b))
      && (forall b: Block :: t.picker.InFlight(b) ==
            s.picker.InFlight(b) + (if b in Handed(s, idx) && b !in p.inFlight then 1 else 0))
  {
    hide Picker.PickBlocks, Picker.AfterPick, Picker.Release, Asked, Again, Picker.Received, Picker.InFlight;
    hide FillRequests, Handed, Picker.Valid;
    ShapeOf(m, s, log);
    RefillPeers(s, idx, now);
    RefillPicker(s.picker, s.peers[idx].has, s.peers[idx].inFlight, SatSub(PIPELINE_DEPTH, |s.peers[idx].inFlight|));
  }

  lemma NothingAsked(owed: map<Block, nat>, now: nat)
    ensures Asked(owed, [], now) == owed
  {}

  lemma NothingHanded(pk: Picker, has: set<nat>)
    ensures pk.PickBlocks(has, 0) == []
  {}

  /** What is handed out: distinct blocks that may be asked for, no more than
      the pipeline has room for; and fewer only if no other is left. */
  lemma HandedFacts(m: Meta, s: State, log: set<Delivery>, idx: nat)
    requires Inv(m, s, log) && idx < |s.peers|
    ensures var p, blocks := s.peers[idx], Handed(s, idx);
      && |p.inFlight| + |blocks| <= PIPELINE_DEPTH && Sorting.Distinct(blocks)
      && (forall b :: b in blocks ==> s.picker.Open(s.picker.InEndgame(), b))
      && (!p.peerChoking && p.weInterested && |p.inFlight| + |blocks| < PIPELINE_DEPTH ==> !PassedOver(s, idx))
  {
    hide Picker.PickBlocks, Picker.InEndgame, Picker.IsCandidate, Picker.Received, Picker.InFlight, Witnessed, HeldVerified;
    var p := s.peers[idx];
    assert PeerOk(s.picker, p);
    PickHandsOutTheBest(s.picker, p.has, SatSub(PIPELINE_DEPTH, |p.inFlight|));
  }

  /** A block nobody is counted to owe is owed by nobody. */
  lemma UncountedIsUnowed(m: Meta, s: State, log: set<Delivery>, idx: nat, b: Block)
    requires Inv(m, s, log) && idx < |s.peers| && s.picker.InFlight(b) == 0
    ensures b !in s.peers[idx].inFlight
  {
    if b in s.peers[idx].inFlight { OwedIsCounted(s.picker, s.peers, idx, b); }
  }

  // ----- the work left undone

  lemma AskedSize(owed: map<Block, nat>, blocks: seq<Block>, now: nat)
    requires Sorting.Distinct(blocks)
    ensures |Asked(owed, blocks, now)| <= |owed| + |blocks|
    ensures |Asked(owed, blocks, now)| == |owed| + |blocks| <==> forall b :: b in blocks ==> b !in owed
  {
    var r, set' := Asked(owed, blocks, now), BlockSet(blocks);
    AskedKeys(owed, blocks, now);
    DistinctSetSize(blocks);
    assert r.Keys == owed.Keys + set' && |r| == |r.Keys| && |owed| == |owed.Keys|;
    assert |owed.Keys + set'| + |owed.Keys * set'| == |owed.Keys| + |set'|;
    if |owed.Keys * set'| == 0 {
      forall b | b in blocks ensures b !in owed { assert b in set' && b !in owed.Keys * set'; }
    } else {
      var b :| b in owed.Keys * set';
      assert b in blocks && b in owed;
    }
  }

  lemma {:induction false} DistinctSetSize(blocks: seq<Block>)
    requires Sorting.Distinct(blocks)
    ensures |BlockSet(blocks)| == |blocks|
  {
    if blocks == [] {
      assert BlockSet(blocks) == {};
    } else {
      var init, last := blocks[..|blocks| - 1], blocks[|blocks| - 1];
      DistinctSetSize(init);
      assert blocks == init + [last];
      assert last !in init;
      assert BlockSet(blocks) == BlockSet(init) + {last};
    }
  }

  lemma WorkDoneExactly(m: Meta, s: State, log: set<Delivery>, idx: nat, now: nat)
    requires Inv(m, s, log) && idx < |s.peers| && !s.peers[idx].peerChoking && s.peers[idx].weInterested
    ensures var t := FillRequests(s, idx, now).state;
      idx < |t.peers| && (WorkDone(t, idx) <==> !(Repeats(s, idx) && PassedOver(s, idx)))
  {
    hide Inv, FillRequests, Handed, Asked, Picker.Received, Picker.InFlight, Picker.IsCandidate, Picker.InEndgame;
    RefillShape(m, s, log, idx, now);
    HandedFacts(m, s, log, idx);
    var p, t, blocks := s.peers[idx], FillRequests(s, idx, now).state, Handed(s, idx);
    AskedSize(p.inFlight, blocks, now);
    forall b: Block ensures Free(t.picker, p.has, b) <==> Free(s.picker, p.has, b) && b !in blocks {
      SameCandidates(s.picker, t.picker, p.has, b.0);
      if s.picker.InFlight(b) == 0 { UncountedIsUnowed(m, s, log, idx, b); }
    }
    assert (exists b: Block :: Free(t.picker, p.has, b)) <==> PassedOver(s, idx);
  }

  lemma SameCandidates(pk: Picker, pk': Picker, has: set<nat>, i: nat)
    requires pk' == pk.(progress := pk'.progress)
    ensures pk'.IsCandidate(has, i) == pk.IsCandidate(has, i)
  {}

  /** In every reachable state, a refill of an unchoked pipeline we have a use
      for leaves it full or nothing free to ask for, except exactly when it is
      handed a block the peer owes already while a free one is passed over. */
  lemma RefillConservesWorkExactly(m: Meta, w: World, idx: nat, now: nat)
    requires Reachable(m, w) && idx < |w.state.peers|
    requires !w.state.peers[idx].peerChoking && w.state.peers[idx].weInterested
    ensures var t := FillRequests(w.state, idx, now).state;
      idx < |t.peers| && (WorkDone(t, idx) <==> !(Repeats(w.state, idx) && PassedOver(w.state, idx)))
  {
    hide Reachable, Inv;
    ReachableIsSafe(m, w);
    InvOf(m, w);
    WorkDoneExactly(m, w.state, w.log, idx, now);
  }

  /** Repeats are for endgame only. */
  lemma RepeatsOnlyInEndgame(m: Meta, s: State, log: set<Delivery>, idx: nat)
    requires Inv(m, s, log) && idx < |s.peers| && Repeats(s, idx)
    ensures s.picker.InEndgame()
  {
    hide Inv, Handed, Picker.InEndgame;
    HandedFacts(m, s, log, idx);
    var b :| b in Handed(s, idx) && b in s.peers[idx].inFlight;
    if !s.picker.InEndgame() { UncountedIsUnowed(m, s, log, idx, b); }
  }

  /** So outside endgame a refill does not stop early: it leaves the pipeline
      full or nothing to ask for, every block of every wanted missing piece the
      peer has having arrived or being owed by somebody. */
  lemma RefillIsWorkConserving(m: Meta, w: World, idx: nat, now: nat)
    requires Reachable(m, w) && idx < |w.state.peers| && !w.state.picker.InEndgame()
    requires !w.state.peers[idx].peerChoking && w.state.peers[idx].weInterested
    ensures var t := FillRequests(w.state, idx, now).state;
      || |t.peers[idx].inFlight| == PIPELINE_DEPTH
      || (forall b: Block :: t.picker.IsCandidate(t.peers[idx].has, b.0) && t.picker.geo.InRange(b) ==>
            t.picker.Received(b) || t.picker.InFlight(b) > 0)
  {
    hide Reachable, Inv, FillRequests, Picker.Received, Picker.InFlight, Picker.IsCandidate, Picker.InEndgame;
    ReachableIsSafe(m, w);
    InvOf(m, w);
    WorkDoneExactly(m, w.state, w.log, idx, now);
    if Repeats(w.state, idx) { RepeatsOnlyInEndgame(m, w.state, w.log, idx); }
    var t := FillRequests(w.state, idx, now).state;
    if |t.peers[idx].inFlight| != PIPELINE_DEPTH {
      forall b: Block | t.picker.IsCandidate(t.peers[idx].has, b.0) && t.picker.geo.InRange(b)
        ensures t.picker.Received(b) || t.picker.InFlight(b) > 0
      {
        assert !Free(t.picker, t.peers[idx].has, b);
      }
    }
  }

  // ----- the stamps

  /** Something a peer owes has another time of asking after a refill. */
  ghost predicate Restamps(s: State, idx: nat, now: nat)
    requires idx < |s.peers| && idx < |FillRequests(s, idx, now).state.peers|
  {
    exists b :: b in s.peers[idx].inFlight &&
      !(b in FillRequests(s, idx, now).state.peers[idx].inFlight
        && FillRequests(s, idx, now).state.peers[idx].inFlight[b] == s.peers[idx].inFlight[b])
  }

  /** In every reachable state, a refill changes the time stamp of a block the
      peer owes exactly when it is handed one that was asked at another time;
      and that happens in endgame only. */
  lemma RestampsExactly(m: Meta, w: World, idx: nat, now: nat)
    requires Reachable(m, w) && idx < |w.state.peers|
    ensures var s, owed := w.state, w.state.peers[idx].inFlight;
      && idx < |FillRequests(s, idx, now).state.peers|
      && (Restamps(s, idx, now) <==> exists b :: b in Handed(s, idx) && b in owed && owed[b] != now)
      && ((forall b :: b in owed ==> owed[b] < now) ==> (Restamps(s, idx, now) <==> Repeats(s, idx)))
      && (Repeats(s, idx) ==> s.picker.InEndgame())
  {
    hide Reachable, Inv, FillRequests, Handed, Picker.InEndgame, Picker.Received, Picker.InFlight;
    ReachableIsSafe(m, w);
    InvOf(m, w);
    var s, owed := w.state, w.state.peers[idx].inFlight;
    RefillShape(m, s, w.log, idx, now);
    if Repeats(s, idx) { RepeatsOnlyInEndgame(m, s, w.log, idx); }
    if b :| b in Handed(s, idx) && b in owed && owed[b] != now {
      assert Asked(owed, Handed(s, idx), now)[b] == now;
      assert Restamps(s, idx, now);
    }
  }
}
