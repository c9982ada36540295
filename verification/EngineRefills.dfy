// What sets off a refill of a request pipeline, and that it is carried out: the
// engine does not stop asking while there is something to ask for
// (crates/clove-core/src/torrent.rs).
module EngineRefills {
  import opened Prelude
  import opened Wire
  import opened PickerSpec
  import opened PickerTheory
  import opened DiskSpec
  import opened EngineSpec
  import opened EngineInvariant
  import opened EngineSteps
  import opened EngineDelivery
  import opened EngineTheorems
  import opened EngineSafety
  import opened EngineOutcomes
  import opened EngineEndgame
  import opened EngineStamps
  import opened EngineBans
  import ChokerSpec
  import Bitfields

  /** The peer may not be asked, or is of no interest, or owes a full pipeline, or
      has nothing to offer that nobody owes. In endgame no more is promised than
      `RefillConservesWorkExactly` says. */
  ghost predicate ToppedUp(s: State, idx: nat)
    requires idx < |s.peers|
  {
    s.peers[idx].peerChoking || !s.peers[idx].weInterested || s.picker.InEndgame() || WorkDone(s, idx)
  }

  lemma RefillTopsUp(m: Meta, s: State, log: set<Delivery>, idx: nat, now: nat)
    requires Inv(m, s, log) && idx < |s.peers|
    ensures var t := FillRequests(s, idx, now).state; idx < |t.peers| && ToppedUp(t, idx)
  {
    hide Inv, FillRequests, Handed, WorkDone, Repeats, PassedOver, Picker.InEndgame, Asked;
    RefillShape(m, s, log, idx, now);
    RefillKeepsStamps(m, s, log, idx, now);
    SameEndgame(m, s, FillRequests(s, idx, now).state, log, log);
    var p := s.peers[idx];
    if !p.peerChoking && p.weInterested {
      WorkDoneExactly(m, s, log, idx, now);
      if Repeats(s, idx) { RepeatsOnlyInEndgame(m, s, log, idx); }
    }
  }

  // ----- interest

  /** What may make us interested: pieces the peer was not known to have. */
  predicate Announces(m: Meta, p: Peer, msg: Message) {
    || (msg.Have? && msg.piece < m.geo.numPieces && msg.piece !in p.has)
    || (msg.Bitfield? && !p.hasOpened && Bitfields.Parse(msg.bits, m.geo.numPieces).Ok?)
    || ((msg.HaveAll? || msg.HaveNone?) && !p.hasOpened && p.fast)
  }

  /** Interest is as it should be, and if it is new the pipeline is topped up. */
  ghost predicate Reconsidered(s: State, t: State, idx: nat)
    requires idx < |s.peers|
  {
    && idx < |t.peers|
    && (t.peers[idx].weInterested <==> exists i :: i in t.peers[idx].has && i !in t.picker.have)
    && (t.peers[idx].weInterested && !s.peers[idx].weInterested ==> ToppedUp(t, idx))
  }

  lemma InterestTopsUp(m: Meta, s: State, log: set<Delivery>, idx: nat, now: nat)
    requires Inv(m, s, log) && idx < |s.peers|
    ensures Reconsidered(s, UpdateInterest(s, idx, now).state, idx)
  {
    hide Inv, FillRequests, Interesting, ToppedUp, PeerOk;
    var p := s.peers[idx];
    var yes := p.(weInterested := true);
    InterestIsFree(m, s, log, idx);
    EditFlagsKeeps(m, s, log, idx, yes);
    var u := SetPeer(s, idx, yes);
    RefillTopsUp(m, u, log, idx, now);
    RefillShape(m, u, log, idx, now);
    InterestingIs(s, p);
    InterestHas(m, s, log, idx, now);
    ChokingToppedUp(u, idx);
  }

  lemma ChokingToppedUp(s: State, idx: nat)
    requires idx < |s.peers|
    ensures s.peers[idx].peerChoking ==> ToppedUp(s, idx)
  {}

  lemma InterestingIs(s: State, p: Peer)
    ensures Interesting(s, p) <==> exists i :: i in p.has && i !in s.picker.have
  {}

  lemma InterestHas(m: Meta, s: State, log: set<Delivery>, idx: nat, now: nat)
    requires Inv(m, s, log) && idx < |s.peers|
    ensures var t := UpdateInterest(s, idx, now).state;
      && idx < |t.peers| && t.peers[idx].has == s.peers[idx].has && t.picker.have == s.picker.have
      && (t.peers[idx].weInterested <==> Interesting(s, s.peers[idx]))
  {
    hide Inv, FillRequests, Interesting, PeerOk;
    var yes := s.peers[idx].(weInterested := true);
    InterestIsFree(m, s, log, idx);
    EditFlagsKeeps(m, s, log, idx, yes);
    RefillShape(m, SetPeer(s, idx, yes), log, idx, now);
  }

  /** The same after a change that leaves our interest alone. */
  lemma ReconsideredFrom(s: State, u: State, t: State, idx: nat)
    requires idx < |s.peers| && idx < |u.peers| && u.peers[idx].weInterested == s.peers[idx].weInterested
    requires Reconsidered(u, t, idx)
    ensures Reconsidered(s, t, idx)
  {}

  lemma AnnouncementReconsiders(m: Meta, s0: State, log: set<Delivery>, idx: nat, msg: Message, now: nat, io: Io)
    requires Inv(m, s0, log) && idx < |s0.peers| && |s0.disk| == Total(m.files) && Announces(m, s0.peers[idx], msg)
    ensures Reconsidered(s0, Handle(m, s0, idx, msg, now, io).state, idx)
  {
    hide Inv, UpdateInterest, Reconsidered, Bitfields.Parse, Bitfields.PiecesOf, ReplacePieceSet, Picker.AddSingle, PeerOk;
    var p := s0.peers[idx];
    var s := SetPeer(s0, idx, p.(hasOpened := true));
    OpenKeeps(m, s0, log, idx);
    if msg.Have? {
      var u := SetPeer(s, idx, s.peers[idx].(has := p.has + {msg.piece})).(picker := s.picker.AddSingle(msg.piece));
      HaveKeeps(m, s, log, idx, msg.piece);
      InterestTopsUp(m, u, log, idx, now);
      ReconsideredFrom(s0, u, UpdateInterest(u, idx, now).state, idx);
    } else {
      var n := m.geo.numPieces;
      NothingYet(m, s0, log, idx);
      var field := if msg.Bitfield? then Bitfields.PiecesOf(msg.bits, n) else if msg.HaveAll? then AllPieces(n) else {};
      FieldBelow(msg, n);
      FieldTopsUp(m, s, log, idx, field, now);
      ReconsideredFrom(s0, s, UpdateInterest(ReplacePieceSet(s, idx, field), idx, now).state, idx);
    }
  }

  lemma FieldBelow(msg: Message, n: nat)
    ensures msg.Bitfield? ==> forall i :: i in Bitfields.PiecesOf(msg.bits, n) ==> i < n
    ensures forall i :: i in AllPieces(n) ==> i < n
  {}

  lemma NothingYet(m: Meta, s: State, log: set<Delivery>, idx: nat)
    requires Inv(m, s, log) && idx < |s.peers|
    ensures !s.peers[idx].hasOpened ==> s.peers[idx].has == {}
  {
    assert PeerOk(s.picker, s.peers[idx]);
  }

  lemma FieldTopsUp(m: Meta, s: State, log: set<Delivery>, idx: nat, field: set<nat>, now: nat)
    requires Inv(m, s, log) && idx < |s.peers| && s.peers[idx].hasOpened && s.peers[idx].has == {}
    requires forall i :: i in field ==> i < m.geo.numPieces
    ensures |ReplacePieceSet(s, idx, field).peers| == |s.peers|
    ensures Reconsidered(s, UpdateInterest(ReplacePieceSet(s, idx, field), idx, now).state, idx)
  {
    hide Inv, UpdateInterest, Reconsidered, Picker.AddBitfield, Picker.RemoveBitfield;
    ReplaceKeeps(m, s, log, idx, field);
    var u := ReplacePieceSet(s, idx, field);
    InterestTopsUp(m, u, log, idx, now);
    ReconsideredFrom(s, u, UpdateInterest(u, idx, now).state, idx);
  }

  // ----- requests come to an end

  /** The data is one whole block of the torrent. */
  predicate OneBlock(m: Meta, index: nat, begin: nat, data: seq<byte>) {
    begin % BLOCK_LEN == 0 && index < m.geo.numPieces && |data| == m.geo.BlockLen(index, begin / BLOCK_LEN)
  }

  /** What tops up a pipeline besides new interest: being unchoked, a block that
      decides its piece or cannot be written, and a block that was not asked for. */
  ghost predicate Prompts(m: Meta, s: State, p: Peer, msg: Message, io: Io) {
    || msg.Unchoke?
    || (msg.Piece? && OneBlock(m, msg.index, msg.begin, msg.block) &&
          var b := (msg.index, msg.begin / BLOCK_LEN);
          b !in p.inFlight || LastOfPiece(s, b) || (io.write.Some? && io.write.value < |msg.block|))
  }

  lemma UnchokeTopsUp(m: Meta, s: State, log: set<Delivery>, idx: nat, now: nat)
    requires Inv(m, s, log) && idx < |s.peers| && s.peers[idx].hasOpened
    ensures var t := FillRequests(SetPeer(s, idx, s.peers[idx].(peerChoking := false)), idx, now).state;
      idx < |t.peers| && ToppedUp(t, idx)
  {
    hide FillRequests, Inv, ToppedUp, PeerOk;
    var p := s.peers[idx].(peerChoking := false);
    PeerIsOk(m, s, log, idx);
    UnchokedOk(s.picker, s.peers[idx]);
    EditFlagsKeeps(m, s, log, idx, p);
    RefillTopsUp(m, SetPeer(s, idx, p), log, idx, now);
  }

  lemma UnaskedRefills(m: Meta, s: State, idx: nat, index: nat, begin: nat, data: seq<byte>, now: nat, io: Io)
    requires idx < |s.peers| && |s.disk| == Total(m.files) && OneBlock(m, index, begin, data)
    requires (index, begin / BLOCK_LEN) !in s.peers[idx].inFlight
    ensures OnBlock(m, s, idx, index, begin, data, now, io) == FillRequests(s, idx, now)
  {
    hide FillRequests, StoreBlock;
  }

  lemma BlockTopsUp(m: Meta, s: State, log: set<Delivery>, idx: nat, index: nat, begin: nat, data: seq<byte>, now: nat, io: Io)
    requires Inv(m, s, log) && idx < |s.peers| && |s.disk| == Total(m.files)
    requires Prompts(m, s, s.peers[idx], Piece(index, begin, data), io)
    ensures var t := OnBlock(m, s, idx, index, begin, data, now, io).state; idx < |t.peers| && ToppedUp(t, idx)
  {
    hide Inv, OnBlock, FillRequests, AcceptBlock, WriteLinear, ToppedUp, FailedWriteState, LastOfPiece, Judge, SettledState;
    var b: Block := (index, begin / BLOCK_LEN);
    if b !in s.peers[idx].inFlight {
      UnaskedRefills(m, s, idx, index, begin, data, now, io);
      RefillTopsUp(m, s, log, idx, now);
    } else {
      assert b.1 * BLOCK_LEN == begin;
      OwedIsAskable(m, s, log, idx, b);
      if io.write.Some? && io.write.value < |data| {
        FailedWriteUnfolds(m, s, idx, b, data, now, io);
        FailedWriteKept(m, s, log, idx, b, data[..io.write.value]);
        SeatedStill(m, s, idx, b, data[..io.write.value]);
        RefillTopsUp(m, FailedWriteState(m, s, idx, b, data[..io.write.value]), log, idx, now);
      } else {
        LastTopsUp(m, s, log, idx, b, data, now, io);
      }
    }
  }

  lemma SeatedStill(m: Meta, s: State, idx: nat, b: Block, written: seq<byte>)
    requires idx < |s.peers| && |s.disk| == Total(m.files) && m.geo.BlockStart(b) + |written| <= |s.disk|
    ensures |FailedWriteState(m, s, idx, b, written).peers| == |s.peers|
  {
    hide WriteLinear, Picker.BlockFailed;
  }

  lemma LastTopsUp(m: Meta, s: State, log: set<Delivery>, idx: nat, b: Block, data: seq<byte>, now: nat, io: Io)
    requires Inv(m, s, log) && idx < |s.peers| && b in s.peers[idx].inFlight && |s.disk| == Total(m.files)
    requires |data| == m.geo.BlockLen(b.0, b.1) && (io.write.Some? ==> io.write.value >= |data|) && LastOfPiece(s, b)
    ensures var t := OnBlock(m, s, idx, b.0, b.1 * BLOCK_LEN, data, now, io).state; idx < |t.peers| && ToppedUp(t, idx)
  {
    hide Inv, OnBlock, FillRequests, AcceptBlock, WriteLinear, ToppedUp, LastOfPiece, Judge, SettledState, Pending;
    OwedIsAccepted(m, s, log, idx, b, data, now, io);
    AcceptUnfolds(m, s, idx, b, data, io);
    SettledFacts(m, s, log, idx, b, data);
    AcceptKeeps(m, s, log, idx, b, data, io);
    var s1 := SetPeer(s, idx, s.peers[idx].(inFlight := s.peers[idx].inFlight - {b}, strikes := 0))
      .(disk := WriteLinear(m.files, s.disk, m.geo.BlockStart(b), data));
    var (e, refill) := AcceptBlock(m, s1, idx, b, |data|, io);
    assert refill;
    RefillTopsUp(m, e.state, log + {(s.peers[idx].dest, b, data)}, idx, now);
  }

  lemma PromptTopsUp(m: Meta, s0: State, log: set<Delivery>, idx: nat, msg: Message, now: nat, io: Io)
    requires Inv(m, s0, log) && idx < |s0.peers| && |s0.disk| == Total(m.files) && Prompts(m, s0, s0.peers[idx], msg, io)
    ensures var t := Handle(m, s0, idx, msg, now, io).state; idx < |t.peers| && ToppedUp(t, idx)
  {
    hide Inv, OnBlock, FillRequests, ToppedUp, LastOfPiece, PeerOk;
    var s := SetPeer(s0, idx, s0.peers[idx].(hasOpened := true));
    OpenKeeps(m, s0, log, idx);
    if msg.Unchoke? {
      UnchokeTopsUp(m, s, log, idx, now);
    } else {
      SameLast(s0, s, (msg.index, msg.begin / BLOCK_LEN));
      BlockTopsUp(m, s, log, idx, msg.index, msg.begin, msg.block, now, io);
    }
  }

  lemma SameLast(s: State, t: State, b: Block)
    requires t.picker == s.picker
    ensures LastOfPiece(t, b) == LastOfPiece(s, b)
  {}

  // ----- after the step

  /** A round leaves pipelines alone. */
  lemma RoundKeepsPipelines(s: State, now: nat, idx: nat)
    requires IdsOk(s.peers, s.nextId) && idx < |s.peers|
    ensures var t := ChokeRoundIfDue(s, now).state;
      && t.picker == s.picker && |t.peers| == |s.peers|
      && var p := s.peers[idx];
      && t.peers[idx] == p.(weChoke := t.peers[idx].weChoke, uploadedAtRound := t.peers[idx].uploadedAtRound,
                            downloadedAtRound := t.peers[idx].downloadedAtRound)
  {
    hide RunChoker, ChokerSpec.Chosen;
    RunChokerEffect(s.(lastChokeRound := now));
  }


  lemma StaysToppedUp(s: State, t: State, idx: nat)
    requires idx < |s.peers| && idx < |t.peers| && t.picker == s.picker
    requires var p, q := s.peers[idx], t.peers[idx];
      q.peerChoking == p.peerChoking && q.weInterested == p.weInterested && q.inFlight == p.inFlight && q.has == p.has
    ensures ToppedUp(s, idx) ==> ToppedUp(t, idx)
  {
    hide Picker.InEndgame, Free;
  }

  /** In every reachable state: a message that announces new pieces leaves us
      interested in its sender exactly if it has a piece we lack, with requests
      out if the interest is new; one that unchokes us, decides a piece, meets a
      write error or brings what was not asked for has the pipeline topped up. */
  lemma PipelinesAreToppedUp(m: Meta, w: World, idx: nat, msg: Message, now: nat, io: Io)
    requires Reachable(m, w) && idx < |w.state.peers|
    ensures |w.state.disk| == Total(m.files)
    ensures var s, o := w.state, OnMessage(m, w.state, w.state.peers[idx].id, msg, now, io);
      && (Announces(m, s.peers[idx], msg) ==> Reconsidered(s, o.state, idx))
      && (Prompts(m, s, s.peers[idx], msg, io) ==> idx < |o.state.peers| && ToppedUp(o.state, idx))
  {
    hide Reachable, Inv, Handle, ChokeRoundIfDue, Reconsidered, Prompts, Announces, ToppedUp;
    ReachableIsSafe(m, w);
    InvOf(m, w);
    var s, id := w.state, w.state.peers[idx].id;
    ShapeOf(m, s, w.log);
    IdsOf(m, s, w.log);
    FoundAt(s.peers, s.nextId, idx);
    HandleKeeps(m, s, w.log, idx, msg, now, io);
    var e := Handle(m, s, idx, msg, now, io).state;
    var log' := if msg.Piece? then w.log + {Said(s.peers[idx].dest, msg.index, msg.begin, msg.block)} else w.log;
    IdsOf(m, e, log');
    if Announces(m, s.peers[idx], msg) {
      AnnouncementReconsiders(m, s, w.log, idx, msg, now, io);
      ReconsideredStays(s, e, now, idx);
    }
    if Prompts(m, s, s.peers[idx], msg, io) {
      PromptTopsUp(m, s, w.log, idx, msg, now, io);
      RoundKeepsPipelines(e, now, idx);
      StaysToppedUp(e, ChokeRoundIfDue(e, now).state.(toDrop := []), idx);
    }
  }

  lemma ReconsideredStays(s: State, t: State, now: nat, idx: nat)
    requires IdsOk(t.peers, t.nextId) && idx < |s.peers| && Reconsidered(s, t, idx)
    ensures Reconsidered(s, ChokeRoundIfDue(t, now).state.(toDrop := []), idx)
  {
    hide ChokeRoundIfDue, ToppedUp;
    RoundKeepsPipelines(t, now, idx);
    StaysToppedUp(t, ChokeRoundIfDue(t, now).state.(toDrop := []), idx);
  }

  lemma FoundAt(peers: seq<Peer>, nextId: nat, idx: nat)
    requires IdsOk(peers, nextId) && idx < |peers|
    ensures Find(peers, peers[idx].id) == Some(idx)
  {
    var found := Find(peers, peers[idx].id);
    assert found.Some?;
  }

  // ----- ticks

  lemma MaintainTopsUp(m: Meta, s: State, log: set<Delivery>, idx: nat, now: nat)
    requires Inv(m, s, log) && idx < |s.peers| && !Struck(s.peers[idx], s.requestTimeout, now)
    ensures var t := MaintainPeer(s, idx, now).state; idx < |t.peers| && ToppedUp(t, idx)
  {
    hide Inv, FillRequests, Expired, Picker.Release, ToppedUp, Late;
    var p, late := s.peers[idx], Expired(s, s.peers[idx], now);
    LateIsExpired(s, p, now);
    RefillTopsUp(m, s, log, idx, now);
    LateKept(m, s, log, idx, now);
    RefillTopsUp(m, SetPeer(s, idx, p.(inFlight := p.inFlight - late, strikes := p.strikes + 1)).(picker := s.picker.Release(late)), log, idx, now);
  }

  /** When a tick has dealt with a peer it does not strike out, that peer's
      pipeline is topped up. */
  lemma TicksTopUp(m: Meta, w: World, idx: nat, now: nat)
    requires Reachable(m, w) && idx < |w.state.peers| && !Struck(w.state.peers[idx], w.state.requestTimeout, now)
    ensures var t := MaintainBelow(w.state, now, idx + 1).state; idx < |t.peers| && ToppedUp(t, idx)
  {
    hide Reachable, Inv, MaintainPeer, Struck, ToppedUp;
    ReachableIsSafe(m, w);
    InvOf(m, w);
    MaintainKeeps(m, w.state, w.log, now, idx);
    MaintainDrops(w.state, now, idx);
    MaintainTopsUp(m, MaintainBelow(w.state, now, idx).state, w.log, idx, now);
  }
}
