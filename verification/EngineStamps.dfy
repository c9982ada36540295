// How long a peer has owed a block, and what the request timeout does about it
// (crates/clove-core/src/torrent.rs, `maintain_requests`). The time stamp of a
// request is when it was asked, as long as no refill happens in endgame.
module EngineStamps {
  import opened Prelude
  import opened Wire
  import opened PickerSpec
  import opened PickerTheory
  import opened DiskSpec
  import opened EngineSpec
  import opened EngineInvariant
  import opened EngineSteps
  import opened EngineDelivery
  import opened EngineFrame
  import opened EngineTheorems
  import opened EngineSafety
  import opened EngineOutcomes
  import opened EngineEndgame
  import opened EngineUnread
  import opened EngineBans
  import ChokerSpec
  import Bitfields
  import Counting

  // ----- endgame depends on what has been received

  lemma SameTallies(p: Picker, q: Picker, i: nat)
    requires p.Valid() && q.Valid() && q.geo == p.geo && i < p.geo.numPieces && i !in p.have && i !in q.have
    requires forall b: Block :: q.Received(b) == p.Received(b)
    ensures ReceivedCount(p.Track(i)) == ReceivedCount(q.Track(i))
  {
    var x, y := p.Track(i).received, q.Track(i).received;
    forall k | 0 <= k < |x| ensures k < |y| && x[k] == y[k] {
      assert p.Received((i, k)) == q.Received((i, k));
    }
    Counting.CountSame(x, IsTrue, y, IsTrue);
  }

  lemma {:induction false} SameRemaining(p: Picker, q: Picker, k: nat)
    requires p.Valid() && q.Valid() && q.geo == p.geo && q.have == p.have && q.priority == p.priority && k <= p.geo.numPieces
    requires forall b: Block :: q.Received(b) == p.Received(b)
    ensures p.RemainingBelow(k) == q.RemainingBelow(k)
  {
    hide Picker.Track, ReceivedCount, Picker.Valid;
    if k > 0 {
      SameRemaining(p, q, k - 1);
      if k - 1 !in p.have { SameTallies(p, q, k - 1); }
    }
  }

  /** What endgame is decided on. */
  ghost predicate SameProspects(p: Picker, q: Picker) {
    && q.geo == p.geo && q.have == p.have && q.priority == p.priority && q.endgameBlocks == p.endgameBlocks
    && forall b: Block :: q.Received(b) == p.Received(b)
  }

  lemma SameEndgame(m: Meta, s: State, t: State, log: set<Delivery>, log': set<Delivery>)
    requires Inv(m, s, log) && Inv(m, t, log') && SameProspects(s.picker, t.picker)
    ensures s.picker.InEndgame() == t.picker.InEndgame()
  {
    hide Inv, Picker.RemainingBelow, Picker.Received;
    ShapeOf(m, s, log);
    ShapeOf(m, t, log');
    SameRemaining(s.picker, t.picker, s.picker.geo.numPieces);
  }

  // ----- what keeps the stamps

  /** From `s` to `t` every peer's debts keep their stamps, but those of the peer
      at `idx` for blocks of `gone`, which are new ones of `now`. */
  ghost predicate KeepsStamps(s: State, t: State, idx: nat, gone: set<Block>, now: nat) {
    && |t.peers| == |s.peers|
    && forall k, b {:trigger t.peers[k].inFlight[b]} ::
         0 <= k < |s.peers| && b in s.peers[k].inFlight && b in t.peers[k].inFlight ==>
         t.peers[k].inFlight[b] == if k == idx && b in gone then now else s.peers[k].inFlight[b]
  }

  /** Debts as they were, but for `gone` taken off the peer at `idx`, and
      perhaps off others. */
  ghost predicate DebtsShrink(s: State, t: State, idx: nat, gone: set<Block>) {
    && |t.peers| == |s.peers|
    && (idx < |s.peers| ==> t.peers[idx].inFlight == s.peers[idx].inFlight - gone)
    && forall k :: 0 <= k < |s.peers| && k != idx ==>
         t.peers[k].inFlight == s.peers[k].inFlight || t.peers[k].inFlight == s.peers[k].inFlight - gone
  }

  lemma ShrunkKeeps(s: State, t: State, idx: nat, gone: set<Block>, now: nat)
    requires DebtsShrink(s, t, idx, gone)
    ensures KeepsStamps(s, t, idx, gone, now)
  {}

  /** A refill outside endgame keeps all stamps. */
  lemma RefillKeepsStamps(m: Meta, s: State, log: set<Delivery>, idx: nat, now: nat)
    requires Inv(m, s, log) && idx < |s.peers|
    ensures var t := FillRequests(s, idx, now).state;
      && Inv(m, t, log) && SameProspects(s.picker, t.picker)
      && (!s.picker.InEndgame() ==> KeepsStamps(s, t, idx, {}, now))
      && (forall b :: b in t.peers[idx].inFlight && b !in s.peers[idx].inFlight ==> t.peers[idx].inFlight[b] == now)
      && |t.peers| == |s.peers| && (forall k :: 0 <= k < |s.peers| && k != idx ==> t.peers[k] == s.peers[k])
  {
    hide Inv, FillRequests, Handed, Picker.InEndgame, Picker.Received, Picker.InFlight;
    FillRequestsKeeps(m, s, log, idx, now);
    RefillShape(m, s, log, idx, now);
    if !s.picker.InEndgame() && Repeats(s, idx) { RepeatsOnlyInEndgame(m, s, log, idx); assert false; }
  }

  /** Taking blocks off and refilling: what comes back has a new stamp. */
  lemma ThenRefill(m: Meta, s: State, u: State, log: set<Delivery>, idx: nat, gone: set<Block>, now: nat)
    requires Inv(m, u, log) && idx < |s.peers| && DebtsShrink(s, u, idx, gone) && !FillRequests(u, idx, now).state.picker.InEndgame()
    ensures KeepsStamps(s, FillRequests(u, idx, now).state, idx, gone, now)
  {
    hide Inv, FillRequests, Picker.InEndgame;
    RefillKeepsStamps(m, u, log, idx, now);
    var t := FillRequests(u, idx, now).state;
    SameEndgame(m, u, t, log, log);
    forall k, b | 0 <= k < |s.peers| && b in s.peers[k].inFlight && b in t.peers[k].inFlight
      ensures t.peers[k].inFlight[b] == if k == idx && b in gone then now else s.peers[k].inFlight[b]
    {
      if k == idx && b in gone {
        assert b !in u.peers[idx].inFlight;
      } else {
        assert b in u.peers[k].inFlight && u.peers[k].inFlight[b] == s.peers[k].inFlight[b];
        if k != idx { assert t.peers[k] == u.peers[k]; }
      }
    }
  }

  lemma ThenInterest(m: Meta, s: State, u: State, log: set<Delivery>, idx: nat, now: nat)
    requires Inv(m, u, log) && idx < |s.peers| && DebtsShrink(s, u, idx, {}) && !UpdateInterest(u, idx, now).state.picker.InEndgame()
    ensures KeepsStamps(s, UpdateInterest(u, idx, now).state, idx, {}, now)
  {
    hide Inv, FillRequests, Picker.InEndgame, Interesting;
    var p := u.peers[idx].(weInterested := true);
    PeerIsOk(m, u, log, idx);
    InterestedOk(u.picker, u.peers[idx]);
    EditFlagsKeeps(m, u, log, idx, p);
    var v := SetPeer(u, idx, p);
    if Interesting(u, u.peers[idx]) && !u.peers[idx].weInterested && !u.peers[idx].peerChoking {
      ThenRefill(m, s, v, log, idx, {}, now);
    }
  }

  lemma InterestedOk(pk: Picker, p: Peer)
    requires PeerOk(pk, p)
    ensures PeerOk(pk, p.(weInterested := true))
  {}

  // ----- a block

  /** The block the data is a delivery of, if the peer owes one. */
  function Answered(m: Meta, p: Peer, index: nat, begin: nat, data: seq<byte>): set<Block> {
    if Unasked(m, p, index, begin, data) then {} else {(index, begin / BLOCK_LEN)}
  }

  lemma OnBlockStamps(m: Meta, s: State, log: set<Delivery>, idx: nat, index: nat, begin: nat, data: seq<byte>, now: nat, io: Io)
    requires Inv(m, s, log) && idx < |s.peers| && |s.disk| == Total(m.files)
    requires !OnBlock(m, s, idx, index, begin, data, now, io).state.picker.InEndgame()
    ensures var t := OnBlock(m, s, idx, index, begin, data, now, io).state;
      KeepsStamps(s, t, idx, Answered(m, s.peers[idx], index, begin, data), now)
  {
    hide Inv, OnBlock, FillRequests, Picker.InEndgame, WriteLinear, DebtsShrink;
    var b: Block := (index, begin / BLOCK_LEN);
    var t := OnBlock(m, s, idx, index, begin, data, now, io).state;
    Unshrunk(s, idx);
    if Unasked(m, s.peers[idx], index, begin, data) {
      UnaskedEffect(m, s, log, idx, index, begin, data, now, io);
      ShrunkKeeps(s, s, idx, {}, now);
      if t == FillRequests(s, idx, now).state { ThenRefill(m, s, s, log, idx, {}, now); }
    } else {
      assert b.1 * BLOCK_LEN == begin;
      OwedStamps(m, s, log, idx, b, data, now, io);
    }
  }

  lemma Unshrunk(s: State, idx: nat)
    ensures DebtsShrink(s, s, idx, {})
  {
    if idx < |s.peers| { assert s.peers[idx].inFlight - {} == s.peers[idx].inFlight; }
  }

  lemma OwedStamps(m: Meta, s: State, log: set<Delivery>, idx: nat, b: Block, data: seq<byte>, now: nat, io: Io)
    requires Inv(m, s, log) && idx < |s.peers| && |s.disk| == Total(m.files)
    requires b in s.peers[idx].inFlight && |data| == m.geo.BlockLen(b.0, b.1)
    requires !OnBlock(m, s, idx, b.0, b.1 * BLOCK_LEN, data, now, io).state.picker.InEndgame()
    ensures KeepsStamps(s, OnBlock(m, s, idx, b.0, b.1 * BLOCK_LEN, data, now, io).state, idx, {b}, now)
  {
    hide Inv, OnBlock, FillRequests, Picker.InEndgame, Picker.Received, WriteLinear, DebtsShrink, AcceptBlock, FailedWriteState;
    OwedIsAskable(m, s, log, idx, b);
    if Writes(io, data) {
      OwedIsAccepted(m, s, log, idx, b, data, now, io);
      AcceptKeeps(m, s, log, idx, b, data, io);
      AcceptShrinks(m, s, log, idx, b, data, io);
      var s1 := SetPeer(s, idx, s.peers[idx].(inFlight := s.peers[idx].inFlight - {b}, strikes := 0))
        .(disk := WriteLinear(m.files, s.disk, m.geo.BlockStart(b), data));
      var (e, refill) := AcceptBlock(m, s1, idx, b, |data|, io);
      ShrunkKeeps(s, e.state, idx, {b}, now);
      if refill { ThenRefill(m, s, e.state, log + {(s.peers[idx].dest, b, data)}, idx, {b}, now); }
    } else {
      FailedWriteUnfolds(m, s, idx, b, data, now, io);
      FailedWriteKept(m, s, log, idx, b, data[..io.write.value]);
      FailedShrinks(m, s, idx, b, data[..io.write.value]);
      ThenRefill(m, s, FailedWriteState(m, s, idx, b, data[..io.write.value]), log, idx, {b}, now);
    }
  }

  lemma FailedShrinks(m: Meta, s: State, idx: nat, b: Block, written: seq<byte>)
    requires idx < |s.peers| && |s.disk| == Total(m.files) && m.geo.BlockStart(b) + |written| <= |s.disk|
    ensures DebtsShrink(s, FailedWriteState(m, s, idx, b, written), idx, {b})
  {
    hide WriteLinear, Picker.BlockFailed;
  }

  lemma AcceptShrinks(m: Meta, s: State, log: set<Delivery>, idx: nat, b: Block, data: seq<byte>, io: Io)
    requires Inv(m, s, log) && idx < |s.peers| && b in s.peers[idx].inFlight && |data| == m.geo.BlockLen(b.0, b.1)
    requires m.geo.BlockStart(b) + |data| <= |s.disk| && |s.disk| == Total(m.files)
    ensures var p := s.peers[idx];
      var s1 := SetPeer(s, idx, p.(inFlight := p.inFlight - {b}, strikes := 0))
        .(disk := WriteLinear(m.files, s.disk, m.geo.BlockStart(b), data));
      DebtsShrink(s, AcceptBlock(m, s1, idx, b, |data|, io).0.state, idx, {b})
  {
    hide Inv, AcceptBlock, Judge, SettledState, WriteLinear, CancelElsewhere, WholeAndSettled;
    AcceptUnfolds(m, s, idx, b, data, io);
    AcceptIsSettleThenJudge(m, s, log, idx, b, data, io);
    SettledStateKeeps(m, s, log, idx, b, data);
    SettledShrinks(m, s, idx, b, data);
    var t := SettledState(m, s, idx, b, data);
    if WholeAndSettled(t, b.0) { JudgeKeeps(m, t, log + {(s.peers[idx].dest, b, data)}, b.0, io); }
  }

  lemma SettledShrinks(m: Meta, s: State, idx: nat, b: Block, data: seq<byte>)
    requires idx < |s.peers| && |s.disk| == Total(m.files) && m.geo.BlockStart(b) + |data| <= |s.disk|
    ensures DebtsShrink(s, SettledState(m, s, idx, b, data), idx, {b})
  {
    hide WriteLinear, Picker.BlockReceived, Cancels, Picker.Lower;
    var p := s.peers[idx];
    var p1 := p.(inFlight := p.inFlight - {b}, strikes := 0, downloaded := p.downloaded + |data|);
    WithdrawnSettles(s.peers, s.peers[idx := p1], idx, b);
  }

  // ----- messages

  /** The blocks a message is a delivery of. */
  function AnsweredBy(m: Meta, p: Peer, msg: Message): set<Block> {
    if msg.Piece? then Answered(m, p, msg.index, msg.begin, msg.block) else {}
  }

  /** Only flags changed. */
  lemma SameDebts(s: State, t: State, idx: nat, now: nat)
    requires |t.peers| == |s.peers| && forall k :: 0 <= k < |s.peers| ==> t.peers[k].inFlight == s.peers[k].inFlight
    ensures DebtsShrink(s, t, idx, {}) && KeepsStamps(s, t, idx, {}, now)
  {
    Unshrunk(s, idx);
  }

  lemma UnchokedOk(pk: Picker, p: Peer)
    requires PeerOk(pk, p) && p.hasOpened
    ensures PeerOk(pk, p.(peerChoking := false))
  {}

  lemma UnchokeStamps(m: Meta, s: State, log: set<Delivery>, idx: nat, now: nat)
    requires Inv(m, s, log) && idx < |s.peers| && s.peers[idx].hasOpened
    requires !FillRequests(SetPeer(s, idx, s.peers[idx].(peerChoking := false)), idx, now).state.picker.InEndgame()
    ensures KeepsStamps(s, FillRequests(SetPeer(s, idx, s.peers[idx].(peerChoking := false)), idx, now).state, idx, {}, now)
  {
    hide FillRequests, Inv, Picker.InEndgame, KeepsStamps, DebtsShrink, PeerOk;
    var p := s.peers[idx].(peerChoking := false);
    PeerIsOk(m, s, log, idx);
    UnchokedOk(s.picker, s.peers[idx]);
    EditFlagsKeeps(m, s, log, idx, p);
    SameDebts(s, SetPeer(s, idx, p), idx, now);
    ThenRefill(m, s, SetPeer(s, idx, p), log, idx, {}, now);
  }

  lemma HaveStamps(m: Meta, s: State, log: set<Delivery>, idx: nat, piece: nat, now: nat)
    requires Inv(m, s, log) && idx < |s.peers| && s.peers[idx].hasOpened
    requires piece < m.geo.numPieces && piece !in s.peers[idx].has
    ensures var t := SetPeer(s, idx, s.peers[idx].(has := s.peers[idx].has + {piece})).(picker := s.picker.AddSingle(piece));
      !UpdateInterest(t, idx, now).state.picker.InEndgame() ==> KeepsStamps(s, UpdateInterest(t, idx, now).state, idx, {}, now)
  {
    hide Inv, UpdateInterest, Picker.InEndgame, Picker.AddSingle, KeepsStamps, DebtsShrink;
    var t := SetPeer(s, idx, s.peers[idx].(has := s.peers[idx].has + {piece})).(picker := s.picker.AddSingle(piece));
    HaveKeeps(m, s, log, idx, piece);
    SameDebts(s, t, idx, now);
    if !UpdateInterest(t, idx, now).state.picker.InEndgame() { ThenInterest(m, s, t, log, idx, now); }
  }

  lemma FieldStamps(m: Meta, s: State, log: set<Delivery>, idx: nat, field: set<nat>, now: nat)
    requires Inv(m, s, log) && idx < |s.peers| && s.peers[idx].hasOpened && s.peers[idx].has == {}
    requires forall i :: i in field ==> i < m.geo.numPieces
    ensures var t := ReplacePieceSet(s, idx, field);
      !UpdateInterest(t, idx, now).state.picker.InEndgame() ==> KeepsStamps(s, UpdateInterest(t, idx, now).state, idx, {}, now)
  {
    hide Inv, UpdateInterest, Picker.InEndgame, Picker.AddBitfield, Picker.RemoveBitfield, KeepsStamps, DebtsShrink;
    ReplaceKeeps(m, s, log, idx, field);
    var t := ReplacePieceSet(s, idx, field);
    SameDebts(s, t, idx, now);
    if !UpdateInterest(t, idx, now).state.picker.InEndgame() { ThenInterest(m, s, t, log, idx, now); }
  }

  /** Messages that lead to no request. */
  lemma QuietStamps(m: Meta, s: State, idx: nat, first: bool, msg: Message, now: nat, io: Io)
    requires idx < |s.peers| && |s.disk| == Total(m.files)
    requires msg.KeepAlive? || msg.Cancel? || msg.Extended? || msg.RejectRequest? || msg.SuggestPiece? || msg.AllowedFast?
      || msg.Choke? || msg.Interested? || msg.NotInterested? || msg.Request?
    ensures KeepsStamps(s, Dispatch(m, s, idx, first, msg, now, io).state, idx, {}, now)
  {
    hide RunChoker, Counting.Count, Picker.Release, Present, Bytes;
    var t := Dispatch(m, s, idx, first, msg, now, io).state;
    if msg.Interested? {
      RunChokerDebts(SetPeer(s, idx, s.peers[idx].(theyInterested := true)));
    }
  }

  lemma RunChokerDebts(s: State)
    ensures var t := RunChoker(s).state;
      |t.peers| == |s.peers| && forall k :: 0 <= k < |s.peers| ==> t.peers[k].inFlight == s.peers[k].inFlight
  {
    hide SetChokes, ChokerSpec.Plan;
    var d := ChokerSpec.Plan(s.slots, s.round + 1, Snapshots(s));
    var s' := s.(peers := Ranked(s.peers), round := s.round + 1);
    SetChokesKeepsDebts(s', d.unchoke, false);
    SetChokesKeepsDebts(SetChokes(s', d.unchoke, false).state, d.choke, true);
  }

  /** Any message, unless it leads into endgame, keeps all stamps but that of a
      block it delivers. */
  lemma HandleStamps(m: Meta, s0: State, log: set<Delivery>, idx: nat, msg: Message, now: nat, io: Io)
    requires Inv(m, s0, log) && idx < |s0.peers| && |s0.disk| == Total(m.files)
    requires !Handle(m, s0, idx, msg, now, io).state.picker.InEndgame()
    ensures KeepsStamps(s0, Handle(m, s0, idx, msg, now, io).state, idx, AnsweredBy(m, s0.peers[idx], msg), now)
  {
    hide Inv, FillRequests, UpdateInterest, OnBlock, RunChoker, ServeRequest, ReplacePieceSet, Picker.InEndgame, KeepsStamps;
    hide Counting.Count, ReleaseAll, Picker.AddSingle;
    var s := if Opens(msg) then SetPeer(s0, idx, s0.peers[idx].(hasOpened := true)) else s0;
    OpenKeeps(m, s0, log, idx);
    PeerFlags(m, s0, log, idx);
    OpenedDebts(s0, s, Handle(m, s0, idx, msg, now, io).state, idx, AnsweredBy(m, s0.peers[idx], msg), now);
    ShapeOf(m, s, log);
    SameDebts(s, s, idx, now);
    match msg {
      case Unchoke => UnchokeStamps(m, s, log, idx, now);
      case Have(piece) => if piece < m.geo.numPieces && piece !in s.peers[idx].has { HaveStamps(m, s, log, idx, piece, now); }
      case Bitfield(bits) =>
        if !s0.peers[idx].hasOpened && Bitfields.Parse(bits, m.geo.numPieces).Ok? {
          FieldStamps(m, s, log, idx, Bitfields.PiecesOf(bits, m.geo.numPieces), now);
        } else {
          ViolationDebts(s, idx, now);
        }
      case HaveAll | HaveNone =>
        if !s0.peers[idx].hasOpened && s0.peers[idx].fast {
          FieldStamps(m, s, log, idx, if msg.HaveAll? then AllPieces(m.geo.numPieces) else {}, now);
        } else {
          ViolationDebts(s, idx, now);
        }
      case Piece(index, begin, data) => OnBlockStamps(m, s, log, idx, index, begin, data, now, io);
      case _ => QuietStamps(m, s, idx, !s0.peers[idx].hasOpened, msg, now, io);
    }
  }

  lemma ViolationDebts(s: State, idx: nat, now: nat)
    requires idx < |s.peers|
    ensures KeepsStamps(s, Violation(s, s.peers[idx].id).state, idx, {}, now)
  {}

  /** Marking a peer as having opened is no change of its debts. */
  lemma OpenedDebts(s0: State, s: State, t: State, idx: nat, gone: set<Block>, now: nat)
    requires idx < |s0.peers| && (s == s0 || s == SetPeer(s0, idx, s0.peers[idx].(hasOpened := true)))
    ensures KeepsStamps(s, t, idx, gone, now) ==> KeepsStamps(s0, t, idx, gone, now)
  {}

  // ----- ticks

  /** What a tick takes off the peer at `k`. */
  function Overdue(s: State, k: nat, now: nat): set<Block>
    requires k < |s.peers|
  {
    Expired(s, s.peers[k], now)
  }

  /** The debts of the first `n` peers keep their stamps, but for what a tick
      took off them: that, if asked again, is asked now. */
  ghost predicate TickKeepsStamps(s: State, t: State, now: nat, n: nat) {
    && |t.peers| == |s.peers| >= n
    && forall k, b {:trigger t.peers[k].inFlight[b]} ::
         0 <= k < n && b in s.peers[k].inFlight && b in t.peers[k].inFlight ==>
         t.peers[k].inFlight[b] == if b in Overdue(s, k, now) then now else s.peers[k].inFlight[b]
  }

  /** Maintaining one peer touches nobody else, and changes what is received not
      at all. */
  lemma MaintainPeerStamps(m: Meta, s: State, log: set<Delivery>, idx: nat, now: nat)
    requires Inv(m, s, log) && idx < |s.peers|
    ensures var t := MaintainPeer(s, idx, now).state;
      && Inv(m, t, log) && SameProspects(s.picker, t.picker) && t.requestTimeout == s.requestTimeout && |t.peers| == |s.peers|
      && (forall k :: 0 <= k < |s.peers| && k != idx ==> t.peers[k] == s.peers[k])
      && (!s.picker.InEndgame() ==> KeepsStamps(s, t, idx, Overdue(s, idx, now), now))
  {
    hide Inv, FillRequests, Picker.InEndgame, Picker.Received, KeepsStamps, Expired, DebtsShrink, Picker.Release, SameProspects;
    var p, late := s.peers[idx], Expired(s, s.peers[idx], now);
    MaintainPeerKeeps(m, s, log, idx, now);
    RefillKeepsStamps(m, s, log, idx, now);
    FillKeepsTimeout(s, idx, now);
    if late != {} {
      var p' := p.(inFlight := p.inFlight - late, strikes := p.strikes + 1);
      var s' := SetPeer(s, idx, p').(picker := s.picker.Release(late));
      LateKept(m, s, log, idx, now);
      RefillKeepsStamps(m, s', log, idx, now);
      FillKeepsTimeout(s', idx, now);
      LateShrinks(s, s', idx, late);
      ShrunkKeeps(s, s', idx, late, now);
      ProspectsJoin(s.picker, s'.picker, FillRequests(s', idx, now).state.picker);
      if !s.picker.InEndgame() {
        SameEndgame(m, s, s', log, log);
        SameEndgame(m, s', FillRequests(s', idx, now).state, log, log);
        ThenRefill(m, s, s', log, idx, late, now);
      }
    }
  }

  lemma ProspectsJoin(p: Picker, q: Picker, r: Picker)
    requires SameProspects(p, q) && SameProspects(q, r)
    ensures SameProspects(p, r)
  {}

  lemma LateShrinks(s: State, s': State, idx: nat, late: set<Block>)
    requires idx < |s.peers| && |s'.peers| == |s.peers| && s'.peers[idx].inFlight == s.peers[idx].inFlight - late
    requires forall k :: 0 <= k < |s.peers| && k != idx ==> s'.peers[k] == s.peers[k]
    ensures DebtsShrink(s, s', idx, late)
  {}

  lemma FillKeepsTimeout(s: State, idx: nat, now: nat)
    requires idx < |s.peers|
    ensures FillRequests(s, idx, now).state.requestTimeout == s.requestTimeout
  {
    hide Picker.PickBlocks, Picker.AfterPick, Picker.Release, Asked, Asks, Again;
  }

  lemma LateKept(m: Meta, s: State, log: set<Delivery>, idx: nat, now: nat)
    requires Inv(m, s, log) && idx < |s.peers|
    ensures var p, late := s.peers[idx], Expired(s, s.peers[idx], now);
      var s' := SetPeer(s, idx, p.(inFlight := p.inFlight - late, strikes := p.strikes + 1)).(picker := s.picker.Release(late));
      Inv(m, s', log) && SameProspects(s.picker, s'.picker)
  {
    hide Inv, Picker.Received, Picker.Release, Expired, Picker.Valid;
    var p, late := s.peers[idx], Expired(s, s.peers[idx], now);
    ExpiredAreOwed(s, p, now);
    PeerFlags(m, s, log, idx);
    GiveBackKeeps(m, s, log, idx, late, p.(inFlight := p.inFlight - late, strikes := p.strikes + 1));
    ShapeOf(m, s, log);
    ReleaseEffect(s.picker, late);
    ReleaseReceipts(s.picker, late);
    ReleaseProspects(s.picker, late);
  }

  lemma ExpiredAreOwed(s: State, p: Peer, now: nat)
    ensures Expired(s, p, now) <= p.inFlight.Keys
  {}

  lemma ReleaseProspects(pk: Picker, blocks: set<Block>)
    ensures pk.Release(blocks).priority == pk.priority && pk.Release(blocks).endgameBlocks == pk.endgameBlocks
  {}

  /** After the first `k` peers are maintained, theirs are the only changes. */
  lemma {:induction false} MaintainStamps(m: Meta, s: State, log: set<Delivery>, now: nat, k: nat)
    requires Inv(m, s, log) && k <= |s.peers| && !s.picker.InEndgame()
    ensures var t := MaintainBelow(s, now, k).state;
      && Inv(m, t, log) && !t.picker.InEndgame() && t.requestTimeout == s.requestTimeout
      && TickKeepsStamps(s, t, now, k)
      && forall j :: k <= j < |s.peers| ==> t.peers[j] == s.peers[j]
  {
    hide Inv, MaintainPeer, Picker.InEndgame, Expired, SameProspects;
    if k > 0 {
      MaintainStamps(m, s, log, now, k - 1);
      var t := MaintainBelow(s, now, k - 1).state;
      MaintainPeerStamps(m, t, log, k - 1, now);
      SameEndgame(m, t, MaintainPeer(t, k - 1, now).state, log, log);
      SameOverdue(s, t, k - 1, now);
    } else {
      NobodyMaintained(s, now);
    }
  }

  lemma SameOverdue(s: State, t: State, k: nat, now: nat)
    requires k < |s.peers| && k < |t.peers| && t.peers[k] == s.peers[k] && t.requestTimeout == s.requestTimeout
    ensures Overdue(t, k, now) == Overdue(s, k, now)
  {}

  lemma NobodyMaintained(s: State, now: nat)
    ensures MaintainBelow(s, now, 0).state == s
  {}

  // ----- one step

  /** When the peer with an id was last asked for a block it owes. */
  function Stamp(s: State, id: nat, b: Block): Option<nat> {
    match Find(s.peers, id)
    case None => None
    case Some(k) => if b in s.peers[k].inFlight then Some(s.peers[k].inFlight[b]) else None
  }

  /** The step takes a block off a peer: a tick because it is overdue, or the
      peer's own delivery of it. */
  predicate TakesOff(m: Meta, s: State, e: Event, id: nat, b: Block) {
    match Find(s.peers, id)
    case None => false
    case Some(k) =>
      if e.Maintain? then b in Overdue(s, k, e.now)
      else e.Receive? && e.id == id && b in AnsweredBy(m, s.peers[k], e.msg)
  }

  function Clock(e: Event): nat { if e.Maintain? || e.Receive? then e.now else 0 }

  lemma {:induction false} FindSeats(peers: seq<Peer>, peers': seq<Peer>, id: nat)
    requires SameSeats(peers, peers')
    ensures Find(peers', id) == Find(peers, id)
  {
    if peers != [] {
      var init, init' := peers[..|peers| - 1], peers'[..|peers| - 1];
      assert forall k :: 0 <= k < |init| ==> init[k] == peers[k] && init'[k] == peers'[k];
      FindSeats(init, init', id);
    }
  }

  lemma MessageStamps(m: Meta, s: State, log: set<Delivery>, e: Event, id: nat, b: Block)
    requires Inv(m, s, log) && |s.disk| == Total(m.files) && e.Receive?
    requires !Step(m, s, e).state.picker.InEndgame()
    requires Stamp(s, id, b).Some? && Stamp(Step(m, s, e).state, id, b).Some?
    ensures Stamp(Step(m, s, e).state, id, b) == if TakesOff(m, s, e, id, b) then Some(e.now) else Stamp(s, id, b)
  {
    hide Inv, Handle, ChokeRoundIfDue, Picker.InEndgame, KeepsStamps, Enforced;
    var found := Find(s.peers, e.id);
    var f := match found case None => Effect(s, []) case Some(k) => Handle(m, s, k, e.msg, e.now, e.io);
    RoundKeepsDebts(f.state, e.now);
    ChokeRoundFrame(m, f.state, e.now);
    StepEnforces(m, s, e);
    EnforcedSeats(m, s, e, Step(m, s, e));
    FindSeats(s.peers, Step(m, s, e).state.peers, id);
    if found.Some? {
      HandleStamps(m, s, log, found.value, e.msg, e.now, e.io);
      StampOf(s, f.state, found.value, AnsweredBy(m, s.peers[found.value], e.msg), e.now, Find(s.peers, id).value, b);
    }
  }

  lemma EnforcedSeats(m: Meta, s: State, e: Event, o: Outcome)
    requires Enforced(m, s, e, o)
    ensures SameSeats(s.peers, o.state.peers)
  {}

  lemma StampOf(s: State, t: State, idx: nat, gone: set<Block>, now: nat, k: nat, b: Block)
    requires KeepsStamps(s, t, idx, gone, now) && k < |s.peers| && b in s.peers[k].inFlight
    ensures |t.peers| == |s.peers|
    ensures b in t.peers[k].inFlight ==>
      t.peers[k].inFlight[b] == if k == idx && b in gone then now else s.peers[k].inFlight[b]
  {}

  lemma TickStamps(m: Meta, s: State, log: set<Delivery>, now: nat, id: nat, b: Block)
    requires Inv(m, s, log) && !OnTick(s, now).state.picker.InEndgame()
    requires Stamp(s, id, b).Some? && Stamp(OnTick(s, now).state, id, b).Some?
    ensures Stamp(OnTick(s, now).state, id, b) ==
      if b in Overdue(s, Find(s.peers, id).value, now) then Some(now) else Stamp(s, id, b)
  {
    hide Inv, MaintainBelow, ChokeRoundIfDue, Picker.InEndgame, Expired;
    var t := MaintainBelow(s, now, |s.peers|).state;
    RoundKeepsDebts(t, now);
    ChokeRoundFrame(m, t, now);
    TickProspects(m, s, log, now, |s.peers|);
    SameEndgame(m, s, t, log, log);
    MaintainStamps(m, s, log, now, |s.peers|);
    TickEnforces(m, s, now);
    FindSeats(s.peers, OnTick(s, now).state.peers, id);
  }

  /** A tick changes nothing endgame is decided on. */
  lemma {:induction false} TickProspects(m: Meta, s: State, log: set<Delivery>, now: nat, k: nat)
    requires Inv(m, s, log)
    ensures var t := MaintainBelow(s, now, k).state; Inv(m, t, log) && SameProspects(s.picker, t.picker)
  {
    hide Inv, MaintainPeer, SameProspects;
    if k == 0 {
      ProspectsSame(s.picker);
    } else {
      TickProspects(m, s, log, now, k - 1);
      var t := MaintainBelow(s, now, k - 1).state;
      if k - 1 < |t.peers| {
        MaintainPeerStamps(m, t, log, k - 1, now);
        ProspectsJoin(s.picker, t.picker, MaintainPeer(t, k - 1, now).state.picker);
      }
    }
  }

  lemma ProspectsSame(p: Picker)
    ensures SameProspects(p, p)
  {}

  /** Joining and leaving change no debt of those who stay. */
  lemma SeatingStamps(m: Meta, s: State, log: set<Delivery>, e: Event, id: nat, b: Block)
    requires Inv(m, s, log) && |s.disk| == Total(m.files) && (e.Register? || e.DropPeer?)
    requires Stamp(s, id, b).Some? && Stamp(Step(m, s, e).state, id, b).Some?
    ensures Stamp(Step(m, s, e).state, id, b) == Stamp(s, id, b)
  {
    hide PeersOk, FlightExact, AvailabilityExact, DestsOk, Witnessed, HeldVerified, Refused, Picker.RemoveBitfield, Picker.Release;
    var t := Step(m, s, e).state;
    var j, k := Find(t.peers, id).value, Find(s.peers, id).value;
    assert t.peers[j] in s.peers;
    var i :| 0 <= i < |s.peers| && s.peers[i] == t.peers[j];
    assert s.peers[i].id == s.peers[k].id;
  }

  /** One step that does not end in endgame leaves the stamp of a debt alone,
      unless it takes the block off and asks for it again. */
  lemma StepStamps(m: Meta, s: State, log: set<Delivery>, e: Event, id: nat, b: Block)
    requires Inv(m, s, log) && |s.disk| == Total(m.files) && !Step(m, s, e).state.picker.InEndgame()
    requires Stamp(s, id, b).Some? && Stamp(Step(m, s, e).state, id, b).Some?
    ensures Stamp(Step(m, s, e).state, id, b) == if TakesOff(m, s, e, id, b) then Some(Clock(e)) else Stamp(s, id, b)
  {
    hide Inv, OnMessage, OnTick, Picker.InEndgame, RegisterPeer, RemovePeer, Overdue, AnsweredBy;
    match e {
      case Receive(_, _, _, _) => MessageStamps(m, s, log, e, id, b);
      case Maintain(now) => TickStamps(m, s, log, now, id, b);
      case Register(_, _) => SeatingStamps(m, s, log, e, id, b);
      case DropPeer(_) => SeatingStamps(m, s, log, e, id, b);
      case _ => SettingStamps(m, s, e, id, b);
    }
  }

  lemma SettingStamps(m: Meta, s: State, e: Event, id: nat, b: Block)
    requires |s.disk| == Total(m.files) && !e.Receive? && !e.Maintain? && !e.Register? && !e.DropPeer?
    ensures Stamp(Step(m, s, e).state, id, b) == Stamp(s, id, b)
  {}

  // ----- every run

  /** Since when the peer with an id has owed a block without interruption, at
      the end of a run: a step that takes the block off begins a new debt. */
  ghost function OwedSince(m: Meta, w: World, events: seq<Event>, id: nat, b: Block): Option<nat> {
    if events == [] then Stamp(w.state, id, b)
    else
      var init, e := events[..|events| - 1], events[|events| - 1];
      var s, t := Run(m, w, init).state, Run(m, w, events).state;
      if Stamp(t, id, b).None? then None
      else if Stamp(s, id, b).None? || TakesOff(m, s, e, id, b) then Stamp(t, id, b)
      else OwedSince(m, w, init, id, b)
  }

  /** No step of the run ends in endgame. */
  ghost predicate OutOfEndgame(m: Meta, w: World, events: seq<Event>) {
    forall j :: 0 < j <= |events| ==> !Run(m, w, events[..j]).state.picker.InEndgame()
  }

  lemma OutOfEndgameBefore(m: Meta, w: World, events: seq<Event>)
    requires events != [] && OutOfEndgame(m, w, events)
    ensures OutOfEndgame(m, w, events[..|events| - 1]) && !Run(m, w, events).state.picker.InEndgame()
  {
    hide Run, Picker.InEndgame;
    var init := events[..|events| - 1];
    assert events[..|events|] == events;
    forall j | 0 < j <= |init| ensures !Run(m, w, init[..j]).state.picker.InEndgame() { assert init[..j] == events[..j]; }
  }

  /** From any reachable state, through any run out of endgame, the stamp of a
      debt is the time since which it has been owed. */
  lemma {:induction false} StampIsWhenAsked(m: Meta, w: World, events: seq<Event>, id: nat, b: Block)
    requires Reachable(m, w) && OutOfEndgame(m, w, events)
    ensures OwedSince(m, w, events, id, b) == Stamp(Run(m, w, events).state, id, b)
  {
    hide Reachable, WorldInv, Run, WorldStep, OutOfEndgame, Stamp, TakesOff, Inv;
    if events == [] {
      RunNothing(m, w);
    } else {
      var init, e := events[..|events| - 1], events[|events| - 1];
      OutOfEndgameBefore(m, w, events);
      StampIsWhenAsked(m, w, init, id, b);
      ReachableIsSafe(m, w);
      RunKeeps(m, w, init);
      RunSteps(m, w, events);
      var before, after := Stamp(Run(m, w, init).state, id, b), Stamp(Run(m, w, events).state, id, b);
      if before.Some? && after.Some? { WorldStepStamps(m, Run(m, w, init), e, id, b); }
    }
  }

  lemma WorldStepStamps(m: Meta, w: World, e: Event, id: nat, b: Block)
    requires WorldInv(m, w) && !WorldStep(m, w, e).state.picker.InEndgame()
    requires Stamp(w.state, id, b).Some? && Stamp(WorldStep(m, w, e).state, id, b).Some?
    ensures Stamp(WorldStep(m, w, e).state, id, b) == if TakesOff(m, w.state, e, id, b) then Some(Clock(e)) else Stamp(w.state, id, b)
  {
    hide Inv, Step, Stamp, TakesOff, Picker.InEndgame, AllTruthful;
    InvOf(m, w);
    ShapeOf(m, w.state, w.log);
    StepStamps(m, w.state, w.log, e, id, b);
  }

  /** The request timeout works out of endgame: a tick that comes a timeout or
      more after a block began to be owed takes it off the peer, and if the
      peer owes it still it was asked anew. */
  lemma OverdueIsTakenBack(m: Meta, w: World, events: seq<Event>, now: nat, id: nat, b: Block)
    requires Reachable(m, w) && OutOfEndgame(m, w, events + [Maintain(now)])
    requires OwedSince(m, w, events, id, b).Some?
    requires now >= OwedSince(m, w, events, id, b).value + Run(m, w, events).state.requestTimeout
    ensures OwedSince(m, w, events + [Maintain(now)], id, b) in {None, Some(now)}
    ensures TakesOff(m, Run(m, w, events).state, Maintain(now), id, b)
  {
    hide Reachable, WorldInv, Run, WorldStep, OutOfEndgame, Inv, Picker.InEndgame;
    var all := events + [Maintain(now)];
    assert all[..|all| - 1] == events;
    OutOfEndgameBefore(m, w, all);
    StampIsWhenAsked(m, w, events, id, b);
    ReachableIsSafe(m, w);
    RunKeeps(m, w, events);
    RunSteps(m, w, all);
    if Stamp(Run(m, w, all).state, id, b).Some? { WorldStepStamps(m, Run(m, w, events), Maintain(now), id, b); }
  }

  /** So out of endgame, once a tick has passed, nobody has owed any block for
      as long as the timeout. */
  lemma NothingOwedPastTheTimeout(m: Meta, w: World, events: seq<Event>, now: nat, id: nat, b: Block)
    requires Reachable(m, w) && OutOfEndgame(m, w, events + [Maintain(now)])
    requires Run(m, w, events).state.requestTimeout > 0
    ensures var since := OwedSince(m, w, events + [Maintain(now)], id, b);
      since.Some? ==> SatSub(now, since.value) < Run(m, w, events).state.requestTimeout
  {
    hide Reachable, WorldInv, Run, WorldStep, OutOfEndgame, Inv, OnTick, OwedSince;
    var all, s := events + [Maintain(now)], Run(m, w, events).state;
    assert all[..|all| - 1] == events;
    StampIsWhenAsked(m, w, all, id, b);
    ReachableIsSafe(m, w);
    RunKeeps(m, w, events);
    RunSteps(m, w, all);
    TickIsStep(m, Run(m, w, events), now);
    TickLeavesNothingOverdue(s, now);
  }

  lemma TickIsStep(m: Meta, w: World, now: nat)
    requires WorldInv(m, w)
    ensures WorldStep(m, w, Maintain(now)).state == OnTick(w.state, now).state
  {
    hide OnTick;
  }
}
