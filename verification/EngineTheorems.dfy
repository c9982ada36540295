// What holds of the engine over every run: any sequence of registrations,
// disconnections, messages from any peer, maintenance ticks and setting
// changes, with any disk faults.
module EngineTheorems {
  import opened Prelude
  import opened Wire
  import opened PickerSpec
  import opened PickerTheory
  import opened DiskSpec
  import opened EngineSpec
  import opened EngineInvariant
  import opened EngineSteps
  import opened EngineDelivery
  import opened EngineFrame
  import Bitfields
  import Counting
  import Sorting

  /** The engine together with its history: everything peers sent as piece
      data, and everything we queued for them. */
  datatype World = World(state: State, log: set<Delivery>, sent: seq<Outgoing>)

  /** The claim a message makes, if it is a `piece` from a connected peer. */
  function Claims(s: State, id: nat, msg: Message): set<Delivery> {
    match Find(s.peers, id)
    case None => {}
    case Some(k) => if msg.Piece? then {Said(s.peers[k].dest, msg.index, msg.begin, msg.block)} else {}
  }

  function Heard(s: State, e: Event): set<Delivery> {
    if e.Receive? then Claims(s, e.id, e.msg) else {}
  }

  ghost predicate WorldInv(m: Meta, w: World) {
    && Inv(m, w.state, w.log)
    && AllTruthful(m, w.state.picker.have, w.state.disk, w.sent)
  }

  ghost function WorldStep(m: Meta, w: World, e: Event): World {
    if |w.state.disk| != Total(m.files) then w
    else
      var o := Step(m, w.state, e);
      World(o.state, w.log + Heard(w.state, e), w.sent + o.out)
  }

  lemma InvOf(m: Meta, w: World)
    requires WorldInv(m, w)
    ensures Inv(m, w.state, w.log)
  {}

  /** A run of the engine, step by step. */
  ghost function Run(m: Meta, w: World, events: seq<Event>): World {
    if events == [] then w
    else WorldStep(m, Run(m, w, events[..|events| - 1]), events[|events| - 1])
  }

  // ----- one message

  /** Every branch of the message handler: the invariant, growth of what is
      held, and the truth of what is sent. */
  lemma HandleKeeps(m: Meta, s0: State, log: set<Delivery>, idx: nat, msg: Message, now: nat, io: Io)
    requires Inv(m, s0, log) && idx < |s0.peers| && |s0.disk| == Total(m.files)
    ensures var log' := if msg.Piece? then log + {Said(s0.peers[idx].dest, msg.index, msg.begin, msg.block)} else log;
      Inv(m, Handle(m, s0, idx, msg, now, io).state, log')
    ensures Delivered(m, s0, Handle(m, s0, idx, msg, now, io))
  {
    hide Inv, FillRequests, UpdateInterest, OnBlock, RunChoker, ServeRequest, Delivered, ReplacePieceSet;
    hide Counting.Count;
    var s := if Opens(msg) then SetPeer(s0, idx, s0.peers[idx].(hasOpened := true)) else s0;
    var p := s.peers[idx];
    OpenKeeps(m, s0, log, idx);
    ShapeOf(m, s, log);
    assert SetPeer(s, idx, p) == s;
    QuietDelivery(m, s0, s, log, []);
    match msg {
      case Have(piece) =>
        if piece < m.geo.numPieces && piece !in p.has { HaveHandled(m, s0, s, log, idx, piece, now); }
      case Bitfield(_) | HaveAll | HaveNone => OpeningKeeps(m, s0, log, idx, msg, now, io);
      case Request(req) => ServeKeeps(m, s0, s, log, idx, req, io);
      case Piece(index, begin, data) =>
        OnBlockKeeps(m, s, log, idx, index, begin, data, now, io);
        OnBlockFrame(m, s, log, idx, index, begin, data, now, io);
        FrameThrough(m, s0, s, OnBlock(m, s, idx, index, begin, data, now, io));
      case _ => FlagsKeep(m, s0, s, log, idx, !s0.peers[idx].hasOpened, msg, now, io);
    }
  }

  /** Choke and interest transitions, and what needs no more than a check. */
  lemma FlagsKeep(m: Meta, s0: State, s: State, log: set<Delivery>, idx: nat, first: bool, msg: Message, now: nat, io: Io)
    requires Inv(m, s, log) && Inv(m, s0, log) && SameHoldings(s0, s) && idx < |s.peers| && |s.disk| == Total(m.files)
    requires msg.KeepAlive? || msg.Cancel? || msg.Extended? || msg.RejectRequest? || msg.SuggestPiece? || msg.AllowedFast?
      || msg.Choke? || (msg.Unchoke? && s.peers[idx].hasOpened) || msg.Interested? || msg.NotInterested?
    ensures var e := Dispatch(m, s, idx, first, msg, now, io); Inv(m, e.state, log) && Delivered(m, s0, e)
  {
    hide Inv, FillRequests, RunChoker, Delivered, Counting.Count, ReleaseAll;
    var p := s.peers[idx];
    QuietDelivery(m, s0, s, log, []);
    match msg {
      case RejectRequest(_) | SuggestPiece(_) | AllowedFast(_) => ViolationKeeps(m, s0, s, log, p.id);
      case Choke =>
        ChokedKeeps(m, s, log, idx);
        ReleasedHoldings(s0, s, idx);
        QuietDelivery(m, s0, ReleaseAll(SetPeer(s, idx, p.(peerChoking := true)), idx), log, []);
      case Unchoke => UnchokeKeeps(m, s0, s, log, idx, now);
      case Interested => InterestedKeeps(m, s0, s, log, idx);
      case NotInterested => NotInterestedKeeps(m, s0, s, log, idx);
      case _ =>
    }
  }

  lemma ReleasedHoldings(s0: State, s: State, idx: nat)
    requires SameHoldings(s0, s) && idx < |s.peers|
    ensures SameHoldings(s0, ReleaseAll(SetPeer(s, idx, s.peers[idx].(peerChoking := true)), idx))
  {}

  /** The messages that announce a whole piece set. */
  lemma OpeningKeeps(m: Meta, s0: State, log: set<Delivery>, idx: nat, msg: Message, now: nat, io: Io)
    requires Inv(m, s0, log) && idx < |s0.peers| && |s0.disk| == Total(m.files)
    requires msg.Bitfield? || msg.HaveAll? || msg.HaveNone?
    ensures var e := Handle(m, s0, idx, msg, now, io); Inv(m, e.state, log) && Delivered(m, s0, e)
  {
    hide Inv, UpdateInterest, Delivered, ReplacePieceSet, Bitfields.Parse;
    var s, p := SetPeer(s0, idx, s0.peers[idx].(hasOpened := true)), s0.peers[idx];
    OpenKeeps(m, s0, log, idx);
    ViolationKeeps(m, s0, s, log, p.id);
    if msg.Bitfield? {
      if !p.hasOpened && Bitfields.Parse(msg.bits, m.geo.numPieces).Ok? {
        FieldHandled(m, s0, log, idx, Bitfields.PiecesOf(msg.bits, m.geo.numPieces), now);
      }
    } else if !p.hasOpened && p.fast {
      FieldHandled(m, s0, log, idx, if msg.HaveAll? then AllPieces(m.geo.numPieces) else {}, now);
    }
  }

  /** Growth of holdings and truth of output, for one effect. */
  ghost predicate Delivered(m: Meta, s: State, e: Effect) {
    HoldingsGrow(m, s, e.state) && AllTruthful(m, e.state.picker.have, e.state.disk, e.out)
  }

  lemma QuietDelivery(m: Meta, s: State, t: State, log: set<Delivery>, out: seq<Outgoing>)
    requires Inv(m, s, log) && SameHoldings(s, t) && AllTruthful(m, s.picker.have, s.disk, out)
    ensures Delivered(m, s, Effect(t, out))
  {
    SameIsGrown(m, s, t, log);
  }

  lemma FrameThrough(m: Meta, s0: State, s: State, e: Effect)
    requires SameHoldings(s0, s) && Delivered(m, s, e)
    ensures Delivered(m, s0, e)
  {}

  lemma OpenKeeps(m: Meta, s: State, log: set<Delivery>, idx: nat)
    requires Inv(m, s, log) && idx < |s.peers|
    ensures Inv(m, SetPeer(s, idx, s.peers[idx].(hasOpened := true)), log)
  {
    assert PeerOk(s.picker, s.peers[idx]);
    EditFlagsKeeps(m, s, log, idx, s.peers[idx].(hasOpened := true));
  }

  lemma ViolationKeeps(m: Meta, s0: State, s: State, log: set<Delivery>, id: nat)
    requires Inv(m, s, log) && Inv(m, s0, log) && SameHoldings(s0, s)
    ensures Inv(m, Violation(s, id).state, log) && Delivered(m, s0, Violation(s, id))
  {
    SameCoreKeeps(m, s, Violation(s, id).state, log);
    QuietDelivery(m, s0, Violation(s, id).state, log, []);
  }

  lemma UnchokeKeeps(m: Meta, s0: State, s: State, log: set<Delivery>, idx: nat, now: nat)
    requires Inv(m, s, log) && Inv(m, s0, log) && SameHoldings(s0, s) && idx < |s.peers| && s.peers[idx].hasOpened
    ensures var e := FillRequests(SetPeer(s, idx, s.peers[idx].(peerChoking := false)), idx, now);
      Inv(m, e.state, log) && Delivered(m, s0, e)
  {
    hide FillRequests, Delivered, HeldVerified, Witnessed;
    assert PeerOk(s.picker, s.peers[idx]);
    var p := s.peers[idx].(peerChoking := false);
    EditFlagsKeeps(m, s, log, idx, p);
    var t := SetPeer(s, idx, p);
    FillRequestsKeeps(m, t, log, idx, now);
    FillRequestsFrame(m, t, idx, now);
    QuietDelivery(m, s0, FillRequests(t, idx, now).state, log, FillRequests(t, idx, now).out);
  }

  lemma InterestedKeeps(m: Meta, s0: State, s: State, log: set<Delivery>, idx: nat)
    requires Inv(m, s, log) && Inv(m, s0, log) && SameHoldings(s0, s) && idx < |s.peers|
    ensures var t := SetPeer(s, idx, s.peers[idx].(theyInterested := true));
      && Inv(m, t, log) && Inv(m, RunChoker(t).state, log)
      && Delivered(m, s0, Effect(t, [])) && Delivered(m, s0, RunChoker(t))
  {
    hide RunChoker, Delivered, HeldVerified, Witnessed;
    assert PeerOk(s.picker, s.peers[idx]);
    var t := SetPeer(s, idx, s.peers[idx].(theyInterested := true));
    EditFlagsKeeps(m, s, log, idx, t.peers[idx]);
    RunChokerKeeps(m, t, log);
    RunChokerFrame(m, t);
    OneNote(m, s0.picker.have, s0.disk, 0);
    QuietDelivery(m, s0, t, log, []);
    QuietDelivery(m, s0, RunChoker(t).state, log, RunChoker(t).out);
  }

  lemma NotInterestedKeeps(m: Meta, s0: State, s: State, log: set<Delivery>, idx: nat)
    requires Inv(m, s, log) && Inv(m, s0, log) && SameHoldings(s0, s) && idx < |s.peers|
    ensures var t := SetPeer(s, idx, s.peers[idx].(theyInterested := false, weChoke := true));
      && Inv(m, t, log)
      && Delivered(m, s0, Effect(t, [])) && Delivered(m, s0, Effect(t, [Outgoing(s.peers[idx].id, Message.Choke)]))
  {
    hide Delivered, HeldVerified, Witnessed;
    assert PeerOk(s.picker, s.peers[idx]);
    var t := SetPeer(s, idx, s.peers[idx].(theyInterested := false, weChoke := true));
    EditFlagsKeeps(m, s, log, idx, t.peers[idx]);
    OneNote(m, s0.picker.have, s0.disk, s.peers[idx].id);
    QuietDelivery(m, s0, t, log, []);
    QuietDelivery(m, s0, t, log, [Outgoing(s.peers[idx].id, Message.Choke)]);
  }

  lemma HaveHandled(m: Meta, s0: State, s: State, log: set<Delivery>, idx: nat, piece: nat, now: nat)
    requires Inv(m, s, log) && Inv(m, s0, log) && SameHoldings(s0, s) && idx < |s.peers| && s.peers[idx].hasOpened
    requires piece < m.geo.numPieces && piece !in s.peers[idx].has
    ensures var t := SetPeer(s, idx, s.peers[idx].(has := s.peers[idx].has + {piece})).(picker := s.picker.AddSingle(piece));
      Inv(m, UpdateInterest(t, idx, now).state, log) && Delivered(m, s0, UpdateInterest(t, idx, now))
  {
    hide UpdateInterest, Delivered, Inv;
    var t := SetPeer(s, idx, s.peers[idx].(has := s.peers[idx].has + {piece})).(picker := s.picker.AddSingle(piece));
    HaveKeeps(m, s, log, idx, piece);
    UpdateHandled(m, s0, t, log, idx, now);
  }

  lemma UpdateHandled(m: Meta, s0: State, t: State, log: set<Delivery>, idx: nat, now: nat)
    requires Inv(m, s0, log) && Inv(m, t, log) && SameHoldings(s0, t) && idx < |t.peers|
    ensures Inv(m, UpdateInterest(t, idx, now).state, log) && Delivered(m, s0, UpdateInterest(t, idx, now))
  {
    hide UpdateInterest, Delivered, Inv;
    ShapeOf(m, t, log);
    UpdateInterestKeeps(m, t, log, idx, now);
    UpdateInterestFrame(m, t, idx, now);
    QuietDelivery(m, s0, UpdateInterest(t, idx, now).state, log, UpdateInterest(t, idx, now).out);
  }

  /** An opening bitfield finds an empty piece set to replace. */
  lemma FieldHandled(m: Meta, s0: State, log: set<Delivery>, idx: nat, field: set<nat>, now: nat)
    requires Inv(m, s0, log) && idx < |s0.peers| && !s0.peers[idx].hasOpened
    requires forall i :: i in field ==> i < m.geo.numPieces
    ensures var t := ReplacePieceSet(SetPeer(s0, idx, s0.peers[idx].(hasOpened := true)), idx, field);
      Inv(m, UpdateInterest(t, idx, now).state, log) && Delivered(m, s0, UpdateInterest(t, idx, now))
  {
    hide UpdateInterest, Delivered, Inv;
    var s := SetPeer(s0, idx, s0.peers[idx].(hasOpened := true));
    PeerFlags(m, s0, log, idx);
    OpenKeeps(m, s0, log, idx);
    ReplaceKeeps(m, s, log, idx, field);
    UpdateHandled(m, s0, ReplacePieceSet(s, idx, field), log, idx, now);
  }

  lemma ServeKeeps(m: Meta, s0: State, s: State, log: set<Delivery>, idx: nat, req: BlockRequest, io: Io)
    requires Inv(m, s, log) && Inv(m, s0, log) && SameHoldings(s0, s) && idx < |s.peers|
    ensures var e := ServeRequest(m, s, idx, req, io); Inv(m, e.state, log) && Delivered(m, s0, e)
  {
    hide Inv, Delivered, PeerOk;
    var p := s.peers[idx];
    PeerIsOk(m, s, log, idx);
    UploadedOk(s.picker, p, req.length);
    EditFlagsKeeps(m, s, log, idx, p.(uploaded := p.uploaded + req.length));
    var e := ServeRequest(m, s, idx, req, io);
    QuietDelivery(m, s0, e.state, log, e.out);
  }

  lemma PeerIsOk(m: Meta, s: State, log: set<Delivery>, idx: nat)
    requires Inv(m, s, log) && idx < |s.peers|
    ensures PeerOk(s.picker, s.peers[idx])
  {}

  lemma UploadedOk(pk: Picker, p: Peer, n: nat)
    requires PeerOk(pk, p)
    ensures PeerOk(pk, p.(uploaded := p.uploaded + n))
  {}

  lemma OnBlockFrame(m: Meta, s: State, log: set<Delivery>, idx: nat, index: nat, begin: nat, data: seq<byte>, now: nat, io: Io)
    requires Inv(m, s, log) && idx < |s.peers| && |s.disk| == Total(m.files)
    ensures Delivered(m, s, OnBlock(m, s, idx, index, begin, data, now, io))
  {
    hide Inv, FillRequests, AcceptBlock, Delivered;
    var b: Block := (index, begin / BLOCK_LEN);
    var p := s.peers[idx];
    ShapeOf(m, s, log);
    QuietDelivery(m, s, s, log, []);
    if !(begin % BLOCK_LEN != 0 || index >= m.geo.numPieces || |data| != m.geo.BlockLen(b.0, b.1)) {
      RefillDelivered(m, s, s, log, log, idx, now, []);
      if b in p.inFlight {
        OwedIsAskable(m, s, log, idx, b);
        var p' := p.(inFlight := p.inFlight - {b}, strikes := 0);
        if io.write.Some? && io.write.value < |data| {
          WriteFailsFrame(m, s, log, idx, b, p', data[..io.write.value], now);
          NothingBefore(FillRequests(
            SetPeer(s, idx, p').(picker := s.picker.BlockFailed(b), storageError := true,
                                 disk := WriteLinear(m.files, s.disk, m.geo.BlockStart(b), data[..io.write.value])), idx, now));
        } else {
          AcceptFrame(m, s, log, idx, b, data, io);
          AcceptKeeps(m, s, log, idx, b, data, io);
          var s1 := SetPeer(s, idx, p').(disk := WriteLinear(m.files, s.disk, m.geo.BlockStart(b), data));
          var e := AcceptBlock(m, s1, idx, b, |data|, io).0;
          RefillDelivered(m, s, e.state, log, log + {(p.dest, b, data)}, idx, now, e.out);
          assert Delivered(m, s, e) by { GrownDelivered(m, s, e); }
        }
      }
    }
  }

  lemma NothingBefore(e: Effect)
    ensures e.After([]) == e
  {
    assert [] + e.out == e.out;
  }

  lemma GrownDelivered(m: Meta, s: State, e: Effect)
    requires HoldingsGrow(m, s, e.state) && AllTruthful(m, e.state.picker.have, e.state.disk, e.out)
    ensures Delivered(m, s, e)
  {}

  /** Refilling after something delivered is still delivered. */
  lemma RefillDelivered(m: Meta, s: State, t: State, log: set<Delivery>, log': set<Delivery>, idx: nat, now: nat, out: seq<Outgoing>)
    requires Inv(m, s, log) && Inv(m, t, log') && idx < |t.peers|
    requires t == s || HoldingsGrow(m, s, t)
    requires AllTruthful(m, t.picker.have, t.disk, out)
    ensures Delivered(m, s, FillRequests(t, idx, now).After(out))
    ensures out == [] ==> Delivered(m, s, FillRequests(t, idx, now))
  {
    hide Inv, FillRequests, HoldingsGrow, AllTruthful;
    ShapeOf(m, t, log');
    FillRequestsFrame(m, t, idx, now);
    var e := FillRequests(t, idx, now);
    SameIsGrown(m, t, e.state, log');
    if t != s { GrowthJoins(m, s, t, e.state); }
    TruthJoins(m, t.picker.have, t.disk, out, e.out);
    assert [] + e.out == e.out;
  }

  lemma WriteFailsFrame(m: Meta, s: State, log: set<Delivery>, idx: nat, b: Block, p: Peer, written: seq<byte>, now: nat)
    requires Inv(m, s, log) && idx < |s.peers| && b in s.peers[idx].inFlight && |s.disk| == Total(m.files)
    requires p == s.peers[idx].(inFlight := s.peers[idx].inFlight - {b}, strikes := 0)
    requires |written| <= m.geo.BlockLen(b.0, b.1) && m.geo.BlockStart(b) + |written| <= |s.disk|
    ensures Delivered(m, s, FillRequests(
      SetPeer(s, idx, p).(picker := s.picker.BlockFailed(b), storageError := true,
                          disk := WriteLinear(m.files, s.disk, m.geo.BlockStart(b), written)), idx, now))
  {
    hide Inv, FillRequests;
    var t := SetPeer(s, idx, p).(picker := s.picker.BlockFailed(b), storageError := true,
                                 disk := WriteLinear(m.files, s.disk, m.geo.BlockStart(b), written));
    OwedIsAskable(m, s, log, idx, b);
    ShapeOf(m, s, log);
    LowerEffect(s.picker, b, 1);
    WriteLeavesHeld(m, s, log, b, written);
    FillRequestsFrame(m, t, idx, now);
  }

  // ----- one step

  lemma StepKeeps(m: Meta, s: State, log: set<Delivery>, e: Event)
    requires Inv(m, s, log) && |s.disk| == Total(m.files)
    ensures var o := Step(m, s, e);
      Inv(m, o.state, log + Heard(s, e)) && Delivered(m, s, Effect(o.state, o.out))
  {
    hide Inv, Delivered, OnMessage, OnTick, RemovePeer, RegisterPeer;
    ShapeOf(m, s, log);
    assert log + {} == log;
    var o := Step(m, s, e);
    match e {
      case Register(dest, fast) =>
        RegisterKeeps(m, s, log, dest, fast);
        RegisterFrame(s, dest, fast);
        QuietDelivery(m, s, o.state, log, []);
      case DropPeer(id) =>
        RemoveKeeps(m, s, log, id);
        RemoveFrame(s, id);
        QuietDelivery(m, s, o.state, log, []);
      case Receive(id, msg, now, io) => OnMessageKeeps(m, s, log, id, msg, now, io);
      case Maintain(now) => OnTickKeeps(m, s, log, now);
      case SetPiecePriorities(ps) =>
        SetPrioritiesKeepsValid(s.picker, ps);
        RetuneKeeps(m, s, log, o.state.picker);
        QuietDelivery(m, s, o.state, log, []);
      case SetMode(mode) =>
        SameTablesSameMissing(s.picker, s.picker.(mode := mode));
        RetuneKeeps(m, s, log, o.state.picker);
        QuietDelivery(m, s, o.state, log, []);
      case SetMaxPeers(_) | SetRequestTimeout(_) | SetChokeInterval(_) =>
        SameCoreKeeps(m, s, o.state, log);
        QuietDelivery(m, s, o.state, log, []);
    }
  }

  lemma RegisterFrame(s: State, dest: Dest, fast: bool)
    ensures SameHoldings(s, RegisterPeer(s, dest, fast))
  {}

  lemma RemoveFrame(s: State, id: nat)
    ensures SameHoldings(s, RemovePeer(s, id))
  {}

  lemma OnMessageKeeps(m: Meta, s: State, log: set<Delivery>, id: nat, msg: Message, now: nat, io: Io)
    requires Inv(m, s, log) && |s.disk| == Total(m.files)
    ensures var o := OnMessage(m, s, id, msg, now, io);
      Inv(m, o.state, log + Claims(s, id, msg)) && Delivered(m, s, Effect(o.state, o.out))
  {
    hide Inv, Delivered, Handle, ChokeRoundIfDue, Find, HoldingsGrow, AllTruthful;
    var e := match Find(s.peers, id) case None => Effect(s, []) case Some(k) => Handle(m, s, k, msg, now, io);
    var log' := log + Claims(s, id, msg);
    assert log + {} == log;
    match Find(s.peers, id) {
      case None => OneNote(m, s.picker.have, s.disk, 0); QuietDelivery(m, s, s, log, []);
      case Some(k) => HandleKeeps(m, s, log, k, msg, now, io);
    }
    RoundDelivered(m, s, e, log', now);
  }

  /** A step ends with a choke round if one is due, and hands over the peers to drop. */
  lemma RoundDelivered(m: Meta, s: State, e: Effect, log: set<Delivery>, now: nat)
    requires Inv(m, e.state, log) && Delivered(m, s, e)
    ensures var c := ChokeRoundIfDue(e.state, now).After(e.out);
      Inv(m, c.state.(toDrop := []), log) && Delivered(m, s, Effect(c.state.(toDrop := []), c.out))
  {
    hide Inv, ChokeRoundIfDue, AllTruthful, HoldingsGrow;
    ChokeRoundKeeps(m, e.state, log, now);
    ChokeRoundFrame(m, e.state, now);
    var c := ChokeRoundIfDue(e.state, now);
    var t := c.state.(toDrop := []);
    SameCoreKeeps(m, c.state, t, log);
    SameIsGrown(m, e.state, t, log);
    GrowthJoins(m, s, e.state, t);
    TruthJoins(m, e.state.picker.have, e.state.disk, e.out, c.out);
  }

  lemma OnTickKeeps(m: Meta, s: State, log: set<Delivery>, now: nat)
    requires Inv(m, s, log)
    ensures var o := OnTick(s, now); Inv(m, o.state, log) && Delivered(m, s, Effect(o.state, o.out))
  {
    hide Inv, Delivered, MaintainBelow, ChokeRoundIfDue;
    var t := MaintainBelow(s, now, |s.peers|);
    MaintainKeeps(m, s, log, now, |s.peers|);
    MaintainFrame(m, s, log, now, |s.peers|);
    QuietDelivery(m, s, t.state, log, t.out);
    RoundDelivered(m, s, Effect(t.state, t.out), log, now);
  }

  lemma WorldStepKeeps(m: Meta, w: World, e: Event)
    requires WorldInv(m, w)
    ensures |w.state.disk| == Total(m.files)
    ensures WorldInv(m, WorldStep(m, w, e))
    ensures HoldingsGrow(m, w.state, WorldStep(m, w, e).state)
  {
    hide Inv, Step, AllTruthful, HoldingsGrow;
    ShapeOf(m, w.state, w.log);
    StepKeeps(m, w.state, w.log, e);
    var w' := WorldStep(m, w, e);
    TruthLasts(m, w.state, w'.state, w.sent);
    TruthJoins(m, w'.state.picker.have, w'.state.disk, w.sent, Step(m, w.state, e).out);
  }

  /** Over every run the invariant holds, what is held only grows with its bytes
      unchanged, and what has been heard only grows. */
  lemma {:induction false} RunKeeps(m: Meta, w: World, events: seq<Event>)
    requires WorldInv(m, w)
    ensures WorldInv(m, Run(m, w, events))
    ensures HoldingsGrow(m, w.state, Run(m, w, events).state)
    ensures w.log <= Run(m, w, events).log
  {
    hide WorldInv, WorldStep, HoldingsGrow;
    if events == [] {
      GrowthStarts(m, w);
    } else {
      var init, last := events[..|events| - 1], events[|events| - 1];
      RunKeeps(m, w, init);
      var before := Run(m, w, init);
      WorldStepKeeps(m, before, last);
      LogOnlyGrows(m, before, last);
      GrowthJoins(m, w.state, before.state, WorldStep(m, before, last).state);
    }
  }

  lemma GrowthStarts(m: Meta, w: World)
    requires WorldInv(m, w)
    ensures HoldingsGrow(m, w.state, w.state)
  {
    SameIsGrown(m, w.state, w.state, w.log);
  }

  lemma LogOnlyGrows(m: Meta, w: World, e: Event)
    ensures w.log <= WorldStep(m, w, e).log
  {}

  /** A run continues from where it got to. */
  lemma {:induction false} RunContinues(m: Meta, w: World, a: seq<Event>, b: seq<Event>)
    ensures Run(m, w, a + b) == Run(m, Run(m, w, a), b)
  {
    hide WorldStep;
    if b == [] {
      assert a + b == a;
    } else {
      RunContinues(m, w, a, b[..|b| - 1]);
      assert (a + b)[..|a + b| - 1] == a + b[..|b| - 1];
    }
  }
}
