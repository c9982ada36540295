// What each step of the engine leaves alone, and what it may send.
module EngineFrame {
  import opened Prelude
  import opened Wire
  import opened PickerSpec
  import opened PickerTheory
  import opened DiskSpec
  import opened EngineSpec
  import opened EngineInvariant
  import opened EngineSteps
  import opened EngineDelivery
  import Counting

  /** Files, held pieces and bans stay as they are. */
  ghost predicate SameHoldings(s: State, t: State) {
    t.disk == s.disk && t.picker.have == s.picker.have && t.picker.geo == s.picker.geo && t.banned == s.banned
  }

  /** A request or cancel names an existing block, whole. */
  ghost predicate NamesBlock(geo: Geometry, r: BlockRequest) {
    exists b: Block :: geo.InRange(b) && r == geo.RequestFor(b)
  }

  /** A message tells the truth about `have` and `disk`: an announced piece is
      held; served bytes lie inside a held piece and are what is on disk;
      requests and cancels name existing blocks. */
  ghost predicate Truthful(m: Meta, have: set<nat>, disk: seq<Cell>, msg: Message) {
    match msg
    case Have(i) => i in have
    case Piece(index, begin, data) =>
      && index in have && begin + |data| <= m.geo.PieceLen(index)
      && Present(disk, m.geo.PieceStart(index) + begin, |data|)
      && data == Bytes(disk, m.geo.PieceStart(index) + begin, |data|)
    case Request(r) => NamesBlock(m.geo, r)
    case Cancel(r) => NamesBlock(m.geo, r)
    case _ => true
  }

  ghost predicate AllTruthful(m: Meta, have: set<nat>, disk: seq<Cell>, out: seq<Outgoing>) {
    forall k :: 0 <= k < |out| ==> Truthful(m, have, disk, out[k].msg)
  }

  lemma TruthJoins(m: Meta, have: set<nat>, disk: seq<Cell>, a: seq<Outgoing>, b: seq<Outgoing>)
    requires AllTruthful(m, have, disk, a) && AllTruthful(m, have, disk, b)
    ensures AllTruthful(m, have, disk, a + b)
  {}

  lemma {:induction false} AsksTruthful(m: Meta, have: set<nat>, disk: seq<Cell>, id: nat, owed: map<Block, nat>, blocks: seq<Block>)
    requires forall b :: b in blocks ==> m.geo.InRange(b)
    ensures AllTruthful(m, have, disk, Asks(m.geo, id, owed, blocks))
  {
    if blocks != [] {
      AsksTruthful(m, have, disk, id, owed, blocks[..|blocks| - 1]);
      assert m.geo.InRange(blocks[|blocks| - 1]);
    }
  }

  lemma FillRequestsFrame(m: Meta, s: State, idx: nat, now: nat)
    requires s.picker.Valid() && s.picker.geo == m.geo && idx < |s.peers|
    ensures var e := FillRequests(s, idx, now);
      && SameHoldings(s, e.state) && AllTruthful(m, s.picker.have, s.disk, e.out)
      && |e.state.peers| == |s.peers| && e.state.suspicion == s.suspicion
  {
    var p := s.peers[idx];
    var space := SatSub(PIPELINE_DEPTH, |p.inFlight|);
    PickHandsOutTheBest(s.picker, p.has, space);
    AsksTruthful(m, s.picker.have, s.disk, p.id, p.inFlight, s.picker.PickBlocks(p.has, space));
  }

  lemma UpdateInterestFrame(m: Meta, s: State, idx: nat, now: nat)
    requires s.picker.Valid() && s.picker.geo == m.geo && idx < |s.peers|
    ensures var e := UpdateInterest(s, idx, now);
      SameHoldings(s, e.state) && AllTruthful(m, s.picker.have, s.disk, e.out)
  {
    hide FillRequests, AllTruthful;
    var p := s.peers[idx];
    var s' := SetPeer(s, idx, p.(weInterested := true));
    FillRequestsFrame(m, s', idx, now);
    var note := [Outgoing(p.id, Message.Interested)];
    OneNote(m, s.picker.have, s.disk, p.id);
    TruthJoins(m, s.picker.have, s.disk, note, FillRequests(s', idx, now).out);
  }

  lemma OneNote(m: Meta, have: set<nat>, disk: seq<Cell>, id: nat)
    ensures AllTruthful(m, have, disk, [Outgoing(id, Message.Interested)])
    ensures AllTruthful(m, have, disk, [Outgoing(id, NotInterested)])
    ensures AllTruthful(m, have, disk, [Outgoing(id, Message.Choke)])
    ensures AllTruthful(m, have, disk, [])
  {}

  lemma {:induction false} SetChokesFrame(m: Meta, have: set<nat>, disk: seq<Cell>, s: State, ids: seq<nat>, choke: bool)
    ensures AllTruthful(m, have, disk, SetChokes(s, ids, choke).out)
    ensures SetChokes(s, ids, choke).state == s.(peers := SetChokes(s, ids, choke).state.peers)
  {
    if ids != [] {
      SetChokesFrame(m, have, disk, s, ids[..|ids| - 1], choke);
    }
  }

  lemma ChokeRoundFrame(m: Meta, s: State, now: nat)
    ensures var e := ChokeRoundIfDue(s, now);
      && SameHoldings(s, e.state) && AllTruthful(m, s.picker.have, s.disk, e.out) && e.state.picker == s.picker
  {
    RunChokerFrame(m, s.(lastChokeRound := now));
  }

  lemma RunChokerFrame(m: Meta, s: State)
    ensures var e := RunChoker(s);
      && SameHoldings(s, e.state) && AllTruthful(m, s.picker.have, s.disk, e.out) && e.state.picker == s.picker
  {
    hide AllTruthful, SetChokes, ChokerSpec.Plan;
    var d := ChokerSpec.Plan(s.slots, s.round + 1, Snapshots(s));
    var s1 := s.(peers := Ranked(s.peers), round := s.round + 1);
    var e := SetChokes(s1, d.unchoke, false);
    SetChokesFrame(m, s.picker.have, s.disk, s1, d.unchoke, false);
    SetChokesFrame(m, s.picker.have, s.disk, e.state, d.choke, true);
    TruthJoins(m, s.picker.have, s.disk, e.out, SetChokes(e.state, d.choke, true).out);
  }

  lemma MaintainPeerFrame(m: Meta, s: State, idx: nat, now: nat)
    requires s.picker.Valid() && s.picker.geo == m.geo && idx < |s.peers|
    ensures var t := MaintainPeer(s, idx, now);
      SameHoldings(s, t.state) && AllTruthful(m, s.picker.have, s.disk, t.out)
  {
    hide FillRequests, AllTruthful;
    var p, late := s.peers[idx], Expired(s, s.peers[idx], now);
    var s' := SetPeer(s, idx, p.(inFlight := p.inFlight - late, strikes := p.strikes + 1)).(picker := s.picker.Release(late));
    ReleaseEffect(s.picker, late);
    FillRequestsFrame(m, s, idx, now);
    FillRequestsFrame(m, s', idx, now);
    OneNote(m, s.picker.have, s.disk, p.id);
  }

  lemma {:induction false} MaintainFrame(m: Meta, s: State, log: set<Delivery>, now: nat, k: nat)
    requires Inv(m, s, log)
    ensures var t := MaintainBelow(s, now, k);
      SameHoldings(s, t.state) && AllTruthful(m, s.picker.have, s.disk, t.out)
  {
    hide MaintainPeer, AllTruthful, Tables, Witnessed, HeldVerified;
    if k == 0 {
      OneNote(m, s.picker.have, s.disk, 0);
    } else {
      MaintainFrame(m, s, log, now, k - 1);
      MaintainKeeps(m, s, log, now, k - 1);
      var t := MaintainBelow(s, now, k - 1);
      if k - 1 < |t.state.peers| {
        ShapeOf(m, t.state, log);
        MaintainPeerFrame(m, t.state, k - 1, now);
        TruthJoins(m, s.picker.have, s.disk, t.out, MaintainPeer(t.state, k - 1, now).out);
      }
    }
  }

  // ----- delivery

  lemma {:induction false} CancelsTruthful(m: Meta, have: set<nat>, disk: seq<Cell>, peers: seq<Peer>, idx: nat, b: Block, k: nat)
    requires k <= |peers| && m.geo.InRange(b)
    ensures AllTruthful(m, have, disk, Cancels(m.geo, peers, idx, b, k))
  {
    if k > 0 { CancelsTruthful(m, have, disk, peers, idx, b, k - 1); }
  }

  /** Held pieces stay held with the same bytes; nobody is unbanned. */
  ghost predicate HoldingsGrow(m: Meta, s: State, t: State) {
    && s.picker.have <= t.picker.have && s.banned <= t.banned && t.picker.geo == s.picker.geo
    && (forall i :: i in s.picker.have ==> SamePiece(m, s.disk, t.disk, i))
  }

  ghost predicate SamePiece(m: Meta, disk: seq<Cell>, disk': seq<Cell>, i: nat) {
    var start, len := m.geo.PieceStart(i), m.geo.PieceLen(i);
    && |disk'| == |disk| && start + len <= |disk|
    && forall k :: start <= k < start + len ==> disk'[k] == disk[k]
  }

  lemma SameIsGrown(m: Meta, s: State, t: State, log: set<Delivery>)
    requires Inv(m, s, log) && SameHoldings(s, t)
    ensures HoldingsGrow(m, s, t)
  {
    forall i | i in s.picker.have ensures SamePiece(m, s.disk, t.disk, i) {
      assert Verified(m, s.disk, i);
    }
  }

  lemma GrowthJoins(m: Meta, s: State, t: State, u: State)
    requires HoldingsGrow(m, s, t) && HoldingsGrow(m, t, u)
    ensures HoldingsGrow(m, s, u)
  {}

  /** What was true stays true as holdings grow. */
  lemma TruthLasts(m: Meta, s: State, t: State, out: seq<Outgoing>)
    requires HoldingsGrow(m, s, t) && AllTruthful(m, s.picker.have, s.disk, out)
    ensures AllTruthful(m, t.picker.have, t.disk, out)
  {
    forall k | 0 <= k < |out| ensures Truthful(m, t.picker.have, t.disk, out[k].msg) {
      var msg := out[k].msg;
      assert Truthful(m, s.picker.have, s.disk, msg);
      if msg.Piece? {
        var at := m.geo.PieceStart(msg.index) + msg.begin;
        assert SamePiece(m, s.disk, t.disk, msg.index);
        assert Bytes(t.disk, at, |msg.block|) == Bytes(s.disk, at, |msg.block|);
      }
    }
  }

  /** Writing inside a block of a piece not held leaves held pieces alone. */
  lemma WriteLeavesHeld(m: Meta, s: State, log: set<Delivery>, b: Block, data: seq<byte>)
    requires Inv(m, s, log) && m.geo.InRange(b) && b.0 !in s.picker.have
    requires |data| <= m.geo.BlockLen(b.0, b.1) && m.geo.BlockStart(b) + |data| <= |s.disk|
    ensures HoldingsGrow(m, s, s.(disk := WriteLinear(m.files, s.disk, m.geo.BlockStart(b), data)))
  {
    var after := WriteLinear(m.files, s.disk, m.geo.BlockStart(b), data);
    m.geo.BlockInside(b);
    forall i | i in s.picker.have ensures SamePiece(m, s.disk, after, i) {
      assert Verified(m, s.disk, i);
      if i < b.0 { m.geo.PiecesApart(i, b.0); } else { m.geo.PiecesApart(b.0, i); }
    }
  }

  lemma JudgeFrame(m: Meta, s: State, log: set<Delivery>, index: nat, io: Io)
    requires Inv(m, s, log) && WholeAndSettled(s, index)
    ensures var e := Judge(m, s, index, io);
      HoldingsGrow(m, s, e.state) && AllTruthful(m, e.state.picker.have, e.state.disk, e.out)
  {
    hide BlameSuppliers, CreditBelow, DropPiece, Tables, Witnessed, Picker.Missing, Bytes;
    var r := s.(picker := s.picker.ResetPiece(index));
    BlameEffect(r, index);
    BlameBans(r, index);
    forall i | i in s.picker.have ensures SamePiece(m, s.disk, s.disk, i) {
      assert Verified(m, s.disk, i);
    }
  }

  lemma BlameBans(s: State, index: nat)
    ensures s.banned <= BlameSuppliers(s, index).banned
  {
    var blocks := s.picker.geo.Blocks(index);
    var who := Contributors(s.suppliers, index, blocks);
    var s' := s.(suppliers := DropPiece(s.suppliers, index, blocks));
    BanAllEffect(s', who);
    var suspicion := Suspected(s.suspicion, who);
    BanAllEffect(s'.(suspicion := suspicion), OverLimit(suspicion, who));
  }

  lemma AcceptFrame(m: Meta, s: State, log: set<Delivery>, idx: nat, b: Block, data: seq<byte>, io: Io)
    requires Inv(m, s, log) && idx < |s.peers| && b in s.peers[idx].inFlight
    requires |data| == m.geo.BlockLen(b.0, b.1)
    requires m.geo.BlockStart(b) + |data| <= |s.disk| && |s.disk| == Total(m.files)
    ensures var p := s.peers[idx];
      var s1 := SetPeer(s, idx, p.(inFlight := p.inFlight - {b}, strikes := 0))
        .(disk := WriteLinear(m.files, s.disk, m.geo.BlockStart(b), data));
      var e := AcceptBlock(m, s1, idx, b, |data|, io).0;
      HoldingsGrow(m, s, e.state) && AllTruthful(m, e.state.picker.have, e.state.disk, e.out)
  {
    hide Inv, Judge, SettledState, AllTruthful, Verified, HoldingsGrow, CancelElsewhere, AcceptBlock;
    OwedIsAskable(m, s, log, idx, b);
    SettledStateKeeps(m, s, log, idx, b, data);
    AcceptIsSettleThenJudge(m, s, log, idx, b, data, io);
    SettledHoldings(m, s, log, idx, b, data);
    var t := SettledState(m, s, idx, b, data);
    var p := s.peers[idx];
    var s1 := SetPeer(s, idx, p.(inFlight := p.inFlight - {b}, strikes := 0))
      .(disk := WriteLinear(m.files, s.disk, m.geo.BlockStart(b), data));
    var (e, refill) := AcceptBlock(m, s1, idx, b, |data|, io);
    CancelsOf(m, e.state.picker.have, e.state.disk, NotedState(m, s, idx, b, data), idx, b);
    if refill {
      JudgeFrame(m, t, log + {(p.dest, b, data)}, b.0, io);
      GrowthJoins(m, s, t, e.state);
      TruthJoins(m, e.state.picker.have, e.state.disk,
        CancelElsewhere(NotedState(m, s, idx, b, data), idx, b).out, Judge(m, t, b.0, io).out);
    }
  }

  lemma CancelsOf(m: Meta, have: set<nat>, disk: seq<Cell>, s: State, idx: nat, b: Block)
    requires s.picker.geo == m.geo && m.geo.InRange(b)
    ensures AllTruthful(m, have, disk, CancelElsewhere(s, idx, b).out)
  {
    CancelsTruthful(m, have, disk, s.peers, idx, b, |s.peers|);
  }

  lemma SettledHoldings(m: Meta, s: State, log: set<Delivery>, idx: nat, b: Block, data: seq<byte>)
    requires Inv(m, s, log) && idx < |s.peers| && b in s.peers[idx].inFlight
    requires |data| == m.geo.BlockLen(b.0, b.1)
    requires m.geo.BlockStart(b) + |data| <= |s.disk| && |s.disk| == Total(m.files)
    ensures HoldingsGrow(m, s, SettledState(m, s, idx, b, data))
    ensures SettledState(m, s, idx, b, data).banned == s.banned
    ensures SettledState(m, s, idx, b, data).suspicion == s.suspicion
  {
    hide Inv;
    OwedIsAskable(m, s, log, idx, b);
    WriteLeavesHeld(m, s, log, b, data);
    SettledStateKeeps(m, s, log, idx, b, data);
  }
}
