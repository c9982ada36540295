// Concrete runs in which the engine falls short of what one might expect: a
// refill that passes over free blocks, a silent peer that is never found out,
// and a piece that is never finished.
module EngineWitness {
  import opened Prelude
  import opened Wire
  import opened PickerSpec
  import opened PickerTheory
  import opened DiskSpec
  import opened EngineSpec
  import opened EngineInvariant
  import opened EngineSteps
  import opened EngineDelivery
  import opened EngineTheorems
  import opened EngineSafety
  import opened EngineOutcomes
  import opened EngineEndgame
  import opened EngineUnread
  import opened EngineStamps
  import opened EngineBans
  import ChokerSpec
  import Layout
  import Counting
  import Sorting

  // ----- a torrent of one piece

  function OnePiece(n: nat): Geometry { Geometry(1, n * BLOCK_LEN, n * BLOCK_LEN) }

  /** One file, one piece of `n` blocks; its hash does not matter. */
  function Small(n: nat, digest: Digest, sha1: seq<byte> -> Digest): Meta {
    Meta(OnePiece(n), [n * BLOCK_LEN], [digest], sha1)
  }

  lemma OnePieceShape(n: nat)
    requires 0 < n <= 32
    ensures var g := OnePiece(n); g.Valid() && g.Blocks(0) == n && g.PieceLen(0) == n * BLOCK_LEN
    ensures forall k :: 0 <= k < n ==> OnePiece(n).BlockLen(0, k) == BLOCK_LEN
  {
    var len := n * BLOCK_LEN;
    DividesOnce(len);
    assert DivCeil(len, BLOCK_LEN) == n;
  }

  lemma DividesOnce(len: nat)
    requires len > 0
    ensures DivCeil(len, len) == 1
  {
    var x := len + len - 1;
    assert x == 1 * len + (len - 1);
    Layout.DivisionBound(x, len, 0);
    Layout.DivisionBound(x, len, 1);
  }

  lemma SmallIsValid(n: nat, digest: Digest, sha1: seq<byte> -> Digest)
    requires 0 < n <= 32
    ensures var m := Small(n, digest, sha1);
      m.Valid() && Total(m.files) == n * BLOCK_LEN && FairStart(m, Empty(n), {})
  {
    OnePieceShape(n);
    assert [n * BLOCK_LEN][..0] == [];
    assert Total([n * BLOCK_LEN]) == Total([]) + n * BLOCK_LEN;
  }

  function Empty(n: nat): seq<Cell> { seq(n * BLOCK_LEN, _ => None) }

  const Fine: Io := Io(None, None, false)

  /** A peer connects, has the piece, and unchokes us. */
  function Opening(): seq<Event> {
    [Register([], false), Receive(0, Have(0), 0, Fine), Receive(0, Unchoke, 0, Fine)]
  }

  ghost function Fresh(n: nat, digest: Digest, sha1: seq<byte> -> Digest): World {
    Beginning(Small(n, digest, sha1), Empty(n), {}, RarestFirst)
  }

  ghost function After(n: nat, digest: Digest, sha1: seq<byte> -> Digest, events: seq<Event>): World {
    Run(Small(n, digest, sha1), Fresh(n, digest, sha1), events)
  }

  lemma AfterIsReachable(n: nat, digest: Digest, sha1: seq<byte> -> Digest, events: seq<Event>)
    requires 0 < n <= 32
    ensures Reachable(Small(n, digest, sha1), After(n, digest, sha1, events))
    ensures WorldInv(Small(n, digest, sha1), After(n, digest, sha1, events))
  {
    hide FairStart, Run, Beginning, WorldInv;
    SmallIsValid(n, digest, sha1);
    assert Reachable(Small(n, digest, sha1), After(n, digest, sha1, events));
    ReachableIsSafe(Small(n, digest, sha1), After(n, digest, sha1, events));
  }

  // ----- what the one peer is handed

  /** The blocks from `lo` below `hi` of the piece. */
  function Row(lo: nat, hi: nat): seq<Block>
    requires lo <= hi
  {
    seq(hi - lo, j requires 0 <= j < hi - lo => (0, lo + j))
  }

  /** The picker of the small torrent, its first `lo` blocks received. */
  ghost predicate Received0(pk: Picker, n: nat, lo: nat) {
    && pk.Valid() && pk.geo == OnePiece(n) && pk.have == {} && pk.priority == [1] && pk.endgameBlocks == 32
    && forall k: nat :: pk.Received((0, k)) <==> k < lo
  }

  lemma {:induction false} OpenRow(pk: Picker, n: nat, lo: nat, k: nat)
    requires Received0(pk, n, lo) && lo <= k
    ensures pk.OpenBelow(true, 0, k) == Row(lo, k)
  {
    if k == lo {
      OpenNone(pk, n, lo, k);
    } else {
      OpenRow(pk, n, lo, k - 1);
      assert Row(lo, k) == Row(lo, k - 1) + [(0, k - 1)];
    }
  }

  lemma {:induction false} OpenNone(pk: Picker, n: nat, lo: nat, k: nat)
    requires Received0(pk, n, lo) && k <= lo
    ensures pk.OpenBelow(true, 0, k) == []
  {
    if k > 0 {
      OpenNone(pk, n, lo, k - 1);
      assert pk.Received((0, k - 1));
    }
  }

  lemma OnlyCandidate(pk: Picker, n: nat, lo: nat)
    requires Received0(pk, n, lo)
    ensures pk.CandidateOrder({0}) == [0]
  {
    var all := pk.CandidatesBelow({0}, 1);
    assert pk.CandidatesBelow({0}, 0) == [];
    assert pk.IsCandidate({0}, 0) && all == [0];
    assert all[..0] == [];
    assert Sorting.Sort(pk.Order(), all) == Sorting.Insert(pk.Order(), 0, []);
  }

  lemma FewBlocksLeft(pk: Picker, n: nat, lo: nat)
    requires 0 < n <= 32 && Received0(pk, n, lo)
    ensures pk.InEndgame()
  {
    OnePieceShape(n);
    assert pk.RemainingBelow(1) == pk.RemainingBelow(0) + pk.RemainingIn(0);
    assert pk.RemainingIn(0) <= n;
  }

  /** In endgame a pick starts from the first block not received, owed or not. */
  lemma HandedRow(pk: Picker, n: nat, lo: nat, want: nat)
    requires 0 < n <= 32 && Received0(pk, n, lo) && lo <= n
    ensures pk.PickBlocks({0}, want) == Take(Row(lo, n), want)
  {
    hide Picker.InEndgame, Picker.CandidateOrder, Picker.OpenBelow;
    OnePieceShape(n);
    OnlyCandidate(pk, n, lo);
    FewBlocksLeft(pk, n, lo);
    OpenRow(pk, n, lo, n);
    assert [0][..0] == [];
    assert pk.OpenIn(true, [0]) == pk.OpenIn(true, []) + Row(lo, n);
    assert pk.OpenIn(true, []) == [];
  }

  // ----- the opening

  /** The peer that has the piece and unchokes us. */
  ghost predicate Willing(p: Peer) {
    p.id == 0 && p.has == {0} && p.hasOpened && !p.peerChoking && p.weInterested && p.strikes == 0
  }

  /** One willing peer, the first `lo` blocks received. */
  ghost predicate Served(s: State, n: nat, lo: nat) {
    && |s.peers| == 1 && Willing(s.peers[0]) && Received0(s.picker, n, lo)
    && s.requestTimeout == 90 && s.toDrop == [] && s.lastChokeRound == 0 && s.chokeInterval == 10
  }

  function Debts(owed: seq<Block>, now: nat): map<Block, nat> { map b | b in owed :: now }

  lemma RunOn(n: nat, digest: Digest, sha1: seq<byte> -> Digest, events: seq<Event>, e: Event)
    requires 0 < n <= 32
    ensures var m, w := Small(n, digest, sha1), After(n, digest, sha1, events);
      && |w.state.disk| == Total(m.files)
      && After(n, digest, sha1, events + [e]).state == Step(m, w.state, e).state
  {
    hide Step, WorldInv;
    AfterIsReachable(n, digest, sha1, events);
    var m, w := Small(n, digest, sha1), After(n, digest, sha1, events);
    DiskIsThere(m, w);
    assert (events + [e])[..|events|] == events;
    RunSteps(m, Fresh(n, digest, sha1), events + [e]);
  }

  lemma DiskIsThere(m: Meta, w: World)
    requires WorldInv(m, w)
    ensures |w.state.disk| == Total(m.files)
  {}

  lemma Joined(n: nat, digest: Digest, sha1: seq<byte> -> Digest)
    requires 0 < n <= 32
    ensures var s := Fresh(n, digest, sha1).state;
      After(n, digest, sha1, [Register([], false)]).state == s.(peers := [NewPeer(s, [], false)], nextId := 1)
    ensures Received0(Fresh(n, digest, sha1).state.picker, n, 0)
  {
    var s := Fresh(n, digest, sha1).state;
    RunOn(n, digest, sha1, [], Register([], false));
    assert [] + [Register([], false)] == [Register([], false)];
    RunNothing(Small(n, digest, sha1), Fresh(n, digest, sha1));
    OnePieceShape(n);
    NewPickerValid(OnePiece(n), RarestFirst);
    assert HaveAllOf(NewPicker(OnePiece(n), RarestFirst), {}, 0) == NewPicker(OnePiece(n), RarestFirst);
    assert s.picker == NewPicker(OnePiece(n), RarestFirst);
    assert s.peers + [NewPeer(s, [], false)] == [NewPeer(s, [], false)];
  }

  /** The handling of a message from the only peer, before the first choke round. */
  lemma FirstRound(m: Meta, s: State, msg: Message, io: Io)
    requires |s.disk| == Total(m.files) && |s.peers| == 1 && s.peers[0].id == 0
    requires var t := Handle(m, s, 0, msg, 0, io).state; t.lastChokeRound == 0 && t.chokeInterval == 10 && t.toDrop == []
    ensures Step(m, s, Receive(0, msg, 0, io)).state == Handle(m, s, 0, msg, 0, io).state
  {
    hide Handle;
    assert s.peers[..0] == [] && Find([], 0) == None;
    assert Find(s.peers, 0) == Some(0);
  }

  function Announcer(s: State): Peer { NewPeer(s, [], false).(has := {0}, hasOpened := true, weInterested := true) }

  lemma Announced(n: nat, digest: Digest, sha1: seq<byte> -> Digest)
    requires 0 < n <= 32
    ensures var s := Fresh(n, digest, sha1).state;
      After(n, digest, sha1, Opening()[..2]).state ==
        s.(peers := [Announcer(s)], nextId := 1, picker := s.picker.AddSingle(0))
  {
    hide Run, FillRequests;
    var m, s, first := Small(n, digest, sha1), Fresh(n, digest, sha1).state, [Register([], false)];
    Joined(n, digest, sha1);
    RunOn(n, digest, sha1, first, Receive(0, Have(0), 0, Fine));
    assert Opening()[..2] == first + [Receive(0, Have(0), 0, Fine)];
    var s1 := After(n, digest, sha1, first).state;
    assert 0 in s1.peers[0].has + {0} && 0 !in s1.picker.have;
    AnnouncedHandled(m, s1);
    FirstRound(m, s1, Have(0), Fine);
  }

  lemma AnnouncedHandled(m: Meta, s: State)
    requires |s.disk| == Total(m.files) && m.geo.numPieces == 1 && |s.peers| == 1 && s.picker.have == {}
    requires s.peers[0].peerChoking && !s.peers[0].weInterested && s.peers[0].has == {}
    ensures Handle(m, s, 0, Have(0), 0, Fine).state ==
      s.(peers := [s.peers[0].(has := {0}, hasOpened := true, weInterested := true)], picker := s.picker.AddSingle(0))
  {
    hide FillRequests, Picker.AddSingle;
    var p := s.peers[0].(hasOpened := true);
    var s1 := SetPeer(s, 0, p);
    var p2 := p.(has := p.has + {0});
    var s2 := SetPeer(s1, 0, p2).(picker := s.picker.AddSingle(0));
    assert p.has + {0} == {0};
    AddSingleKeeps(s.picker);
    assert 0 in s2.peers[0].has && 0 !in s2.picker.have;
    assert Interesting(s2, s2.peers[0]);
    assert s2.peers[0 := p2.(weInterested := true)] == [p2.(weInterested := true)];
  }

  lemma AddSingleKeeps(pk: Picker)
    ensures pk.AddSingle(0) == pk.(availability := pk.AddSingle(0).availability)
    ensures |pk.AddSingle(0).availability| == |pk.availability|
  {}

  /** After the opening the peer owes the first blocks, asked at time 0. */
  lemma Opened(n: nat, digest: Digest, sha1: seq<byte> -> Digest)
    requires 0 < n <= 32
    ensures var s := After(n, digest, sha1, Opening()).state;
      Served(s, n, 0) && s.peers[0].inFlight == Debts(Take(Row(0, n), PIPELINE_DEPTH), 0) && s.peers[0].dest == []
    ensures var s := After(n, digest, sha1, Opening()[..2]).state;
      |s.peers| == 1 && s.peers[0].id == 0 && s.peers[0].inFlight == map[]
  {
    hide Run, FillRequests, Step;
    var m, e := Small(n, digest, sha1), Receive(0, Unchoke, 0, Fine);
    Joined(n, digest, sha1);
    Announced(n, digest, sha1);
    RunOn(n, digest, sha1, Opening()[..2], e);
    assert Opening() == Opening()[..2] + [e];
    var s := After(n, digest, sha1, Opening()[..2]).state;
    AnnouncedReceived(Fresh(n, digest, sha1).state.picker, n);
    UnchokeHandled(m, s, n);
    FirstRound(m, s, Unchoke, Fine);
  }

  lemma AnnouncedReceived(pk: Picker, n: nat)
    requires Received0(pk, n, 0)
    ensures Received0(pk.AddSingle(0), n, 0)
  {
    SameTablesSameMissing(pk, pk.AddSingle(0));
  }

  lemma UnchokeHandled(m: Meta, s: State, n: nat)
    requires |s.disk| == Total(m.files) && 0 < n <= 32 && |s.peers| == 1 && s.peers[0] == Announcer(s).(id := 0)
    requires Received0(s.picker, n, 0) && s.requestTimeout == 90 && s.toDrop == [] && s.lastChokeRound == 0 && s.chokeInterval == 10
    ensures var t := Handle(m, s, 0, Unchoke, 0, Fine).state;
      Served(t, n, 0) && t.peers[0].inFlight == Debts(Take(Row(0, n), PIPELINE_DEPTH), 0) && t.peers[0].dest == []
  {
    hide FillRequests, Handed, Received0, Asked, Picker.PickBlocks, Picker.AfterPick, Picker.Release, Again, Row, Take;
    var p := s.peers[0].(peerChoking := false);
    var s1 := SetPeer(s, 0, p);
    RefillPeers(s1, 0, 0);
    HandedFirst(s1, n, 0);
    RefillReceived(s1, n, 0, 0);
    AllAsked(Handed(s1, 0));
    assert s.peers[0 := s.peers[0]] == s.peers;
  }

  lemma AllAsked(blocks: seq<Block>)
    ensures Asked(map[], blocks, 0) == Debts(blocks, 0)
  {}

  lemma HandedFirst(s: State, n: nat, lo: nat)
    requires 0 < n <= 32 && lo <= n && |s.peers| == 1 && s.peers[0].has == {0} && Received0(s.picker, n, lo)
    requires !s.peers[0].peerChoking && s.peers[0].weInterested
    ensures Handed(s, 0) == Take(Row(lo, n), SatSub(PIPELINE_DEPTH, |s.peers[0].inFlight|))
  {
    hide Received0, Picker.PickBlocks;
    HandedRow(s.picker, n, lo, SatSub(PIPELINE_DEPTH, |s.peers[0].inFlight|));
  }

  lemma RefillReceived(s: State, n: nat, lo: nat, now: nat)
    requires |s.peers| == 1 && Received0(s.picker, n, lo)
    ensures Received0(FillRequests(s, 0, now).state.picker, n, lo)
  {
    hide Picker.PickBlocks, Picker.AfterPick, Picker.Release, Picker.Received, Asked, Asks, Again, Picker.Valid;
    RefillPicker(s.picker, s.peers[0].has, s.peers[0].inFlight, SatSub(PIPELINE_DEPTH, |s.peers[0].inFlight|));
  }

  // ----- a piece that is never finished

  function Zeros(): seq<byte> { seq(BLOCK_LEN, _ => 0) }

  /** The only block comes, is written, and the read of the check fails. */
  function OneReadFault(): seq<Event> { Opening() + [Receive(0, Piece(0, 0, Zeros()), 0, Io(None, Some(0), false))] }

  /** One read fault is enough: whatever happens afterwards, the piece is never
      asked for again, and the download is not complete while it is wanted. */
  lemma OneReadFaultIsForGood(digest: Digest, sha1: seq<byte> -> Digest, more: seq<Event>)
    ensures var m, w := Small(1, digest, sha1), After(1, digest, sha1, OneReadFault());
      Reachable(m, w) && LeftOut(m, Run(m, w, more).state, 0)
  {
    hide Run, Reachable, WholeAndSettled, LeavesUnread, LeftOut, WorldInv, WorldStep;
    var m, e := Small(1, digest, sha1), Receive(0, Piece(0, 0, Zeros()), 0, Io(None, Some(0), false));
    var before := After(1, digest, sha1, Opening());
    AfterIsReachable(1, digest, sha1, Opening());
    AfterIsReachable(1, digest, sha1, OneReadFault());
    Opened(1, digest, sha1);
    FaultLeavesUnread(m, before.state, digest, sha1, e);
    assert OneReadFault()[..|OneReadFault()| - 1] == Opening();
    RunSteps(m, Fresh(1, digest, sha1), OneReadFault());
    WorldStepLeaves(m, before, e, 0);
    UnreadForGood(m, After(1, digest, sha1, OneReadFault()), more, 0);
  }

  lemma FaultLeavesUnread(m: Meta, s: State, digest: Digest, sha1: seq<byte> -> Digest, e: Event)
    requires m == Small(1, digest, sha1) && Served(s, 1, 0) && s.peers[0].inFlight == Debts(Take(Row(0, 1), PIPELINE_DEPTH), 0)
    requires e == Receive(0, Piece(0, 0, Zeros()), 0, Io(None, Some(0), false))
    ensures LeavesUnread(m, s, e, 0)
  {
    hide Picker.Received;
    OnePieceShape(1);
    assert Row(0, 1)[0] == (0, 0);
    assert (0, 0) in Take(Row(0, 1), PIPELINE_DEPTH);
    assert s.peers[..0] == [] && Find([], 0) == None;
    assert Find(s.peers, 0) == Some(0);
  }

  // ----- a silent peer

  /** One willing peer that owes the one block there is, asked last at `stamp`. */
  ghost predicate Silent(s: State, stamp: nat) {
    && |s.peers| == 1 && Willing(s.peers[0]) && Received0(s.picker, 1, 0)
    && s.requestTimeout == 90 && s.toDrop == [] && s.peers[0].inFlight == map[(0, 0) := stamp]
  }

  function Last(ticks: seq<nat>): nat { if ticks == [] then 0 else ticks[|ticks| - 1] }

  /** Each tick comes less than a request timeout after the one before. */
  predicate Frequent(ticks: seq<nat>) {
    ticks == [] ||
    (Frequent(ticks[..|ticks| - 1]) && Last(ticks[..|ticks| - 1]) <= Last(ticks) < Last(ticks[..|ticks| - 1]) + 90)
  }

  function Ticking(ticks: seq<nat>): seq<Event> {
    if ticks == [] then [] else Ticking(ticks[..|ticks| - 1]) + [Maintain(ticks[|ticks| - 1])]
  }

  lemma FindOnly(s: State)
    requires |s.peers| == 1 && s.peers[0].id == 0
    ensures Find(s.peers, 0) == Some(0)
  {
    assert s.peers[..0] == [] && Find([], 0) == None;
  }

  /** The block is handed out again, owed as it is. */
  lemma SilentHanded(s: State, stamp: nat)
    requires Silent(s, stamp)
    ensures Handed(s, 0) == [(0, 0)]
  {
    hide Received0, Handed;
    assert s.peers[0].inFlight.Keys == {(0, 0)};
    assert |s.peers[0].inFlight| == |s.peers[0].inFlight.Keys|;
    HandedFirst(s, 1, 0);
    assert Row(0, 1) == [(0, 0)];
  }

  /** A refill stamps the block anew. */
  lemma SilentRefill(s: State, stamp: nat, now: nat)
    requires Silent(s, stamp)
    ensures Silent(FillRequests(s, 0, now).state, now)
  {
    hide FillRequests, Received0, Handed, Picker.PickBlocks, Picker.AfterPick, Picker.Release, Asked, Again;
    SilentHanded(s, stamp);
    RefillPeers(s, 0, now);
    RefillReceived(s, 1, 0, now);
    OneAsked(stamp, now);
  }

  lemma OneAsked(stamp: nat, now: nat)
    ensures Asked(map[(0, 0) := stamp], [(0, 0)], now) == map[(0, 0) := now]
  {}

  lemma SilentMaintain(s: State, stamp: nat, now: nat)
    requires Silent(s, stamp) && stamp <= now < stamp + 90
    ensures Overdue(s, 0, now) == {}
    ensures MaintainBelow(s, now, 1).state == FillRequests(s, 0, now).state && MaintainBelow(s, now, 1).drops == []
  {
    hide FillRequests, Received0;
    assert MaintainBelow(s, now, 0) == Tick(s, [], []);
    assert Overdue(s, 0, now) == {};
  }

  /** A tick finds nothing overdue, asks for the block again and so stamps it
      anew; nobody is struck or evicted. */
  lemma SilentTick(m: Meta, s: State, log: set<Delivery>, stamp: nat, now: nat)
    requires Inv(m, s, log) && Silent(s, stamp) && stamp <= now < stamp + 90
    ensures Silent(OnTick(s, now).state, now) && OnTick(s, now).evict == []
    ensures Overdue(s, 0, now) == {}
  {
    hide Inv, FillRequests, ChokeRoundIfDue, Received0, MaintainBelow, Overdue, Willing;
    SilentMaintain(s, stamp, now);
    SilentRefill(s, stamp, now);
    FillRequestsKeeps(m, s, log, 0, now);
    IdsOf(m, FillRequests(s, 0, now).state, log);
    RoundKeepsWilling(FillRequests(s, 0, now).state, now);
  }

  lemma RoundKeepsWilling(u: State, now: nat)
    requires IdsOk(u.peers, u.nextId)
    ensures var t := ChokeRoundIfDue(u, now).state;
      && |t.peers| == |u.peers| && t.picker == u.picker && t.requestTimeout == u.requestTimeout && t.toDrop == u.toDrop
      && forall k :: 0 <= k < |u.peers| && Willing(u.peers[k]) ==> Willing(t.peers[k]) && t.peers[k].inFlight == u.peers[k].inFlight
  {
    hide RunChoker, ChokerSpec.Chosen;
    RunChokerEffect(u.(lastChokeRound := now));
  }

  /** However long it goes on, as long as the ticks come faster than the request
      timeout, a peer that never answers still owes the block it was asked for
      at time 0, and is neither struck nor evicted. */
  lemma {:induction false} SilentPeerIsNeverFoundOut(digest: Digest, sha1: seq<byte> -> Digest, ticks: seq<nat>)
    requires Frequent(ticks)
    ensures var m, w := Small(1, digest, sha1), After(1, digest, sha1, Opening());
      && Reachable(m, w) && Reachable(m, Run(m, w, Ticking(ticks)))
      && Silent(Run(m, w, Ticking(ticks)).state, Last(ticks))
      && OwedSince(m, w, Ticking(ticks), 0, (0, 0)) == Some(0)
      && Evictions(m, w, Ticking(ticks)) == []
  {
    hide Run, Silent, OwedSince, Evictions, WorldInv, Inv, Step, Reachable, WorldStep;
    var m, w := Small(1, digest, sha1), After(1, digest, sha1, Opening());
    AfterIsReachable(1, digest, sha1, Opening());
    ReachableContinues(m, w, Ticking(ticks));
    if ticks == [] {
      SilentStart(digest, sha1);
    } else {
      var init, now := ticks[..|ticks| - 1], ticks[|ticks| - 1];
      SilentPeerIsNeverFoundOut(digest, sha1, init);
      RunKeeps(m, w, Ticking(init));
      InvOf(m, Run(m, w, Ticking(init)));
      DiskIsThere(m, Run(m, w, Ticking(init)));
      assert Ticking(ticks)[..|Ticking(ticks)| - 1] == Ticking(init);
      RunSteps(m, w, Ticking(ticks));
      OneStep(m, Run(m, w, Ticking(init)), Maintain(now));
      SilentOn(m, w, Ticking(init), Last(init), now);
    }
  }

  lemma OneStep(m: Meta, w: World, e: Event)
    requires |w.state.disk| == Total(m.files)
    ensures WorldStep(m, w, e).state == Step(m, w.state, e).state
  {
    hide Step;
  }

  lemma SilentStart(digest: Digest, sha1: seq<byte> -> Digest)
    ensures var m, w := Small(1, digest, sha1), After(1, digest, sha1, Opening());
      && Silent(Run(m, w, []).state, 0) && OwedSince(m, w, [], 0, (0, 0)) == Some(0) && Evictions(m, w, []) == []
  {
    hide Received0;
    var m, w := Small(1, digest, sha1), After(1, digest, sha1, Opening());
    hide Run;
    Opened(1, digest, sha1);
    RunNothing(m, w);
    assert Row(0, 1) == [(0, 0)] && Debts([(0, 0)], 0) == map[(0, 0) := 0];
    FindOnly(w.state);
  }

  lemma SilentOn(m: Meta, w: World, events: seq<Event>, stamp: nat, now: nat)
    requires var s, all := Run(m, w, events).state, events + [Maintain(now)];
      && Inv(m, s, Run(m, w, events).log) && Silent(s, stamp) && stamp <= now < stamp + 90
      && |s.disk| == Total(m.files) && Run(m, w, all).state == Step(m, s, Maintain(now)).state
    requires OwedSince(m, w, events, 0, (0, 0)) == Some(0) && Evictions(m, w, events) == []
    ensures var all := events + [Maintain(now)];
      && Silent(Run(m, w, all).state, now) && OwedSince(m, w, all, 0, (0, 0)) == Some(0) && Evictions(m, w, all) == []
  {
    hide Run, Inv, OnTick, Overdue, Silent, Stamp, TakesOff;
    var s, all := Run(m, w, events).state, events + [Maintain(now)];
    SilentTick(m, s, Run(m, w, events).log, stamp, now);
    assert all[..|all| - 1] == events;
    SilentOwes(m, s, stamp, now);
    SilentOwes(m, OnTick(s, now).state, now, now);
  }

  lemma SilentOwes(m: Meta, s: State, stamp: nat, now: nat)
    requires Silent(s, stamp)
    ensures Stamp(s, 0, (0, 0)) == Some(stamp)
    ensures Overdue(s, 0, now) == {} ==> !TakesOff(m, s, Maintain(now), 0, (0, 0))
  {
    hide Received0, Overdue;
    FindOnly(s);
  }

  /** So there is no bound on how long a block may be owed: with a tick every 60
      seconds, against a timeout of 90, `n` ticks later it has been owed for
      60 `n` seconds. */
  function Minutes(n: nat): seq<nat> { seq(n, k => 60 * (k + 1)) }

  lemma {:induction false} MinutesAreFrequent(n: nat)
    ensures Frequent(Minutes(n)) && Last(Minutes(n)) == 60 * n
  {
    if n > 0 {
      MinutesAreFrequent(n - 1);
      assert Minutes(n)[..n - 1] == Minutes(n - 1);
    }
  }

  lemma OwedForAnyTime(digest: Digest, sha1: seq<byte> -> Digest, n: nat)
    ensures var m, w := Small(1, digest, sha1), After(1, digest, sha1, Opening());
      && Silent(Run(m, w, Ticking(Minutes(n))).state, 60 * n)
      && OwedSince(m, w, Ticking(Minutes(n)), 0, (0, 0)) == Some(0)
      && Evictions(m, w, Ticking(Minutes(n))) == []
  {
    hide Run, Silent, OwedSince, Evictions, Reachable;
    MinutesAreFrequent(n);
    SilentPeerIsNeverFoundOut(digest, sha1, Minutes(n));
  }

  // ----- a refill that stops early

  /** The first block of eighteen comes; nothing is asked for in its place. */
  function OneDelivered(): seq<Event> { Opening() + [Receive(0, Piece(0, 0, Zeros()), 0, Fine)] }

  /** The peer owes blocks 1 to 15, block 0 is received, 16 and 17 are free. */
  ghost predicate Waiting(s: State) {
    && |s.peers| == 1 && s.peers[0].has == {0} && !s.peers[0].peerChoking && s.peers[0].weInterested
    && Received0(s.picker, 18, 1) && s.peers[0].inFlight.Keys == BlockSet(Row(1, 16))
  }

  lemma OneDeliveredWaits(digest: Digest, sha1: seq<byte> -> Digest)
    ensures Waiting(After(18, digest, sha1, OneDelivered()).state)
  {
    hide Run, WorldInv, Inv, Step, Handle, Received0, Row;
    var m, s := Small(18, digest, sha1), After(18, digest, sha1, Opening()).state;
    AfterIsReachable(18, digest, sha1, Opening());
    InvOf(m, After(18, digest, sha1, Opening()));
    Opened(18, digest, sha1);
    RunOn(18, digest, sha1, Opening(), Receive(0, Piece(0, 0, Zeros()), 0, Fine));
    DeliveryWaits(m, s, After(18, digest, sha1, Opening()).log, digest, sha1);
    FirstRound(m, s, Piece(0, 0, Zeros()), Fine);
  }

  lemma DeliveryWaits(m: Meta, s: State, log: set<Delivery>, digest: Digest, sha1: seq<byte> -> Digest)
    requires m == Small(18, digest, sha1) && Inv(m, s, log) && |s.disk| == Total(m.files)
    requires Served(s, 18, 0) && s.peers[0].inFlight == Debts(Take(Row(0, 18), PIPELINE_DEPTH), 0)
    ensures var t := Handle(m, s, 0, Piece(0, 0, Zeros()), 0, Fine).state;
      Waiting(t) && t.lastChokeRound == 0 && t.chokeInterval == 10 && t.toDrop == []
  {
    hide Inv, OnBlock, Waiting, Received0, Row, Picker.Received;
    HandleIsOnBlock(m, s);
    FirstOwed(s);
    SettledWaits(m, s, log, digest, sha1);
  }

  lemma HandleIsOnBlock(m: Meta, s: State)
    requires |s.disk| == Total(m.files) && |s.peers| == 1 && s.peers[0].hasOpened
    ensures Handle(m, s, 0, Piece(0, 0, Zeros()), 0, Fine) == OnBlock(m, s, 0, 0, 0, Zeros(), 0, Fine)
  {
    hide OnBlock;
    assert s.peers[0 := s.peers[0].(hasOpened := true)] == s.peers;
  }

  lemma FirstOwed(s: State)
    requires |s.peers| == 1 && s.peers[0].inFlight == Debts(Take(Row(0, 18), PIPELINE_DEPTH), 0)
    ensures (0, 0) in s.peers[0].inFlight
    ensures (s.peers[0].inFlight - {(0, 0)}).Keys == BlockSet(Row(1, 16))
  {
    var sixteen := Take(Row(0, 18), PIPELINE_DEPTH);
    assert sixteen == Row(0, 16);
    assert Row(0, 16)[0] == (0, 0);
    forall b: Block ensures b in Row(0, 16) && b != (0, 0) <==> b in Row(1, 16) {
      RowHolds(0, 16, b);
      RowHolds(1, 16, b);
    }
  }

  lemma RowHolds(lo: nat, hi: nat, b: Block)
    requires lo <= hi
    ensures b in Row(lo, hi) <==> b.0 == 0 && lo <= b.1 < hi
  {
    if b.0 == 0 && lo <= b.1 < hi { assert Row(lo, hi)[b.1 - lo] == b; }
  }

  lemma SettledWaits(m: Meta, s: State, log: set<Delivery>, digest: Digest, sha1: seq<byte> -> Digest)
    requires m == Small(18, digest, sha1) && Inv(m, s, log) && |s.disk| == Total(m.files) && Served(s, 18, 0)
    requires (0, 0) in s.peers[0].inFlight && (s.peers[0].inFlight - {(0, 0)}).Keys == BlockSet(Row(1, 16))
    ensures var t := OnBlock(m, s, 0, 0, 0, Zeros(), 0, Fine).state;
      Waiting(t) && t.lastChokeRound == 0 && t.chokeInterval == 10 && t.toDrop == []
  {
    hide Inv, OnBlock, SettledState, AcceptBlock, WriteLinear, Pending, Judge, Picker.Valid, Row;
    var b: Block := (0, 0);
    OnePieceShape(18);
    OwedIsAccepted(m, s, log, 0, b, Zeros(), 0, Fine);
    AcceptUnfolds(m, s, 0, b, Zeros(), Fine);
    SettledFacts(m, s, log, 0, b, Zeros());
    assert !LastOfPiece(s, b) by { assert !s.picker.Received((0, 1)); }
    SettledRest(m, s, 0, b, Zeros());
    SettledStateKeeps(m, s, log, 0, b, Zeros());
    ShapeOf(m, SettledState(m, s, 0, b, Zeros()), log + {(s.peers[0].dest, b, Zeros())});
    PendingReceives(s, SettledState(m, s, 0, b, Zeros()), b, s.peers[0].dest);
  }

  lemma PendingReceives(s: State, t: State, b: Block, dest: Dest)
    requires Pending(s, t, b, dest)
    ensures t.picker.Received(b) && t.picker.have == s.picker.have
  {}

  /** In that reachable state a refill is handed block 1, owed already, while 16
      is free; it gives the one back and leaves the other, with room to spare. */
  lemma RefillCanStopEarly(digest: Digest, sha1: seq<byte> -> Digest, now: nat)
    ensures var m, w := Small(18, digest, sha1), After(18, digest, sha1, OneDelivered());
      && Reachable(m, w) && |w.state.peers| == 1 && !w.state.peers[0].peerChoking && w.state.peers[0].weInterested
      && Repeats(w.state, 0) && PassedOver(w.state, 0)
      && |FillRequests(w.state, 0, now).state.peers| == 1 && !WorkDone(FillRequests(w.state, 0, now).state, 0)
  {
    hide Run, Reachable, WorldInv, Inv, FillRequests, Repeats, PassedOver, WorkDone;
    var m, w := Small(18, digest, sha1), After(18, digest, sha1, OneDelivered());
    AfterIsReachable(18, digest, sha1, OneDelivered());
    InvOf(m, w);
    OneDeliveredWaits(digest, sha1);
    WaitingRepeats(m, w.state, w.log);
    RefillConservesWorkExactly(m, w, 0, now);
    RefillPeers(w.state, 0, now);
  }

  lemma WaitingRepeats(m: Meta, s: State, log: set<Delivery>)
    requires Inv(m, s, log) && Waiting(s)
    ensures Repeats(s, 0) && PassedOver(s, 0)
  {
    hide Inv, Handed, Received0, Row, Free;
    WaitingHanded(s);
    RowHolds(1, 16, (0, 1));
    assert (0, 1) in Handed(s, 0) && (0, 1) in s.peers[0].inFlight;
    RowHolds(1, 16, (0, 16));
    FreeOne(m, s, log, (0, 16));
    assert (0, 16) !in Handed(s, 0);
  }

  lemma WaitingHanded(s: State)
    requires Waiting(s)
    ensures Handed(s, 0) == [(0, 1)]
  {
    hide Handed, Received0;
    RowSize(1, 16);
    assert |s.peers[0].inFlight| == |s.peers[0].inFlight.Keys| == 15;
    HandedFirst(s, 18, 1);
    assert Take(Row(1, 18), 1) == [(0, 1)];
  }

  lemma {:induction false} RowSize(lo: nat, hi: nat)
    requires lo <= hi
    ensures |BlockSet(Row(lo, hi))| == hi - lo
  {
    var row := Row(lo, hi);
    assert Sorting.Distinct(row);
    DistinctSetSize(row);
  }

  lemma FreeOne(m: Meta, s: State, log: set<Delivery>, b: Block)
    requires Inv(m, s, log) && Waiting(s) && b == (0, 16) && b !in Row(1, 16)
    ensures Free(s.picker, {0}, b)
  {
    hide PeersOk, AvailabilityExact, DestsOk, IdsOk, Witnessed, HeldVerified, Row, Picker.Valid, Picker.Received;
    OnePieceShape(18);
    Counting.CountZero(s.peers, Owes(b));
    assert b !in s.peers[0].inFlight.Keys;
    assert s.picker.InFlight(b) == Counting.Count(s.peers, Owes(b));
  }
}
