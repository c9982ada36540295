// Who sits in the peer table, and what becomes of the banned: only joining and
// leaving change who is connected, and every connection of a banned
// destination is put up for eviction in the step that bans it.
module EngineBans {
  import opened Prelude
  import opened Wire
  import opened PickerSpec
  import opened DiskSpec
  import opened EngineSpec
  import opened EngineInvariant
  import opened EngineTheorems
  import opened EngineSafety
  import ChokerSpec
  import Bitfields
  import Counting

  /** The same connections, in the same order, of the same destinations. */
  ghost predicate SameSeats(peers: seq<Peer>, peers': seq<Peer>) {
    |peers'| == |peers| && forall k :: 0 <= k < |peers| ==> peers'[k].id == peers[k].id && peers'[k].dest == peers[k].dest
  }

  /** No id was issued and no setting changed. */
  predicate SameSettings(s: State, t: State) {
    && t.nextId == s.nextId && t.slots == s.slots && t.maxPeers == s.maxPeers
    && t.chokeInterval == s.chokeInterval && t.requestTimeout == s.requestTimeout
  }

  /** The connection belongs to a destination banned from `s` to `t`. */
  ghost predicate JustBanned(s: State, t: State, x: (nat, bool)) {
    exists k :: 0 <= k < |s.peers| && x == (s.peers[k].id, true) && s.peers[k].dest in t.banned && s.peers[k].dest !in s.banned
  }

  /** The connection belongs to a destination that is banned in `t`. */
  ghost predicate Condemned(s: State, t: State, x: (nat, bool)) {
    exists k :: 0 <= k < |s.peers| && x == (s.peers[k].id, true) && s.peers[k].dest in t.banned
  }

  /** From `s` to `t` nobody joins or leaves; put up for eviction are `culprits`,
      all connections of newly banned destinations, and none but these and
      connections of destinations banned before. */
  ghost predicate SeatedBut(s: State, t: State, culprits: set<(nat, bool)>) {
    && SameSeats(s.peers, t.peers) && SameSettings(s, t) && s.banned <= t.banned
    && (forall x :: x in s.toDrop || x in culprits || JustBanned(s, t, x) ==> x in t.toDrop)
    && (forall x :: x in t.toDrop ==> x in s.toDrop || x in culprits || Condemned(s, t, x))
  }

  ghost predicate Seated(s: State, t: State) { SeatedBut(s, t, {}) }

  lemma BansJoin(s: State, t: State, u: State, x: (nat, bool))
    requires SameSeats(s.peers, t.peers) && s.banned <= t.banned <= u.banned
    ensures JustBanned(s, u, x) ==> JustBanned(s, t, x) || JustBanned(t, u, x)
    ensures Condemned(s, t, x) || Condemned(t, u, x) ==> Condemned(s, u, x)
  {
    if JustBanned(s, u, x) {
      var k :| 0 <= k < |s.peers| && x == (s.peers[k].id, true) && s.peers[k].dest in u.banned && s.peers[k].dest !in s.banned;
      assert t.peers[k].id == s.peers[k].id && t.peers[k].dest == s.peers[k].dest;
    }
    if Condemned(t, u, x) {
      var k :| 0 <= k < |t.peers| && x == (t.peers[k].id, true) && t.peers[k].dest in u.banned;
      assert t.peers[k].id == s.peers[k].id && t.peers[k].dest == s.peers[k].dest;
    }
  }

  lemma ButThrough(s: State, t: State, u: State, a: set<(nat, bool)>, b: set<(nat, bool)>)
    requires SeatedBut(s, t, a) && SeatedBut(t, u, b)
    ensures SeatedBut(s, u, a + b)
  {
    hide JustBanned, Condemned;
    forall x: (nat, bool)
      ensures x in s.toDrop || x in a + b || JustBanned(s, u, x) ==> x in u.toDrop
      ensures x in u.toDrop ==> x in s.toDrop || x in a + b || Condemned(s, u, x)
    {
      BansJoin(s, t, u, x);
    }
  }

  lemma SeatedThrough(s: State, t: State, u: State)
    requires Seated(s, t) && Seated(t, u)
    ensures Seated(s, u)
  {
    var nobody: set<(nat, bool)> := {};
    ButThrough(s, t, u, nobody, nobody);
    assert nobody + nobody == nobody;
  }

  lemma Unmoved(s: State, t: State)
    requires t.peers == s.peers && t.banned == s.banned && t.toDrop == s.toDrop && SameSettings(s, t)
    ensures Seated(s, t)
  {}

  /** Editing one entry but its name keeps the seats. */
  lemma Edited(s: State, idx: nat, p: Peer, t: State)
    requires idx < |s.peers| && p.id == s.peers[idx].id && p.dest == s.peers[idx].dest && SameSettings(s, t)
    requires t.peers == s.peers[idx := p] && t.banned == s.banned && t.toDrop == s.toDrop
    ensures Seated(s, t)
  {}

  // ----- requesting

  lemma FillSeated(s: State, idx: nat, now: nat)
    requires idx < |s.peers|
    ensures Seated(s, FillRequests(s, idx, now).state)
  {
    hide Picker.PickBlocks, Picker.AfterPick, Picker.Release, Asked, Asks, Again, Seated;
    var p, t := s.peers[idx], FillRequests(s, idx, now).state;
    if t == s { Unmoved(s, t); } else { Edited(s, idx, t.peers[idx], t); }
  }

  lemma InterestSeated(s: State, idx: nat, now: nat)
    requires idx < |s.peers|
    ensures Seated(s, UpdateInterest(s, idx, now).state)
  {
    hide Interesting, FillRequests, Seated;
    var p := s.peers[idx];
    Unmoved(s, s);
    Edited(s, idx, p.(weInterested := false), SetPeer(s, idx, p.(weInterested := false)));
    var s' := SetPeer(s, idx, p.(weInterested := true));
    Edited(s, idx, p.(weInterested := true), s');
    FillSeated(s', idx, now);
    SeatedThrough(s, s', FillRequests(s', idx, now).state);
  }

  // ----- choking

  lemma {:induction false} SetChokesSeated(s: State, ids: seq<nat>, choke: bool)
    ensures Seated(s, SetChokes(s, ids, choke).state)
  {
    hide Seated;
    if ids == [] {
      Unmoved(s, s);
    } else {
      SetChokesSeated(s, ids[..|ids| - 1], choke);
      var t, id := SetChokes(s, ids[..|ids| - 1], choke).state, ids[|ids| - 1];
      Unmoved(t, t);
      var found := Find(t.peers, id);
      if found.Some? { Edited(t, found.value, t.peers[found.value].(weChoke := choke), SetChoke(t, id, choke).state); }
      SeatedThrough(s, t, SetChoke(t, id, choke).state);
    }
  }

  lemma ChokerSeated(s: State)
    ensures Seated(s, RunChoker(s).state)
  {
    hide SetChokes;
    var d := ChokerSpec.Plan(s.slots, s.round + 1, Snapshots(s));
    var s' := s.(peers := Ranked(s.peers), round := s.round + 1);
    assert Seated(s, s');
    SetChokesSeated(s', d.unchoke, false);
    var t := SetChokes(s', d.unchoke, false).state;
    SetChokesSeated(t, d.choke, true);
    SeatedThrough(s, s', t);
    SeatedThrough(s, t, SetChokes(t, d.choke, true).state);
  }

  lemma RoundSeated(s: State, now: nat)
    ensures Seated(s, ChokeRoundIfDue(s, now).state)
  {
    hide RunChoker, Seated;
    var s' := s.(lastChokeRound := now);
    Unmoved(s, s);
    Unmoved(s, s');
    ChokerSeated(s');
    SeatedThrough(s, s', RunChoker(s').state);
  }

  // ----- banning

  lemma {:induction false} ConnectionsOf(peers: seq<Peer>, dest: Dest)
    ensures forall k :: 0 <= k < |peers| && peers[k].dest == dest ==> (peers[k].id, true) in Connections(peers, dest)
    ensures forall x :: x in Connections(peers, dest) ==> exists k :: 0 <= k < |peers| && peers[k].dest == dest && x == (peers[k].id, true)
  {
    if peers != [] {
      ConnectionsOf(peers[..|peers| - 1], dest);
      forall k | 0 <= k < |peers| && peers[k].dest == dest ensures (peers[k].id, true) in Connections(peers, dest) {
        if k < |peers| - 1 { assert peers[..|peers| - 1][k] == peers[k]; }
      }
    }
  }

  lemma BanSeated(s: State, dest: Dest)
    ensures Seated(s, Ban(s, dest))
  {
    ConnectionsOf(s.peers, dest);
  }

  lemma {:induction false} BanAllSeated(s: State, dests: seq<Dest>)
    ensures Seated(s, BanAll(s, dests))
  {
    hide Seated;
    if dests == [] {
      Unmoved(s, s);
    } else {
      var init := dests[..|dests| - 1];
      BanAllSeated(s, init);
      BanSeated(BanAll(s, init), dests[|dests| - 1]);
      SeatedThrough(s, BanAll(s, init), BanAll(s, dests));
    }
  }

  lemma BlameSeated(s: State, index: nat)
    ensures Seated(s, BlameSuppliers(s, index))
  {
    hide Contributors, Suspected, OverLimit, BanAll, DropPiece, Seated;
    var blocks := s.picker.geo.Blocks(index);
    var who := Contributors(s.suppliers, index, blocks);
    var s' := s.(suppliers := DropPiece(s.suppliers, index, blocks));
    Unmoved(s, s');
    BanAllSeated(s', who);
    SeatedThrough(s, s', BanAll(s', who));
    var suspicion := Suspected(s.suspicion, who);
    var s2 := s'.(suspicion := suspicion);
    Unmoved(s, s2);
    BanAllSeated(s2, OverLimit(suspicion, who));
    SeatedThrough(s, s2, BanAll(s2, OverLimit(suspicion, who)));
  }

  lemma JudgeSeated(m: Meta, s: State, index: nat, io: Io)
    ensures Seated(s, Judge(m, s, index, io).state)
  {
    hide Verify, BlameSuppliers, CreditBelow, DropPiece, Seated;
    match Verify(m, s.disk, index, io.verify) {
      case Matches => Unmoved(s, Judge(m, s, index, io).state);
      case Mismatch =>
        var s' := s.(picker := s.picker.ResetPiece(index));
        Unmoved(s, s');
        BlameSeated(s', index);
        SeatedThrough(s, s', BlameSuppliers(s', index));
      case Unreadable => Unmoved(s, Judge(m, s, index, io).state);
    }
  }

  // ----- messages

  lemma AcceptSeated(m: Meta, s: State, idx: nat, b: Block, len: nat, io: Io)
    requires idx < |s.peers|
    ensures Seated(s, AcceptBlock(m, s, idx, b, len, io).0.state)
  {
    hide Judge, Cancels, Picker.BlockReceived, Picker.Lower;
    var p := s.peers[idx];
    var s1 := SetPeer(s, idx, p.(downloaded := p.downloaded + len)).(suppliers := s.suppliers[b := p.dest]);
    var t := CancelElsewhere(s1, idx, b).state;
    var u := t.(picker := t.picker.BlockReceived(b).0);
    assert Seated(s, u);
    JudgeSeated(m, u, b.0, io);
    SeatedThrough(s, u, Judge(m, u, b.0, io).state);
  }

  lemma StoreSeated(m: Meta, s: State, idx: nat, b: Block, data: seq<byte>, io: Io)
    requires idx < |s.peers| && |s.disk| == Total(m.files)
    ensures Seated(s, StoreBlock(m, s, idx, b, data, io).0.state)
  {
    hide AcceptBlock, WriteLinear, Picker.BlockFailed;
    var start := m.geo.BlockStart(b);
    if start + |data| <= |s.disk| && !(io.write.Some? && io.write.value < |data|) {
      var s' := s.(disk := WriteLinear(m.files, s.disk, start, data));
      AcceptSeated(m, s', idx, b, |data|, io);
    }
  }

  lemma OnBlockSeated(m: Meta, s: State, idx: nat, index: nat, begin: nat, data: seq<byte>, now: nat, io: Io)
    requires idx < |s.peers| && |s.disk| == Total(m.files)
    ensures Seated(s, OnBlock(m, s, idx, index, begin, data, now, io).state)
  {
    hide FillRequests, StoreBlock, Seated, Picker.BlockFailed;
    var b: Block := (index, begin / BLOCK_LEN);
    var p := s.peers[idx];
    Unmoved(s, s);
    if begin % BLOCK_LEN == 0 && index < m.geo.numPieces && |data| == m.geo.BlockLen(b.0, b.1) {
      var p' := p.(inFlight := p.inFlight - {b}, strikes := 0);
      var s1 := if b in p.inFlight then SetPeer(s, idx, p') else s;
      if b in p.inFlight { Edited(s, idx, p', s1); }
      var s2 := s1.(picker := s.picker.BlockFailed(b));
      Unmoved(s1, s2);
      SeatedThrough(s, s1, s2);
      StoreSeated(m, s1, idx, b, data, io);
      var t := StoreBlock(m, s1, idx, b, data, io).0.state;
      SeatedThrough(s, s1, t);
      Refilled(s, s1, idx, now);
      Refilled(s, s2, idx, now);
      Refilled(s, t, idx, now);
    }
  }

  lemma Refilled(s: State, t: State, idx: nat, now: nat)
    requires Seated(s, t)
    ensures idx < |t.peers| ==> Seated(s, FillRequests(t, idx, now).state)
  {
    hide Seated, FillRequests;
    if idx < |t.peers| {
      FillSeated(t, idx, now);
      SeatedThrough(s, t, FillRequests(t, idx, now).state);
    }
  }

  lemma Reinterested(s: State, t: State, idx: nat, now: nat)
    requires Seated(s, t) && idx < |t.peers|
    ensures Seated(s, UpdateInterest(t, idx, now).state)
  {
    hide Seated, UpdateInterest;
    InterestSeated(t, idx, now);
    SeatedThrough(s, t, UpdateInterest(t, idx, now).state);
  }

  lemma ReplaceSeated(s: State, idx: nat, field: set<nat>, now: nat)
    requires idx < |s.peers|
    ensures Seated(s, UpdateInterest(ReplacePieceSet(s, idx, field), idx, now).state)
  {
    hide UpdateInterest, Picker.AddBitfield, Picker.RemoveBitfield, Seated;
    Edited(s, idx, s.peers[idx].(has := field), ReplacePieceSet(s, idx, field));
    Reinterested(s, ReplacePieceSet(s, idx, field), idx, now);
  }

  lemma ServeSeated(m: Meta, s: State, idx: nat, req: BlockRequest, io: Io)
    requires idx < |s.peers|
    ensures Seated(s, ServeRequest(m, s, idx, req, io).state)
  {
    hide Present, Bytes;
  }

  /** Messages that only set flags, told apart from what follows them. */
  lemma FlagsSeated(s: State, idx: nat, now: nat)
    requires idx < |s.peers|
    ensures var p := s.peers[idx];
      && Seated(s, ReleaseAll(SetPeer(s, idx, p.(peerChoking := true)), idx))
      && Seated(s, FillRequests(SetPeer(s, idx, p.(peerChoking := false)), idx, now).state)
      && Seated(s, SetPeer(s, idx, p.(theyInterested := true)))
      && Seated(s, RunChoker(SetPeer(s, idx, p.(theyInterested := true))).state)
      && Seated(s, SetPeer(s, idx, p.(theyInterested := false, weChoke := true)))
  {
    hide FillRequests, RunChoker, Picker.Release, Seated;
    var p := s.peers[idx];
    var choked := p.(peerChoking := true);
    Edited(s, idx, choked.(inFlight := map[]), ReleaseAll(SetPeer(s, idx, choked), idx));
    Edited(s, idx, p.(peerChoking := false), SetPeer(s, idx, p.(peerChoking := false)));
    Refilled(s, SetPeer(s, idx, p.(peerChoking := false)), idx, now);
    var s' := SetPeer(s, idx, p.(theyInterested := true));
    Edited(s, idx, p.(theyInterested := true), s');
    ChokerSeated(s');
    SeatedThrough(s, s', RunChoker(s').state);
    Edited(s, idx, p.(theyInterested := false, weChoke := true), SetPeer(s, idx, p.(theyInterested := false, weChoke := true)));
  }

  /** The message is one a peer may not send: something of the fast extension
      without it, or a piece set that is malformed or does not come first. */
  predicate Illegal(m: Meta, fast: bool, first: bool, msg: Message) {
    || ((msg.RejectRequest? || msg.SuggestPiece? || msg.AllowedFast?) && !fast)
    || (msg.Bitfield? && (!first || Bitfields.Parse(msg.bits, m.geo.numPieces).Err?))
    || ((msg.HaveAll? || msg.HaveNone?) && (!first || !fast))
  }

  function Accused(m: Meta, p: Peer, first: bool, msg: Message): set<(nat, bool)> {
    if Illegal(m, p.fast, first, msg) then {(p.id, true)} else {}
  }

  lemma ViolationSeated(s: State, id: nat)
    ensures Seated(s, s) && SeatedBut(s, Violation(s, id).state, {(id, true)})
  {}

  lemma HaveSeated(s: State, idx: nat, piece: nat, now: nat)
    requires idx < |s.peers|
    ensures var p := s.peers[idx];
      Seated(s, UpdateInterest(SetPeer(s, idx, p.(has := p.has + {piece})).(picker := s.picker.AddSingle(piece)), idx, now).state)
  {
    hide UpdateInterest, Picker.AddSingle, Seated;
    var p := s.peers[idx].(has := s.peers[idx].has + {piece});
    var t := SetPeer(s, idx, p).(picker := s.picker.AddSingle(piece));
    Edited(s, idx, p, t);
    Reinterested(s, t, idx, now);
  }

  lemma DispatchSeated(m: Meta, s: State, idx: nat, first: bool, msg: Message, now: nat, io: Io)
    requires idx < |s.peers| && |s.disk| == Total(m.files)
    ensures SeatedBut(s, Dispatch(m, s, idx, first, msg, now, io).state, Accused(m, s.peers[idx], first, msg))
  {
    hide FillRequests, UpdateInterest, OnBlock, RunChoker, AllPieces, ServeRequest, ReplacePieceSet, ReleaseAll, SeatedBut;
    hide Counting.Count, Picker.AddSingle;
    FlagsSeated(s, idx, now);
    ViolationSeated(s, s.peers[idx].id);
    match msg {
      case Have(piece) => HaveSeated(s, idx, piece, now);
      case Bitfield(bits) =>
        if Bitfields.Parse(bits, m.geo.numPieces).Ok? { ReplaceSeated(s, idx, Bitfields.PiecesOf(bits, m.geo.numPieces), now); }
      case HaveAll => ReplaceSeated(s, idx, AllPieces(m.geo.numPieces), now);
      case HaveNone => ReplaceSeated(s, idx, {}, now);
      case Request(req) => ServeSeated(m, s, idx, req, io);
      case Piece(index, begin, data) => OnBlockSeated(m, s, idx, index, begin, data, now, io);
      case _ =>
    }
  }

  lemma HandleSeated(m: Meta, s: State, idx: nat, msg: Message, now: nat, io: Io)
    requires idx < |s.peers| && |s.disk| == Total(m.files)
    ensures SeatedBut(s, Handle(m, s, idx, msg, now, io).state, Accused(m, s.peers[idx], !s.peers[idx].hasOpened, msg))
  {
    hide Dispatch, SeatedBut;
    var p := s.peers[idx];
    var s' := if Opens(msg) then SetPeer(s, idx, p.(hasOpened := true)) else s;
    Unmoved(s, s);
    if Opens(msg) { Edited(s, idx, p.(hasOpened := true), s'); }
    DispatchSeated(m, s', idx, !p.hasOpened, msg, now, io);
    var accused := Accused(m, p, !p.hasOpened, msg);
    ButThrough(s, s', Handle(m, s, idx, msg, now, io).state, {}, accused);
    assert {} + accused == accused;
  }

  // ----- maintenance

  lemma MaintainPeerSeated(s: State, idx: nat, now: nat)
    requires idx < |s.peers|
    ensures Seated(s, MaintainPeer(s, idx, now).state)
  {
    hide FillRequests, Expired, Picker.Release, Seated;
    var p, late := s.peers[idx], Expired(s, s.peers[idx], now);
    var p' := p.(inFlight := p.inFlight - late, strikes := p.strikes + 1);
    var s' := SetPeer(s, idx, p').(picker := s.picker.Release(late));
    Edited(s, idx, p', s');
    FillSeated(s, idx, now);
    Refilled(s, s', idx, now);
  }

  lemma {:induction false} MaintainSeated(s: State, now: nat, k: nat)
    ensures Seated(s, MaintainBelow(s, now, k).state)
  {
    hide MaintainPeer, Seated;
    if k == 0 {
      Unmoved(s, s);
    } else {
      MaintainSeated(s, now, k - 1);
      var t := MaintainBelow(s, now, k - 1).state;
      if k - 1 < |t.peers| {
        MaintainPeerSeated(t, k - 1, now);
        SeatedThrough(s, t, MaintainPeer(t, k - 1, now).state);
      }
    }
  }

  /** A peer owes a block asked for as long ago as the timeout. */
  predicate Late(p: Peer, timeout: nat, now: nat) { exists b :: b in p.inFlight && SatSub(now, p.inFlight[b]) >= timeout }

  /** A peer is late for the last time that is let pass. */
  predicate Struck(p: Peer, timeout: nat, now: nat) { Late(p, timeout, now) && p.strikes + 1 >= REQUEST_STRIKES }

  function AllStruck(s: State, now: nat): set<(nat, bool)> {
    set k: nat | k < |s.peers| && Struck(s.peers[k], s.requestTimeout, now) :: (s.peers[k].id, true)
  }

  lemma LateIsExpired(s: State, p: Peer, now: nat)
    ensures Late(p, s.requestTimeout, now) <==> Expired(s, p, now) != {}
  {
    if Expired(s, p, now) != {} { var b :| b in Expired(s, p, now); }
    if Late(p, s.requestTimeout, now) {
      var b :| b in p.inFlight && SatSub(now, p.inFlight[b]) >= s.requestTimeout;
      assert b in Expired(s, p, now);
    }
  }

  /** Maintaining a peer touches no other. */
  lemma MaintainOnlyOne(s: State, idx: nat, now: nat)
    requires idx < |s.peers|
    ensures var t := MaintainPeer(s, idx, now);
      && t.state.requestTimeout == s.requestTimeout && |t.state.peers| == |s.peers|
      && (forall k :: 0 <= k < |s.peers| && k != idx ==> t.state.peers[k] == s.peers[k])
      && t.drops == if Struck(s.peers[idx], s.requestTimeout, now) then [(s.peers[idx].id, true)] else []
  {
    hide FillRequests, Expired, Picker.Release, Late;
    var p, late := s.peers[idx], Expired(s, s.peers[idx], now);
    LateIsExpired(s, p, now);
    FillOnlyOne(s, idx, now);
    FillOnlyOne(SetPeer(s, idx, p.(inFlight := p.inFlight - late, strikes := p.strikes + 1)).(picker := s.picker.Release(late)), idx, now);
  }

  lemma FillOnlyOne(s: State, idx: nat, now: nat)
    requires idx < |s.peers|
    ensures var t := FillRequests(s, idx, now).state;
      && t.requestTimeout == s.requestTimeout && |t.peers| == |s.peers|
      && forall k :: 0 <= k < |s.peers| && k != idx ==> t.peers[k] == s.peers[k]
  {
    hide Picker.PickBlocks, Picker.AfterPick, Picker.Release, Asked, Asks, Again;
  }

  /** The peers a tick strikes out are the late ones out of strikes. */
  lemma {:induction false} MaintainDrops(s: State, now: nat, k: nat)
    requires k <= |s.peers|
    ensures var t := MaintainBelow(s, now, k);
      && t.state.requestTimeout == s.requestTimeout && |t.state.peers| == |s.peers|
      && (forall j :: k <= j < |s.peers| ==> t.state.peers[j] == s.peers[j])
      && forall x :: x in t.drops <==>
           exists j :: 0 <= j < k && Struck(s.peers[j], s.requestTimeout, now) && x == (s.peers[j].id, true)
  {
    hide MaintainPeer, Struck;
    if k > 0 {
      MaintainDrops(s, now, k - 1);
      MaintainOnlyOne(MaintainBelow(s, now, k - 1).state, k - 1, now);
    }
  }

  // ----- one step

  /** Whom a step evicts for what they did: the sender of an illegal message, or
      the peers a tick strikes out. */
  function Culprits(m: Meta, s: State, e: Event): set<(nat, bool)> {
    if e.Maintain? then AllStruck(s, e.now)
    else if e.Receive? && Find(s.peers, e.id).Some? then
      var p := s.peers[Find(s.peers, e.id).value];
      Accused(m, p, !p.hasOpened, e.msg)
    else {}
  }

  /** A step other than joining or leaving keeps the seats. It evicts culprits
      and every connection of a destination it bans, and nobody else but
      connections of destinations banned before. */
  ghost predicate Enforced(m: Meta, s: State, e: Event, o: Outcome) {
    && SameSeats(s.peers, o.state.peers) && o.state.nextId == s.nextId
    && (forall x :: x in Culprits(m, s, e) || JustBanned(s, o.state, x) ==> x in o.evict)
    && (s.toDrop == [] ==>
          o.state.toDrop == [] && forall x :: x in o.evict ==> x in Culprits(m, s, e) || Condemned(s, o.state, x))
  }

  lemma StepEnforces(m: Meta, s: State, e: Event)
    requires |s.disk| == Total(m.files) && !e.Register? && !e.DropPeer?
    ensures Enforced(m, s, e, Step(m, s, e))
  {
    match e {
      case Receive(id, msg, now, io) => MessageEnforces(m, s, id, msg, now, io);
      case Maintain(now) => TickEnforces(m, s, now);
      case _ =>
    }
  }

  lemma MessageEnforces(m: Meta, s: State, id: nat, msg: Message, now: nat, io: Io)
    requires |s.disk| == Total(m.files)
    ensures Enforced(m, s, Receive(id, msg, now, io), OnMessage(m, s, id, msg, now, io))
  {
    hide Handle, ChokeRoundIfDue, JustBanned, Condemned, Accused;
    var e := match Find(s.peers, id) case None => Effect(s, []) case Some(k) => Handle(m, s, k, msg, now, io);
    var culprits := Culprits(m, s, Receive(id, msg, now, io));
    assert SeatedBut(s, e.state, culprits) by {
      Unmoved(s, s);
      var found := Find(s.peers, id);
      if found.Some? { HandleSeated(m, s, found.value, msg, now, io); }
    }
    RoundSeated(e.state, now);
    ButThrough(s, e.state, ChokeRoundIfDue(e.state, now).state, culprits, {});
    assert culprits + {} == culprits;
    EvictedIsDropped(s, ChokeRoundIfDue(e.state, now).state, culprits);
  }

  /** Emptying the list of those to drop changes nothing else. */
  lemma EvictedIsDropped(s: State, t: State, culprits: set<(nat, bool)>)
    requires SeatedBut(s, t, culprits)
    ensures var u := t.(toDrop := []);
      && SameSeats(s.peers, u.peers) && u.nextId == s.nextId
      && (forall x :: x in culprits || JustBanned(s, u, x) ==> x in t.toDrop)
      && forall x :: x in t.toDrop ==> x in s.toDrop || x in culprits || Condemned(s, u, x)
  {
    var u := t.(toDrop := []);
    assert forall x :: JustBanned(s, u, x) <==> JustBanned(s, t, x);
    assert forall x :: Condemned(s, u, x) <==> Condemned(s, t, x);
  }

  lemma TickEnforces(m: Meta, s: State, now: nat)
    ensures Enforced(m, s, Maintain(now), OnTick(s, now))
  {
    hide MaintainBelow, ChokeRoundIfDue, JustBanned, Condemned, Struck;
    var t := MaintainBelow(s, now, |s.peers|).state;
    MaintainSeated(s, now, |s.peers|);
    MaintainDrops(s, now, |s.peers|);
    RoundSeated(t, now);
    SeatedThrough(s, t, ChokeRoundIfDue(t, now).state);
    EvictedIsDropped(s, ChokeRoundIfDue(t, now).state, {});
  }

  // ----- every run

  /** Every eviction ordered so far in a run. */
  ghost function Evictions(m: Meta, w: World, events: seq<Event>): seq<(nat, bool)> {
    if events == [] then []
    else
      var init, e := events[..|events| - 1], events[|events| - 1];
      var s := Run(m, w, init).state;
      Evictions(m, w, init) + (if |s.disk| == Total(m.files) then Step(m, s, e).evict else [])
  }

  /** Whoever of the table is banned has been ordered out. */
  ghost predicate BannedOrderedOut(s: State, evicted: seq<(nat, bool)>) {
    forall k :: 0 <= k < |s.peers| && s.peers[k].dest in s.banned ==> (s.peers[k].id, true) in evicted
  }

  lemma StepOrdersOut(m: Meta, s: State, e: Event, evicted: seq<(nat, bool)>)
    requires |s.disk| == Total(m.files) && BannedOrderedOut(s, evicted)
    ensures var o := Step(m, s, e); BannedOrderedOut(o.state, evicted + o.evict)
  {
    hide OnMessage, OnTick, Picker.RemoveBitfield, Picker.Release, Culprits, Condemned;
    var o := Step(m, s, e);
    if e.DropPeer? {
      var found := Find(s.peers, e.id);
      if found.Some? {
        forall k | 0 <= k < |o.state.peers| ensures o.state.peers[k] in s.peers {}
      }
    } else if !e.Register? {
      StepEnforces(m, s, e);
      forall k | 0 <= k < |o.state.peers| && o.state.peers[k].dest in o.state.banned
        ensures (o.state.peers[k].id, true) in evicted + o.evict
      {
        var x := (s.peers[k].id, true);
        if s.peers[k].dest !in s.banned { assert JustBanned(s, o.state, x); }
      }
    }
  }

  lemma {:induction false} BannedAreOrderedOut(m: Meta, w: World, events: seq<Event>)
    requires w.state.peers == []
    ensures BannedOrderedOut(Run(m, w, events).state, Evictions(m, w, events))
  {
    hide Step, BannedOrderedOut;
    if events == [] {
      NobodyToBan(w.state, []);
    } else {
      var init, e := events[..|events| - 1], events[|events| - 1];
      BannedAreOrderedOut(m, w, init);
      var s := Run(m, w, init).state;
      if |s.disk| == Total(m.files) {
        StepOrdersOut(m, s, e, Evictions(m, w, init));
      } else {
        assert Evictions(m, w, init) + [] == Evictions(m, w, init);
      }
    }
  }

  lemma NobodyToBan(s: State, evicted: seq<(nat, bool)>)
    requires s.peers == []
    ensures BannedOrderedOut(s, evicted)
  {}

  /** In every run from the start, a connection of a banned destination is one
      the engine has ordered dropped, and a banned destination that tries to
      join changes nothing. */
  lemma BansAreEnforced(m: Meta, disk: seq<Cell>, have: set<nat>, mode: Mode, events: seq<Event>)
    ensures var w := Beginning(m, disk, have, mode);
      var s := Run(m, w, events).state;
      && (forall k :: 0 <= k < |s.peers| && s.peers[k].dest in s.banned ==> (s.peers[k].id, true) in Evictions(m, w, events))
      && (forall d: Dest, fast: bool :: d in s.banned ==> RegisterPeer(s, d, fast) == s)
  {
    BannedAreOrderedOut(m, Beginning(m, disk, have, mode), events);
  }

  /** Nobody is waiting to be dropped between steps. */
  lemma {:induction false} NobodyPending(m: Meta, w: World, events: seq<Event>)
    requires w.state.toDrop == []
    ensures Run(m, w, events).state.toDrop == []
  {
    hide Step;
    if events != [] {
      var init, e := events[..|events| - 1], events[|events| - 1];
      NobodyPending(m, w, init);
      var s := Run(m, w, init).state;
      if |s.disk| == Total(m.files) { StepPending(m, s, e); }
    }
  }

  lemma StepPending(m: Meta, s: State, e: Event)
    requires |s.disk| == Total(m.files) && s.toDrop == []
    ensures Step(m, s, e).state.toDrop == []
  {
    hide OnMessage, OnTick, Enforced, Refused, Picker.RemoveBitfield, Picker.Release;
    if !e.Register? && !e.DropPeer? {
      StepEnforces(m, s, e);
      EnforcedPending(m, s, e, Step(m, s, e));
    }
  }

  lemma EnforcedPending(m: Meta, s: State, e: Event, o: Outcome)
    requires Enforced(m, s, e, o) && s.toDrop == []
    ensures o.state.toDrop == []
  {}

  /** In every reachable state a message or a tick evicts the sender of an
      illegal message, the peers struck out, and every connection of whoever it
      bans; and nobody else but connections of destinations banned already. */
  lemma EvictionsAreDeserved(m: Meta, w: World, e: Event)
    requires Reachable(m, w) && !e.Register? && !e.DropPeer?
    ensures |w.state.disk| == Total(m.files)
    ensures var s, o := w.state, Step(m, w.state, e);
      && (forall x :: x in Culprits(m, s, e) || JustBanned(s, o.state, x) ==> x in o.evict)
      && (forall x :: x in o.evict ==> x in Culprits(m, s, e) || Condemned(s, o.state, x))
  {
    hide FairStart, Run, Step, Culprits, JustBanned, Condemned;
    ReachableIsSafe(m, w);
    var disk, have, mode, events :| FairStart(m, disk, have) && w == Run(m, Beginning(m, disk, have, mode), events);
    NobodyPending(m, Beginning(m, disk, have, mode), events);
    StepEnforces(m, w.state, e);
  }
}
