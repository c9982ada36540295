// The facts that hold between any two steps of the engine, and the proof that
// each building block of a step keeps them.
module EngineInvariant {
  import opened Prelude
  import opened Wire
  import opened PickerSpec
  import opened PickerTheory
  import opened DiskSpec
  import opened EngineSpec
  import ChokerSpec
  import Bitfields
  import Counting
  import Sorting

  /** A destination sent these bytes as this block. */
  type Delivery = (Dest, Block, seq<byte>)

  /** What one entry of the peer table must satisfy. */
  ghost predicate PeerOk(pk: Picker, p: Peer) {
    && (forall i :: i in p.has ==> i < pk.geo.numPieces)
    && (forall b :: b in p.inFlight ==> Askable(pk, p.has, b))
    && |p.inFlight| <= PIPELINE_DEPTH
    && (p.peerChoking ==> p.inFlight == map[])
    && (!p.hasOpened ==> p.has == {} && p.peerChoking)
    && (!p.weChoke ==> p.theyInterested)
  }

  /** A block that may be owed: it exists, the peer has its piece, and it has
      neither arrived nor been verified. */
  predicate Askable(pk: Picker, has: set<nat>, b: Block) {
    pk.geo.InRange(b) && b.0 in has && b.0 !in pk.have && !pk.Received(b)
  }

  ghost predicate PeersOk(pk: Picker, peers: seq<Peer>) {
    forall k :: 0 <= k < |peers| ==> PeerOk(pk, peers[k])
  }

  /** Ids are distinct and were issued. */
  ghost predicate IdsOk(peers: seq<Peer>, nextId: nat) {
    && (forall i, j :: 0 <= i < j < |peers| ==> peers[i].id != peers[j].id)
    && (forall k :: 0 <= k < |peers| ==> peers[k].id < nextId)
  }

  /** A piece's availability is the number of connected peers that have it. */
  ghost predicate AvailabilityExact(pk: Picker, peers: seq<Peer>) {
    forall i :: 0 <= i < |pk.availability| ==> pk.availability[i] == Counting.Count(peers, Holds(i))
  }

  /** A block's in-flight count is the number of connected peers owing it. */
  ghost predicate FlightExact(pk: Picker, peers: seq<Peer>) {
    forall b: Block :: pk.InFlight(b) == Counting.Count(peers, Owes(b))
  }

  /** No destination holds more connections than it may. */
  ghost predicate DestsOk(peers: seq<Peer>) {
    forall d :: Counting.Count(peers, From(d)) <= MAX_CONNECTIONS_PER_DEST
  }

  /** Blame can be laid for exactly the blocks that wait for a verdict. */
  ghost predicate SuppliersExact(pk: Picker, suppliers: map<Block, Dest>) {
    forall b: Block :: b in suppliers <==> pk.Received(b)
  }

  /** Each waiting block is on disk as its supplier sent it. */
  ghost predicate Witnessed(m: Meta, s: State, log: set<Delivery>) {
    forall b :: b in s.suppliers ==> WitnessedBlock(m, s.disk, s.suppliers[b], b, log)
  }

  ghost predicate WitnessedBlock(m: Meta, disk: seq<Cell>, d: Dest, b: Block, log: set<Delivery>) {
    && Present(disk, m.geo.BlockStart(b), m.geo.BlockLen(b.0, b.1))
    && (d, b, Bytes(disk, m.geo.BlockStart(b), m.geo.BlockLen(b.0, b.1))) in log
  }

  /** Every piece we claim to hold is on disk and hashes as expected. */
  ghost predicate HeldVerified(m: Meta, have: set<nat>, disk: seq<Cell>) {
    forall i :: i in have ==> Verified(m, disk, i)
  }

  ghost predicate Shape(m: Meta, s: State) {
    && m.Valid()
    && s.picker.Valid() && s.picker.geo == m.geo
    && |s.disk| == m.geo.totalLength
    && s.slots > 0
  }

  /** The tables agree with one another. */
  ghost predicate Tables(m: Meta, s: State) {
    && Shape(m, s)
    && IdsOk(s.peers, s.nextId)
    && DestsOk(s.peers)
    && Counting.Count(s.peers, Unchoked()) <= s.slots
    && AvailabilityExact(s.picker, s.peers)
    && FlightExact(s.picker, s.peers)
    && PeersOk(s.picker, s.peers)
    && SuppliersExact(s.picker, s.suppliers)
  }

  ghost predicate Inv(m: Meta, s: State, log: set<Delivery>) {
    && Tables(m, s)
    && Witnessed(m, s, log)
    && HeldVerified(m, s.picker.have, s.disk)
  }

  // ----- changes that do not touch a count

  /** Editing one entry moves a count only by what the entry itself says. */
  lemma EditCounts(peers: seq<Peer>, idx: nat, p: Peer)
    requires idx < |peers|
    ensures p.has == peers[idx].has ==>
      forall i: nat :: Counting.Count(peers[idx := p], Holds(i)) == Counting.Count(peers, Holds(i))
    ensures p.inFlight.Keys == peers[idx].inFlight.Keys ==>
      forall b: Block :: Counting.Count(peers[idx := p], Owes(b)) == Counting.Count(peers, Owes(b))
    ensures p.dest == peers[idx].dest ==>
      forall d: Dest :: Counting.Count(peers[idx := p], From(d)) == Counting.Count(peers, From(d))
    ensures p.weChoke || !peers[idx].weChoke ==>
      Counting.Count(peers[idx := p], Unchoked()) <= Counting.Count(peers, Unchoked())
  {
    forall i: nat ensures p.has == peers[idx].has ==>
      Counting.Count(peers[idx := p], Holds(i)) == Counting.Count(peers, Holds(i))
    {
      Counting.CountUpdate(peers, Holds(i), idx, p);
    }
    forall b: Block ensures p.inFlight.Keys == peers[idx].inFlight.Keys ==>
      Counting.Count(peers[idx := p], Owes(b)) == Counting.Count(peers, Owes(b))
    {
      Counting.CountUpdate(peers, Owes(b), idx, p);
      assert p.inFlight.Keys == peers[idx].inFlight.Keys ==> (b in p.inFlight <==> b in peers[idx].inFlight);
    }
    forall d: Dest ensures p.dest == peers[idx].dest ==>
      Counting.Count(peers[idx := p], From(d)) == Counting.Count(peers, From(d))
    {
      Counting.CountUpdate(peers, From(d), idx, p);
    }
    Counting.CountUpdate(peers, Unchoked(), idx, p);
  }

  /** Flags, clocks and byte counters of one peer may change freely, except
      that an unchoked peer stays interested and a choking one owes nothing. */
  lemma EditFlagsKeeps(m: Meta, s: State, log: set<Delivery>, idx: nat, p: Peer)
    requires Inv(m, s, log) && idx < |s.peers|
    requires var q := s.peers[idx];
      p.id == q.id && p.dest == q.dest && p.has == q.has && p.inFlight == q.inFlight && (p.weChoke || !q.weChoke)
    requires PeerOk(s.picker, p)
    ensures Inv(m, SetPeer(s, idx, p), log)
  {
    EditCounts(s.peers, idx, p);
  }

  /** What a state says besides its peers, accounting and files is free. */
  ghost predicate SameCore(s: State, t: State) {
    && s.picker == t.picker && s.peers == t.peers && s.nextId == t.nextId && s.slots == t.slots
    && s.suppliers == t.suppliers && s.disk == t.disk
  }

  lemma SameCoreKeeps(m: Meta, s: State, t: State, log: set<Delivery>)
    requires Inv(m, s, log) && SameCore(s, t)
    ensures Inv(m, t, log)
  {}

  // ----- requesting

  lemma AskedKeys(inFlight: map<Block, nat>, blocks: seq<Block>, now: nat)
    ensures Asked(inFlight, blocks, now).Keys == inFlight.Keys + BlockSet(blocks)
    ensures |Asked(inFlight, blocks, now)| <= |inFlight| + |blocks|
  {
    var r := Asked(inFlight, blocks, now);
    assert r.Keys == inFlight.Keys + BlockSet(blocks);
    SetNoBigger(blocks);
    assert |r| == |r.Keys| && |inFlight| == |inFlight.Keys|;
  }

  lemma {:induction false} SetNoBigger(blocks: seq<Block>)
    ensures |BlockSet(blocks)| <= |blocks|
  {
    if blocks == [] {
      assert BlockSet(blocks) == {};
    } else {
      var init := blocks[..|blocks| - 1];
      SetNoBigger(init);
      assert blocks == init + [blocks[|blocks| - 1]];
      assert BlockSet(blocks) == BlockSet(init) + {blocks[|blocks| - 1]};
    }
  }

  /** The picker after a refill: one more count for exactly the blocks the peer
      did not owe already. */
  lemma RefillPicker(pk: Picker, has: set<nat>, owed: map<Block, nat>, space: nat)
    requires pk.Valid()
    ensures var blocks := pk.PickBlocks(has, space);
      var pk' := pk.AfterPick(has, space).Release(Again(owed, blocks));
      && pk'.Valid() && pk' == pk.(progress := pk'.progress)
      && (forall b: Block :: pk'.Received(b) == pk.Received(b))
      && (forall b: Block :: pk'.InFlight(b) == pk.InFlight(b) + (if b in blocks && b !in owed then 1 else 0))
  {
    var blocks := pk.PickBlocks(has, space);
    AfterPickEffect(pk, has, space);
    ReleaseEffect(pk.AfterPick(has, space), Again(owed, blocks));
  }

  function One(yes: bool): nat { if yes then 1 else 0 }

  /** One peer's debts and the picker's counts move together. */
  lemma DebtsMoveTogether(m: Meta, s: State, log: set<Delivery>, idx: nat, p: Peer, pk: Picker)
    requires Inv(m, s, log) && idx < |s.peers|
    requires pk.Valid() && pk == s.picker.(progress := pk.progress)
    requires forall b: Block :: pk.Received(b) == s.picker.Received(b)
    requires forall b: Block ::
      pk.InFlight(b) + One(b in s.peers[idx].inFlight) == s.picker.InFlight(b) + One(b in p.inFlight)
    requires var q := s.peers[idx]; p.id == q.id && p.dest == q.dest && p.has == q.has && p.weChoke == q.weChoke
    requires PeerOk(pk, p)
    ensures Inv(m, s.(picker := pk, peers := s.peers[idx := p]), log)
  {
    hide PeerOk, Counting.Count, Picker.Valid, Picker.Received, Picker.InFlight, WitnessedBlock, Verified;
    FlightMoves(s.picker, pk, s.peers, idx, p);
    PeersStayOk(s.picker, pk, s.peers, idx, p);
    TablesEdited(s, pk, idx, p);
  }

  lemma FlightMoves(pk: Picker, pk': Picker, peers: seq<Peer>, idx: nat, p: Peer)
    requires FlightExact(pk, peers) && idx < |peers|
    requires forall b: Block ::
      pk'.InFlight(b) + One(b in peers[idx].inFlight) == pk.InFlight(b) + One(b in p.inFlight)
    ensures FlightExact(pk', peers[idx := p])
  {
    forall b: Block ensures pk'.InFlight(b) == Counting.Count(peers[idx := p], Owes(b)) {
      Counting.CountUpdate(peers, Owes(b), idx, p);
    }
  }

  lemma PeersStayOk(pk: Picker, pk': Picker, peers: seq<Peer>, idx: nat, p: Peer)
    requires PeersOk(pk, peers) && idx < |peers| && PeerOk(pk', p)
    requires pk'.geo == pk.geo && pk'.have == pk.have
    requires forall b: Block :: pk'.Received(b) == pk.Received(b)
    ensures PeersOk(pk', peers[idx := p])
  {
    var peers' := peers[idx := p];
    forall k | 0 <= k < |peers'| ensures PeerOk(pk', peers'[k]) {
      if k != idx { StaysOk(pk, pk', peers[k]); }
    }
  }

  /** An entry that keeps its identity and piece set leaves the tables about
      those alone. */
  lemma TablesEdited(s: State, pk: Picker, idx: nat, p: Peer)
    requires idx < |s.peers|
    requires IdsOk(s.peers, s.nextId) && DestsOk(s.peers) && AvailabilityExact(s.picker, s.peers)
    requires Counting.Count(s.peers, Unchoked()) <= s.slots
    requires pk.availability == s.picker.availability
    requires var q := s.peers[idx]; p.id == q.id && p.dest == q.dest && p.has == q.has && (p.weChoke || !q.weChoke)
    ensures IdsOk(s.peers[idx := p], s.nextId) && DestsOk(s.peers[idx := p]) && AvailabilityExact(pk, s.peers[idx := p])
    ensures Counting.Count(s.peers[idx := p], Unchoked()) <= s.slots
  {
    EditCounts(s.peers, idx, p);
    OwnersEdited(s, idx, p);
  }

  lemma OwnersEdited(s: State, idx: nat, p: Peer)
    requires idx < |s.peers|
    requires IdsOk(s.peers, s.nextId) && DestsOk(s.peers) && Counting.Count(s.peers, Unchoked()) <= s.slots
    requires var q := s.peers[idx]; p.id == q.id && p.dest == q.dest && (p.weChoke || !q.weChoke)
    ensures IdsOk(s.peers[idx := p], s.nextId) && DestsOk(s.peers[idx := p])
    ensures Counting.Count(s.peers[idx := p], Unchoked()) <= s.slots
  {
    EditCounts(s.peers, idx, p);
  }

  lemma FillRequestsKeeps(m: Meta, s: State, log: set<Delivery>, idx: nat, now: nat)
    requires Inv(m, s, log) && idx < |s.peers|
    ensures Inv(m, FillRequests(s, idx, now).state, log)
  {
    var p := s.peers[idx];
    var space := SatSub(PIPELINE_DEPTH, |p.inFlight|);
    if !(p.peerChoking || !p.weInterested || space == 0) {
      var t := FillRequests(s, idx, now).state;
      assert PeerOk(s.picker, p);
      RefillPicker(s.picker, p.has, p.inFlight, space);
      RefillDebts(s.picker, t.picker, p, space, now);
      AskedPeerOk(s.picker, t.picker, p, space, now);
      DebtsMoveTogether(m, s, log, idx, t.peers[idx], t.picker);
    }
  }

  lemma RefillDebts(pk: Picker, pk': Picker, p: Peer, space: nat, now: nat)
    requires var blocks := pk.PickBlocks(p.has, space);
      forall b: Block :: pk'.InFlight(b) == pk.InFlight(b) + (if b in blocks && b !in p.inFlight then 1 else 0)
    ensures var after := Asked(p.inFlight, pk.PickBlocks(p.has, space), now);
      forall b: Block :: pk'.InFlight(b) + One(b in p.inFlight) == pk.InFlight(b) + One(b in after)
  {}

  lemma AskedPeerOk(pk: Picker, pk': Picker, p: Peer, space: nat, now: nat)
    requires pk.Valid() && pk' == pk.(progress := pk'.progress) && PeerOk(pk, p)
    requires forall b: Block :: pk'.Received(b) == pk.Received(b)
    requires !p.peerChoking && |p.inFlight| + space <= PIPELINE_DEPTH
    ensures PeerOk(pk', p.(inFlight := Asked(p.inFlight, pk.PickBlocks(p.has, space), now)))
  {
    var blocks := pk.PickBlocks(p.has, space);
    PickHandsOutTheBest(pk, p.has, space);
    AskedKeys(p.inFlight, blocks, now);
    forall b | b in Asked(p.inFlight, blocks, now) ensures Askable(pk', p.has, b) {
      if b in p.inFlight { assert Askable(pk, p.has, b); }
    }
  }

  /** A peer stays fine under a picker that holds and has received the same. */
  lemma StaysOk(pk: Picker, pk': Picker, p: Peer)
    requires PeerOk(pk, p) && pk'.geo == pk.geo
    requires forall b :: b in p.inFlight ==> (b.0 in pk'.have <==> b.0 in pk.have) && (pk'.Received(b) <==> pk.Received(b))
    ensures PeerOk(pk', p)
  {
    forall b | b in p.inFlight ensures Askable(pk', p.has, b) {
      assert Askable(pk, p.has, b);
    }
  }

  lemma InterestIsFree(m: Meta, s: State, log: set<Delivery>, idx: nat)
    requires Inv(m, s, log) && idx < |s.peers|
    ensures PeerOk(s.picker, s.peers[idx].(weInterested := true)) && PeerOk(s.picker, s.peers[idx].(weInterested := false))
  {
    assert PeerOk(s.picker, s.peers[idx]);
  }

  lemma UpdateInterestKeeps(m: Meta, s: State, log: set<Delivery>, idx: nat, now: nat)
    requires Inv(m, s, log) && idx < |s.peers|
    ensures Inv(m, UpdateInterest(s, idx, now).state, log)
  {
    var p := s.peers[idx];
    var yes, no := p.(weInterested := true), p.(weInterested := false);
    hide Inv, FillRequests, Interesting;
    InterestIsFree(m, s, log, idx);
    EditFlagsKeeps(m, s, log, idx, yes);
    EditFlagsKeeps(m, s, log, idx, no);
    FillRequestsKeeps(m, SetPeer(s, idx, yes), log, idx, now);
  }

  // ----- giving blocks back

  /** Some of what a peer owes goes back to the picker. */
  lemma GiveBackKeeps(m: Meta, s: State, log: set<Delivery>, idx: nat, late: set<Block>, p: Peer)
    requires Inv(m, s, log) && idx < |s.peers|
    requires late <= s.peers[idx].inFlight.Keys
    requires p.inFlight == s.peers[idx].inFlight - late
    requires var q := s.peers[idx]; p == q.(inFlight := p.inFlight, strikes := p.strikes, peerChoking := p.peerChoking)
    requires p.peerChoking ==> p.inFlight == map[]
    requires !p.hasOpened ==> p.peerChoking
    ensures Inv(m, SetPeer(s, idx, p).(picker := s.picker.Release(late)), log)
  {
    var q, pk := s.peers[idx], s.picker.Release(late);
    ReleaseEffect(s.picker, late);
    assert PeerOk(s.picker, q);
    ReleaseDebts(s.picker, s.peers, idx, late, p);
    FewerDebtsOk(s.picker, pk, q, p);
    DebtsMoveTogether(m, s, log, idx, p, pk);
  }

  lemma FewerDebtsOk(pk: Picker, pk': Picker, q: Peer, p: Peer)
    requires PeerOk(pk, q) && pk'.geo == pk.geo && pk'.have == pk.have
    requires forall b: Block :: pk'.Received(b) == pk.Received(b)
    requires p == q.(inFlight := p.inFlight, strikes := p.strikes, peerChoking := p.peerChoking)
    requires p.inFlight.Keys <= q.inFlight.Keys
    requires p.peerChoking ==> p.inFlight == map[]
    requires !p.hasOpened ==> p.peerChoking
    ensures PeerOk(pk', p)
  {
    SmallerMap(p.inFlight, q.inFlight);
    forall b | b in p.inFlight ensures Askable(pk', p.has, b) {
      assert b in q.inFlight && Askable(pk, q.has, b);
    }
  }

  lemma ReleaseDebts(pk: Picker, peers: seq<Peer>, idx: nat, late: set<Block>, p: Peer)
    requires pk.Valid() && FlightExact(pk, peers) && idx < |peers|
    requires late <= peers[idx].inFlight.Keys && p.inFlight == peers[idx].inFlight - late
    ensures forall b: Block ::
      pk.Release(late).InFlight(b) + One(b in peers[idx].inFlight) == pk.InFlight(b) + One(b in p.inFlight)
  {
    ReleaseEffect(pk, late);
    forall b: Block
      ensures pk.Release(late).InFlight(b) + One(b in peers[idx].inFlight) == pk.InFlight(b) + One(b in p.inFlight)
    {
      if b in late { OwedIsCounted(pk, peers, idx, b); }
    }
  }

  /** A block somebody owes has a count of at least one. */
  lemma OwedIsCounted(pk: Picker, peers: seq<Peer>, idx: nat, b: Block)
    requires FlightExact(pk, peers) && idx < |peers| && b in peers[idx].inFlight
    ensures pk.InFlight(b) > 0
  {
    Counting.CountZero(peers, Owes(b));
    assert Owes(b)(peers[idx]);
  }

  lemma SmallerMap<K, V>(a: map<K, V>, b: map<K, V>)
    requires a.Keys <= b.Keys
    ensures |a| <= |b|
  {
    assert |a| == |a.Keys| && |b| == |b.Keys|;
    SmallerSet(a.Keys, b.Keys);
  }

  lemma SmallerSet<T>(a: set<T>, b: set<T>)
    requires a <= b
    ensures |a| <= |b|
  {
    assert b == a + (b - a);
  }
}
