// Each handler of the engine keeps the invariant.
module EngineSteps {
  import opened Prelude
  import opened Wire
  import opened PickerSpec
  import opened PickerTheory
  import opened DiskSpec
  import opened EngineSpec
  import opened EngineInvariant
  import ChokerSpec
  import Bitfields
  import Counting
  import Sorting

  // ----- choke from a peer

  lemma EditTwice<T>(s: seq<T>, idx: nat, a: T, b: T)
    requires idx < |s|
    ensures s[idx := a][idx := b] == s[idx := b]
  {}

  lemma ChokedKeeps(m: Meta, s: State, log: set<Delivery>, idx: nat)
    requires Inv(m, s, log) && idx < |s.peers|
    ensures Inv(m, ReleaseAll(SetPeer(s, idx, s.peers[idx].(peerChoking := true)), idx), log)
  {
    var q := s.peers[idx];
    var p := q.(peerChoking := true, inFlight := map[]);
    assert q.inFlight - q.inFlight.Keys == map[];
    EditTwice(s.peers, idx, q.(peerChoking := true), p);
    GiveBackKeeps(m, s, log, idx, q.inFlight.Keys, p);
    assert ReleaseAll(SetPeer(s, idx, q.(peerChoking := true)), idx) ==
      SetPeer(s, idx, p).(picker := s.picker.Release(q.inFlight.Keys));
  }

  // ----- piece sets

  /** A peer comes to have more pieces, and each is counted once. */
  lemma PieceSetGrows(m: Meta, s: State, log: set<Delivery>, idx: nat, has: set<nat>, pk: Picker)
    requires Inv(m, s, log) && idx < |s.peers| && s.peers[idx].hasOpened
    requires s.peers[idx].has <= has && (forall i :: i in has ==> i < m.geo.numPieces)
    requires pk == s.picker.(availability := pk.availability) && |pk.availability| == |s.picker.availability|
    requires forall i :: 0 <= i < |pk.availability| ==>
      pk.availability[i] == s.picker.availability[i] + One(i in has && i !in s.peers[idx].has)
    ensures Inv(m, SetPeer(s, idx, s.peers[idx].(has := has)).(picker := pk), log)
  {
    hide PeersOk, FlightExact, AvailabilityExact, DestsOk, IdsOk, SuppliersExact, Witnessed, HeldVerified;
    var p := s.peers[idx].(has := has);
    var t := SetPeer(s, idx, p).(picker := pk);
    SameTablesSameMissing(s.picker, pk);
    GrownPeerOk(s.picker, pk, s.peers, idx, has);
    PeersStayOk(s.picker, pk, s.peers, idx, p);
    AvailabilityGrows(s.picker, pk, s.peers, idx, p);
    FlightMoves(s.picker, pk, s.peers, idx, p);
    OwnersEdited(s, idx, p);
    SameCoverage(m, s, t, log);
  }

  lemma GrownPeerOk(pk: Picker, pk': Picker, peers: seq<Peer>, idx: nat, has: set<nat>)
    requires PeersOk(pk, peers) && idx < |peers| && peers[idx].hasOpened
    requires peers[idx].has <= has && forall i :: i in has ==> i < pk.geo.numPieces
    requires pk' == pk.(availability := pk'.availability)
    ensures PeerOk(pk', peers[idx].(has := has))
    ensures forall b: Block :: pk'.InFlight(b) == pk.InFlight(b) && pk'.Received(b) == pk.Received(b)
  {
    var q := peers[idx];
    forall b | b in q.inFlight ensures Askable(pk', has, b) { assert Askable(pk, q.has, b); }
  }

  /** Blame and disk facts depend on files, suppliers and the held and received
      sets only. */
  lemma SameCoverage(m: Meta, s: State, t: State, log: set<Delivery>)
    requires t.disk == s.disk && t.suppliers == s.suppliers
    requires t.picker.have == s.picker.have && t.picker.progress == s.picker.progress
    ensures Witnessed(m, s, log) ==> Witnessed(m, t, log)
    ensures HeldVerified(m, s.picker.have, s.disk) ==> HeldVerified(m, t.picker.have, t.disk)
    ensures SuppliersExact(s.picker, s.suppliers) ==> SuppliersExact(t.picker, t.suppliers)
  {
    if SuppliersExact(s.picker, s.suppliers) {
      forall b: Block ensures b in t.suppliers <==> t.picker.Received(b) {
        assert s.picker.Received(b) <==> t.picker.Received(b);
      }
    }
  }

  lemma AvailabilityGrows(pk: Picker, pk': Picker, peers: seq<Peer>, idx: nat, p: Peer)
    requires AvailabilityExact(pk, peers) && idx < |peers| && peers[idx].has <= p.has
    requires |pk'.availability| == |pk.availability|
    requires forall i :: 0 <= i < |pk'.availability| ==>
      pk'.availability[i] == pk.availability[i] + One(i in p.has && i !in peers[idx].has)
    ensures AvailabilityExact(pk', peers[idx := p])
  {
    forall i | 0 <= i < |pk'.availability| ensures pk'.availability[i] == Counting.Count(peers[idx := p], Holds(i)) {
      Counting.CountUpdate(peers, Holds(i), idx, p);
    }
  }

  lemma HaveKeeps(m: Meta, s: State, log: set<Delivery>, idx: nat, piece: nat)
    requires Inv(m, s, log) && idx < |s.peers| && s.peers[idx].hasOpened
    requires piece < m.geo.numPieces && piece !in s.peers[idx].has
    ensures Inv(m, SetPeer(s, idx, s.peers[idx].(has := s.peers[idx].has + {piece}))
                     .(picker := s.picker.AddSingle(piece)), log)
  {
    PieceSetGrows(m, s, log, idx, s.peers[idx].has + {piece}, s.picker.AddSingle(piece));
  }

  lemma ReplaceKeeps(m: Meta, s: State, log: set<Delivery>, idx: nat, field: set<nat>)
    requires Inv(m, s, log) && idx < |s.peers| && s.peers[idx].hasOpened && s.peers[idx].has == {}
    requires forall i :: i in field ==> i < m.geo.numPieces
    ensures Inv(m, ReplacePieceSet(s, idx, field), log)
  {
    assert Lowered(s.picker.availability, {}) == s.picker.availability;
    PieceSetGrows(m, s, log, idx, field, s.picker.RemoveBitfield({}).AddBitfield(field));
  }

  // ----- joining and leaving

  lemma RegisterKeeps(m: Meta, s: State, log: set<Delivery>, dest: Dest, fast: bool)
    requires Inv(m, s, log)
    ensures Inv(m, RegisterPeer(s, dest, fast), log)
  {
    if !Refused(s, dest) {
      var p := NewPeer(s, dest, fast);
      var t := RegisterPeer(s, dest, fast);
      PushCounts(s.peers, p);
      assert PeerOk(s.picker, p);
      assert DestsOk(t.peers) by {
        forall d ensures Counting.Count(t.peers, From(d)) <= MAX_CONNECTIONS_PER_DEST {
          Counting.CountPush(s.peers, From(d), p);
        }
      }
      assert IdsOk(t.peers, t.nextId);
    }
  }

  /** A newcomer has nothing, owes nothing and is choked. */
  lemma PushCounts(peers: seq<Peer>, p: Peer)
    requires p.has == {} && p.inFlight == map[] && p.weChoke
    ensures forall i: nat :: Counting.Count(peers + [p], Holds(i)) == Counting.Count(peers, Holds(i))
    ensures forall b: Block :: Counting.Count(peers + [p], Owes(b)) == Counting.Count(peers, Owes(b))
    ensures Counting.Count(peers + [p], Unchoked()) == Counting.Count(peers, Unchoked())
  {
    forall i: nat ensures Counting.Count(peers + [p], Holds(i)) == Counting.Count(peers, Holds(i)) {
      Counting.CountPush(peers, Holds(i), p);
    }
    forall b: Block ensures Counting.Count(peers + [p], Owes(b)) == Counting.Count(peers, Owes(b)) {
      Counting.CountPush(peers, Owes(b), p);
    }
    Counting.CountPush(peers, Unchoked(), p);
  }

  lemma RemoveKeeps(m: Meta, s: State, log: set<Delivery>, id: nat)
    requires Inv(m, s, log)
    ensures Inv(m, RemovePeer(s, id), log)
  {
    hide PeerOk, Counting.Count, Picker.Valid, Picker.Received, Picker.InFlight, WitnessedBlock, Verified;
    hide Counting.SwapRemove, Picker.RemoveBitfield, Picker.Release;
    var found := Find(s.peers, id);
    if found.Some? {
      var k, t := found.value, RemovePeer(s, id);
      RemovePicker(s.picker, s.peers[k].has, s.peers[k].inFlight.Keys);
      RemoveAvailability(s.picker, s.peers, k);
      RemoveFlight(s.picker, s.peers, k);
      RemoveRest(s, t.picker, k);
    }
  }

  lemma RemovePicker(pk: Picker, has: set<nat>, owed: set<Block>)
    requires pk.Valid()
    ensures var r := pk.RemoveBitfield(has).Release(owed);
      && r.Valid() && r.geo == pk.geo && r.have == pk.have
      && |r.availability| == |pk.availability| && r.availability == pk.RemoveBitfield(has).availability
      && forall b: Block :: r.Received(b) == pk.Received(b)
  {
    AvailabilityKeepsValid(pk, has);
    ReleaseEffect(pk.RemoveBitfield(has), owed);
    assert forall b: Block :: pk.RemoveBitfield(has).Received(b) == pk.Received(b);
  }

  lemma RemoveAvailability(pk: Picker, peers: seq<Peer>, k: nat)
    requires AvailabilityExact(pk, peers) && k < |peers|
    ensures AvailabilityExact(pk.RemoveBitfield(peers[k].has), Counting.SwapRemove(peers, k))
  {
    var pk' := pk.RemoveBitfield(peers[k].has);
    forall i | 0 <= i < |pk'.availability|
      ensures pk'.availability[i] == Counting.Count(Counting.SwapRemove(peers, k), Holds(i))
    {
      Counting.CountSwapRemove(peers, Holds(i), k);
    }
  }

  lemma RemoveFlight(pk: Picker, peers: seq<Peer>, k: nat)
    requires pk.Valid() && FlightExact(pk, peers) && k < |peers|
    ensures FlightExact(pk.RemoveBitfield(peers[k].has).Release(peers[k].inFlight.Keys), Counting.SwapRemove(peers, k))
  {
    var pk1 := pk.RemoveBitfield(peers[k].has);
    AvailabilityKeepsValid(pk, peers[k].has);
    ReleaseEffect(pk1, peers[k].inFlight.Keys);
    forall b: Block
      ensures pk1.Release(peers[k].inFlight.Keys).InFlight(b) == Counting.Count(Counting.SwapRemove(peers, k), Owes(b))
    {
      assert pk1.InFlight(b) == pk.InFlight(b);
      Counting.CountSwapRemove(peers, Owes(b), k);
    }
  }

  lemma RemoveRest(s: State, pk: Picker, k: nat)
    requires k < |s.peers| && pk.geo == s.picker.geo && pk.have == s.picker.have
    requires forall b: Block :: pk.Received(b) == s.picker.Received(b)
    requires IdsOk(s.peers, s.nextId) && DestsOk(s.peers) && PeersOk(s.picker, s.peers)
    requires Counting.Count(s.peers, Unchoked()) <= s.slots
    ensures var peers := Counting.SwapRemove(s.peers, k);
      && IdsOk(peers, s.nextId) && DestsOk(peers) && PeersOk(pk, peers)
      && Counting.Count(peers, Unchoked()) <= s.slots
  {
    hide PeerOk;
    Counting.CountSwapRemove(s.peers, Unchoked(), k);
    RemoveDests(s.peers, k);
    RemovePeersOk(s.picker, pk, s.peers, k);
  }

  lemma RemoveDests(peers: seq<Peer>, k: nat)
    requires k < |peers| && DestsOk(peers)
    ensures DestsOk(Counting.SwapRemove(peers, k))
  {
    forall d ensures Counting.Count(Counting.SwapRemove(peers, k), From(d)) <= MAX_CONNECTIONS_PER_DEST {
      Counting.CountSwapRemove(peers, From(d), k);
    }
  }

  lemma RemovePeersOk(pk: Picker, pk': Picker, peers: seq<Peer>, k: nat)
    requires k < |peers| && PeersOk(pk, peers) && pk'.geo == pk.geo && pk'.have == pk.have
    requires forall b: Block :: pk'.Received(b) == pk.Received(b)
    ensures PeersOk(pk', Counting.SwapRemove(peers, k))
  {
    hide PeerOk;
    var rest := Counting.SwapRemove(peers, k);
    forall j | 0 <= j < |rest| ensures PeerOk(pk', rest[j]) {
      assert PeerOk(pk, peers[if j == k then |peers| - 1 else j]);
      StaysOk(pk, pk', rest[j]);
    }
  }

  // ----- settings

  /** The picker's preferences may change freely. */
  lemma RetuneKeeps(m: Meta, s: State, log: set<Delivery>, pk: Picker)
    requires Inv(m, s, log) && pk.Valid()
    requires pk == s.picker.(mode := pk.mode, priority := pk.priority, missingWanted := pk.missingWanted)
    ensures Inv(m, s.(picker := pk), log)
  {
    forall k | 0 <= k < |s.peers| ensures PeerOk(pk, s.peers[k]) {
      StaysOk(s.picker, pk, s.peers[k]);
    }
    forall b: Block ensures pk.InFlight(b) == Counting.Count(s.peers, Owes(b)) {
      assert pk.InFlight(b) == s.picker.InFlight(b);
    }
    forall b: Block ensures b in s.suppliers <==> pk.Received(b) {
      assert pk.Received(b) <==> s.picker.Received(b);
    }
  }

  // ----- the choke round

  /** A flag set by id reaches exactly the peer named. */
  lemma SetChokeEffect(s: State, id: nat, choke: bool)
    requires IdsOk(s.peers, s.nextId)
    ensures var t := SetChoke(s, id, choke).state;
      && t == s.(peers := t.peers) && |t.peers| == |s.peers|
      && forall k :: 0 <= k < |s.peers| ==>
           t.peers[k] == s.peers[k].(weChoke := if s.peers[k].id == id then choke else s.peers[k].weChoke)
  {}

  ghost predicate FlagsSet(peers: seq<Peer>, peers': seq<Peer>, ids: seq<nat>, choke: bool) {
    && |peers'| == |peers|
    && forall k :: 0 <= k < |peers| ==>
         peers'[k] == peers[k].(weChoke := if peers[k].id in ids then choke else peers[k].weChoke)
  }

  lemma {:induction false} SetChokesEffect(s: State, ids: seq<nat>, choke: bool)
    requires IdsOk(s.peers, s.nextId)
    ensures var t := SetChokes(s, ids, choke).state; t == s.(peers := t.peers) && FlagsSet(s.peers, t.peers, ids, choke)
  {
    if ids != [] {
      var init, last := ids[..|ids| - 1], ids[|ids| - 1];
      SetChokesEffect(s, init, choke);
      var mid := SetChokes(s, init, choke).state;
      FlagsKeepIds(s.peers, mid.peers, init, choke, s.nextId);
      SetChokeEffect(mid, last, choke);
      var t := SetChoke(mid, last, choke).state;
      assert ids == init + [last];
      assert FlagsSet(s.peers, t.peers, ids, choke);
    }
  }

  lemma FlagsKeepIds(peers: seq<Peer>, peers': seq<Peer>, ids: seq<nat>, choke: bool, nextId: nat)
    requires IdsOk(peers, nextId) && FlagsSet(peers, peers', ids, choke)
    ensures IdsOk(peers', nextId)
  {}

  /** What a round does to the peer table: exactly the chosen are unchoked. */
  ghost predicate RoundApplied(peers: seq<Peer>, peers': seq<Peer>, chosen: seq<nat>) {
    && |peers'| == |peers|
    && forall k :: 0 <= k < |peers| ==>
         peers'[k] == peers[k].(uploadedAtRound := peers[k].uploaded, downloadedAtRound := peers[k].downloaded,
                                weChoke := peers[k].id !in chosen)
  }

  lemma RunChokerEffect(s: State)
    requires IdsOk(s.peers, s.nextId)
    ensures var t := RunChoker(s).state;
      && t == s.(peers := t.peers, round := s.round + 1)
      && RoundApplied(s.peers, t.peers, ChokerSpec.Chosen(s.slots, s.round + 1, Snapshots(s)))
  {
    hide ChokerSpec.Chosen;
    var shots := Snapshots(s);
    var chosen := ChokerSpec.Chosen(s.slots, s.round + 1, shots);
    var d := ChokerSpec.Decide(chosen, shots);
    var s1 := s.(peers := Ranked(s.peers), round := s.round + 1);
    assert IdsOk(s1.peers, s1.nextId);
    SetChokesEffect(s1, d.unchoke, false);
    var s2 := SetChokes(s1, d.unchoke, false).state;
    FlagsKeepIds(s1.peers, s2.peers, d.unchoke, false, s.nextId);
    SetChokesEffect(s2, d.choke, true);
    var t := RunChoker(s).state;
    assert t == SetChokes(s2, d.choke, true).state;
    RealisesOnPeers(s, chosen, s1.peers, s2.peers, t.peers);
  }

  lemma RealisesOnPeers(s: State, chosen: seq<nat>, peers1: seq<Peer>, peers2: seq<Peer>, peers3: seq<Peer>)
    requires IdsOk(s.peers, s.nextId) && peers1 == Ranked(s.peers)
    requires var d := ChokerSpec.Decide(chosen, Snapshots(s));
      FlagsSet(peers1, peers2, d.unchoke, false) && FlagsSet(peers2, peers3, d.choke, true)
    ensures RoundApplied(s.peers, peers3, chosen)
  {
    var shots := Snapshots(s);
    assert ChokerSpec.DistinctIds(shots);
    ChokerSpec.DecisionRealisesTheChoice(chosen, shots);
    var d := ChokerSpec.Decide(chosen, shots);
    forall k | 0 <= k < |s.peers|
      ensures peers3[k] == peers1[k].(weChoke := s.peers[k].id !in chosen)
    {
      assert shots[k] in shots && shots[k].id == s.peers[k].id;
      assert ChokerSpec.UnchokedAfter(d, shots[k]) <==> s.peers[k].id in chosen;
    }
  }

  lemma RunChokerKeeps(m: Meta, s: State, log: set<Delivery>)
    requires Inv(m, s, log)
    ensures Inv(m, RunChoker(s).state, log)
  {
    hide PeerOk, RunChoker, ChokerSpec.Chosen, Picker.Valid, Witnessed, HeldVerified, SuppliersExact;
    var t := RunChoker(s).state;
    RunChokerEffect(s);
    SameOwners(s.peers, t.peers);
    ChosenFit(s);
    SameCoverage(m, s, t, log);
    forall k | 0 <= k < |t.peers| ensures PeerOk(t.picker, t.peers[k]) {
      assert PeerOk(s.picker, s.peers[k]);
      FlagsOk(s.picker, s.peers[k], t.peers[k]);
    }
  }

  lemma FlagsOk(pk: Picker, p: Peer, p': Peer)
    requires PeerOk(pk, p)
    requires p' == p.(weChoke := p'.weChoke, uploadedAtRound := p'.uploadedAtRound, downloadedAtRound := p'.downloadedAtRound)
    requires !p'.weChoke ==> p'.theyInterested
    ensures PeerOk(pk, p')
  {}

  /** Tables that agree on identity, piece sets and debts count the same. */
  lemma SameOwners(peers: seq<Peer>, peers': seq<Peer>)
    requires |peers| == |peers'|
    requires forall k :: 0 <= k < |peers| ==>
      peers'[k].dest == peers[k].dest && peers'[k].has == peers[k].has && peers'[k].inFlight == peers[k].inFlight
    ensures forall i: nat :: Counting.Count(peers', Holds(i)) == Counting.Count(peers, Holds(i))
    ensures forall b: Block :: Counting.Count(peers', Owes(b)) == Counting.Count(peers, Owes(b))
    ensures forall d: Dest :: Counting.Count(peers', From(d)) == Counting.Count(peers, From(d))
  {
    forall i: nat ensures Counting.Count(peers', Holds(i)) == Counting.Count(peers, Holds(i)) {
      Counting.CountSame(peers', Holds(i), peers, Holds(i));
    }
    forall b: Block ensures Counting.Count(peers', Owes(b)) == Counting.Count(peers, Owes(b)) {
      Counting.CountSame(peers', Owes(b), peers, Owes(b));
    }
    forall d: Dest ensures Counting.Count(peers', From(d)) == Counting.Count(peers, From(d)) {
      Counting.CountSame(peers', From(d), peers, From(d));
    }
  }

  /** After a round the unchoked peers fit the slots and are interested. */
  lemma ChosenFit(s: State)
    requires IdsOk(s.peers, s.nextId) && s.slots > 0
    ensures var t := RunChoker(s).state;
      && Counting.Count(t.peers, Unchoked()) <= s.slots
      && forall k :: 0 <= k < |t.peers| && !t.peers[k].weChoke ==> t.peers[k].theyInterested
  {
    hide ChokerSpec.Chosen, RunChoker;
    var t, shots := RunChoker(s).state, Snapshots(s);
    var chosen := ChokerSpec.Chosen(s.slots, s.round + 1, shots);
    RunChokerEffect(s);
    assert ChokerSpec.DistinctIds(shots);
    ChokerSpec.ChosenFitsTheSlots(s.slots, s.round + 1, shots);
    IdSetNoBigger(chosen);
    Counting.CountKeys(t.peers, Unchoked(), IdOf(), Counting.IdSet(chosen));
    forall k | 0 <= k < |t.peers| && !t.peers[k].weChoke ensures t.peers[k].theyInterested {
      assert s.peers[k].id in chosen;
      ChosenIsInterested(s, chosen, k);
    }
  }

  lemma ChosenIsInterested(s: State, chosen: seq<nat>, k: nat)
    requires IdsOk(s.peers, s.nextId) && k < |s.peers|
    requires exists p :: p in Snapshots(s) && p.interested && p.id == s.peers[k].id
    ensures s.peers[k].theyInterested
  {
    var p :| p in Snapshots(s) && p.interested && p.id == s.peers[k].id;
    var j :| 0 <= j < |Snapshots(s)| && Snapshots(s)[j] == p;
    assert s.peers[j].id == s.peers[k].id;
  }

  lemma {:induction false} IdSetNoBigger(xs: seq<nat>)
    ensures |Counting.IdSet(xs)| <= |xs|
  {
    if xs == [] {
      assert Counting.IdSet(xs) == {};
    } else {
      var init, last := xs[..|xs| - 1], xs[|xs| - 1];
      IdSetNoBigger(init);
      assert xs == init + [last];
      assert Counting.IdSet(xs) == Counting.IdSet(init) + {last};
    }
  }

  lemma ChokeRoundKeeps(m: Meta, s: State, log: set<Delivery>, now: nat)
    requires Inv(m, s, log)
    ensures Inv(m, ChokeRoundIfDue(s, now).state, log)
  {
    SameCoreKeeps(m, s, s.(lastChokeRound := now), log);
    RunChokerKeeps(m, s.(lastChokeRound := now), log);
  }

  // ----- the maintenance tick

  lemma PeerFlags(m: Meta, s: State, log: set<Delivery>, idx: nat)
    requires Inv(m, s, log) && idx < |s.peers|
    ensures var p := s.peers[idx];
      && (p.peerChoking ==> p.inFlight == map[])
      && (!p.hasOpened ==> p.has == {} && p.peerChoking)
      && (!p.weChoke ==> p.theyInterested)
  {
    assert PeerOk(s.picker, s.peers[idx]);
  }

  lemma MaintainPeerKeeps(m: Meta, s: State, log: set<Delivery>, idx: nat, now: nat)
    requires Inv(m, s, log) && idx < |s.peers|
    ensures Inv(m, MaintainPeer(s, idx, now).state, log)
  {
    hide Inv, FillRequests;
    var p, late := s.peers[idx], Expired(s, s.peers[idx], now);
    if late == {} {
      FillRequestsKeeps(m, s, log, idx, now);
    } else {
      var p' := p.(inFlight := p.inFlight - late, strikes := p.strikes + 1);
      PeerFlags(m, s, log, idx);
      GiveBackKeeps(m, s, log, idx, late, p');
      FillRequestsKeeps(m, SetPeer(s, idx, p').(picker := s.picker.Release(late)), log, idx, now);
    }
  }

  lemma {:induction false} MaintainKeeps(m: Meta, s: State, log: set<Delivery>, now: nat, k: nat)
    requires Inv(m, s, log)
    ensures Inv(m, MaintainBelow(s, now, k).state, log)
  {
    hide Inv, MaintainPeer;
    if k > 0 {
      MaintainKeeps(m, s, log, now, k - 1);
      var t := MaintainBelow(s, now, k - 1);
      if k - 1 < |t.state.peers| { MaintainPeerKeeps(m, t.state, log, k - 1, now); }
    }
  }
}
