// A block arriving: writing it, settling everyone who owes it, judging the
// piece it completes. The longest handler, and the one that touches every table.
module EngineDelivery {
  import opened Prelude
  import opened Wire
  import opened PickerSpec
  import opened PickerTheory
  import opened DiskSpec
  import opened EngineSpec
  import opened EngineInvariant
  import opened EngineSteps
  import Counting

  // ----- the disk

  /** Writing inside one block disturbs no other block and no other piece. */
  lemma WriteInsideBlock(m: Meta, disk: seq<Cell>, b: Block, data: seq<byte>)
    requires m.Valid() && |disk| == m.geo.totalLength && m.geo.InRange(b) && |data| <= m.geo.BlockLen(b.0, b.1)
    ensures m.geo.BlockStart(b) + |data| <= |disk|
    ensures var after := WriteLinear(m.files, disk, m.geo.BlockStart(b), data);
      && (forall d: Dest, c: Block, log: set<Delivery> ::
            c != b && m.geo.InRange(c) && WitnessedBlock(m, disk, d, c, log) ==> WitnessedBlock(m, after, d, c, log))
      && (forall i: nat :: i != b.0 && Verified(m, disk, i) ==> Verified(m, after, i))
  {
    var geo, start := m.geo, m.geo.BlockStart(b);
    geo.PieceInside(b.0);
    geo.BlockInside(b);
    ReadAfterWrite(m.files, disk, start, data);
    var after := WriteLinear(m.files, disk, start, data);
    forall d: Dest, c: Block, log: set<Delivery> | c != b && geo.InRange(c) && WitnessedBlock(m, disk, d, c, log)
      ensures WitnessedBlock(m, after, d, c, log)
    {
      geo.BlocksApart(b, c);
    }
    forall i: nat | i != b.0 && Verified(m, disk, i) ensures Verified(m, after, i) {
      if i < b.0 { geo.PiecesApart(i, b.0); } else { geo.PiecesApart(b.0, i); }
    }
  }

  /** A write that fails part-way damages nothing that is relied on. */
  lemma FailedWriteKeeps(m: Meta, s: State, log: set<Delivery>, b: Block, data: seq<byte>)
    requires Inv(m, s, log) && m.geo.InRange(b) && |data| <= m.geo.BlockLen(b.0, b.1)
    requires b.0 !in s.picker.have && !s.picker.Received(b)
    ensures m.geo.BlockStart(b) + |data| <= |s.disk|
    ensures Inv(m, s.(disk := WriteLinear(m.files, s.disk, m.geo.BlockStart(b), data)), log)
  {
    hide PeersOk, FlightExact, AvailabilityExact, DestsOk, IdsOk;
    WriteInsideBlock(m, s.disk, b, data);
    SuppliersInRange(s.picker, s.suppliers);
  }

  lemma SuppliersInRange(pk: Picker, suppliers: map<Block, Dest>)
    requires pk.Valid() && SuppliersExact(pk, suppliers)
    ensures forall b :: b in suppliers ==> pk.geo.InRange(b)
  {}

  // ----- settling the block

  lemma {:induction false} CancelCount(geo: Geometry, peers: seq<Peer>, idx: nat, b: Block, k: nat)
    requires k <= |peers| && idx < |peers| && b !in peers[idx].inFlight
    ensures |Cancels(geo, peers, idx, b, k)| == Counting.Count(peers[..k], Owes(b))
  {
    if k > 0 {
      CancelCount(geo, peers, idx, b, k - 1);
      assert peers[..k] == peers[..k - 1] + [peers[k - 1]];
      Counting.CountPush(peers[..k - 1], Owes(b), peers[k - 1]);
    }
  }

  /** One cancel for every debtor but the one that delivered. */
  lemma CancelsAreTheOtherOwers(geo: Geometry, peers: seq<Peer>, idx: nat, b: Block, p: Peer)
    requires idx < |peers| && b in peers[idx].inFlight && b !in p.inFlight
    ensures |Cancels(geo, peers[idx := p], idx, b, |peers|)| + 1 == Counting.Count(peers, Owes(b))
  {
    var peers1 := peers[idx := p];
    Counting.CountUpdate(peers, Owes(b), idx, p);
    CancelCount(geo, peers1, idx, b, |peers1|);
    assert peers1[..|peers1|] == peers1;
  }

  /** The peer table once a block is settled: nobody owes it any more, and
      nothing else about anybody changed but one peer's strikes and bytes. */
  ghost predicate Settled(peers: seq<Peer>, peers': seq<Peer>, b: Block) {
    && |peers'| == |peers|
    && forall k :: 0 <= k < |peers| ==>
         peers'[k] == peers[k].(inFlight := peers[k].inFlight - {b}, strikes := peers'[k].strikes,
                                downloaded := peers'[k].downloaded)
  }

  lemma SettledCounts(peers: seq<Peer>, peers': seq<Peer>, b: Block)
    requires Settled(peers, peers', b)
    ensures Counting.Count(peers', Owes(b)) == 0
    ensures forall c: Block :: c != b ==> Counting.Count(peers', Owes(c)) == Counting.Count(peers, Owes(c))
    ensures forall i: nat :: Counting.Count(peers', Holds(i)) == Counting.Count(peers, Holds(i))
    ensures forall d: Dest :: Counting.Count(peers', From(d)) == Counting.Count(peers, From(d))
    ensures Counting.Count(peers', Unchoked()) == Counting.Count(peers, Unchoked())
  {
    Counting.CountZero(peers', Owes(b));
    forall c: Block | c != b ensures Counting.Count(peers', Owes(c)) == Counting.Count(peers, Owes(c)) {
      Counting.CountSame(peers', Owes(c), peers, Owes(c));
    }
    forall i: nat ensures Counting.Count(peers', Holds(i)) == Counting.Count(peers, Holds(i)) {
      Counting.CountSame(peers', Holds(i), peers, Holds(i));
    }
    forall d: Dest ensures Counting.Count(peers', From(d)) == Counting.Count(peers, From(d)) {
      Counting.CountSame(peers', From(d), peers, From(d));
    }
    Counting.CountSame(peers', Unchoked(), peers, Unchoked());
  }

  /** The picker once a block is settled: received, and owed by nobody. */
  lemma SettledPicker(pk: Picker, b: Block, owers: nat)
    requires pk.Valid() && pk.geo.InRange(b) && b.0 !in pk.have && pk.InFlight(b) == owers + 1
    ensures var (pk', whole) := pk.Lower(b, owers).BlockReceived(b);
      && pk'.Valid() && pk' == pk.(progress := pk'.progress)
      && pk'.InFlight(b) == 0 && pk'.Received(b)
      && (forall c: Block :: c != b ==> pk'.InFlight(c) == pk.InFlight(c) && pk'.Received(c) == pk.Received(c))
      && (whole <==> forall k :: 0 <= k < pk.geo.Blocks(b.0) ==> pk'.Received((b.0, k)))
  {
    LowerEffect(pk, b, owers);
    BlockReceivedEffect(pk.Lower(b, owers), b);
  }

  lemma SettledPeersOk(pk: Picker, pk': Picker, peers: seq<Peer>, peers': seq<Peer>, b: Block)
    requires PeersOk(pk, peers) && Settled(peers, peers', b)
    requires pk'.geo == pk.geo && pk'.have == pk.have
    requires forall c: Block :: c != b ==> pk'.Received(c) == pk.Received(c)
    ensures PeersOk(pk', peers')
  {
    forall k | 0 <= k < |peers'| ensures PeerOk(pk', peers'[k]) {
      assert PeerOk(pk, peers[k]);
      SmallerMap(peers'[k].inFlight, peers[k].inFlight);
      forall c | c in peers'[k].inFlight ensures Askable(pk', peers'[k].has, c) {
        assert c in peers[k].inFlight && c != b && Askable(pk, peers[k].has, c);
      }
    }
  }

  lemma SettledFlight(pk: Picker, pk': Picker, peers: seq<Peer>, peers': seq<Peer>, b: Block)
    requires FlightExact(pk, peers) && Settled(peers, peers', b)
    requires pk'.InFlight(b) == 0 && forall c: Block :: c != b ==> pk'.InFlight(c) == pk.InFlight(c)
    ensures FlightExact(pk', peers')
  {
    SettledCounts(peers, peers', b);
    forall c: Block ensures pk'.InFlight(c) == Counting.Count(peers', Owes(c)) {
      if c != b { assert pk'.InFlight(c) == pk.InFlight(c); }
    }
  }

  /** One block settled, seen from every table. */
  lemma SettleKeeps(m: Meta, s: State, t: State, log: set<Delivery>, idx: nat, b: Block, data: seq<byte>)
    requires Inv(m, s, log) && idx < |s.peers| && m.geo.InRange(b)
    requires b.0 !in s.picker.have && !s.picker.Received(b) && |data| == m.geo.BlockLen(b.0, b.1)
    requires m.geo.BlockStart(b) + |data| <= |s.disk|
    requires Settled(s.peers, t.peers, b)
    requires t.picker.Valid() && t.picker == s.picker.(progress := t.picker.progress)
    requires t.picker.InFlight(b) == 0 && t.picker.Received(b)
    requires forall c: Block :: c != b ==>
      t.picker.InFlight(c) == s.picker.InFlight(c) && t.picker.Received(c) == s.picker.Received(c)
    requires t == s.(picker := t.picker, peers := t.peers, suppliers := s.suppliers[b := s.peers[idx].dest],
                     disk := WriteLinear(m.files, s.disk, m.geo.BlockStart(b), data))
    ensures Inv(m, t, log + {(s.peers[idx].dest, b, data)})
  {
    hide PeersOk, FlightExact, Settled, PeerOk, Picker.Valid, Witnessed;
    SettledPeersOk(s.picker, t.picker, s.peers, t.peers, b);
    SettledFlight(s.picker, t.picker, s.peers, t.peers, b);
    SettledOwners(s, t, b);
    SettledWitness(m, s, t, log, idx, b, data);
    WriteInsideBlock(m, s.disk, b, data);
  }

  lemma SettledOwners(s: State, t: State, b: Block)
    requires Settled(s.peers, t.peers, b) && t.nextId == s.nextId && t.slots == s.slots
    requires t.picker.availability == s.picker.availability
    requires IdsOk(s.peers, s.nextId) && DestsOk(s.peers) && AvailabilityExact(s.picker, s.peers)
    requires Counting.Count(s.peers, Unchoked()) <= s.slots
    ensures IdsOk(t.peers, t.nextId) && DestsOk(t.peers) && AvailabilityExact(t.picker, t.peers)
    ensures Counting.Count(t.peers, Unchoked()) <= t.slots
  {
    SettledCounts(s.peers, t.peers, b);
  }

  lemma SettledWitness(m: Meta, s: State, t: State, log: set<Delivery>, idx: nat, b: Block, data: seq<byte>)
    requires Shape(m, s) && SuppliersExact(s.picker, s.suppliers) && Witnessed(m, s, log)
    requires idx < |s.peers| && m.geo.InRange(b) && |data| == m.geo.BlockLen(b.0, b.1)
    requires m.geo.BlockStart(b) + |data| <= |s.disk|
    requires t.disk == WriteLinear(m.files, s.disk, m.geo.BlockStart(b), data)
    requires t.suppliers == s.suppliers[b := s.peers[idx].dest]
    ensures Witnessed(m, t, log + {(s.peers[idx].dest, b, data)})
  {
    var log' := log + {(s.peers[idx].dest, b, data)};
    WriteInsideBlock(m, s.disk, b, data);
    ReadAfterWrite(m.files, s.disk, m.geo.BlockStart(b), data);
    SuppliersInRange(s.picker, s.suppliers);
    forall c | c in t.suppliers ensures WitnessedBlock(m, t.disk, t.suppliers[c], c, log') {
      if c != b {
        assert WitnessedBlock(m, s.disk, s.suppliers[c], c, log);
        assert WitnessedBlock(m, t.disk, s.suppliers[c], c, log);
      }
    }
  }

  /** More said is no less witnessed. */
  lemma LogGrows(m: Meta, s: State, log: set<Delivery>, log': set<Delivery>)
    requires Inv(m, s, log) && log <= log'
    ensures Inv(m, s, log')
  {
    hide Tables, HeldVerified;
    forall b | b in s.suppliers ensures WitnessedBlock(m, s.disk, s.suppliers[b], b, log') {
      assert WitnessedBlock(m, s.disk, s.suppliers[b], b, log);
    }
  }

  // ----- the verdict

  /** All blocks of a piece are in, so nobody owes any of them. */
  ghost predicate WholeAndSettled(s: State, index: nat) {
    && index < s.picker.geo.numPieces && index !in s.picker.have
    && (forall k :: 0 <= k < s.picker.geo.Blocks(index) ==> s.picker.Received((index, k)))
  }

  lemma NobodyOwesWhole(s: State, index: nat)
    requires PeersOk(s.picker, s.peers) && WholeAndSettled(s, index)
    ensures forall k, b: Block :: 0 <= k < |s.peers| && b in s.peers[k].inFlight ==> b.0 != index
    ensures forall b: Block :: b.0 == index ==> Counting.Count(s.peers, Owes(b)) == 0
  {
    forall k, b: Block | 0 <= k < |s.peers| && b in s.peers[k].inFlight ensures b.0 != index {
      assert PeerOk(s.picker, s.peers[k]);
      assert Askable(s.picker, s.peers[k].has, b);
    }
    forall b: Block | b.0 == index ensures Counting.Count(s.peers, Owes(b)) == 0 {
      Counting.CountZero(s.peers, Owes(b));
    }
  }

  /** Closing a whole piece, by either verdict, with its suppliers let go. */
  lemma ClosePieceKeeps(m: Meta, s: State, t: State, log: set<Delivery>, index: nat)
    requires Inv(m, s, log) && WholeAndSettled(s, index)
    requires t.picker == s.picker.SetHave(index) || t.picker == s.picker.ResetPiece(index)
    requires t.picker == s.picker.SetHave(index) ==> Verified(m, s.disk, index)
    requires t.suppliers == DropPiece(s.suppliers, index, m.geo.Blocks(index))
    requires t.peers == s.peers && t.nextId == s.nextId && t.slots == s.slots && t.disk == s.disk
    ensures Inv(m, t, log)
  {
    hide DestsOk, IdsOk, PeersOk, FlightExact, Witnessed, HeldVerified;
    SetHaveKeepsValid(s.picker, index);
    ResetPieceKeepsValid(s.picker, index);
    NobodyOwesWhole(s, index);
    ClosedAccounts(s.picker, t.picker, index);
    ClosedFlight(s, t.picker, index);
    ClosedPeers(s, t.picker, index);
    ClosedCoverage(m, s, t, log, index);
  }

  lemma ClosedAccounts(pk: Picker, pk': Picker, index: nat)
    requires pk.Valid() && index < pk.geo.numPieces
    requires pk' == pk.SetHave(index) || pk' == pk.ResetPiece(index)
    ensures pk'.progress == pk.progress - {index} && pk'.geo == pk.geo && pk'.availability == pk.availability
    ensures forall b: Block :: pk'.InFlight(b) == (if b.0 == index then 0 else pk.InFlight(b))
    ensures forall b: Block :: pk'.Received(b) <==> b.0 != index && pk.Received(b)
    ensures forall i :: i != index ==> (i in pk'.have <==> i in pk.have)
  {}

  lemma ClosedFlight(s: State, pk: Picker, index: nat)
    requires FlightExact(s.picker, s.peers)
    requires forall b: Block :: pk.InFlight(b) == (if b.0 == index then 0 else s.picker.InFlight(b))
    requires forall b: Block :: b.0 == index ==> Counting.Count(s.peers, Owes(b)) == 0
    ensures FlightExact(pk, s.peers)
  {
    forall b: Block ensures pk.InFlight(b) == Counting.Count(s.peers, Owes(b)) {
      if b.0 != index { assert pk.InFlight(b) == s.picker.InFlight(b); }
    }
  }

  lemma ClosedPeers(s: State, pk: Picker, index: nat)
    requires PeersOk(s.picker, s.peers) && pk.geo == s.picker.geo
    requires forall k, b: Block :: 0 <= k < |s.peers| && b in s.peers[k].inFlight ==> b.0 != index
    requires forall b: Block :: pk.Received(b) <==> b.0 != index && s.picker.Received(b)
    requires forall i :: i != index ==> (i in pk.have <==> i in s.picker.have)
    ensures PeersOk(pk, s.peers)
  {
    hide PeerOk;
    forall k | 0 <= k < |s.peers| ensures PeerOk(pk, s.peers[k]) {
      StaysOk(s.picker, pk, s.peers[k]);
    }
  }

  lemma ClosedCoverage(m: Meta, s: State, t: State, log: set<Delivery>, index: nat)
    requires Shape(m, s) && SuppliersExact(s.picker, s.suppliers) && Witnessed(m, s, log)
    requires HeldVerified(m, s.picker.have, s.disk) && index < m.geo.numPieces && index !in s.picker.have
    requires t.picker == s.picker.SetHave(index) || t.picker == s.picker.ResetPiece(index)
    requires t.picker == s.picker.SetHave(index) ==> Verified(m, s.disk, index)
    requires t.suppliers == DropPiece(s.suppliers, index, m.geo.Blocks(index)) && t.disk == s.disk
    ensures SuppliersExact(t.picker, t.suppliers) && Witnessed(m, t, log)
    ensures HeldVerified(m, t.picker.have, t.disk)
  {
    ClosedAccounts(s.picker, t.picker, index);
    SuppliersInRange(s.picker, s.suppliers);
    forall b: Block ensures b in t.suppliers <==> t.picker.Received(b) {
      assert b in s.suppliers <==> s.picker.Received(b);
    }
    forall b | b in t.suppliers ensures WitnessedBlock(m, t.disk, t.suppliers[b], b, log) {
      assert WitnessedBlock(m, s.disk, s.suppliers[b], b, log);
    }
    forall i | i in t.picker.have ensures Verified(m, t.disk, i) {
      if i != index { assert i in s.picker.have; }
    }
  }

  /** Banning touches only the blame tables. */
  lemma {:induction false} BanAllEffect(s: State, dests: seq<Dest>)
    ensures var t := BanAll(s, dests);
      t == s.(banned := t.banned, suspicion := t.suspicion, toDrop := t.toDrop)
    ensures forall d :: d in BanAll(s, dests).banned <==> d in s.banned || d in dests
  {
    if dests != [] {
      BanAllEffect(s, dests[..|dests| - 1]);
      assert dests == dests[..|dests| - 1] + [dests[|dests| - 1]];
    }
  }

  lemma BlameEffect(s: State, index: nat)
    ensures var t := BlameSuppliers(s, index);
      && t.suppliers == DropPiece(s.suppliers, index, s.picker.geo.Blocks(index))
      && t == s.(suppliers := t.suppliers, banned := t.banned, suspicion := t.suspicion, toDrop := t.toDrop)
  {
    var blocks := s.picker.geo.Blocks(index);
    var who := Contributors(s.suppliers, index, blocks);
    var s' := s.(suppliers := DropPiece(s.suppliers, index, blocks));
    BanAllEffect(s', who);
    var suspicion := Suspected(s.suspicion, who);
    BanAllEffect(s'.(suspicion := suspicion), OverLimit(suspicion, who));
  }

  /** A hash check that passes is a verified piece. */
  lemma MatchIsVerified(m: Meta, disk: seq<Cell>, i: nat, fault: Option<nat>)
    requires m.Valid() && Verify(m, disk, i, fault) == Matches
    ensures i < m.geo.numPieces && Verified(m, disk, i)
  {}

  lemma JudgeKeeps(m: Meta, s: State, log: set<Delivery>, index: nat, io: Io)
    requires Inv(m, s, log) && WholeAndSettled(s, index)
    ensures Inv(m, Judge(m, s, index, io).state, log)
    ensures Judge(m, s, index, io).state.peers == s.peers
  {
    hide Inv, WholeAndSettled, Verified;
    ShapeOf(m, s, log);
    var t := Judge(m, s, index, io).state;
    match Verify(m, s.disk, index, io.verify) {
      case Matches =>
        MatchIsVerified(m, s.disk, index, io.verify);
        ClosePieceKeeps(m, s, t, log, index);
      case Mismatch =>
        var r := s.(picker := s.picker.ResetPiece(index));
        BlameEffect(r, index);
        ResetIsNotSet(s, index);
        ClosePieceKeeps(m, s, t, log, index);
      case Unreadable =>
        SameCoreKeeps(m, s, t, log);
    }
  }

  lemma ResetIsNotSet(s: State, index: nat)
    requires WholeAndSettled(s, index)
    ensures s.picker.ResetPiece(index) != s.picker.SetHave(index)
  {
    assert index in s.picker.SetHave(index).have && index !in s.picker.ResetPiece(index).have;
  }

  lemma IdsOf(m: Meta, s: State, log: set<Delivery>)
    requires Inv(m, s, log)
    ensures IdsOk(s.peers, s.nextId)
  {}

  lemma ShapeOf(m: Meta, s: State, log: set<Delivery>)
    requires Inv(m, s, log)
    ensures Shape(m, s)
  {}

  // ----- the handler

  lemma ReleaseOne(p: Picker, b: Block)
    ensures p.Release({b}) == p.BlockFailed(b)
  {
    ReleaseNothing(p);
    ReleaseOneMore(p, {}, b);
    assert {} + {b} == {b};
  }

  /** An owed block is one that may still be delivered. */
  lemma OwedIsAskable(m: Meta, s: State, log: set<Delivery>, idx: nat, b: Block)
    requires Inv(m, s, log) && idx < |s.peers| && b in s.peers[idx].inFlight
    ensures Askable(s.picker, s.peers[idx].has, b) && s.picker.geo == m.geo
    ensures s.picker.InFlight(b) == Counting.Count(s.peers, Owes(b)) > 0
    ensures m.geo.BlockStart(b) + m.geo.BlockLen(b.0, b.1) <= |s.disk|
  {
    assert PeerOk(s.picker, s.peers[idx]);
    OwedIsCounted(s.picker, s.peers, idx, b);
    m.geo.PieceInside(b.0);
    m.geo.BlockInside(b);
  }

  /** The block noted and written, before the other debtors are told. */
  ghost function NotedState(m: Meta, s: State, idx: nat, b: Block, data: seq<byte>): State
    requires idx < |s.peers| && |s.disk| == Total(m.files) && m.geo.BlockStart(b) + |data| <= |s.disk|
  {
    var p := s.peers[idx];
    SetPeer(s, idx, p.(inFlight := p.inFlight - {b}, strikes := 0, downloaded := p.downloaded + |data|))
      .(suppliers := s.suppliers[b := p.dest], disk := WriteLinear(m.files, s.disk, m.geo.BlockStart(b), data))
  }

  /** What accepting a block leaves of the tables, before the piece is judged. */
  ghost function SettledState(m: Meta, s: State, idx: nat, b: Block, data: seq<byte>): State
    requires idx < |s.peers| && |s.disk| == Total(m.files) && m.geo.BlockStart(b) + |data| <= |s.disk|
  {
    var s2 := CancelElsewhere(NotedState(m, s, idx, b, data), idx, b).state;
    s2.(picker := s2.picker.BlockReceived(b).0)
  }

  lemma SettledStateKeeps(m: Meta, s: State, log: set<Delivery>, idx: nat, b: Block, data: seq<byte>)
    requires Inv(m, s, log) && idx < |s.peers| && b in s.peers[idx].inFlight
    requires |data| == m.geo.BlockLen(b.0, b.1)
    requires m.geo.BlockStart(b) + |data| <= |s.disk| && |s.disk| == Total(m.files)
    ensures var t := SettledState(m, s, idx, b, data);
      && Inv(m, t, log + {(s.peers[idx].dest, b, data)})
      && |t.peers| == |s.peers| && t.picker.have == s.picker.have && t.picker.geo == s.picker.geo
  {
    hide Inv, Picker.Valid, Settled, Cancels, Withdrawn, Picker.Lower, Picker.BlockReceived, WriteLinear;
    OwedIsAskable(m, s, log, idx, b);
    ShapeOf(m, s, log);
    var p := s.peers[idx];
    var p1 := p.(inFlight := p.inFlight - {b}, strikes := 0, downloaded := p.downloaded + |data|);
    var peers1 := s.peers[idx := p1];
    CancelsAreTheOtherOwers(m.geo, s.peers, idx, b, p1);
    SettledPicker(s.picker, b, |Cancels(m.geo, peers1, idx, b, |peers1|)|);
    var t := SettledState(m, s, idx, b, data);
    WithdrawnSettles(s.peers, peers1, idx, b);
    SettleKeeps(m, s, t, log, idx, b, data);
  }

  lemma WithdrawnSettles(peers: seq<Peer>, peers1: seq<Peer>, idx: nat, b: Block)
    requires idx < |peers| && |peers1| == |peers|
    requires peers1 == peers[idx := peers1[idx]]
    requires peers1[idx] == peers[idx].(inFlight := peers[idx].inFlight - {b}, strikes := peers1[idx].strikes,
                                        downloaded := peers1[idx].downloaded)
    ensures Settled(peers, Withdrawn(peers1, idx, b, |peers1|), b)
  {}

  /** What settling a block leaves of everything else. */
  lemma SettledRest(m: Meta, s: State, idx: nat, b: Block, data: seq<byte>)
    requires idx < |s.peers| && |s.disk| == Total(m.files) && m.geo.BlockStart(b) + |data| <= |s.disk|
    ensures var t := SettledState(m, s, idx, b, data);
      && Settled(s.peers, t.peers, b)
      && t.lastChokeRound == s.lastChokeRound && t.chokeInterval == s.chokeInterval && t.toDrop == s.toDrop
  {
    hide WriteLinear, Picker.BlockReceived, Cancels, Picker.Lower, Withdrawn, Settled;
    var p := s.peers[idx];
    var p1 := p.(inFlight := p.inFlight - {b}, strikes := 0, downloaded := p.downloaded + |data|);
    EditKept(s.peers, idx, p1);
    WithdrawnSettles(s.peers, s.peers[idx := p1], idx, b);
  }

  lemma EditKept(peers: seq<Peer>, idx: nat, p: Peer)
    requires idx < |peers|
    ensures var peers1 := peers[idx := p]; |peers1| == |peers| && peers1[idx] == p && peers1 == peers[idx := peers1[idx]]
  {}

  /** The handler's steps put together: note, cancel elsewhere, mark received,
      judge. */
  lemma AcceptUnfolds(m: Meta, s: State, idx: nat, b: Block, data: seq<byte>, io: Io)
    requires idx < |s.peers| && |s.disk| == Total(m.files) && m.geo.BlockStart(b) + |data| <= |s.disk|
    ensures var p := s.peers[idx];
      var s1 := SetPeer(s, idx, p.(inFlight := p.inFlight - {b}, strikes := 0))
        .(disk := WriteLinear(m.files, s.disk, m.geo.BlockStart(b), data));
      var t := SettledState(m, s, idx, b, data);
      var cancelled := CancelElsewhere(NotedState(m, s, idx, b, data), idx, b);
      AcceptBlock(m, s1, idx, b, |data|, io) ==
        if cancelled.state.picker.BlockReceived(b).1 then (Judge(m, t, b.0, io).After(cancelled.out), true)
        else (Effect(t, cancelled.out), false)
  {
    hide Judge, CancelElsewhere, Picker.BlockReceived, WriteLinear;
    var p := s.peers[idx];
    var p0 := p.(inFlight := p.inFlight - {b}, strikes := 0);
    EditTwice(s.peers, idx, p0, p0.(downloaded := p.downloaded + |data|));
  }

  /** Accepting a block is settling it and, if it was the last one missing,
      judging the piece. */
  lemma AcceptIsSettleThenJudge(m: Meta, s: State, log: set<Delivery>, idx: nat, b: Block, data: seq<byte>, io: Io)
    requires Inv(m, s, log) && idx < |s.peers| && b in s.peers[idx].inFlight
    requires |data| == m.geo.BlockLen(b.0, b.1)
    requires m.geo.BlockStart(b) + |data| <= |s.disk| && |s.disk| == Total(m.files)
    ensures var p := s.peers[idx];
      var s1 := SetPeer(s, idx, p.(inFlight := p.inFlight - {b}, strikes := 0))
        .(disk := WriteLinear(m.files, s.disk, m.geo.BlockStart(b), data));
      var t := SettledState(m, s, idx, b, data);
      var (e, refill) := AcceptBlock(m, s1, idx, b, |data|, io);
      var cancels := CancelElsewhere(NotedState(m, s, idx, b, data), idx, b).out;
      && (refill ==> WholeAndSettled(t, b.0) && e == Judge(m, t, b.0, io).After(cancels))
      && (!refill ==> e == Effect(t, cancels))
  {
    hide Inv, Judge, AcceptBlock, Picker.Valid, Cancels, Withdrawn, Picker.Lower, Picker.BlockReceived, WriteLinear;
    AcceptUnfolds(m, s, idx, b, data, io);
    OwedIsAskable(m, s, log, idx, b);
    ShapeOf(m, s, log);
    var p := s.peers[idx];
    var p1 := p.(inFlight := p.inFlight - {b}, strikes := 0, downloaded := p.downloaded + |data|);
    var peers1 := s.peers[idx := p1];
    CancelsAreTheOtherOwers(m.geo, s.peers, idx, b, p1);
    SettledPicker(s.picker, b, |Cancels(m.geo, peers1, idx, b, |peers1|)|);
  }

  lemma AcceptKeeps(m: Meta, s: State, log: set<Delivery>, idx: nat, b: Block, data: seq<byte>, io: Io)
    requires Inv(m, s, log) && idx < |s.peers| && b in s.peers[idx].inFlight
    requires |data| == m.geo.BlockLen(b.0, b.1)
    requires m.geo.BlockStart(b) + |data| <= |s.disk| && |s.disk| == Total(m.files)
    ensures var p := s.peers[idx];
      var s1 := SetPeer(s, idx, p.(inFlight := p.inFlight - {b}, strikes := 0))
        .(disk := WriteLinear(m.files, s.disk, m.geo.BlockStart(b), data));
      var e := AcceptBlock(m, s1, idx, b, |data|, io).0;
      Inv(m, e.state, log + {(p.dest, b, data)}) && |e.state.peers| == |s.peers|
  {
    hide Inv, AcceptBlock, SettledState, Judge;
    SettledStateKeeps(m, s, log, idx, b, data);
    AcceptIsSettleThenJudge(m, s, log, idx, b, data, io);
    var t := SettledState(m, s, idx, b, data);
    var log' := log + {(s.peers[idx].dest, b, data)};
    if WholeAndSettled(t, b.0) {
      JudgeKeeps(m, t, log', b.0, io);
    }
  }

  /** What a `piece` message from a destination is a claim of. */
  function Said(dest: Dest, index: nat, begin: nat, data: seq<byte>): Delivery {
    (dest, (index, begin / BLOCK_LEN), data)
  }

  lemma OnBlockKeeps(m: Meta, s: State, log: set<Delivery>, idx: nat, index: nat, begin: nat, data: seq<byte>, now: nat, io: Io)
    requires Inv(m, s, log) && idx < |s.peers| && |s.disk| == Total(m.files)
    ensures Inv(m, OnBlock(m, s, idx, index, begin, data, now, io).state,
                log + {Said(s.peers[idx].dest, index, begin, data)})
  {
    hide Inv, FillRequests, AcceptBlock;
    var b: Block := (index, begin / BLOCK_LEN);
    var p, log' := s.peers[idx], log + {Said(s.peers[idx].dest, index, begin, data)};
    LogGrows(m, s, log, log');
    if !(begin % BLOCK_LEN != 0 || index >= m.geo.numPieces || |data| != m.geo.BlockLen(b.0, b.1)) {
      FillRequestsKeeps(m, s, log', idx, now);
      if b in p.inFlight {
        OwedIsAskable(m, s, log', idx, b);
        PeerFlags(m, s, log', idx);
        var p' := p.(inFlight := p.inFlight - {b}, strikes := 0);
        if io.write.Some? && io.write.value < |data| {
          BlockWriteFails(m, s, log', idx, b, p', data[..io.write.value], now);
        } else {
          AcceptKeeps(m, s, log, idx, b, data, io);
          var s1 := SetPeer(s, idx, p').(disk := WriteLinear(m.files, s.disk, m.geo.BlockStart(b), data));
          FillRequestsKeeps(m, AcceptBlock(m, s1, idx, b, |data|, io).0.state, log', idx, now);
        }
      }
    }
  }

  lemma BlockWriteFails(m: Meta, s: State, log: set<Delivery>, idx: nat, b: Block, p: Peer, written: seq<byte>, now: nat)
    requires Inv(m, s, log) && idx < |s.peers| && b in s.peers[idx].inFlight && |s.disk| == Total(m.files)
    requires p == s.peers[idx].(inFlight := s.peers[idx].inFlight - {b}, strikes := 0)
    requires |written| <= m.geo.BlockLen(b.0, b.1) && m.geo.BlockStart(b) + |written| <= |s.disk|
    ensures Inv(m, FillRequests(
      SetPeer(s, idx, p).(picker := s.picker.BlockFailed(b), storageError := true,
                          disk := WriteLinear(m.files, s.disk, m.geo.BlockStart(b), written)), idx, now).state, log)
  {
    hide Inv, FillRequests;
    OwedIsAskable(m, s, log, idx, b);
    PeerFlags(m, s, log, idx);
    ShapeOf(m, s, log);
    GiveBackKeeps(m, s, log, idx, {b}, p);
    ReleaseOne(s.picker, b);
    ReleaseEffect(s.picker, {b});
    var t := SetPeer(s, idx, p).(picker := s.picker.BlockFailed(b));
    FailedWriteKeeps(m, t, log, b, written);
    var u := t.(disk := WriteLinear(m.files, t.disk, m.geo.BlockStart(b), written));
    SameCoreKeeps(m, u, u.(storageError := true), log);
    FillRequestsKeeps(m, u.(storageError := true), log, idx, now);
  }
}
