// What a verdict on a piece costs or repays those who supplied it
// (crates/clove-core/src/torrent.rs, `credit_suppliers` and `blame_suppliers`).
module EngineVerdicts {
  import opened Prelude
  import opened Wire
  import opened PickerSpec
  import opened DiskSpec
  import opened EngineSpec
  import opened EngineInvariant
  import opened EngineDelivery
  import opened EngineFrame
  import opened EngineTheorems
  import opened EngineSafety
  import opened EngineOutcomes
  import opened EngineBlame
  import Sorting

  // ----- who supplied a piece

  function Supplied(suppliers: map<Block, Dest>, index: nat, n: nat, d: Dest): set<nat> {
    set k: nat | k < n && (index, k) in suppliers && suppliers[(index, k)] == d
  }

  /** How many of the first `n` blocks of a piece a destination supplied. */
  function Share(suppliers: map<Block, Dest>, index: nat, n: nat, d: Dest): nat { |Supplied(suppliers, index, n, d)| }

  function Suppliers(suppliers: map<Block, Dest>, index: nat, n: nat): set<Dest> {
    set k: nat | k < n && (index, k) in suppliers :: suppliers[(index, k)]
  }

  // ----- the verdicts

  /** Each supplier is repaid one failure for each block; nobody is banned. */
  ghost predicate Repaid(s: State, t: State, suppliers: map<Block, Dest>, index: nat, n: nat) {
    && t.banned == s.banned
    && forall d: Dest :: Suspicion(t, d) == SatSub(Suspicion(s, d), Share(suppliers, index, n, d))
  }

  /** A supplier is given up on: it supplied the whole piece, or this failure is
      one too many. */
  predicate GivenUp(s: State, who: set<Dest>, d: Dest) {
    d in who && (|who| == 1 || Suspicion(s, d) + 1 >= SUSPICION_LIMIT)
  }

  /** Those given up on are banned, and what was held against them is dropped;
      each other supplier has one failure more held against it. */
  ghost predicate Charged(s: State, t: State, who: set<Dest>) {
    && (forall d: Dest :: d in t.banned <==> d in s.banned || GivenUp(s, who, d))
    && forall d: Dest :: Suspicion(t, d) == (if GivenUp(s, who, d) then 0 else Suspicion(s, d) + (if d in who then 1 else 0))
  }

  predicate SameBlame(s: State, t: State) { t.banned == s.banned && t.suspicion == s.suspicion }

  /** What the check of a piece whose first `n` blocks are all its blocks comes
      to for those who supplied it. */
  ghost predicate Verdict(m: Meta, s: State, t: State, suppliers: map<Block, Dest>, index: nat, io: Io) {
    match Verify(m, t.disk, index, io.verify)
    case Matches => Repaid(s, t, suppliers, index, m.geo.Blocks(index))
    case Mismatch => Charged(s, t, Suppliers(suppliers, index, m.geo.Blocks(index)))
    case Unreadable => SameBlame(s, t) && t.storageError
  }

  // ----- repaying

  lemma OneMoreShare(suppliers: map<Block, Dest>, index: nat, n: nat, d: Dest)
    ensures Share(suppliers, index, n + 1, d) ==
      Share(suppliers, index, n, d) + (if (index, n) in suppliers && suppliers[(index, n)] == d then 1 else 0)
  {
    var before, after := Supplied(suppliers, index, n, d), Supplied(suppliers, index, n + 1, d);
    if (index, n) in suppliers && suppliers[(index, n)] == d {
      assert after == before + {n};
    } else {
      assert after == before;
    }
  }

  lemma {:induction false} CreditIsShare(suspicion: map<Dest, nat>, suppliers: map<Block, Dest>, index: nat, n: nat, d: Dest)
    ensures Weight(CreditBelow(suspicion, suppliers, index, n), d) == SatSub(Weight(suspicion, d), Share(suppliers, index, n, d))
  {
    hide Share;
    if n == 0 {
      NothingSupplied(suppliers, index, d);
    } else {
      CreditIsShare(suspicion, suppliers, index, n - 1, d);
      OneMoreShare(suppliers, index, n - 1, d);
    }
  }

  lemma NothingSupplied(suppliers: map<Block, Dest>, index: nat, d: Dest)
    ensures Share(suppliers, index, 0, d) == 0
  {
    assert Supplied(suppliers, index, 0, d) == {};
  }

  // ----- charging

  lemma OneMoreSupplier(suppliers: map<Block, Dest>, index: nat, n: nat)
    ensures Suppliers(suppliers, index, n + 1) ==
      Suppliers(suppliers, index, n) + (if (index, n) in suppliers then {suppliers[(index, n)]} else {})
  {
    var more := Suppliers(suppliers, index, n) + (if (index, n) in suppliers then {suppliers[(index, n)]} else {});
    forall d ensures d in Suppliers(suppliers, index, n + 1) <==> d in more {}
  }

  lemma {:induction false} ContributorsAreSuppliers(suppliers: map<Block, Dest>, index: nat, n: nat)
    ensures forall d :: d in Contributors(suppliers, index, n) <==> d in Suppliers(suppliers, index, n)
    ensures |Contributors(suppliers, index, n)| == |Suppliers(suppliers, index, n)|
  {
    if n == 0 {
      assert Suppliers(suppliers, index, n) == {};
    } else {
      ContributorsAreSuppliers(suppliers, index, n - 1);
      OneMoreSupplier(suppliers, index, n - 1);
      hide Suppliers;
    }
  }

  lemma {:induction false} BanAllDrops(s: State, dests: seq<Dest>, d: Dest)
    ensures d in BanAll(s, dests).banned <==> d in s.banned || d in dests
    ensures Suspicion(BanAll(s, dests), d) == if d in dests then 0 else Suspicion(s, d)
  {
    if dests != [] {
      BanAllDrops(s, dests[..|dests| - 1], d);
      assert dests == dests[..|dests| - 1] + [dests[|dests| - 1]];
    }
  }

  lemma BlameCharges(s: State, index: nat)
    ensures Charged(s, BlameSuppliers(s, index), Suppliers(s.suppliers, index, s.picker.geo.Blocks(index)))
  {
    hide Contributors, Suppliers;
    var n := s.picker.geo.Blocks(index);
    ContributorsFacts(s.suppliers, index, n);
    ContributorsAreSuppliers(s.suppliers, index, n);
    forall d: Dest
      ensures var t, who := BlameSuppliers(s, index), Suppliers(s.suppliers, index, n);
        && (d in t.banned <==> d in s.banned || GivenUp(s, who, d))
        && Suspicion(t, d) == if GivenUp(s, who, d) then 0 else Suspicion(s, d) + (if d in who then 1 else 0)
    {
      BlameOne(s, index, n, Contributors(s.suppliers, index, n), Suppliers(s.suppliers, index, n), d);
    }
  }

  lemma BlameOne(s: State, index: nat, n: nat, who: seq<Dest>, whoSet: set<Dest>, d: Dest)
    requires n == s.picker.geo.Blocks(index) && who == Contributors(s.suppliers, index, n) && Sorting.Distinct(who)
    requires |who| == |whoSet| && forall x :: x in who <==> x in whoSet
    ensures var t := BlameSuppliers(s, index);
      && (d in t.banned <==> d in s.banned || GivenUp(s, whoSet, d))
      && Suspicion(t, d) == if GivenUp(s, whoSet, d) then 0 else Suspicion(s, d) + (if d in whoSet then 1 else 0)
  {
    hide Contributors, Suspected, OverLimit, BanAll, DropPiece;
    var s' := s.(suppliers := DropPiece(s.suppliers, index, n));
    var suspicion := Suspected(s.suspicion, who);
    if |who| == 1 {
      BanAllDrops(s', who, d);
    } else if |who| > 1 {
      SuspectedCount(s.suspicion, who);
      OverLimitMembers(suspicion, who);
      BanAllDrops(s'.(suspicion := suspicion), OverLimit(suspicion, who), d);
    }
  }

  // ----- the judgement

  lemma JudgeVerdict(m: Meta, s: State, index: nat, io: Io)
    requires s.picker.geo == m.geo
    ensures var t := Judge(m, s, index, io).state;
      t.disk == s.disk && Verdict(m, s, t, s.suppliers, index, io)
  {
    hide Verify, BlameSuppliers, Suspicion, Share, Suppliers, GivenUp, CreditBelow, DropPiece;
    var r := s.(picker := s.picker.ResetPiece(index));
    BlameEffect(r, index);
    BlameCharges(r, index);
    SameWeights(s, r);
    var t := Judge(m, s, index, io).state;
    if Verify(m, s.disk, index, io.verify) == Matches {
      forall d: Dest ensures Suspicion(t, d) == SatSub(Suspicion(s, d), Share(s.suppliers, index, m.geo.Blocks(index), d)) {
        CreditIsShare(s.suspicion, s.suppliers, index, m.geo.Blocks(index), d);
        WeightOf(t, d);
        WeightOf(s, d);
      }
    }
  }

  lemma WeightOf(s: State, d: Dest)
    ensures Suspicion(s, d) == Weight(s.suspicion, d)
  {}

  lemma SameWeights(s: State, t: State)
    requires SameBlame(s, t)
    ensures forall d: Dest :: Suspicion(t, d) == Suspicion(s, d)
    ensures forall who: set<Dest>, d: Dest :: GivenUp(t, who, d) == GivenUp(s, who, d)
  {}

  lemma VerdictThrough(m: Meta, s: State, s': State, t: State, t': State, suppliers: map<Block, Dest>, index: nat, io: Io)
    requires Verdict(m, s', t, suppliers, index, io) && SameBlame(s, s') && SameBlame(t, t')
    requires t'.disk == t.disk && t'.storageError == t.storageError
    ensures Verdict(m, s, t', suppliers, index, io)
  {
    hide Verify, Suspicion, Share, Suppliers, GivenUp;
    SameWeights(s, s');
    SameWeights(t, t');
  }

  lemma FillBlames(s: State, idx: nat, now: nat)
    requires idx < |s.peers|
    ensures var t := FillRequests(s, idx, now).state;
      SameBlame(s, t) && t.disk == s.disk && t.storageError == s.storageError
  {
    hide Picker.PickBlocks, Picker.AfterPick, Picker.Release, Asked, Asks, Again;
  }

  lemma SettledBlames(m: Meta, s: State, idx: nat, b: Block, data: seq<byte>)
    requires idx < |s.peers| && |s.disk| == Total(m.files) && m.geo.BlockStart(b) + |data| <= |s.disk|
    ensures var t := SettledState(m, s, idx, b, data);
      SameBlame(s, t) && t.suppliers == s.suppliers[b := s.peers[idx].dest]
  {
    hide Picker.BlockReceived, Picker.Lower, WriteLinear, Cancels, Withdrawn;
  }

  /** Whoever supplied the piece of a block just delivered: its sender supplied
      that block, and the others are as recorded. */
  function With(s: State, idx: nat, b: Block): map<Block, Dest>
    requires idx < |s.peers|
  {
    s.suppliers[b := s.peers[idx].dest]
  }

  /** Nothing is held against anybody until the last block of a piece is in;
      then the verdict on the piece repays or charges exactly its suppliers. */
  ghost predicate Settles(m: Meta, s: State, t: State, idx: nat, b: Block, io: Io)
    requires idx < |s.peers|
  {
    if LastOfPiece(s, b) then Verdict(m, s, t, With(s, idx, b), b.0, io) else SameBlame(s, t)
  }

  lemma DeliverySettles(m: Meta, s: State, log: set<Delivery>, idx: nat, b: Block, data: seq<byte>, now: nat, io: Io)
    requires Inv(m, s, log) && idx < |s.peers| && b in s.peers[idx].inFlight && |s.disk| == Total(m.files)
    requires |data| == m.geo.BlockLen(b.0, b.1) && (io.write.Some? ==> io.write.value >= |data|)
    ensures Settles(m, s, OnBlock(m, s, idx, b.0, b.1 * BLOCK_LEN, data, now, io).state, idx, b, io)
  {
    hide Inv, AcceptBlock, OnBlock, Judge, SettledState, WriteLinear, FillRequests, Verdict, SameBlame, LastOfPiece, Pending;
    ShapeOf(m, s, log);
    OwedIsAccepted(m, s, log, idx, b, data, now, io);
    AcceptUnfolds(m, s, idx, b, data, io);
    SettledFacts(m, s, log, idx, b, data);
    SettledBlames(m, s, idx, b, data);
    SettledStateKeeps(m, s, log, idx, b, data);
    var t := SettledState(m, s, idx, b, data);
    if LastOfPiece(s, b) {
      JudgeVerdict(m, t, b.0, io);
      var u := Judge(m, t, b.0, io).state;
      FillBlames(u, idx, now);
      VerdictThrough(m, s, t, u, FillRequests(u, idx, now).state, With(s, idx, b), b.0, io);
    }
  }

  /** In every reachable state an owed block that was written leaves the blame
      tables alone unless it completes its piece. If it does and the hash
      matches, each destination earns back one failure per block it supplied. If
      the hash differs, a sole supplier is banned, and of several each has one
      failure more against it and is banned exactly at the limit. If the piece
      cannot be read back, nobody is blamed and the error is noted. */
  lemma VerdictsAreExact(m: Meta, w: World, idx: nat, b: Block, data: seq<byte>, now: nat, io: Io)
    requires Reachable(m, w) && idx < |w.state.peers| && b in w.state.peers[idx].inFlight
    requires |data| == m.geo.BlockLen(b.0, b.1) && (io.write.Some? ==> io.write.value >= |data|)
    ensures |w.state.disk| == Total(m.files)
    ensures Settles(m, w.state, OnBlock(m, w.state, idx, b.0, b.1 * BLOCK_LEN, data, now, io).state, idx, b, io)
  {
    hide Reachable, Inv, OnBlock, Settles;
    ReachableIsSafe(m, w);
    InvOf(m, w);
    ShapeOf(m, w.state, w.log);
    DeliverySettles(m, w.state, w.log, idx, b, data, now, io);
  }
}
