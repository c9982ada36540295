// What the picker's operations do to the quantities the engine relies on, and
// the main facts about `pick`.
module PickerTheory {
  import opened Prelude
  import opened Wire
  import opened PickerSpec
  import Counting
  import Sorting

  // ----- the wanted-and-missing count

  lemma MissingLess(p: Picker, q: Picker, i: nat)
    requires i in p.Missing() && q.Missing() == p.Missing() - {i}
    ensures |q.Missing()| == |p.Missing()| - 1
  {}

  lemma NewPickerValid(geo: Geometry, mode: Mode)
    requires geo.Valid()
    ensures NewPicker(geo, mode).Valid()
    ensures forall b: Block :: NewPicker(geo, mode).InFlight(b) == 0 && !NewPicker(geo, mode).Received(b)
  {
    AllMissing(NewPicker(geo, mode), geo.numPieces);
  }

  lemma {:induction false} AllMissing(p: Picker, k: nat)
    requires forall i: nat :: i < k ==> p.Wants(i) && i !in p.have
    ensures |p.MissingBelow(k)| == k
  {
    if k > 0 {
      AllMissing(p, k - 1);
      assert p.MissingBelow(k) == p.MissingBelow(k - 1) + {k - 1};
    } else {
      assert p.MissingBelow(0) == {};
    }
  }

  lemma SetHaveKeepsValid(p: Picker, i: nat)
    requires p.Valid()
    ensures p.SetHave(i).Valid()
    ensures p.SetHave(i).have == if i < p.geo.numPieces then p.have + {i} else p.have
  {
    var q := p.SetHave(i);
    if i < p.geo.numPieces {
      assert q.Missing() == p.Missing() - {i};
      if i in p.Missing() { MissingLess(p, q, i); }
    }
  }

  lemma ResetPieceKeepsValid(p: Picker, i: nat)
    requires p.Valid()
    ensures p.ResetPiece(i).Valid()
    ensures p.ResetPiece(i).have == p.have - {i}
  {
    var q := p.ResetPiece(i);
    if i < p.geo.numPieces {
      if i in p.have && p.Wants(i) {
        assert q.Missing() == p.Missing() + {i};
      } else {
        assert q.Missing() == p.Missing();
      }
    }
  }

  lemma SetPrioritiesKeepsValid(p: Picker, ps: seq<byte>)
    requires p.Valid()
    ensures p.SetPriorities(ps).Valid()
  {
    var q := p.SetPriorities(ps);
    var r := p.(priority := q.priority);
    assert q == r.(missingWanted := |r.Missing()|);
    assert q.Missing() == r.Missing();
  }

  /** Completion is exactly "no wanted piece is missing", and holding every
      piece is completion whatever the priorities say. */
  lemma CompleteMeansNothingMissing(p: Picker)
    requires p.Valid()
    ensures p.Complete() <==> forall i :: 0 <= i < p.geo.numPieces && p.Wants(i) ==> i in p.have
    ensures (forall i :: 0 <= i < p.geo.numPieces ==> i in p.have) ==> p.Complete()
  {
    if p.Complete() {
      forall i | 0 <= i < p.geo.numPieces && p.Wants(i) ensures i in p.have {
        assert i !in p.Missing();
      }
    }
    if forall i :: 0 <= i < p.geo.numPieces && p.Wants(i) ==> i in p.have {
      assert p.Missing() == {};
    }
  }

  // ----- block accounting

  lemma ReleaseEffect(p: Picker, blocks: set<Block>)
    requires p.Valid()
    ensures p.Release(blocks).Valid()
    ensures forall b: Block :: p.Release(blocks).InFlight(b) == SatSub(p.InFlight(b), if b in blocks then 1 else 0)
    ensures forall b: Block :: p.Release(blocks).Received(b) == p.Received(b)
  {
    ReleaseKeepsValid(p, blocks);
    hide Picker.Valid;
  }

  lemma ReleaseKeepsValid(p: Picker, blocks: set<Block>)
    requires p.Valid()
    ensures p.Release(blocks).Valid()
  {
    assert p.Release(blocks).Missing() == p.Missing();
  }

  lemma LowerEffect(p: Picker, blk: Block, n: nat)
    requires p.Valid()
    ensures p.Lower(blk, n).Valid()
    ensures p.Lower(blk, n).InFlight(blk) == SatSub(p.InFlight(blk), n)
    ensures forall b: Block :: b != blk ==> p.Lower(blk, n).InFlight(b) == p.InFlight(b)
    ensures forall b: Block :: p.Lower(blk, n).Received(b) == p.Received(b)
  {
    assert p.Lower(blk, n).Missing() == p.Missing();
  }

  /** Two releases of one block are one release of two counts. */
  lemma LowerTwice(p: Picker, blk: Block, n: nat, m: nat)
    ensures p.Lower(blk, n).Lower(blk, m) == p.Lower(blk, n + m)
  {
    if blk.0 in p.progress && blk.1 < |p.progress[blk.0].inFlight| {
      var q, r := p.Lower(blk, n).Lower(blk, m), p.Lower(blk, n + m);
      assert q.progress[blk.0].inFlight == r.progress[blk.0].inFlight;
      assert q.progress == r.progress;
    }
  }

  lemma LowerNone(p: Picker, blk: Block)
    ensures p.Lower(blk, 0) == p
  {
    if blk.0 in p.progress && blk.1 < |p.progress[blk.0].inFlight| {
      assert p.Lower(blk, 0).progress[blk.0].inFlight == p.progress[blk.0].inFlight;
      assert p.Lower(blk, 0).progress == p.progress;
    }
  }

  /** Releasing a set is releasing its members one at a time, in any order. */
  lemma ReleaseOneMore(p: Picker, blocks: set<Block>, b: Block)
    requires b !in blocks
    ensures p.Release(blocks).BlockFailed(b) == p.Release(blocks + {b})
  {
    var mid, both := p.Release(blocks), p.Release(blocks + {b});
    forall i | i in p.progress ensures both.progress[i] == mid.BlockFailed(b).progress[i] {
      ReleasePieceOneMore(p, blocks, b, i);
    }
    assert both.progress == mid.BlockFailed(b).progress;
  }

  lemma ReleasePieceOneMore(p: Picker, blocks: set<Block>, b: Block, i: nat)
    requires b !in blocks && i in p.progress
    ensures p.Release(blocks + {b}).progress[i] == p.Release(blocks).BlockFailed(b).progress[i]
  {
    var pr := p.progress[i];
    ReleaseInOneMore(pr, i, blocks, b);
    assert p.Release(blocks).progress[i] == ReleaseIn(pr, i, blocks);
    assert p.Release(blocks + {b}).progress[i] == ReleaseIn(pr, i, blocks + {b});
  }

  lemma ReleaseInOneMore(pr: Progress, i: nat, blocks: set<Block>, b: Block)
    requires b !in blocks
    ensures b.0 != i || b.1 >= |pr.inFlight| ==> ReleaseIn(pr, i, blocks + {b}) == ReleaseIn(pr, i, blocks)
    ensures b.0 == i && b.1 < |pr.inFlight| ==>
      var once := ReleaseIn(pr, i, blocks);
      ReleaseIn(pr, i, blocks + {b}) == once.(inFlight := once.inFlight[b.1 := SatSub(once.inFlight[b.1], 1)])
  {
    var once, both := ReleaseIn(pr, i, blocks), ReleaseIn(pr, i, blocks + {b});
    if b.0 == i && b.1 < |pr.inFlight| {
      assert both.inFlight == once.inFlight[b.1 := SatSub(once.inFlight[b.1], 1)];
    } else {
      assert both.inFlight == once.inFlight;
    }
  }

  lemma ReleaseNothing(p: Picker)
    ensures p.Release({}) == p
  {
    forall i | i in p.progress ensures p.Release({}).progress[i] == p.progress[i] {
      assert p.Release({}).progress[i].inFlight == p.progress[i].inFlight;
    }
    assert p.Release({}).progress == p.progress;
  }

  lemma BlockReceivedEffect(p: Picker, blk: Block)
    requires p.Valid() && p.geo.InRange(blk) && blk.0 !in p.have
    ensures var (q, whole) := p.BlockReceived(blk);
      && q.Valid()
      && q == p.(progress := q.progress)
      && q.Received(blk)
      && q.InFlight(blk) == SatSub(p.InFlight(blk), 1)
      && (forall b: Block :: b != blk ==> q.InFlight(b) == p.InFlight(b) && q.Received(b) == p.Received(b))
      && (whole <==> forall k :: 0 <= k < p.geo.Blocks(blk.0) ==> q.Received((blk.0, k)))
  {
    hide Picker.BlockReceived, Picker.Valid;
    ReceivedTables(p, blk);
    ReceivedCounts(p, blk);
  }

  lemma ReceivedTables(p: Picker, blk: Block)
    requires p.Valid() && p.geo.InRange(blk) && blk.0 !in p.have
    ensures var (q, whole) := p.BlockReceived(blk);
      q.Valid() && q == p.(progress := q.progress)
  {
    hide ReceivedCount;
    SameTablesSameMissing(p, p.BlockReceived(blk).0);
  }

  lemma ReceivedCounts(p: Picker, blk: Block)
    requires p.Valid() && p.geo.InRange(blk) && blk.0 !in p.have
    ensures var (q, whole) := p.BlockReceived(blk);
      && q.Received(blk)
      && q.InFlight(blk) == SatSub(p.InFlight(blk), 1)
      && (forall b: Block :: b != blk ==> q.InFlight(b) == p.InFlight(b) && q.Received(b) == p.Received(b))
      && (whole <==> forall k :: 0 <= k < p.geo.Blocks(blk.0) ==> q.Received((blk.0, k)))
  {
    hide Picker.BlockReceived, Picker.Received, Picker.InFlight, Picker.Valid, Geometry.Blocks;
    ReceivedBlocks(p, blk);
    ReceivedWhole(p, blk);
  }

  lemma ReceivedBlocks(p: Picker, blk: Block)
    requires p.Valid() && p.geo.InRange(blk) && blk.0 !in p.have
    ensures var q := p.BlockReceived(blk).0;
      && q.Received(blk)
      && q.InFlight(blk) == SatSub(p.InFlight(blk), 1)
      && (forall b: Block :: b != blk ==> q.InFlight(b) == p.InFlight(b) && q.Received(b) == p.Received(b))
  {
    hide Picker.Missing, ReceivedCount;
  }

  lemma ReceivedWhole(p: Picker, blk: Block)
    requires p.Valid() && p.geo.InRange(blk) && blk.0 !in p.have
    ensures var (q, whole) := p.BlockReceived(blk);
      whole <==> forall k :: 0 <= k < p.geo.Blocks(blk.0) ==> q.Received((blk.0, k))
  {
    hide Picker.Missing;
    var pr := p.BlockReceived(blk).0.progress[blk.0];
    Counting.CountFull(pr.received, IsTrue);
    assert forall k :: 0 <= k < |pr.received| ==> pr.received[k] == p.BlockReceived(blk).0.Received((blk.0, k));
  }

  lemma BumpEffect(p: Picker, blocks: set<Block>)
    requires p.Valid()
    requires forall b :: b in blocks ==> p.geo.InRange(b) && b.0 !in p.have
    ensures p.Bump(blocks).Valid()
    ensures forall b: Block :: p.Bump(blocks).InFlight(b) == p.InFlight(b) + (if b in blocks then 1 else 0)
    ensures forall b: Block :: p.Bump(blocks).Received(b) == p.Received(b)
  {
    var q := p.Bump(blocks);
    assert q.Missing() == p.Missing();
    forall b: Block ensures q.InFlight(b) == p.InFlight(b) + (if b in blocks then 1 else 0) {
      if b in blocks { assert b.0 in Pieces(blocks); }
    }
  }

  lemma AvailabilityKeepsValid(p: Picker, field: set<nat>)
    requires p.Valid()
    ensures p.AddBitfield(field).Valid() && p.RemoveBitfield(field).Valid()
  {
    SameTablesSameMissing(p, p.AddBitfield(field));
    SameTablesSameMissing(p, p.RemoveBitfield(field));
  }

  lemma SameTablesSameMissing(p: Picker, q: Picker)
    requires p.geo == q.geo && p.priority == q.priority && p.have == q.have
    ensures p.Missing() == q.Missing()
  {}

  // ----- endgame

  /** The blocks still to come: of wanted missing pieces, not in yet. */
  function BlocksLeft(p: Picker, k: nat): set<Block>
    requires k <= |p.priority|
  {
    set i: nat, n: nat | i < k && p.priority[i] > 0 && i !in p.have && n < p.geo.Blocks(i) && !p.Received((i, n)) :: (i, n)
  }

  lemma {:induction false} CountedIn(xs: seq<bool>, i: nat)
    ensures |LeftIn(xs, i)| == |xs| - Counting.Count(xs, IsTrue)
  {
    if xs == [] {
      assert LeftIn(xs, i) == {};
    } else {
      var init, last := xs[..|xs| - 1], xs[|xs| - 1];
      CountedIn(init, i);
      var more: set<Block> := if last then {} else {(i, |init|)};
      forall b: Block ensures b in LeftIn(xs, i) <==> b in LeftIn(init, i) + more {}
      assert LeftIn(xs, i) == LeftIn(init, i) + more;
    }
  }

  function LeftIn(xs: seq<bool>, i: nat): set<Block> { set n: nat | n < |xs| && !xs[n] :: (i, n) }

  lemma RemainingInIs(p: Picker, i: nat)
    requires p.Valid() && i < p.geo.numPieces
    ensures p.RemainingIn(i) == |BlocksLeft(p, i + 1) - BlocksLeft(p, i)|
  {
    hide Picker.Missing;
    var more := BlocksLeft(p, i + 1) - BlocksLeft(p, i);
    if i in p.have || p.priority[i] == 0 {
      assert forall b :: b in BlocksLeft(p, i + 1) ==> b in BlocksLeft(p, i);
      assert more == {};
    } else {
      var xs := p.Track(i).received;
      Counting.CountFull(xs, IsTrue);
      CountedIn(xs, i);
      forall b: Block ensures b in more <==> b in LeftIn(xs, i) {
        assert b.0 == i && b.1 < |xs| ==> (p.Received(b) <==> xs[b.1]);
      }
      assert more == LeftIn(xs, i);
    }
  }

  lemma {:induction false} RemainingIsTheBlocksLeft(p: Picker, k: nat)
    requires p.Valid() && k <= p.geo.numPieces
    ensures p.RemainingBelow(k) == |BlocksLeft(p, k)|
  {
    hide Picker.Missing, Picker.RemainingIn, BlocksLeft;
    if k == 0 {
      NoneLeft(p);
    } else {
      RemainingIsTheBlocksLeft(p, k - 1);
      RemainingInIs(p, k - 1);
      LeftGrows(p, k - 1);
      SizesAdd(BlocksLeft(p, k - 1), BlocksLeft(p, k));
    }
  }

  lemma NoneLeft(p: Picker)
    ensures BlocksLeft(p, 0) == {}
  {}

  lemma SizesAdd(a: set<Block>, b: set<Block>)
    requires a <= b
    ensures |b| == |a| + |b - a|
  {
    assert b == a + (b - a);
  }

  lemma LeftGrows(p: Picker, k: nat)
    requires k < |p.priority|
    ensures BlocksLeft(p, k) <= BlocksLeft(p, k + 1)
  {}

  /** Duplicates are allowed exactly when there is a threshold and no more blocks
      than that are still to come, whatever threshold is below `u32::MAX`. */
  lemma EndgameMeansFewBlocksLeft(p: Picker)
    requires p.Valid() && p.endgameBlocks < U32_MAX
    ensures p.InEndgame() <==> p.endgameBlocks != 0 && |BlocksLeft(p, p.geo.numPieces)| <= p.endgameBlocks
  {
    hide Picker.Missing;
    RemainingIsTheBlocksLeft(p, p.geo.numPieces);
  }

  /** The early-exit saturating sum answers the real question exactly when the
      threshold is below `u32::MAX` or that many blocks do not remain. */
  lemma EndgameExact(p: Picker)
    requires p.endgameBlocks <= U32_MAX
    ensures p.InEndgame() == p.FewRemain()
      <==> p.endgameBlocks < U32_MAX || p.RemainingBelow(p.geo.numPieces) <= U32_MAX
  {}

  /** Enough pieces, none of them started, for more than `u32::MAX` blocks. */
  function Huge(): Picker {
    NewPicker(Geometry(16386, 262143 * BLOCK_LEN, 16386 * (262143 * BLOCK_LEN)), RarestFirst).(endgameBlocks := U32_MAX)
  }

  lemma {:induction false} HugeRemains(k: nat)
    requires k <= 16386
    ensures Huge().RemainingBelow(k) == k * 262143
  {
    hide Picker.RemainingIn;
    if k > 0 {
      HugeRemains(k - 1);
      HugePiece(k - 1);
    }
  }

  lemma HugePiece(i: nat)
    requires i < 16386
    ensures Huge().RemainingIn(i) == 262143
  {
    var geo := Huge().geo;
    assert geo.PieceStart(i) + 262143 * BLOCK_LEN <= geo.totalLength;
    assert geo.PieceLen(i) == 262143 * BLOCK_LEN && geo.Blocks(i) == 262143;
    hide Geometry.PieceLen, Geometry.Blocks;
    Counting.CountZero(Fresh(262143).received, IsTrue);
  }

  /** With a threshold of `u32::MAX` the saturating sum does misjudge. */
  lemma EndgameCanMisjudge()
    ensures Huge().Valid() && Huge().InEndgame() && !Huge().FewRemain()
  {
    hide Picker.RemainingBelow, Picker.Missing, Picker.Wants;
    HugeRemains(16386);
    HugeIsValid();
  }

  lemma HugeIsValid()
    ensures Huge().geo.Valid() && Huge().geo.numPieces == 16386 && Huge().Valid()
  {
    var geo := Huge().geo;
    assert geo.Valid();
    hide Geometry.Valid;
    NewPickerValid(geo, RarestFirst);
    ThresholdIsFree(NewPicker(geo, RarestFirst));
  }

  lemma ThresholdIsFree(p: Picker)
    requires p.Valid()
    ensures p.(endgameBlocks := U32_MAX).Valid()
  {
    SameTablesSameMissing(p, p.(endgameBlocks := U32_MAX));
  }

  lemma {:induction false} RemainingGrows(p: Picker, k: nat, n: nat)
    requires k <= n
    ensures p.RemainingBelow(k) <= p.RemainingBelow(n)
    decreases n
  {
    if k < n { RemainingGrows(p, k, n - 1); }
  }

  // ----- candidates

  lemma OrderIsTotal(p: Picker)
    ensures Sorting.TotalOrder(p.Order()) && Sorting.Antisymmetric(p.Order())
  {}

  lemma {:induction false} CandidatesBelowMembers(p: Picker, has: set<nat>, k: nat)
    ensures forall i :: i in p.CandidatesBelow(has, k) <==> 0 <= i < k && p.IsCandidate(has, i)
    ensures Sorting.Distinct(p.CandidatesBelow(has, k))
  {
    if k > 0 { CandidatesBelowMembers(p, has, k - 1); }
  }

  lemma CandidateOrderFacts(p: Picker, has: set<nat>)
    requires p.Valid()
    ensures forall i: nat :: i in p.CandidateOrder(has) <==> p.IsCandidate(has, i)
    ensures Sorting.Distinct(p.CandidateOrder(has))
    ensures Sorting.SortedBy(p.Order(), p.CandidateOrder(has))
  {
    var cs := p.CandidatesBelow(has, p.geo.numPieces);
    CandidatesBelowMembers(p, has, p.geo.numPieces);
    OrderIsTotal(p);
    Sorting.SortMembers(p.Order(), cs);
    Sorting.SortDistinct(p.Order(), cs);
    Sorting.SortSorts(p.Order(), cs);
  }

  // ----- the offer

  /** `a` is to be asked for before `b`: started pieces first, then priority,
      then rarity or index, then position within the piece. */
  predicate Precedes(p: Picker, a: Block, b: Block) {
    p.Before(a.0, b.0) && (a.0 == b.0 ==> a.1 < b.1)
  }

  ghost predicate Ordered(p: Picker, s: seq<Block>) {
    forall i, j :: 0 <= i < j < |s| ==> Precedes(p, s[i], s[j]) && s[i] != s[j]
  }

  lemma {:induction false} OpenBelowFacts(p: Picker, endgame: bool, i: nat, k: nat)
    ensures forall b: Block :: b in p.OpenBelow(endgame, i, k) <==> b.0 == i && b.1 < k && p.Open(endgame, b)
    ensures Ordered(p, p.OpenBelow(endgame, i, k))
  {
    if k > 0 {
      OpenBelowFacts(p, endgame, i, k - 1);
      var s := p.OpenBelow(endgame, i, k);
      forall a, b | 0 <= a < b < |s| ensures Precedes(p, s[a], s[b]) && s[a] != s[b] {
        assert s[a] in p.OpenBelow(endgame, i, k - 1);
      }
    }
  }

  /** The next block of a piece, looked at in the accounting as bumped so far. */
  lemma NextOpen(p: Picker, endgame: bool, i: nat, b: nat)
    requires p.Valid() && b < p.geo.Blocks(i)
    ensures var more, tracked := p.OpenBelow(endgame, i, b), p.Track(i);
      var pr := BumpIn(tracked, i, BlockSet(more));
      && |pr.received| == |pr.inFlight| == |tracked.inFlight| == p.geo.Blocks(i)
      && (i, b) !in more
      && p.OpenBelow(endgame, i, b + 1) ==
        more + (if !pr.received[b] && (endgame || pr.inFlight[b] == 0) then [(i, b)] else [])
  {
    OpenBelowFacts(p, endgame, i, b);
  }

  lemma {:induction false} OpenInMembers(p: Picker, endgame: bool, order: seq<nat>)
    ensures forall b: Block :: b in p.OpenIn(endgame, order) <==>
      b.0 in order && b.1 < p.geo.Blocks(b.0) && p.Open(endgame, b)
  {
    if order != [] {
      var init, last := order[..|order| - 1], order[|order| - 1];
      OpenInMembers(p, endgame, init);
      OpenBelowFacts(p, endgame, last, p.geo.Blocks(last));
      assert order == init + [last];
    }
  }

  lemma {:induction false} OpenInFacts(p: Picker, endgame: bool, order: seq<nat>)
    requires Sorting.SortedBy(p.Order(), order) && Sorting.Distinct(order)
    ensures Ordered(p, p.OpenIn(endgame, order))
  {
    if order != [] {
      var init, last := order[..|order| - 1], order[|order| - 1];
      Sorting.InitSorted(p.Order(), order);
      OpenInFacts(p, endgame, init);
      OpenBelowFacts(p, endgame, last, p.geo.Blocks(last));
      assert order == init + [last];
      var front, back := p.OpenIn(endgame, init), p.OpenBelow(endgame, last, p.geo.Blocks(last));
      forall a, b | 0 <= a < |front| && 0 <= b < |back| ensures Precedes(p, front[a], back[b]) && front[a] != back[b] {
        assert front[a] in front && back[b] in back;
        OpenInMembers(p, endgame, init);
        assert front[a].0 in init;
        var k :| 0 <= k < |init| && init[k] == front[a].0;
        assert p.Order()(order[k], order[|order| - 1]);
        assert order[k] != order[|order| - 1];
      }
      JoinOrdered(p, front, back);
    }
  }

  lemma JoinOrdered(p: Picker, front: seq<Block>, back: seq<Block>)
    requires Ordered(p, front) && Ordered(p, back)
    requires forall a, b :: 0 <= a < |front| && 0 <= b < |back| ==>
      Precedes(p, front[a], back[b]) && front[a] != back[b]
    ensures Ordered(p, front + back)
  {
    var s := front + back;
    forall i, j | 0 <= i < j < |s| ensures Precedes(p, s[i], s[j]) && s[i] != s[j] {
      if j >= |front| && i < |front| {
        assert Precedes(p, front[i], back[j - |front|]);
      } else if i >= |front| {
        assert Precedes(p, back[i - |front|], back[j - |front|]);
      }
    }
  }

  lemma OfferedFacts(p: Picker, has: set<nat>)
    requires p.Valid()
    ensures forall b: Block :: b in p.Offered(has) <==>
      p.IsCandidate(has, b.0) && p.geo.InRange(b) && p.Open(p.InEndgame(), b)
    ensures Ordered(p, p.Offered(has))
  {
    CandidateOrderFacts(p, has);
    OpenInFacts(p, p.InEndgame(), p.CandidateOrder(has));
    OpenInMembers(p, p.InEndgame(), p.CandidateOrder(has));
  }

  /** What `pick` hands out: at most `want` distinct blocks, each one a block
      of a wanted missing piece the peer has, best first; no block left out
      should have gone before one handed out; and when it hands out fewer than
      `want`, nothing the peer could be asked for is left. */
  lemma PickHandsOutTheBest(p: Picker, has: set<nat>, want: nat)
    requires p.Valid()
    ensures var out := p.PickBlocks(has, want);
      && |out| <= want
      && Ordered(p, out)
      && (forall b: Block :: b in out ==>
            p.IsCandidate(has, b.0) && p.geo.InRange(b) && p.Open(p.InEndgame(), b))
      && (forall b: Block :: b !in out && p.IsCandidate(has, b.0) && p.geo.InRange(b) && p.Open(p.InEndgame(), b) ==>
            |out| == want && forall a :: a in out ==> Precedes(p, a, b))
  {
    OfferedFacts(p, has);
    var all, out := p.Offered(has), p.PickBlocks(has, want);
    forall b: Block | b in out ensures b in all {}
    forall b: Block | b !in out && b in all
      ensures |out| == want && forall a :: a in out ==> Precedes(p, a, b)
    {
      var j: nat :| j < |all| && all[j] == b;
      assert forall k :: 0 <= k < |out| ==> out[k] == all[k];
      forall a | a in out ensures Precedes(p, a, b) {
        var i :| 0 <= i < |out| && out[i] == a;
        assert all[i] == a;
      }
    }
  }

  /** The order blocks are handed out in, in terms of the tables: blocks of
      started pieces first; at equal startedness higher priority first; at equal
      priority, if rare pieces go first, the piece fewer peers have; then the
      lower piece; and within a piece the lower block. */
  predicate Sooner(p: Picker, a: Block, b: Block)
    requires a.0 < |p.priority| && b.0 < |p.priority| && a.0 < |p.availability| && b.0 < |p.availability|
  {
    var level := (a.0 in p.progress) == (b.0 in p.progress);
    var even := level && p.priority[a.0] == p.priority[b.0];
    && (b.0 in p.progress ==> a.0 in p.progress)
    && (level ==> p.priority[a.0] >= p.priority[b.0])
    && (even && p.mode == RarestFirst ==> p.availability[a.0] <= p.availability[b.0])
    && (even && (p.mode == RarestFirst ==> p.availability[a.0] == p.availability[b.0]) ==> a.0 <= b.0)
    && (a.0 == b.0 ==> a.1 < b.1)
  }

  lemma PrecedesIsSooner(p: Picker, a: Block, b: Block)
    requires p.Valid() && a.0 < p.geo.numPieces && b.0 < p.geo.numPieces && Precedes(p, a, b)
    ensures Sooner(p, a, b)
  {
    hide Picker.Missing;
  }

  /** What may be asked of a peer: a block of a wanted missing piece it has, not
      in yet, and owed by nobody unless the end is near. */
  predicate Eligible(p: Picker, has: set<nat>, b: Block) {
    && b.0 < |p.priority| && b.0 < |p.availability| && b.0 in has && b.0 !in p.have && p.priority[b.0] > 0
    && b.1 < p.geo.Blocks(b.0) && !p.Received(b) && (p.InFlight(b) == 0 || p.InEndgame())
  }

  lemma EligibleIs(p: Picker, has: set<nat>, b: Block)
    requires p.Valid()
    ensures Eligible(p, has, b) <==> p.IsCandidate(has, b.0) && p.geo.InRange(b) && p.Open(p.InEndgame(), b)
  {
    hide Picker.InEndgame, Picker.Missing, Picker.Received, Picker.InFlight;
  }

  /** What is handed out is eligible, each block once, and comes in that order;
      and an eligible block is left out only if as many as were wanted are handed
      out that all come sooner. */
  lemma PickIsInOrder(p: Picker, has: set<nat>, want: nat)
    requires p.Valid()
    ensures var out := p.PickBlocks(has, want);
      && (forall b :: b in out ==> Eligible(p, has, b))
      && (forall i, j :: 0 <= i < j < |out| ==> out[i] != out[j] && Eligible(p, has, out[i]) && Eligible(p, has, out[j]) && Sooner(p, out[i], out[j]))
      && (forall b: Block :: b !in out && Eligible(p, has, b) ==> |out| == want)
      && (forall a, b: Block :: a in out && b !in out && Eligible(p, has, a) && Eligible(p, has, b) ==> Sooner(p, a, b))
  {
    hide Picker.PickBlocks, Picker.InEndgame, Picker.Open, Precedes, Sooner, Picker.Missing;
    var out := p.PickBlocks(has, want);
    PickHandsOutTheBest(p, has, want);
    forall b: Block ensures Eligible(p, has, b) <==> p.IsCandidate(has, b.0) && p.geo.InRange(b) && p.Open(p.InEndgame(), b) {
      EligibleIs(p, has, b);
    }
    hide Eligible;
    forall i, j | 0 <= i < j < |out|
      ensures out[i] != out[j] && Eligible(p, has, out[i]) && Eligible(p, has, out[j]) && Sooner(p, out[i], out[j])
    {
      assert out[i] in out && out[j] in out && Precedes(p, out[i], out[j]);
      PrecedesIsSooner(p, out[i], out[j]);
    }
    forall a, b: Block | a in out && b !in out && Eligible(p, has, a) && Eligible(p, has, b) ensures Sooner(p, a, b) {
      PrecedesIsSooner(p, a, b);
    }
  }

  /** The picker after a pick: one more request for exactly the blocks handed
      out, nothing else moved. */
  lemma AfterPickEffect(p: Picker, has: set<nat>, want: nat)
    requires p.Valid()
    ensures p.AfterPick(has, want).Valid()
    ensures forall b: Block ::
      && p.AfterPick(has, want).InFlight(b) == p.InFlight(b) + (if b in p.PickBlocks(has, want) then 1 else 0)
      && p.AfterPick(has, want).Received(b) == p.Received(b)
  {
    PickHandsOutTheBest(p, has, want);
    BumpEffect(p, BlockSet(p.PickBlocks(has, want)));
  }

  // ----- the picking loop: one block, one piece, the early exits

  lemma BumpNothing(p: Picker)
    ensures p.Bump(BlockSet([])) == p
  {
    assert Pieces(BlockSet([])) == {};
    forall i | i in p.progress ensures BumpIn(p.Track(i), i, BlockSet([])) == p.progress[i] {
      assert BumpIn(p.Track(i), i, BlockSet([])).inFlight == p.progress[i].inFlight;
    }
    assert p.Bump(BlockSet([])).progress == p.progress;
  }

  /** Counting one more block of a piece, in place. */
  lemma BumpInOneMore(pr: Progress, taken: seq<Block>, b: Block)
    requires b !in taken && b.1 < |pr.inFlight|
    ensures var once := BumpIn(pr, b.0, BlockSet(taken));
      BumpIn(pr, b.0, BlockSet(taken + [b])) == once.(inFlight := once.inFlight[b.1 := once.inFlight[b.1] + 1])
  {
    var once, both := BumpIn(pr, b.0, BlockSet(taken)), BumpIn(pr, b.0, BlockSet(taken + [b]));
    assert BlockSet(taken + [b]) == BlockSet(taken) + {b};
    assert both.inFlight == once.inFlight[b.1 := once.inFlight[b.1] + 1];
  }

  /** Blocks of other pieces do not move a piece's accounting. */
  lemma BumpInElsewhere(pr: Progress, i: nat, blocks: set<Block>, more: set<Block>)
    requires forall b :: b in more ==> b.0 != i
    ensures BumpIn(pr, i, blocks + more) == BumpIn(pr, i, blocks)
  {
    assert BumpIn(pr, i, blocks + more).inFlight == BumpIn(pr, i, blocks).inFlight;
  }

  /** Writing a piece's accounting back completes the bump. */
  lemma BumpJoins(p: Picker, front: seq<Block>, more: seq<Block>, i: nat, pr: Progress)
    requires forall b :: b in front ==> b.0 != i
    requires forall b :: b in more ==> b.0 == i
    requires pr == BumpIn(p.Track(i), i, BlockSet(more))
    requires i !in p.progress ==> more != []
    ensures p.Bump(BlockSet(front + more)) ==
      p.Bump(BlockSet(front)).(progress := p.Bump(BlockSet(front)).progress[i := pr])
  {
    var f, m := BlockSet(front), BlockSet(more);
    assert BlockSet(front + more) == f + m;
    assert Pieces(f + m) == Pieces(f) + Pieces(m);
    assert Pieces(m) == if more == [] then {} else {i} by {
      if more != [] { assert more[0] in m; }
    }
    var q, r := p.Bump(f).progress[i := pr], p.Bump(f + m).progress;
    forall j | j in r ensures r[j] == q[j] {
      if j == i {
        assert m + f == f + m;
        BumpInElsewhere(p.Track(i), i, m, f);
      } else {
        BumpInElsewhere(p.Track(j), j, f, m);
      }
    }
    assert r == q;
  }

  lemma RequestsPush(geo: Geometry, bs: seq<Block>, b: Block)
    ensures Requests(geo, bs + [b]) == Requests(geo, bs) + [geo.RequestFor(b)]
  {}

  lemma {:induction false} OpenBelowPrefix(p: Picker, endgame: bool, i: nat, k: nat, n: nat)
    requires k <= n
    ensures p.OpenBelow(endgame, i, k) <= p.OpenBelow(endgame, i, n)
    decreases n
  {
    if k < n { OpenBelowPrefix(p, endgame, i, k, n - 1); }
  }

  lemma {:induction false} OpenInPrefix(p: Picker, endgame: bool, order: seq<nat>, k: nat)
    requires k <= |order|
    ensures p.OpenIn(endgame, order[..k]) <= p.OpenIn(endgame, order)
    decreases |order|
  {
    if k < |order| {
      var init := order[..|order| - 1];
      assert init[..k] == order[..k];
      OpenInPrefix(p, endgame, init, k);
    } else {
      assert order[..k] == order;
    }
  }

  /** A full hand stays full: what comes after the last block taken is not looked at. */
  lemma TakeStops<T>(s: seq<T>, t: seq<T>, n: nat)
    requires s <= t && (|s| < n ==> s == t)
    ensures Take(s, n) == Take(t, n)
  {
    if |s| >= n { assert s[..n] == t[..n]; }
  }

  /** An untouched piece always has a block to give. */
  lemma FreshPieceIsOpen(p: Picker, endgame: bool, i: nat, k: nat)
    requires p.Valid() && i !in p.progress && 0 < k
    ensures (i, 0) in p.OpenBelow(endgame, i, k)
  {
    OpenBelowFacts(p, endgame, i, k);
  }

  lemma BumpInNothing(pr: Progress, i: nat)
    ensures BumpIn(pr, i, BlockSet([])) == pr
  {
    assert BumpIn(pr, i, BlockSet([])).inFlight == pr.inFlight;
  }

  /** Choosing blocks of other pieces leaves a piece as it was. */
  lemma StillUntouched(p: Picker, front: seq<Block>, i: nat)
    requires forall b :: b in front ==> b.0 != i
    ensures p.Bump(BlockSet(front)).Track(i) == p.Track(i)
  {
    BumpInNothing(p.Track(i), i);
    BumpInElsewhere(p.Track(i), i, BlockSet([]), BlockSet(front));
    assert BlockSet([]) + BlockSet(front) == BlockSet(front);
    assert i !in Pieces(BlockSet(front));
  }

  /** Filling a hand from two piles in turn is filling it from both. */
  lemma TakeSplits<T>(s: seq<T>, t: seq<T>, n: nat)
    requires |s| < n
    ensures s + Take(t, n - |s|) == Take(s + t, n)
  {}

  lemma NothingOpen(p: Picker, endgame: bool)
    ensures p.OpenIn(endgame, []) == []
  {}

  /** The loop arrives at candidate `k` with room in the hand: nothing taken so
      far belongs to it, and what it gives extends the hand in offer order. */
  lemma NextPiece(p: Picker, has: set<nat>, endgame: bool, k: nat, want: nat, taken: seq<Block>)
    requires p.Valid()
    requires var order := p.CandidateOrder(has);
      k < |order| && |taken| < want && taken == Take(p.OpenIn(endgame, order[..k]), want)
    ensures var order := p.CandidateOrder(has);
      && p.IsCandidate(has, order[k])
      && (forall b :: b in taken ==> b.0 != order[k])
      && taken + Take(p.OpenBelow(endgame, order[k], p.geo.Blocks(order[k])), want - |taken|)
         == Take(p.OpenIn(endgame, order[..k + 1]), want)
  {
    hide Picker.OpenBelow, Picker.Open, Picker.CandidateOrder, Picker.Valid, Picker.IsCandidate;
    var order := p.CandidateOrder(has);
    CandidateOrderFacts(p, has);
    assert order[k] in order;
    OpenInMembers(p, endgame, order[..k]);
    assert order[..k + 1][..k] == order[..k];
    TakeSplits(taken, p.OpenBelow(endgame, order[k], p.geo.Blocks(order[k])), want);
  }

  /** The loop stopped with the hand full or the candidates used up. */
  lemma HandIsFull(p: Picker, endgame: bool, order: seq<nat>, k: nat, want: nat)
    requires k <= |order|
    requires k < |order| ==> |p.OpenIn(endgame, order[..k])| >= want
    ensures Take(p.OpenIn(endgame, order[..k]), want) == Take(p.OpenIn(endgame, order), want)
  {
    OpenInPrefix(p, endgame, order, k);
    assert k == |order| ==> order[..k] == order;
    TakeStops(p.OpenIn(endgame, order[..k]), p.OpenIn(endgame, order), want);
  }
}
