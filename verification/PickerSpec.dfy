// The piece picker as a value: what each operation of
// crates/clove-core/src/picker.rs does to the tables, in closed form.
module PickerSpec {
  import opened Prelude
  import opened Wire
  import Counting
  import Sorting

  datatype Mode = RarestFirst | Sequential

  /** Block accounting of a started piece. */
  datatype Progress = Progress(received: seq<bool>, inFlight: seq<nat>)

  function Fresh(blocks: nat): Progress {
    Progress(seq(blocks, _ => false), seq(blocks, _ => 0))
  }

  function IsTrue(x: bool): bool { x }

  function ReceivedCount(pr: Progress): nat { Counting.Count(pr.received, IsTrue) }

  function Pieces(blocks: set<Block>): set<nat> { set b | b in blocks :: b.0 }

  function Raised(counts: seq<nat>, field: set<nat>): seq<nat> {
    seq(|counts|, i requires 0 <= i < |counts| => counts[i] + (if i in field then 1 else 0))
  }

  function Lowered(counts: seq<nat>, field: set<nat>): seq<nat> {
    seq(|counts|, i requires 0 <= i < |counts| => SatSub(counts[i], if i in field then 1 else 0))
  }

  /** The lexicographic sort key of a candidate piece. */
  datatype Key = Key(group: nat, urgency: nat, rarity: nat, index: nat)

  predicate KeyLeq(a: Key, b: Key) {
    a.group < b.group || (a.group == b.group && (
      a.urgency < b.urgency || (a.urgency == b.urgency && (
        a.rarity < b.rarity || (a.rarity == b.rarity && a.index <= b.index)))))
  }

  datatype Picker = Picker(
    geo: Geometry,
    mode: Mode,
    endgameBlocks: nat,
    availability: seq<nat>,
    have: set<nat>,
    progress: map<nat, Progress>,
    priority: seq<byte>,
    missingWanted: nat)
  {
    predicate Wants(i: nat) { i < |priority| && priority[i] > 0 }

    /** Wanted pieces not yet held. */
    function Missing(): set<nat> { MissingBelow(geo.numPieces) }

    function MissingBelow(k: nat): set<nat> { set i: nat | i < k && Wants(i) && i !in have }

    /** What picker.rs asserts of itself (its `check_invariants`). */
    predicate Valid() {
      && geo.Valid()
      && endgameBlocks <= U32_MAX
      && |availability| == geo.numPieces
      && |priority| == geo.numPieces
      && (forall i :: i in have ==> i < geo.numPieces)
      && (forall i :: i in progress ==>
            && i < geo.numPieces
            && i !in have
            && |progress[i].received| == geo.Blocks(i)
            && |progress[i].inFlight| == geo.Blocks(i))
      && missingWanted == |Missing()|
    }

    predicate Complete() { missingWanted == 0 }

    /** The accounting of a piece, as first use would create it. */
    function Track(i: nat): Progress {
      if i in progress then progress[i] else Fresh(geo.Blocks(i))
    }

    /** Requests outstanding for a block. */
    function InFlight(b: Block): nat {
      if b.0 in progress && b.1 < |progress[b.0].inFlight| then progress[b.0].inFlight[b.1] else 0
    }

    predicate Received(b: Block) {
      b.0 in progress && b.1 < |progress[b.0].received| && progress[b.0].received[b.1]
    }

    // ----- availability

    function AddBitfield(field: set<nat>): Picker {
      this.(availability := Raised(availability, field))
    }

    function RemoveBitfield(field: set<nat>): Picker {
      this.(availability := Lowered(availability, field))
    }

    function AddSingle(i: nat): Picker {
      if i < |availability| then this.(availability := availability[i := availability[i] + 1]) else this
    }

    // ----- verdicts and priorities

    function SetHave(i: nat): Picker {
      if i >= geo.numPieces then this
      else this.(
        missingWanted := if i !in have && Wants(i) then SatSub(missingWanted, 1) else missingWanted,
        have := have + {i},
        progress := progress - {i})
    }

    function ResetPiece(i: nat): Picker {
      if i >= geo.numPieces then this
      else this.(
        missingWanted := if i in have && Wants(i) then missingWanted + 1 else missingWanted,
        have := have - {i},
        progress := progress - {i})
    }

    /** A short list leaves the rest at normal priority; extra entries are ignored. */
    function SetPriorities(perPiece: seq<byte>): Picker {
      var ps := seq(|priority|, i requires 0 <= i < |priority| =>
        if i < |perPiece| then perPiece[i] else 1);
      var p := this.(priority := ps);
      p.(missingWanted := |p.Missing()|)
    }

    // ----- block accounting

    /** Give back one count for every block of `blocks`. */
    function Release(blocks: set<Block>): Picker {
      this.(progress := map i | i in progress :: ReleaseIn(progress[i], i, blocks))
    }

    /** Give back `n` counts for one block. */
    function Lower(blk: Block, n: nat): Picker {
      if blk.0 in progress && blk.1 < |progress[blk.0].inFlight| then
        var pr := progress[blk.0];
        this.(progress := progress[blk.0 := pr.(inFlight := pr.inFlight[blk.1 := SatSub(pr.inFlight[blk.1], n)])])
      else this
    }

    function BlockFailed(blk: Block): Picker { Lower(blk, 1) }

    /** The new state, and whether the block completed its piece. */
    function BlockReceived(blk: Block): (Picker, bool) {
      if blk.0 >= geo.numPieces || blk.0 in have then (this, false)
      else
        var pr := Track(blk.0);
        if blk.1 >= |pr.received| || blk.1 >= |pr.inFlight| then (this.(progress := progress[blk.0 := pr]), false)
        else
          var pr' := Progress(pr.received[blk.1 := true], pr.inFlight[blk.1 := SatSub(pr.inFlight[blk.1], 1)]);
          (this.(progress := progress[blk.0 := pr']), ReceivedCount(pr') == geo.Blocks(blk.0))
    }

    // ----- picking

    function RemainingIn(i: nat): nat {
      if i in have || !Wants(i) then 0 else SatSub(geo.Blocks(i), ReceivedCount(Track(i)))
    }

    /** Unreceived blocks of the wanted missing pieces below `k`. */
    function RemainingBelow(k: nat): nat {
      if k == 0 then 0 else RemainingBelow(k - 1) + RemainingIn(k - 1)
    }

    /** Endgame as it ought to be: few enough blocks remain in the torrent. */
    predicate FewRemain() {
      endgameBlocks != 0 && RemainingBelow(geo.numPieces) <= endgameBlocks
    }

    /** Endgame as the code decides it, summing into a saturating `u32`. */
    predicate InEndgame() {
      endgameBlocks != 0 && Min(RemainingBelow(geo.numPieces), U32_MAX) <= endgameBlocks
    }

    function SortKey(i: nat): Key
      requires i < |priority| && i < |availability|
    {
      Key(if i in progress then 0 else 1, 255 - priority[i],
          if mode == RarestFirst then availability[i] else 0, i)
    }

    /** Candidates compare by key; anything past the tables comes last. */
    predicate Before(i: nat, j: nat) {
      if i < |priority| && i < |availability| then
        if j < |priority| && j < |availability| then KeyLeq(SortKey(i), SortKey(j)) else true
      else
        !(j < |priority| && j < |availability|) && i <= j
    }

    function Order(): (nat, nat) -> bool { (i: nat, j: nat) => Before(i, j) }

    predicate IsCandidate(peerHas: set<nat>, i: nat) {
      i < geo.numPieces && i in peerHas && i !in have && Wants(i)
    }

    function CandidatesBelow(peerHas: set<nat>, k: nat): seq<nat> {
      if k == 0 then []
      else CandidatesBelow(peerHas, k - 1) + (if IsCandidate(peerHas, k - 1) then [k - 1] else [])
    }

    function CandidateOrder(peerHas: set<nat>): seq<nat> {
      Sorting.Sort(Order(), CandidatesBelow(peerHas, geo.numPieces))
    }

    /** A block of a candidate piece may be asked for: it has not arrived, and
        nobody owes it unless duplicates are allowed. */
    predicate Open(endgame: bool, b: Block) {
      !Received(b) && (endgame || InFlight(b) == 0)
    }

    function OpenBelow(endgame: bool, i: nat, k: nat): seq<Block> {
      if k == 0 then []
      else OpenBelow(endgame, i, k - 1) + (if Open(endgame, (i, k - 1)) then [(i, k - 1)] else [])
    }

    function OpenIn(endgame: bool, order: seq<nat>): seq<Block> {
      if order == [] then []
      else
        var last := order[|order| - 1];
        OpenIn(endgame, order[..|order| - 1]) + OpenBelow(endgame, last, geo.Blocks(last))
    }

    /** Every block that could be asked of a peer, best first. */
    function Offered(peerHas: set<nat>): seq<Block> {
      OpenIn(InEndgame(), CandidateOrder(peerHas))
    }

    function PickBlocks(peerHas: set<nat>, want: nat): seq<Block> {
      Take(Offered(peerHas), want)
    }

    /** Count one more request for every block of `blocks`, starting pieces as needed. */
    function Bump(blocks: set<Block>): Picker {
      this.(progress := map i | i in progress.Keys + Pieces(blocks) :: BumpIn(Track(i), i, blocks))
    }

    function AfterPick(peerHas: set<nat>, want: nat): Picker {
      Bump(BlockSet(PickBlocks(peerHas, want)))
    }
  }

  function ReleaseIn(pr: Progress, i: nat, blocks: set<Block>): Progress {
    pr.(inFlight := seq(|pr.inFlight|, b requires 0 <= b < |pr.inFlight| =>
      SatSub(pr.inFlight[b], if (i, b) in blocks then 1 else 0)))
  }

  function BumpIn(pr: Progress, i: nat, blocks: set<Block>): Progress {
    pr.(inFlight := seq(|pr.inFlight|, b requires 0 <= b < |pr.inFlight| =>
      pr.inFlight[b] + (if (i, b) in blocks then 1 else 0)))
  }

  function Take<T>(s: seq<T>, n: nat): seq<T> { if |s| <= n then s else s[..n] }

  function Requests(geo: Geometry, bs: seq<Block>): seq<BlockRequest> {
    seq(|bs|, k requires 0 <= k < |bs| => geo.RequestFor(bs[k]))
  }

  function BlockSet(bs: seq<Block>): set<Block> { set b | b in bs }

  /** A picker for a torrent nothing is known about. */
  function NewPicker(geo: Geometry, mode: Mode): Picker {
    Picker(geo, mode, 32, seq(geo.numPieces, _ => 0), {}, map[], seq(geo.numPieces, _ => 1), geo.numPieces)
  }
}
