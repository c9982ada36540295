// The picker as the mutable object of crates/clove-core/src/picker.rs, each
// method proved against its closed form in PickerSpec.
module Pickers {
  import opened Prelude
  import opened Wire
  import Spec = PickerSpec
  import opened PickerTheory
  import Counting
  import Sorting

  class Picker {
    const geo: Geometry
    var mode: Spec.Mode
    var endgameBlocks: nat
    var availability: seq<nat>
    var have: set<nat>
    var progress: map<nat, Spec.Progress>
    var priority: seq<byte>
    var missingWanted: nat

    function View(): Spec.Picker
      reads this
    {
      Spec.Picker(geo, mode, endgameBlocks, availability, have, progress, priority, missingWanted)
    }

    constructor (geo: Geometry, mode: Spec.Mode)
      requires geo.Valid()
      ensures View() == Spec.NewPicker(geo, mode) && View().Valid()
    {
      this.geo := geo;
      this.mode := mode;
      endgameBlocks := 32;
      availability := seq(geo.numPieces, _ => 0);
      have := {};
      progress := map[];
      priority := seq(geo.numPieces, _ => 1);
      missingWanted := geo.numPieces;
      new;
      assert availability == seq(geo.numPieces, _ => 0);
      assert priority == seq(geo.numPieces, _ => 1);
      NewPickerValid(geo, mode);
    }

    method SetMode(mode: Spec.Mode)
      requires View().Valid()
      modifies this
      ensures View() == old(View()).(mode := mode) && View().Valid()
    {
      this.mode := mode;
      SameTablesSameMissing(old(View()), View());
    }

    // ----- availability

    method AddBitfield(field: set<nat>)
      requires View().Valid()
      modifies this
      ensures View() == old(View()).AddBitfield(field) && View().Valid()
    {
      var i := 0;
      while i < geo.numPieces
        invariant i <= geo.numPieces && |availability| == geo.numPieces
        invariant View() == old(View()).(availability := availability)
        invariant forall k :: 0 <= k < i ==> availability[k] == old(availability)[k] + (if k in field then 1 else 0)
        invariant forall k :: i <= k < geo.numPieces ==> availability[k] == old(availability)[k]
      {
        if i in field {
          availability := availability[i := availability[i] + 1];
        }
        i := i + 1;
      }
      assert availability == Spec.Raised(old(availability), field);
      AvailabilityKeepsValid(old(View()), field);
    }

    method RemoveBitfield(field: set<nat>)
      requires View().Valid()
      modifies this
      ensures View() == old(View()).RemoveBitfield(field) && View().Valid()
    {
      var i := 0;
      while i < geo.numPieces
        invariant i <= geo.numPieces && |availability| == geo.numPieces
        invariant View() == old(View()).(availability := availability)
        invariant forall k :: 0 <= k < i ==> availability[k] == SatSub(old(availability)[k], if k in field then 1 else 0)
        invariant forall k :: i <= k < geo.numPieces ==> availability[k] == old(availability)[k]
      {
        if i in field {
          availability := availability[i := SatSub(availability[i], 1)];
        }
        i := i + 1;
      }
      assert availability == Spec.Lowered(old(availability), field);
      AvailabilityKeepsValid(old(View()), field);
    }

    method AddSingle(i: nat)
      requires View().Valid()
      modifies this
      ensures View() == old(View()).AddSingle(i) && View().Valid()
    {
      if i < geo.numPieces {
        availability := availability[i := availability[i] + 1];
      }
      SameTablesSameMissing(old(View()), View());
    }

    // ----- verdicts and priorities

    method SetHave(i: nat)
      requires View().Valid()
      modifies this
      ensures View() == old(View()).SetHave(i) && View().Valid()
    {
      SetHaveKeepsValid(View(), i);
      if i < geo.numPieces {
        if i !in have && View().Wants(i) {
          missingWanted := SatSub(missingWanted, 1);
        }
        have := have + {i};
        progress := progress - {i};
      }
    }

    method ResetPiece(i: nat)
      requires View().Valid()
      modifies this
      ensures View() == old(View()).ResetPiece(i) && View().Valid()
    {
      ResetPieceKeepsValid(View(), i);
      if i < geo.numPieces {
        if i in have && View().Wants(i) {
          missingWanted := missingWanted + 1;
        }
        progress := progress - {i};
        have := have - {i};
      }
    }

    method SetPiecePriorities(perPiece: seq<byte>)
      requires View().Valid()
      modifies this
      ensures View() == old(View()).SetPriorities(perPiece) && View().Valid()
    {
      ghost var p := View();
      SetPrioritiesKeepsValid(p, perPiece);
      var i := 0;
      while i < geo.numPieces
        invariant i <= geo.numPieces && |priority| == geo.numPieces
        invariant View() == p.(priority := priority)
        invariant forall k :: 0 <= k < i ==> priority[k] == if k < |perPiece| then perPiece[k] else 1
      {
        priority := priority[i := if i < |perPiece| then perPiece[i] else 1];
        i := i + 1;
      }
      assert priority == p.SetPriorities(perPiece).priority;
      RecountMissing();
    }

    /** Recount the wanted-and-missing pieces from the tables. */
    method RecountMissing()
      modifies this
      ensures View() == old(View()).(missingWanted := |old(View()).Missing()|)
    {
      var i, n := 0, 0;
      assert View().MissingBelow(0) == {};
      while i < geo.numPieces
        invariant i <= geo.numPieces && n == |View().MissingBelow(i)|
        invariant View() == old(View())
      {
        ghost var below := View().MissingBelow(i);
        if View().Wants(i) && i !in have {
          n := n + 1;
          assert View().MissingBelow(i + 1) == below + {i};
        } else {
          assert View().MissingBelow(i + 1) == below;
        }
        i := i + 1;
      }
      missingWanted := n;
    }

    // ----- block accounting

    method CountReceived(pr: Spec.Progress) returns (n: nat)
      ensures n == Spec.ReceivedCount(pr)
    {
      n := 0;
      var b := 0;
      while b < |pr.received|
        invariant b <= |pr.received| && n == Counting.Count(pr.received[..b], Spec.IsTrue)
      {
        Counting.CountPush(pr.received[..b], Spec.IsTrue, pr.received[b]);
        assert pr.received[..b + 1] == pr.received[..b] + [pr.received[b]];
        if pr.received[b] { n := n + 1; }
        b := b + 1;
      }
      assert pr.received[..b] == pr.received;
    }

    method BlockReceived(blk: Block) returns (whole: bool)
      requires View().Valid()
      modifies this
      ensures (View(), whole) == old(View()).BlockReceived(blk) && View().Valid()
    {
      if blk.0 >= geo.numPieces || blk.0 in have {
        return false;
      }
      var pr := View().Track(blk.0);
      SameTablesSameMissing(View(), View().(progress := progress[blk.0 := pr]));
      progress := progress[blk.0 := pr];
      if blk.1 >= |pr.received| {
        return false;
      }
      pr := Spec.Progress(pr.received[blk.1 := true], pr.inFlight[blk.1 := SatSub(pr.inFlight[blk.1], 1)]);
      SameTablesSameMissing(View(), View().(progress := progress[blk.0 := pr]));
      progress := progress[blk.0 := pr];
      assert progress == old(progress)[blk.0 := pr];
      var n := CountReceived(pr);
      whole := n == geo.Blocks(blk.0);
    }

    method BlockFailed(blk: Block)
      requires View().Valid()
      modifies this
      ensures View() == old(View()).BlockFailed(blk) && View().Valid()
    {
      LowerEffect(View(), blk, 1);
      if blk.0 in progress && blk.1 < |progress[blk.0].inFlight| {
        var pr := progress[blk.0];
        progress := progress[blk.0 := pr.(inFlight := pr.inFlight[blk.1 := SatSub(pr.inFlight[blk.1], 1)])];
      }
    }

    /** Give back every block of a set, in whatever order it is walked. */
    method BlocksFailed(blocks: set<Block>)
      requires View().Valid()
      modifies this
      ensures View() == old(View()).Release(blocks) && View().Valid()
    {
      ghost var p := View();
      ghost var done: set<Block> := {};
      var rest := blocks;
      ReleaseNothing(p);
      while rest != {}
        invariant done !! rest && done + rest == blocks
        invariant View() == p.Release(done) && View().Valid()
        decreases rest
      {
        var b :| b in rest;
        ReleaseOneMore(p, done, b);
        BlockFailed(b);
        rest := rest - {b};
        done := done + {b};
      }
      assert done == blocks;
    }

    // ----- picking

    /** The early exit and the saturating sum of `in_endgame`. */
    method InEndgame() returns (endgame: bool)
      requires View().Valid()
      ensures endgame == View().InEndgame()
    {
      if endgameBlocks == 0 {
        return false;
      }
      var remaining, i := 0, 0;
      while i < geo.numPieces
        invariant i <= geo.numPieces
        invariant remaining == Min(View().RemainingBelow(i), U32_MAX) <= endgameBlocks
      {
        if i !in have && View().Wants(i) {
          var received := CountReceived(View().Track(i));
          Counting.CountFull(View().Track(i).received, Spec.IsTrue);
          remaining := Min(remaining + (geo.Blocks(i) - received), U32_MAX);
          if remaining > endgameBlocks {
            RemainingGrows(View(), i + 1, geo.numPieces);
            return false;
          }
        }
        i := i + 1;
      }
      return true;
    }

    method CandidateOrder(peerHas: set<nat>) returns (order: seq<nat>)
      requires View().Valid()
      ensures order == View().CandidateOrder(peerHas)
    {
      var candidates: seq<nat>, i := [], 0;
      while i < geo.numPieces
        invariant i <= geo.numPieces && candidates == View().CandidatesBelow(peerHas, i)
      {
        if i in peerHas && i !in have && View().Wants(i) {
          candidates := candidates + [i];
        }
        i := i + 1;
      }
      var v := View();
      order := Sorting.Sort<nat>(v.Order(), candidates);
    }

    /** Choose up to `want` blocks, marking them in flight as they are chosen. */
    method Pick(peerHas: set<nat>, want: nat) returns (out: seq<BlockRequest>)
      requires View().Valid()
      modifies this
      ensures out == Spec.Requests(geo, old(View()).PickBlocks(peerHas, want))
      ensures View() == old(View()).AfterPick(peerHas, want) && View().Valid()
    {
      hide Spec.Picker.Bump, Spec.Picker.OpenBelow, Spec.Picker.OpenIn, Spec.Picker.CandidateOrder, Spec.Picker.InEndgame;
      ghost var p := View();
      BumpNothing(p);
      out := [];
      ghost var taken: seq<Block> := [];
      if want > 0 {
        var endgame := InEndgame();
        var order := CandidateOrder(peerHas);
        var k := 0;
        NothingOpen(p, endgame);
        assert order[..0] == [];
        while k < |order| && |out| < want
          invariant k <= |order| && |out| == |taken| <= want
          invariant out == Spec.Requests(geo, taken)
          invariant taken == Spec.Take(p.OpenIn(endgame, order[..k]), want)
          invariant View() == p.Bump(Spec.BlockSet(taken))
        {
          NextPiece(p, peerHas, endgame, k, want, taken);
          ghost var more;
          out, more := PickInPiece(p, order[k], endgame, want, out, taken);
          taken := taken + more;
          k := k + 1;
        }
        HandIsFull(p, endgame, order, k, want);
      }
      AfterPickEffect(p, peerHas, want);
    }

    /** One candidate piece of the picking loop: ask for its open blocks in
        turn until the hand is full. `p` is the picker before the pick and
        `front` the blocks already chosen. */
    method PickInPiece(ghost p: Spec.Picker, i: nat, endgame: bool, want: nat, sofar: seq<BlockRequest>, ghost front: seq<Block>)
      returns (out: seq<BlockRequest>, ghost more: seq<Block>)
      requires p.Valid() && p.geo == geo && i < geo.numPieces && i !in p.have && |sofar| < want
      requires sofar == Spec.Requests(geo, front) && View() == p.Bump(Spec.BlockSet(front))
      requires forall b :: b in front ==> b.0 != i
      modifies this
      ensures more == Spec.Take(p.OpenBelow(endgame, i, geo.Blocks(i)), want - |sofar|)
      ensures out == Spec.Requests(geo, front + more)
      ensures View() == p.Bump(Spec.BlockSet(front + more))
    {
      geo.PieceInside(i);
      StillUntouched(p, front, i);
      var pr := View().Track(i);
      pr, out, more := ScanPiece(p, i, endgame, want, pr, sofar, front);
      OpenBelowFacts(p, endgame, i, geo.Blocks(i));
      if i !in p.progress {
        FreshPieceIsOpen(p, endgame, i, geo.Blocks(i));
      }
      ghost var q := View();
      BumpJoins(p, front, more, i, pr);
      progress := progress[i := pr];
      assert View() == q.(progress := q.progress[i := pr]);
    }

    method ScanPiece(ghost p: Spec.Picker, i: nat, endgame: bool, want: nat, tracked: Spec.Progress, sofar: seq<BlockRequest>, ghost front: seq<Block>)
      returns (pr: Spec.Progress, out: seq<BlockRequest>, ghost more: seq<Block>)
      requires p.Valid() && p.geo == geo && i < geo.numPieces && |sofar| < want
      requires sofar == Spec.Requests(geo, front) && tracked == p.Track(i)
      ensures more == Spec.Take(p.OpenBelow(endgame, i, geo.Blocks(i)), want - |sofar|)
      ensures out == Spec.Requests(geo, front + more)
      ensures pr == Spec.BumpIn(tracked, i, Spec.BlockSet(more))
    {
      hide Spec.BumpIn, Spec.Picker.Valid, Spec.Picker.Open, Spec.Picker.Track;
      pr, out, more := tracked, sofar, [];
      BumpInNothing(tracked, i);
      assert front + [] == front;
      var b := 0;
      while b < geo.Blocks(i) && |out| < want
        invariant b <= geo.Blocks(i) && |out| == |front| + |more| <= want
        invariant more == p.OpenBelow(endgame, i, b)
        invariant pr == Spec.BumpIn(tracked, i, Spec.BlockSet(more))
        invariant out == Spec.Requests(geo, front + more)
      {
        NextOpen(p, endgame, i, b);
        if !pr.received[b] && (endgame || pr.inFlight[b] == 0) {
          BumpInOneMore(tracked, more, (i, b));
          RequestsPush(geo, front + more, (i, b));
          assert front + (more + [(i, b)]) == front + more + [(i, b)];
          pr := pr.(inFlight := pr.inFlight[b := pr.inFlight[b] + 1]);
          out := out + [BlockRequest(i, b * BLOCK_LEN, Min(geo.PieceLen(i) - b * BLOCK_LEN, BLOCK_LEN))];
          more := more + [(i, b)];
        }
        b := b + 1;
      }
      OpenBelowPrefix(p, endgame, i, b, geo.Blocks(i));
      TakeStops(more, p.OpenBelow(endgame, i, geo.Blocks(i)), want - |sofar|);
    }
  }
}
