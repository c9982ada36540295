// What it means, in bytes of files, that a download reports itself complete:
// the picker's wanted-piece count (crates/clove-core/src/picker.rs) joined to
// the file priorities of crates/clove-core/src/metainfo.rs.
module EngineCompletion {
  import opened Prelude
  import opened Wire
  import opened PickerSpec
  import opened PickerTheory
  import opened DiskSpec
  import opened EngineSpec
  import opened EngineInvariant
  import opened EngineTheorems
  import opened EngineSafety
  import Counting
  import Layout

  /** The picker's piece priorities are those the files' priorities imply. */
  ghost predicate FollowsFiles(m: Meta, p: Picker, perFile: seq<byte>) {
    forall i :: 0 <= i < |p.priority| ==>
      p.priority[i] == Layout.Highest(m.files, m.geo.pieceLength, perFile, i, |m.files|)
  }

  /** Byte `k` of file `i` lies in a piece we hold, and is on disk there. */
  ghost predicate Safe(m: Meta, s: State, i: nat, k: nat)
    requires i < |m.files|
  {
    var at := FileStart(m.files, i) + k;
    exists piece: nat :: piece in s.picker.have && Verified(m, s.disk, piece) && Covers(m.geo, piece, at)
  }

  predicate Covers(geo: Geometry, piece: nat, at: nat) {
    geo.PieceStart(piece) <= at < geo.PieceStart(piece) + geo.PieceLen(piece)
  }

  /** Every byte of every file not skipped is safe. */
  ghost predicate AllWantedSafe(m: Meta, s: State, perFile: seq<byte>) {
    forall i: nat, k: nat :: i < |m.files| && Layout.FilePriority(perFile, i) > 0 && k < m.files[i] ==> Safe(m, s, i, k)
  }

  /** Applying the computed priorities makes the table follow the files. */
  lemma SettingPrioritiesFollowsFiles(m: Meta, w: World, perFile: seq<byte>, ps: seq<byte>)
    requires Reachable(m, w) && |ps| == m.geo.numPieces
    requires forall p :: 0 <= p < m.geo.numPieces ==>
      ps[p] == Layout.Highest(m.files, m.geo.pieceLength, perFile, p, |m.files|)
    ensures FollowsFiles(m, WorldStep(m, w, SetPiecePriorities(ps)).state.picker, perFile)
  {
    hide Layout.Highest, Reachable, Counting.Count;
    ReachableIsSafe(m, w);
  }

  /** The piece a byte of the torrent lies in. */
  lemma PieceAt(geo: Geometry, at: nat)
    requires geo.Valid() && at < geo.totalLength
    ensures at / geo.pieceLength < geo.numPieces && Covers(geo, at / geo.pieceLength, at)
    ensures forall piece: nat :: Covers(geo, piece, at) ==> piece == at / geo.pieceLength
  {
    var n, q := geo.pieceLength, at / geo.pieceLength;
    QuotientBounds(at, n, q);
    CeilCovers(geo.totalLength, n);
    assert q < geo.numPieces by { Layout.DivisionBound(at, n, geo.numPieces - 1); }
    forall piece: nat | Covers(geo, piece, at) ensures piece == q {
      assert (piece + 1) * n == piece * n + n;
      QuotientBounds(at, n, piece);
    }
  }

  lemma QuotientBounds(x: nat, n: nat, q: nat)
    requires n > 0
    ensures q == x / n <==> q * n <= x < (q + 1) * n
  {
    Layout.DivisionBound(x, n, q);
    Layout.DivisionBound(x, n, q - 1);
  }

  lemma CeilCovers(total: nat, n: nat)
    requires n > 0
    ensures DivCeil(total, n) * n >= total
  {
    var x := total + n - 1;
    assert x == (x / n) * n + x % n;
  }

  lemma ByteInside(m: Meta, i: nat, k: nat)
    requires m.Valid() && i < |m.files| && k < m.files[i]
    ensures FileStart(m.files, i) + k < m.geo.totalLength
  {
    StartNext(m.files, i);
    StartsGrow(m.files, i + 1, |m.files|);
    StartOfAll(m.files);
  }

  /** A byte of a file makes the file overlap the byte's piece. */
  lemma ByteOverlaps(files: seq<nat>, n: nat, i: nat, at: nat, q: nat)
    requires n > 0 && i < |files| && FileStart(files, i) <= at < FileStart(files, i) + files[i] && q == at / n
    ensures Layout.Overlaps(files, n, i, q)
  {
    hide Total, FileStart;
    QuotientBounds(at, n, q);
  }

  /** A file overlapping a piece of the torrent has a byte in it. */
  lemma OverlapHasByte(m: Meta, i: nat, piece: nat) returns (k: nat)
    requires m.Valid() && i < |m.files| && piece < m.geo.numPieces
    requires Layout.Overlaps(m.files, m.geo.pieceLength, i, piece)
    ensures k < m.files[i] && Covers(m.geo, piece, FileStart(m.files, i) + k)
  {
    var start, n := FileStart(m.files, i), m.geo.pieceLength;
    k := Max(start, piece * n) - start;
    ByteInside(m, i, k);
    assert (piece + 1) * n == piece * n + n;
  }

  /** A download is complete exactly when every byte of every file that was
      not skipped lies in a piece that is held, verified and on disk. */
  lemma CompleteMeansWantedFilesAreWhole(m: Meta, w: World, perFile: seq<byte>)
    requires Reachable(m, w) && FollowsFiles(m, w.state.picker, perFile)
    ensures w.state.picker.Complete() <==> AllWantedSafe(m, w.state, perFile)
  {
    hide Reachable, Tables, Witnessed;
    ReachableIsSafe(m, w);
    ShapeHolds(m, w);
    CompleteMeansNothingMissing(w.state.picker);
    if w.state.picker.Complete() {
      forall i: nat, k: nat | i < |m.files| && Layout.FilePriority(perFile, i) > 0 && k < m.files[i]
        ensures Safe(m, w.state, i, k)
      {
        WantedByteSafe(m, w.state, perFile, i, k);
      }
    }
    if AllWantedSafe(m, w.state, perFile) {
      forall piece | 0 <= piece < m.geo.numPieces && w.state.picker.Wants(piece) ensures piece in w.state.picker.have {
        WantedPieceHeld(m, w.state, perFile, piece);
      }
    }
  }

  lemma ShapeHolds(m: Meta, w: World)
    requires WorldInv(m, w)
    ensures Shape(m, w.state) && HeldVerified(m, w.state.picker.have, w.state.disk)
  {}

  lemma WantedByteSafe(m: Meta, s: State, perFile: seq<byte>, i: nat, k: nat)
    requires Shape(m, s) && HeldVerified(m, s.picker.have, s.disk) && FollowsFiles(m, s.picker, perFile)
    requires forall p :: 0 <= p < m.geo.numPieces && s.picker.Wants(p) ==> p in s.picker.have
    requires i < |m.files| && Layout.FilePriority(perFile, i) > 0 && k < m.files[i]
    ensures Safe(m, s, i, k)
  {
    var at := FileStart(m.files, i) + k;
    var piece := at / m.geo.pieceLength;
    ByteInside(m, i, k);
    PieceAt(m.geo, at);
    ByteOverlaps(m.files, m.geo.pieceLength, i, at, piece);
    Layout.HighestIsTheMaximum(m.files, m.geo.pieceLength, perFile, piece, |m.files|);
    assert s.picker.Wants(piece);
    assert Verified(m, s.disk, piece);
  }

  lemma WantedPieceHeld(m: Meta, s: State, perFile: seq<byte>, piece: nat)
    requires Shape(m, s) && FollowsFiles(m, s.picker, perFile) && AllWantedSafe(m, s, perFile)
    requires piece < m.geo.numPieces && s.picker.Wants(piece)
    ensures piece in s.picker.have
  {
    Layout.HighestIsTheMaximum(m.files, m.geo.pieceLength, perFile, piece, |m.files|);
    var i: nat :| i < |m.files| && Layout.Overlaps(m.files, m.geo.pieceLength, i, piece)
      && Layout.FilePriority(perFile, i) == s.picker.priority[piece];
    var k := OverlapHasByte(m, i, piece);
    assert Safe(m, s, i, k);
    ByteInside(m, i, k);
    PieceAt(m.geo, FileStart(m.files, i) + k);
  }
}
