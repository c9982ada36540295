// How a torrent's files lie on disk and over its pieces: the path-collision
// scan and the file-to-piece priorities of crates/clove-core/src/metainfo.rs.
module Layout {
  import opened Prelude
  import opened Wire
  import DiskSpec
  import Sorting

  // ----- paths

  /** A path component, case-folded already, as its bytes. */
  type Component = seq<byte>

  type Path = seq<Component>

  /** Lexicographic order, given the order of the elements. */
  predicate LexLeq<T(==)>(le: (T, T) -> bool, a: seq<T>, b: seq<T>) {
    a == [] || (b != [] && (if a[0] == b[0] then LexLeq(le, a[1..], b[1..]) else le(a[0], b[0])))
  }

  function ByteLeq(): (byte, byte) -> bool { (a: byte, b: byte) => a <= b }

  function ComponentLeq(): (Component, Component) -> bool { (a: Component, b: Component) => LexLeq(ByteLeq(), a, b) }

  function PathLeq(): (Path, Path) -> bool { (a: Path, b: Path) => LexLeq(ComponentLeq(), a, b) }

  ghost predicate LinearOrder<T(!new)>(le: (T, T) -> bool) {
    Sorting.TotalOrder(le) && Sorting.Antisymmetric(le)
  }

  lemma {:induction false} LexTotal<T(!new)>(le: (T, T) -> bool, a: seq<T>, b: seq<T>)
    requires LinearOrder(le)
    ensures LexLeq(le, a, b) || LexLeq(le, b, a)
    ensures LexLeq(le, a, b) && LexLeq(le, b, a) ==> a == b
  {
    if a != [] && b != [] && a[0] == b[0] {
      LexTotal(le, a[1..], b[1..]);
      assert a == [a[0]] + a[1..] && b == [b[0]] + b[1..];
    }
  }

  lemma {:induction false} LexTransitive<T(!new)>(le: (T, T) -> bool, a: seq<T>, b: seq<T>, c: seq<T>)
    requires LinearOrder(le) && LexLeq(le, a, b) && LexLeq(le, b, c)
    ensures LexLeq(le, a, c)
  {
    if a != [] && a[0] == b[0] && b[0] == c[0] {
      LexTransitive(le, a[1..], b[1..], c[1..]);
    }
  }

  lemma PathsAreOrdered()
    ensures LinearOrder(PathLeq())
  {
    assert LinearOrder(ByteLeq());
    LexIsLinear(ByteLeq(), ComponentLeq());
    LexIsLinear(ComponentLeq(), PathLeq());
  }

  lemma LexIsLinear<T(!new)>(le: (T, T) -> bool, lex: (seq<T>, seq<T>) -> bool)
    requires LinearOrder(le) && forall a, b :: lex(a, b) == LexLeq(le, a, b)
    ensures LinearOrder(lex)
  {
    forall a, b ensures lex(a, b) || lex(b, a) { LexTotal(le, a, b); }
    forall a, b | lex(a, b) && lex(b, a) ensures a == b { LexTotal(le, a, b); }
    forall a, b, c | lex(a, b) && lex(b, c) ensures lex(a, c) { LexTransitive(le, a, b, c); }
  }

  /** A prefix sorts no later than what it is a prefix of. */
  lemma {:induction false} PrefixFirst<T(!new)>(le: (T, T) -> bool, a: seq<T>, b: seq<T>)
    requires a <= b
    ensures LexLeq(le, a, b)
  {
    if a != [] { PrefixFirst(le, a[1..], b[1..]); }
  }

  /** Everything sorting between a path and an extension of it extends it too. */
  lemma {:induction false} BetweenExtends<T(!new)>(le: (T, T) -> bool, a: seq<T>, b: seq<T>, c: seq<T>)
    requires LinearOrder(le) && a <= c && LexLeq(le, a, b) && LexLeq(le, b, c)
    ensures a <= b
  {
    if a != [] {
      assert le(a[0], b[0]) && le(b[0], a[0]) ==> a[0] == b[0];
      BetweenExtends(le, a[1..], b[1..], c[1..]);
      assert a == [a[0]] + a[1..] && b == [b[0]] + b[1..];
    }
  }

  /** Two entries that cannot both be laid out: one's path equals, or is a
      directory of, the other's. */
  ghost predicate Collides(paths: seq<Path>) {
    exists i, j :: 0 <= i < |paths| && 0 <= j < |paths| && i != j && paths[i] <= paths[j]
  }

  predicate NeighbourCollides(paths: seq<Path>) {
    exists k :: 0 <= k < |paths| - 1 && paths[k] <= paths[k + 1]
  }

  /** Two positions of a sequence holding two given values stay apart in any
      rearrangement. */
  lemma {:induction false} TwoOf<T>(s: seq<T>, x: T, y: T, i: nat, j: nat)
    requires i < |s| && j < |s| && i != j && s[i] == x && s[j] == y
    ensures multiset{x, y} <= multiset(s)
  {
    var lo, hi := Min(i, j), Max(i, j);
    assert s == s[..lo] + [s[lo]] + s[lo + 1..hi] + [s[hi]] + s[hi + 1..];
  }

  lemma TwoPlaces<T>(s: seq<T>, x: T, y: T)
    requires multiset{x, y} <= multiset(s)
    ensures exists i, j :: 0 <= i < |s| && 0 <= j < |s| && i != j && s[i] == x && s[j] == y
  {
    assert x in multiset(s);
    var i :| 0 <= i < |s| && s[i] == x;
    var rest := s[..i] + s[i + 1..];
    assert s == s[..i] + [x] + s[i + 1..];
    assert multiset(s) == multiset(rest) + multiset{x};
    assert y in multiset(rest);
    var j :| 0 <= j < |rest| && rest[j] == y;
    var j' := if j < i then j else j + 1;
    assert s[j'] == y;
  }

  lemma CollidesAnyOrder(s: seq<Path>, t: seq<Path>)
    requires multiset(s) == multiset(t) && Collides(s)
    ensures Collides(t)
  {
    var i, j :| 0 <= i < |s| && 0 <= j < |s| && i != j && s[i] <= s[j];
    TwoOf(s, s[i], s[j], i, j);
    TwoPlaces(t, s[i], s[j]);
  }

  /** In sorted order a collision shows up between neighbours. */
  lemma SortedCollision(paths: seq<Path>)
    requires Sorting.SortedBy(PathLeq(), paths)
    ensures Collides(paths) <==> NeighbourCollides(paths)
  {
    PathsAreOrdered();
    var le := ComponentLeq();
    assert LinearOrder(le) by { assert LinearOrder(ByteLeq()); LexIsLinear(ByteLeq(), le); }
    if Collides(paths) {
      var i, j :| 0 <= i < |paths| && 0 <= j < |paths| && i != j && paths[i] <= paths[j];
      if j < i {
        assert PathLeq()(paths[j], paths[i]);
        PrefixFirst(le, paths[i], paths[j]);
        LexTotal(le, paths[i], paths[j]);
      }
      var lo, hi := Min(i, j), Max(i, j);
      assert paths[lo] <= paths[hi];
      NextExtends(paths, lo, hi);
    }
  }

  lemma NextExtends(paths: seq<Path>, lo: nat, hi: nat)
    requires Sorting.SortedBy(PathLeq(), paths) && LinearOrder(ComponentLeq())
    requires lo < hi < |paths| && paths[lo] <= paths[hi]
    ensures paths[lo] <= paths[lo + 1]
  {
    assert PathLeq()(paths[lo], paths[lo + 1]);
    if lo + 1 < hi {
      assert PathLeq()(paths[lo + 1], paths[hi]);
      BetweenExtends(ComponentLeq(), paths[lo], paths[lo + 1], paths[hi]);
    }
  }

  datatype PathError = SamePath | FileIsDirectory

  ghost predicate HasDuplicate(paths: seq<Path>) {
    exists i, j :: 0 <= i < j < |paths| && paths[i] == paths[j]
  }

  ghost predicate HasNesting(paths: seq<Path>) {
    exists i, j :: 0 <= i < |paths| && 0 <= j < |paths| && paths[i] < paths[j]
  }

  lemma CollisionKinds(paths: seq<Path>)
    ensures Collides(paths) <==> HasDuplicate(paths) || HasNesting(paths)
  {
    if Collides(paths) {
      var i, j :| 0 <= i < |paths| && 0 <= j < |paths| && i != j && paths[i] <= paths[j];
      if paths[i] == paths[j] {
        var lo, hi := Min(i, j), Max(i, j);
        assert paths[lo] == paths[hi];
      } else {
        assert paths[i] < paths[j];
      }
    }
    if HasNesting(paths) {
      var i, j :| 0 <= i < |paths| && 0 <= j < |paths| && paths[i] < paths[j];
      assert i != j && paths[i] <= paths[j];
    }
  }

  /** Sorting neither hides nor invents a collision. */
  lemma SortKeepsCollisions(entries: seq<Path>)
    ensures Collides(entries) <==> NeighbourCollides(Sorting.Sort(PathLeq(), entries))
    ensures multiset(Sorting.Sort(PathLeq(), entries)) == multiset(entries)
  {
    var paths := Sorting.Sort(PathLeq(), entries);
    PathsAreOrdered();
    Sorting.SortSorts(PathLeq(), entries);
    Sorting.SortPermutes(PathLeq(), entries);
    SortedCollision(paths);
    if Collides(paths) { CollidesAnyOrder(paths, entries); }
    if Collides(entries) { CollidesAnyOrder(entries, paths); }
  }

  /** A colliding pair of neighbours tells which kind of collision it is. */
  lemma NeighbourKind(paths: seq<Path>, entries: seq<Path>, k: nat)
    requires multiset(paths) == multiset(entries) && k + 1 < |paths| && paths[k] <= paths[k + 1]
    ensures if paths[k] == paths[k + 1] then HasDuplicate(entries) else HasNesting(entries)
  {
    TwoOf(paths, paths[k], paths[k + 1], k, k + 1);
    TwoPlaces(entries, paths[k], paths[k + 1]);
    var i, j :| 0 <= i < |entries| && 0 <= j < |entries| && i != j && entries[i] == paths[k] && entries[j] == paths[k + 1];
    if paths[k] == paths[k + 1] {
      var lo, hi := Min(i, j), Max(i, j);
      assert entries[lo] == entries[hi];
    } else {
      assert entries[i] < entries[j];
    }
  }

  /** Reject a file list whose paths collide on disk: sort, then scan the
      neighbours. */
  method CheckDistinctPaths(entries: seq<Path>) returns (r: Result<(), PathError>)
    ensures r.Ok? <==> !HasDuplicate(entries) && !HasNesting(entries)
    ensures r == Err(SamePath) ==> HasDuplicate(entries)
    ensures r == Err(FileIsDirectory) ==> HasNesting(entries)
  {
    hide Sorting.Sort, PathLeq, Collides, NeighbourCollides, HasDuplicate, HasNesting;
    var paths := Sorting.Sort(PathLeq(), entries);
    SortKeepsCollisions(entries);
    CollisionKinds(entries);
    ghost var k;
    r, k := ScanNeighbours(paths);
    if r.Err? { NeighbourKind(paths, entries, k); }
  }

  /** The scan stops at the first pair of neighbours that collide. */
  method ScanNeighbours(paths: seq<Path>) returns (r: Result<(), PathError>, ghost at: nat)
    ensures r.Ok? <==> !NeighbourCollides(paths)
    ensures r.Err? ==> at + 1 < |paths| && paths[at] <= paths[at + 1] && (r == Err(SamePath) <==> paths[at] == paths[at + 1])
  {
    var k := 0;
    while k + 1 < |paths|
      invariant forall j :: 0 <= j < k && j + 1 < |paths| ==> !(paths[j] <= paths[j + 1])
    {
      if paths[k] == paths[k + 1] {
        return Err(SamePath), k;
      }
      if paths[k] <= paths[k + 1] {
        return Err(FileIsDirectory), k;
      }
      k := k + 1;
    }
    r, at := Ok(()), 0;
  }

  // ----- priorities

  function FilePriority(perFile: seq<byte>, i: nat): byte { if i < |perFile| then perFile[i] else 1 }

  /** A non-empty file shares a byte with a piece. */
  predicate Overlaps(files: seq<nat>, pieceLength: nat, i: nat, piece: nat)
    requires i < |files|
  {
    var start := DiskSpec.FileStart(files, i);
    files[i] > 0 && start < (piece + 1) * pieceLength && piece * pieceLength < start + files[i]
  }

  /** The highest priority among the first `k` files overlapping a piece. */
  function Highest(files: seq<nat>, pieceLength: nat, perFile: seq<byte>, piece: nat, k: nat): byte
    requires k <= |files|
  {
    if k == 0 then 0
    else
      var before := Highest(files, pieceLength, perFile, piece, k - 1);
      if Overlaps(files, pieceLength, k - 1, piece) && FilePriority(perFile, k - 1) > before
      then FilePriority(perFile, k - 1) else before
  }

  /** What `Highest` means: no overlapping file's priority exceeds it, and it
      is one of them unless none is positive. */
  lemma {:induction false} HighestIsTheMaximum(files: seq<nat>, pieceLength: nat, perFile: seq<byte>, piece: nat, k: nat)
    requires k <= |files|
    ensures var h := Highest(files, pieceLength, perFile, piece, k);
      && (forall i :: 0 <= i < k && Overlaps(files, pieceLength, i, piece) ==> FilePriority(perFile, i) <= h)
      && (h == 0 || exists i :: 0 <= i < k && Overlaps(files, pieceLength, i, piece) && FilePriority(perFile, i) == h)
  {
    if k > 0 { HighestIsTheMaximum(files, pieceLength, perFile, piece, k - 1); }
  }

  lemma {:induction false} NothingOverlaps(files: seq<nat>, perFile: seq<byte>, piece: nat, k: nat)
    requires k <= |files|
    ensures Highest(files, 0, perFile, piece, k) == 0
  {
    if k > 0 { NothingOverlaps(files, perFile, piece, k - 1); }
  }

  /** The pieces from the one holding a range's first byte to the one holding
      its last are exactly those the range touches. */
  lemma TouchedPieces(start: nat, end: nat, pieceLength: nat, piece: nat)
    requires start < end && pieceLength > 0
    ensures start / pieceLength <= piece <= (end - 1) / pieceLength <==>
      start < (piece + 1) * pieceLength && piece * pieceLength < end
  {
    DivisionBound(start, pieceLength, piece);
    DivisionBound(end - 1, pieceLength, piece);
    DivisionBound(end - 1, pieceLength, piece - 1);
  }

  /** `x / n <= q` says `x` lies below the end of the `q`-th stretch. */
  lemma DivisionBound(x: nat, n: nat, q: int)
    requires n > 0 && q >= -1
    ensures x / n <= q <==> x < (q + 1) * n
  {
    assert x == (x / n) * n + x % n;
    if x / n <= q {
      MulMonotone(x / n + 1, q + 1, n);
      assert (x / n + 1) * n == (x / n) * n + n;
    } else {
      MulMonotone(q + 1, x / n, n);
    }
  }

  /** Per-file priorities turned into per-piece ones: each piece takes the
      highest priority among the files it overlaps. */
  method PiecePriorities(files: seq<nat>, pieceLength: nat, numPieces: nat, perFile: seq<byte>) returns (out: seq<byte>)
    ensures |out| == numPieces
    ensures forall p :: 0 <= p < numPieces ==> out[p] == Highest(files, pieceLength, perFile, p, |files|)
  {
    out := seq(numPieces, _ => 0);
    if pieceLength == 0 {
      forall p | 0 <= p < numPieces ensures Highest(files, 0, perFile, p, |files|) == 0 { NothingOverlaps(files, perFile, p, |files|); }
      return;
    }
    var offset, i := 0, 0;
    DiskSpec.StartOfAll(files);
    while i < |files|
      invariant i <= |files| && |out| == numPieces && offset == DiskSpec.FileStart(files, i)
      invariant forall p :: 0 <= p < numPieces ==> out[p] == Highest(files, pieceLength, perFile, p, i)
    {
      var priority, start := FilePriority(perFile, i), offset;
      DiskSpec.StartNext(files, i);
      offset := offset + files[i];
      if priority != 0 && files[i] != 0 {
        out := RaiseRange(out, start / pieceLength, (offset - 1) / pieceLength, priority);
        forall p: nat | p < numPieces
          ensures start / pieceLength <= p <= (offset - 1) / pieceLength <==> Overlaps(files, pieceLength, i, p)
        {
          TouchedPieces(start, offset, pieceLength, p);
        }
      }
      i := i + 1;
    }
  }

  /** Raise every piece from `first` to `last`, stopping at the end of the torrent. */
  method RaiseRange(pieces: seq<byte>, first: nat, last: nat, priority: byte) returns (out: seq<byte>)
    ensures |out| == |pieces|
    ensures forall p :: 0 <= p < |pieces| ==>
      out[p] == if first <= p <= last && priority > pieces[p] then priority else pieces[p]
  {
    out := pieces;
    var piece := first;
    while piece <= last && piece < |out|
      invariant |out| == |pieces| && first <= piece
      invariant forall p :: 0 <= p < |pieces| ==>
        out[p] == if first <= p <= last && p < piece && priority > pieces[p] then priority else pieces[p]
    {
      if priority > out[piece] {
        out := out[piece := priority];
      }
      piece := piece + 1;
    }
  }
}
