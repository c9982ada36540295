// A torrent's files seen as one linear run of cells, and reading, writing and
// verifying at that level (crates/clove-core/src/storage.rs).
module DiskSpec {
  import opened Prelude
  import opened Wire

  /** A byte on disk, or nothing where the file does not reach yet. */
  type Cell = Option<byte>

  type Digest = seq<byte>

  /** What a metainfo says of a torrent. `sha1` stands for the hash function,
      of which nothing but being a function is used. */
  datatype Meta = Meta(geo: Geometry, files: seq<nat>, expected: seq<Digest>, sha1: seq<byte> -> Digest)
  {
    ghost predicate Valid() {
      geo.Valid() && Total(files) == geo.totalLength && |expected| == geo.numPieces
    }
  }

  function Total(files: seq<nat>): nat {
    if files == [] then 0 else Total(files[..|files| - 1]) + files[|files| - 1]
  }

  /** Global offset of the first byte of file `i`. */
  function FileStart(files: seq<nat>, i: nat): nat
    requires i <= |files|
  {
    Total(files[..i])
  }

  /** The file a global offset falls in. */
  function FileAt(files: seq<nat>, k: nat): (i: nat)
    requires k < Total(files)
    ensures i < |files| && FileStart(files, i) <= k < FileStart(files, i) + files[i]
  {
    var last := |files| - 1;
    if k >= Total(files[..last]) then last
    else
      var i := FileAt(files[..last], k);
      assert files[..last][..i] == files[..i];
      i
  }

  lemma StartNext(files: seq<nat>, i: nat)
    requires i < |files|
    ensures FileStart(files, i + 1) == FileStart(files, i) + files[i]
  {
    assert files[..i + 1][..i] == files[..i];
  }

  lemma {:induction false} StartsGrow(files: seq<nat>, i: nat, j: nat)
    requires i <= j <= |files|
    ensures FileStart(files, i) <= FileStart(files, j)
    decreases j
  {
    if i < j {
      StartNext(files, j - 1);
      StartsGrow(files, i, j - 1);
    }
  }

  lemma StartOfAll(files: seq<nat>)
    ensures FileStart(files, |files|) == Total(files)
    ensures FileStart(files, 0) == 0
  {
    assert files[..|files|] == files;
  }

  /** No offset lies in two files. */
  lemma FileAtUnique(files: seq<nat>, k: nat, i: nat)
    requires i < |files| && FileStart(files, i) <= k < FileStart(files, i) + files[i]
    ensures k < Total(files) && FileAt(files, k) == i
  {
    StartNext(files, i);
    StartsGrow(files, i + 1, |files|);
    StartOfAll(files);
    var j := FileAt(files, k);
    StartNext(files, j);
    if j < i { StartsGrow(files, j + 1, i); }
    if i < j { StartsGrow(files, i + 1, j); }
  }

  /** The cell at global offset `k`, given what each file holds. */
  function CellAt(files: seq<nat>, contents: seq<seq<byte>>, k: nat): Cell
    requires |contents| == |files| && k < Total(files)
  {
    var i := FileAt(files, k);
    var off := k - FileStart(files, i);
    if off < |contents[i]| then Some(contents[i][off]) else None
  }

  function Linear(files: seq<nat>, contents: seq<seq<byte>>): seq<Cell>
    requires |contents| == |files|
  {
    seq(Total(files), k requires 0 <= k < Total(files) => CellAt(files, contents, k))
  }

  // ----- segments

  /** The part of file `file` a global range covers: offset `off` in the file,
      bytes `lo..hi` of the caller's buffer. */
  datatype Segment = Segment(file: nat, off: nat, lo: nat, hi: nat)

  function SegmentOf(files: seq<nat>, start: nat, len: nat, i: nat): Option<Segment>
    requires i < |files|
  {
    var fileStart := FileStart(files, i);
    var lo, hi := Max(start, fileStart), Min(start + len, fileStart + files[i]);
    if files[i] == 0 || lo >= hi then None
    else Some(Segment(i, lo - fileStart, lo - start, hi - start))
  }

  function SegmentsBelow(files: seq<nat>, start: nat, len: nat, i: nat): seq<Segment>
    requires i <= |files|
  {
    if i == 0 then [] else SegmentsBelow(files, start, len, i - 1) + Optional(SegmentOf(files, start, len, i - 1))
  }

  function Optional<T>(o: Option<T>): seq<T> { if o.Some? then [o.value] else [] }

  /** How much of a buffer is dealt with once the files below `i` are. */
  function Covered(files: seq<nat>, start: nat, len: nat, i: nat): nat
    requires i <= |files|
  {
    if FileStart(files, i) <= start then 0 else Min(len, FileStart(files, i) - start)
  }

  /** A segment lies inside its file, at the global offset its buffer range
      stands for, and is not empty. */
  predicate Placed(files: seq<nat>, start: nat, s: Segment) {
    && s.lo < s.hi
    && s.file < |files| && s.off + (s.hi - s.lo) <= files[s.file]
    && FileStart(files, s.file) + s.off == start + s.lo
  }

  /** A segment's cells are its file's bytes, as far as the file reaches. */
  lemma SegmentCells(files: seq<nat>, contents: seq<seq<byte>>, start: nat, s: Segment)
    requires |contents| == |files| && Placed(files, start, s)
    ensures start + s.hi <= Total(files)
    ensures forall k :: start + s.lo <= k < start + s.hi ==>
      Linear(files, contents)[k] ==
        var o := k - start - s.lo + s.off; if o < |contents[s.file]| then Some(contents[s.file][o]) else None
  {
    StartNext(files, s.file);
    StartsGrow(files, s.file + 1, |files|);
    StartOfAll(files);
    forall k | start + s.lo <= k < start + s.hi ensures k < Total(files) && FileAt(files, k) == s.file {
      FileAtUnique(files, k, s.file);
    }
  }

  /** Segments follow one another through the buffer from 0 to `end`. */
  predicate Tiles(ss: seq<Segment>, end: nat) {
    if ss == [] then end == 0
    else ss[|ss| - 1].hi == end && Tiles(ss[..|ss| - 1], ss[|ss| - 1].lo)
  }

  /** The segment in file `i` carries on where the files below it stop. */
  lemma CoveredNext(files: seq<nat>, start: nat, len: nat, i: nat)
    requires i < |files|
    ensures match SegmentOf(files, start, len, i)
      case None => Covered(files, start, len, i + 1) == Covered(files, start, len, i)
      case Some(s) =>
        && s.lo == Covered(files, start, len, i) && s.hi == Covered(files, start, len, i + 1)
        && s.file == i && Placed(files, start, s) && s.lo < s.hi <= len
  {
    StartNext(files, i);
  }

  /** The segments of a range cover the buffer in order, without gap or
      overlap, whatever the file list. */
  lemma {:induction false} SegmentsTile(files: seq<nat>, start: nat, len: nat, i: nat)
    requires i <= |files|
    ensures Tiles(SegmentsBelow(files, start, len, i), Covered(files, start, len, i))
    ensures forall s :: s in SegmentsBelow(files, start, len, i) ==> s.file < i && Placed(files, start, s)
  {
    if i > 0 {
      SegmentsTile(files, start, len, i - 1);
      CoveredNext(files, start, len, i - 1);
      var init, s := SegmentsBelow(files, start, len, i - 1), SegmentOf(files, start, len, i - 1);
      var all := init + Optional(s);
      assert if s.Some? then all[..|all| - 1] == init else all == init;
    }
  }

  lemma EverythingCovered(files: seq<nat>, start: nat, len: nat)
    requires start + len <= Total(files)
    ensures Covered(files, start, len, |files|) == len
    ensures Covered(files, start, len, 0) == 0
  {
    StartOfAll(files);
  }

  // ----- writing

  /** `pwrite` into one file: a gap before the written range reads as zeros. */
  function FileWrite(content: seq<byte>, off: nat, data: seq<byte>): seq<byte> {
    var padded := if |content| < off then content + seq(off - |content|, _ => 0) else content;
    if data == [] then content
    else padded[..off] + data + (if off + |data| < |padded| then padded[off + |data|..] else [])
  }

  function CellWritten(files: seq<nat>, disk: seq<Cell>, start: nat, data: seq<byte>, k: nat): Cell
    requires |disk| == Total(files) && start + |data| <= |disk| && k < |disk|
  {
    if start <= k < start + |data| then Some(data[k - start])
    else if disk[k] == None && data != [] && k < start && FileAt(files, k) == FileAt(files, start) then Some(0)
    else disk[k]
  }

  function WriteLinear(files: seq<nat>, disk: seq<Cell>, start: nat, data: seq<byte>): seq<Cell>
    requires |disk| == Total(files) && start + |data| <= |disk|
  {
    seq(|disk|, k requires 0 <= k < |disk| => CellWritten(files, disk, start, data, k))
  }

  ghost predicate Present(disk: seq<Cell>, start: nat, len: nat) {
    start + len <= |disk| && forall k :: start <= k < start + len ==> disk[k].Some?
  }

  function Bytes(disk: seq<Cell>, start: nat, len: nat): seq<byte>
    requires Present(disk, start, len)
  {
    seq(len, k requires 0 <= k < len => disk[start + k].value)
  }

  lemma NothingRead(files: seq<nat>, contents: seq<seq<byte>>, start: nat)
    requires |contents| == |files| && start <= Total(files)
    ensures Present(Linear(files, contents), start, 0) && Bytes(Linear(files, contents), start, 0) == []
  {}

  /** Reading one segment from its file: its cells' bytes, unless the file is
      too short, and then the range is not all on disk. */
  lemma SegmentRead(files: seq<nat>, contents: seq<seq<byte>>, start: nat, len: nat, s: Segment)
    requires |contents| == |files| && Placed(files, start, s) && s.hi <= len
    ensures var disk, n := Linear(files, contents), s.hi - s.lo;
      if |contents[s.file]| < s.off + n then !Present(disk, start, len)
      else Present(disk, start + s.lo, n) && Bytes(disk, start + s.lo, n) == contents[s.file][s.off..s.off + n]
  {
    SegmentCells(files, contents, start, s);
    var disk, n := Linear(files, contents), s.hi - s.lo;
    if |contents[s.file]| < s.off + n {
      assert disk[start + s.hi - 1] == None;
    }
  }

  lemma PartPresent(disk: seq<Cell>, start: nat, len: nat, lo: nat, n: nat)
    ensures Present(disk, start, len) && lo + n <= len ==> Present(disk, start + lo, n)
  {}

  lemma BytesJoin(disk: seq<Cell>, start: nat, n: nat, m: nat)
    requires Present(disk, start, n)
    ensures Present(disk, start + n, m) ==>
      Present(disk, start, n + m) && Bytes(disk, start, n) + Bytes(disk, start + n, m) == Bytes(disk, start, n + m)
  {
    if Present(disk, start + n, m) {
      assert Bytes(disk, start, n) + Bytes(disk, start + n, m) == Bytes(disk, start, n + m);
    }
  }

  /** What was written reads back, what could be read elsewhere still reads the
      same, and nothing else changes but gaps of the file, which become zeros. */
  lemma ReadAfterWrite(files: seq<nat>, disk: seq<Cell>, start: nat, data: seq<byte>)
    requires |disk| == Total(files) && start + |data| <= |disk|
    ensures var after := WriteLinear(files, disk, start, data);
      && Present(after, start, |data|)
      && Bytes(after, start, |data|) == data
      && forall lo: nat, n: nat :: Present(disk, lo, n) && (lo + n <= start || start + |data| <= lo) ==>
           Present(after, lo, n) && Bytes(after, lo, n) == Bytes(disk, lo, n)
    ensures var after := WriteLinear(files, disk, start, data);
      forall k :: 0 <= k < |disk| && !(start <= k < start + |data|) && after[k] != disk[k] ==>
        disk[k] == None && after[k] == Some(0) && FileAt(files, k) == FileAt(files, start)
  {
    var after := WriteLinear(files, disk, start, data);
    assert Bytes(after, start, |data|) == data;
    forall lo: nat, n: nat | Present(disk, lo, n) && (lo + n <= start || start + |data| <= lo)
      ensures Present(after, lo, n) && Bytes(after, lo, n) == Bytes(disk, lo, n)
    {
      assert forall k :: lo <= k < lo + n ==> after[k] == disk[k];
      assert Bytes(after, lo, n) == Bytes(disk, lo, n);
    }
  }

  lemma WriteNothing(files: seq<nat>, contents: seq<seq<byte>>, start: nat)
    requires |contents| == |files| && start <= Total(files)
    ensures |Linear(files, contents)| == Total(files)
    ensures WriteLinear(files, Linear(files, contents), start, []) == Linear(files, contents)
  {}

  lemma FileWriteAt(content: seq<byte>, off: nat, data: seq<byte>, o: nat)
    requires data != []
    ensures |FileWrite(content, off, data)| == Max(|content|, off + |data|)
    ensures o < |FileWrite(content, off, data)| ==>
      FileWrite(content, off, data)[o] ==
        if off <= o < off + |data| then data[o - off] else if o < |content| then content[o] else 0
  {}

  /** Writing one more segment through its file is writing a longer prefix of
      the buffer in the linear view. */
  lemma WriteSegment(files: seq<nat>, before: seq<seq<byte>>, contents: seq<seq<byte>>, start: nat, data: seq<byte>, s: Segment, n: nat)
    requires |contents| == |files| == |before| && start + |data| <= Total(files)
    requires s.file < |files| && SegmentOf(files, start, |data|, s.file) == Some(s)
    requires s.lo == Covered(files, start, |data|, s.file) && s.lo <= n <= s.hi
    requires Linear(files, contents) == WriteLinear(files, Linear(files, before), start, data[..s.lo])
    ensures Linear(files, contents[s.file := FileWrite(contents[s.file], s.off, data[s.lo..n])])
         == WriteLinear(files, Linear(files, before), start, data[..n])
  {
    var after := contents[s.file := FileWrite(contents[s.file], s.off, data[s.lo..n])];
    var want := WriteLinear(files, Linear(files, before), start, data[..n]);
    forall k | 0 <= k < Total(files) ensures CellAt(files, after, k) == want[k] {
      assert CellAt(files, contents, k) == Linear(files, contents)[k];
      if FileAt(files, k) == s.file {
        CellInSegmentFile(files, Linear(files, before), contents[s.file], start, data, s, n, k);
      } else {
        CellInOtherFile(files, Linear(files, before), start, data, s, n, k);
      }
    }
    assert Linear(files, after) == want;
  }

  lemma CellInOtherFile(files: seq<nat>, disk: seq<Cell>, start: nat, data: seq<byte>, s: Segment, n: nat, k: nat)
    requires |disk| == Total(files) && start + |data| <= |disk| && k < |disk|
    requires s.file < |files| && SegmentOf(files, start, |data|, s.file) == Some(s) && s.lo <= n <= s.hi
    requires s.lo == Covered(files, start, |data|, s.file)
    requires FileAt(files, k) != s.file
    ensures CellWritten(files, disk, start, data[..s.lo], k) == CellWritten(files, disk, start, data[..n], k)
  {
    OtherFileOutside(files, k, s.file, s.off, n - s.lo);
    if s.lo == 0 { FileAtUnique(files, start, s.file); }
  }

  lemma CellInSegmentFile(files: seq<nat>, disk: seq<Cell>, content: seq<byte>, start: nat, data: seq<byte>, s: Segment, n: nat, k: nat)
    requires |disk| == Total(files) && start + |data| <= |disk| && k < |disk|
    requires s.file < |files| && SegmentOf(files, start, |data|, s.file) == Some(s) && s.lo <= n <= s.hi
    requires FileAt(files, k) == s.file
    requires var o := k - FileStart(files, s.file);
      (if o < |content| then Some(content[o]) else None) == CellWritten(files, disk, start, data[..s.lo], k)
    ensures var o, c := k - FileStart(files, s.file), FileWrite(content, s.off, data[s.lo..n]);
      (if o < |c| then Some(c[o]) else None) == CellWritten(files, disk, start, data[..n], k)
  {
    if n == s.lo {
      assert data[s.lo..n] == [];
    } else {
      FileWriteAt(content, s.off, data[s.lo..n], k - FileStart(files, s.file));
      if s.lo == 0 {
        FileAtUnique(files, start, s.file);
      } else {
        FirstFileDone(files, start, |data|, s, k);
      }
    }
  }

  lemma OtherFileOutside(files: seq<nat>, k: nat, i: nat, off: nat, len: nat)
    requires k < Total(files) && i < |files| && FileAt(files, k) != i && off + len <= files[i]
    ensures k < FileStart(files, i) + off || k >= FileStart(files, i) + off + len
  {
    if FileStart(files, i) + off <= k < FileStart(files, i) + off + len { FileAtUnique(files, k, i); }
  }

  /** A segment that is not the first begins its file. */
  lemma FirstFileDone(files: seq<nat>, start: nat, len: nat, s: Segment, k: nat)
    requires s.file < |files| && SegmentOf(files, start, len, s.file) == Some(s) && s.lo > 0
    requires k < Total(files) && FileAt(files, k) == s.file
    ensures k >= start + s.lo && s.off == 0
  {}

  // ----- verifying

  datatype Verdict = Matches | Mismatch | Unreadable

  /** The hash check of a piece, reading `BLOCK_LEN` at a time; the read of
      chunk `fault`, if there is such a chunk, meets a device error. */
  ghost function Verify(m: Meta, disk: seq<Cell>, i: nat, fault: Option<nat>): Verdict {
    var len := m.geo.PieceLen(i);
    var readable := if fault.Some? && fault.value * BLOCK_LEN < len then fault.value * BLOCK_LEN else len;
    if len == 0 || i >= |m.expected| then Mismatch
    else if !Present(disk, m.geo.PieceStart(i), readable) then Mismatch
    else if readable < len then Unreadable
    else if m.sha1(Bytes(disk, m.geo.PieceStart(i), len)) == m.expected[i] then Matches
    else Mismatch
  }

  /** Where the first `chunk` chunks of a piece end. */
  function ChunksEnd(chunk: nat, len: nat): nat { Min(chunk * BLOCK_LEN, len) }

  lemma NextChunk(chunk: nat, len: nat)
    ensures ChunksEnd(0, len) == 0 && ChunksEnd(chunk, len) <= len
    ensures ChunksEnd(chunk, len) < len ==>
      ChunksEnd(chunk, len) == chunk * BLOCK_LEN
      && ChunksEnd(chunk + 1, len) == chunk * BLOCK_LEN + Min(len - chunk * BLOCK_LEN, BLOCK_LEN)
  {}

  lemma ChunksDone(chunk: nat, len: nat, fault: Option<nat>)
    requires ChunksEnd(chunk, len) >= len && (fault.Some? ==> fault.value >= chunk)
    ensures ChunksEnd(chunk, len) == len && (fault.Some? ==> fault.value * BLOCK_LEN >= len)
  {}

  /** A chunk that cannot be read settles the check. */
  lemma ChunkOutcome(m: Meta, disk: seq<Cell>, i: nat, fault: Option<nat>, chunk: nat, n: nat)
    requires i < |m.expected| && chunk * BLOCK_LEN < m.geo.PieceLen(i) && n == Min(m.geo.PieceLen(i) - chunk * BLOCK_LEN, BLOCK_LEN)
    requires fault.Some? ==> fault.value >= chunk
    ensures Present(disk, m.geo.PieceStart(i), chunk * BLOCK_LEN) && fault == Some(chunk) ==> Verify(m, disk, i, fault) == Unreadable
    ensures fault != Some(chunk) && !Present(disk, m.geo.PieceStart(i) + chunk * BLOCK_LEN, n) ==> Verify(m, disk, i, fault) == Mismatch
  {
    hide Present, Bytes, Geometry.PieceStart, Geometry.PieceLen;
    var start, len := m.geo.PieceStart(i), m.geo.PieceLen(i);
    var readable := if fault.Some? && fault.value * BLOCK_LEN < len then fault.value * BLOCK_LEN else len;
    PartPresent(disk, start, readable, chunk * BLOCK_LEN, n);
  }

  /** If every chunk is read, the hash decides. */
  lemma AllChunksOutcome(m: Meta, disk: seq<Cell>, i: nat, fault: Option<nat>)
    requires 0 < m.geo.PieceLen(i) && i < |m.expected| && Present(disk, m.geo.PieceStart(i), m.geo.PieceLen(i))
    requires fault.Some? ==> fault.value * BLOCK_LEN >= m.geo.PieceLen(i)
    ensures Verify(m, disk, i, fault) ==
      if m.sha1(Bytes(disk, m.geo.PieceStart(i), m.geo.PieceLen(i))) == m.expected[i] then Matches else Mismatch
  {
    hide Present, Bytes, Geometry.PieceStart, Geometry.PieceLen;
  }

  /** A piece on disk is what the metainfo expects. */
  ghost predicate Verified(m: Meta, disk: seq<Cell>, i: nat) {
    && i < m.geo.numPieces && i < |m.expected|
    && Present(disk, m.geo.PieceStart(i), m.geo.PieceLen(i))
    && m.sha1(Bytes(disk, m.geo.PieceStart(i), m.geo.PieceLen(i))) == m.expected[i]
  }
}
