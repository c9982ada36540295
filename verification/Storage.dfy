// File-backed piece storage (crates/clove-core/src/storage.rs): each method
// walks the per-file regions and is proved against the linear view.
module Storages {
  import opened Prelude
  import opened Wire
  import opened DiskSpec

  datatype IoError = InvalidInput | UnexpectedEof | Device

  class Storage {
    const meta: Meta
    /** What each file holds; a file grows as it is written. */
    var contents: seq<seq<byte>>

    ghost predicate Valid()
      reads this
    {
      meta.Valid() && |contents| == |meta.files|
    }

    function View(): seq<Cell>
      requires Valid()
      reads this
    {
      Linear(meta.files, contents)
    }

    constructor (meta: Meta, contents: seq<seq<byte>>)
      requires meta.Valid() && |contents| == |meta.files|
      ensures Valid() && this.meta == meta && this.contents == contents
    {
      this.meta := meta;
      this.contents := contents;
    }

    /** Write a block. With `fault == Some(n)` the device fails once `n` bytes
        are written. */
    method WriteBlock(index: nat, begin: nat, data: seq<byte>, fault: Option<nat>) returns (r: Result<(), IoError>)
      requires Valid()
      modifies this
      ensures Valid()
      ensures var start := meta.geo.PieceStart(index) + begin;
        if start + |data| > meta.geo.totalLength then r == Err(InvalidInput) && View() == old(View())
        else if fault.Some? && fault.value < |data| then
          r == Err(Device) && View() == WriteLinear(meta.files, old(View()), start, data[..fault.value])
        else
          r == Ok(()) && View() == WriteLinear(meta.files, old(View()), start, data)
    {
      var start := meta.geo.PieceStart(index) + begin;
      if start + |data| > meta.geo.totalLength {
        return Err(InvalidInput);
      }
      if |data| == 0 {
        WriteNothing(meta.files, contents, start);
        return Ok(());
      }
      r := WriteRange(start, data, fault);
    }

    /** Walk the files a range covers, writing each file's part. */
    method WriteRange(start: nat, data: seq<byte>, fault: Option<nat>) returns (r: Result<(), IoError>)
      requires Valid() && start + |data| <= meta.geo.totalLength
      modifies this
      ensures Valid()
      ensures var failed := fault.Some? && fault.value < |data|;
        && r == (if failed then Err(Device) else Ok(()))
        && View() == WriteLinear(meta.files, old(View()), start, if failed then data[..fault.value] else data)
    {
      hide Linear, WriteLinear, SegmentOf, FileStart, Covered, FileWrite, Placed;
      EverythingCovered(meta.files, start, |data|);
      ghost var disk := View();
      WriteNothing(meta.files, contents, start);
      assert data[..0] == [];
      var i := 0;
      while i < |meta.files|
        invariant i <= |meta.files| && Valid() && Covered(meta.files, start, |data|, i) <= |data|
        invariant View() == WriteLinear(meta.files, disk, start, data[..Covered(meta.files, start, |data|, i)])
        invariant fault.Some? ==> Covered(meta.files, start, |data|, i) <= fault.value || fault.value >= |data|
      {
        CoveredNext(meta.files, start, |data|, i);
        match SegmentOf(meta.files, start, |data|, i) {
          case None =>
          case Some(s) =>
            var n := if fault.Some? && fault.value < s.hi then fault.value else s.hi;
            WriteSegment(meta.files, old(contents), contents, start, data, s, n);
            contents := contents[i := FileWrite(contents[i], s.off, data[s.lo..n])];
            if n < s.hi {
              return Err(Device);
            }
        }
        i := i + 1;
      }
      assert data[..|data|] == data;
      return Ok(());
    }

    /** Read a range. With `fault` the first read of the range meets a device error. */
    method ReadBlock(index: nat, begin: nat, len: nat, fault: bool) returns (r: Result<seq<byte>, IoError>)
      requires Valid()
      ensures var start := meta.geo.PieceStart(index) + begin;
        if start + len > meta.geo.totalLength then r == Err(InvalidInput)
        else if fault && len > 0 then r == Err(Device)
        else if Present(View(), start, len) then r == Ok(Bytes(View(), start, len))
        else r == Err(UnexpectedEof)
    {
      var start := meta.geo.PieceStart(index) + begin;
      if start + len > meta.geo.totalLength {
        return Err(InvalidInput);
      }
      if len == 0 {
        assert Bytes(View(), start, 0) == [];
        return Ok([]);
      }
      if fault {
        return Err(Device);
      }
      r := ReadRange(start, len);
    }

    /** Walk the files a range covers; a file too short to reach ends the walk. */
    method ReadRange(start: nat, len: nat) returns (r: Result<seq<byte>, IoError>)
      requires Valid() && start + len <= meta.geo.totalLength
      ensures r == if Present(View(), start, len) then Ok(Bytes(View(), start, len)) else Err(UnexpectedEof)
    {
      hide Linear, FileStart, SegmentOf, Bytes, Present;
      EverythingCovered(meta.files, start, len);
      ghost var disk := View();
      NothingRead(meta.files, contents, start);
      var out: seq<byte> := [];
      var i := 0;
      while i < |meta.files|
        invariant i <= |meta.files| && |out| == Covered(meta.files, start, len, i) <= len
        invariant Present(disk, start, |out|) && out == Bytes(disk, start, |out|)
      {
        CoveredNext(meta.files, start, len, i);
        match SegmentOf(meta.files, start, len, i) {
          case None =>
          case Some(s) =>
            var n := s.hi - s.lo;
            SegmentRead(meta.files, contents, start, len, s);
            if |contents[i]| < s.off + n {
              return Err(UnexpectedEof);
            }
            BytesJoin(disk, start, |out|, n);
            out := out + contents[i][s.off..s.off + n];
        }
        i := i + 1;
      }
      return Ok(out);
    }

    /** Whether a piece on disk matches its expected hash, read chunk by chunk;
        the read of chunk `fault` meets a device error. */
    method VerifyPiece(index: nat, fault: Option<nat>) returns (v: Verdict)
      requires Valid()
      ensures v == Verify(meta, View(), index, fault)
    {
      var len := meta.geo.PieceLen(index);
      if len == 0 || index >= |meta.expected| {
        return Mismatch;
      }
      v := CheckChunks(index, fault);
    }

    /** Read a piece back, chunk by chunk, and hash what was read. */
    method CheckChunks(index: nat, fault: Option<nat>) returns (v: Verdict)
      requires Valid() && index < |meta.expected| && meta.geo.PieceLen(index) > 0
      ensures v == Verify(meta, View(), index, fault)
    {
      meta.geo.PieceInside(index);
      NextChunk(0, meta.geo.PieceLen(index));
      hide Linear, Present, Bytes, Geometry.PieceStart, Geometry.PieceLen, Verify, ChunksEnd;
      var len := meta.geo.PieceLen(index);
      ghost var disk, start := View(), meta.geo.PieceStart(index);
      NothingRead(meta.files, contents, start);
      var hashed: seq<byte> := [];
      var done, chunk := 0, 0;
      while done < len
        invariant done == ChunksEnd(chunk, len) && (fault.Some? ==> fault.value >= chunk)
        invariant Present(disk, start, done) && hashed == Bytes(disk, start, done)
      {
        var n := Min(len - done, BLOCK_LEN);
        NextChunk(chunk, len);
        ChunkOutcome(meta, disk, index, fault, chunk, n);
        var r := ReadBlock(index, done, n, fault == Some(chunk));
        if r.Err? {
          return if r.error == UnexpectedEof then Mismatch else Unreadable;
        }
        BytesJoin(disk, start, done, n);
        hashed := hashed + r.value;
        done := done + n;
        chunk := chunk + 1;
      }
      ChunksDone(chunk, len, fault);
      AllChunksOutcome(meta, disk, index, fault);
      v := if meta.sha1(hashed) == meta.expected[index] then Matches else Mismatch;
    }
  }
}
