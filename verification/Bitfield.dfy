// The MSB-first piece bitfield of crates/clove-core/src/bitfield.rs and the set
// of piece indices it stands for.
module Bitfields {
  import opened Prelude

  datatype BadBitfield = WrongLength | SpareBitsSet

  function ByteLen(len: nat): nat { DivCeil(len, 8) }

  /** `1 << (7 - k)`. */
  function Mask(k: nat): bv8
    requires k < 8
  {
    if k == 0 then 0x80 else if k == 1 then 0x40 else if k == 2 then 0x20 else if k == 3 then 0x10
    else if k == 4 then 0x08 else if k == 5 then 0x04 else if k == 6 then 0x02 else 0x01
  }

  /** `0xFF >> used`: the bits of a byte past its first `used`. */
  function Spare(used: nat): bv8
    requires used < 8
  {
    if used == 0 then 0xFF else if used == 1 then 0x7F else if used == 2 then 0x3F else if used == 3 then 0x1F
    else if used == 4 then 0x0F else if used == 5 then 0x07 else if used == 6 then 0x03 else 0x01
  }

  predicate BitSet(b: bv8, k: nat)
    requires k < 8
  {
    b & Mask(k) != 0
  }

  predicate HasBit(bits: seq<bv8>, i: nat) {
    i / 8 < |bits| && BitSet(bits[i / 8], i % 8)
  }

  /** Byte length fits the piece count and no spare bit is set. */
  predicate WellFormed(bits: seq<bv8>, len: nat) {
    && |bits| == ByteLen(len)
    && (len % 8 != 0 && bits != [] ==> bits[|bits| - 1] & Spare(len % 8) == 0)
  }

  function PiecesOf(bits: seq<bv8>, len: nat): set<nat> {
    set i: nat | i < len && HasBit(bits, i)
  }

  function Parse(bytes: seq<bv8>, len: nat): Result<seq<bv8>, BadBitfield> {
    if |bytes| != ByteLen(len) then Err(WrongLength)
    else if len % 8 != 0 && bytes != [] && bytes[|bytes| - 1] & Spare(len % 8) != 0 then Err(SpareBitsSet)
    else Ok(bytes)
  }

  // ----- one byte

  /** Pieces go from the highest bit of a byte to the lowest, as shifts tell. */
  lemma HighestBitFirst(bits: seq<bv8>, i: nat)
    requires i / 8 < |bits|
    ensures HasBit(bits, i) <==> (bits[i / 8] >> (7 - i % 8)) & 1 == 1
  {
    ShiftedBit(bits[i / 8], i % 8);
  }

  lemma ShiftedBit(b: bv8, k: nat)
    requires k < 8
    ensures BitSet(b, k) <==> (b >> (7 - k)) & 1 == 1
  {
    if k == 0 {} else if k == 1 {} else if k == 2 {} else if k == 3 {} else if k == 4 {} else if k == 5 {} else if k == 6 {}
  }

  lemma SetBit(b: bv8, j: nat, k: nat)
    requires j < 8 && k < 8
    ensures BitSet(b | Mask(j), k) <==> j == k || BitSet(b, k)
  {}

  lemma ClearBit(b: bv8, j: nat, k: nat)
    requires j < 8 && k < 8
    ensures BitSet(b & !Mask(j), k) <==> j != k && BitSet(b, k)
  {}

  lemma SetBitOf(bits: seq<bv8>, i: nat, j: nat)
    requires i / 8 < |bits|
    ensures HasBit(bits[i / 8 := bits[i / 8] | Mask(i % 8)], j) <==> j == i || HasBit(bits, j)
  {
    if j / 8 == i / 8 { SetBit(bits[i / 8], i % 8, j % 8); }
  }

  lemma ClearBitOf(bits: seq<bv8>, i: nat, j: nat)
    requires i / 8 < |bits|
    ensures HasBit(bits[i / 8 := bits[i / 8] & !Mask(i % 8)], j) <==> j != i && HasBit(bits, j)
  {
    if j / 8 == i / 8 { ClearBit(bits[i / 8], i % 8, j % 8); }
  }

  lemma SpareClear(b: bv8, used: nat)
    requires 0 < used < 8
    ensures b & Spare(used) == 0 <==> forall k: nat :: used <= k < 8 ==> !BitSet(b, k)
  {
    if b & Spare(used) == 0 {
      forall k: nat | used <= k < 8 ensures !BitSet(b, k) {}
    } else {
      assert exists k: nat :: used <= k < 8 && BitSet(b, k) by {
        if BitSet(b, 7) {}
        else if used <= 6 && BitSet(b, 6) {}
        else if used <= 5 && BitSet(b, 5) {}
        else if used <= 4 && BitSet(b, 4) {}
        else if used <= 3 && BitSet(b, 3) {}
        else if used <= 2 && BitSet(b, 2) {}
        else { assert BitSet(b, 1); }
      }
    }
  }

  lemma ByteByBits(a: bv8, b: bv8)
    requires forall k: nat :: k < 8 ==> (BitSet(a, k) <==> BitSet(b, k))
    ensures a == b
  {
    assert BitSet(a, 0) == BitSet(b, 0) && BitSet(a, 1) == BitSet(b, 1) && BitSet(a, 2) == BitSet(b, 2) && BitSet(a, 3) == BitSet(b, 3);
    assert BitSet(a, 4) == BitSet(b, 4) && BitSet(a, 5) == BitSet(b, 5) && BitSet(a, 6) == BitSet(b, 6) && BitSet(a, 7) == BitSet(b, 7);
  }

  /** `count_ones`. */
  function Ones(b: bv8): nat { OnesFrom(b, 0) }

  function OnesFrom(b: bv8, k: nat): nat
    requires k <= 8
    decreases 8 - k
  {
    if k == 8 then 0 else (if BitSet(b, k) then 1 else 0) + OnesFrom(b, k + 1)
  }

  function OnesIn(bits: seq<bv8>): nat {
    if bits == [] then 0 else OnesIn(bits[..|bits| - 1]) + Ones(bits[|bits| - 1])
  }

  // ----- the whole field

  /** In a well-formed field no bit beyond the piece count is set. */
  lemma NothingBeyond(bits: seq<bv8>, len: nat, i: nat)
    requires WellFormed(bits, len)
    ensures HasBit(bits, i) ==> i < len
  {
    if i >= len && i / 8 < |bits| {
      assert i / 8 == |bits| - 1 && i % 8 >= len % 8 > 0;
      SpareClear(bits[|bits| - 1], len % 8);
    }
  }

  /** One spelling per set: the bytes are determined by the pieces. */
  lemma Canonical(a: seq<bv8>, b: seq<bv8>, len: nat)
    requires WellFormed(a, len) && WellFormed(b, len)
    requires PiecesOf(a, len) == PiecesOf(b, len)
    ensures a == b
  {
    forall n | 0 <= n < |a| ensures a[n] == b[n] {
      forall k: nat | k < 8 ensures BitSet(a[n], k) <==> BitSet(b[n], k) {
        var i := 8 * n + k;
        assert i / 8 == n && i % 8 == k;
        assert i in PiecesOf(a, len) <==> i in PiecesOf(b, len);
        NothingBeyond(a, len, i);
        NothingBeyond(b, len, i);
      }
      ByteByBits(a[n], b[n]);
    }
  }

  function BitsUpTo(bits: seq<bv8>, n: nat): set<nat> { set i: nat | i < n && HasBit(bits, i) }

  lemma {:induction false} OnesFromSplits(bits: seq<bv8>, n: nat, k: nat)
    requires n < |bits| && k <= 8
    ensures |BitsUpTo(bits, 8 * n + 8)| == |BitsUpTo(bits, 8 * n + k)| + OnesFrom(bits[n], k)
    decreases 8 - k
  {
    hide BitSet, BitsUpTo;
    if k < 8 {
      var i := 8 * n + k;
      assert i / 8 == n && i % 8 == k;
      OnesFromSplits(bits, n, k + 1);
      OneBitMore(bits, i);
    }
  }

  lemma OneBitMore(bits: seq<bv8>, i: nat)
    ensures |BitsUpTo(bits, i + 1)| == |BitsUpTo(bits, i)| + (if HasBit(bits, i) then 1 else 0)
  {
    hide HasBit;
    assert i !in BitsUpTo(bits, i);
    assert BitsUpTo(bits, i + 1) == if HasBit(bits, i) then BitsUpTo(bits, i) + {i} else BitsUpTo(bits, i);
  }

  lemma {:induction false} OnesAreBits(bits: seq<bv8>, n: nat)
    requires n <= |bits|
    ensures OnesIn(bits[..n]) == |BitsUpTo(bits, 8 * n)|
  {
    if n == 0 {
      assert BitsUpTo(bits, 0) == {};
    } else {
      OnesAreBits(bits, n - 1);
      OnesFromSplits(bits, n - 1, 0);
      assert bits[..n][..n - 1] == bits[..n - 1];
    }
  }

  /** Counting ones counts pieces, because spare bits stay zero. */
  lemma OnesCountPieces(bits: seq<bv8>, len: nat)
    requires WellFormed(bits, len)
    ensures OnesIn(bits) == |PiecesOf(bits, len)|
  {
    OnesAreBits(bits, |bits|);
    assert bits[..|bits|] == bits;
    forall i: nat ensures i in BitsUpTo(bits, 8 * |bits|) <==> i in PiecesOf(bits, len) {
      NothingBeyond(bits, len, i);
    }
    assert BitsUpTo(bits, 8 * |bits|) == PiecesOf(bits, len);
  }

  class Bitfield {
    const len: nat
    var bits: seq<bv8>

    ghost predicate Valid()
      reads this
    {
      WellFormed(bits, len)
    }

    function View(): set<nat>
      reads this
    {
      PiecesOf(bits, len)
    }

    constructor Full(len: nat)
      ensures Valid() && this.len == len && View() == set i: nat | i < len && Within(i, len)
    {
      this.len := len;
      bits := seq(ByteLen(len), _ => 0xFF);
      new;
      // clear_spare_bits
      var used := len % 8;
      if used != 0 && bits != [] {
        bits := bits[|bits| - 1 := bits[|bits| - 1] & !Spare(used)];
      }
      forall i: nat | i < len ensures HasBit(bits, i) {
        FullByte(used, i % 8);
      }
      assert View() == set i: nat | i < len && Within(i, len);
    }

    /** Whether a piece is present; out-of-range indices are absent. */
    function Has(i: nat): (r: bool)
      requires Valid()
      reads this
      ensures r <==> i in View()
    {
      i < len && bits[i / 8] & Mask(i % 8) != 0
    }

    method Set(i: nat)
      requires Valid()
      modifies this
      ensures Valid() && View() == if i < len then old(View()) + {i} else old(View())
    {
      if i >= len { return; }
      var was := bits;
      bits := bits[i / 8 := bits[i / 8] | Mask(i % 8)];
      forall j: nat ensures HasBit(bits, j) <==> j == i || HasBit(was, j) {
        SetBitOf(was, i, j);
      }
      StaysWellFormed(was, bits, len);
      assert View() == PiecesOf(was, len) + {i};
    }

    method Clear(i: nat)
      requires Valid()
      modifies this
      ensures Valid() && View() == old(View()) - {i}
    {
      if i >= len { return; }
      var was := bits;
      bits := bits[i / 8 := bits[i / 8] & !Mask(i % 8)];
      forall j: nat ensures HasBit(bits, j) <==> j != i && HasBit(was, j) {
        ClearBitOf(was, i, j);
      }
      StaysWellFormed(was, bits, len);
      assert View() == PiecesOf(was, len) - {i};
    }

    /** How many pieces are present. */
    method Count() returns (n: nat)
      requires Valid()
      ensures n == |View()|
    {
      n := 0;
      var i := 0;
      while i < |bits|
        invariant i <= |bits| && n == OnesIn(bits[..i])
      {
        assert bits[..i + 1][..i] == bits[..i];
        n := n + Ones(bits[i]);
        i := i + 1;
      }
      assert bits[..i] == bits;
      OnesCountPieces(bits, len);
    }
  }

  predicate Within(i: nat, len: nat) { i < len }

  lemma FullByte(used: nat, k: nat)
    requires used < 8 && k < 8
    ensures BitSet(0xFF, k)
    ensures k < used ==> BitSet(0xFF & !Spare(used), k)
  {}

  lemma StaysWellFormed(was: seq<bv8>, bits: seq<bv8>, len: nat)
    requires WellFormed(was, len) && |bits| == |was|
    requires forall j: nat :: HasBit(bits, j) && !HasBit(was, j) ==> j < len
    ensures WellFormed(bits, len)
  {
    var used := len % 8;
    if used != 0 && bits != [] {
      var n := |bits| - 1;
      forall k: nat | used <= k < 8 ensures !BitSet(bits[n], k) {
        var j := 8 * n + k;
        assert j / 8 == n && j % 8 == k && j >= len;
        NothingBeyond(was, len, j);
        assert !HasBit(bits, j);
      }
      SpareClear(bits[n], used);
    }
  }

  // ----- the bytes a set is sent as

  /** The first `k` bits of byte `n` of a set's bitfield. */
  function ByteOf(field: set<nat>, n: nat, k: nat): bv8
    requires k <= 8
  {
    if k == 0 then 0
    else if 8 * n + k - 1 in field then ByteOf(field, n, k - 1) | Mask(k - 1)
    else ByteOf(field, n, k - 1)
  }

  function Encode(field: set<nat>, len: nat): seq<bv8> {
    seq(ByteLen(len), n requires 0 <= n < ByteLen(len) => ByteOf(field, n, 8))
  }

  predicate Below(field: set<nat>, len: nat) { forall i :: i in field ==> i < len }

  lemma {:induction false} ByteOfBits(field: set<nat>, n: nat, k: nat, j: nat)
    requires k <= 8 && j < 8
    ensures BitSet(ByteOf(field, n, k), j) <==> j < k && 8 * n + j in field
  {
    if k > 0 {
      ByteOfBits(field, n, k - 1, j);
      SetBit(ByteOf(field, n, k - 1), k - 1, j);
    }
  }

  lemma EncodedBits(field: set<nat>, len: nat, i: nat)
    ensures HasBit(Encode(field, len), i) <==> i / 8 < ByteLen(len) && i in field
  {
    hide BitSet, ByteOf;
    if i / 8 < ByteLen(len) {
      ByteOfBits(field, i / 8, 8, i % 8);
      assert 8 * (i / 8) + i % 8 == i;
    }
  }

  lemma EncodedSpareClear(field: set<nat>, len: nat)
    requires Below(field, len)
    ensures WellFormed(Encode(field, len), len)
  {
    hide BitSet, ByteOf;
    var bits, used := Encode(field, len), len % 8;
    if used != 0 && bits != [] {
      var n := |bits| - 1;
      forall k: nat | used <= k < 8 ensures !BitSet(bits[n], k) {
        ByteOfBits(field, n, 8, k);
        assert 8 * n + k >= len;
      }
      SpareClear(bits[n], used);
    }
  }

  /** What is sent for a set is well formed and stands for the set. */
  lemma EncodedStandsForSet(field: set<nat>, len: nat)
    requires Below(field, len)
    ensures WellFormed(Encode(field, len), len) && PiecesOf(Encode(field, len), len) == field
  {
    hide HasBit, Encode;
    EncodedSpareClear(field, len);
    forall i: nat | i < len ensures HasBit(Encode(field, len), i) <==> i in field { EncodedBits(field, len, i); }
    assert PiecesOf(Encode(field, len), len) == field;
  }

  /** A received bitfield is accepted exactly when it is what some set of the
      torrent's pieces is sent as, and that set is the one it is read back as. */
  lemma ParseAcceptsEncodings(bytes: seq<bv8>, len: nat)
    ensures Parse(bytes, len).Ok? <==> exists field: set<nat> :: Below(field, len) && bytes == Encode(field, len)
    ensures Parse(bytes, len).Ok? ==> bytes == Encode(PiecesOf(bytes, len), len)
  {
    if WellFormed(bytes, len) {
      var field := PiecesOf(bytes, len);
      EncodedStandsForSet(field, len);
      Canonical(bytes, Encode(field, len), len);
      assert Below(field, len);
    }
    if field: set<nat> :| Below(field, len) && bytes == Encode(field, len) {
      EncodedStandsForSet(field, len);
    }
  }
}
