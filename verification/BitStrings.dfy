// Bit strings, regrouping them, and the low bits of a 32-bit shift buffer:
// what the base32 and base64 codecs of crates/i2pnet/src/addr.rs rest on.
module BitStrings {
  type bits = seq<bool>

  function Pow2(k: nat): (p: nat)
    ensures p > 0
  {
    if k == 0 then 1 else 2 * Pow2(k - 1)
  }

  const U32_RANGE: nat := 0x1_0000_0000

  /** A `u32` shifted left: what leaves the top is lost. */
  function Shl(x: nat, k: nat): nat { (x * Pow2(k)) % U32_RANGE }

  function FromBits(b: bits): nat {
    if b == [] then 0 else 2 * FromBits(b[..|b| - 1]) + (if b[|b| - 1] then 1 else 0)
  }

  /** The low `w` bits of `x`, most significant first. */
  function ToBits(x: nat, w: nat): (b: bits)
    ensures |b| == w
  {
    if w == 0 then [] else ToBits(x / 2, w - 1) + [x % 2 == 1]
  }

  function Zeros(n: nat): bits { seq(n, _ => false) }

  /** The bits of a sequence of `w`-bit values. */
  function BitsOf(xs: seq<nat>, w: nat): bits {
    if xs == [] then [] else BitsOf(xs[..|xs| - 1], w) + ToBits(xs[|xs| - 1], w)
  }

  lemma {:induction false} BitsOfLength(xs: seq<nat>, w: nat)
    ensures |BitsOf(xs, w)| == |xs| * w
  {
    if xs != [] {
      BitsOfLength(xs[..|xs| - 1], w);
      MulDist(|xs| - 1, 1, w);
    }
  }

  /** The whole `w`-bit groups of a bit string, from the front. */
  function Chop(b: bits, w: nat): seq<nat>
    requires w > 0
  {
    if |b| < w then [] else [FromBits(b[..w])] + Chop(b[w..], w)
  }

  /** What is left over after the whole groups. */
  function Rest(b: bits, w: nat): (r: bits)
    requires w > 0
    ensures |r| < w && |r| <= |b|
  {
    if |b| < w then b else Rest(b[w..], w)
  }

  /** Whole groups, and one more, padded with zeros, if any bits are left over. */
  function Group(b: bits, w: nat): seq<nat>
    requires w > 0
  {
    Chop(b, w) + (if Rest(b, w) == [] then [] else [FromBits(Rest(b, w) + Zeros(w - |Rest(b, w)|))])
  }

  // ----- powers of two

  lemma {:induction false} Pow2Adds(a: nat, b: nat)
    ensures Pow2(a + b) == Pow2(a) * Pow2(b)
  {
    if a > 0 {
      Pow2Adds(a - 1, b);
      assert Pow2(a + b) == 2 * Pow2(a - 1 + b);
    }
  }

  lemma Pow2Values()
    ensures Pow2(5) == 32 && Pow2(6) == 64 && Pow2(8) == 256 && Pow2(32) == U32_RANGE
  {
    assert Pow2(8) == 256;
    Pow2Adds(8, 8);
    Pow2Adds(16, 16);
  }

  // ----- numbers and bits

  lemma {:induction false} FromBitsBound(b: bits)
    ensures FromBits(b) < Pow2(|b|)
  {
    if b != [] { FromBitsBound(b[..|b| - 1]); }
  }

  lemma {:induction false} FromBitsJoin(a: bits, b: bits)
    ensures FromBits(a + b) == FromBits(a) * Pow2(|b|) + FromBits(b)
  {
    if b == [] {
      assert a + b == a;
    } else {
      var init := b[..|b| - 1];
      FromBitsJoin(a, init);
      assert (a + b)[..|a + b| - 1] == a + init;
      assert FromBits(a) * Pow2(|b|) == 2 * (FromBits(a) * Pow2(|init|));
    }
  }

  lemma {:induction false} FromToBits(x: nat, w: nat)
    requires x < Pow2(w)
    ensures FromBits(ToBits(x, w)) == x
  {
    if w > 0 {
      FromToBits(x / 2, w - 1);
      assert ToBits(x, w)[..w - 1] == ToBits(x / 2, w - 1);
    }
  }

  lemma {:induction false} ToFromBits(b: bits)
    ensures ToBits(FromBits(b), |b|) == b
  {
    if b != [] {
      ToFromBits(b[..|b| - 1]);
      assert b == b[..|b| - 1] + [b[|b| - 1]];
    }
  }

  // ----- regrouping

  lemma BitsOfPush(xs: seq<nat>, x: nat, w: nat)
    ensures BitsOf(xs + [x], w) == BitsOf(xs, w) + ToBits(x, w)
  {
    assert (xs + [x])[..|xs|] == xs;
  }

  lemma {:induction false} BitsOfFront(x: nat, xs: seq<nat>, w: nat)
    ensures BitsOf([x] + xs, w) == ToBits(x, w) + BitsOf(xs, w)
  {
    if xs == [] {
      assert ([x] + xs)[..0] == [] && [x] + xs == [x];
      assert BitsOf([x], w) == BitsOf([], w) + ToBits(x, w);
    } else {
      var init := xs[..|xs| - 1];
      BitsOfFront(x, init, w);
      assert ([x] + xs)[..|xs|] == [x] + init;
    }
  }

  lemma JoinAssoc(a: bits, b: bits, c: bits)
    ensures (a + b) + c == a + (b + c)
  {}

  lemma ChopStep(b: bits, w: nat)
    requires 0 < w <= |b|
    ensures Chop(b, w) == [FromBits(b[..w])] + Chop(b[w..], w) && Rest(b, w) == Rest(b[w..], w)
  {}

  lemma ChopStop(b: bits, w: nat)
    requires w > 0 && |b| < w
    ensures Chop(b, w) == [] && Rest(b, w) == b
  {}

  /** The whole groups and the leftover spell the bit string. */
  lemma {:induction false} ChopLosesNothing(b: bits, w: nat)
    requires w > 0
    ensures BitsOf(Chop(b, w), w) + Rest(b, w) == b
    decreases |b|
  {
    hide BitsOf, Chop, Rest, FromBits;
    if |b| < w {
      ChopStop(b, w);
      NoBits(w);
      assert [] + b == b;
    } else {
      ChopStep(b, w);
      ChopLosesNothing(b[w..], w);
      GroupInFront(b[..w], Chop(b[w..], w), Rest(b[w..], w), w);
      assert b == b[..w] + b[w..];
    }
  }

  lemma NoBits(w: nat)
    ensures BitsOf([], w) == []
  {}

  lemma GroupInFront(front: bits, groups: seq<nat>, rest: bits, w: nat)
    requires |front| == w
    ensures BitsOf([FromBits(front)] + groups, w) + rest == front + (BitsOf(groups, w) + rest)
  {
    hide BitsOf, FromBits, ToBits;
    ToFromBits(front);
    BitsOfFront(FromBits(front), groups, w);
    JoinAssoc(front, BitsOf(groups, w), rest);
  }

  lemma {:induction false} ChopFits(b: bits, w: nat)
    requires w > 0
    ensures forall x :: x in Chop(b, w) ==> x < Pow2(w)
    decreases |b|
  {
    if |b| >= w {
      ChopFits(b[w..], w);
      FromBitsBound(b[..w]);
    }
  }

  /** Chopping what was spelled out gives the values back. */
  lemma {:induction false} ChopOfBits(xs: seq<nat>, w: nat, tail: bits)
    requires w > 0 && |tail| < w && forall x :: x in xs ==> x < Pow2(w)
    ensures Chop(BitsOf(xs, w) + tail, w) == xs
    ensures Rest(BitsOf(xs, w) + tail, w) == tail
    decreases |xs|
  {
    if xs == [] {
      assert BitsOf(xs, w) + tail == tail;
    } else {
      var x, rest := xs[0], xs[1..];
      assert xs == [x] + rest && x in xs && forall y :: y in rest ==> y in xs;
      BitsOfFront(x, rest, w);
      ChopOfBits(rest, w, tail);
      hide BitsOf, ToBits, FromBits;
      var b, rest' := BitsOf(xs, w) + tail, BitsOf(rest, w) + tail;
      JoinAssoc(ToBits(x, w), BitsOf(rest, w), tail);
      assert b == ToBits(x, w) + rest' && b[..w] == ToBits(x, w) && b[w..] == rest';
      FromToBits(x, w);
    }
  }

  /** One more whole group arrives behind what was grouped already. */
  lemma {:induction false} ChopGrows(b: bits, more: bits, w: nat)
    requires w > 0
    ensures Chop(b + more, w) == Chop(b, w) + Chop(Rest(b, w) + more, w)
    ensures Rest(b + more, w) == Rest(Rest(b, w) + more, w)
    decreases |b|
  {
    if |b| >= w {
      ChopGrows(b[w..], more, w);
      assert (b + more)[..w] == b[..w] && (b + more)[w..] == b[w..] + more;
    }
  }

  /** Grouping is the inverse of spelling out, up to the padding. */
  lemma BitsOfGroup(b: bits, w: nat)
    requires w > 0
    ensures var pad := if Rest(b, w) == [] then 0 else w - |Rest(b, w)|;
      BitsOf(Group(b, w), w) == b + Zeros(pad)
    ensures forall x :: x in Group(b, w) ==> x < Pow2(w)
  {
    hide BitsOf, Chop, Rest, FromBits, ToBits;
    ChopLosesNothing(b, w);
    ChopFits(b, w);
    var chopped, rest := Chop(b, w), Rest(b, w);
    if rest == [] {
      assert Group(b, w) == chopped;
      assert BitsOf(chopped, w) + [] == BitsOf(chopped, w);
      assert b + Zeros(0) == b;
    } else {
      var last := rest + Zeros(w - |rest|);
      ToFromBits(last);
      FromBitsBound(last);
      BitsOfPush(chopped, FromBits(last), w);
      JoinAssoc(BitsOf(chopped, w), rest, Zeros(w - |rest|));
    }
  }

  // ----- the shift buffer

  /** The low bits of the buffer are the bits not yet written out. */
  ghost predicate Buffered(buffer: nat, pending: bits) {
    buffer % Pow2(|pending|) == FromBits(pending)
  }

  lemma MulAssoc(a: int, b: int, c: int)
    ensures a * (b * c) == (a * b) * c
  {}

  lemma MulDist(a: int, b: int, c: int)
    ensures (a + b) * c == a * c + b * c
  {}

  lemma MulMono(a: int, b: int, c: int)
    requires a <= b && c >= 0
    ensures a * c <= b * c
  {
    MulDist(a, b - a, c);
    assert (b - a) * c >= 0;
  }

  lemma DivModIs(x: nat, n: nat)
    requires n > 0
    ensures x == (x / n) * n + x % n && 0 <= x % n < n
  {}

  lemma DivModUnique(x: nat, q: nat, r: nat, a: nat)
    requires r < a && x == q * a + r
    ensures x / a == q && x % a == r
  {
    var d := x / a - q;
    DivModIs(x, a);
    MulDist(d, q, a);
    if d >= 1 { MulMono(1, d, a); }
    if d <= -1 { MulMono(d, -1, a); }
  }

  lemma Regroup(q: int, b: int, t: int, a: int, n: int)
    requires n == a * b
    ensures q * n + t * a == (q * b + t) * a
  {
    MulAssoc(q, b, a);
    MulDist(q * b, t, a);
    assert b * a == n;
  }

  lemma QuotientBelow(t: int, a: int, u: int, b: int, n: int)
    requires a > 0 && b > 0 && 0 <= u && n == a * b && t * a + u < n
    ensures t < b
  {
    assert b * a == n;
    if t >= b {
      MulMono(b, t, a);
    }
  }

  lemma ProductPositive(a: int, b: int)
    requires a > 0 && b > 0
    ensures a * b > 0
  {}

  lemma ModOfMod(x: nat, a: nat, b: nat, n: nat)
    requires a > 0 && b > 0 && n == a * b
    ensures n > 0
    ensures (x % n) % a == x % a
    ensures (x / a) % b == (x % n) / a
  {
    ProductPositive(a, b);
    var q, r := x / n, x % n;
    var t, u := r / a, r % a;
    DivModIs(x, n);
    DivModIs(r, a);
    Regroup(q, b, t, a, n);
    QuotientBelow(t, a, u, b, n);
    QuotientParts(x, a, b, q, t, u);
  }

  lemma QuotientParts(x: nat, a: nat, b: nat, q: nat, t: nat, u: nat)
    requires a > 0 && u < a && t < b && x == (q * b + t) * a + u
    ensures x % a == u && (x / a) % b == t
  {
    DivModUnique(x, q * b + t, u, a);
    DivModUnique(q * b + t, q, t, b);
  }

  lemma ShiftedMod(x: nat, a: nat, b: nat, n: nat)
    requires a > 0 && b > 0 && n == b * a
    ensures n > 0 && (x * a) % n == (x % b) * a && (x % b) * a + a <= n
  {
    ProductPositive(b, a);
    var q, r := x / b, x % b;
    DivModIs(x, b);
    ShiftedSum(q, b, r, a, n);
    MulMono(r + 1, b, a);
    MulDist(r, 1, a);
    DivModUnique(x * a, q, r * a, n);
  }

  lemma ShiftedSum(q: nat, b: nat, r: nat, a: nat, n: nat)
    requires n == b * a
    ensures (q * b + r) * a == q * n + r * a
  {
    MulDist(q * b, r, a);
    MulAssoc(q, b, a);
  }

  lemma AddLow(y: nat, n: nat, x: nat, z: nat)
    requires n > 0 && y % n == z && z + x < n
    ensures (y + x) % n == z + x
  {
    DivModIs(y, n);
    DivModUnique(y + x, y / n, z + x, n);
  }

  /** Shifting `w` bits in loses none of the pending ones, as long as both fit
      the register. */
  lemma PushBits(buffer: nat, pending: bits, x: nat, w: nat)
    requires Buffered(buffer, pending) && x < Pow2(w) && |pending| + w <= 32
    ensures Buffered(Shl(buffer, w) + x, pending + ToBits(x, w))
    ensures Shl(buffer, w) + x < U32_RANGE
  {
    hide Pow2, FromBits, ToBits, Shl;
    var k, n := |pending|, Pow2(|pending| + w);
    Pow2Adds(k, w);
    FromBitsJoin(pending, ToBits(x, w));
    FromToBits(x, w);
    ShiftKeepsLow(buffer, k, w);
    AddLow(Shl(buffer, w), n, x, FromBits(pending) * Pow2(w));
  }

  /** What is shifted is a multiple of 2^w, so adding less carries nothing; and
      what leaves the register was not among the low `k` bits. */
  lemma ShiftKeepsLow(buffer: nat, k: nat, w: nat)
    requires k + w <= 32
    ensures Shl(buffer, w) % Pow2(k + w) == (buffer % Pow2(k)) * Pow2(w)
    ensures (buffer % Pow2(k)) * Pow2(w) + Pow2(w) <= Pow2(k + w)
    ensures Shl(buffer, w) + Pow2(w) <= U32_RANGE
  {
    hide Pow2;
    Pow2Adds(k, w);
    Pow2Adds(k + w, 32 - k - w);
    Pow2Adds(32 - w, w);
    Pow2Values();
    var big := buffer * Pow2(w);
    ShiftedMod(buffer, Pow2(w), Pow2(k), Pow2(k + w));
    ShiftedMod(buffer, Pow2(w), Pow2(32 - w), U32_RANGE);
    ModOfMod(big, Pow2(k + w), Pow2(32 - k - w), U32_RANGE);
  }

  /** The top `w` pending bits are read by shifting the others away; the rest
      stay pending. */
  lemma TakeTop(buffer: nat, pending: bits, w: nat)
    requires Buffered(buffer, pending) && w <= |pending|
    ensures (buffer / Pow2(|pending| - w)) % Pow2(w) == FromBits(pending[..w])
    ensures Buffered(buffer, pending[w..])
  {
    var k := |pending| - w;
    Pow2Adds(k, w);
    assert pending == pending[..w] + pending[w..];
    FromBitsJoin(pending[..w], pending[w..]);
    FromBitsBound(pending[w..]);
    FromBitsBound(pending[..w]);
    ModOfMod(buffer, Pow2(k), Pow2(w), Pow2(k + w));
    DivModUnique(FromBits(pending), FromBits(pending[..w]), FromBits(pending[w..]), Pow2(k));
  }
}
