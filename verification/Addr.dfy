// The textual address codecs of crates/i2pnet/src/addr.rs: base32 (section 6
// of RFC 4648, lowercase, unpadded) and base64 (section 4, I2P's alphabet).
module Addr {
  import opened Prelude
  import opened BitStrings

  const B32_ALPHABET: string := "abcdefghijklmnopqrstuvwxyz234567"
  const UPPER: string := "ABCDEFGHIJKLMNOPQRSTUVWXYZ"
  const LOWER: string := "abcdefghijklmnopqrstuvwxyz"
  const DIGITS_AND_MARKS: string := "0123456789-~"
  const I2P_B64_ALPHABET: string := UPPER + LOWER + DIGITS_AND_MARKS

  // ----- symbols

  function Spell(alphabet: string, vals: seq<nat>): string
    requires forall v :: v in vals ==> v < |alphabet|
  {
    seq(|vals|, k requires 0 <= k < |vals| => assert vals[k] in vals; alphabet[vals[k]])
  }

  /** The first position of a symbol, looked for from `k` on. */
  function Position(alphabet: string, c: char, k: nat): (r: Option<nat>)
    requires k <= |alphabet|
    ensures r.Some? ==> k <= r.value < |alphabet| && alphabet[r.value] == c
    ensures r.None? ==> forall j :: k <= j < |alphabet| ==> alphabet[j] != c
    decreases |alphabet| - k
  {
    if k == |alphabet| then None else if alphabet[k] == c then Some(k) else Position(alphabet, c, k + 1)
  }

  /** The values of a string of symbols, if all are in the alphabet. */
  function Values(alphabet: string, s: string): Option<seq<nat>> {
    if s == [] then Some([])
    else
      var init, last := Values(alphabet, s[..|s| - 1]), Position(alphabet, s[|s| - 1], 0);
      if init.None? || last.None? then None else Some(init.value + [last.value])
  }

  ghost predicate NoRepeats(alphabet: string) {
    forall i, j :: 0 <= i < j < |alphabet| ==> alphabet[i] != alphabet[j]
  }

  lemma AlphabetsAreSound()
    ensures |B32_ALPHABET| == 32 && NoRepeats(B32_ALPHABET)
    ensures |I2P_B64_ALPHABET| == 64 && NoRepeats(I2P_B64_ALPHABET)
    ensures '=' !in I2P_B64_ALPHABET
  {
    hide UPPER, LOWER, DIGITS_AND_MARKS, B32_ALPHABET;
    UpperIsSound();
    LowerIsSound();
    MarksAreSound();
    LabelsAreSound();
  }

  lemma LabelsAreSound()
    ensures |B32_ALPHABET| == 32 && NoRepeats(B32_ALPHABET)
  {
    assert forall k :: 0 <= k < 32 ==> B32_ALPHABET[k] as int == if k < 26 then 'a' as int + k else '2' as int + k - 26;
    hide B32_ALPHABET;
  }

  lemma MarksAreSound()
    ensures |DIGITS_AND_MARKS| == 12 && NoRepeats(DIGITS_AND_MARKS) && '=' !in DIGITS_AND_MARKS
    ensures forall k :: 0 <= k < 12 ==> DIGITS_AND_MARKS[k] < 'A' || DIGITS_AND_MARKS[k] > 'z'
  {}

  lemma UpperIsSound()
    ensures |UPPER| == 26 && NoRepeats(UPPER) && forall k :: 0 <= k < 26 ==> 'A' <= UPPER[k] <= 'Z'
  {
    assert forall k :: 0 <= k < 26 ==> UPPER[k] as int == 'A' as int + k;
    hide UPPER;
  }

  lemma LowerIsSound()
    ensures |LOWER| == 26 && NoRepeats(LOWER) && forall k :: 0 <= k < 26 ==> 'a' <= LOWER[k] <= 'z'
  {
    assert forall k :: 0 <= k < 26 ==> LOWER[k] as int == 'a' as int + k;
    hide LOWER;
  }

  lemma {:induction false} ValuesOfSpelled(alphabet: string, vals: seq<nat>)
    requires NoRepeats(alphabet) && forall v :: v in vals ==> v < |alphabet|
    ensures Values(alphabet, Spell(alphabet, vals)) == Some(vals)
  {
    if vals != [] {
      var init := vals[..|vals| - 1];
      assert forall v :: v in init ==> v in vals;
      ValuesOfSpelled(alphabet, init);
      var s := Spell(alphabet, vals);
      assert s[..|s| - 1] == Spell(alphabet, init);
      var v := vals[|vals| - 1];
      assert v in vals;
      var p := Position(alphabet, s[|s| - 1], 0);
      assert p.Some? && alphabet[p.value] == alphabet[v];
      assert p.value == v;
      assert init + [v] == vals;
    }
  }

  lemma {:induction false} SpelledOfValues(alphabet: string, s: string)
    requires Values(alphabet, s).Some?
    ensures var vals := Values(alphabet, s).value;
      |vals| == |s| && (forall v :: v in vals ==> v < |alphabet|) && Spell(alphabet, vals) == s
  {
    if s != [] {
      SpelledOfValues(alphabet, s[..|s| - 1]);
      var vals := Values(alphabet, s).value;
      assert forall k :: 0 <= k < |s| - 1 ==> Spell(alphabet, vals)[k] == s[..|s| - 1][k];
    }
  }

  // ----- what the codecs compute

  /** The values of the symbols that carry some bytes, `w` bits each. */
  function SymbolsOf(data: seq<byte>, w: nat): seq<nat>
    requires w > 0
  {
    Group(BitsOf(data, 8), w)
  }

  /** The bytes carried by symbols of `w` bits; spare bits must be zero. */
  function BytesOf(vals: seq<nat>, w: nat): Option<seq<byte>> {
    var b := BitsOf(vals, w);
    if Rest(b, 8) == Zeros(|Rest(b, 8)|) then Some(ChopBytes(b)) else None
  }

  function ChopBytes(b: bits): seq<byte> {
    ChopFits(b, 8); Pow2Values();
    var out := Chop(b, 8);
    assert forall k :: 0 <= k < |out| ==> out[k] in out;
    out
  }

  lemma SymbolsFit(data: seq<byte>, w: nat)
    requires w == 5 || w == 6
    ensures forall v :: v in SymbolsOf(data, w) ==> v < Pow2(w)
  {
    BitsOfGroup(BitsOf(data, 8), w);
  }

  function Base32(data: seq<byte>): string {
    SymbolsFit(data, 5); Pow2Values(); AlphabetsAreSound();
    Spell(B32_ALPHABET, SymbolsOf(data, 5))
  }

  function FromBase32(s: string): Option<seq<byte>> {
    match Values(B32_ALPHABET, s) case None => None case Some(vals) => BytesOf(vals, 5)
  }

  function Padding(n: nat): string { seq((3 - n % 3) % 3, _ => '=') }

  function Base64(data: seq<byte>): string {
    SymbolsFit(data, 6); Pow2Values(); AlphabetsAreSound();
    Spell(I2P_B64_ALPHABET, SymbolsOf(data, 6)) + Padding(|data|)
  }

  function Unpadded(s: string): string {
    if s == [] then [] else Unpadded(s[..|s| - 1]) + (if s[|s| - 1] == '=' then [] else [s[|s| - 1]])
  }

  function FromBase64(s: string): Option<seq<byte>> {
    var symbols := Unpadded(s);
    if |symbols| % 4 == 1 then None
    else match Values(I2P_B64_ALPHABET, symbols) case None => None case Some(vals) => BytesOf(vals, 6)
  }

  // ----- lengths

  lemma {:induction false} RestLength(b: bits, w: nat)
    requires w > 0
    ensures |Rest(b, w)| == |b| % w
    decreases |b|
  {
    if |b| >= w {
      RestLength(b[w..], w);
      DivModIs(|b| - w, w);
      MulDist((|b| - w) / w, 1, w);
      DivModUnique(|b|, (|b| - w) / w + 1, (|b| - w) % w, w);
    }
  }

  lemma BytesFit(data: seq<byte>)
    ensures forall x :: x in data ==> x < Pow2(8)
  {
    Pow2Values();
  }

  // ----- round trips

  /** No bit is lost: the symbols of some bytes carry exactly those bytes. */
  lemma BytesOfSymbols(data: seq<byte>, w: nat)
    requires w == 5 || w == 6
    ensures BytesOf(SymbolsOf(data, w), w) == Some(data)
  {
    var b := BitsOf(data, 8);
    BitsOfGroup(b, w);
    BytesFit(data);
    var pad := if Rest(b, w) == [] then 0 else w - |Rest(b, w)|;
    ChopOfBits(data, 8, Zeros(pad));
  }

  /** Accepted symbols are the ones their bytes would be given, if and only if
      the bits left over are fewer than one symbol's worth. */
  lemma SymbolsOfBytes(vals: seq<nat>, w: nat)
    requires (w == 5 || w == 6) && (forall v :: v in vals ==> v < Pow2(w)) && BytesOf(vals, w).Some?
    ensures SymbolsOf(BytesOf(vals, w).value, w) == vals <==> (|vals| * w) % 8 < w
  {
    hide Group, Chop, Rest, BitsOf;
    var b := BitsOf(vals, w);
    var data, spare := ChopBytes(b), Rest(b, 8);
    Pow2Values();
    ChopLosesNothing(b, 8);
    ChopFits(b, 8);
    RestLength(b, 8);
    BitsOfLength(vals, w);
    var c := BitsOf(data, 8);
    BitsOfLength(data, 8);
    BitsOfGroup(c, w);
    RestLength(c, w);
    var g := SymbolsOf(data, w);
    BitsOfLength(g, w);
    var pad := if Rest(c, w) == [] then 0 else w - |Rest(c, w)|;
    assert |c| + |spare| == |vals| * w && |c| + pad == |g| * w;
    if |spare| < w {
      SpareIsPad(|c|, |spare|, pad, |vals|, |g|, w);
      BackFromBits(g, w);
      BackFromBits(vals, w);
    }
  }

  lemma BackFromBits(vals: seq<nat>, w: nat)
    requires w > 0 && forall v :: v in vals ==> v < Pow2(w)
    ensures Chop(BitsOf(vals, w), w) == vals
  {
    ChopOfBits(vals, w, []);
    assert BitsOf(vals, w) + [] == BitsOf(vals, w);
  }

  lemma SpareIsPad(c: nat, spare: nat, pad: nat, n: nat, k: nat, w: nat)
    requires spare < w && pad < w && c + spare == n * w && c + pad == k * w
    ensures spare == pad
  {
    MulDist(n - k, k, w);
    if n - k >= 1 { MulMono(1, n - k, w); }
    if n - k <= -1 { MulMono(n - k, -1, w); }
  }

  /** Base32: decoding undoes encoding. */
  lemma Base32RoundTrip(data: seq<byte>)
    ensures FromBase32(Base32(data)) == Some(data)
  {
    AlphabetsAreSound();
    SymbolsFit(data, 5);
    Pow2Values();
    ValuesOfSpelled(B32_ALPHABET, SymbolsOf(data, 5));
    BytesOfSymbols(data, 5);
  }

  /** The lengths that leave less than a symbol's worth of bits over. */
  lemma FiveBitsEach(n: nat)
    ensures (n * 5) % 8 < 5 <==> n % 8 !in {1, 3, 6}
  {
    var q, r := n / 8, n % 8;
    DivModIs(n, 8);
    var extra, left := (r * 5) / 8, (r * 5) % 8;
    assert left == if r == 0 then 0 else if r == 1 then 5 else if r == 2 then 2 else if r == 3 then 7
      else if r == 4 then 4 else if r == 5 then 1 else if r == 6 then 6 else 3;
    DivModUnique(n * 5, 5 * q + extra, left, 8);
  }

  /** Base32: an accepted string is the encoding of its bytes, except where its
      last symbol is a dangling zero that carries no byte. */
  lemma Base32Canonical(s: string)
    requires FromBase32(s).Some?
    ensures Base32(FromBase32(s).value) == s <==> |s| % 8 !in {1, 3, 6}
  {
    hide BitsOf, Chop, Rest, Group, B32_ALPHABET, I2P_B64_ALPHABET, Values, Pow2, Zeros, SymbolsOf, BytesOf, Spell;
    var vals := Values(B32_ALPHABET, s).value;
    AlphabetsAreSound();
    Pow2Values();
    SpelledOfValues(B32_ALPHABET, s);
    SymbolsOfBytes(vals, 5);
    FiveBitsEach(|s|);
    var data: seq<byte> := FromBase32(s).value;
    SymbolsFit(data, 5);
    if Base32(data) == s {
      ValuesOfSpelled(B32_ALPHABET, SymbolsOf(data, 5));
    }
  }

  /** The dangling symbol: accepted, and not what the encoder writes. */
  lemma DanglingSymbolAccepted()
    ensures FromBase32("a") == Some([]) && Base32([]) == ""
  {
    AlphabetsAreSound();
    var s := "a";
    assert s[..|s| - 1] == [] && Position(B32_ALPHABET, 'a', 0) == Some(0);
    assert Values(B32_ALPHABET, s) == Some([] + [0]);
    assert [] + [0] == [0];
    assert [0][..0] == [];
    assert ToBits(0, 5) == Zeros(5) by { ZeroBits(5); }
    assert BitsOf([0], 5) == BitsOf([], 5) + ToBits(0, 5) == Zeros(5);
  }

  lemma {:induction false} ZeroBits(w: nat)
    ensures ToBits(0, w) == Zeros(w)
  {
    if w > 0 {
      ZeroBits(w - 1);
      assert Zeros(w) == Zeros(w - 1) + [false];
    }
  }

  // ----- b32 labels

  const B32_SUFFIX: string := ".b32.i2p"

  function ToB32(hash: seq<byte>): string { Base32(hash) + B32_SUFFIX }

  function StripSuffix(text: string): string {
    if |text| >= 8 && text[|text| - 8..] == B32_SUFFIX then text[..|text| - 8] else text
  }

  /** `from_b32` on text already trimmed of whitespace. */
  function FromB32(text: string): Option<seq<byte>> {
    match FromBase32(StripSuffix(text))
    case None => None
    case Some(bs) => if |bs| == 32 then Some(bs) else None
  }

  /** A hash comes back from its label, and a hash has one label, with or
      without the suffix: no other text names it. */
  lemma OneLabelPerHash(hash: seq<byte>, text: string)
    requires |hash| == 32
    ensures FromB32(ToB32(hash)) == Some(hash)
    ensures FromB32(text) == Some(hash) ==> StripSuffix(text) == Base32(hash)
  {
    Base32RoundTrip(hash);
    assert ToB32(hash)[..|Base32(hash)|] == Base32(hash);
    assert ToB32(hash)[|Base32(hash)|..] == B32_SUFFIX;
    if FromB32(text) == Some(hash) {
      var name := StripSuffix(text);
      LabelLength(name);
      Base32Canonical(name);
    }
  }

  /** Thirty-two bytes need fifty-two symbols, neither more nor fewer. */
  lemma LabelLength(s: string)
    requires FromBase32(s).Some? && |FromBase32(s).value| == 32
    ensures |s| == 52
  {
    hide BitsOf, Chop, Rest;
    var vals := Values(B32_ALPHABET, s).value;
    SpelledOfValues(B32_ALPHABET, s);
    var b := BitsOf(vals, 5);
    BitsOfLength(vals, 5);
    ChopLosesNothing(b, 8);
    BitsOfLength(Chop(b, 8), 8);
  }

  // ----- base64

  lemma {:induction false} UnpaddedJoin(s: string, t: string)
    ensures Unpadded(s + t) == Unpadded(s) + Unpadded(t)
  {
    if t == [] {
      assert s + t == s;
    } else {
      UnpaddedJoin(s, t[..|t| - 1]);
      assert (s + t)[..|s + t| - 1] == s + t[..|t| - 1];
    }
  }

  lemma {:induction false} UnpaddedKeeps(s: string)
    requires '=' !in s
    ensures Unpadded(s) == s
  {
    if s != [] {
      assert s == s[..|s| - 1] + [s[|s| - 1]];
      UnpaddedKeeps(s[..|s| - 1]);
    }
  }

  lemma {:induction false} UnpaddedDrops(s: string)
    requires forall k :: 0 <= k < |s| ==> s[k] == '='
    ensures Unpadded(s) == []
  {
    if s != [] { UnpaddedDrops(s[..|s| - 1]); }
  }

  /** Taking the padding off an encoding leaves its symbols. */
  lemma UnpaddedBase64(data: seq<byte>)
    ensures (forall v :: v in SymbolsOf(data, 6) ==> v < 64) && |I2P_B64_ALPHABET| == 64
    ensures Unpadded(Base64(data)) == Spell(I2P_B64_ALPHABET, SymbolsOf(data, 6))
  {
    AlphabetsAreSound();
    SymbolsFit(data, 6);
    Pow2Values();
    var s := Spell(I2P_B64_ALPHABET, SymbolsOf(data, 6));
    forall k | 0 <= k < |s| ensures s[k] != '=' {
      assert SymbolsOf(data, 6)[k] in SymbolsOf(data, 6);
      assert s[k] == I2P_B64_ALPHABET[SymbolsOf(data, 6)[k]];
    }
    UnpaddedKeeps(s);
    UnpaddedDrops(Padding(|data|));
    UnpaddedJoin(s, Padding(|data|));
    assert s + [] == s;
  }

  /** The encoder never leaves one dangling symbol. */
  lemma SymbolCount(data: seq<byte>)
    ensures |SymbolsOf(data, 6)| % 4 != 1
  {
    hide BitsOf, Chop, Rest, Group;
    var b := BitsOf(data, 8);
    BitsOfLength(data, 8);
    BitsOfGroup(b, 6);
    RestLength(b, 6);
    BitsOfLength(SymbolsOf(data, 6), 6);
  }

  /** Base64: decoding undoes encoding. */
  lemma Base64RoundTrip(data: seq<byte>)
    ensures FromBase64(Base64(data)) == Some(data)
  {
    UnpaddedBase64(data);
    AlphabetsAreSound();
    SymbolCount(data);
    ValuesOfSpelled(I2P_B64_ALPHABET, SymbolsOf(data, 6));
    BytesOfSymbols(data, 6);
  }

  /** Base64: an accepted string is the encoding of its bytes, up to `=`. */
  lemma Base64Canonical(s: string)
    requires FromBase64(s).Some?
    ensures Unpadded(Base64(FromBase64(s).value)) == Unpadded(s)
  {
    hide BitsOf, Chop, Rest, Group, Spell, Values, BytesOf, SymbolsOf, Unpadded, Base64, Pow2, I2P_B64_ALPHABET, B32_ALPHABET;
    var symbols := Unpadded(s);
    var vals := Values(I2P_B64_ALPHABET, symbols).value;
    AlphabetsAreSound();
    Pow2Values();
    SpelledOfValues(I2P_B64_ALPHABET, symbols);
    SymbolsOfBytes(vals, 6);
    UnpaddedBase64(FromBase64(s).value);
  }

  // ----- the loops

  /** One more value of `w` bits moves the chopped bits and the leftover on. */
  lemma ChopPush(xs: seq<nat>, x: nat, w: nat, v: nat)
    requires v > 0
    ensures BitsOf(xs + [x], w) == BitsOf(xs, w) + ToBits(x, w)
    ensures var pending := Rest(BitsOf(xs, w), v) + ToBits(x, w);
      && Chop(BitsOf(xs + [x], w), v) == Chop(BitsOf(xs, w), v) + Chop(pending, v)
      && Rest(BitsOf(xs + [x], w), v) == Rest(pending, v)
  {
    BitsOfPush(xs, x, w);
    ChopGrows(BitsOf(xs, w), ToBits(x, w), v);
  }

  method Base32Encode(data: seq<byte>) returns (out: string)
    ensures out == Base32(data)
  {
    hide BitsOf, Chop, Rest, ToBits, FromBits;
    AlphabetsAreSound();
    Pow2Values();
    SymbolsFit(data, 5);
    out := [];
    var buffer: nat, nbits: nat := 0, 0;
    ghost var vals: seq<nat>, pending: bits := [], [];
    EmptyBits();
    var i := 0;
    while i < |data|
      invariant i <= |data| && nbits == |pending| < 5 && Buffered(buffer, pending)
      invariant vals == Chop(BitsOf(data[..i], 8), 5) && pending == Rest(BitsOf(data[..i], 8), 5)
      invariant forall v :: v in vals ==> v < 32
      invariant out == Spell(B32_ALPHABET, vals)
    {
      BytesFit(data);
      assert data[i] in data && data[..i + 1] == data[..i] + [data[i]];
      ChopPush(data[..i], data[i], 8, 5);
      PushBits(buffer, pending, data[i], 8);
      pending := pending + ToBits(data[i], 8);
      buffer := Shl(buffer, 8) + data[i];
      nbits := nbits + 8;
      ghost var whole, rest := vals + Chop(pending, 5), Rest(pending, 5);
      while nbits >= 5
        invariant nbits == |pending| && Buffered(buffer, pending)
        invariant vals + Chop(pending, 5) == whole && Rest(pending, 5) == rest
        invariant forall v :: v in vals ==> v < 32
        invariant out == Spell(B32_ALPHABET, vals)
      {
        ChopStep(pending, 5);
        TakeTop(buffer, pending, 5);
        nbits := nbits - 5;
        var idx := (buffer / Pow2(nbits)) % 32;
        out := out + [B32_ALPHABET[idx]];
        assert vals + [idx] + Chop(pending[5..], 5) == vals + ([idx] + Chop(pending[5..], 5));
        vals := vals + [idx];
        pending := pending[5..];
      }
      ChopStop(pending, 5);
      assert vals + [] == vals;
      i := i + 1;
    }
    assert data[..i] == data;
    if nbits > 0 {
      LastSymbol(buffer, pending, 5);
      var idx := Shl(buffer, 5 - nbits) % 32;
      out := out + [B32_ALPHABET[idx]];
      vals := vals + [idx];
    }
    assert vals == SymbolsOf(data, 5);
  }

  lemma EmptyBits()
    ensures BitsOf([], 8) == [] && Chop([], 5) == [] && Rest([], 5) == [] && FromBits([]) == 0
    ensures BitsOf([], 5) == [] && BitsOf([], 6) == [] && Chop([], 8) == [] && Rest([], 8) == []
  {}

  /** The last symbol carries the leftover bits with zeros below them. */
  lemma LastSymbol(buffer: nat, pending: bits, w: nat)
    requires 0 < |pending| < w <= 8 && Buffered(buffer, pending)
    ensures Shl(buffer, w - |pending|) % Pow2(w) == FromBits(pending + Zeros(w - |pending|))
  {
    hide FromBits, ToBits, Shl;
    var k := w - |pending|;
    ZeroBits(k);
    PushBits(buffer, pending, 0, k);
    assert |pending + Zeros(k)| == w;
  }

  /** The shared decoding loop: `w` bits a symbol, a byte whenever eight are in. */
  method DecodeSymbols(alphabet: string, w: nat, s: string) returns (r: Option<seq<byte>>)
    requires (w == 5 || w == 6) && |alphabet| == Pow2(w)
    ensures r == match Values(alphabet, s) case None => None case Some(vals) => BytesOf(vals, w)
  {
    hide BitsOf, Chop, Rest, ToBits, FromBits, Shl, Values, Pow2, Zeros;
    Pow2Values();
    var out: seq<byte>, buffer: nat, nbits: nat := [], 0, 0;
    ghost var vals: seq<nat>, pending: bits := [], [];
    EmptyBits();
    NoValues(alphabet);
    var i := 0;
    while i < |s|
      invariant i <= |s| && nbits == |pending| < 8 && Buffered(buffer, pending)
      invariant Values(alphabet, s[..i]) == Some(vals)
      invariant out == Chop(BitsOf(vals, w), 8) && pending == Rest(BitsOf(vals, w), 8)
    {
      NextValue(alphabet, s, i, vals);
      var val := Position(alphabet, s[i], 0);
      if val.None? {
        NoValuesBeyond(alphabet, s, i + 1);
        return None;
      }
      ChopPush(vals, val.value, w, 8);
      PushBits(buffer, pending, val.value, w);
      buffer := Shl(buffer, w) + val.value;
      nbits := nbits + w;
      pending := pending + ToBits(val.value, w);
      if nbits >= 8 {
        ChopStep(pending, 8);
        ChopStop(pending[8..], 8);
        TakeTop(buffer, pending, 8);
        nbits := nbits - 8;
        out := out + [(buffer / Pow2(nbits)) % 256];
        pending := pending[8..];
      } else {
        ChopStop(pending, 8);
      }
      vals := vals + [val.value];
      i := i + 1;
    }
    assert s[..i] == s;
    ZeroIsZeros(pending);
    if nbits > 0 && buffer % Pow2(nbits) != 0 {
      return None;
    }
    return Some(out);
  }

  lemma NoValues(alphabet: string)
    ensures Values(alphabet, []) == Some([])
  {}

  /** The value of one more symbol. */
  lemma NextValue(alphabet: string, s: string, i: nat, vals: seq<nat>)
    requires i < |s| && Values(alphabet, s[..i]) == Some(vals)
    ensures var v := Position(alphabet, s[i], 0);
      Values(alphabet, s[..i + 1]) == if v.None? then None else Some(vals + [v.value])
  {
    assert s[..i + 1][..i] == s[..i];
  }

  /** The spare bits are zero as a number exactly if each of them is. */
  lemma {:induction false} ZeroIsZeros(b: bits)
    ensures FromBits(b) == 0 <==> b == Zeros(|b|)
  {
    if b == [] {
      assert b == Zeros(0);
    } else {
      var init := b[..|b| - 1];
      ZeroIsZeros(init);
      assert b == init + [b[|b| - 1]];
      assert Zeros(|b|) == Zeros(|init|) + [false];
    }
  }

  lemma {:induction false} NoValuesBeyond(alphabet: string, s: string, k: nat)
    requires k <= |s| && Values(alphabet, s[..k]) == None
    ensures Values(alphabet, s) == None
    decreases |s|
  {
    if k < |s| {
      var init := s[..|s| - 1];
      assert init[..k] == s[..k];
      NoValuesBeyond(alphabet, init, k);
    } else {
      assert s[..k] == s;
    }
  }

  method Base32Decode(s: string) returns (r: Option<seq<byte>>)
    ensures r == FromBase32(s)
  {
    AlphabetsAreSound();
    Pow2Values();
    r := DecodeSymbols(B32_ALPHABET, 5, s);
  }

  method I2pBase64Decode(s: string) returns (r: Option<seq<byte>>)
    ensures r == FromBase64(s)
  {
    AlphabetsAreSound();
    Pow2Values();
    var symbols: string, i := [], 0;
    while i < |s|
      invariant i <= |s| && symbols == Unpadded(s[..i])
    {
      assert s[..i + 1][..i] == s[..i];
      if s[i] != '=' { symbols := symbols + [s[i]]; }
      i := i + 1;
    }
    assert s[..i] == s;
    if |symbols| % 4 == 1 {
      return None;
    }
    r := DecodeSymbols(I2P_B64_ALPHABET, 6, symbols);
  }

  // ----- base64, three bytes at a time

  lemma {:induction false} BitsOfJoin(xs: seq<nat>, ys: seq<nat>, w: nat)
    ensures BitsOf(xs + ys, w) == BitsOf(xs, w) + BitsOf(ys, w)
  {
    hide ToBits;
    if ys == [] {
      assert xs + ys == xs;
    } else {
      var init, last := ys[..|ys| - 1], ys[|ys| - 1];
      BitsOfJoin(xs, init, w);
      assert xs + ys == (xs + init) + [last];
      BitsOfPush(xs + init, last, w);
      JoinAssoc(BitsOf(xs, w), BitsOf(init, w), ToBits(last, w));
    }
  }

  lemma GroupJoin(b: bits, c: bits, w: nat)
    requires w > 0 && Rest(b, w) == []
    ensures Group(b + c, w) == Group(b, w) + Group(c, w)
  {
    hide Chop, Rest;
    ChopGrows(b, c, w);
    assert [] + c == c;
  }

  /** Up to three bytes as one number, the missing ones zero. */
  function Packed(chunk: seq<byte>): nat
    requires 1 <= |chunk| <= 3
  {
    (chunk[0] as int) * 65536 + (if |chunk| > 1 then (chunk[1] as int) * 256 else 0)
      + (if |chunk| > 2 then chunk[2] else 0)
  }

  lemma PackedPowers()
    ensures Pow2(0) == 1 && Pow2(8) == 256 && Pow2(16) == 65536
  {
    Pow2Values();
    Pow2Adds(8, 8);
  }

  lemma OneMoreByte(xs: seq<byte>, x: byte)
    ensures |BitsOf(xs + [x], 8)| == |BitsOf(xs, 8)| + 8
    ensures FromBits(BitsOf(xs + [x], 8)) == FromBits(BitsOf(xs, 8)) * 256 + x
  {
    hide BitsOf, ToBits, FromBits, Pow2;
    Pow2Values();
    BitsOfPush(xs, x, 8);
    FromToBits(x, 8);
    FromBitsJoin(BitsOf(xs, 8), ToBits(x, 8));
  }

  lemma PackedBits(chunk: seq<byte>)
    requires 1 <= |chunk| <= 3
    ensures var b := BitsOf(chunk, 8) + Zeros(24 - 8 * |chunk|);
      |BitsOf(chunk, 8)| == 8 * |chunk| && |b| == 24 && FromBits(b) == Packed(chunk)
  {
    hide BitsOf, FromBits, Pow2;
    PackedPowers();
    EmptyBits();
    ZeroIsZeros(Zeros(24 - 8 * |chunk|));
    FromBitsJoin(BitsOf(chunk, 8), Zeros(24 - 8 * |chunk|));
    OneMoreByte([], chunk[0]);
    assert [] + [chunk[0]] == chunk[..1];
    if |chunk| == 1 {
      assert chunk[..1] == chunk;
    } else {
      OneMoreByte(chunk[..1], chunk[1]);
      assert chunk[..1] + [chunk[1]] == chunk[..2];
      if |chunk| == 2 {
        assert chunk == chunk[..2];
      } else {
        OneMoreByte(chunk[..2], chunk[2]);
        assert chunk[..2] + [chunk[2]] == chunk;
      }
    }
  }

  /** The four six-bit fields of a packed chunk, from the top. */
  lemma PackedFields(n: nat, b: bits)
    requires |b| == 24 && FromBits(b) == n
    ensures (n / Pow2(18)) % 64 == FromBits(b[..6]) && (n / Pow2(12)) % 64 == FromBits(b[6..12])
    ensures (n / Pow2(6)) % 64 == FromBits(b[12..18]) && n % 64 == FromBits(b[18..])
  {
    hide FromBits;
    Pow2Values();
    FromBitsBound(b);
    assert Buffered(n, b);
    TakeTop(n, b, 6);
    TakeTop(n, b[6..], 6);
    TakeTop(n, b[6..][6..], 6);
    TakeTop(n, b[6..][6..][6..], 6);
    assert b[6..][..6] == b[6..12] && b[6..][6..] == b[12..];
    assert b[12..][..6] == b[12..18] && b[12..][6..] == b[18..];
    assert b[18..][..6] == b[18..];
  }

  /** What a chunk is spelled with: as many symbols as it has bits for. */
  lemma ChunkSymbols(chunk: seq<byte>)
    requires 1 <= |chunk| <= 3
    ensures var n := Packed(chunk);
      SymbolsOf(chunk, 6) == [(n / Pow2(18)) % 64, (n / Pow2(12)) % 64]
        + (if |chunk| > 1 then [(n / Pow2(6)) % 64] else []) + (if |chunk| > 2 then [n % 64] else [])
  {
    hide BitsOf, FromBits;
    var c, z := BitsOf(chunk, 8), Zeros(24 - 8 * |chunk|);
    PackedBits(chunk);
    PackedFields(Packed(chunk), c + z);
    ChopStep(c, 6);
    assert (c + z)[..6] == c[..6];
    if |chunk| == 1 {
      ChopStop(c[6..], 6);
      assert (c + z)[6..12] == c[6..] + Zeros(4);
    } else {
      ChopStep(c[6..], 6);
      assert (c + z)[6..12] == c[6..][..6];
      if |chunk| == 2 {
        ChopStop(c[6..][6..], 6);
        assert (c + z)[12..18] == c[6..][6..] + Zeros(2);
      } else {
        ChopStep(c[6..][6..], 6);
        ChopStep(c[6..][6..][6..], 6);
        ChopStop(c[6..][6..][6..][6..], 6);
        assert (c + z)[12..18] == c[6..][6..][..6];
        assert (c + z)[18..] == c[6..][6..][6..][..6];
      }
    }
  }

  method I2pBase64Encode(data: seq<byte>) returns (out: string)
    ensures out == Base64(data)
  {
    hide BitsOf, FromBits, ToBits, Chop, Rest, Group;
    AlphabetsAreSound();
    Pow2Values();
    out := [];
    NothingEncoded();
    var i := 0;
    while i < |data|
      invariant i <= |data| && (i % 3 == 0 || i == |data|)
      invariant out == Base64(data[..i])
    {
      var m := Min(3, |data| - i);
      var chunk := data[i..i + m];
      assert data[..i] + chunk == data[..i + m];
      NextChunk(data[..i], chunk);
      var symbols := EncodeChunk(chunk);
      out := out + symbols;
      i := i + m;
    }
    assert data[..i] == data;
  }

  method EncodeChunk(chunk: seq<byte>) returns (out: string)
    requires 1 <= |chunk| <= 3
    ensures |I2P_B64_ALPHABET| == 64 && forall v :: v in SymbolsOf(chunk, 6) ==> v < 64
    ensures out == Spell(I2P_B64_ALPHABET, SymbolsOf(chunk, 6)) + Padding(|chunk|)
  {
    hide BitsOf, FromBits, ToBits, Chop, Rest, Group, SymbolsOf, Packed, Pow2, I2P_B64_ALPHABET;
    AlphabetsAreSound();
    ChunkSymbols(chunk);
    var n := Packed(chunk);
    out := [I2P_B64_ALPHABET[(n / Pow2(18)) % 64], I2P_B64_ALPHABET[(n / Pow2(12)) % 64]];
    out := out + (if |chunk| > 1 then [I2P_B64_ALPHABET[(n / Pow2(6)) % 64]] else "=");
    out := out + (if |chunk| > 2 then [I2P_B64_ALPHABET[n % 64]] else "=");
  }

  lemma NothingEncoded()
    ensures Base64([]) == []
  {
    EmptyBits();
  }

  /** Whole chunks leave no bits over, so the next one starts afresh. */
  lemma NextChunk(front: seq<byte>, chunk: seq<byte>)
    requires |front| % 3 == 0 && 1 <= |chunk| <= 3
    ensures |I2P_B64_ALPHABET| == 64 && forall v :: v in SymbolsOf(chunk, 6) ==> v < 64
    ensures Base64(front + chunk) == Base64(front) + Spell(I2P_B64_ALPHABET, SymbolsOf(chunk, 6)) + Padding(|chunk|)
  {
    hide BitsOf, Chop, Rest, Group;
    AlphabetsAreSound();
    Pow2Values();
    SymbolsFit(front, 6);
    SymbolsFit(chunk, 6);
    SymbolsFit(front + chunk, 6);
    BitsOfLength(front, 8);
    RestLength(BitsOf(front, 8), 6);
    BitsOfJoin(front, chunk, 8);
    GroupJoin(BitsOf(front, 8), BitsOf(chunk, 8), 6);
    assert Padding(|front|) == [] && Padding(|front + chunk|) == Padding(|chunk|);
  }
}
