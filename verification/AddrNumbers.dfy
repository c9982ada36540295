// What the text forms of crates/i2pnet/src/addr.rs say, read as numbers: the
// symbols are the digits, most significant first, of the bytes taken as one
// number, brought up to a whole symbol with zero bits.
module AddrNumbers {
  import opened Prelude
  import opened Wire
  import opened BitStrings
  import opened Addr

  /** The number with these digits, most significant first. */
  function Number(digits: seq<nat>, base: nat): nat {
    if digits == [] then 0 else Number(digits[..|digits| - 1], base) * base + digits[|digits| - 1]
  }

  /** The letters, then 2 to 7. */
  function Digit32(c: char): Option<nat> {
    if 'a' <= c <= 'z' then Some(c as int - 'a' as int)
    else if '2' <= c <= '7' then Some(c as int - '2' as int + 26)
    else None
  }

  /** Capitals, small letters, decimal digits, hyphen and tilde. */
  function Digit64(c: char): Option<nat> {
    if 'A' <= c <= 'Z' then Some(c as int - 'A' as int)
    else if 'a' <= c <= 'z' then Some(c as int - 'a' as int + 26)
    else if '0' <= c <= '9' then Some(c as int - '0' as int + 52)
    else if c == '-' then Some(62)
    else if c == '~' then Some(63)
    else None
  }

  /** The symbols are these digits and, with `w` bits each, carry the bytes. */
  ghost predicate Carries(s: string, digit: char -> Option<nat>, w: nat, data: seq<byte>, vals: seq<nat>) {
    && |vals| == |s| && (forall k :: 0 <= k < |s| ==> digit(s[k]) == Some(vals[k]))
    && 8 * |data| <= w * |s| < 8 * |data| + w
    && Number(vals, Pow2(w)) == Number(data, 256) * Pow2(w * |s| - 8 * |data|)
  }

  // ----- bits as numbers

  lemma {:induction false} BitsAreDigits(xs: seq<nat>, w: nat)
    requires forall x :: x in xs ==> x < Pow2(w)
    ensures FromBits(BitsOf(xs, w)) == Number(xs, Pow2(w))
  {
    if xs != [] {
      var init, last := xs[..|xs| - 1], xs[|xs| - 1];
      assert last in xs && forall x :: x in init ==> x in xs;
      BitsAreDigits(init, w);
      FromBitsJoin(BitsOf(init, w), ToBits(last, w));
      FromToBits(last, w);
    }
  }

  lemma {:induction false} ZerosAreNothing(n: nat)
    ensures FromBits(Zeros(n)) == 0
  {
    if n > 0 {
      ZerosAreNothing(n - 1);
      assert Zeros(n)[..n - 1] == Zeros(n - 1);
    }
  }

  lemma SymbolsCarry(data: seq<byte>, w: nat)
    requires w == 5 || w == 6
    ensures var vals := SymbolsOf(data, w);
      && 8 * |data| <= w * |vals| < 8 * |data| + w
      && Number(vals, Pow2(w)) == Number(data, 256) * Pow2(w * |vals| - 8 * |data|)
  {
    hide BitsOf, Group, Rest, FromBits, Number;
    var b, vals := BitsOf(data, 8), SymbolsOf(data, w);
    var pad := if Rest(b, w) == [] then 0 else w - |Rest(b, w)|;
    BitsOfGroup(b, w);
    BitsOfLength(data, 8);
    BitsOfLength(vals, w);
    assert |BitsOf(vals, w)| == |b| + pad;
    Pow2Values();
    BitsAreDigits(data, 8);
    BitsAreDigits(vals, w);
    FromBitsJoin(b, Zeros(pad));
    ZerosAreNothing(pad);
  }

  // ----- letters

  lemma LabelLetters()
    ensures |B32_ALPHABET| == 32
    ensures forall v :: 0 <= v < 32 ==> Digit32(B32_ALPHABET[v]) == Some(v)
  {
    assert forall v :: 0 <= v < 32 ==> B32_ALPHABET[v] as int == if v < 26 then 'a' as int + v else '2' as int + v - 26;
    hide B32_ALPHABET;
  }

  lemma CapitalLetters()
    ensures |UPPER| == 26 && forall v :: 0 <= v < 26 ==> UPPER[v] as int == 'A' as int + v
  {}

  lemma SmallLetters()
    ensures |LOWER| == 26 && forall v :: 0 <= v < 26 ==> LOWER[v] as int == 'a' as int + v
  {}

  lemma DigitsAndMarks()
    ensures |DIGITS_AND_MARKS| == 12 && DIGITS_AND_MARKS[10] == '-' && DIGITS_AND_MARKS[11] == '~'
    ensures forall v :: 0 <= v < 10 ==> DIGITS_AND_MARKS[v] as int == '0' as int + v
  {}

  lemma DestinationLetters()
    ensures |I2P_B64_ALPHABET| == 64
    ensures forall v :: 0 <= v < 64 ==> Digit64(I2P_B64_ALPHABET[v]) == Some(v)
  {
    CapitalLetters();
    SmallLetters();
    DigitsAndMarks();
    hide UPPER, LOWER, DIGITS_AND_MARKS;
    forall v | 0 <= v < 64 ensures Digit64(I2P_B64_ALPHABET[v]) == Some(v) {
      assert I2P_B64_ALPHABET[v] ==
        if v < 26 then UPPER[v] else if v < 52 then LOWER[v - 26] else DIGITS_AND_MARKS[v - 52];
    }
  }

  // ----- the text forms

  /** A base32 name is the bytes as one number in the digits a to z, 2 to 7. */
  lemma Base32IsTheNumber(data: seq<byte>)
    ensures exists vals :: Carries(Base32(data), Digit32, 5, data, vals)
  {
    hide SymbolsOf, B32_ALPHABET, Number, Digit32;
    Pow2Values();
    SymbolsFit(data, 5);
    SymbolsCarry(data, 5);
    LabelLetters();
    var s, vals := Base32(data), SymbolsOf(data, 5);
    forall k | 0 <= k < |s| ensures Digit32(s[k]) == Some(vals[k]) { assert vals[k] in vals; }
    assert Carries(s, Digit32, 5, data, vals);
  }

  /** A base64 destination is the bytes as one number in the digits A to Z, a to
      z, 0 to 9, hyphen and tilde, padded to a multiple of four symbols. */
  lemma Base64IsTheNumber(data: seq<byte>)
    ensures exists body, vals :: Base64(data) == body + Padding(|data|) && Carries(body, Digit64, 6, data, vals)
    ensures |Base64(data)| % 4 == 0
  {
    hide SymbolsOf, I2P_B64_ALPHABET, Number, Digit64;
    Pow2Values();
    SymbolsFit(data, 6);
    SymbolsCarry(data, 6);
    DestinationLetters();
    AlphabetsAreSound();
    var vals := SymbolsOf(data, 6);
    var body := Spell(I2P_B64_ALPHABET, vals);
    forall k | 0 <= k < |body| ensures Digit64(body[k]) == Some(vals[k]) { assert vals[k] in vals; }
    assert Base64(data) == body + Padding(|data|);
    assert Carries(body, Digit64, 6, data, vals);
  }
}
