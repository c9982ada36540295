// Bencode (BEP 3, "bencoding"): the values, their canonical encoding, and what
// the decoder of crates/clove-core/src/bencode.rs makes of any input.
module BencodeSpec {
  import opened Prelude

  type bytes = seq<byte>

  /** A dictionary lists its entries in key order, as a `BTreeMap` does. */
  datatype Value = Bytes(b: bytes) | Int(i: int) | List(items: seq<Value>) | Dict(entries: seq<Entry>)

  datatype Entry = Entry(key: bytes, value: Value)

  datatype ErrorKind =
    Truncated | TrailingData | BadInt | BadLength | BadKey | TooDeep | BadValueStart | TooManyNodes

  const MAX_DEPTH: nat := 32

  const CH_I: byte := 105
  const CH_L: byte := 108
  const CH_D: byte := 100
  const CH_E: byte := 101
  const CH_COLON: byte := 58
  const CH_MINUS: byte := 45
  const CH_0: byte := 48

  predicate IsDigit(c: byte) { 48 <= c <= 57 }

  /** Parsing from the front of a string: what was read and how much of it was
      used, or what went wrong and how far in. */
  datatype Parsed<+T> = Got(value: T, used: nat) | Fail(offset: nat, kind: ErrorKind)
  {
    /** The same outcome, seen from `n` bytes earlier. */
    function Shift(n: nat): Parsed<T> {
      match this case Got(v, u) => Got(v, u + n) case Fail(o, k) => Fail(o + n, k)
    }
  }

  // ----- keys

  predicate KeyLess(a: bytes, b: bytes) {
    b != [] && (a == [] || a[0] < b[0] || (a[0] == b[0] && KeyLess(a[1..], b[1..])))
  }

  predicate HasKey(es: seq<Entry>, key: bytes) { exists k :: 0 <= k < |es| && es[k].key == key }

  ghost predicate SortedKeys(es: seq<Entry>) {
    forall i, j :: 0 <= i < j < |es| ==> KeyLess(es[i].key, es[j].key)
  }

  /** Insert into a map kept in key order. */
  function Insert(es: seq<Entry>, e: Entry): seq<Entry> {
    if es == [] || KeyLess(es[|es| - 1].key, e.key) then es + [e]
    else Insert(es[..|es| - 1], e) + [es[|es| - 1]]
  }

  // ----- encoding

  function Digits(n: nat): bytes {
    if n < 10 then [CH_0 + n] else Digits(n / 10) + [CH_0 + n % 10]
  }

  function EncodeInt(i: int): bytes {
    [CH_I] + (if i < 0 then [CH_MINUS] + Digits(-i) else Digits(i)) + [CH_E]
  }

  function EncodeBytes(b: bytes): bytes { Digits(|b|) + [CH_COLON] + b }

  function Encode(v: Value): bytes
    decreases v, 0
  {
    match v
    case Bytes(b) => EncodeBytes(b)
    case Int(i) => EncodeInt(i)
    case List(items) => [CH_L] + EncodeItems(items) + [CH_E]
    case Dict(entries) => [CH_D] + EncodeEntries(entries) + [CH_E]
  }

  function EncodeItems(items: seq<Value>): bytes
    decreases items, 1
  {
    if items == [] then [] else Encode(items[0]) + EncodeItems(items[1..])
  }

  function EncodeEntry(e: Entry): bytes
    decreases e, 1
  {
    EncodeBytes(e.key) + Encode(e.value)
  }

  function EncodeEntries(es: seq<Entry>): bytes
    decreases es, 2
  {
    if es == [] then [] else EncodeEntry(es[0]) + EncodeEntries(es[1..])
  }

  // ----- decoding

  /** The digits of an integer, accumulated negatively from position `k`. */
  function IntDigits(s: bytes, k: nat, n: int): (r: Parsed<int>)
    requires k <= |s| && I64_MIN <= n <= 0
    ensures r.Got? ==> k <= r.used < |s| && s[r.used] == CH_E && I64_MIN <= r.value <= n
    decreases |s| - k
  {
    if k == |s| then Fail(k, Truncated)
    else if s[k] == CH_E then Got(n, k)
    else if !IsDigit(s[k]) then Fail(0, BadInt)
    else
      var n' := n * 10 - (s[k] - CH_0);
      if n' < I64_MIN then Fail(0, BadInt) else IntDigits(s, k + 1, n')
  }

  /** `i<digits>e`, given that the `i` is there. */
  function ParseInt(s: bytes): (r: Parsed<int>)
    requires s != [] && s[0] == CH_I
    ensures r.Got? ==> 3 <= r.used <= |s| && I64_MIN <= r.value <= I64_MAX
  {
    if |s| == 1 then Fail(1, Truncated)
    else
      var negative := s[1] == CH_MINUS;
      var from := if negative then 2 else 1;
      var r := IntDigits(s, from, 0);
      if r.Fail? then r
      else if r.used == from || (r.used > from + 1 && s[from] == CH_0) || (negative && r.value == 0) then Fail(0, BadInt)
      else if negative then Got(r.value, r.used + 1)
      else if r.value == I64_MIN then Fail(0, BadInt)
      else Got(-r.value, r.used + 1)
  }

  /** The digits of a length, from position `k` to the colon. */
  function LengthDigits(s: bytes, k: nat, len: nat): (r: Parsed<nat>)
    requires k <= |s|
    ensures r.Got? ==> k <= r.used < |s| && s[r.used] == CH_COLON
    decreases |s| - k
  {
    if k == |s| then Fail(k, Truncated)
    else if s[k] == CH_COLON then Got(len, k)
    else if !IsDigit(s[k]) then Fail(0, BadLength)
    else
      var len' := len * 10 + (s[k] - CH_0);
      if len' > USIZE_MAX then Fail(0, BadLength) else LengthDigits(s, k + 1, len')
  }

  /** `<digits>:<bytes>`. */
  function ParseBytes(s: bytes): (r: Parsed<bytes>)
    ensures r.Got? ==> 2 <= r.used <= |s|
  {
    var r := LengthDigits(s, 0, 0);
    if r.Fail? then Fail(r.offset, r.kind)
    else if r.used == 0 || (r.used > 1 && s[0] == CH_0) then Fail(0, BadLength)
    else if r.used + 1 + r.value > |s| then Fail(r.used + 1, Truncated)
    else Got(s[r.used + 1..r.used + 1 + r.value], r.used + 1 + r.value)
  }

  /** A value `depth` levels down, at the front of `s`. */
  function ParseValue(s: bytes, depth: nat): (r: Parsed<Value>)
    ensures r.Got? ==> 2 <= r.used <= |s|
    decreases |s|, 0
  {
    if depth >= MAX_DEPTH then Fail(0, TooDeep)
    else if s == [] then Fail(0, Truncated)
    else if s[0] == CH_I then
      (match ParseInt(s) case Got(i, n) => Got(Int(i), n) case Fail(o, k) => Fail(o, k))
    else if IsDigit(s[0]) then
      (match ParseBytes(s) case Got(b, n) => Got(Bytes(b), n) case Fail(o, k) => Fail(o, k))
    else if s[0] == CH_L then
      (match ParseItems(s[1..], depth, []) case Got(vs, n) => Got(List(vs), n + 1) case Fail(o, k) => Fail(o + 1, k))
    else if s[0] == CH_D then
      (match ParseEntries(s[1..], depth, []) case Got(es, n) => Got(Dict(es), n + 1) case Fail(o, k) => Fail(o + 1, k))
    else Fail(0, BadValueStart)
  }

  /** The rest of a list, up to and including its `e`. */
  function ParseItems(s: bytes, depth: nat, items: seq<Value>): (r: Parsed<seq<Value>>)
    ensures r.Got? ==> 1 <= r.used <= |s|
    decreases |s|, 1
  {
    if s == [] then Fail(0, Truncated)
    else if s[0] == CH_E then Got(items, 1)
    else
      match ParseValue(s, depth + 1)
      case Fail(o, k) => Fail(o, k)
      case Got(v, n) => ParseItems(s[n..], depth, items + [v]).Shift(n)
  }

  /** One `key value` pair. */
  function ParseEntry(s: bytes, depth: nat): (r: Parsed<Entry>)
    ensures r.Got? ==> 4 <= r.used <= |s|
    decreases |s|, 1
  {
    match ParseBytes(s)
    case Fail(o, k) => Fail(o, k)
    case Got(key, n) =>
      match ParseValue(s[n..], depth + 1)
      case Fail(o, k) => Fail(o + n, k)
      case Got(v, u) => Got(Entry(key, v), n + u)
  }

  /** The rest of a dictionary, up to and including its `e`. */
  function ParseEntries(s: bytes, depth: nat, entries: seq<Entry>): (r: Parsed<seq<Entry>>)
    ensures r.Got? ==> 1 <= r.used <= |s|
    decreases |s|, 2
  {
    if s == [] then Fail(0, Truncated)
    else if s[0] == CH_E then Got(entries, 1)
    else if !IsDigit(s[0]) then Fail(0, BadKey)
    else
      match ParseEntry(s, depth)
      case Fail(o, k) => Fail(o, k)
      case Got(e, n) =>
        if HasKey(entries, e.key) then Fail(0, BadKey)
        else ParseEntries(s[n..], depth, Insert(entries, e)).Shift(n)
  }

  /** Where the value stored under `want` lies in the rest of a dictionary that
      begins `at` bytes into the input. */
  function SpanIn(s: bytes, at: nat, depth: nat, want: bytes, found: Option<(nat, nat)>): Option<(nat, nat)>
    decreases |s|
  {
    if s == [] || s[0] == CH_E || !IsDigit(s[0]) then found
    else
      match ParseEntry(s, depth)
      case Fail(_, _) => found
      case Got(e, n) =>
        SpanIn(s[n..], at + n, depth, want,
          if e.key == want then Some((at + ParseBytes(s).used, at + n)) else found)
  }

  /** Where the top-level dictionary of `s`, if it is one, stores `want`. */
  function SpanOf(s: bytes, want: bytes): Option<(nat, nat)> {
    if s != [] && s[0] == CH_D then SpanIn(s[1..], 1, 0, want, None) else None
  }

  function DecodePrefix(input: bytes): Parsed<Value> { ParseValue(input, 0) }

  /** One complete value; leftover bytes are an error where they begin. */
  function Decode(input: bytes): Parsed<Value> {
    match ParseValue(input, 0)
    case Fail(o, k) => Fail(o, k)
    case Got(v, n) => if n == |input| then Got(v, n) else Fail(n, TrailingData)
  }

  // ----- what can be encoded

  /** Integers are `i64`, keys are in strict order, all the way down. */
  ghost predicate WellFormed(v: Value) {
    match v
    case Bytes(_) => true
    case Int(i) => I64_MIN <= i <= I64_MAX
    case List(items) => forall x :: x in items ==> WellFormed(x)
    case Dict(es) => SortedKeys(es) && forall e :: e in es ==> WellFormed(e.value)
  }

  /** The value nests no deeper than `room` levels. */
  ghost predicate Fits(v: Value, room: int)
    decreases v
  {
    room > 0 &&
    match v
    case Bytes(_) => true
    case Int(_) => true
    case List(items) => forall x :: x in items ==> Fits(x, room - 1)
    case Dict(es) => forall e :: e in es ==> Fits(e.value, room - 1)
  }

  // ----- one turn of each loop

  /** One turn of the loop over a list. */
  lemma ItemsTurn(s: bytes, depth: nat, items: seq<Value>)
    ensures s == [] ==> ParseItems(s, depth, items) == Fail(0, Truncated)
    ensures s != [] && s[0] == CH_E ==> ParseItems(s, depth, items) == Got(items, 1)
    ensures s != [] && s[0] != CH_E ==>
      var p := ParseValue(s, depth + 1);
      ParseItems(s, depth, items) ==
        if p.Fail? then Fail(p.offset, p.kind) else ParseItems(s[p.used..], depth, items + [p.value]).Shift(p.used)
  {}

  /** One turn of the loop over a dictionary. */
  lemma EntriesTurn(s: bytes, depth: nat, es: seq<Entry>)
    ensures s == [] ==> ParseEntries(s, depth, es) == Fail(0, Truncated)
    ensures s != [] && s[0] == CH_E ==> ParseEntries(s, depth, es) == Got(es, 1)
    ensures s != [] && s[0] != CH_E && !IsDigit(s[0]) ==> ParseEntries(s, depth, es) == Fail(0, BadKey)
    ensures s != [] && IsDigit(s[0]) ==>
      var p := ParseEntry(s, depth);
      ParseEntries(s, depth, es) ==
        if p.Fail? then Fail(p.offset, p.kind)
        else if HasKey(es, p.value.key) then Fail(0, BadKey)
        else ParseEntries(s[p.used..], depth, Insert(es, p.value)).Shift(p.used)
  {}

  /** What one turn of that loop does to the span. */
  lemma SpanTurn(s: bytes, at: nat, want: bytes, found: Option<(nat, nat)>)
    ensures s == [] || s[0] == CH_E ==> SpanIn(s, at, 0, want, found) == found
    ensures s != [] && IsDigit(s[0]) && ParseEntry(s, 0).Got? ==>
      var p := ParseEntry(s, 0);
      SpanIn(s, at, 0, want, found) ==
        SpanIn(s[p.used..], at + p.used, 0, want, if p.value.key == want then Some((at + ParseBytes(s).used, at + p.used)) else found)
  {}

  /** One turn of the loop over an integer's digits. */
  lemma IntTurn(s: bytes, k: nat, n: int)
    requires k <= |s| && I64_MIN <= n <= 0
    ensures k == |s| ==> IntDigits(s, k, n) == Fail(k, Truncated)
    ensures k < |s| && s[k] == CH_E ==> IntDigits(s, k, n) == Got(n, k)
    ensures k < |s| && s[k] != CH_E && (!IsDigit(s[k]) || n * 10 - (s[k] - CH_0) < I64_MIN) ==>
      IntDigits(s, k, n) == Fail(0, BadInt)
    ensures k < |s| && IsDigit(s[k]) && n * 10 - (s[k] - CH_0) >= I64_MIN ==>
      IntDigits(s, k, n) == IntDigits(s, k + 1, n * 10 - (s[k] - CH_0))
  {}

  /** One turn of the loop over a length's digits. */
  lemma LengthTurn(s: bytes, k: nat, len: nat)
    requires k <= |s|
    ensures k == |s| ==> LengthDigits(s, k, len) == Fail(k, Truncated)
    ensures k < |s| && s[k] == CH_COLON ==> LengthDigits(s, k, len) == Got(len, k)
    ensures k < |s| && s[k] != CH_COLON && (!IsDigit(s[k]) || len * 10 + (s[k] - CH_0) > USIZE_MAX) ==>
      LengthDigits(s, k, len) == Fail(0, BadLength)
    ensures k < |s| && IsDigit(s[k]) && len * 10 + (s[k] - CH_0) <= USIZE_MAX ==>
      LengthDigits(s, k, len) == LengthDigits(s, k + 1, len * 10 + (s[k] - CH_0))
  {}
}
