// Facts about bencode: decoding undoes encoding, parsing is local, every value
// that can be decoded can be encoded again, and spans mean what they claim.
module BencodeTheory {
  import opened Prelude
  import opened BencodeSpec

  // ----- keys in order

  lemma {:induction false} KeyTrichotomy(a: bytes, b: bytes)
    ensures a == b || KeyLess(a, b) || KeyLess(b, a)
    ensures !KeyLess(a, a)
    ensures KeyLess(a, b) ==> !KeyLess(b, a)
  {
    if a != [] {
      KeyTrichotomy(a[1..], a[1..]);
      if b != [] && a[0] == b[0] {
        KeyTrichotomy(a[1..], b[1..]);
        if a[1..] == b[1..] { assert a == [a[0]] + a[1..] == b; }
      }
    }
  }

  lemma {:induction false} KeyTransitive(a: bytes, b: bytes, c: bytes)
    requires KeyLess(a, b) && KeyLess(b, c)
    ensures KeyLess(a, c)
  {
    if a != [] && a[0] == b[0] && b[0] == c[0] {
      KeyTransitive(a[1..], b[1..], c[1..]);
    }
  }

  lemma {:induction false} InsertMembers(es: seq<Entry>, e: Entry)
    ensures |Insert(es, e)| == |es| + 1
    ensures forall x :: x in Insert(es, e) <==> x == e || x in es
  {
    if es != [] && !KeyLess(es[|es| - 1].key, e.key) {
      InsertMembers(es[..|es| - 1], e);
      assert es == es[..|es| - 1] + [es[|es| - 1]];
    }
  }

  lemma {:induction false} InsertSorted(es: seq<Entry>, e: Entry)
    requires SortedKeys(es) && !HasKey(es, e.key)
    ensures SortedKeys(Insert(es, e))
  {
    if es == [] {
    } else if KeyLess(es[|es| - 1].key, e.key) {
      forall i, j | 0 <= i < j < |es| + 1 ensures KeyLess((es + [e])[i].key, (es + [e])[j].key) {
        if j == |es| && i < |es| - 1 { KeyTransitive(es[i].key, es[|es| - 1].key, e.key); }
      }
    } else {
      var init, last := es[..|es| - 1], es[|es| - 1];
      assert !HasKey(init, e.key) by { assert forall k :: 0 <= k < |init| ==> init[k].key == es[k].key; }
      assert SortedKeys(init) by { assert forall i, j :: 0 <= i < j < |init| ==> init[i] == es[i] && init[j] == es[j]; }
      InsertSorted(init, e);
      InsertMembers(init, e);
      KeyTrichotomy(last.key, e.key);
      var r := Insert(init, e);
      forall i | 0 <= i < |r| ensures KeyLess(r[i].key, last.key) {
        assert r[i] in r;
        if r[i] != e { InitBelow(es, r[i]); }
      }
    }
  }

  lemma InitBelow(es: seq<Entry>, x: Entry)
    requires es != [] && SortedKeys(es) && x in es[..|es| - 1]
    ensures KeyLess(x.key, es[|es| - 1].key)
  {
    var k :| 0 <= k < |es| - 1 && es[k] == x;
  }

  lemma HasKeyAfterInsert(es: seq<Entry>, e: Entry, key: bytes)
    ensures HasKey(Insert(es, e), key) <==> e.key == key || HasKey(es, key)
  {
    InsertMembers(es, e);
    var r := Insert(es, e);
    if HasKey(r, key) {
      var k :| 0 <= k < |r| && r[k].key == key;
      assert r[k] in r;
    }
    if e.key == key { assert e in r; }
    if HasKey(es, key) {
      var k :| 0 <= k < |es| && es[k].key == key;
      assert es[k] in r;
    }
  }

  // ----- decimal digits

  lemma {:induction false} DigitsFacts(n: nat)
    ensures Digits(n) != [] && forall k :: 0 <= k < |Digits(n)| ==> IsDigit(Digits(n)[k])
    ensures Digits(n)[0] == CH_0 <==> n == 0
    ensures n == 0 ==> |Digits(n)| == 1
  {
    if n >= 10 { DigitsFacts(n / 10); }
  }

  lemma DigitsExtend(n: nat, d: byte)
    requires n > 0 && IsDigit(d)
    ensures Digits(n * 10 + (d - CH_0)) == Digits(n) + [d]
  {}

  /** Reading the digits of a length yields the length. */
  lemma {:induction false} LengthOfDigits(n: nat, t: bytes)
    requires n <= USIZE_MAX
    ensures LengthDigits(Digits(n) + t, 0, 0) == LengthDigits(Digits(n) + t, |Digits(n)|, n)
  {
    DigitsFacts(n);
    var s := Digits(n) + t;
    if n >= 10 {
      var last := [CH_0 + n % 10];
      LengthOfDigits(n / 10, last + t);
      assert s == Digits(n / 10) + (last + t);
      assert s[|Digits(n / 10)|] == last[0];
    } else {
      assert s[0] == CH_0 + n;
    }
  }

  /** Reading the digits of a magnitude yields its negation. */
  lemma {:induction false} IntOfDigits(pre: bytes, n: nat, t: bytes)
    requires n <= -I64_MIN
    ensures var s := pre + Digits(n) + t;
      IntDigits(s, |pre|, 0) == IntDigits(s, |pre| + |Digits(n)|, 0 - n)
  {
    DigitsFacts(n);
    var s := pre + Digits(n) + t;
    if n >= 10 {
      var last := [CH_0 + n % 10];
      IntOfDigits(pre, n / 10, last + t);
      assert s == pre + Digits(n / 10) + (last + t);
      assert s[|pre| + |Digits(n / 10)|] == last[0];
    } else {
      assert s[|pre|] == CH_0 + n;
    }
  }

  lemma ParseIntOfEncoded(i: int, t: bytes)
    requires I64_MIN <= i <= I64_MAX
    ensures ParseInt(EncodeInt(i) + t) == Got(i, |EncodeInt(i)|)
  {
    hide Digits, IntDigits;
    var s := EncodeInt(i) + t;
    var pre := if i < 0 then [CH_I, CH_MINUS] else [CH_I];
    var n := if i < 0 then -i else i;
    DigitsFacts(n);
    IntOfDigits(pre, n, [CH_E] + t);
    assert s == pre + Digits(n) + ([CH_E] + t);
    assert s[|pre|] == Digits(n)[0] && s[|pre| + |Digits(n)|] == CH_E;
    IntTurn(s, |pre| + |Digits(n)|, 0 - n);
  }

  lemma ParseBytesOfEncoded(b: bytes, t: bytes)
    requires |b| <= USIZE_MAX
    ensures ParseBytes(EncodeBytes(b) + t) == Got(b, |EncodeBytes(b)|)
  {
    var s, n := EncodeBytes(b) + t, |Digits(|b|)|;
    DigitsFacts(|b|);
    LengthOfDigits(|b|, [CH_COLON] + b + t);
    assert s == Digits(|b|) + ([CH_COLON] + b + t);
    assert s[n] == CH_COLON && s[0] == Digits(|b|)[0];
    assert s[n + 1..n + 1 + |b|] == b;
  }

  // ----- round trip

  lemma {:induction false} ItemsShorter(items: seq<Value>, k: nat)
    requires k < |items|
    ensures |Encode(items[k])| <= |EncodeItems(items)|
  {
    if k > 0 { ItemsShorter(items[1..], k - 1); }
  }

  /** What the encoder writes starts neither with `e` nor with anything but the
      mark of its kind. */
  lemma FirstByte(v: Value)
    ensures Encode(v) != []
    ensures match v
      case Bytes(_) => IsDigit(Encode(v)[0])
      case Int(_) => Encode(v)[0] == CH_I
      case List(_) => Encode(v)[0] == CH_L
      case Dict(_) => Encode(v)[0] == CH_D
  {
    if v.Bytes? { DigitsFacts(|v.b|); }
  }

  /** Parsing the encoding of a value gives the value back and stops at its
      end, whatever follows. */
  lemma {:induction false} ParseOfEncoded(v: Value, depth: nat, t: bytes)
    requires WellFormed(v) && Fits(v, MAX_DEPTH - depth) && |Encode(v)| <= USIZE_MAX
    ensures ParseValue(Encode(v) + t, depth) == Got(v, |Encode(v)|)
    decreases v, 0
  {
    hide ParseItems, ParseEntries, ParseInt, ParseBytes, EncodeInt, SortedKeys;
    var s := Encode(v) + t;
    FirstByte(v);
    assert s[0] == Encode(v)[0];
    match v {
      case Bytes(b) => ParseBytesOfEncoded(b, t);
      case Int(i) => ParseIntOfEncoded(i, t);
      case List(items) =>
        ParseItemsOfEncoded(items, depth, [], t);
        assert s[1..] == EncodeItems(items) + [CH_E] + t;
        assert [] + items == items;
      case Dict(es) =>
        assert [] + es == es;
        ParseEntriesOfEncoded(es, depth, [], t);
        assert s[1..] == EncodeEntries(es) + [CH_E] + t;
    }
  }

  lemma {:induction false} ParseItemsOfEncoded(items: seq<Value>, depth: nat, done: seq<Value>, t: bytes)
    requires forall x :: x in items ==> WellFormed(x) && Fits(x, MAX_DEPTH - depth - 1)
    requires |EncodeItems(items)| <= USIZE_MAX
    ensures ParseItems(EncodeItems(items) + [CH_E] + t, depth, done) == Got(done + items, |EncodeItems(items)| + 1)
    decreases items, 1
  {
    hide WellFormed, Fits, ParseValue, Encode, ParseItems;
    var s := EncodeItems(items) + [CH_E] + t;
    ItemsTurn(s, depth, done);
    if items == [] {
      assert s[0] == CH_E && done + items == done;
    } else {
      var first, rest := items[0], items[1..];
      var t' := EncodeItems(rest) + [CH_E] + t;
      assert s == Encode(first) + t';
      FirstByte(first);
      assert s[0] == Encode(first)[0];
      assert first in items && forall x :: x in rest ==> x in items;
      assert MAX_DEPTH - depth - 1 == MAX_DEPTH - (depth + 1);
      ParseOfEncoded(first, depth + 1, t');
      assert s[|Encode(first)|..] == t';
      ParseItemsOfEncoded(rest, depth, done + [first], t);
      assert done + [first] + rest == done + items;
    }
  }

  lemma {:induction false} ParseEntriesOfEncoded(es: seq<Entry>, depth: nat, done: seq<Entry>, t: bytes)
    requires forall e :: e in es ==> WellFormed(e.value) && Fits(e.value, MAX_DEPTH - depth - 1)
    requires |EncodeEntries(es)| <= USIZE_MAX && SortedKeys(done + es)
    ensures ParseEntries(EncodeEntries(es) + [CH_E] + t, depth, done) == Got(done + es, |EncodeEntries(es)| + 1)
    decreases es, 1
  {
    hide SortedKeys, WellFormed, Fits, HasKey, ParseEntry, ParseValue, Encode, EncodeEntry, Insert;
    var s := EncodeEntries(es) + [CH_E] + t;
    if es == [] {
      assert s[0] == CH_E && done + es == done;
    } else {
      var first, rest := es[0], es[1..];
      var t' := EncodeEntries(rest) + [CH_E] + t;
      assert s == EncodeEntry(first) + t';
      assert first in es && forall e :: e in rest ==> e in es;
      assert MAX_DEPTH - depth - 1 == MAX_DEPTH - (depth + 1);
      EntryLength(first);
      ParseOfEncoded(first.value, depth + 1, t');
      ParseEntryOfEncoded(first, depth, t');
      assert s[|EncodeEntry(first)|..] == t';
      assert done + [first] + rest == done + es == done + ([first] + rest);
      InsertAtEnd(done, first, rest);
      ParseEntriesOfEncoded(rest, depth, done + [first], t);
    }
  }

  lemma EntryLength(e: Entry)
    ensures |Encode(e.value)| <= |EncodeEntry(e)|
    ensures EncodeEntry(e) != []
  {}

  lemma ParseEntryOfEncoded(e: Entry, depth: nat, t: bytes)
    requires |EncodeEntry(e)| <= USIZE_MAX
    requires ParseValue(Encode(e.value) + t, depth + 1) == Got(e.value, |Encode(e.value)|)
    ensures ParseEntry(EncodeEntry(e) + t, depth) == Got(e, |EncodeEntry(e)|)
    ensures IsDigit((EncodeEntry(e) + t)[0])
  {
    var s := EncodeEntry(e) + t;
    assert s == EncodeBytes(e.key) + (Encode(e.value) + t);
    ParseBytesOfEncoded(e.key, Encode(e.value) + t);
    assert s[|EncodeBytes(e.key)|..] == Encode(e.value) + t;
    DigitsFacts(|e.key|);
  }

  /** A key beyond all the others goes to the end. */
  lemma InsertAtEnd(done: seq<Entry>, e: Entry, rest: seq<Entry>)
    requires SortedKeys(done + ([e] + rest))
    ensures Insert(done, e) == done + [e] && !HasKey(done, e.key)
  {
    var all := done + ([e] + rest);
    assert all[|done|] == e;
    forall k | 0 <= k < |done| ensures done[k].key != e.key {
      assert KeyLess(all[k].key, all[|done|].key);
      KeyTrichotomy(e.key, e.key);
    }
    if done != [] { assert KeyLess(all[|done| - 1].key, all[|done|].key); }
  }

  /** Decoding undoes encoding, for every value an input could hold. */
  lemma DecodeOfEncode(v: Value)
    requires WellFormed(v) && Fits(v, MAX_DEPTH) && |Encode(v)| <= USIZE_MAX
    ensures Decode(Encode(v)) == Got(v, |Encode(v)|)
  {
    ParseOfEncoded(v, 0, []);
    assert Encode(v) + [] == Encode(v);
  }

  // ----- what is accepted was written canonically, but for key order

  lemma {:induction false} LengthDigitsExact(s: bytes, k: nat, len: nat)
    requires 0 < k <= |s| && len > 0 && s[..k] == Digits(len)
    requires LengthDigits(s, k, len).Got?
    ensures var r := LengthDigits(s, k, len); s[..r.used] == Digits(r.value)
    decreases |s| - k
  {
    hide Digits, LengthDigits;
    LengthTurn(s, k, len);
    if s[k] != CH_COLON {
      DigitsExtend(len, s[k]);
      assert s[..k + 1] == s[..k] + [s[k]];
      LengthDigitsExact(s, k + 1, len * 10 + (s[k] - CH_0));
    }
  }

  lemma {:induction false} IntDigitsExact(s: bytes, from: nat, k: nat, n: int)
    requires from < k <= |s| && I64_MIN <= n < 0 && s[from..k] == Digits(-n)
    requires IntDigits(s, k, n).Got?
    ensures var r := IntDigits(s, k, n); r.value < 0 && s[from..r.used] == Digits(-r.value)
    decreases |s| - k
  {
    hide Digits, IntDigits;
    IntTurn(s, k, n);
    if s[k] != CH_E {
      DigitsExtend(-n, s[k]);
      assert s[from..k + 1] == s[from..k] + [s[k]];
      IntDigitsExact(s, from, k + 1, n * 10 - (s[k] - CH_0));
    }
  }

  /** A byte string has one spelling. */
  lemma BytesExact(s: bytes)
    requires ParseBytes(s).Got?
    ensures s[..ParseBytes(s).used] == EncodeBytes(ParseBytes(s).value)
    ensures IsDigit(s[0])
  {
    var r := LengthDigits(s, 0, 0);
    assert IsDigit(s[0]) && s[..1] == [s[0]];
    if s[0] == CH_0 {
      assert r == LengthDigits(s, 1, 0) && r.used == 1;
      assert s[..1] == Digits(0);
    } else {
      assert s[..1] == Digits(s[0] - CH_0);
      LengthDigitsExact(s, 1, s[0] - CH_0);
    }
    var p := ParseBytes(s);
    assert s[..p.used] == s[..r.used] + [CH_COLON] + p.value;
  }

  lemma OneDigit(c: byte)
    requires IsDigit(c)
    ensures Digits(c - CH_0) == [c]
  {}

  /** An integer has one spelling. */
  lemma IntExact(s: bytes)
    requires s != [] && s[0] == CH_I && ParseInt(s).Got?
    ensures s[..ParseInt(s).used] == EncodeInt(ParseInt(s).value)
  {
    hide Digits;
    var p := ParseInt(s);
    var from := if s[1] == CH_MINUS then 2 else 1;
    var r := IntDigits(s, from, 0);
    assert IsDigit(s[from]) && s[from..from + 1] == [s[from]];
    OneDigit(s[from]);
    if s[from] == CH_0 {
      assert r == IntDigits(s, from + 1, 0) && r.used == from + 1;
    } else {
      IntDigitsExact(s, from, from + 1, CH_0 - s[from]);
    }
    assert s[from..r.used] == Digits(if p.value < 0 then -p.value else p.value);
    assert s[..p.used] == s[..from] + s[from..r.used] + [CH_E];
    assert s[..from] == if from == 2 then [CH_I] + [CH_MINUS] else [CH_I];
  }

  lemma {:induction false} EncodeItemsPush(items: seq<Value>, v: Value)
    ensures EncodeItems(items + [v]) == EncodeItems(items) + Encode(v)
  {
    hide Encode;
    if items == [] {
      assert [v][1..] == [] && EncodeItems([v]) == Encode(v) + [];
    } else {
      EncodeItemsPush(items[1..], v);
      assert (items + [v])[1..] == items[1..] + [v];
    }
  }

  lemma {:induction false} EncodeEntriesJoin(a: seq<Entry>, b: seq<Entry>)
    ensures EncodeEntries(a + b) == EncodeEntries(a) + EncodeEntries(b)
  {
    hide EncodeEntry;
    if a == [] {
      assert a + b == b;
    } else {
      var rest := a[1..];
      EncodeEntriesJoin(rest, b);
      assert (a + b)[1..] == rest + b && (a + b)[0] == a[0];
      assert EncodeEntries(a + b) == EncodeEntry(a[0]) + EncodeEntries(rest + b);
    }
  }

  lemma {:induction false} InsertLength(es: seq<Entry>, e: Entry)
    ensures |EncodeEntries(Insert(es, e))| == |EncodeEntries(es)| + |EncodeEntry(e)|
  {
    assert EncodeEntries([e]) == EncodeEntry(e) by { assert [e][1..] == []; assert EncodeEntry(e) + [] == EncodeEntry(e); }
    if es == [] || KeyLess(es[|es| - 1].key, e.key) {
      EncodeEntriesJoin(es, [e]);
    } else {
      var init, last := es[..|es| - 1], es[|es| - 1];
      InsertLength(init, e);
      EncodeEntriesJoin(Insert(init, e), [last]);
      EncodeEntriesJoin(init, [last]);
      assert es == init + [last];
    }
  }

  /** Whatever parses is a well-formed value that nests within the room left,
      and its canonical encoding is exactly as long as what was read. */
  lemma {:induction false} ParsedIsWellFormed(s: bytes, depth: nat)
    requires ParseValue(s, depth).Got?
    ensures var r := ParseValue(s, depth);
      WellFormed(r.value) && Fits(r.value, MAX_DEPTH - depth) && |Encode(r.value)| == r.used
    decreases |s|, 0
  {
    if s[0] == CH_I {
      IntExact(s);
      assert |s[..ParseInt(s).used]| == ParseInt(s).used;
    } else if IsDigit(s[0]) {
      BytesExact(s);
      assert |s[..ParseBytes(s).used]| == ParseBytes(s).used;
    } else if s[0] == CH_L {
      ParsedItemsWellFormed(s[1..], depth, []);
    } else {
      ParsedEntriesWellFormed(s[1..], depth, []);
    }
  }

  lemma {:induction false} ParsedItemsWellFormed(s: bytes, depth: nat, items: seq<Value>)
    requires ParseItems(s, depth, items).Got?
    requires forall x :: x in items ==> WellFormed(x) && Fits(x, MAX_DEPTH - depth - 1)
    ensures var r := ParseItems(s, depth, items);
      && (forall x :: x in r.value ==> WellFormed(x) && Fits(x, MAX_DEPTH - depth - 1))
      && |EncodeItems(r.value)| + 1 == |EncodeItems(items)| + r.used
    decreases |s|, 1
  {
    if s[0] != CH_E {
      ParsedIsWellFormed(s, depth + 1);
      var p := ParseValue(s, depth + 1);
      EncodeItemsPush(items, p.value);
      ParsedItemsWellFormed(s[p.used..], depth, items + [p.value]);
    }
  }

  lemma {:induction false} ParsedEntriesWellFormed(s: bytes, depth: nat, es: seq<Entry>)
    requires ParseEntries(s, depth, es).Got? && SortedKeys(es)
    requires forall e :: e in es ==> WellFormed(e.value) && Fits(e.value, MAX_DEPTH - depth - 1)
    ensures var r := ParseEntries(s, depth, es);
      && SortedKeys(r.value)
      && (forall e :: e in r.value ==> WellFormed(e.value) && Fits(e.value, MAX_DEPTH - depth - 1))
      && |EncodeEntries(r.value)| + 1 == |EncodeEntries(es)| + r.used
    decreases |s|, 2
  {
    if s[0] != CH_E {
      var p := ParseEntry(s, depth);
      ParsedEntryWellFormed(s, depth);
      InsertMembers(es, p.value);
      InsertSorted(es, p.value);
      InsertLength(es, p.value);
      ParsedEntriesWellFormed(s[p.used..], depth, Insert(es, p.value));
    }
  }

  lemma {:induction false} ParsedEntryWellFormed(s: bytes, depth: nat)
    requires ParseEntry(s, depth).Got?
    ensures var r := ParseEntry(s, depth);
      && WellFormed(r.value.value) && Fits(r.value.value, MAX_DEPTH - depth - 1)
      && |EncodeEntry(r.value)| == r.used
    decreases |s|, 1
  {
    BytesExact(s);
    var n := ParseBytes(s).used;
    assert |s[..n]| == n;
    ParsedIsWellFormed(s[n..], depth + 1);
  }

  /** Every accepted input re-encodes to an input of the same length that
      decodes to the same value. */
  lemma ReencodesFaithfully(input: bytes)
    requires Decode(input).Got? && |input| <= USIZE_MAX
    ensures var v := Decode(input).value;
      |Encode(v)| == |input| && Decode(Encode(v)) == Got(v, |input|)
  {
    ParsedIsWellFormed(input, 0);
    DecodeOfEncode(Decode(input).value);
  }

  // ----- the memory bound

  function Nodes(v: Value): nat
    decreases v, 0
  {
    match v
    case Bytes(_) => 1
    case Int(_) => 1
    case List(items) => 1 + NodesOfItems(items)
    case Dict(es) => 1 + NodesOfEntries(es)
  }

  function NodesOfItems(items: seq<Value>): nat
    decreases items, 1
  {
    if items == [] then 0 else Nodes(items[0]) + NodesOfItems(items[1..])
  }

  function NodesOfEntries(es: seq<Entry>): nat
    decreases es, 1
  {
    if es == [] then 0 else Nodes(es[0].value) + NodesOfEntries(es[1..])
  }

  /** Each node costs at least two bytes, two more for each dictionary key. */
  lemma {:induction false} NodesCostTwo(v: Value)
    ensures 2 * Nodes(v) <= |Encode(v)|
    decreases v, 0
  {
    match v {
      case Bytes(b) => DigitsFacts(|b|);
      case Int(i) => DigitsFacts(if i < 0 then -i else i);
      case List(items) => ItemsCostTwo(items);
      case Dict(es) => EntriesCostTwo(es);
    }
  }

  lemma {:induction false} ItemsCostTwo(items: seq<Value>)
    ensures 2 * NodesOfItems(items) <= |EncodeItems(items)|
    decreases items, 1
  {
    if items != [] {
      NodesCostTwo(items[0]);
      ItemsCostTwo(items[1..]);
    }
  }

  lemma {:induction false} EntriesCostTwo(es: seq<Entry>)
    ensures 2 * NodesOfEntries(es) <= |EncodeEntries(es)|
    decreases es, 1
  {
    if es != [] {
      NodesCostTwo(es[0].value);
      EntriesCostTwo(es[1..]);
    }
  }

  /** A decoded tree has at most half as many nodes as the input has bytes. */
  lemma DecodedTreeIsSmall(input: bytes)
    requires Decode(input).Got?
    ensures 2 * Nodes(Decode(input).value) <= |input|
  {
    ParsedIsWellFormed(input, 0);
    NodesCostTwo(Decode(input).value);
  }
}
