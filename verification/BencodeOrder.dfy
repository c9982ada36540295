// What order the keys of a dictionary are kept and written in, byte by byte,
// and which accepted inputs are written exactly as the encoder would
// (crates/clove-core/src/bencode.rs).
module BencodeOrder {
  import opened Prelude
  import opened BencodeSpec
  import opened BencodeTheory

  // ----- the order

  /** Byte order: one key is a proper prefix of the other, or has the smaller
      byte where they first differ. */
  ghost predicate ByteBefore(a: bytes, b: bytes) {
    || (|a| < |b| && a == b[..|a|])
    || exists i :: 0 <= i < |a| && i < |b| && a[..i] == b[..i] && a[i] < b[i]
  }

  /** The order keys are kept in is byte order. */
  lemma {:induction false} KeysCompareByBytes(a: bytes, b: bytes)
    ensures KeyLess(a, b) <==> ByteBefore(a, b)
  {
    if a != [] && b != [] {
      if a[0] == b[0] {
        KeysCompareByBytes(a[1..], b[1..]);
        SameFirstByte(a, b);
      } else {
        assert a[0] < b[0] ==> a[..0] == b[..0];
        DifferentFirstByte(a, b);
      }
    }
  }

  lemma SameFirstByte(a: bytes, b: bytes)
    requires a != [] && b != [] && a[0] == b[0]
    ensures ByteBefore(a, b) <==> ByteBefore(a[1..], b[1..])
  {
    var a', b' := a[1..], b[1..];
    assert a == [a[0]] + a' && b == [b[0]] + b';
    if |a| < |b| { assert b[..|a|] == [b[0]] + b'[..|a'|]; }
    if i :| 0 <= i < |a| && i < |b| && a[..i] == b[..i] && a[i] < b[i] {
      assert a[..i][1..] == a'[..i - 1] && b[..i][1..] == b'[..i - 1];
    }
    if i :| 0 <= i < |a'| && i < |b'| && a'[..i] == b'[..i] && a'[i] < b'[i] {
      assert a[..i + 1] == [a[0]] + a'[..i] && b[..i + 1] == [b[0]] + b'[..i];
    }
  }

  lemma DifferentFirstByte(a: bytes, b: bytes)
    requires a != [] && b != [] && a[0] != b[0]
    ensures ByteBefore(a, b) ==> a[0] < b[0]
  {
    assert a[..|a|] == a;
    forall i | 0 < i <= |a| && i <= |b| ensures a[..i] != b[..i] {
      assert a[..i][0] == a[0] && b[..i][0] == b[0];
    }
  }

  /** All dictionaries of a value list their keys in strict byte order. */
  ghost predicate InByteOrder(v: Value) {
    match v
    case Bytes(_) => true
    case Int(_) => true
    case List(items) => forall x :: x in items ==> InByteOrder(x)
    case Dict(es) =>
      && (forall i, j :: 0 <= i < j < |es| ==> ByteBefore(es[i].key, es[j].key))
      && forall e :: e in es ==> InByteOrder(e.value)
  }

  lemma {:induction false} WellFormedIsInByteOrder(v: Value)
    requires WellFormed(v)
    ensures InByteOrder(v)
  {
    match v {
      case Bytes(_) =>
      case Int(_) =>
      case List(items) => forall x | x in items ensures InByteOrder(x) { WellFormedIsInByteOrder(x); }
      case Dict(es) =>
        forall i, j | 0 <= i < j < |es| ensures ByteBefore(es[i].key, es[j].key) { KeysCompareByBytes(es[i].key, es[j].key); }
        forall e | e in es ensures InByteOrder(e.value) { WellFormedIsInByteOrder(e.value); }
    }
  }

  /** Whatever order an input lists them in, decoded dictionaries hold their
      keys in strict byte order, at every level. */
  lemma DecodedIsInByteOrder(input: bytes)
    requires Decode(input).Got?
    ensures InByteOrder(Decode(input).value)
  {
    ParsedIsWellFormed(input, 0);
    WellFormedIsInByteOrder(Decode(input).value);
  }

  // ----- inputs that list their keys in order

  /** The value at the front of `s` lists all its dictionaries in byte order. */
  ghost predicate Ascending(s: bytes, depth: nat)
    decreases |s|, 0
  {
    s != [] ==>
      && (s[0] == CH_L ==> AscendingItems(s[1..], depth))
      && (s[0] == CH_D ==> AscendingEntries(s[1..], depth, None))
  }

  ghost predicate AscendingItems(s: bytes, depth: nat)
    decreases |s|, 1
  {
    s != [] && s[0] != CH_E && ParseValue(s, depth + 1).Got? ==>
      Ascending(s, depth + 1) && AscendingItems(s[ParseValue(s, depth + 1).used..], depth)
  }

  /** Each key comes after the one before, the first after `last` if given. */
  ghost predicate AscendingEntries(s: bytes, depth: nat, last: Option<bytes>)
    decreases |s|, 1
  {
    s != [] && s[0] != CH_E && ParseEntry(s, depth).Got? ==>
      var p := ParseEntry(s, depth);
      && (last.Some? ==> ByteBefore(last.value, p.value.key))
      && Ascending(s[ParseBytes(s).used..], depth + 1)
      && AscendingEntries(s[p.used..], depth, Some(p.value.key))
  }

  lemma Cut(s: bytes, n: nat, m: nat)
    requires n + m <= |s|
    ensures s[..n + m] == s[..n] + s[n..][..m]
  {}

  lemma {:induction false} AscendingIsCanonical(s: bytes, depth: nat)
    requires ParseValue(s, depth).Got? && Ascending(s, depth)
    ensures s[..ParseValue(s, depth).used] == Encode(ParseValue(s, depth).value)
    decreases |s|, 0
  {
    hide ParseItems, ParseEntries, EncodeItems, EncodeEntries, EncodeInt, EncodeBytes, ParseInt, ParseBytes;
    if s[0] == CH_I {
      IntExact(s);
    } else if IsDigit(s[0]) {
      BytesExact(s);
    } else if s[0] == CH_L {
      AscendingItemsCanonical(s[1..], depth, []);
      NothingEncoded();
      Wrapped(s, ParseItems(s[1..], depth, []).used);
    } else {
      AscendingEntriesCanonical(s[1..], depth, [], None);
      NothingEncoded();
      Wrapped(s, ParseEntries(s[1..], depth, []).used);
    }
  }

  lemma NothingEncoded()
    ensures EncodeItems([]) == [] && EncodeEntries([]) == []
  {}

  lemma Wrapped(s: bytes, n: nat)
    requires n < |s|
    ensures s[..n + 1] == [s[0]] + s[1..][..n]
    ensures [] + s[1..][..n] == s[1..][..n]
  {}

  lemma {:induction false} AscendingItemsCanonical(s: bytes, depth: nat, items: seq<Value>)
    requires ParseItems(s, depth, items).Got? && AscendingItems(s, depth)
    ensures var r := ParseItems(s, depth, items); EncodeItems(r.value) + [CH_E] == EncodeItems(items) + s[..r.used]
    decreases |s|, 1
  {
    hide ParseItems, ParseValue, Encode, EncodeItems, Ascending;
    ItemsTurn(s, depth, items);
    if s[0] == CH_E {
      assert s[..1] == [CH_E];
    } else {
      var p, r := ParseValue(s, depth + 1), ParseItems(s, depth, items);
      AscendingIsCanonical(s, depth + 1);
      AscendingItemsCanonical(s[p.used..], depth, items + [p.value]);
      EncodeItemsPush(items, p.value);
      Cut(s, p.used, r.used - p.used);
    }
  }

  lemma {:induction false} AscendingEntriesCanonical(s: bytes, depth: nat, es: seq<Entry>, last: Option<bytes>)
    requires ParseEntries(s, depth, es).Got? && AscendingEntries(s, depth, last)
    requires SortedKeys(es) && last == if es == [] then None else Some(es[|es| - 1].key)
    ensures var r := ParseEntries(s, depth, es); EncodeEntries(r.value) + [CH_E] == EncodeEntries(es) + s[..r.used]
    decreases |s|, 2
  {
    hide ParseEntries, ParseEntry, EncodeEntry, EncodeEntries, Ascending, SortedKeys, HasKey, ByteBefore, KeyLess;
    EntriesTurn(s, depth, es);
    if s[0] == CH_E {
      assert s[..1] == [CH_E];
    } else {
      var p, r := ParseEntry(s, depth), ParseEntries(s, depth, es);
      AscendingEntryCanonical(s, depth);
      if es != [] { KeysCompareByBytes(es[|es| - 1].key, p.value.key); }
      assert Insert(es, p.value) == es + [p.value];
      InsertSorted(es, p.value);
      AscendingEntriesCanonical(s[p.used..], depth, es + [p.value], Some(p.value.key));
      EncodeEntriesJoin(es, [p.value]);
      OneEntryEncoded(p.value);
      Cut(s, p.used, r.used - p.used);
    }
  }

  lemma OneEntryEncoded(e: Entry)
    ensures EncodeEntries([e]) == EncodeEntry(e)
  {
    hide EncodeEntry;
    assert [e][1..] == [] && EncodeEntry(e) + [] == EncodeEntry(e);
  }

  lemma {:induction false} AscendingEntryCanonical(s: bytes, depth: nat)
    requires ParseEntry(s, depth).Got? && Ascending(s[ParseBytes(s).used..], depth + 1)
    ensures s[..ParseEntry(s, depth).used] == EncodeEntry(ParseEntry(s, depth).value)
    decreases |s|, 1
  {
    hide ParseBytes, ParseValue, Encode, EncodeBytes, Ascending;
    var n, p := ParseBytes(s).used, ParseEntry(s, depth);
    BytesExact(s);
    AscendingIsCanonical(s[n..], depth + 1);
    Cut(s, n, p.used - n);
  }

  // ----- and conversely

  lemma {:induction false} EncodedIsAscending(v: Value, depth: nat, t: bytes)
    requires WellFormed(v) && Fits(v, MAX_DEPTH - depth) && |Encode(v)| <= USIZE_MAX
    ensures Ascending(Encode(v) + t, depth)
    decreases v, 0
  {
    FirstByte(v);
    var s := Encode(v) + t;
    assert s[0] == Encode(v)[0];
    match v {
      case Bytes(_) =>
      case Int(_) =>
      case List(items) =>
        assert s[1..] == EncodeItems(items) + [CH_E] + t;
        EncodedItemsAscending(items, depth, t);
      case Dict(es) =>
        assert s[1..] == EncodeEntries(es) + [CH_E] + t;
        EncodedEntriesAscending(es, depth, None, t);
    }
  }

  lemma {:induction false} EncodedItemsAscending(items: seq<Value>, depth: nat, t: bytes)
    requires forall x :: x in items ==> WellFormed(x) && Fits(x, MAX_DEPTH - depth - 1)
    requires |EncodeItems(items)| <= USIZE_MAX
    ensures AscendingItems(EncodeItems(items) + [CH_E] + t, depth)
    decreases items, 1
  {
    hide WellFormed, Fits, ParseValue, Encode, Ascending;
    var s := EncodeItems(items) + [CH_E] + t;
    if items == [] {
      assert s[0] == CH_E;
    } else {
      var first, rest := items[0], items[1..];
      var t' := EncodeItems(rest) + [CH_E] + t;
      assert s == Encode(first) + t';
      assert first in items && forall x :: x in rest ==> x in items;
      assert MAX_DEPTH - depth - 1 == MAX_DEPTH - (depth + 1);
      ParseOfEncoded(first, depth + 1, t');
      assert s[|Encode(first)|..] == t';
      EncodedIsAscending(first, depth + 1, t');
      EncodedItemsAscending(rest, depth, t);
    }
  }

  lemma {:induction false} EncodedEntriesAscending(es: seq<Entry>, depth: nat, last: Option<bytes>, t: bytes)
    requires forall e :: e in es ==> WellFormed(e.value) && Fits(e.value, MAX_DEPTH - depth - 1)
    requires |EncodeEntries(es)| <= USIZE_MAX && SortedKeys(es) && (last.Some? && es != [] ==> KeyLess(last.value, es[0].key))
    ensures AscendingEntries(EncodeEntries(es) + [CH_E] + t, depth, last)
    decreases es, 1
  {
    hide WellFormed, Fits, ParseEntry, ParseValue, ParseBytes, Encode, EncodeEntry, Ascending, KeyLess, ByteBefore;
    var s := EncodeEntries(es) + [CH_E] + t;
    if es == [] {
      assert s[0] == CH_E;
    } else {
      var first, rest := es[0], es[1..];
      var t' := EncodeEntries(rest) + [CH_E] + t;
      assert s == EncodeEntry(first) + t';
      assert first in es && forall e :: e in rest ==> e in es;
      assert MAX_DEPTH - depth - 1 == MAX_DEPTH - (depth + 1);
      EntryLength(first);
      ParseOfEncoded(first.value, depth + 1, t');
      ParseEntryOfEncoded(first, depth, t');
      assert s[|EncodeEntry(first)|..] == t';
      EntryKeyUsed(first, t');
      EncodedIsAscending(first.value, depth + 1, t');
      if last.Some? { KeysCompareByBytes(last.value, first.key); }
      assert forall k :: 0 <= k < |rest| ==> rest[k] == es[k + 1];
      EncodedEntriesAscending(rest, depth, Some(first.key), t);
    }
  }

  lemma EntryKeyUsed(e: Entry, t: bytes)
    requires |EncodeEntry(e)| <= USIZE_MAX
    ensures var s := EncodeEntry(e) + t; ParseBytes(s).Got? && s[ParseBytes(s).used..] == Encode(e.value) + t
  {
    hide ParseBytes, Encode;
    var s := EncodeEntry(e) + t;
    assert s == EncodeBytes(e.key) + (Encode(e.value) + t);
    ParseBytesOfEncoded(e.key, Encode(e.value) + t);
  }

  /** An accepted input is what its value is written as if and only if all its
      dictionaries list their keys in byte order. */
  lemma CanonicalExactly(input: bytes)
    requires Decode(input).Got? && |input| <= USIZE_MAX
    ensures Encode(Decode(input).value) == input <==> Ascending(input, 0)
  {
    hide Ascending, ParseValue, Encode;
    var v := Decode(input).value;
    assert input[..|input|] == input;
    if Ascending(input, 0) { AscendingIsCanonical(input, 0); }
    ParsedIsWellFormed(input, 0);
    if Encode(v) == input {
      assert Encode(v) + [] == input;
      EncodedIsAscending(v, 0, []);
    }
  }
}
