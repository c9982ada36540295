// Parsing is local: what a value is does not depend on what follows it, nor on
// how deep it is found. So the bytes a span names decode, on their own, to the
// value stored there.
module BencodeSpans {
  import opened Prelude
  import opened BencodeSpec
  import opened BencodeTheory

  /** The two strings begin with the same `n` bytes. */
  predicate Agree(s: bytes, t: bytes, n: nat) {
    n <= |s| && n <= |t| && s[..n] == t[..n]
  }

  lemma AgreeAt(s: bytes, t: bytes, n: nat, k: nat)
    requires Agree(s, t, n) && k < n
    ensures k < |s| && k < |t| && s[k] == t[k]
  {
    assert s[..n][k] == t[..n][k];
  }

  lemma AgreeTail(s: bytes, t: bytes, n: nat, k: nat, m: nat)
    requires Agree(s, t, n) && k + m <= n
    ensures k <= |s| && k <= |t| && Agree(s[k..], t[k..], m)
  {
    assert s[k..][..m] == s[..n][k..k + m] && t[k..][..m] == t[..n][k..k + m];
  }

  lemma {:induction false} IntDigitsLocal(s: bytes, t: bytes, k: nat, n: int)
    requires k <= |s| && k <= |t| && I64_MIN <= n <= 0 && IntDigits(s, k, n).Got?
    requires Agree(s, t, IntDigits(s, k, n).used + 1)
    ensures IntDigits(t, k, n) == IntDigits(s, k, n)
    decreases |s| - k
  {
    AgreeAt(s, t, IntDigits(s, k, n).used + 1, k);
    if s[k] != CH_E { IntDigitsLocal(s, t, k + 1, n * 10 - (s[k] - CH_0)); }
  }

  lemma {:induction false} LengthDigitsLocal(s: bytes, t: bytes, k: nat, len: nat)
    requires k <= |s| && k <= |t| && LengthDigits(s, k, len).Got?
    requires Agree(s, t, LengthDigits(s, k, len).used + 1)
    ensures LengthDigits(t, k, len) == LengthDigits(s, k, len)
    decreases |s| - k
  {
    AgreeAt(s, t, LengthDigits(s, k, len).used + 1, k);
    if s[k] != CH_COLON { LengthDigitsLocal(s, t, k + 1, len * 10 + (s[k] - CH_0)); }
  }

  lemma ParseIntLocal(s: bytes, t: bytes)
    requires s != [] && s[0] == CH_I && ParseInt(s).Got? && Agree(s, t, ParseInt(s).used)
    ensures t != [] && t[0] == CH_I && ParseInt(t) == ParseInt(s)
  {
    var n := ParseInt(s).used;
    AgreeAt(s, t, n, 0);
    AgreeAt(s, t, n, 1);
    var from := if s[1] == CH_MINUS then 2 else 1;
    AgreeAt(s, t, n, from);
    IntDigitsLocal(s, t, from, 0);
  }

  lemma ParseBytesLocal(s: bytes, t: bytes)
    requires ParseBytes(s).Got? && Agree(s, t, ParseBytes(s).used)
    ensures ParseBytes(t) == ParseBytes(s)
  {
    var n, r := ParseBytes(s).used, LengthDigits(s, 0, 0);
    AgreeTail(s, t, n, 0, r.used + 1);
    assert Agree(s, t, r.used + 1);
    LengthDigitsLocal(s, t, 0, 0);
    AgreeAt(s, t, n, 0);
    assert s[r.used + 1..n] == s[..n][r.used + 1..] == t[..n][r.used + 1..] == t[r.used + 1..n];
  }

  /** A value reads the same with anything after it and at any lesser depth. */
  lemma {:induction false} ParseValueLocal(s: bytes, t: bytes, depth: nat, depth': nat)
    requires depth' <= depth && ParseValue(s, depth).Got? && Agree(s, t, ParseValue(s, depth).used)
    ensures ParseValue(t, depth') == ParseValue(s, depth)
    decreases |s|, 0
  {
    var n := ParseValue(s, depth).used;
    AgreeAt(s, t, n, 0);
    if s[0] == CH_I {
      ParseIntLocal(s, t);
    } else if IsDigit(s[0]) {
      ParseBytesLocal(s, t);
    } else {
      AgreeTail(s, t, n, 1, n - 1);
      if s[0] == CH_L {
        ParseItemsLocal(s[1..], t[1..], depth, depth', []);
      } else {
        ParseEntriesLocal(s[1..], t[1..], depth, depth', []);
      }
    }
  }

  lemma {:induction false} ParseItemsLocal(s: bytes, t: bytes, depth: nat, depth': nat, items: seq<Value>)
    requires depth' <= depth && ParseItems(s, depth, items).Got? && Agree(s, t, ParseItems(s, depth, items).used)
    ensures ParseItems(t, depth', items) == ParseItems(s, depth, items)
    decreases |s|, 1
  {
    hide Agree, ParseValue;
    var n := ParseItems(s, depth, items).used;
    AgreeAt(s, t, n, 0);
    if s[0] != CH_E {
      var p := ParseValue(s, depth + 1);
      AgreeTail(s, t, n, 0, p.used);
      assert Agree(s, t, p.used);
      ParseValueLocal(s, t, depth + 1, depth' + 1);
      AgreeTail(s, t, n, p.used, n - p.used);
      ParseItemsLocal(s[p.used..], t[p.used..], depth, depth', items + [p.value]);
    }
  }

  lemma {:induction false} ParseEntryLocal(s: bytes, t: bytes, depth: nat, depth': nat)
    requires depth' <= depth && ParseEntry(s, depth).Got? && Agree(s, t, ParseEntry(s, depth).used)
    ensures ParseEntry(t, depth') == ParseEntry(s, depth) && ParseBytes(t) == ParseBytes(s)
    decreases |s|, 1
  {
    var n, k := ParseEntry(s, depth).used, ParseBytes(s).used;
    AgreeTail(s, t, n, 0, k);
    assert Agree(s, t, k);
    ParseBytesLocal(s, t);
    AgreeTail(s, t, n, k, n - k);
    ParseValueLocal(s[k..], t[k..], depth + 1, depth' + 1);
  }

  lemma {:induction false} ParseEntriesLocal(s: bytes, t: bytes, depth: nat, depth': nat, es: seq<Entry>)
    requires depth' <= depth && ParseEntries(s, depth, es).Got? && Agree(s, t, ParseEntries(s, depth, es).used)
    ensures ParseEntries(t, depth', es) == ParseEntries(s, depth, es)
    decreases |s|, 2
  {
    var n := ParseEntries(s, depth, es).used;
    AgreeAt(s, t, n, 0);
    if s[0] != CH_E {
      var p := ParseEntry(s, depth);
      AgreeTail(s, t, n, 0, p.used);
      assert Agree(s, t, p.used);
      ParseEntryLocal(s, t, depth, depth');
      AgreeTail(s, t, n, p.used, n - p.used);
      ParseEntriesLocal(s[p.used..], t[p.used..], depth, depth', Insert(es, p.value));
    }
  }

  // ----- spans

  /** The value stored under a key. */
  ghost predicate Stored(es: seq<Entry>, key: bytes, v: Value) {
    exists k :: 0 <= k < |es| && es[k] == Entry(key, v)
  }

  /** A span is right for the entries seen so far: there is one exactly if the
      key was seen, and the bytes it names decode to the value stored. */
  ghost predicate SpanRight(input: bytes, es: seq<Entry>, want: bytes, span: Option<(nat, nat)>) {
    && (span.Some? <==> HasKey(es, want))
    && (span.Some? ==> Names(input, span.value, es, want))
  }

  /** The bytes of a span decode, alone, to the value stored under a key. */
  ghost predicate Names(input: bytes, span: (nat, nat), es: seq<Entry>, want: bytes) {
    && span.0 <= span.1 <= |input|
    && Decode(input[span.0..span.1]).Got?
    && Stored(es, want, Decode(input[span.0..span.1]).value)
  }

  lemma {:induction false} SpanInRight(input: bytes, at: nat, es: seq<Entry>, want: bytes, found: Option<(nat, nat)>)
    requires at <= |input| && ParseEntries(input[at..], 0, es).Got?
    requires SpanRight(input, es, want, found)
    ensures SpanRight(input, ParseEntries(input[at..], 0, es).value, want, SpanIn(input[at..], at, 0, want, found))
    decreases |input| - at
  {
    hide SpanRight, ParseEntries, SpanIn, ParseBytes, Insert, HasKey;
    var s := input[at..];
    EntriesTurn(s, 0, es);
    SpanTurn(s, at, want, found);
    if s[0] != CH_E {
      var p := ParseEntry(s, 0);
      var found' := if p.value.key == want then Some((at + ParseBytes(s).used, at + p.used)) else found;
      EntrySpanRight(input, at, es, want, found);
      assert s[p.used..] == input[at + p.used..];
      SpanInRight(input, at + p.used, Insert(es, p.value), want, found');
    }
  }

  lemma EntrySpanRight(input: bytes, at: nat, es: seq<Entry>, want: bytes, found: Option<(nat, nat)>)
    requires at <= |input| && ParseEntry(input[at..], 0).Got?
    requires !HasKey(es, ParseEntry(input[at..], 0).value.key) && SpanRight(input, es, want, found)
    ensures var s := input[at..];
      var p := ParseEntry(s, 0);
      SpanRight(input, Insert(es, p.value), want,
        if p.value.key == want then Some((at + ParseBytes(s).used, at + p.used)) else found)
  {
    hide HasKey, Insert, ParseBytes, ParseValue, SortedKeys;
    var s := input[at..];
    var p, k := ParseEntry(s, 0), ParseBytes(s).used;
    HasKeyAfterInsert(es, p.value, want);
    InsertMembers(es, p.value);
    var r := Insert(es, p.value);
    if p.value.key == want {
      var part := input[at + k..at + p.used];
      assert s[k..][..p.used - k] == part;
      assert Agree(s[k..], part, p.used - k);
      ParseValueLocal(s[k..], part, 1, 0);
      assert p.value in r;
      var j :| 0 <= j < |r| && r[j] == p.value;
      assert r[j] == Entry(want, Decode(part).value);
    } else if found.Some? {
      var part := input[found.value.0..found.value.1];
      StoredAfterInsert(es, p.value, want, Decode(part).value);
    }
  }

  lemma StoredAfterInsert(es: seq<Entry>, e: Entry, key: bytes, v: Value)
    requires Stored(es, key, v)
    ensures Stored(Insert(es, e), key, v)
  {
    InsertMembers(es, e);
    var k :| 0 <= k < |es| && es[k] == Entry(key, v);
    assert es[k] in Insert(es, e);
    var j :| 0 <= j < |Insert(es, e)| && Insert(es, e)[j] == es[k];
  }

  /** The span reported for an accepted input, for any key, empty or not: it
      exists exactly when the top-level value is a dictionary with that key,
      and decoding the bytes it names alone gives the value stored there. */
  lemma SpanIsTheStoredValue(input: bytes, want: bytes)
    requires Decode(input).Got?
    ensures var v, span := Decode(input).value, SpanOf(input, want);
      && (span.Some? <==> v.Dict? && HasKey(v.entries, want))
      && (span.Some? ==> Names(input, span.value, v.entries, want))
  {
    if input[0] == CH_D {
      SpanInRight(input, 1, [], want, None);
    }
  }

  /** The entry `0:i1e`, followed by an `e`. */
  lemma EmptyKeyEntry(s: bytes)
    requires s == [CH_0, CH_COLON, CH_I, CH_0 + 1, CH_E, CH_E]
    ensures ParseEntry(s, 0) == Got(Entry([], Int(1)), 5) && ParseBytes(s).used == 2
  {
    hide ParseBytes, ParseValue, ParseEntry;
    assert EncodeBytes([]) == [CH_0, CH_COLON] && EncodeInt(1) == [CH_I, CH_0 + 1, CH_E];
    ParseBytesOfEncoded([], s[2..]);
    ParseOfEncoded(Int(1), 1, [CH_E]);
    assert s == EncodeBytes([]) + s[2..] && s[2..] == EncodeInt(1) + [CH_E];
    ParseEntryOfEncoded(Entry([], Int(1)), 0, [CH_E]);
    assert s == EncodeEntry(Entry([], Int(1))) + [CH_E];
  }

  /** Contrary to the decoder's own comment, an empty key can match. */
  lemma EmptyKeyCanMatch()
    ensures var input: bytes := [CH_D, CH_0, CH_COLON, CH_I, CH_0 + 1, CH_E, CH_E];
      Decode(input) == Got(Dict([Entry([], Int(1))]), 7) && SpanOf(input, []) == Some((3, 6))
  {
    hide ParseEntry, ParseBytes;
    var input: bytes := [CH_D, CH_0, CH_COLON, CH_I, CH_0 + 1, CH_E, CH_E];
    var e, s := Entry([], Int(1)), input[1..];
    EmptyKeyEntry(s);
    assert s[5..] == [CH_E];
    assert [] + [e] == [e] && !HasKey([], []) && Insert([], e) == [e];
    assert ParseEntries(s[5..], 0, [e]) == Got([e], 1);
    assert s[0] == CH_0 && IsDigit(s[0]) && ParseEntries(s, 0, []) == Got([e], 6);
    assert SpanIn(s, 1, 0, [], None) == SpanIn(s[5..], 6, 0, [], Some((3, 6)));
    assert SpanIn(s[5..], 6, 0, [], Some((3, 6))) == Some((3, 6));
  }

  // ----- the magnet wrapper

  const INFO: bytes := [105, 110, 102, 111]

  /** `d4:info<info>e`, as `from_info_dict` builds it. */
  function Wrap(info: bytes): bytes { [CH_D] + EncodeBytes(INFO) + info + [CH_E] }

  /** The wrapper's `info` span is exactly the bytes wrapped if and only if
      those bytes are one complete value on their own. */
  lemma WrapSpanExact(info: bytes)
    requires Decode(Wrap(info)).Got?
    ensures SpanOf(Wrap(info), INFO).Some?
    ensures var span := SpanOf(Wrap(info), INFO).value;
      span.0 <= span.1 <= |Wrap(info)| &&
      (Wrap(info)[span.0..span.1] == info <==> Decode(info).Got?)
  {
    var input, k := Wrap(info), |EncodeBytes(INFO)|;
    var s, t := input[1..], info + [CH_E];
    assert s == EncodeBytes(INFO) + t;
    ParseBytesOfEncoded(INFO, t);
    assert s[k..] == t;
    SpanIsTheStoredValue(input, INFO);
    DigitsFacts(|INFO|);
    assert IsDigit(s[0]);
    WrapIsDict(info);
    var p := ParseEntry(s, 0);
    assert p.Got? && p.value.key == INFO;
    var n := p.used - k;
    assert ParseValue(t, 1) == Got(p.value.value, n);
    WrapFirstSpan(info, p.used);
    WrapSlice(info, n);
    if Decode(info).Got? {
      assert t[..|info|] == info[..|info|];
      ParseValueLocal(info, t, 0, 0);
      ParseValueLocal(t, t, 1, 0);
      assert n == |info|;
    }
    if n == |info| {
      assert t[..n] == info == info[..n];
      ParseValueLocal(t, info, 1, 0);
    }
  }

  lemma WrapIsDict(info: bytes)
    requires Decode(Wrap(info)).Got?
    ensures ParseEntries(Wrap(info)[1..], 0, []).Got?
  {
    assert Wrap(info)[0] == CH_D;
  }

  /** The first `info` entry is the only one, so it is the one reported. */
  lemma WrapFirstSpan(info: bytes, used: nat)
    requires Decode(Wrap(info)).Got?
    requires var s := Wrap(info)[1..];
      IsDigit(s[0]) && ParseEntry(s, 0).Got? && ParseEntry(s, 0).value.key == INFO && ParseEntry(s, 0).used == used
    requires ParseBytes(Wrap(info)[1..]) == Got(INFO, |EncodeBytes(INFO)|)
    ensures SpanOf(Wrap(info), INFO) == Some((1 + |EncodeBytes(INFO)|, 1 + used))
  {
    hide ParseEntry, ParseBytes, EncodeBytes, Decode;
    var input := Wrap(info);
    var s := input[1..];
    var p := ParseEntry(s, 0);
    WrapIsDict(info);
    assert [p.value][0].key == INFO;
    assert Insert([], p.value) == [p.value];
    assert ParseEntries(s[used..], 0, [p.value]).Got?;
    SpanStays(s[used..], 1 + used, [p.value], INFO, Some((1 + |EncodeBytes(INFO)|, 1 + used)));
  }

  lemma WrapSlice(info: bytes, n: nat)
    requires n <= |info| + 1
    ensures var at := 1 + |EncodeBytes(INFO)|;
      at + n <= |Wrap(info)| && (Wrap(info)[at..at + n] == info <==> n == |info|)
  {
    var at := 1 + |EncodeBytes(INFO)|;
    if n == |info| { assert Wrap(info)[at..at + n] == info; }
  }

  /** Once a key has been seen no later entry can carry it. */
  lemma {:induction false} SpanStays(s: bytes, at: nat, es: seq<Entry>, want: bytes, found: Option<(nat, nat)>)
    requires ParseEntries(s, 0, es).Got? && HasKey(es, want)
    ensures SpanIn(s, at, 0, want, found) == found
    decreases |s|
  {
    hide ParseEntries, SpanIn, ParseEntry, ParseBytes, Insert, HasKey;
    EntriesTurn(s, 0, es);
    SpanTurn(s, at, want, found);
    if s[0] != CH_E {
      var p := ParseEntry(s, 0);
      HasKeyAfterInsert(es, p.value, want);
      SpanStays(s[p.used..], at + p.used, Insert(es, p.value), want, found);
    }
  }
}
