// Where an encoded value ends: a value cut short is reported as truncated, one
// that is followed by more as trailing data where it ends, and one nested too
// deeply as such (crates/clove-core/src/bencode.rs).
module BencodeFraming {
  import opened Prelude
  import opened BencodeSpec
  import opened BencodeTheory
  import opened BencodeSpans

  predicate Short<T>(p: Parsed<T>) { p.Fail? && p.kind == Truncated }

  lemma HeadAgrees(s: bytes, k: nat, n: nat)
    requires n <= k <= |s|
    ensures Agree(s, s[..k], n)
  {
    assert s[..k][..n] == s[..n];
  }

  lemma TailOfHead(s: bytes, k: nat, n: nat)
    requires n <= k <= |s|
    ensures s[..k][n..] == s[n..][..k - n]
  {}

  lemma {:induction false} IntDigitsCut(s: bytes, j: nat, n: int, k: nat)
    requires j <= k && I64_MIN <= n <= 0 && k <= |s| && IntDigits(s, j, n).Got? && k <= IntDigits(s, j, n).used
    ensures Short(IntDigits(s[..k], j, n))
    decreases |s| - j
  {
    hide IntDigits;
    IntTurn(s, j, n);
    IntTurn(s[..k], j, n);
    if j < k {
      assert s[..k][j] == s[j];
      IntDigitsCut(s, j + 1, n * 10 - (s[j] - CH_0), k);
    }
  }

  lemma {:induction false} LengthDigitsCut(s: bytes, j: nat, len: nat, k: nat)
    requires j <= k <= |s| && LengthDigits(s, j, len).Got? && k <= LengthDigits(s, j, len).used
    ensures Short(LengthDigits(s[..k], j, len))
    decreases |s| - j
  {
    hide LengthDigits;
    LengthTurn(s, j, len);
    LengthTurn(s[..k], j, len);
    if j < k {
      assert s[..k][j] == s[j];
      LengthDigitsCut(s, j + 1, len * 10 + (s[j] - CH_0), k);
    }
  }

  lemma ParseIntCut(s: bytes, k: nat)
    requires s != [] && s[0] == CH_I && ParseInt(s).Got? && 0 < k < ParseInt(s).used
    ensures s[..k][0] == CH_I && Short(ParseInt(s[..k]))
  {
    hide IntDigits;
    if k > 1 {
      assert s[..k][1] == s[1];
      var from := if s[1] == CH_MINUS then 2 else 1;
      IntDigitsCut(s, from, 0, k);
    }
  }

  lemma ParseBytesCut(s: bytes, k: nat)
    requires ParseBytes(s).Got? && k < ParseBytes(s).used
    ensures Short(ParseBytes(s[..k]))
  {
    hide LengthDigits;
    var r := LengthDigits(s, 0, 0);
    if k <= r.used {
      LengthDigitsCut(s, 0, 0, k);
    } else {
      HeadAgrees(s, k, r.used + 1);
      LengthDigitsLocal(s, s[..k], 0, 0);
      assert s[..k][0] == s[0];
    }
  }

  /** A value cut anywhere before its end is reported as truncated. */
  lemma {:induction false} ParseValueCut(s: bytes, depth: nat, k: nat)
    requires ParseValue(s, depth).Got? && k < ParseValue(s, depth).used
    ensures Short(ParseValue(s[..k], depth))
    decreases |s|, 0
  {
    if k > 0 {
      assert s[..k][0] == s[0];
      if s[0] == CH_I {
        ParseIntCut(s, k);
      } else if IsDigit(s[0]) {
        ParseBytesCut(s, k);
      } else {
        TailOfHead(s, k, 1);
        if s[0] == CH_L {
          ParseItemsCut(s[1..], depth, [], k - 1);
        } else {
          ParseEntriesCut(s[1..], depth, [], k - 1);
        }
      }
    }
  }

  lemma {:induction false} ParseItemsCut(s: bytes, depth: nat, items: seq<Value>, k: nat)
    requires ParseItems(s, depth, items).Got? && k < ParseItems(s, depth, items).used
    ensures Short(ParseItems(s[..k], depth, items))
    decreases |s|, 1
  {
    hide ParseItems, ParseValue;
    ItemsTurn(s, depth, items);
    ItemsTurn(s[..k], depth, items);
    if k > 0 {
      assert s[..k][0] == s[0];
      var p := ParseValue(s, depth + 1);
      if k < p.used {
        ParseValueCut(s, depth + 1, k);
      } else {
        HeadAgrees(s, k, p.used);
        ParseValueLocal(s, s[..k], depth + 1, depth + 1);
        TailOfHead(s, k, p.used);
        ParseItemsCut(s[p.used..], depth, items + [p.value], k - p.used);
      }
    }
  }

  lemma {:induction false} ParseEntryCut(s: bytes, depth: nat, k: nat)
    requires ParseEntry(s, depth).Got? && k < ParseEntry(s, depth).used
    ensures Short(ParseEntry(s[..k], depth))
    decreases |s|, 1
  {
    hide ParseValue, ParseBytes;
    var n := ParseBytes(s).used;
    if k < n {
      ParseBytesCut(s, k);
    } else {
      HeadAgrees(s, k, n);
      ParseBytesLocal(s, s[..k]);
      TailOfHead(s, k, n);
      ParseValueCut(s[n..], depth + 1, k - n);
    }
  }

  lemma {:induction false} ParseEntriesCut(s: bytes, depth: nat, es: seq<Entry>, k: nat)
    requires ParseEntries(s, depth, es).Got? && k < ParseEntries(s, depth, es).used
    ensures Short(ParseEntries(s[..k], depth, es))
    decreases |s|, 2
  {
    hide ParseEntries, ParseEntry, HasKey, Insert;
    EntriesTurn(s, depth, es);
    EntriesTurn(s[..k], depth, es);
    if k > 0 {
      assert s[..k][0] == s[0];
      if s[0] != CH_E {
        var p := ParseEntry(s, depth);
        if k < p.used {
          ParseEntryCut(s, depth, k);
        } else {
          HeadAgrees(s, k, p.used);
          ParseEntryLocal(s, s[..k], depth, depth);
          TailOfHead(s, k, p.used);
          ParseEntriesCut(s[p.used..], depth, Insert(es, p.value), k - p.used);
        }
      }
    }
  }

  /** No accepted input is the beginning of another: cut short it is truncated,
      and extended it has trailing data exactly where it ends. */
  lemma FramingIsExact(input: bytes, k: nat, more: bytes)
    requires Decode(input).Got? && k < |input| && more != []
    ensures Decode(input[..k]).Fail? && Decode(input[..k]).kind == Truncated
    ensures Decode(input + more) == Fail(|input|, TrailingData)
  {
    hide ParseValue;
    ParseValueCut(input, 0, k);
    assert (input + more)[..|input|] == input[..|input|];
    ParseValueLocal(input, input + more, 0, 0);
  }

  // ----- nesting

  predicate Deep<T>(p: Parsed<T>) { p.Fail? && p.kind == TooDeep }

  lemma {:induction false} ParseTooDeep(v: Value, depth: nat, t: bytes)
    requires WellFormed(v) && !Fits(v, MAX_DEPTH - depth) && |Encode(v)| <= USIZE_MAX
    ensures Deep(ParseValue(Encode(v) + t, depth))
    decreases v, 0
  {
    if depth < MAX_DEPTH {
      FirstByte(v);
      var s := Encode(v) + t;
      assert s[0] == Encode(v)[0];
      match v {
        case Bytes(_) =>
        case Int(_) =>
        case List(items) =>
          assert s[1..] == EncodeItems(items) + [CH_E] + t;
          ParseItemsTooDeep(items, depth, [], t);
        case Dict(es) =>
          assert s[1..] == EncodeEntries(es) + [CH_E] + t;
          assert [] + es == es;
          ParseEntriesTooDeep(es, depth, [], t);
      }
    }
  }

  lemma {:induction false} ParseItemsTooDeep(items: seq<Value>, depth: nat, done: seq<Value>, t: bytes)
    requires (forall x :: x in items ==> WellFormed(x)) && |EncodeItems(items)| <= USIZE_MAX
    requires exists x :: x in items && !Fits(x, MAX_DEPTH - depth - 1)
    ensures Deep(ParseItems(EncodeItems(items) + [CH_E] + t, depth, done))
    decreases items, 1
  {
    hide WellFormed, Fits, ParseValue, ParseItems, Encode;
    var s := EncodeItems(items) + [CH_E] + t;
    var first, rest := items[0], items[1..];
    var t' := EncodeItems(rest) + [CH_E] + t;
    assert s == Encode(first) + t';
    FirstByte(first);
    assert s[0] == Encode(first)[0];
    assert first in items && forall x :: x in rest ==> x in items;
    assert MAX_DEPTH - depth - 1 == MAX_DEPTH - (depth + 1);
    ItemsTurn(s, depth, done);
    if Fits(first, MAX_DEPTH - (depth + 1)) {
      var x :| x in items && !Fits(x, MAX_DEPTH - depth - 1);
      assert items == [first] + rest && x in rest;
      ParseOfEncoded(first, depth + 1, t');
      assert s[|Encode(first)|..] == t';
      ParseItemsTooDeep(rest, depth, done + [first], t);
    } else {
      ParseTooDeep(first, depth + 1, t');
    }
  }

  lemma {:induction false} ParseEntriesTooDeep(es: seq<Entry>, depth: nat, done: seq<Entry>, t: bytes)
    requires (forall e :: e in es ==> WellFormed(e.value)) && |EncodeEntries(es)| <= USIZE_MAX && SortedKeys(done + es)
    requires exists e :: e in es && !Fits(e.value, MAX_DEPTH - depth - 1)
    ensures Deep(ParseEntries(EncodeEntries(es) + [CH_E] + t, depth, done))
    decreases es, 1
  {
    hide WellFormed, Fits, ParseValue, ParseEntry, ParseEntries, Encode, EncodeEntry, SortedKeys, HasKey, Insert;
    var s := EncodeEntries(es) + [CH_E] + t;
    var first, rest := es[0], es[1..];
    var t' := EncodeEntries(rest) + [CH_E] + t;
    assert s == EncodeEntry(first) + t';
    assert first in es && forall e :: e in rest ==> e in es;
    assert MAX_DEPTH - depth - 1 == MAX_DEPTH - (depth + 1);
    EntryLength(first);
    EntriesTurn(s, depth, done);
    if Fits(first.value, MAX_DEPTH - (depth + 1)) {
      var e :| e in es && !Fits(e.value, MAX_DEPTH - depth - 1);
      assert es == [first] + rest && e in rest;
      ParseOfEncoded(first.value, depth + 1, t');
      ParseEntryOfEncoded(first, depth, t');
      assert s[|EncodeEntry(first)|..] == t';
      assert done + [first] + rest == done + es == done + ([first] + rest);
      InsertAtEnd(done, first, rest);
      ParseEntriesTooDeep(rest, depth, done + [first], t);
    } else {
      ParseTooDeep(first.value, depth + 1, t');
      ParseEntryTooDeep(first, depth, t');
    }
  }

  lemma ParseEntryTooDeep(e: Entry, depth: nat, t: bytes)
    requires |EncodeEntry(e)| <= USIZE_MAX && Deep(ParseValue(Encode(e.value) + t, depth + 1))
    ensures Deep(ParseEntry(EncodeEntry(e) + t, depth)) && IsDigit((EncodeEntry(e) + t)[0])
  {
    hide ParseValue, ParseBytes, Encode;
    var s := EncodeEntry(e) + t;
    assert s == EncodeBytes(e.key) + (Encode(e.value) + t);
    ParseBytesOfEncoded(e.key, Encode(e.value) + t);
    assert s[|EncodeBytes(e.key)|..] == Encode(e.value) + t;
    DigitsFacts(|e.key|);
  }

  /** What is written for a well-formed value is read back, or refused as too
      deep, exactly as the value nests within the limit or not. */
  lemma DepthLimitIsExact(v: Value)
    requires WellFormed(v) && |Encode(v)| <= USIZE_MAX
    ensures if Fits(v, MAX_DEPTH) then Decode(Encode(v)) == Got(v, |Encode(v)|)
      else Decode(Encode(v)).Fail? && Decode(Encode(v)).kind == TooDeep
  {
    hide ParseValue, Fits;
    if Fits(v, MAX_DEPTH) {
      DecodeOfEncode(v);
    } else {
      ParseTooDeep(v, 0, []);
      assert Encode(v) + [] == Encode(v);
    }
  }
}
