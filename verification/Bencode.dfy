// The decoder and encoder of crates/clove-core/src/bencode.rs, proved against
// BencodeSpec: cursor, node budget, entry span and error offsets included.
module Bencode {
  import opened Prelude
  import opened BencodeSpec

  datatype Error = Error(offset: nat, kind: ErrorKind)

  lemma TailOfTail(s: bytes, from: nat, to: nat)
    requires from <= to <= |s|
    ensures s[from..][to - from..] == s[to..]
  {}

  lemma SliceOfTail(s: bytes, from: nat, k: nat, n: nat)
    requires from + k + n <= |s|
    ensures s[from..][k..k + n] == s[from + k..from + k + n]
  {}

  class Decoder {
    const input: bytes
    const want: bytes
    const budget: nat
    var pos: nat
    var nodes: nat
    var span: Option<(nat, nat)>

    constructor (input: bytes, want: bytes)
      ensures this.input == input && this.want == want && Valid() && pos == 0 && nodes == 0 && span == None
    {
      this.input := input;
      this.want := want;
      budget := |input| / 2;
      pos, nodes, span := 0, 0, None;
    }

    /** Every node built so far has been paid for with two bytes. */
    ghost predicate Valid()
      reads this
    {
      budget == |input| / 2 && pos <= |input| && Slack() >= 0
    }

    /** Bytes passed beyond the two that each built node costs. */
    ghost function Slack(): int
      reads this
    {
      pos - 2 * nodes
    }

    /** A result agrees with the parse it stands for: the value and the bytes
        used, or the error and its offset in the input. */
    ghost predicate Agrees<T>(r: Result<T, Error>, p: Parsed<T>, from: nat)
      reads this
    {
      match p
      case Got(v, n) => r == Ok(v) && pos == from + n && Valid()
      case Fail(o, k) => r == Err(Error(from + o, k))
    }

    function Rest(): bytes
      requires Valid()
      reads this
    {
      input[pos..]
    }

    method Int() returns (r: Result<int, Error>)
      requires Valid() && Rest() != [] && Rest()[0] == CH_I
      modifies this`pos
      ensures Agrees(r, ParseInt(old(Rest())), old(pos))
    {
      hide IntDigits;
      var start := pos;
      ghost var s := Rest();
      pos := pos + 1;
      if pos >= |input| { return Err(Error(pos, Truncated)); }
      var negative := input[pos] == CH_MINUS;
      if negative { pos := pos + 1; }
      var from, n := pos, 0;
      while true
        invariant start < from <= pos <= |input| && I64_MIN <= n <= 0
        invariant IntDigits(s, from - start, 0) == IntDigits(s, pos - start, n)
        decreases |input| - pos
      {
        IntTurn(s, pos - start, n);
        if pos >= |input| { return Err(Error(pos, Truncated)); }
        var b := input[pos];
        if b == CH_E { break; }
        if !IsDigit(b) { return Err(Error(start, BadInt)); }
        if n * 10 < I64_MIN || n * 10 - (b - CH_0) < I64_MIN { return Err(Error(start, BadInt)); }
        n := n * 10 - (b - CH_0);
        pos := pos + 1;
      }
      var digits := pos - from;
      if digits == 0 || (digits > 1 && input[from] == CH_0) || (negative && n == 0) {
        return Err(Error(start, BadInt));
      }
      pos := pos + 1;
      if negative { return Ok(n); }
      if n == I64_MIN { return Err(Error(start, BadInt)); }
      return Ok(-n);
    }

    /** `<digits>:<bytes>`; the length is checked before anything is copied. */
    method ByteString() returns (r: Result<bytes, Error>)
      requires Valid()
      modifies this`pos
      ensures Agrees(r, ParseBytes(old(Rest())), old(pos))
    {
      hide LengthDigits;
      var start, len, digits := pos, 0, 0;
      ghost var s := Rest();
      while true
        invariant start <= pos <= |input| && digits == pos - start && 0 <= len
        invariant LengthDigits(s, 0, 0) == LengthDigits(s, digits, len)
        decreases |input| - pos
      {
        LengthTurn(s, digits, len);
        if pos >= |input| { return Err(Error(pos, Truncated)); }
        var b := input[pos];
        if b == CH_COLON { break; }
        if !IsDigit(b) { return Err(Error(start, BadLength)); }
        if len * 10 > USIZE_MAX || len * 10 + (b - CH_0) > USIZE_MAX { return Err(Error(start, BadLength)); }
        len := len * 10 + (b - CH_0);
        digits := digits + 1;
        pos := pos + 1;
      }
      if digits == 0 || (digits > 1 && input[start] == CH_0) {
        return Err(Error(start, BadLength));
      }
      pos := pos + 1;
      if pos + len > |input| { return Err(Error(pos, Truncated)); }
      SliceOfTail(input, start, digits + 1, len);
      r := Ok(input[pos..pos + len]);
      pos := pos + len;
    }

    /** The span once the value at `from` has been read. */
    ghost function SpanAfter(from: nat, depth: nat, before: Option<(nat, nat)>): Option<(nat, nat)>
      requires from <= |input|
    {
      if depth == 0 && from < |input| && input[from] == CH_D
      then SpanIn(input[from + 1..], from + 1, 0, want, before) else before
    }

    /** A value: its node is counted once built, and the budget is never hit. */
    method Value(depth: nat) returns (r: Result<Value, Error>)
      requires Valid()
      modifies this`pos, this`nodes, this`span
      ensures Agrees(r, ParseValue(old(Rest()), depth), old(pos))
      ensures r.Ok? ==> Slack() >= old(Slack()) && span == SpanAfter(old(pos), depth, old(span))
      decreases |input| - pos, 1
    {
      if depth >= MAX_DEPTH { return Err(Error(pos, TooDeep)); }
      r := Node(depth);
      if r.Ok? {
        nodes := nodes + 1;
        if nodes > budget {
          assert false;
          return Err(Error(pos, TooManyNodes));
        }
      }
    }

    method Node(depth: nat) returns (r: Result<Value, Error>)
      requires Valid() && depth < MAX_DEPTH
      modifies this`pos, this`nodes, this`span
      ensures Agrees(r, ParseValue(old(Rest()), depth), old(pos))
      ensures r.Ok? ==> Slack() >= old(Slack()) + 2 && span == SpanAfter(old(pos), depth, old(span))
      decreases |input| - pos, 0
    {
      hide ParseInt, ParseBytes, ParseItems, ParseEntries, SpanIn;
      ghost var s := Rest();
      if pos >= |input| { return Err(Error(pos, Truncated)); }
      var c := input[pos];
      if c == CH_I {
        var i := Int();
        match i { case Ok(n) => r := Ok(BencodeSpec.Int(n)); case Err(e) => r := Err(e); }
      } else if IsDigit(c) {
        var b := ByteString();
        match b { case Ok(bs) => r := Ok(Bytes(bs)); case Err(e) => r := Err(e); }
      } else if c == CH_L {
        pos := pos + 1;
        assert Rest() == s[1..];
        var items := Items(depth);
        match items { case Ok(vs) => r := Ok(List(vs)); case Err(e) => r := Err(e); }
      } else if c == CH_D {
        pos := pos + 1;
        assert Rest() == s[1..];
        var entries := Entries(depth);
        match entries { case Ok(es) => r := Ok(Dict(es)); case Err(e) => r := Err(e); }
      } else {
        r := Err(Error(pos, BadValueStart));
      }
    }

    /** The loop over a list, its `l` already passed. */
    method Items(depth: nat) returns (r: Result<seq<Value>, Error>)
      requires Valid() && depth < MAX_DEPTH
      modifies this`pos, this`nodes, this`span
      ensures Agrees(r, ParseItems(old(input[pos..]), depth, []), old(pos))
      ensures r.Ok? ==> Slack() >= old(Slack()) + 1 && span == old(span)
      decreases |input| - pos, 2
    {
      hide ParseValue, ParseItems;
      var items := [];
      ghost var from, s := pos, input[pos..];
      while true
        invariant from <= pos && Valid() && Slack() >= old(Slack()) && span == old(span)
        invariant ParseItems(s, depth, []) == ParseItems(input[pos..], depth, items).Shift(pos - from)
        decreases |input| - pos
      {
        ItemsTurn(input[pos..], depth, items);
        if pos >= |input| { return Err(Error(pos, Truncated)); }
        if input[pos] == CH_E { break; }
        ghost var at := pos;
        var v := Value(depth + 1);
        if v.Err? { return Err(v.error); }
        TailOfTail(input, at, pos);
        items := items + [v.value];
      }
      pos := pos + 1;
      r := Ok(items);
    }

    /** The loop over a dictionary, its `d` already passed. */
    method Entries(depth: nat) returns (r: Result<seq<Entry>, Error>)
      requires Valid() && depth < MAX_DEPTH
      modifies this`pos, this`nodes, this`span
      ensures Agrees(r, ParseEntries(old(input[pos..]), depth, []), old(pos))
      ensures r.Ok? ==> Slack() >= old(Slack()) + 1
      ensures r.Ok? ==>
        span == if depth == 0 then SpanIn(old(input[pos..]), old(pos), 0, want, old(span)) else old(span)
      decreases |input| - pos, 2
    {
      hide ParseEntry, ParseBytes, ParseValue, ParseEntries, SpanIn, Insert, HasKey;
      var entries: seq<Entry> := [];
      ghost var from, s := pos, input[pos..];
      while true
        invariant from <= pos && Valid() && Slack() >= old(Slack())
        invariant depth > 0 ==> span == old(span)
        invariant depth == 0 ==>
          SpanIn(s, from, 0, want, old(span)) == SpanIn(input[pos..], pos, 0, want, span)
        invariant ParseEntries(s, depth, []) == ParseEntries(input[pos..], depth, entries).Shift(pos - from)
        decreases |input| - pos
      {
        EntriesTurn(input[pos..], depth, entries);
        SpanTurn(input[pos..], pos, want, span);
        if pos >= |input| { return Err(Error(pos, Truncated)); }
        if input[pos] == CH_E { break; }
        var keyOffset := pos;
        if !IsDigit(input[pos]) { return Err(Error(keyOffset, BadKey)); }
        var e := OneEntry(depth);
        if e.Err? { return Err(e.error); }
        TailOfTail(input, keyOffset, pos);
        if HasKey(entries, e.value.key) { return Err(Error(keyOffset, BadKey)); }
        entries := Insert(entries, e.value);
      }
      pos := pos + 1;
      r := Ok(entries);
    }

    /** One key and its value, noting where the wanted one lies. */
    method OneEntry(depth: nat) returns (r: Result<Entry, Error>)
      requires Valid() && depth < MAX_DEPTH
      modifies this`pos, this`nodes, this`span
      ensures Agrees(r, ParseEntry(old(input[pos..]), depth), old(pos))
      ensures r.Ok? ==> old(pos) < pos && Slack() >= old(Slack())
      ensures r.Ok? ==> span == if depth == 0 && r.value.key == want
        then Some((old(pos) + ParseBytes(old(input[pos..])).used, pos)) else old(span)
      decreases |input| - pos, 1
    {
      hide ParseBytes, ParseValue, SpanIn;
      ghost var from := pos;
      var key := ByteString();
      if key.Err? { return Err(key.error); }
      var start := pos;
      TailOfTail(input, from, start);
      var val := Value(depth + 1);
      if val.Err? { return Err(val.error); }
      if depth == 0 && key.value == want {
        span := Some((start, pos));
      }
      r := Ok(Entry(key.value, val.value));
    }
  }

  /** One complete value, and where the top-level dictionary stores `key`. */
  method DecodeWithEntry(input: bytes, key: bytes) returns (r: Result<(Value, Option<(nat, nat)>), Error>)
    ensures match Decode(input)
      case Got(v, _) => r == Ok((v, SpanOf(input, key)))
      case Fail(o, k) => r == Err(Error(o, k))
  {
    hide ParseValue, SpanIn;
    var d := new Decoder(input, key);
    assert input[0..] == input;
    var v := d.Value(0);
    if v.Err? { return Err(v.error); }
    if d.pos == |input| {
      r := Ok((v.value, d.span));
    } else {
      r := Err(Error(d.pos, TrailingData));
    }
  }

  /** A value at the front of the input, and how much of the input it took. */
  method DecodePrefixOf(input: bytes) returns (r: Result<(Value, nat), Error>)
    ensures match DecodePrefix(input)
      case Got(v, n) => r == Ok((v, n))
      case Fail(o, k) => r == Err(Error(o, k))
  {
    hide ParseValue, SpanIn;
    var d := new Decoder(input, []);
    assert input[0..] == input;
    var v := d.Value(0);
    if v.Err? { return Err(v.error); }
    r := Ok((v.value, d.pos));
  }

  // ----- encoding

  method EncodeInto(v: Value, out: bytes) returns (r: bytes)
    ensures r == out + Encode(v)
    decreases v, 0
  {
    match v {
      case Bytes(b) => r := PutBytes(b, out);
      case Int(i) =>
        r := out + [CH_I];
        r := r + (if i < 0 then [CH_MINUS] + Digits(-i) else Digits(i));
        r := r + [CH_E];
      case List(items) =>
        r := PutItems(items, out + [CH_L]);
        r := r + [CH_E];
      case Dict(es) =>
        r := PutEntries(es, out + [CH_D]);
        r := r + [CH_E];
    }
    assert r == out + Encode(v);
  }

  method PutItems(items: seq<Value>, out: bytes) returns (r: bytes)
    ensures r == out + EncodeItems(items)
    decreases items, 1
  {
    r := out;
    var k := 0;
    assert items[0..] == items;
    while k < |items|
      invariant k <= |items| && r + EncodeItems(items[k..]) == out + EncodeItems(items)
    {
      ghost var before := r;
      r := EncodeInto(items[k], r);
      assert items[k..][1..] == items[k + 1..];
      assert before + (Encode(items[k]) + EncodeItems(items[k + 1..])) == r + EncodeItems(items[k + 1..]);
      k := k + 1;
    }
  }

  method PutEntries(es: seq<Entry>, out: bytes) returns (r: bytes)
    ensures r == out + EncodeEntries(es)
    decreases es, 1
  {
    r := out;
    var k := 0;
    assert es[0..] == es;
    while k < |es|
      invariant k <= |es| && r + EncodeEntries(es[k..]) == out + EncodeEntries(es)
    {
      ghost var before := r;
      r := PutBytes(es[k].key, r);
      r := EncodeInto(es[k].value, r);
      assert es[k..][1..] == es[k + 1..];
      assert before + (EncodeEntry(es[k]) + EncodeEntries(es[k + 1..])) == r + EncodeEntries(es[k + 1..]);
      k := k + 1;
    }
  }

  method PutBytes(b: bytes, out: bytes) returns (r: bytes)
    ensures r == out + EncodeBytes(b)
  {
    r := out + Digits(|b|);
    r := r + [CH_COLON];
    r := r + b;
  }
}
