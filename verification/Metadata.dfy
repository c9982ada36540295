// Fetching and serving the info dictionary over BEP 9: the request window and
// the piece assembler of crates/clove-core/src/metadata.rs.
module Metadata {
  import opened Prelude
  import Counting

  // ----- the request window

  /** How many requests are served per window of time, and where the current
      window stands. */
  datatype Window = Window(limit: nat, length: nat, start: Option<nat>, used: nat)
  {
    predicate Expired(now: nat) { start == None || SatSub(now, start.value) >= length }

    function Turned(now: nat): Window { if Expired(now) then this.(start := Some(now), used := 0) else this }

    function Ask(now: nat): (Window, bool) {
      var w := Turned(now);
      if w.used >= limit then (w, false) else (w.(used := w.used + 1), true)
    }
  }

  /** The window after requests at the given times. */
  function After(limit: nat, length: nat, times: seq<nat>): Window {
    if times == [] then Window(limit, length, None, 0)
    else After(limit, length, times[..|times| - 1]).Ask(times[|times| - 1]).0
  }

  /** Whether the last of the requests at the given times is served. */
  predicate Served(limit: nat, length: nat, times: seq<nat>) {
    times != [] && After(limit, length, times[..|times| - 1]).Ask(times[|times| - 1]).1
  }

  /** Requests served at times from `lo` to `lo + length`, both included. */
  function ServedWithin(limit: nat, length: nat, times: seq<nat>, lo: nat): nat {
    if times == [] then 0
    else
      ServedWithin(limit, length, times[..|times| - 1], lo) +
        (if Served(limit, length, times) && lo <= times[|times| - 1] <= lo + length then 1 else 0)
  }

  predicate Ordered(times: seq<nat>) { forall i, j :: 0 <= i < j < |times| ==> times[i] <= times[j] }

  class RequestBudget {
    const limit: nat
    const length: nat
    var windowStart: Option<nat>
    var used: nat

    function View(): Window
      reads this
    {
      Window(limit, length, windowStart, used)
    }

    constructor (limit: nat, length: nat)
      ensures View() == After(limit, length, [])
    {
      this.limit, this.length, windowStart, used := limit, length, None, 0;
    }

    method Allow(now: nat) returns (ok: bool)
      modifies this
      ensures (View(), ok) == old(View()).Ask(now)
    {
      var expired := true;
      if windowStart.Some? {
        expired := SatSub(now, windowStart.value) >= length;
      }
      if expired {
        windowStart := Some(now);
        used := 0;
      }
      if used >= limit {
        return false;
      }
      used := used + 1;
      ok := true;
    }
  }

  /** How the current window and the requests served in a span of time fit
      together. */
  ghost predicate SpanFits(w: Window, times: seq<nat>, lo: nat, served: nat) {
    && w.used <= w.limit
    && (times == [] <==> w.start == None)
    && (times == [] ==> served == 0)
    && (times != [] ==>
      && w.start.value <= times[|times| - 1] < w.start.value + w.length
      && (times[|times| - 1] < lo ==> served == 0)
      && (w.start.value <= lo ==> served <= w.used)
      && (lo < w.start.value <= lo + w.length ==> served <= w.limit + w.used)
      && served <= 2 * w.limit)
  }

  lemma {:induction false} SpanKept(limit: nat, length: nat, times: seq<nat>, lo: nat)
    requires length > 0 && Ordered(times)
    ensures var w := After(limit, length, times);
      w.limit == limit && w.length == length && SpanFits(w, times, lo, ServedWithin(limit, length, times, lo))
  {
    if times != [] {
      var init := times[..|times| - 1];
      assert Ordered(init);
      SpanKept(limit, length, init, lo);
      SpanStep(After(limit, length, init), init, times, lo, ServedWithin(limit, length, init, lo));
    }
  }

  lemma SpanStep(w: Window, init: seq<nat>, times: seq<nat>, lo: nat, served: nat)
    requires w.length > 0 && times != [] && Ordered(times) && init == times[..|times| - 1]
    requires SpanFits(w, init, lo, served)
    ensures var (w', ok) := w.Ask(times[|times| - 1]);
      SpanFits(w', times, lo, served + (if ok && lo <= times[|times| - 1] <= lo + w.length then 1 else 0))
  {
    if init != [] { assert init[|init| - 1] == times[|init| - 1] <= times[|times| - 1]; }
  }

  /** A burst of `n` requests at time 0 against a window of no length. */
  function Burst(n: nat): seq<nat> { seq(n, _ => 0) }

  lemma {:induction false} BurstIsServed(limit: nat, n: nat)
    requires limit > 0
    ensures ServedWithin(limit, 0, Burst(n), 0) == n && After(limit, 0, Burst(n)).limit == limit
    ensures After(limit, 0, Burst(n)).length == 0
  {
    if n > 0 {
      assert Burst(n)[..n - 1] == Burst(n - 1);
      BurstIsServed(limit, n - 1);
    }
  }

  ghost predicate TwiceTheLimit(limit: nat, length: nat) {
    forall times: seq<nat>, lo: nat :: Ordered(times) ==> ServedWithin(limit, length, times, lo) <= 2 * limit
  }

  /** A window with a length serves at most twice its limit in any span of its
      length, whatever the requests; one without serves every request. */
  lemma TwiceTheLimitIffWindowHasLength(limit: nat, length: nat)
    ensures TwiceTheLimit(limit, length) <==> length > 0 || limit == 0
  {
    if length > 0 {
      forall times: seq<nat>, lo: nat | Ordered(times) ensures ServedWithin(limit, length, times, lo) <= 2 * limit {
        SpanKept(limit, length, times, lo);
      }
    } else if limit == 0 {
      forall times: seq<nat>, lo: nat | Ordered(times) ensures ServedWithin(0, length, times, lo) <= 0 {
        NothingServed(length, times, lo);
      }
    } else {
      BurstIsServed(limit, 2 * limit + 1);
      assert Ordered(Burst(2 * limit + 1));
    }
  }

  lemma {:induction false} NothingServed(length: nat, times: seq<nat>, lo: nat)
    ensures ServedWithin(0, length, times, lo) == 0 && After(0, length, times).limit == 0
  {
    if times != [] { NothingServed(length, times[..|times| - 1], lo); }
  }

  // -- an honest peer is never refused

  /** Requests less than a window's length old at time `now`. */
  function Recent(length: nat, now: nat): nat -> bool { (t: nat) => SatSub(now, t) < length }

  function Since(start: nat): nat -> bool { (t: nat) => start <= t }

  lemma {:induction false} UsedAreSince(limit: nat, length: nat, times: seq<nat>)
    requires Ordered(times)
    ensures var w := After(limit, length, times);
      && w.limit == limit && w.length == length
      && (w.start.Some? ==> w.used <= Counting.Count(times, Since(w.start.value)))
      && (w.start.Some? ==> times != [] && w.start.value <= times[|times| - 1])
  {
    hide Counting.Count;
    if times != [] {
      var init, now := times[..|times| - 1], times[|times| - 1];
      assert times == init + [now];
      UsedAreSince(limit, length, init);
      var w := After(limit, length, init);
      if w.start.Some? {
        Counting.CountPush(init, Since(w.start.value), now);
        assert init[|init| - 1] <= now;
      }
      Counting.CountPush(init, Since(now), now);
    }
  }

  /** A refused request comes after at least `limit` others within a window's
      length: a peer that asks no faster than that is always served. */
  lemma RefusalIsEarned(limit: nat, length: nat, times: seq<nat>, now: nat)
    requires Ordered(times + [now]) && !Served(limit, length, times + [now])
    ensures Counting.Count(times, Recent(length, now)) >= limit
  {
    assert (times + [now])[..|times|] == times;
    assert Ordered(times) by {
      forall i, j | 0 <= i < j < |times| ensures times[i] <= times[j] {
        assert (times + [now])[i] <= (times + [now])[j];
      }
    }
    UsedAreSince(limit, length, times);
    var w := After(limit, length, times);
    if !w.Expired(now) {
      forall k | 0 <= k < |times| && Since(w.start.value)(times[k]) ensures Recent(length, now)(times[k]) {
        assert (times + [now])[k] <= (times + [now])[|times|];
      }
      Counting.CountAtMost(times, Since(w.start.value), times, Recent(length, now));
    }
  }

  // ----- the assembler

  const PIECE_LEN: nat := 16384
  const MAX_SIZE: nat := 8 * 1024 * 1024

  datatype Assembly = Assembly(total: nat, pieces: seq<Option<seq<byte>>>)
  {
    predicate Valid() {
      && 0 < total <= MAX_SIZE
      && |pieces| == DivCeil(total, PIECE_LEN)
      && forall i :: 0 <= i < |pieces| && pieces[i].Some? ==> |pieces[i].value| == PieceLen(i)
    }

    function PieceLen(i: nat): nat {
      if i * PIECE_LEN >= total then 0 else Min(total - i * PIECE_LEN, PIECE_LEN)
    }

    predicate Refuses(i: nat, data: seq<byte>) { i >= |pieces| || |data| != PieceLen(i) }

    function Add(i: nat, data: seq<byte>): Assembly {
      if Refuses(i, data) || pieces[i].Some? then this else this.(pieces := pieces[i := Some(data)])
    }

    predicate Complete() { forall i :: 0 <= i < |pieces| ==> pieces[i].Some? }

    function Finish(sha1: seq<byte> -> seq<byte>, expected: seq<byte>): Option<seq<byte>> {
      if Complete() && sha1(Joined(pieces)) == expected then Some(Joined(pieces)) else None
    }
  }

  function Joined(pieces: seq<Option<seq<byte>>>): seq<byte> {
    if pieces == [] then []
    else
      var last := pieces[|pieces| - 1];
      Joined(pieces[..|pieces| - 1]) + (if last.Some? then last.value else [])
  }

  function Held(o: Option<seq<byte>>): bool { o.Some? }

  class MetadataAssembler {
    const totalSize: nat
    var pieces: seq<Option<seq<byte>>>
    var have: nat

    ghost predicate Valid()
      reads this
    {
      View().Valid() && have == Counting.Count(pieces, Held)
    }

    function View(): Assembly
      reads this
    {
      Assembly(totalSize, pieces)
    }

    constructor (totalSize: nat)
      requires 0 < totalSize <= MAX_SIZE
      ensures Valid() && View() == Assembly(totalSize, seq(DivCeil(totalSize, PIECE_LEN), _ => None))
    {
      this.totalSize, have := totalSize, 0;
      pieces := seq(DivCeil(totalSize, PIECE_LEN), _ => None);
      new;
      Counting.CountZero(pieces, Held);
    }

    method AddPiece(index: nat, data: seq<byte>) returns (ok: bool)
      requires Valid()
      modifies this
      ensures Valid() && View() == old(View()).Add(index, data)
      ensures ok <==> !old(View()).Refuses(index, data)
    {
      if index >= |pieces| || |data| != View().PieceLen(index) {
        return false;
      }
      if pieces[index].None? {
        Counting.CountUpdate(pieces, Held, index, Some(data));
        pieces := pieces[index := Some(data)];
        have := have + 1;
      }
      ok := true;
    }

    method Finish(sha1: seq<byte> -> seq<byte>, expected: seq<byte>) returns (r: Option<seq<byte>>)
      requires Valid()
      ensures r == View().Finish(sha1, expected)
    {
      Counting.CountFull(pieces, Held);
      assert have == |pieces| <==> View().Complete();
      if have != |pieces| {
        return None;
      }
      var bytes, k := [], 0;
      while k < |pieces|
        invariant k <= |pieces| && bytes == Joined(pieces[..k])
      {
        assert pieces[..k + 1][..k] == pieces[..k];
        bytes := bytes + pieces[k].value;
        k := k + 1;
      }
      assert pieces[..k] == pieces;
      r := if sha1(bytes) == expected then Some(bytes) else None;
    }
  }

  /** Start assembling a blob of an announced size. */
  method NewAssembler(totalSize: nat) returns (r: Option<MetadataAssembler>)
    ensures r.Some? <==> 0 < totalSize <= MAX_SIZE
    ensures r.Some? ==> fresh(r.value) && r.value.Valid() && r.value.View() == Collected(totalSize, [])
  {
    if totalSize == 0 || totalSize > MAX_SIZE {
      return None;
    }
    var assembler := new MetadataAssembler(totalSize);
    r := Some(assembler);
  }

  /** A received piece: its index and its bytes. */
  type Received = (nat, seq<byte>)

  /** Where an assembly stands after pieces came in, in any order, repeated,
      refused or not. */
  function Collected(total: nat, adds: seq<Received>): Assembly
    requires 0 < total <= MAX_SIZE
  {
    if adds == [] then Assembly(total, seq(DivCeil(total, PIECE_LEN), _ => None))
    else
      var last := adds[|adds| - 1];
      Collected(total, adds[..|adds| - 1]).Add(last.0, last.1)
  }

  /** The bytes of piece `i` of a blob. */
  function Slice(blob: seq<byte>, i: nat): seq<byte> {
    if i * PIECE_LEN >= |blob| then [] else blob[i * PIECE_LEN..Min((i + 1) * PIECE_LEN, |blob|)]
  }

  /** Everything filed was received, and everything received that fits was
      filed or came after something that was. */
  lemma {:induction false} CollectedHolds(total: nat, adds: seq<Received>)
    requires 0 < total <= MAX_SIZE
    ensures var c := Collected(total, adds);
      && c.Valid() && c.total == total
      && (forall i :: 0 <= i < |c.pieces| && c.pieces[i].Some? ==> (i, c.pieces[i].value) in adds)
      && (forall a :: a in adds && !c.Refuses(a.0, a.1) ==> c.pieces[a.0].Some?)
  {
    if adds != [] {
      var init, last := adds[..|adds| - 1], adds[|adds| - 1];
      assert adds == init + [last];
      CollectedHolds(total, init);
    }
  }

  lemma {:induction false} JoinedSlices(a: Assembly, blob: seq<byte>, k: nat)
    requires a.Valid() && k <= |a.pieces| && |blob| == a.total
    requires forall i :: 0 <= i < k ==> a.pieces[i] == Some(Slice(blob, i))
    ensures Joined(a.pieces[..k]) == blob[..Min(k * PIECE_LEN, |blob|)]
  {
    if k > 0 {
      JoinedSlices(a, blob, k - 1);
      assert a.pieces[..k][..k - 1] == a.pieces[..k - 1];
      assert (k - 1) * PIECE_LEN < a.total;
    }
  }

  lemma SliceOfJoined(before: seq<byte>, last: seq<byte>, i: nat, k: nat)
    requires i <= k && |before| == k * PIECE_LEN && 0 < |last| <= PIECE_LEN
    ensures Slice(before + last, i) == if i < k then Slice(before, i) else last
  {
    if i < k { assert (i + 1) * PIECE_LEN <= k * PIECE_LEN; }
  }

  /** The joined pieces of a complete assembly have the announced size, and
      cut up again they are the pieces. */
  lemma {:induction false} JoinedPrefix(a: Assembly, k: nat)
    requires a.Valid() && a.Complete() && k <= |a.pieces|
    ensures |Joined(a.pieces[..k])| == Min(k * PIECE_LEN, a.total)
    ensures forall i :: 0 <= i < k ==> a.pieces[i] == Some(Slice(Joined(a.pieces[..k]), i))
  {
    if k > 0 {
      JoinedPrefix(a, k - 1);
      assert a.pieces[..k][..k - 1] == a.pieces[..k - 1];
      assert (k - 1) * PIECE_LEN < a.total;
      var before, all := Joined(a.pieces[..k - 1]), Joined(a.pieces[..k]);
      assert all == before + a.pieces[k - 1].value;
      forall i | 0 <= i < k ensures a.pieces[i] == Some(Slice(all, i)) {
        SliceOfJoined(before, a.pieces[k - 1].value, i, k - 1);
      }
    }
  }

  /** What comes out of a finished assembly hashes as expected, has the
      announced size, and each piece of it was received as that piece. */
  lemma FinishedIsWhatWasReceived(total: nat, adds: seq<Received>, sha1: seq<byte> -> seq<byte>, expected: seq<byte>)
    requires 0 < total <= MAX_SIZE && Collected(total, adds).Finish(sha1, expected).Some?
    ensures var blob := Collected(total, adds).Finish(sha1, expected).value;
      && sha1(blob) == expected && |blob| == total
      && forall i :: 0 <= i < DivCeil(total, PIECE_LEN) ==> (i, Slice(blob, i)) in adds
  {
    var c := Collected(total, adds);
    CollectedHolds(total, adds);
    JoinedPrefix(c, |c.pieces|);
    assert c.pieces[..|c.pieces|] == c.pieces;
  }

  /** Nothing received passes for a piece of `blob` without being it. */
  ghost predicate Honest(blob: seq<byte>, adds: seq<Received>) {
    forall a :: a in adds && |a.1| == |Slice(blob, a.0)| ==> a.1 == Slice(blob, a.0)
  }

  ghost predicate AllCame(blob: seq<byte>, adds: seq<Received>) {
    forall i :: 0 <= i < DivCeil(|blob|, PIECE_LEN) ==> (i, Slice(blob, i)) in adds
  }

  lemma SliceLen(blob: seq<byte>, a: Assembly, i: nat)
    requires a.total == |blob|
    ensures |Slice(blob, i)| == a.PieceLen(i)
  {}

  lemma HonestPiecesAreSlices(blob: seq<byte>, adds: seq<Received>, i: nat)
    requires 0 < |blob| <= MAX_SIZE && i < DivCeil(|blob|, PIECE_LEN) && Honest(blob, adds)
    ensures var c := Collected(|blob|, adds);
      && c.Valid() && c.total == |blob|
      && c.pieces[i] == if (i, Slice(blob, i)) in adds then Some(Slice(blob, i)) else None
  {
    hide Slice;
    var c := Collected(|blob|, adds);
    CollectedHolds(|blob|, adds);
    SliceLen(blob, c, i);
    if c.pieces[i].Some? {
      assert (i, c.pieces[i].value) in adds;
    }
    if (i, Slice(blob, i)) in adds {
      assert !c.Refuses((i, Slice(blob, i)).0, (i, Slice(blob, i)).1);
    }
  }

  /** From honest senders the blob is put together as soon as every piece has
      come once, whatever the order, the repeats and the misfits between. */
  lemma HonestPiecesAssemble(blob: seq<byte>, adds: seq<Received>, sha1: seq<byte> -> seq<byte>)
    requires 0 < |blob| <= MAX_SIZE && Honest(blob, adds)
    ensures Collected(|blob|, adds).Finish(sha1, sha1(blob)) == if AllCame(blob, adds) then Some(blob) else None
  {
    hide Slice, Honest;
    var c, n := Collected(|blob|, adds), DivCeil(|blob|, PIECE_LEN);
    CollectedHolds(|blob|, adds);
    forall i | 0 <= i < n
      ensures c.pieces[i] == if (i, Slice(blob, i)) in adds then Some(Slice(blob, i)) else None
    {
      HonestPiecesAreSlices(blob, adds, i);
    }
    if AllCame(blob, adds) {
      JoinedSlices(c, blob, n);
      assert c.pieces[..n] == c.pieces;
      assert blob[..Min(n * PIECE_LEN, |blob|)] == blob;
      assert c.Complete();
    } else {
      var i :| 0 <= i < n && (i, Slice(blob, i)) !in adds;
      assert c.pieces[i].None?;
    }
  }
}
