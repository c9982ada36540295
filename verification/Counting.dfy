// Counting the entries of a table that satisfy a test: the arithmetic behind
// "how many connected peers hold this piece / owe this block / are unchoked".
module Counting {
  function Count<T>(s: seq<T>, f: T -> bool): nat {
    if s == [] then 0
    else Count(s[..|s| - 1], f) + (if f(s[|s| - 1]) then 1 else 0)
  }

  lemma {:induction false} CountUpdate<T>(s: seq<T>, f: T -> bool, i: nat, v: T)
    requires i < |s|
    ensures Count(s[i := v], f) + (if f(s[i]) then 1 else 0) == Count(s, f) + (if f(v) then 1 else 0)
  {
    var t := s[i := v];
    if i == |s| - 1 {
      assert t[..|s| - 1] == s[..|s| - 1];
    } else {
      assert t[..|s| - 1] == s[..|s| - 1][i := v];
      CountUpdate(s[..|s| - 1], f, i, v);
    }
  }

  lemma CountPush<T>(s: seq<T>, f: T -> bool, v: T)
    ensures Count(s + [v], f) == Count(s, f) + (if f(v) then 1 else 0)
  {
    assert (s + [v])[..|s|] == s;
  }

  /** `Vec::swap_remove`: the last entry takes the removed one's place. */
  function SwapRemove<T>(s: seq<T>, i: nat): seq<T>
    requires i < |s|
  {
    if i == |s| - 1 then s[..i] else s[..|s| - 1][i := s[|s| - 1]]
  }

  lemma CountSwapRemove<T>(s: seq<T>, f: T -> bool, i: nat)
    requires i < |s|
    ensures Count(SwapRemove(s, i), f) + (if f(s[i]) then 1 else 0) == Count(s, f)
  {
    if i < |s| - 1 {
      CountUpdate(s[..|s| - 1], f, i, s[|s| - 1]);
    }
  }

  /** Entry-by-entry agreement of two tables under two tests. */
  lemma {:induction false} CountSame<T, U>(s: seq<T>, f: T -> bool, t: seq<U>, g: U -> bool)
    requires |s| == |t|
    requires forall k :: 0 <= k < |s| ==> f(s[k]) == g(t[k])
    ensures Count(s, f) == Count(t, g)
  {
    if s != [] {
      CountSame(s[..|s| - 1], f, t[..|t| - 1], g);
    }
  }

  lemma {:induction false} CountAtMost<T, U>(s: seq<T>, f: T -> bool, t: seq<U>, g: U -> bool)
    requires |s| == |t|
    requires forall k :: 0 <= k < |s| ==> f(s[k]) ==> g(t[k])
    ensures Count(s, f) <= Count(t, g)
  {
    if s != [] {
      CountAtMost(s[..|s| - 1], f, t[..|t| - 1], g);
    }
  }

  lemma {:induction false} CountZero<T>(s: seq<T>, f: T -> bool)
    ensures Count(s, f) == 0 <==> forall k :: 0 <= k < |s| ==> !f(s[k])
  {
    if s != [] {
      CountZero(s[..|s| - 1], f);
      assert forall k :: 0 <= k < |s| - 1 ==> s[..|s| - 1][k] == s[k];
      if Count(s, f) == 0 {
        forall k | 0 <= k < |s| ensures !f(s[k]) {
          if k < |s| - 1 { assert !f(s[..|s| - 1][k]); }
        }
      }
    }
  }

  lemma {:induction false} CountFull<T>(s: seq<T>, f: T -> bool)
    ensures Count(s, f) <= |s|
    ensures Count(s, f) == |s| <==> forall k :: 0 <= k < |s| ==> f(s[k])
  {
    if s != [] {
      CountFull(s[..|s| - 1], f);
      assert forall k :: 0 <= k < |s| - 1 ==> s[..|s| - 1][k] == s[k];
      if Count(s, f) == |s| {
        forall k | 0 <= k < |s| ensures f(s[k]) {
          if k < |s| - 1 { assert f(s[..|s| - 1][k]); }
        }
      }
    }
  }

  function IdSet(xs: seq<nat>): set<nat> { set x: nat | x in xs }

  /** Entries with pairwise distinct keys in `ks` are no more than `ks`. */
  lemma {:induction false} CountKeys<T>(s: seq<T>, f: T -> bool, key: T -> nat, ks: set<nat>)
    requires forall i, j :: 0 <= i < j < |s| ==> key(s[i]) != key(s[j])
    requires forall k :: 0 <= k < |s| && f(s[k]) ==> key(s[k]) in ks
    ensures Count(s, f) <= |ks|
  {
    if s != [] {
      var init, last := s[..|s| - 1], s[|s| - 1];
      if f(last) {
        forall k | 0 <= k < |init| && f(init[k]) ensures key(init[k]) in ks - {key(last)} {
          assert init[k] == s[k];
        }
        CountKeys(init, f, key, ks - {key(last)});
      } else {
        CountKeys(init, f, key, ks);
      }
    }
  }
}
