// Who is unchoked in a choke round (crates/clove-core/src/choker.rs), as a
// function of the round number and the peers' snapshots, and what follows.
module ChokerSpec {
  import opened Prelude
  import Counting
  import Sorting

  datatype Snapshot = Snapshot(id: nat, interested: bool, rate: nat, unchoked: bool)

  datatype Decision = Decision(unchoke: seq<nat>, choke: seq<nat>)

  /** Best rate first, ties by id. */
  predicate RankLeq(a: Snapshot, b: Snapshot) {
    a.rate > b.rate || (a.rate == b.rate && a.id <= b.id)
  }

  function Rank(): (Snapshot, Snapshot) -> bool { (a, b) => RankLeq(a, b) }

  function Interested(peers: seq<Snapshot>): seq<Snapshot> {
    if peers == [] then []
    else Interested(peers[..|peers| - 1]) + (if peers[|peers| - 1].interested then [peers[|peers| - 1]] else [])
  }

  function Ranked(peers: seq<Snapshot>): seq<Snapshot> { Sorting.Sort(Rank(), Interested(peers)) }

  function Ids(peers: seq<Snapshot>): seq<nat> { seq(|peers|, k requires 0 <= k < |peers| => peers[k].id) }

  /** The peers unchoked on merit. */
  function Regular(slots: nat, peers: seq<Snapshot>): seq<nat> {
    var ids := Ids(Ranked(peers));
    if |ids| <= slots then ids else ids[..slots]
  }

  function Without(ids: seq<nat>, chosen: seq<nat>): seq<nat> {
    if ids == [] then []
    else Without(ids[..|ids| - 1], chosen) + (if ids[|ids| - 1] in chosen then [] else [ids[|ids| - 1]])
  }

  /** Interested peers that merit leaves out, in rank order. */
  function Losers(slots: nat, peers: seq<Snapshot>): seq<nat> {
    Without(Ids(Ranked(peers)), Regular(slots, peers))
  }

  /** The loser given a turn in this round, if this is an optimistic round. */
  function Optimistic(round: nat, losers: seq<nat>): Option<nat> {
    if round % 3 == 0 && losers != [] then Some(losers[(round / 3) % |losers|]) else None
  }

  /** Free a slot by dropping the lowest-ranked regular, if none is free. */
  function Seat(slots: nat, regular: seq<nat>, pick: nat): seq<nat> {
    (if |regular| >= slots && regular != [] then regular[..|regular| - 1] else regular) + [pick]
  }

  function Chosen(slots: nat, round: nat, peers: seq<Snapshot>): seq<nat> {
    var regular := Regular(slots, peers);
    match Optimistic(round, Losers(slots, peers))
    case None => regular
    case Some(pick) => Seat(slots, regular, pick)
  }

  /** Tell only the peers whose state changes. */
  function Decide(chosen: seq<nat>, peers: seq<Snapshot>): Decision {
    if peers == [] then Decision([], [])
    else
      var d, p := Decide(chosen, peers[..|peers| - 1]), peers[|peers| - 1];
      if p.id in chosen && !p.unchoked then d.(unchoke := d.unchoke + [p.id])
      else if p.id !in chosen && p.unchoked then d.(choke := d.choke + [p.id])
      else d
  }

  function Plan(slots: nat, round: nat, peers: seq<Snapshot>): Decision {
    Decide(Chosen(slots, round, peers), peers)
  }

  ghost predicate DistinctIds(peers: seq<Snapshot>) {
    forall i, j :: 0 <= i < j < |peers| ==> peers[i].id != peers[j].id
  }

  // ----- who is ranked

  lemma {:induction false} InterestedMembers(peers: seq<Snapshot>)
    ensures forall p :: p in Interested(peers) <==> p in peers && p.interested
    ensures DistinctIds(peers) ==> DistinctIds(Interested(peers))
  {
    if peers != [] {
      var init, last := peers[..|peers| - 1], peers[|peers| - 1];
      InterestedMembers(init);
      assert peers == init + [last];
      if DistinctIds(peers) {
        assert DistinctIds(init);
        forall i | 0 <= i < |Interested(init)| ensures Interested(init)[i].id != last.id {
          assert Interested(init)[i] in init;
        }
      }
    }
  }

  lemma RankedFacts(peers: seq<Snapshot>)
    requires DistinctIds(peers)
    ensures forall p :: p in Ranked(peers) <==> p in peers && p.interested
    ensures DistinctIds(Ranked(peers))
    ensures Sorting.SortedBy(Rank(), Ranked(peers))
  {
    var s := Interested(peers);
    InterestedMembers(peers);
    Sorting.SortMembers(Rank(), s);
    Sorting.SortSorts(Rank(), s);
    assert Sorting.Distinct(s);
    Sorting.SortDistinct(Rank(), s);
    var r := Ranked(peers);
    forall i, j | 0 <= i < j < |r| ensures r[i].id != r[j].id {
      assert r[i] in s && r[j] in s && r[i] != r[j];
    }
  }

  lemma {:induction false} WithoutMembers(ids: seq<nat>, chosen: seq<nat>)
    ensures forall x :: x in Without(ids, chosen) <==> x in ids && x !in chosen
    ensures Sorting.Distinct(ids) ==> Sorting.Distinct(Without(ids, chosen))
  {
    if ids != [] {
      var init := ids[..|ids| - 1];
      WithoutMembers(init, chosen);
      assert ids == init + [ids[|ids| - 1]];
      if Sorting.Distinct(ids) {
        assert Sorting.Distinct(init);
        assert ids[|ids| - 1] !in init;
      }
    }
  }

  lemma LosersFacts(slots: nat, peers: seq<Snapshot>)
    requires DistinctIds(peers)
    ensures Sorting.Distinct(Losers(slots, peers))
    ensures forall x :: x in Losers(slots, peers) ==> x in Ids(Ranked(peers)) && x !in Regular(slots, peers)
    ensures Losers(slots, peers) != [] ==> |Regular(slots, peers)| == slots
  {
    RankedFacts(peers);
    var ids := Ids(Ranked(peers));
    assert Sorting.Distinct(ids);
    WithoutMembers(ids, Regular(slots, peers));
    if Losers(slots, peers) != [] {
      assert Losers(slots, peers)[0] in Losers(slots, peers);
    }
  }

  // ----- the slot bound

  /** Every round chooses interested peers only, each once, and no more than
      there are slots. */
  lemma ChosenFitsTheSlots(slots: nat, round: nat, peers: seq<Snapshot>)
    requires slots > 0 && DistinctIds(peers)
    ensures |Chosen(slots, round, peers)| <= slots
    ensures Sorting.Distinct(Chosen(slots, round, peers))
    ensures forall x :: x in Chosen(slots, round, peers) ==> exists p :: p in peers && p.interested && p.id == x
  {
    LosersFacts(slots, peers);
    var ids := Ids(Ranked(peers));
    DistinctRankedIds(peers);
    PrefixDistinct(ids, slots);
    var pick := Optimistic(round, Losers(slots, peers));
    if pick.Some? {
      assert pick.value in Losers(slots, peers);
      SeatFits(slots, Regular(slots, peers), pick.value);
    }
    forall x | x in Chosen(slots, round, peers) ensures exists p :: p in peers && p.interested && p.id == x {
      assert x in ids;
      RankedIdIsInterested(peers, x);
    }
  }

  lemma PrefixDistinct(ids: seq<nat>, n: nat)
    requires Sorting.Distinct(ids)
    ensures |ids| > n ==> Sorting.Distinct(ids[..n])
  {}

  lemma SeatFits(slots: nat, regular: seq<nat>, pick: nat)
    requires 0 < slots && |regular| <= slots && Sorting.Distinct(regular) && pick !in regular
    ensures |Seat(slots, regular, pick)| <= slots && Sorting.Distinct(Seat(slots, regular, pick))
    ensures forall x :: x in Seat(slots, regular, pick) ==> x == pick || x in regular
  {}

  lemma DistinctRankedIds(peers: seq<Snapshot>)
    requires DistinctIds(peers)
    ensures Sorting.Distinct(Ids(Ranked(peers)))
  {
    RankedFacts(peers);
  }

  lemma RankedIdIsInterested(peers: seq<Snapshot>, x: nat)
    requires DistinctIds(peers) && x in Ids(Ranked(peers))
    ensures exists p :: p in peers && p.interested && p.id == x
  {
    RankedFacts(peers);
    var k :| 0 <= k < |Ids(Ranked(peers))| && Ids(Ranked(peers))[k] == x;
    assert Ranked(peers)[k] in Ranked(peers);
  }

  /** Merit: all slots but one always go to the best-ranked interested peers,
      and outside optimistic rounds all of them do. */
  lemma MeritFirst(slots: nat, round: nat, peers: seq<Snapshot>, k: nat)
    requires slots > 0 && DistinctIds(peers)
    requires k < |Ranked(peers)|
    requires k + 1 < slots || (k < slots && round % 3 != 0)
    ensures Ranked(peers)[k].id in Chosen(slots, round, peers)
  {
    LosersFacts(slots, peers);
    var regular := Regular(slots, peers);
    assert regular[k] == Ranked(peers)[k].id;
    if Optimistic(round, Losers(slots, peers)).Some? {
      assert regular[..|regular| - 1][k] == regular[k];
    }
  }

  // ----- the decision

  lemma {:induction false} DecideMembers(chosen: seq<nat>, peers: seq<Snapshot>)
    ensures forall x :: x in Decide(chosen, peers).unchoke <==>
      x in chosen && exists p :: p in peers && p.id == x && !p.unchoked
    ensures forall x :: x in Decide(chosen, peers).choke <==>
      x !in chosen && exists p :: p in peers && p.id == x && p.unchoked
  {
    if peers != [] {
      DecideMembers(chosen, peers[..|peers| - 1]);
      assert peers == peers[..|peers| - 1] + [peers[|peers| - 1]];
    }
  }

  /** Whether a peer is unchoked once a decision has been applied. */
  predicate UnchokedAfter(d: Decision, p: Snapshot) { p.id in d.unchoke || (p.unchoked && p.id !in d.choke) }

  /** Applying the decision leaves exactly the chosen peers unchoked, no peer
      is told two things, and nobody unknown is told anything. */
  lemma DecisionRealisesTheChoice(chosen: seq<nat>, peers: seq<Snapshot>)
    requires DistinctIds(peers)
    ensures var d := Decide(chosen, peers);
      && (forall p :: p in peers ==> (UnchokedAfter(d, p) <==> p.id in chosen))
      && (forall x :: x in d.unchoke ==> x !in d.choke)
      && (forall x :: x in d.unchoke || x in d.choke ==> exists p :: p in peers && p.id == x)
  {
    DecideMembers(chosen, peers);
  }

  // ----- fairness

  /** The optimistic round in which the loser at position `j` gets its turn,
      in the `3n` rounds after round `r`. */
  function TurnOf(r: nat, n: nat, j: nat): nat
    requires j < n
  {
    var q := r / 3 + 1;
    3 * (q + (j + n - q % n) % n)
  }

  lemma ModShift(q: nat, n: nat, j: nat)
    requires j < n
    ensures (q + (j + n - q % n) % n) % n == j
  {
    var t := q % n;
    var d := (j + n - t) % n;
    assert d == if j >= t then j - t else j + n - t by {
      if j >= t { ModUnique(j + n - t, 1, j - t, n); } else { ModUnique(j + n - t, 0, j + n - t, n); }
    }
    assert q == (q / n) * n + t;
    if j >= t {
      ModUnique(q + d, q / n, j, n);
    } else {
      assert (q / n + 1) * n == (q / n) * n + n;
      ModUnique(q + d, q / n + 1, j, n);
    }
  }

  lemma MultipleIsFar(d: int, n: int)
    requires n > 0
    ensures d >= 1 ==> d * n >= n
    ensures d <= -1 ==> d * n <= -n
  {}

  lemma ModUnique(x: int, k: int, r: int, n: int)
    requires 0 <= r < n && x == k * n + r
    ensures x % n == r && x / n == k
  {
    var d := x / n - k;
    assert x == (x / n) * n + x % n;
    assert d * n == r - x % n by { assert (x / n) * n - k * n == d * n; }
    MultipleIsFar(d, n);
  }

  /** Two numbers less than `n` apart with the same remainder are the same. */
  lemma SameRemainder(x: nat, y: nat, n: nat)
    requires n > 0 && x <= y < x + n && x % n == y % n
    ensures x == y
  {
    assert x == (x / n) * n + x % n && y == (y / n) * n + y % n;
    var d := y / n - x / n;
    assert d * n == y - x by { assert (y / n) * n - (x / n) * n == d * n; }
    MultipleIsFar(d, n);
  }

  lemma SameTurn(r: nat, losers: seq<nat>, x: nat, u: nat, v: nat)
    requires Sorting.Distinct(losers) && r < u <= v <= r + 3 * |losers|
    requires Optimistic(u, losers) == Some(x) && Optimistic(v, losers) == Some(x)
    ensures u == v
  {
    assert losers[(u / 3) % |losers|] == losers[(v / 3) % |losers|] == x;
    SameRemainder(u / 3, v / 3, |losers|);
  }

  lemma TurnComes(r: nat, losers: seq<nat>, j: nat)
    requires j < |losers|
    ensures var t := TurnOf(r, |losers|, j); r < t <= r + 3 * |losers| && Optimistic(t, losers) == Some(losers[j])
  {
    var n, q := |losers|, r / 3 + 1;
    ModShift(q, n, j);
    var turn := q + (j + n - q % n) % n;
    assert TurnOf(r, n, j) == 3 * turn && (3 * turn) / 3 == turn && (3 * turn) % 3 == 0;
  }

  /** Optimistic fairness: as long as the losers stay the same, any `3n`
      consecutive rounds give each of the `n` losers the optimistic slot in
      exactly one round, whatever round the window starts after. */
  lemma EveryLoserGetsOneTurn(r: nat, losers: seq<nat>, x: nat)
    requires Sorting.Distinct(losers) && x in losers
    ensures exists t: nat :: r < t <= r + 3 * |losers| && Optimistic(t, losers) == Some(x)
    ensures forall t: nat, u: nat ::
      (r < t <= r + 3 * |losers| && Optimistic(t, losers) == Some(x)) &&
      (r < u <= r + 3 * |losers| && Optimistic(u, losers) == Some(x)) ==>
      t == u
  {
    hide Optimistic;
    var n := |losers|;
    var j: nat :| j < n && losers[j] == x;
    TurnComes(r, losers, j);
    forall u: nat, v: nat | r < u <= r + 3 * n && r < v <= r + 3 * n
      && Optimistic(u, losers) == Some(x) && Optimistic(v, losers) == Some(x)
      ensures u == v
    {
      if u <= v { SameTurn(r, losers, x, u, v); } else { SameTurn(r, losers, x, v, u); }
    }
  }

  /** The same over a run of rounds: the peers may change in any way that
      leaves the list of losers alone. */
  lemma StableLosersAreServed(slots: nat, r: nat, rounds: seq<seq<Snapshot>>, losers: seq<nat>, x: nat)
    requires slots > 0 && x in losers && |rounds| == 3 * |losers|
    requires forall k :: 0 <= k < |rounds| ==> DistinctIds(rounds[k]) && Losers(slots, rounds[k]) == losers
    ensures exists k :: 0 <= k < |rounds| && x in Chosen(slots, r + 1 + k, rounds[k])
    ensures forall k, l ::
      (0 <= k < |rounds| && x in Chosen(slots, r + 1 + k, rounds[k])) &&
      (0 <= l < |rounds| && x in Chosen(slots, r + 1 + l, rounds[l])) ==>
      k == l
  {
    forall k | 0 <= k < |rounds|
      ensures Sorting.Distinct(losers)
      ensures x in Chosen(slots, r + 1 + k, rounds[k]) <==> Optimistic(r + 1 + k, losers) == Some(x)
    {
      LosersFacts(slots, rounds[k]);
      assert x !in Regular(slots, rounds[k]);
    }
    assert Sorting.Distinct(losers) by { LosersFacts(slots, rounds[0]); }
    EveryLoserGetsOneTurn(r, losers, x);
    var t: nat :| r < t <= r + 3 * |losers| && Optimistic(t, losers) == Some(x);
    assert r + 1 + (t - r - 1) == t;
    assert x in Chosen(slots, r + 1 + (t - r - 1), rounds[t - r - 1]);
  }
}
