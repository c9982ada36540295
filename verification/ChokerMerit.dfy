// Who a choke round favours, in terms of the rates and ids the scheduler was
// given and of who is unchoked afterwards (crates/clove-core/src/choker.rs).
module ChokerMerit {
  import opened Prelude
  import opened ChokerSpec
  import Counting
  import Sorting

  /** The first peer exchanges more, or as much and has the lower id. */
  predicate Faster(x: Snapshot, y: Snapshot) { x.rate > y.rate || (x.rate == y.rate && x.id < y.id) }

  predicate LeftOut(d: Decision, y: Snapshot) { y.interested && !UnchokedAfter(d, y) }

  /** Everybody unchoked, but the peer named, is faster than everybody who is
      interested and left out. */
  ghost predicate FastestBut(d: Decision, peers: seq<Snapshot>, lucky: Option<nat>) {
    forall x, y :: x in peers && y in peers && UnchokedAfter(d, x) && LeftOut(d, y) && Some(x.id) != lucky ==> Faster(x, y)
  }

  lemma IdAt(peers: seq<Snapshot>, x: Snapshot) returns (i: nat)
    requires DistinctIds(peers) && x in peers && x.interested
    ensures i < |Ranked(peers)| == |Ids(Ranked(peers))| && Ranked(peers)[i] == x && Ids(Ranked(peers))[i] == x.id
  {
    RankedFacts(peers);
    assert x in Ranked(peers);
    i :| 0 <= i < |Ranked(peers)| && Ranked(peers)[i] == x;
  }

  lemma ChosenInterested(slots: nat, round: nat, peers: seq<Snapshot>, x: Snapshot)
    requires slots > 0 && DistinctIds(peers) && x in peers && x.id in Chosen(slots, round, peers)
    ensures x.interested
  {
    ChosenFitsTheSlots(slots, round, peers);
    var p :| p in peers && p.interested && p.id == x.id;
    SameId(peers, p, x);
  }

  lemma SameId(peers: seq<Snapshot>, p: Snapshot, q: Snapshot)
    requires DistinctIds(peers) && p in peers && q in peers && p.id == q.id
    ensures p == q
  {
    var i :| 0 <= i < |peers| && peers[i] == p;
    var j :| 0 <= j < |peers| && peers[j] == q;
  }

  /** What is chosen: the head of the ranking and, in an optimistic round with
      losers, one of them in place of the last. */
  lemma ChosenShape(slots: nat, round: nat, peers: seq<Snapshot>)
    requires slots > 0 && DistinctIds(peers)
    ensures var ids, pick := Ids(Ranked(peers)), Optimistic(round, Losers(slots, peers));
      var n := if pick.Some? then slots - 1 else Min(slots, |ids|);
      && n <= |ids| && (pick.Some? ==> |ids| > slots && pick.value in ids)
      && Chosen(slots, round, peers) == ids[..n] + (if pick.Some? then [pick.value] else [])
  {
    LosersFacts(slots, peers);
    var ids, regular := Ids(Ranked(peers)), Regular(slots, peers);
    var pick := Optimistic(round, Losers(slots, peers));
    if pick.Some? {
      assert pick.value in Losers(slots, peers);
      assert regular == ids[..slots];
      assert regular[..slots - 1] == ids[..slots - 1];
    } else {
      assert regular == ids[..Min(slots, |ids|)];
      assert regular + [] == regular;
    }
  }

  /** In every round all unchoked peers but at most one are faster than every
      interested peer left out; in a round that is not optimistic, all are. */
  lemma FastestAreServed(slots: nat, round: nat, peers: seq<Snapshot>)
    requires slots > 0 && DistinctIds(peers)
    ensures exists lucky :: FastestBut(Plan(slots, round, peers), peers, lucky)
    ensures round % 3 != 0 ==> FastestBut(Plan(slots, round, peers), peers, None)
  {
    var pick, d := Optimistic(round, Losers(slots, peers)), Plan(slots, round, peers);
    forall x, y | x in peers && y in peers && UnchokedAfter(d, x) && LeftOut(d, y) && Some(x.id) != pick ensures Faster(x, y) {
      FasterThanTheRest(slots, round, peers, x, y);
    }
    assert FastestBut(d, peers, pick);
  }

  lemma FasterThanTheRest(slots: nat, round: nat, peers: seq<Snapshot>, x: Snapshot, y: Snapshot)
    requires slots > 0 && DistinctIds(peers) && x in peers && y in peers
    requires UnchokedAfter(Plan(slots, round, peers), x) && LeftOut(Plan(slots, round, peers), y)
    requires Some(x.id) != Optimistic(round, Losers(slots, peers))
    ensures Faster(x, y)
  {
    hide Ranked, Optimistic, Losers, Chosen, Ids, Decide;
    var chosen := Chosen(slots, round, peers);
    DecisionRealisesTheChoice(chosen, peers);
    ChosenInterested(slots, round, peers, x);
    ChosenShape(slots, round, peers);
    var i := IdAt(peers, x);
    var j := IdAt(peers, y);
    var ids, pick := Ids(Ranked(peers)), Optimistic(round, Losers(slots, peers));
    var n := if pick.Some? then slots - 1 else Min(slots, |ids|);
    assert x.id in ids[..n];
    var k :| 0 <= k < n && ids[k] == x.id;
    RankedIdsDistinct(peers, i, k);
    HeadHolds(ids, n);
    RankedFacts(peers);
    assert Rank()(Ranked(peers)[i], Ranked(peers)[j]);
    assert x.id != y.id;
  }

  lemma HeadHolds(ids: seq<nat>, n: nat)
    requires n <= |ids|
    ensures forall k :: 0 <= k < n ==> ids[k] in ids[..n]
  {
    forall k | 0 <= k < n ensures ids[k] in ids[..n] { assert ids[..n][k] == ids[k]; }
  }

  lemma RankedIdsDistinct(peers: seq<Snapshot>, i: nat, k: nat)
    requires DistinctIds(peers) && i < |Ranked(peers)| && k < |Ids(Ranked(peers))| && Ids(Ranked(peers))[i] == Ids(Ranked(peers))[k]
    ensures i == k
  {
    RankedFacts(peers);
  }

  /** Who is unchoked afterwards, by id. */
  function On(d: Decision, peers: seq<Snapshot>): set<nat> { set p | p in peers && UnchokedAfter(d, p) :: p.id }

  /** No slot stands free while an interested peer is left out, and no peer that
      is not interested holds one. */
  lemma SlotsAreUsed(slots: nat, round: nat, peers: seq<Snapshot>)
    requires slots > 0 && DistinctIds(peers)
    ensures var d := Plan(slots, round, peers);
      && |On(d, peers)| <= slots
      && (forall x :: x in peers && UnchokedAfter(d, x) ==> x.interested)
      && ((exists y :: y in peers && LeftOut(d, y)) ==> |On(d, peers)| == slots)
  {
    hide Ranked, Optimistic, Losers, Chosen, Ids, Decide;
    var d, chosen := Plan(slots, round, peers), Chosen(slots, round, peers);
    DecisionRealisesTheChoice(chosen, peers);
    ChosenFitsTheSlots(slots, round, peers);
    forall x | x in peers && UnchokedAfter(d, x) ensures x.interested { ChosenInterested(slots, round, peers, x); }
    OnIsChosen(slots, round, peers);
    SetOfDistinct(chosen);
    if y :| y in peers && LeftOut(d, y) {
      ChosenShape(slots, round, peers);
      var j := IdAt(peers, y);
      var n := Min(slots, |Ids(Ranked(peers))|);
      HeadHolds(Ids(Ranked(peers)), n);
    }
  }

  lemma OnIsChosen(slots: nat, round: nat, peers: seq<Snapshot>)
    requires slots > 0 && DistinctIds(peers)
    ensures On(Plan(slots, round, peers), peers) == Counting.IdSet(Chosen(slots, round, peers))
  {
    hide Chosen, Decide;
    DecisionRealisesTheChoice(Chosen(slots, round, peers), peers);
    ChosenFitsTheSlots(slots, round, peers);
  }

  lemma {:induction false} SetOfDistinct(xs: seq<nat>)
    requires Sorting.Distinct(xs)
    ensures |Counting.IdSet(xs)| == |xs|
  {
    if xs == [] {
      assert Counting.IdSet(xs) == {};
    } else {
      var init, last := xs[..|xs| - 1], xs[|xs| - 1];
      SetOfDistinct(init);
      assert xs == init + [last] && last !in init;
      assert Counting.IdSet(xs) == Counting.IdSet(init) + {last};
    }
  }
}
