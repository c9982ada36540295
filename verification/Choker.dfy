// The choke scheduler of crates/clove-core/src/choker.rs.
module Chokers {
  import opened Prelude
  import opened ChokerSpec
  import Sorting

  class Choker {
    var maxUnchoked: nat
    var round: nat

    ghost predicate Valid()
      reads this
    {
      maxUnchoked > 0
    }

    constructor (maxUnchoked: nat)
      ensures Valid() && round == 0 && this.maxUnchoked == Max(maxUnchoked, 1)
    {
      this.maxUnchoked := Max(maxUnchoked, 1);
      round := 0;
    }

    /** Advance one round and compute the choke changes. */
    method Plan(peers: seq<Snapshot>) returns (d: Decision)
      requires Valid()
      modifies this`round
      ensures round == old(round) + 1
      ensures d == ChokerSpec.Plan(maxUnchoked, round, peers)
    {
      round := round + 1;
      var interested := FilterInterested(peers);
      var ids := Ids(Sorting.Sort(Rank(), interested));
      var chosen := if |ids| <= maxUnchoked then ids else ids[..maxUnchoked];
      var candidates := FilterOut(ids, chosen);
      if round % 3 == 0 && candidates != [] {
        // Indexed by the optimistic round, not the round.
        var pick := candidates[(round / 3) % |candidates|];
        // Free a slot by dropping the lowest-rate regular pick.
        if |chosen| >= maxUnchoked && chosen != [] {
          chosen := chosen[..|chosen| - 1];
        }
        chosen := chosen + [pick];
      }
      d := Changes(chosen, peers);
    }
  }

  method FilterInterested(peers: seq<Snapshot>) returns (interested: seq<Snapshot>)
    ensures interested == Interested(peers)
  {
    interested := [];
    var i := 0;
    while i < |peers|
      invariant i <= |peers| && interested == Interested(peers[..i])
    {
      assert peers[..i + 1][..i] == peers[..i];
      if peers[i].interested {
        interested := interested + [peers[i]];
      }
      i := i + 1;
    }
    assert peers[..i] == peers;
  }

  method FilterOut(ids: seq<nat>, chosen: seq<nat>) returns (rest: seq<nat>)
    ensures rest == Without(ids, chosen)
  {
    rest := [];
    var i := 0;
    while i < |ids|
      invariant i <= |ids| && rest == Without(ids[..i], chosen)
    {
      assert ids[..i + 1][..i] == ids[..i];
      if ids[i] !in chosen {
        rest := rest + [ids[i]];
      }
      i := i + 1;
    }
    assert ids[..i] == ids;
  }

  method Changes(chosen: seq<nat>, peers: seq<Snapshot>) returns (d: Decision)
    ensures d == Decide(chosen, peers)
  {
    d := Decision([], []);
    var i := 0;
    while i < |peers|
      invariant i <= |peers| && d == Decide(chosen, peers[..i])
    {
      assert peers[..i + 1][..i] == peers[..i];
      var want := peers[i].id in chosen;
      if want && !peers[i].unchoked {
        d := d.(unchoke := d.unchoke + [peers[i].id]);
      } else if !want && peers[i].unchoked {
        d := d.(choke := d.choke + [peers[i].id]);
      }
      i := i + 1;
    }
    assert peers[..i] == peers;
  }
}
