// The client-wide ceiling on peer connections (crates/clove-core/src/budget.rs)
// and the attach and drop paths of crates/clove-core/src/torrent.rs that claim
// and return its slots, interleaved over any number of threads and torrents.
module Budget {
  import opened Prelude
  import opened Wire
  import opened DiskSpec
  import opened EngineSpec
  import opened PickerSpec
  import EngineBans
  import Counting

  // ----- the counter

  /** The shared counter; each method is one atomic operation on it. */
  class PeerBudget {
    const limit: nat
    var taken: nat

    constructor (limit: nat)
      ensures this.limit == limit && taken == 0
    {
      this.limit, taken := limit, 0;
    }

    /** `compare_exchange_weak`, which may fail for no reason. */
    method CompareExchangeWeak(expected: nat, desired: nat, spurious: bool) returns (r: Result<nat, nat>)
      modifies this
      ensures r.Ok? <==> old(taken) == expected && !spurious
      ensures taken == if r.Ok? then desired else old(taken)
      ensures r.Err? ==> r.error == old(taken)
    {
      if taken == expected && !spurious {
        r := Ok(taken);
        taken := desired;
      } else {
        r := Err(taken);
      }
    }

    /** The claim loop with nobody else about: it gets a slot exactly when one
        is free, however often the exchange fails spuriously first. */
    method Claim(failures: nat) returns (ok: bool)
      modifies this
      ensures ok <==> old(taken) < limit
      ensures taken == old(taken) + (if ok then 1 else 0)
    {
      var seen, left := taken, failures;
      while true
        invariant seen == taken == old(taken)
        decreases left
      {
        if seen >= limit {
          return false;
        }
        var r := CompareExchangeWeak(seen, seen + 1, left > 0);
        match r {
          case Ok(_) => return true;
          case Err(actual) => seen, left := actual, left - 1;
        }
      }
    }

    /** A slot dropped: `fetch_sub`, which wraps below zero. */
    method Drop()
      modifies this
      ensures taken == WrappingDec(old(taken))
    {
      taken := if taken == 0 then USIZE_MAX else taken - 1;
    }
  }

  function WrappingDec(n: nat): nat { if n == 0 then USIZE_MAX else n - 1 }

  // ----- threads sharing it

  /** Where a thread stands: not involved; in the claim loop, having read the
      counter as `seen` since moment `began`; holding a slot for a connection
      being attached; or holding one about to be dropped. */
  datatype Thread = Idle | Claiming(seen: nat, began: nat) | Attaching | Leaving

  /** A torrent and what its metainfo says. */
  datatype Torrent = Torrent(m: Meta, state: State)

  /** One budget, its threads and its torrents. `history` is the value of the
      counter at every moment so far. */
  datatype Client = Client(limit: nat, taken: nat, threads: seq<Thread>, torrents: seq<Torrent>, history: seq<nat>)
  {
    function Put(t: nat, th: Thread): Client
      requires t < |threads|
    {
      this.(threads := threads[t := th])
    }

    function PutTorrent(k: nat, s: State): Client
      requires k < |torrents|
    {
      this.(torrents := torrents[k := torrents[k].(state := s)])
    }
  }

  datatype Action =
    | Load(thread: nat)
    | Attempt(thread: nat, spurious: bool)
    | Seat(thread: nat, torrent: nat, dest: Dest, fast: bool)
    | Abandon(thread: nat)
    | Unseat(thread: nat, torrent: nat, id: nat)
    | Return(thread: nat)
    | Work(torrent: nat, event: Event)

  /** A thread begins a claim by reading the counter. */
  function OnLoad(c: Client, t: nat): Client
    requires t < |c.threads| && c.history != []
  {
    if c.threads[t].Idle? then c.Put(t, Claiming(c.taken, |c.history| - 1)) else c
  }

  /** One turn of the claim loop: give up if the count read was full, else try
      to exchange it for one more. */
  function OnAttempt(c: Client, t: nat, spurious: bool): Client
    requires t < |c.threads|
  {
    var th := c.threads[t];
    if !th.Claiming? then c
    else if th.seen >= c.limit then c.Put(t, Idle)
    else if c.taken == th.seen && !spurious then c.Put(t, Attaching).(taken := c.taken + 1)
    else c.Put(t, Claiming(c.taken, th.began))
  }

  /** A connection enters the peer table with its slot, or is refused and its
      slot is on the way out. */
  function OnSeat(c: Client, t: nat, k: nat, dest: Dest, fast: bool): Client
    requires t < |c.threads| && k < |c.torrents|
  {
    var s := c.torrents[k].state;
    if !c.threads[t].Attaching? then c
    else if Refused(s, dest) then c.Put(t, Leaving)
    else c.Put(t, Idle).PutTorrent(k, RegisterPeer(s, dest, fast))
  }

  /** A peer leaves the table; its slot is on the way out. */
  function OnUnseat(c: Client, t: nat, k: nat, id: nat): Client
    requires t < |c.threads| && k < |c.torrents|
  {
    var s := c.torrents[k].state;
    if !c.threads[t].Idle? || Find(s.peers, id).None? then c
    else c.Put(t, Leaving).PutTorrent(k, RemovePeer(s, id))
  }

  /** Any other step of a torrent: a message, a tick, a setting. */
  ghost function OnWork(c: Client, k: nat, e: Event): Client
    requires k < |c.torrents|
  {
    var t := c.torrents[k];
    if e.Register? || e.DropPeer? || |t.state.disk| != Total(t.m.files) then c
    else c.PutTorrent(k, Step(t.m, t.state, e).state)
  }

  ghost function Act(c: Client, a: Action): Client
    requires c.history != []
  {
    match a
    case Load(t) => if t < |c.threads| then OnLoad(c, t) else c
    case Attempt(t, spurious) => if t < |c.threads| then OnAttempt(c, t, spurious) else c
    case Seat(t, k, dest, fast) =>
      if t < |c.threads| && k < |c.torrents| then OnSeat(c, t, k, dest, fast) else c
    case Abandon(t) => if t < |c.threads| && c.threads[t].Attaching? then c.Put(t, Leaving) else c
    case Unseat(t, k, id) =>
      if t < |c.threads| && k < |c.torrents| then OnUnseat(c, t, k, id) else c
    case Return(t) =>
      if t < |c.threads| && c.threads[t].Leaving?
      then c.Put(t, Idle).(taken := WrappingDec(c.taken)) else c
    case Work(k, e) => if k < |c.torrents| then OnWork(c, k, e) else c
  }

  ghost function Next(c: Client, a: Action): Client
    requires c.history != []
  {
    var c' := Act(c, a);
    c'.(history := c.history + [c'.taken])
  }

  ghost function Run(c: Client, actions: seq<Action>): (r: Client)
    requires c.history != []
    ensures r.history != []
  {
    if actions == [] then c else Next(Run(c, actions[..|actions| - 1]), actions[|actions| - 1])
  }

  function Fresh(limit: nat, threads: nat, torrents: seq<Torrent>): Client {
    Client(limit, 0, seq(threads, _ => Idle), torrents, [0])
  }

  // ----- the invariant

  function HoldsSlot(th: Thread): bool { th.Attaching? || th.Leaving? }

  /** Peers in all the tables together. */
  function Seated(torrents: seq<Torrent>): nat {
    if torrents == [] then 0
    else Seated(torrents[..|torrents| - 1]) + |torrents[|torrents| - 1].state.peers|
  }

  /** What a claiming thread read was true at a moment since it began. */
  ghost predicate ReadIsReal(th: Thread, history: seq<nat>) {
    th.Claiming? ==> exists j :: th.began <= j < |history| && history[j] == th.seen
  }

  ghost predicate Inv(c: Client) {
    && c.taken == Seated(c.torrents) + Counting.Count(c.threads, HoldsSlot)
    && c.taken <= c.limit
    && c.history != [] && c.history[|c.history| - 1] == c.taken
    && (forall j :: 0 <= j < |c.history| ==> c.history[j] <= c.limit)
    && (forall t :: 0 <= t < |c.threads| ==> ReadIsReal(c.threads[t], c.history))
  }

  lemma {:induction false} SeatedUpdate(torrents: seq<Torrent>, k: nat, v: Torrent)
    requires k < |torrents|
    ensures Seated(torrents[k := v]) + |torrents[k].state.peers| == Seated(torrents) + |v.state.peers|
  {
    var last := |torrents| - 1;
    if k < last {
      assert torrents[k := v][..last] == torrents[..last][k := v];
      SeatedUpdate(torrents[..last], k, v);
    } else {
      assert torrents[k := v][..last] == torrents[..last];
    }
  }

  lemma {:induction false} NobodySeated(torrents: seq<Torrent>)
    requires forall k :: 0 <= k < |torrents| ==> torrents[k].state.peers == []
    ensures Seated(torrents) == 0
  {
    if torrents != [] { NobodySeated(torrents[..|torrents| - 1]); }
  }

  lemma HistoryGrows(c: Client, c': Client)
    requires Inv(c) && c'.history == c.history + [c'.taken] && c'.limit == c.limit && |c'.threads| == |c.threads|
    requires c'.taken == Seated(c'.torrents) + Counting.Count(c'.threads, HoldsSlot) && c'.taken <= c'.limit
    requires forall t :: 0 <= t < |c.threads| ==> c'.threads[t] == c.threads[t] || ReadIsReal(c'.threads[t], c'.history)
    ensures Inv(c')
  {
    forall t | 0 <= t < |c'.threads| ensures ReadIsReal(c'.threads[t], c'.history) {
      var th := c.threads[t];
      if c'.threads[t] == th && th.Claiming? {
        assert ReadIsReal(th, c.history);
        var j :| th.began <= j < |c.history| && c.history[j] == th.seen;
        assert c'.history[j] == th.seen;
      }
    }
  }

  lemma OnLoadKeeps(c: Client, t: nat)
    requires Inv(c) && t < |c.threads|
    ensures Inv(Next(c, Load(t)))
  {
    hide Seated, Counting.Count;
    var c' := Next(c, Load(t));
    if c.threads[t].Idle? {
      Counting.CountUpdate(c.threads, HoldsSlot, t, c'.threads[t]);
      assert c'.history[|c.history| - 1] == c.taken;
    }
    HistoryGrows(c, c');
  }

  lemma OnAttemptKeeps(c: Client, t: nat, spurious: bool)
    requires Inv(c) && t < |c.threads|
    ensures Inv(Next(c, Attempt(t, spurious)))
  {
    hide Seated, Counting.Count;
    var c' := Next(c, Attempt(t, spurious));
    var th := c.threads[t];
    if th.Claiming? {
      Counting.CountUpdate(c.threads, HoldsSlot, t, c'.threads[t]);
      assert ReadIsReal(th, c.history);
      assert c'.history[|c.history|] == c'.taken && th.began <= |c.history|;
    }
    HistoryGrows(c, c');
  }

  lemma RegisterTableSize(s: State, dest: Dest, fast: bool)
    ensures |RegisterPeer(s, dest, fast).peers| == |s.peers| + (if Refused(s, dest) then 0 else 1)
  {
    hide Refused;
  }

  lemma RemoveTableSize(s: State, id: nat)
    ensures |RemovePeer(s, id).peers| == |s.peers| - (if Find(s.peers, id).Some? then 1 else 0)
  {
    hide Picker.Release, Picker.RemoveBitfield, Find;
  }

  lemma OnSeatKeeps(c: Client, t: nat, k: nat, dest: Dest, fast: bool)
    requires Inv(c) && t < |c.threads| && k < |c.torrents|
    ensures Inv(Next(c, Seat(t, k, dest, fast)))
  {
    hide Seated, Counting.Count, Refused, RegisterPeer;
    var c' := Next(c, Seat(t, k, dest, fast));
    RegisterTableSize(c.torrents[k].state, dest, fast);
    if c.threads[t].Attaching? {
      Counting.CountUpdate(c.threads, HoldsSlot, t, c'.threads[t]);
      if !Refused(c.torrents[k].state, dest) { SeatedUpdate(c.torrents, k, c'.torrents[k]); }
    }
    HistoryGrows(c, c');
  }

  lemma OnUnseatKeeps(c: Client, t: nat, k: nat, id: nat)
    requires Inv(c) && t < |c.threads| && k < |c.torrents|
    ensures Inv(Next(c, Unseat(t, k, id)))
  {
    hide Seated, Counting.Count, RemovePeer;
    var c' := Next(c, Unseat(t, k, id));
    RemoveTableSize(c.torrents[k].state, id);
    if c.threads[t].Idle? && Find(c.torrents[k].state.peers, id).Some? {
      Counting.CountUpdate(c.threads, HoldsSlot, t, c'.threads[t]);
      SeatedUpdate(c.torrents, k, c'.torrents[k]);
    }
    HistoryGrows(c, c');
  }

  /** A slot on its way out moves its thread's count and the counter together. */
  lemma LeavingKeeps(c: Client, t: nat)
    requires Inv(c) && t < |c.threads|
    ensures Inv(Next(c, Abandon(t))) && Inv(Next(c, Return(t)))
  {
    hide Seated, Counting.Count;
    Counting.CountUpdate(c.threads, HoldsSlot, t, Leaving);
    Counting.CountUpdate(c.threads, HoldsSlot, t, Idle);
    HistoryGrows(c, Next(c, Abandon(t)));
    HistoryGrows(c, Next(c, Return(t)));
  }

  lemma OnWorkKeeps(c: Client, k: nat, e: Event)
    requires Inv(c) && k < |c.torrents|
    ensures Inv(Next(c, Work(k, e)))
  {
    hide Step;
    var c', t := Next(c, Work(k, e)), c.torrents[k];
    if !e.Register? && !e.DropPeer? && |t.state.disk| == Total(t.m.files) {
      EngineBans.StepEnforces(t.m, t.state, e);
      SeatedUpdate(c.torrents, k, c'.torrents[k]);
    }
    HistoryGrows(c, c');
  }

  lemma NextKeeps(c: Client, a: Action)
    requires Inv(c)
    ensures Inv(Next(c, a)) && Next(c, a).limit == c.limit
  {
    hide Inv, Step;
    assert Inv(c);
    match a {
      case Load(t) => if t < |c.threads| { OnLoadKeeps(c, t); } else { IdleKeeps(c, a); }
      case Attempt(t, spurious) => if t < |c.threads| { OnAttemptKeeps(c, t, spurious); } else { IdleKeeps(c, a); }
      case Seat(t, k, dest, fast) =>
        if t < |c.threads| && k < |c.torrents| { OnSeatKeeps(c, t, k, dest, fast); } else { IdleKeeps(c, a); }
      case Abandon(t) => if t < |c.threads| { LeavingKeeps(c, t); } else { IdleKeeps(c, a); }
      case Unseat(t, k, id) =>
        if t < |c.threads| && k < |c.torrents| { OnUnseatKeeps(c, t, k, id); } else { IdleKeeps(c, a); }
      case Return(t) => if t < |c.threads| { LeavingKeeps(c, t); } else { IdleKeeps(c, a); }
      case Work(k, e) => if k < |c.torrents| { OnWorkKeeps(c, k, e); } else { IdleKeeps(c, a); }
    }
  }

  lemma IdleKeeps(c: Client, a: Action)
    requires Inv(c) && Act(c, a) == c
    ensures Inv(Next(c, a))
  {
    hide Act;
    HistoryGrows(c, Next(c, a));
  }

  // ----- every interleaving

  /** Where a client starting with empty peer tables gets to. */
  ghost predicate Reachable(c: Client) {
    exists limit: nat, threads: nat, torrents: seq<Torrent>, actions: seq<Action> ::
      && (forall k :: 0 <= k < |torrents| ==> torrents[k].state.peers == [])
      && c == Run(Fresh(limit, threads, torrents), actions)
  }

  lemma {:induction false} RunKeeps(c: Client, actions: seq<Action>)
    requires Inv(c) && c.history != []
    ensures Inv(Run(c, actions))
  {
    hide Inv, Next;
    if actions != [] {
      RunKeeps(c, actions[..|actions| - 1]);
      NextKeeps(Run(c, actions[..|actions| - 1]), actions[|actions| - 1]);
    }
  }

  lemma FreshKeeps(limit: nat, threads: nat, torrents: seq<Torrent>)
    requires forall k :: 0 <= k < |torrents| ==> torrents[k].state.peers == []
    ensures Inv(Fresh(limit, threads, torrents))
  {
    NobodySeated(torrents);
    Counting.CountZero(Fresh(limit, threads, torrents).threads, HoldsSlot);
  }

  lemma ReachableKeeps(c: Client)
    requires Reachable(c)
    ensures Inv(c)
  {
    var limit: nat, threads: nat, torrents: seq<Torrent>, actions: seq<Action> :|
      && (forall k :: 0 <= k < |torrents| ==> torrents[k].state.peers == [])
      && c == Run(Fresh(limit, threads, torrents), actions);
    hide Inv, Run;
    FreshKeeps(limit, threads, torrents);
    RunKeeps(Fresh(limit, threads, torrents), actions);
  }

  /** Nothing but interference keeps a claim from being decided: left alone for
      two turns, a claiming thread has its answer, and it has a slot whenever
      both the count it had read and the count now leave room. */
  lemma ClaimsEnd(c: Client, t: nat)
    requires Reachable(c) && t < |c.threads| && c.threads[t].Claiming? && c.history != []
    ensures var d := Run(c, [Attempt(t, false), Attempt(t, false)]);
      && t < |d.threads| && !d.threads[t].Claiming?
      && (d.threads[t].Attaching? <==> c.threads[t].seen < c.limit && c.taken < c.limit)
      && d.taken == c.taken + (if d.threads[t].Attaching? then 1 else 0)
  {
    hide Reachable, Inv;
    var a := Attempt(t, false);
    var c1 := Next(c, a);
    RunOne(c, a);
    assert [a, a][..1] == [a];
    assert Run(c, [a, a]) == Next(c1, a);
    ReachableKeeps(c);
    TakenFits(c);
  }

  lemma RunOne(c: Client, a: Action)
    requires c.history != []
    ensures Run(c, [a]) == Next(c, a)
  {
    assert [a][..0] == [];
  }

  lemma TakenFits(c: Client)
    requires Inv(c)
    ensures c.taken <= c.limit
  {}

  /** The counter is exactly the peers in all tables plus the slots held by
      threads attaching or letting go, never more than the limit, and returning
      a slot never wraps it. */
  lemma TakenIsExact(c: Client)
    requires Reachable(c)
    ensures c.taken == Seated(c.torrents) + Counting.Count(c.threads, HoldsSlot) <= c.limit
    ensures forall t :: 0 <= t < |c.threads| && c.threads[t].Leaving? ==> c.taken > 0
  {
    ReachableKeeps(c);
    Counting.CountZero(c.threads, HoldsSlot);
  }

  /** A claim about to be refused did see the budget full at some moment since
      it began. */
  lemma RefusalSawItFull(c: Client, t: nat)
    requires Reachable(c) && t < |c.threads| && c.threads[t].Claiming? && c.threads[t].seen >= c.limit
    ensures exists j :: c.threads[t].began <= j < |c.history| && c.history[j] == c.limit
  {
    ReachableKeeps(c);
    assert ReadIsReal(c.threads[t], c.history);
  }
}
