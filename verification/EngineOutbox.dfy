// What the engine sends is what its tables say: every debt was requested, each
// peer has been told how we stand towards it, and what was verified and sent
// adds up (crates/clove-core/src/torrent.rs).
module EngineOutbox {
  import opened Prelude
  import opened Wire
  import opened PickerSpec
  import opened PickerTheory
  import opened DiskSpec
  import opened EngineSpec
  import opened EngineInvariant
  import opened EngineSteps
  import opened EngineDelivery
  import opened EngineFrame
  import opened EngineTheorems
  import opened EngineSafety
  import opened EngineOutcomes
  import opened EngineEndgame
  import opened EngineStamps
  import opened EngineBans
  import ChokerSpec
  import Bitfields
  import Counting
  import Sorting

  // ----- reading a run of messages

  /** The request message for a block. */
  function Asking(geo: Geometry, id: nat, b: Block): Outgoing { Outgoing(id, Request(geo.RequestFor(b))) }

  /** Whether the peer with an id takes itself to be choked after these messages. */
  function LastChoke(before: bool, out: seq<Outgoing>, id: nat): bool {
    if out == [] then before
    else
      var last := out[|out| - 1];
      if last.to == id && last.msg.Choke? then true
      else if last.to == id && last.msg.Unchoke? then false
      else LastChoke(before, out[..|out| - 1], id)
  }

  /** Whether it takes us to be interested. */
  function LastInterest(before: bool, out: seq<Outgoing>, id: nat): bool {
    if out == [] then before
    else
      var last := out[|out| - 1];
      if last.to == id && last.msg.Interested? then true
      else if last.to == id && last.msg.NotInterested? then false
      else LastInterest(before, out[..|out| - 1], id)
  }

  /** Bytes of pieces sent to it. */
  function PieceBytes(out: seq<Outgoing>, id: nat): nat {
    if out == [] then 0
    else
      var last := out[|out| - 1];
      PieceBytes(out[..|out| - 1], id) + (if last.to == id && last.msg.Piece? then |last.msg.block| else 0)
  }

  lemma {:induction false} ReadOn(before: bool, a: seq<Outgoing>, b: seq<Outgoing>, id: nat)
    ensures LastChoke(before, a + b, id) == LastChoke(LastChoke(before, a, id), b, id)
    ensures LastInterest(before, a + b, id) == LastInterest(LastInterest(before, a, id), b, id)
    ensures PieceBytes(a + b, id) == PieceBytes(a, id) + PieceBytes(b, id)
  {
    if b == [] {
      assert a + b == a;
    } else {
      ReadOn(before, a, b[..|b| - 1], id);
      assert (a + b)[..|a + b| - 1] == a + b[..|b| - 1];
    }
  }

  /** A message that says nothing about choking, interest or data to a peer. */
  predicate SilentTo(o: Outgoing, id: nat) {
    o.to != id || !(o.msg.Choke? || o.msg.Unchoke? || o.msg.Interested? || o.msg.NotInterested? || o.msg.Piece?)
  }

  lemma {:induction false} ReadSilent(before: bool, out: seq<Outgoing>, id: nat)
    requires forall o :: o in out ==> SilentTo(o, id)
    ensures LastChoke(before, out, id) == before && LastInterest(before, out, id) == before && PieceBytes(out, id) == 0
  {
    if out != [] {
      var init := out[..|out| - 1];
      assert out == init + [out[|out| - 1]];
      ReadSilent(before, init, id);
      assert SilentTo(out[|out| - 1], id);
    }
  }

  // ----- one effect

  /** Every block newly owed was requested of the peer. */
  ghost predicate AskedFor(geo: Geometry, s: State, e: Effect) {
    forall k, b {:trigger b in e.state.peers[k].inFlight} ::
      0 <= k < |s.peers| && k < |e.state.peers| && b in e.state.peers[k].inFlight && b !in s.peers[k].inFlight ==>
      Asking(geo, s.peers[k].id, b) in e.out
  }

  /** What a peer last heard is how we stand towards it, and what was uploaded
      to it is what was sent. */
  predicate Spoken(p: Peer, q: Peer, out: seq<Outgoing>) {
    && q.weChoke == LastChoke(p.weChoke, out, p.id)
    && q.weInterested == LastInterest(p.weInterested, out, p.id)
    && q.uploaded == p.uploaded + PieceBytes(out, p.id)
  }

  ghost predicate AllSpoken(s: State, e: Effect) {
    forall k :: 0 <= k < |s.peers| && k < |e.state.peers| ==> Spoken(s.peers[k], e.state.peers[k], e.out)
  }

  /** Everybody is told of the pieces newly held, and of no others. */
  ghost predicate Announced(s: State, e: Effect) {
    && s.picker.have <= e.state.picker.have
    && (forall k, i :: 0 <= k < |s.peers| && i in e.state.picker.have && i !in s.picker.have ==>
          Outgoing(s.peers[k].id, Have(i)) in e.out)
    && forall o :: o in e.out && o.msg.Have? ==> o.msg.piece in e.state.picker.have && o.msg.piece !in s.picker.have
  }

  /** Only connected peers are written to. */
  ghost predicate Addressed(s: State, e: Effect) {
    forall o :: o in e.out ==> exists k :: 0 <= k < |s.peers| && s.peers[k].id == o.to
  }

  ghost predicate Outbox(geo: Geometry, s: State, e: Effect) {
    SameSeats(s.peers, e.state.peers) && AskedFor(geo, s, e) && AllSpoken(s, e) && Announced(s, e) && Addressed(s, e)
  }

  // ----- composing effects

  lemma OutboxThrough(geo: Geometry, s: State, a: Effect, b: Effect)
    requires Outbox(geo, s, a) && Outbox(geo, a.state, b)
    ensures Outbox(geo, s, b.After(a.out))
  {
    hide Spoken;
    SpokenThrough(s, a, b);
    AnnouncedThrough(s, a, b);
    AskedThrough(geo, s, a, b);
    AddressedThrough(s, a, b);
  }

  lemma SpokenThrough(s: State, a: Effect, b: Effect)
    requires SameSeats(s.peers, a.state.peers) && SameSeats(a.state.peers, b.state.peers)
    requires AllSpoken(s, a) && AllSpoken(a.state, b)
    ensures AllSpoken(s, b.After(a.out)) && SameSeats(s.peers, b.state.peers)
  {
    forall k | 0 <= k < |s.peers| ensures Spoken(s.peers[k], b.state.peers[k], a.out + b.out) {
      var p, q := s.peers[k], a.state.peers[k];
      assert Spoken(p, q, a.out) && Spoken(q, b.state.peers[k], b.out);
      ReadOn(p.weChoke, a.out, b.out, p.id);
      ReadOn(p.weInterested, a.out, b.out, p.id);
    }
  }

  lemma AnnouncedThrough(s: State, a: Effect, b: Effect)
    requires SameSeats(s.peers, a.state.peers) && Announced(s, a) && Announced(a.state, b)
    ensures Announced(s, b.After(a.out))
  {
    var e := b.After(a.out);
    forall k, i | 0 <= k < |s.peers| && i in e.state.picker.have && i !in s.picker.have
      ensures Outgoing(s.peers[k].id, Have(i)) in e.out
    {
      if i in a.state.picker.have {
        assert Outgoing(s.peers[k].id, Have(i)) in a.out;
      } else {
        assert Outgoing(a.state.peers[k].id, Have(i)) in b.out;
      }
    }
  }

  lemma AskedThrough(geo: Geometry, s: State, a: Effect, b: Effect)
    requires SameSeats(s.peers, a.state.peers) && SameSeats(a.state.peers, b.state.peers)
    requires AskedFor(geo, s, a) && AskedFor(geo, a.state, b)
    ensures AskedFor(geo, s, b.After(a.out))
  {
    forall k, c | 0 <= k < |s.peers| && c in b.state.peers[k].inFlight && c !in s.peers[k].inFlight
      ensures Asking(geo, s.peers[k].id, c) in a.out + b.out
    {
      if c !in a.state.peers[k].inFlight { assert Asking(geo, a.state.peers[k].id, c) in b.out; }
    }
  }

  lemma AddressedThrough(s: State, a: Effect, b: Effect)
    requires SameSeats(s.peers, a.state.peers) && Addressed(s, a) && Addressed(a.state, b)
    ensures Addressed(s, b.After(a.out))
  {
    forall o | o in a.out + b.out ensures exists k :: 0 <= k < |s.peers| && s.peers[k].id == o.to {
      if o !in a.out {
        var k :| 0 <= k < |a.state.peers| && a.state.peers[k].id == o.to;
        assert s.peers[k].id == o.to;
      }
    }
  }

  // ----- effects that send nothing

  /** Nothing a peer could be told about has changed; debts may have shrunk. */
  ghost predicate Unspoken(s: State, t: State) {
    && SameSeats(s.peers, t.peers) && t.picker.have == s.picker.have
    && forall k :: 0 <= k < |s.peers| ==>
         && t.peers[k].weChoke == s.peers[k].weChoke && t.peers[k].weInterested == s.peers[k].weInterested
         && t.peers[k].uploaded == s.peers[k].uploaded
         && forall b :: b in t.peers[k].inFlight ==> b in s.peers[k].inFlight
  }

  lemma QuietOutbox(geo: Geometry, s: State, t: State)
    requires Unspoken(s, t)
    ensures Outbox(geo, s, Effect(t, []))
  {}

  lemma SameOutbox(geo: Geometry, s: State)
    ensures Outbox(geo, s, Effect(s, []))
  {
    QuietOutbox(geo, s, s);
  }

  /** A change that sends nothing, before or after one that does. */
  lemma QuietThen(geo: Geometry, s: State, t: State, e: Effect)
    requires Unspoken(s, t) && Outbox(geo, t, e)
    ensures Outbox(geo, s, e)
  {
    hide Outbox, Unspoken;
    QuietOutbox(geo, s, t);
    OutboxThrough(geo, s, Effect(t, []), e);
    assert [] + e.out == e.out;
  }

  lemma ThenQuiet(geo: Geometry, s: State, e: Effect, t: State)
    requires Outbox(geo, s, e) && Unspoken(e.state, t)
    ensures Outbox(geo, s, Effect(t, e.out))
  {
    hide Outbox, Unspoken;
    QuietOutbox(geo, e.state, t);
    OutboxThrough(geo, s, e, Effect(t, []));
    assert e.out + [] == e.out;
  }

  // ----- requesting

  /** The messages are exactly one request for each of the blocks not owed. */
  ghost predicate AsksEach(geo: Geometry, id: nat, owed: map<Block, nat>, blocks: seq<Block>, out: seq<Outgoing>) {
    && (forall b :: b in blocks && b !in owed ==> Asking(geo, id, b) in out)
    && (forall o :: o in out ==> exists b :: b in blocks && b !in owed && o == Asking(geo, id, b))
    && (forall i, j :: 0 <= i < j < |out| ==> out[i] != out[j])
  }

  lemma {:induction false} AsksExactly(geo: Geometry, id: nat, owed: map<Block, nat>, blocks: seq<Block>)
    requires Sorting.Distinct(blocks)
    ensures AsksEach(geo, id, owed, blocks, Asks(geo, id, owed, blocks))
  {
    hide AsksEach, Asks;
    if blocks == [] {
      AsksNothing(geo, id, owed);
    } else {
      var init, last := blocks[..|blocks| - 1], blocks[|blocks| - 1];
      AsksExactly(geo, id, owed, init);
      assert blocks == init + [last] && last !in init;
      AsksOneMore(geo, id, owed, blocks, Asks(geo, id, owed, init));
      AsksUnfold(geo, id, owed, blocks);
    }
  }

  lemma AsksNothing(geo: Geometry, id: nat, owed: map<Block, nat>)
    ensures AsksEach(geo, id, owed, [], Asks(geo, id, owed, []))
  {}

  lemma AsksUnfold(geo: Geometry, id: nat, owed: map<Block, nat>, blocks: seq<Block>)
    requires blocks != []
    ensures var last := blocks[|blocks| - 1];
      Asks(geo, id, owed, blocks) ==
        Asks(geo, id, owed, blocks[..|blocks| - 1]) + (if last in owed then [] else [Asking(geo, id, last)])
  {}

  lemma AsksOneMore(geo: Geometry, id: nat, owed: map<Block, nat>, blocks: seq<Block>, before: seq<Outgoing>)
    requires blocks != [] && blocks[|blocks| - 1] !in blocks[..|blocks| - 1]
    requires AsksEach(geo, id, owed, blocks[..|blocks| - 1], before)
    ensures var last := blocks[|blocks| - 1];
      AsksEach(geo, id, owed, blocks, before + (if last in owed then [] else [Asking(geo, id, last)]))
  {
    var init, last := blocks[..|blocks| - 1], blocks[|blocks| - 1];
    assert blocks == init + [last];
    assert forall b :: b in blocks <==> b in init || b == last;
    var out := before + (if last in owed then [] else [Asking(geo, id, last)]);
    forall b | b in blocks && b !in owed ensures Asking(geo, id, b) in out {
      if b == last { assert out[|before|] == Asking(geo, id, last); }
    }
    forall o | o in before ensures o != Asking(geo, id, last) && exists b :: b in blocks && b !in owed && o == Asking(geo, id, b) {
      var b :| b in init && b !in owed && o == Asking(geo, id, b);
      assert b in blocks;
      RequestsDiffer(geo, b, last);
    }
    forall o | o in out ensures exists b :: b in blocks && b !in owed && o == Asking(geo, id, b) {
      if o !in before { assert o == Asking(geo, id, last) && last in blocks && last !in owed; }
    }
    forall i, j | 0 <= i < j < |out| ensures out[i] != out[j] {
      assert out[i] == before[i];
      assert before[i] in before;
      if j < |before| { assert out[j] == before[j]; } else { assert out[j] == Asking(geo, id, last); }
    }
  }

  lemma RequestsDiffer(geo: Geometry, a: Block, b: Block)
    requires a != b
    ensures geo.RequestFor(a) != geo.RequestFor(b)
  {}

  /** The messages of a refill are exactly one request, to the peer refilled,
      for each block it newly owes. */
  ghost predicate SendsWhatItAsks(geo: Geometry, p: Peer, q: Peer, out: seq<Outgoing>) {
    && (forall b :: b in q.inFlight && b !in p.inFlight ==> Asking(geo, p.id, b) in out)
    && (forall o :: o in out ==> exists b :: b in q.inFlight && b !in p.inFlight && o == Asking(geo, p.id, b))
    && (forall i, j :: 0 <= i < j < |out| ==> out[i] != out[j])
  }

  lemma FillSends(m: Meta, s: State, log: set<Delivery>, idx: nat, now: nat)
    requires Inv(m, s, log) && idx < |s.peers|
    ensures var e := FillRequests(s, idx, now);
      idx < |e.state.peers| && SendsWhatItAsks(m.geo, s.peers[idx], e.state.peers[idx], e.out)
  {
    hide Inv, Handed, Picker.PickBlocks, Picker.AfterPick, Picker.Release, Asks, FillRequests;
    ShapeOf(m, s, log);
    RefillPeers(s, idx, now);
    HandedFacts(m, s, log, idx);
    var p, blocks := s.peers[idx], Handed(s, idx);
    AskedKeys(p.inFlight, blocks, now);
    FillOut(s, idx, now);
    AsksExactly(s.picker.geo, p.id, p.inFlight, blocks);
    assert forall b: Block :: b in BlockSet(blocks) <==> b in blocks;
  }

  lemma FillOut(s: State, idx: nat, now: nat)
    requires idx < |s.peers|
    ensures FillRequests(s, idx, now).out == Asks(s.picker.geo, s.peers[idx].id, s.peers[idx].inFlight, Handed(s, idx))
  {
    hide Picker.PickBlocks, Picker.AfterPick, Picker.Release, Asked;
    NothingHanded(s.picker, s.peers[idx].has);
  }

  /** In every reachable state a refill sends what it asks for, each once. */
  lemma RefillSendsWhatItAsks(m: Meta, w: World, idx: nat, now: nat)
    requires Reachable(m, w) && idx < |w.state.peers|
    ensures var e := FillRequests(w.state, idx, now);
      idx < |e.state.peers| && SendsWhatItAsks(m.geo, w.state.peers[idx], e.state.peers[idx], e.out)
  {
    hide Reachable, Inv, SendsWhatItAsks;
    ReachableIsSafe(m, w);
    InvOf(m, w);
    FillSends(m, w.state, w.log, idx, now);
  }

  lemma FillOutbox(m: Meta, s: State, log: set<Delivery>, idx: nat, now: nat)
    requires Inv(m, s, log) && idx < |s.peers|
    ensures Outbox(m.geo, s, FillRequests(s, idx, now))
  {
    hide Inv, FillRequests, Handed, Asked, Picker.PickBlocks, Picker.AfterPick, Picker.Release;
    FillSends(m, s, log, idx, now);
    RefillPeers(s, idx, now);
    RefillShape(m, s, log, idx, now);
    SendsOutbox(m.geo, s, FillRequests(s, idx, now), idx);
  }

  lemma SendsOutbox(geo: Geometry, s: State, e: Effect, idx: nat)
    requires idx < |s.peers| && |e.state.peers| == |s.peers| && SendsWhatItAsks(geo, s.peers[idx], e.state.peers[idx], e.out)
    requires e.state.peers == s.peers[idx := s.peers[idx].(inFlight := e.state.peers[idx].inFlight)]
    requires e.state.picker.have == s.picker.have
    ensures Outbox(geo, s, e)
  {
    forall o | o in e.out ensures o.to == s.peers[idx].id && o.msg.Request? {
      var b :| b in e.state.peers[idx].inFlight && b !in s.peers[idx].inFlight && o == Asking(geo, s.peers[idx].id, b);
    }
    forall k | 0 <= k < |s.peers| ensures Spoken(s.peers[k], e.state.peers[k], e.out) {
      ReadSilent(s.peers[k].weChoke, e.out, s.peers[k].id);
      ReadSilent(s.peers[k].weInterested, e.out, s.peers[k].id);
    }
  }

  // ----- interest and choking

  /** One message to one peer, about a flag of that peer. */
  lemma NoteOutbox(geo: Geometry, s: State, idx: nat, p: Peer, msg: Message)
    requires idx < |s.peers| && IdsOk(s.peers, s.nextId) && p.id == s.peers[idx].id && p.dest == s.peers[idx].dest
    requires p.inFlight == s.peers[idx].inFlight && p.uploaded == s.peers[idx].uploaded
    requires msg.Choke? || msg.Unchoke? || msg.Interested? || msg.NotInterested?
    requires p.weChoke == (if msg.Choke? then true else if msg.Unchoke? then false else s.peers[idx].weChoke)
    requires p.weInterested == (if msg.Interested? then true else if msg.NotInterested? then false else s.peers[idx].weInterested)
    ensures Outbox(geo, s, Effect(SetPeer(s, idx, p), [Outgoing(p.id, msg)]))
  {
    var out := [Outgoing(p.id, msg)];
    forall k | 0 <= k < |s.peers| ensures Spoken(s.peers[k], SetPeer(s, idx, p).peers[k], out) {
      OneMessage(s.peers[k].weChoke, out[0], s.peers[k].id);
      OneMessage(s.peers[k].weInterested, out[0], s.peers[k].id);
    }
  }

  lemma OneMessage(before: bool, o: Outgoing, id: nat)
    ensures LastChoke(before, [o], id) == (if o.to == id && o.msg.Choke? then true else if o.to == id && o.msg.Unchoke? then false else before)
    ensures LastInterest(before, [o], id) ==
      (if o.to == id && o.msg.Interested? then true else if o.to == id && o.msg.NotInterested? then false else before)
    ensures PieceBytes([o], id) == if o.to == id && o.msg.Piece? then |o.msg.block| else 0
  {
    assert [o][..0] == [];
  }

  lemma InterestOutbox(m: Meta, s: State, log: set<Delivery>, idx: nat, now: nat)
    requires Inv(m, s, log) && idx < |s.peers|
    ensures Outbox(m.geo, s, UpdateInterest(s, idx, now))
  {
    hide Inv, FillRequests, Interesting, Outbox;
    IdsOf(m, s, log);
    InterestIsFree(m, s, log, idx);
    var p := s.peers[idx];
    var yes := p.(weInterested := true);
    EditFlagsKeeps(m, s, log, idx, yes);
    SameOutbox(m.geo, s);
    NoteOutbox(m.geo, s, idx, yes, Message.Interested);
    NoteOutbox(m.geo, s, idx, p.(weInterested := false), NotInterested);
    FillOutbox(m, SetPeer(s, idx, yes), log, idx, now);
    OutboxThrough(m.geo, s, Effect(SetPeer(s, idx, yes), [Outgoing(p.id, Message.Interested)]), FillRequests(SetPeer(s, idx, yes), idx, now));
  }

  lemma {:induction false} SetChokesOutbox(geo: Geometry, s: State, ids: seq<nat>, choke: bool)
    requires IdsOk(s.peers, s.nextId)
    ensures Outbox(geo, s, SetChokes(s, ids, choke))
  {
    hide Outbox;
    if ids == [] {
      SameOutbox(geo, s);
    } else {
      var init, id := ids[..|ids| - 1], ids[|ids| - 1];
      SetChokesOutbox(geo, s, init, choke);
      var e := SetChokes(s, init, choke);
      OutboxKeepsIds(geo, s, e);
      SetChokesEffect(s, init, choke);
      SetChokeOutbox(geo, e.state, id, choke);
      OutboxThrough(geo, s, e, SetChoke(e.state, id, choke));
    }
  }

  lemma OutboxKeepsIds(geo: Geometry, s: State, e: Effect)
    requires IdsOk(s.peers, s.nextId) && Outbox(geo, s, e)
    ensures IdsOk(e.state.peers, s.nextId)
  {
    hide AskedFor, AllSpoken, Announced, Addressed;
  }

  lemma SetChokeOutbox(geo: Geometry, s: State, id: nat, choke: bool)
    requires IdsOk(s.peers, s.nextId)
    ensures Outbox(geo, s, SetChoke(s, id, choke))
  {
    hide Outbox;
    SameOutbox(geo, s);
    var found := Find(s.peers, id);
    if found.Some? {
      NoteOutbox(geo, s, found.value, s.peers[found.value].(weChoke := choke), if choke then Message.Choke else Message.Unchoke);
    }
  }

  lemma RunChokerOutbox(geo: Geometry, s: State)
    requires IdsOk(s.peers, s.nextId)
    ensures Outbox(geo, s, RunChoker(s))
  {
    hide Outbox, SetChokes, ChokerSpec.Plan;
    var d := ChokerSpec.Plan(s.slots, s.round + 1, Snapshots(s));
    var s' := s.(peers := Ranked(s.peers), round := s.round + 1);
    assert Unspoken(s, s') && IdsOk(s'.peers, s'.nextId);
    SetChokesOutbox(geo, s', d.unchoke, false);
    var e := SetChokes(s', d.unchoke, false);
    OutboxKeepsIds(geo, s', e);
    SetChokesEffect(s', d.unchoke, false);
    SetChokesOutbox(geo, e.state, d.choke, true);
    OutboxThrough(geo, s', e, SetChokes(e.state, d.choke, true));
    QuietThen(geo, s, s', RunChoker(s));
  }

  lemma RoundOutbox(geo: Geometry, s: State, now: nat)
    requires IdsOk(s.peers, s.nextId)
    ensures Outbox(geo, s, ChokeRoundIfDue(s, now))
  {
    hide Outbox, RunChoker;
    var s' := s.(lastChokeRound := now);
    SameOutbox(geo, s);
    assert Unspoken(s, s');
    RunChokerOutbox(geo, s');
    QuietThen(geo, s, s', RunChoker(s'));
  }

  // ----- a block

  function Withdrawal(geo: Geometry, id: nat, b: Block): Outgoing { Outgoing(id, Cancel(geo.RequestFor(b))) }

  /** The message withdraws the block from one of the first `k` peers that owes
      it, but not from the one that delivered it. */
  predicate Withdraws(geo: Geometry, peers: seq<Peer>, idx: nat, b: Block, k: nat, o: Outgoing)
    requires k <= |peers|
  {
    exists j :: 0 <= j < k && j != idx && b in peers[j].inFlight && o == Withdrawal(geo, peers[j].id, b)
  }

  lemma {:induction false} CancelsExactly(geo: Geometry, peers: seq<Peer>, idx: nat, b: Block, k: nat)
    requires k <= |peers|
    ensures forall o :: o in Cancels(geo, peers, idx, b, k) <==> Withdraws(geo, peers, idx, b, k, o)
  {
    if k > 0 {
      CancelsExactly(geo, peers, idx, b, k - 1);
      forall o ensures o in Cancels(geo, peers, idx, b, k) <==> Withdraws(geo, peers, idx, b, k, o) {
        assert Withdraws(geo, peers, idx, b, k, o) <==>
          Withdraws(geo, peers, idx, b, k - 1, o)
          || (k - 1 != idx && b in peers[k - 1].inFlight && o == Withdrawal(geo, peers[k - 1].id, b));
      }
    }
  }

  lemma SettledOutbox(geo: Geometry, s: State, t: State, out: seq<Outgoing>, b: Block)
    requires Settled(s.peers, t.peers, b) && t.picker.have == s.picker.have
    requires forall o :: o in out ==> o.msg.Cancel? && exists j :: 0 <= j < |s.peers| && s.peers[j].id == o.to
    ensures Outbox(geo, s, Effect(t, out))
  {
    forall k | 0 <= k < |s.peers| ensures Spoken(s.peers[k], t.peers[k], out) {
      ReadSilent(s.peers[k].weChoke, out, s.peers[k].id);
      ReadSilent(s.peers[k].weInterested, out, s.peers[k].id);
    }
  }

  lemma JudgeOutbox(m: Meta, s: State, log: set<Delivery>, index: nat, io: Io)
    requires Inv(m, s, log) && WholeAndSettled(s, index)
    ensures Outbox(m.geo, s, Judge(m, s, index, io))
  {
    hide Inv, Verify, BlameSuppliers, CreditBelow, DropPiece, Picker.Missing;
    var e := Judge(m, s, index, io);
    JudgeKeeps(m, s, log, index, io);
    BlameKeepsHave(s.(picker := s.picker.ResetPiece(index)), index);
    if Verify(m, s.disk, index, io.verify) != Matches {
      assert Unspoken(s, e.state);
      QuietOutbox(m.geo, s, e.state);
    } else {
      forall k | 0 <= k < |s.peers| ensures Spoken(s.peers[k], e.state.peers[k], e.out) && Outgoing(s.peers[k].id, Have(index)) in e.out {
        assert e.out[k] == Outgoing(s.peers[k].id, Have(index));
        ReadSilent(s.peers[k].weChoke, e.out, s.peers[k].id);
        ReadSilent(s.peers[k].weInterested, e.out, s.peers[k].id);
      }
    }
  }

  lemma BlameKeepsHave(s: State, index: nat)
    ensures BlameSuppliers(s, index).picker == s.picker
  {
    BlameEffect(s, index);
  }

  /** An owed block that was written: cancels, then the verdict. */
  lemma AcceptOutbox(m: Meta, s: State, log: set<Delivery>, idx: nat, b: Block, data: seq<byte>, io: Io)
    requires Inv(m, s, log) && idx < |s.peers| && b in s.peers[idx].inFlight && |data| == m.geo.BlockLen(b.0, b.1)
    requires m.geo.BlockStart(b) + |data| <= |s.disk| && |s.disk| == Total(m.files)
    ensures var s1 := SetPeer(s, idx, s.peers[idx].(inFlight := s.peers[idx].inFlight - {b}, strikes := 0))
        .(disk := WriteLinear(m.files, s.disk, m.geo.BlockStart(b), data));
      Outbox(m.geo, s, AcceptBlock(m, s1, idx, b, |data|, io).0)
  {
    hide Inv, Outbox, AcceptBlock, Judge, SettledState, NotedState, WholeAndSettled, WriteLinear, CancelElsewhere;
    AcceptUnfolds(m, s, idx, b, data, io);
    AcceptIsSettleThenJudge(m, s, log, idx, b, data, io);
    SettledStateKeeps(m, s, log, idx, b, data);
    var t, cancels := SettledState(m, s, idx, b, data), CancelElsewhere(NotedState(m, s, idx, b, data), idx, b).out;
    SettledIsOutbox(m, s, log, idx, b, data);
    if WholeAndSettled(t, b.0) {
      JudgeOutbox(m, t, log + {(s.peers[idx].dest, b, data)}, b.0, io);
      OutboxThrough(m.geo, s, Effect(t, cancels), Judge(m, t, b.0, io));
    }
  }

  lemma SettledIsOutbox(m: Meta, s: State, log: set<Delivery>, idx: nat, b: Block, data: seq<byte>)
    requires Inv(m, s, log) && idx < |s.peers| && b in s.peers[idx].inFlight && |data| == m.geo.BlockLen(b.0, b.1)
    requires m.geo.BlockStart(b) + |data| <= |s.disk| && |s.disk| == Total(m.files)
    ensures Outbox(m.geo, s, Effect(SettledState(m, s, idx, b, data), CancelElsewhere(NotedState(m, s, idx, b, data), idx, b).out))
    ensures forall k :: 0 <= k < |s.peers| && k != idx && b in s.peers[k].inFlight ==>
      Outgoing(s.peers[k].id, Cancel(m.geo.RequestFor(b))) in CancelElsewhere(NotedState(m, s, idx, b, data), idx, b).out
  {
    hide Inv, Outbox, WriteLinear, Picker.BlockReceived, Picker.Lower, Withdrawn, Cancels, Settled, SettledState, NotedState;
    ShapeOf(m, s, log);
    SettledStateKeeps(m, s, log, idx, b, data);
    SettledRest(m, s, idx, b, data);
    NotedPeers(m, s, idx, b, data);
    CancelsReach(m.geo, s.peers, NotedState(m, s, idx, b, data).peers, idx, b);
    SettledOutbox(m.geo, s, SettledState(m, s, idx, b, data), CancelElsewhere(NotedState(m, s, idx, b, data), idx, b).out, b);
  }

  lemma NotedPeers(m: Meta, s: State, idx: nat, b: Block, data: seq<byte>)
    requires idx < |s.peers| && |s.disk| == Total(m.files) && m.geo.BlockStart(b) + |data| <= |s.disk|
    ensures var n := NotedState(m, s, idx, b, data);
      && n.picker == s.picker && |n.peers| == |s.peers|
      && forall k :: 0 <= k < |s.peers| && k != idx ==> n.peers[k] == s.peers[k]
  {
    hide WriteLinear;
  }

  lemma CancelsReach(geo: Geometry, peers: seq<Peer>, noted: seq<Peer>, idx: nat, b: Block)
    requires |noted| == |peers| && forall k :: 0 <= k < |peers| && k != idx ==> noted[k] == peers[k]
    ensures var out := Cancels(geo, noted, idx, b, |noted|);
      && (forall o :: o in out ==> o.msg.Cancel? && exists j :: 0 <= j < |peers| && peers[j].id == o.to)
      && (forall k :: 0 <= k < |peers| && k != idx && b in peers[k].inFlight ==> Outgoing(peers[k].id, Cancel(geo.RequestFor(b))) in out)
  {
    hide Cancels;
    CancelsExactly(geo, noted, idx, b, |noted|);
    forall o | o in Cancels(geo, noted, idx, b, |noted|) ensures o.msg.Cancel? && exists j :: 0 <= j < |peers| && peers[j].id == o.to {
      assert Withdraws(geo, noted, idx, b, |noted|, o);
      var j :| 0 <= j < |noted| && j != idx && b in noted[j].inFlight && o == Withdrawal(geo, noted[j].id, b);
      assert peers[j].id == o.to;
    }
    forall k | 0 <= k < |peers| && k != idx && b in peers[k].inFlight
      ensures Outgoing(peers[k].id, Cancel(geo.RequestFor(b))) in Cancels(geo, noted, idx, b, |noted|)
    {
      assert Withdraws(geo, noted, idx, b, |noted|, Withdrawal(geo, noted[k].id, b));
    }
  }

  lemma OnBlockOutbox(m: Meta, s: State, log: set<Delivery>, idx: nat, index: nat, begin: nat, data: seq<byte>, now: nat, io: Io)
    requires Inv(m, s, log) && idx < |s.peers| && |s.disk| == Total(m.files)
    ensures Outbox(m.geo, s, OnBlock(m, s, idx, index, begin, data, now, io))
  {
    hide Inv, Outbox, OnBlock, FillRequests, AcceptBlock, WriteLinear, FailedWriteState;
    var b: Block := (index, begin / BLOCK_LEN);
    SameOutbox(m.geo, s);
    if Unasked(m, s.peers[idx], index, begin, data) {
      UnaskedEffect(m, s, log, idx, index, begin, data, now, io);
      FillOutbox(m, s, log, idx, now);
    } else {
      assert b.1 * BLOCK_LEN == begin;
      OwedIsAskable(m, s, log, idx, b);
      if io.write.Some? && io.write.value < |data| {
        FailedWriteUnfolds(m, s, idx, b, data, now, io);
        FailedWriteKept(m, s, log, idx, b, data[..io.write.value]);
        FailedIsUnspoken(m, s, idx, b, data[..io.write.value]);
        var u := FailedWriteState(m, s, idx, b, data[..io.write.value]);
        FillOutbox(m, u, log, idx, now);
        QuietThen(m.geo, s, u, FillRequests(u, idx, now));
      } else {
        OwedIsAccepted(m, s, log, idx, b, data, now, io);
        AcceptKeeps(m, s, log, idx, b, data, io);
        AcceptOutbox(m, s, log, idx, b, data, io);
        var s1 := SetPeer(s, idx, s.peers[idx].(inFlight := s.peers[idx].inFlight - {b}, strikes := 0))
          .(disk := WriteLinear(m.files, s.disk, m.geo.BlockStart(b), data));
        var (e, refill) := AcceptBlock(m, s1, idx, b, |data|, io);
        if refill {
          FillOutbox(m, e.state, log + {(s.peers[idx].dest, b, data)}, idx, now);
          OutboxThrough(m.geo, s, e, FillRequests(e.state, idx, now));
        }
      }
    }
  }

  lemma FailedIsUnspoken(m: Meta, s: State, idx: nat, b: Block, written: seq<byte>)
    requires idx < |s.peers| && |s.disk| == Total(m.files) && m.geo.BlockStart(b) + |written| <= |s.disk|
    ensures Unspoken(s, FailedWriteState(m, s, idx, b, written))
  {
    hide WriteLinear;
  }

  /** None of these is a cancel. */
  predicate NoCancel(out: seq<Outgoing>) { forall o :: o in out ==> !o.msg.Cancel? }

  lemma FillCancelsNothing(s: State, idx: nat, now: nat)
    requires idx < |s.peers|
    ensures NoCancel(FillRequests(s, idx, now).out)
  {
    hide Picker.PickBlocks, Picker.AfterPick, Picker.Release, Asked, Again, Asks;
    var p := s.peers[idx];
    AsksOnly(s.picker.geo, p.id, p.inFlight, s.picker.PickBlocks(p.has, SatSub(PIPELINE_DEPTH, |p.inFlight|)));
  }

  lemma JudgeCancelsNothing(m: Meta, s: State, index: nat, io: Io)
    ensures NoCancel(Judge(m, s, index, io).out)
  {
    hide Verify, BlameSuppliers, CreditBelow, DropPiece;
  }

  lemma NotedWithdraws(m: Meta, s: State, idx: nat, b: Block, data: seq<byte>, o: Outgoing)
    requires idx < |s.peers| && |s.disk| == Total(m.files) && m.geo.BlockStart(b) + |data| <= |s.disk| && s.picker.geo == m.geo
    ensures o in CancelElsewhere(NotedState(m, s, idx, b, data), idx, b).out <==> Withdraws(m.geo, s.peers, idx, b, |s.peers|, o)
  {
    hide NotedState, Cancels, Withdrawn, Picker.Lower;
    var noted := NotedState(m, s, idx, b, data);
    NotedPeers(m, s, idx, b, data);
    CancelsExactly(m.geo, noted.peers, idx, b, |noted.peers|);
    assert Withdraws(m.geo, s.peers, idx, b, |s.peers|, o) <==> Withdraws(m.geo, noted.peers, idx, b, |noted.peers|, o);
  }

  /** A block that was owed and could be written is withdrawn from exactly the
      others that owe it: each is sent a cancel for it, and no other cancel goes
      out. */
  lemma DeliveriesCancelTheRest(m: Meta, w: World, idx: nat, b: Block, data: seq<byte>, now: nat, io: Io, o: Outgoing)
    requires Reachable(m, w) && idx < |w.state.peers| && b in w.state.peers[idx].inFlight
    requires |data| == m.geo.BlockLen(b.0, b.1) && (io.write.Some? ==> io.write.value >= |data|) && o.msg.Cancel?
    ensures |w.state.disk| == Total(m.files)
    ensures o in OnBlock(m, w.state, idx, b.0, b.1 * BLOCK_LEN, data, now, io).out <==>
      exists j :: 0 <= j < |w.state.peers| && j != idx && b in w.state.peers[j].inFlight && o == Withdrawal(m.geo, w.state.peers[j].id, b)
  {
    hide Reachable, Inv, OnBlock, AcceptBlock, Judge, WriteLinear, FillRequests, SettledState, NotedState, CancelElsewhere, NoCancel;
    ReachableIsSafe(m, w);
    InvOf(m, w);
    var s := w.state;
    ShapeOf(m, s, w.log);
    OwedIsAccepted(m, s, w.log, idx, b, data, now, io);
    AcceptUnfolds(m, s, idx, b, data, io);
    NotedWithdraws(m, s, idx, b, data, o);
    JudgeCancelsNothing(m, SettledState(m, s, idx, b, data), b.0, io);
    var s1 := SetPeer(s, idx, s.peers[idx].(inFlight := s.peers[idx].inFlight - {b}, strikes := 0))
      .(disk := WriteLinear(m.files, s.disk, m.geo.BlockStart(b), data));
    var (e, refill) := AcceptBlock(m, s1, idx, b, |data|, io);
    FillCancelsNothing(e.state, idx, now);
    CancelIsElsewhere(o, CancelElsewhere(NotedState(m, s, idx, b, data), idx, b).out, Judge(m, SettledState(m, s, idx, b, data), b.0, io).out,
      FillRequests(e.state, idx, now).out);
  }

  lemma CancelIsElsewhere(o: Outgoing, a: seq<Outgoing>, b: seq<Outgoing>, c: seq<Outgoing>)
    requires o.msg.Cancel? && NoCancel(b) && NoCancel(c)
    ensures o in a <==> o in a + b
    ensures o in a <==> o in a + c
    ensures o in a <==> o in a + b + c
  {}

  // ----- messages

  lemma ServeOutbox(m: Meta, s: State, idx: nat, req: BlockRequest, io: Io)
    requires idx < |s.peers| && IdsOk(s.peers, s.nextId)
    ensures Outbox(m.geo, s, ServeRequest(m, s, idx, req, io))
  {
    hide Present;
    var e := ServeRequest(m, s, idx, req, io);
    SameOutbox(m.geo, s);
    if e.out != [] {
      forall k | 0 <= k < |s.peers| ensures Spoken(s.peers[k], e.state.peers[k], e.out) {
        OneMessage(s.peers[k].weChoke, e.out[0], s.peers[k].id);
        OneMessage(s.peers[k].weInterested, e.out[0], s.peers[k].id);
      }
    }
  }

  lemma UnchokeOutbox(m: Meta, s: State, log: set<Delivery>, idx: nat, now: nat)
    requires Inv(m, s, log) && idx < |s.peers| && s.peers[idx].hasOpened
    ensures Outbox(m.geo, s, FillRequests(SetPeer(s, idx, s.peers[idx].(peerChoking := false)), idx, now))
  {
    hide Inv, FillRequests, Outbox, PeerOk;
    var t := SetPeer(s, idx, s.peers[idx].(peerChoking := false));
    PeerIsOk(m, s, log, idx);
    UnchokedOk(s.picker, s.peers[idx]);
    EditFlagsKeeps(m, s, log, idx, t.peers[idx]);
    assert Unspoken(s, t);
    FillOutbox(m, t, log, idx, now);
    QuietThen(m.geo, s, t, FillRequests(t, idx, now));
  }

  lemma HaveOutbox(m: Meta, s: State, log: set<Delivery>, idx: nat, piece: nat, now: nat)
    requires Inv(m, s, log) && idx < |s.peers| && s.peers[idx].hasOpened
    requires piece < m.geo.numPieces && piece !in s.peers[idx].has
    ensures Outbox(m.geo, s,
      UpdateInterest(SetPeer(s, idx, s.peers[idx].(has := s.peers[idx].has + {piece})).(picker := s.picker.AddSingle(piece)), idx, now))
  {
    hide Inv, UpdateInterest, Outbox;
    var t := SetPeer(s, idx, s.peers[idx].(has := s.peers[idx].has + {piece})).(picker := s.picker.AddSingle(piece));
    HaveKeeps(m, s, log, idx, piece);
    assert Unspoken(s, t);
    InterestOutbox(m, t, log, idx, now);
    QuietThen(m.geo, s, t, UpdateInterest(t, idx, now));
  }

  lemma FieldOutbox(m: Meta, s: State, log: set<Delivery>, idx: nat, field: set<nat>, now: nat)
    requires Inv(m, s, log) && idx < |s.peers| && s.peers[idx].hasOpened && s.peers[idx].has == {}
    requires forall i :: i in field ==> i < m.geo.numPieces
    ensures Outbox(m.geo, s, UpdateInterest(ReplacePieceSet(s, idx, field), idx, now))
  {
    hide Inv, UpdateInterest, Outbox, Picker.AddBitfield, Picker.RemoveBitfield;
    var t := ReplacePieceSet(s, idx, field);
    ReplaceKeeps(m, s, log, idx, field);
    FieldKeepsHave(s.picker, s.peers[idx].has, field);
    assert Unspoken(s, t);
    InterestOutbox(m, t, log, idx, now);
    QuietThen(m.geo, s, t, UpdateInterest(t, idx, now));
  }

  lemma FieldKeepsHave(pk: Picker, was: set<nat>, field: set<nat>)
    ensures pk.RemoveBitfield(was).AddBitfield(field).have == pk.have
  {}

  /** Messages that lead to no request. */
  lemma FlagsOutbox(m: Meta, s: State, idx: nat, first: bool, msg: Message, now: nat, io: Io)
    requires idx < |s.peers| && |s.disk| == Total(m.files) && IdsOk(s.peers, s.nextId)
    requires msg.KeepAlive? || msg.Cancel? || msg.Extended? || msg.RejectRequest? || msg.SuggestPiece? || msg.AllowedFast?
      || msg.Choke? || msg.Interested? || msg.NotInterested? || msg.Request?
    ensures Outbox(m.geo, s, Dispatch(m, s, idx, first, msg, now, io))
  {
    hide RunChoker, Counting.Count, ServeRequest, Outbox, ReleaseAll, IdsOk;
    SameOutbox(m.geo, s);
    match msg {
      case Choke => ChokedUnspoken(m.geo, s, idx);
      case Interested => InterestedOutbox(m.geo, s, idx);
      case NotInterested => NotInterestedOutbox(m.geo, s, idx);
      case Request(req) => ServeOutbox(m, s, idx, req, io);
      case RejectRequest(_) | SuggestPiece(_) | AllowedFast(_) => ViolationOutbox(m.geo, s, s.peers[idx].id);
      case _ =>
    }
  }

  lemma InterestedOutbox(geo: Geometry, s: State, idx: nat)
    requires idx < |s.peers| && IdsOk(s.peers, s.nextId)
    ensures var t := SetPeer(s, idx, s.peers[idx].(theyInterested := true));
      Outbox(geo, s, Effect(t, [])) && Outbox(geo, s, RunChoker(t))
  {
    hide Outbox, RunChoker;
    var t := SetPeer(s, idx, s.peers[idx].(theyInterested := true));
    assert Unspoken(s, t);
    QuietOutbox(geo, s, t);
    RunChokerOutbox(geo, t);
    QuietThen(geo, s, t, RunChoker(t));
  }

  lemma NotInterestedOutbox(geo: Geometry, s: State, idx: nat)
    requires idx < |s.peers| && IdsOk(s.peers, s.nextId)
    ensures var p := s.peers[idx];
      var t := SetPeer(s, idx, p.(theyInterested := false, weChoke := true));
      Outbox(geo, s, Effect(t, if p.weChoke then [] else [Outgoing(p.id, Message.Choke)]))
  {
    hide Outbox;
    var p := s.peers[idx];
    var q := p.(theyInterested := false, weChoke := true);
    NoteOutbox(geo, s, idx, q, Message.Choke);
    if p.weChoke {
      assert Unspoken(s, SetPeer(s, idx, q));
      QuietOutbox(geo, s, SetPeer(s, idx, q));
    }
  }

  lemma ChokedUnspoken(geo: Geometry, s: State, idx: nat)
    requires idx < |s.peers|
    ensures Outbox(geo, s, Effect(ReleaseAll(SetPeer(s, idx, s.peers[idx].(peerChoking := true)), idx), []))
  {
    assert Unspoken(s, ReleaseAll(SetPeer(s, idx, s.peers[idx].(peerChoking := true)), idx));
  }

  lemma ViolationOutbox(geo: Geometry, s: State, id: nat)
    ensures Outbox(geo, s, Violation(s, id))
  {
    QuietOutbox(geo, s, Violation(s, id).state);
  }

  lemma HandleOutbox(m: Meta, s0: State, log: set<Delivery>, idx: nat, msg: Message, now: nat, io: Io)
    requires Inv(m, s0, log) && idx < |s0.peers| && |s0.disk| == Total(m.files)
    ensures Outbox(m.geo, s0, Handle(m, s0, idx, msg, now, io))
  {
    hide Inv, FillRequests, UpdateInterest, OnBlock, RunChoker, ServeRequest, ReplacePieceSet, Outbox, Counting.Count, ReleaseAll;
    var s := if Opens(msg) then SetPeer(s0, idx, s0.peers[idx].(hasOpened := true)) else s0;
    OpenKeeps(m, s0, log, idx);
    PeerFlags(m, s0, log, idx);
    ShapeOf(m, s, log);
    IdsOf(m, s, log);
    assert Unspoken(s0, s);
    SameOutbox(m.geo, s);
    ViolationOutbox(m.geo, s, s.peers[idx].id);
    match msg {
      case Unchoke => UnchokeOutbox(m, s, log, idx, now);
      case Have(piece) => if piece < m.geo.numPieces && piece !in s.peers[idx].has { HaveOutbox(m, s, log, idx, piece, now); }
      case Bitfield(bits) =>
        if !s0.peers[idx].hasOpened && Bitfields.Parse(bits, m.geo.numPieces).Ok? {
          FieldOutbox(m, s, log, idx, Bitfields.PiecesOf(bits, m.geo.numPieces), now);
        }
      case HaveAll => if !s0.peers[idx].hasOpened && s0.peers[idx].fast { FieldOutbox(m, s, log, idx, AllPieces(m.geo.numPieces), now); }
      case HaveNone => if !s0.peers[idx].hasOpened && s0.peers[idx].fast { FieldOutbox(m, s, log, idx, {}, now); }
      case Piece(index, begin, data) => OnBlockOutbox(m, s, log, idx, index, begin, data, now, io);
      case _ => FlagsOutbox(m, s, idx, !s0.peers[idx].hasOpened, msg, now, io);
    }
    QuietThen(m.geo, s0, s, Handle(m, s0, idx, msg, now, io));
  }

  // ----- ticks

  lemma MaintainPeerOutbox(m: Meta, s: State, log: set<Delivery>, idx: nat, now: nat)
    requires Inv(m, s, log) && idx < |s.peers|
    ensures var t := MaintainPeer(s, idx, now); Outbox(m.geo, s, Effect(t.state, t.out))
  {
    hide Inv, FillRequests, Outbox, Expired, Picker.Release;
    var p, late := s.peers[idx], Expired(s, s.peers[idx], now);
    var s' := SetPeer(s, idx, p.(inFlight := p.inFlight - late, strikes := p.strikes + 1)).(picker := s.picker.Release(late));
    FillOutbox(m, s, log, idx, now);
    LateKept(m, s, log, idx, now);
    assert Unspoken(s, s');
    QuietOutbox(m.geo, s, s');
    FillOutbox(m, s', log, idx, now);
    QuietThen(m.geo, s, s', FillRequests(s', idx, now));
  }

  lemma {:induction false} MaintainOutbox(m: Meta, s: State, log: set<Delivery>, now: nat, k: nat)
    requires Inv(m, s, log)
    ensures var t := MaintainBelow(s, now, k); Outbox(m.geo, s, Effect(t.state, t.out))
  {
    hide Inv, MaintainPeer, Outbox;
    if k == 0 {
      SameOutbox(m.geo, s);
    } else {
      MaintainOutbox(m, s, log, now, k - 1);
      MaintainKeeps(m, s, log, now, k - 1);
      var t := MaintainBelow(s, now, k - 1);
      if k - 1 < |t.state.peers| {
        MaintainPeerOutbox(m, t.state, log, k - 1, now);
        var u := MaintainPeer(t.state, k - 1, now);
        OutboxThrough(m.geo, s, Effect(t.state, t.out), Effect(u.state, u.out));
      }
    }
  }

  // ----- one step

  /** Every step but joining and leaving: what it sends is what it changed. */
  lemma StepOutbox(m: Meta, s: State, log: set<Delivery>, e: Event)
    requires Inv(m, s, log) && |s.disk| == Total(m.files) && !e.Register? && !e.DropPeer?
    ensures var o := Step(m, s, e); Outbox(m.geo, s, Effect(o.state, o.out))
  {
    hide Inv, Outbox, OnMessage, OnTick;
    match e {
      case Receive(id, msg, now, io) => MessageOutbox(m, s, log, id, msg, now, io);
      case Maintain(now) => TickOutbox(m, s, log, now);
      case SetPiecePriorities(_) | SetMode(_) | SetMaxPeers(_) | SetRequestTimeout(_) | SetChokeInterval(_) =>
        SettingOutbox(m, s, e);
      case _ =>
    }
  }

  lemma SettingOutbox(m: Meta, s: State, e: Event)
    requires |s.disk| == Total(m.files) && !e.Receive? && !e.Maintain? && !e.Register? && !e.DropPeer?
    ensures var o := Step(m, s, e); Outbox(m.geo, s, Effect(o.state, o.out))
  {
    hide Outbox;
    assert Unspoken(s, Step(m, s, e).state);
    QuietOutbox(m.geo, s, Step(m, s, e).state);
  }

  lemma MessageOutbox(m: Meta, s: State, log: set<Delivery>, id: nat, msg: Message, now: nat, io: Io)
    requires Inv(m, s, log) && |s.disk| == Total(m.files)
    ensures var o := OnMessage(m, s, id, msg, now, io); Outbox(m.geo, s, Effect(o.state, o.out))
  {
    hide Inv, Outbox, Handle, ChokeRoundIfDue;
    var found := Find(s.peers, id);
    var f := match found case None => Effect(s, []) case Some(k) => Handle(m, s, k, msg, now, io);
    SameOutbox(m.geo, s);
    var log' := log + Claims(s, id, msg);
    assert log + {} == log;
    if found.Some? {
      HandleOutbox(m, s, log, found.value, msg, now, io);
      HandleKeeps(m, s, log, found.value, msg, now, io);
    }
    RoundThen(m, s, f, log', now);
  }

  lemma RoundThen(m: Meta, s: State, f: Effect, log: set<Delivery>, now: nat)
    requires Inv(m, f.state, log) && Outbox(m.geo, s, f)
    ensures var c := ChokeRoundIfDue(f.state, now).After(f.out); Outbox(m.geo, s, Effect(c.state.(toDrop := []), c.out))
  {
    hide Inv, Outbox, ChokeRoundIfDue;
    IdsOf(m, f.state, log);
    RoundOutbox(m.geo, f.state, now);
    var c := ChokeRoundIfDue(f.state, now).After(f.out);
    OutboxThrough(m.geo, s, f, ChokeRoundIfDue(f.state, now));
    assert Unspoken(c.state, c.state.(toDrop := []));
    ThenQuiet(m.geo, s, c, c.state.(toDrop := []));
  }

  lemma TickOutbox(m: Meta, s: State, log: set<Delivery>, now: nat)
    requires Inv(m, s, log)
    ensures var o := OnTick(s, now); Outbox(m.geo, s, Effect(o.state, o.out))
  {
    hide Inv, Outbox, MaintainBelow, ChokeRoundIfDue;
    var t := MaintainBelow(s, now, |s.peers|);
    MaintainOutbox(m, s, log, now, |s.peers|);
    MaintainKeeps(m, s, log, now, |s.peers|);
    RoundThen(m, s, Effect(t.state, t.out), log, now);
  }

  // ----- every run

  /** What everybody connected has been sent agrees with the tables, and nobody
      yet to come has been sent anything. */
  ghost predicate SentAgrees(m: Meta, w: World) {
    && (forall k, b {:trigger b in w.state.peers[k].inFlight} ::
          0 <= k < |w.state.peers| && b in w.state.peers[k].inFlight ==> Asking(m.geo, w.state.peers[k].id, b) in w.sent)
    && (forall k :: 0 <= k < |w.state.peers| ==> Standing(w.state.peers[k], w.sent))
    && (forall o :: o in w.sent ==> o.to < w.state.nextId)
  }

  /** A peer has last heard how we stand towards it, starting out choked and of
      no interest to us, and our count of what we sent it is right. */
  predicate Standing(p: Peer, sent: seq<Outgoing>) {
    && p.weChoke == LastChoke(true, sent, p.id)
    && p.weInterested == LastInterest(false, sent, p.id)
    && p.uploaded == PieceBytes(sent, p.id)
  }

  lemma StandsOn(p: Peer, q: Peer, sent: seq<Outgoing>, out: seq<Outgoing>)
    requires Standing(p, sent) && Spoken(p, q, out) && q.id == p.id
    ensures Standing(q, sent + out)
  {
    ReadOn(true, sent, out, p.id);
    ReadOn(false, sent, out, p.id);
  }

  lemma OutboxAgrees(m: Meta, w: World, w': World, out: seq<Outgoing>)
    requires SentAgrees(m, w) && Outbox(m.geo, w.state, Effect(w'.state, out)) && w'.sent == w.sent + out
    requires w'.state.nextId == w.state.nextId && IdsOk(w.state.peers, w.state.nextId)
    ensures SentAgrees(m, w')
  {
    hide Standing, Spoken;
    forall k | 0 <= k < |w'.state.peers| ensures Standing(w'.state.peers[k], w'.sent) {
      StandsOn(w.state.peers[k], w'.state.peers[k], w.sent, out);
    }
    forall k, b | 0 <= k < |w'.state.peers| && b in w'.state.peers[k].inFlight
      ensures Asking(m.geo, w'.state.peers[k].id, b) in w'.sent
    {
      if b in w.state.peers[k].inFlight { assert Asking(m.geo, w.state.peers[k].id, b) in w.sent; }
    }
  }

  lemma JoinAgrees(m: Meta, w: World, t: State, dest: Dest, fast: bool)
    requires SentAgrees(m, w) && t == RegisterPeer(w.state, dest, fast) && IdsOk(w.state.peers, w.state.nextId)
    ensures SentAgrees(m, w.(state := t))
  {
    hide Refused;
    if t != w.state {
      var id := w.state.nextId;
      ReadSilent(true, w.sent, id);
      ReadSilent(false, w.sent, id);
    }
  }

  lemma LeaveAgrees(m: Meta, w: World, id: nat)
    requires SentAgrees(m, w)
    ensures SentAgrees(m, w.(state := RemovePeer(w.state, id)))
  {
    hide Standing, Picker.RemoveBitfield, Picker.Release;
    var t := RemovePeer(w.state, id);
    forall k | 0 <= k < |t.peers| ensures t.peers[k] in w.state.peers {}
    forall k | 0 <= k < |t.peers| ensures Standing(t.peers[k], w.sent) {
      var j :| 0 <= j < |w.state.peers| && w.state.peers[j] == t.peers[k];
    }
    forall k, b | 0 <= k < |t.peers| && b in t.peers[k].inFlight ensures Asking(m.geo, t.peers[k].id, b) in w.sent {
      var j :| 0 <= j < |w.state.peers| && w.state.peers[j] == t.peers[k];
      assert b in w.state.peers[j].inFlight;
    }
  }

  lemma StepAgrees(m: Meta, w: World, e: Event)
    requires WorldInv(m, w) && SentAgrees(m, w)
    ensures SentAgrees(m, WorldStep(m, w, e))
  {
    hide Inv, SentAgrees, Outbox, OnMessage, OnTick, RegisterPeer, RemovePeer, Enforced;
    InvOf(m, w);
    ShapeOf(m, w.state, w.log);
    IdsOf(m, w.state, w.log);
    var o, w' := Step(m, w.state, e), WorldStep(m, w, e);
    if e.Register? {
      JoinAgrees(m, w, o.state, e.dest, e.fast);
      assert w.sent + [] == w.sent;
      SameSentAgrees(m, w.(state := o.state), w');
    } else if e.DropPeer? {
      LeaveAgrees(m, w, e.id);
      assert w.sent + [] == w.sent;
      SameSentAgrees(m, w.(state := o.state), w');
    } else {
      StepOutbox(m, w.state, w.log, e);
      StepEnforces(m, w.state, e);
      EnforcedNextId(m, w.state, e, o);
      OutboxAgrees(m, w, w', o.out);
    }
  }

  lemma EnforcedNextId(m: Meta, s: State, e: Event, o: Outcome)
    requires Enforced(m, s, e, o)
    ensures o.state.nextId == s.nextId
  {}

  lemma SameSentAgrees(m: Meta, w: World, w': World)
    requires SentAgrees(m, w) && w'.state == w.state && w'.sent == w.sent
    ensures SentAgrees(m, w')
  {}

  lemma {:induction false} RunAgrees(m: Meta, w: World, events: seq<Event>)
    requires WorldInv(m, w) && SentAgrees(m, w)
    ensures SentAgrees(m, Run(m, w, events))
  {
    hide WorldInv, SentAgrees, WorldStep;
    if events != [] {
      var init := events[..|events| - 1];
      RunAgrees(m, w, init);
      RunKeeps(m, w, init);
      StepAgrees(m, Run(m, w, init), events[|events| - 1]);
    }
  }

  lemma ReachableAgrees(m: Meta, w: World)
    requires Reachable(m, w)
    ensures SentAgrees(m, w)
  {
    hide FairStart, Run;
    var disk, have, mode, events :| FairStart(m, disk, have) && w == Run(m, Beginning(m, disk, have, mode), events);
    BeginsWell(m, disk, have, mode);
    RunAgrees(m, Beginning(m, disk, have, mode), events);
  }

  /** In every reachable state whatever a peer owes was requested of it. */
  lemma DebtsWereRequested(m: Meta, w: World, k: nat, b: Block)
    requires Reachable(m, w) && k < |w.state.peers| && b in w.state.peers[k].inFlight
    ensures Outgoing(w.state.peers[k].id, Request(m.geo.RequestFor(b))) in w.sent
  {
    hide Reachable;
    ReachableAgrees(m, w);
    assert Asking(m.geo, w.state.peers[k].id, b) in w.sent;
  }

  /** What answers a request for a block, with as many bytes as it asks for, is
      taken as that block. */
  lemma AnswersAreTaken(m: Meta, p: Peer, b: Block, data: seq<byte>)
    requires b in p.inFlight && |data| == m.geo.RequestFor(b).length
    ensures var r := m.geo.RequestFor(b);
      (r.index, r.begin / BLOCK_LEN) == b && !Unasked(m, p, r.index, r.begin, data)
      && m.geo.BlockStart(b) == m.geo.PieceStart(r.index) + r.begin
  {
    assert (b.1 * BLOCK_LEN) / BLOCK_LEN == b.1;
  }

  /** In every reachable state each peer has last heard from us how we stand
      towards it, and what we count as uploaded to it is what we sent it. */
  lemma PeersKnowHowWeStand(m: Meta, w: World, k: nat)
    requires Reachable(m, w) && k < |w.state.peers|
    ensures var p := w.state.peers[k];
      && p.weChoke == LastChoke(true, w.sent, p.id)
      && p.weInterested == LastInterest(false, w.sent, p.id)
      && p.uploaded == PieceBytes(w.sent, p.id)
  {
    hide Reachable;
    ReachableAgrees(m, w);
    assert Standing(w.state.peers[k], w.sent);
  }

  // ----- announcements over a run

  predicate Connected(s: State, id: nat) { exists k :: 0 <= k < |s.peers| && s.peers[k].id == id }

  /** Ids are not used again: whoever has an old one was there before. */
  lemma StayedOn(m: Meta, w: World, e: Event, id: nat)
    requires WorldInv(m, w)
    ensures w.state.nextId <= WorldStep(m, w, e).state.nextId
    ensures Connected(WorldStep(m, w, e).state, id) && id < w.state.nextId ==> Connected(w.state, id)
  {
    hide Inv, OnMessage, OnTick, Picker.RemoveBitfield, Picker.Release, Refused;
    InvOf(m, w);
    ShapeOf(m, w.state, w.log);
    var s, t := w.state, WorldStep(m, w, e).state;
    if !e.Register? && !e.DropPeer? {
      StepEnforces(m, s, e);
      EnforcedSeats(m, s, e, Step(m, s, e), id);
    } else if Connected(t, id) && id < s.nextId {
      var k :| 0 <= k < |t.peers| && t.peers[k].id == id;
      assert t.peers[k] in s.peers;
    }
  }

  lemma EnforcedSeats(m: Meta, s: State, e: Event, o: Outcome, id: nat)
    requires Enforced(m, s, e, o)
    ensures o.state.nextId == s.nextId && (Connected(o.state, id) <==> Connected(s, id))
  {
    hide Culprits, JustBanned, Condemned;
    if Connected(s, id) {
      var k :| 0 <= k < |s.peers| && s.peers[k].id == id;
      assert o.state.peers[k].id == id;
    }
  }

  /** A step tells everybody connected throughout of what it completes. */
  lemma StepAnnounces(m: Meta, w: World, e: Event, id: nat, i: nat)
    requires WorldInv(m, w) && Connected(w.state, id)
    requires i in WorldStep(m, w, e).state.picker.have && i !in w.state.picker.have
    ensures Outgoing(id, Have(i)) in WorldStep(m, w, e).sent
  {
    hide Inv, OnMessage, OnTick, Picker.RemoveBitfield, Picker.Release, Refused, AskedFor, AllSpoken, Addressed;
    InvOf(m, w);
    ShapeOf(m, w.state, w.log);
    var k :| 0 <= k < |w.state.peers| && w.state.peers[k].id == id;
    if !e.Register? && !e.DropPeer? {
      StepOutbox(m, w.state, w.log, e);
      assert Outgoing(w.state.peers[k].id, Have(i)) in Step(m, w.state, e).out;
    } else {
      JoinOrLeaveKeepsHave(m, w.state, e);
    }
  }

  lemma JoinOrLeaveKeepsHave(m: Meta, s: State, e: Event)
    requires (e.Register? || e.DropPeer?) && |s.disk| == Total(m.files)
    ensures Step(m, s, e).state.picker.have == s.picker.have
  {
    hide Refused;
  }

  lemma SentOnlyGrows(m: Meta, w: World, e: Event)
    ensures forall o :: o in w.sent ==> o in WorldStep(m, w, e).sent
  {}

  /** Whoever is connected before and after a run was told of every piece that
      came to be held in between. */
  lemma {:induction false} RunAnnounces(m: Meta, w: World, events: seq<Event>, id: nat)
    requires WorldInv(m, w) && id < w.state.nextId
    ensures var later := Run(m, w, events);
      && w.state.nextId <= later.state.nextId
      && (Connected(later.state, id) ==> Connected(w.state, id))
      && (forall i :: Connected(later.state, id) && i in later.state.picker.have && i !in w.state.picker.have ==>
            Outgoing(id, Have(i)) in later.sent)
  {
    hide WorldInv, WorldStep, Connected;
    if events != [] {
      var init, e := events[..|events| - 1], events[|events| - 1];
      RunAnnounces(m, w, init, id);
      RunKeeps(m, w, init);
      var u := Run(m, w, init);
      StayedOn(m, u, e, id);
      SentOnlyGrows(m, u, e);
      var later := WorldStep(m, u, e);
      if Connected(later.state, id) {
        forall i | i in later.state.picker.have && i !in w.state.picker.have ensures Outgoing(id, Have(i)) in later.sent {
          if i in u.state.picker.have { assert Outgoing(id, Have(i)) in u.sent; } else { StepAnnounces(m, u, e, id, i); }
        }
      }
    }
  }

  /** From any reachable state on: a peer that is connected now and later has
      been told of every piece that came to be held in the meantime. */
  lemma NewPiecesAreAnnounced(m: Meta, w: World, events: seq<Event>, id: nat, i: nat)
    requires Reachable(m, w) && Connected(w.state, id) && Connected(Run(m, w, events).state, id)
    requires i in Run(m, w, events).state.picker.have && i !in w.state.picker.have
    ensures Outgoing(id, Have(i)) in Run(m, w, events).sent
  {
    hide Reachable, Run, Inv;
    ReachableIsSafe(m, w);
    InvOf(m, w);
    IdsOf(m, w.state, w.log);
    RunAnnounces(m, w, events, id);
  }
}
