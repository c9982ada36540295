// The torrent coordinator as the mutable state of
// crates/clove-core/src/torrent.rs: every handler, with its loops, proved
// equal to the step it is in EngineSpec.
module Torrents {
  import opened Prelude
  import opened Wire
  import opened DiskSpec
  import opened EngineSpec
  import PickerSpec
  import PickerTheory
  import ChokerSpec
  import EngineSteps
  import EngineDelivery
  import EngineInvariant
  import Bitfields
  import Counting
  import Sorting
  import Pickers
  import Chokers
  import Storages

  lemma NothingAsked(geo: Geometry, id: nat, inFlight: map<Block, nat>, now: nat)
    ensures Asked(inFlight, [], now) == inFlight && Again(inFlight, []) == {} && Asks(geo, id, inFlight, []) == []
  {}

  /** Asking for one more block, not asked for already in this round. */
  lemma OneMoreAsked(geo: Geometry, id: nat, owed: map<Block, nat>, blocks: seq<Block>, b: Block, now: nat)
    requires b !in blocks
    ensures Asked(owed, blocks + [b], now) == Asked(owed, blocks, now)[b := now]
    ensures b in Asked(owed, blocks, now) <==> b in owed
    ensures Again(owed, blocks + [b]) == Again(owed, blocks) + (if b in owed then {b} else {})
    ensures Asks(geo, id, owed, blocks + [b]) ==
      Asks(geo, id, owed, blocks) + (if b in owed then [] else [Outgoing(id, Request(geo.RequestFor(b)))])
  {
    assert (blocks + [b])[..|blocks|] == blocks;
    assert Asked(owed, blocks + [b], now).Keys == (Asked(owed, blocks, now)[b := now]).Keys;
  }

  lemma HandleIsDispatch(m: Meta, s: State, idx: nat, msg: Message, now: nat, io: Io)
    requires idx < |s.peers| && |s.disk| == Total(m.files)
    ensures var p := s.peers[idx];
      Handle(m, s, idx, msg, now, io) ==
        Dispatch(m, if Opens(msg) then SetPeer(s, idx, p.(hasOpened := true)) else s, idx, !p.hasOpened, msg, now, io)
  {
    hide Dispatch, Opens;
  }

  lemma WithdrawnNone(peers: seq<Peer>, idx: nat, b: Block)
    ensures Withdrawn(peers, idx, b, 0) == peers
  {}

  /** Withdrawing a block from one more peer. */
  lemma WithdrawnNext(peers: seq<Peer>, idx: nat, b: Block, k: nat)
    requires k < |peers|
    ensures |Withdrawn(peers, idx, b, k)| == |peers| && Withdrawn(peers, idx, b, k)[k] == peers[k]
    ensures Withdrawn(peers, idx, b, k + 1) ==
      if k != idx && b in peers[k].inFlight
      then Withdrawn(peers, idx, b, k)[k := peers[k].(inFlight := peers[k].inFlight - {b})]
      else Withdrawn(peers, idx, b, k)
  {
    assert b !in peers[k].inFlight ==> peers[k].inFlight - {b} == peers[k].inFlight;
  }

  lemma DropNone(suppliers: map<Block, Dest>, index: nat)
    ensures DropPiece(suppliers, index, 0) == suppliers
  {}

  lemma DropNext(suppliers: map<Block, Dest>, index: nat, k: nat)
    ensures (index, k) in DropPiece(suppliers, index, k) <==> (index, k) in suppliers
    ensures (index, k) in suppliers ==> DropPiece(suppliers, index, k)[(index, k)] == suppliers[(index, k)]
    ensures DropPiece(suppliers, index, k + 1) == DropPiece(suppliers, index, k) - {(index, k)}
  {}

  class Torrent {
    const meta: Meta
    const picker: Pickers.Picker
    const choker: Chokers.Choker
    const storage: Storages.Storage
    var lastChokeRound: nat
    var chokeInterval: nat
    var requestTimeout: nat
    var peers: seq<Peer>
    var nextId: nat
    var maxPeers: nat
    var suppliers: map<Block, Dest>
    var banned: set<Dest>
    var suspicion: map<Dest, nat>
    var toDrop: seq<(nat, bool)>
    var storageError: bool

    ghost predicate Valid()
      reads this, picker, choker, storage
    {
      && picker.View().Valid() && picker.geo == meta.geo
      && storage.Valid() && storage.meta == meta
      && choker.Valid()
    }

    ghost function View(): State
      requires storage.Valid()
      reads this, picker, choker, storage
    {
      State(picker.View(), choker.maxUnchoked, choker.round, lastChokeRound, chokeInterval, requestTimeout, peers,
            nextId, maxPeers, suppliers, banned, suspicion, toDrop, storageError, storage.View())
    }

    constructor (meta: Meta, storage: Storages.Storage, initialHave: set<nat>, mode: PickerSpec.Mode)
      requires storage.Valid() && storage.meta == meta
      ensures Valid() && this.meta == meta && this.storage == storage && fresh(picker) && fresh(choker)
      ensures View() == Start(meta, old(storage.View()), initialHave, mode)
    {
      this.meta := meta;
      this.storage := storage;
      this.picker := new Pickers.Picker(meta.geo, mode);
      this.choker := new Chokers.Choker(4);
      lastChokeRound, chokeInterval, requestTimeout := 0, 10, 90;
      peers, nextId, maxPeers := [], 0, USIZE_MAX;
      suppliers, banned, suspicion, toDrop, storageError := map[], {}, map[], [], false;
      new;
      var i := 0;
      while i < meta.geo.numPieces
        invariant i <= meta.geo.numPieces && picker.View().Valid()
        invariant picker.View() == HaveAllOf(PickerSpec.NewPicker(meta.geo, mode), initialHave, i)
        modifies picker
      {
        if i in initialHave {
          picker.SetHave(i);
        }
        i := i + 1;
      }
    }

    // ----- requesting

    /** Top up a peer's request pipeline from the picker. */
    method FillRequests(idx: nat, now: nat) returns (out: seq<Outgoing>)
      requires Valid() && idx < |peers|
      modifies this`peers, picker
      ensures Valid() && Effect(View(), out) == EngineSpec.FillRequests(old(View()), idx, now)
      ensures |peers| == |old(peers)|
    {
      hide PickerSpec.Picker.PickBlocks, PickerSpec.Picker.Release, PickerSpec.Picker.AfterPick, Asked, Asks, Again, Linear;
      out := [];
      var p := peers[idx];
      if p.peerChoking || !p.weInterested {
        return;
      }
      var space := SatSub(PIPELINE_DEPTH, |p.inFlight|);
      if space == 0 {
        return;
      }
      ghost var blocks := picker.View().PickBlocks(p.has, space);
      PickerTheory.PickHandsOutTheBest(picker.View(), p.has, space);
      var requests := picker.Pick(p.has, space);
      var inFlight, duplicates := p.inFlight, {};
      inFlight, duplicates, out := Insert(p, requests, blocks, now);
      picker.BlocksFailed(duplicates);
      peers := peers[idx := p.(inFlight := inFlight)];
    }

    /** Note the requests handed out, setting aside blocks the peer already owes. */
    method Insert(p: Peer, requests: seq<BlockRequest>, ghost blocks: seq<Block>, now: nat)
      returns (inFlight: map<Block, nat>, duplicates: set<Block>, out: seq<Outgoing>)
      requires requests == PickerSpec.Requests(meta.geo, blocks) && Sorting.Distinct(blocks)
      ensures inFlight == Asked(p.inFlight, blocks, now)
      ensures duplicates == Again(p.inFlight, blocks)
      ensures out == Asks(meta.geo, p.id, p.inFlight, blocks)
    {
      hide Asked, Again, Asks;
      inFlight, duplicates, out := p.inFlight, {}, [];
      NothingAsked(meta.geo, p.id, p.inFlight, now);
      assert blocks[..0] == [];
      var k := 0;
      while k < |requests|
        invariant k <= |requests|
        invariant inFlight == Asked(p.inFlight, blocks[..k], now)
        invariant duplicates == Again(p.inFlight, blocks[..k])
        invariant out == Asks(meta.geo, p.id, p.inFlight, blocks[..k])
      {
        var req := requests[k];
        var block: Block := (req.index, req.begin / BLOCK_LEN);
        assert block == blocks[k] && req == meta.geo.RequestFor(block);
        OneMoreAsked(meta.geo, p.id, p.inFlight, blocks[..k], block, now);
        assert blocks[..k + 1] == blocks[..k] + [block];
        if block in inFlight {
          duplicates := duplicates + {block};
        } else {
          out := out + [Outgoing(p.id, Request(req))];
        }
        inFlight := inFlight[block := now];
        k := k + 1;
      }
      assert blocks[..k] == blocks;
    }

    method UpdateInterest(idx: nat, now: nat) returns (out: seq<Outgoing>)
      requires Valid() && idx < |peers|
      modifies this`peers, picker
      ensures Valid() && Effect(View(), out) == EngineSpec.UpdateInterest(old(View()), idx, now)
      ensures |peers| == |old(peers)|
    {
      out := [];
      var p := peers[idx];
      var want := exists i :: i in p.has && i !in picker.have;
      assert want == Interesting(View(), p);
      if want && !p.weInterested {
        peers := peers[idx := p.(weInterested := true)];
        out := [Outgoing(p.id, Message.Interested)];
        if !p.peerChoking {
          var more := FillRequests(idx, now);
          out := out + more;
        }
      } else if !want && p.weInterested {
        peers := peers[idx := p.(weInterested := false)];
        out := [Outgoing(p.id, NotInterested)];
      }
    }

    method ReplacePieceSet(idx: nat, field: set<nat>)
      requires Valid() && idx < |peers|
      modifies this`peers, picker
      ensures Valid() && View() == EngineSpec.ReplacePieceSet(old(View()), idx, field)
      ensures |peers| == |old(peers)|
    {
      var was := peers[idx].has;
      peers := peers[idx := peers[idx].(has := field)];
      picker.RemoveBitfield(was);
      picker.AddBitfield(field);
    }

    // ----- delivery

    /** Withdraw a block that arrived from `idx` from everybody else. */
    method CancelElsewhere(idx: nat, b: Block) returns (out: seq<Outgoing>)
      requires Valid()
      modifies this`peers, picker
      ensures Valid() && Effect(View(), out) == EngineSpec.CancelElsewhere(old(View()), idx, b)
      ensures |peers| == |old(peers)|
    {
      hide Withdrawn, PickerSpec.Picker.Lower;
      ghost var pk, before := picker.View(), peers;
      out := [];
      PickerTheory.LowerNone(pk, b);
      WithdrawnNone(before, idx, b);
      var other := 0;
      while other < |peers|
        invariant other <= |peers| == |before| && Valid()
        invariant peers == Withdrawn(before, idx, b, other)
        invariant out == Cancels(meta.geo, before, idx, b, other)
        invariant picker.View() == pk.Lower(b, |out|)
      {
        var p := peers[other];
        WithdrawnNext(before, idx, b, other);
        if other != idx && b in p.inFlight {
          peers := peers[other := p.(inFlight := p.inFlight - {b})];
          PickerTheory.LowerTwice(pk, b, |out|, 1);
          picker.BlockFailed(b);
          out := out + [Outgoing(p.id, Cancel(BlockRequest(b.0, b.1 * BLOCK_LEN, meta.geo.BlockLen(b.0, b.1))))];
        }
        other := other + 1;
      }
    }

    method CreditSuppliers(index: nat)
      requires Valid()
      modifies this`suppliers, this`suspicion
      ensures Valid() && View() == EngineSpec.CreditSuppliers(old(View()), index)
    {
      hide DropPiece;
      ghost var was := suppliers;
      DropNone(was, index);
      var block := 0;
      while block < meta.geo.Blocks(index)
        invariant block <= meta.geo.Blocks(index)
        invariant suppliers == DropPiece(was, index, block)
        invariant suspicion == CreditBelow(old(suspicion), was, index, block)
      {
        DropNext(was, index, block);
        if (index, block) in suppliers {
          var dest := suppliers[(index, block)];
          if dest in suspicion {
            if suspicion[dest] <= 1 {
              suspicion := suspicion - {dest};
            } else {
              suspicion := suspicion[dest := suspicion[dest] - 1];
            }
          }
        }
        suppliers := suppliers - {(index, block)};
        block := block + 1;
      }
    }

    /** Take the suppliers of a piece out of the table, naming each once. */
    method TakeContributors(index: nat) returns (who: seq<Dest>)
      requires Valid()
      modifies this`suppliers
      ensures suppliers == DropPiece(old(suppliers), index, meta.geo.Blocks(index))
      ensures who == Contributors(old(suppliers), index, meta.geo.Blocks(index))
    {
      hide DropPiece;
      ghost var was := suppliers;
      DropNone(was, index);
      who := [];
      var block := 0;
      while block < meta.geo.Blocks(index)
        invariant block <= meta.geo.Blocks(index)
        invariant suppliers == DropPiece(was, index, block)
        invariant who == Contributors(was, index, block)
      {
        DropNext(was, index, block);
        if (index, block) in suppliers && suppliers[(index, block)] !in who {
          who := who + [suppliers[(index, block)]];
        }
        suppliers := suppliers - {(index, block)};
        block := block + 1;
      }
    }

    method Ban(dest: Dest)
      requires Valid()
      modifies this`banned, this`suspicion, this`toDrop
      ensures Valid() && View() == EngineSpec.Ban(old(View()), dest)
    {
      banned := banned + {dest};
      suspicion := suspicion - {dest};
      var held: seq<(nat, bool)>, k := [], 0;
      while k < |peers|
        invariant k <= |peers| && held == Connections(peers[..k], dest)
      {
        assert peers[..k + 1][..k] == peers[..k];
        if peers[k].dest == dest {
          held := held + [(peers[k].id, true)];
        }
        k := k + 1;
      }
      assert peers[..k] == peers;
      toDrop := toDrop + held;
    }

    method BanAll(dests: seq<Dest>)
      requires Valid()
      modifies this`banned, this`suspicion, this`toDrop
      ensures Valid() && View() == EngineSpec.BanAll(old(View()), dests)
    {
      ghost var s := View();
      var k := 0;
      while k < |dests|
        invariant k <= |dests| && Valid()
        invariant View() == EngineSpec.BanAll(s, dests[..k])
      {
        assert dests[..k + 1][..k] == dests[..k];
        Ban(dests[k]);
        k := k + 1;
      }
      assert dests[..k] == dests;
    }

    method BlameSuppliers(index: nat)
      requires Valid()
      modifies this`suppliers, this`banned, this`suspicion, this`toDrop
      ensures Valid() && View() == EngineSpec.BlameSuppliers(old(View()), index)
    {
      hide EngineSpec.BanAll, Suspected, OverLimit, Contributors, DropPiece;
      var who := TakeContributors(index);
      if |who| == 1 {
        BanAll(who);
      } else if |who| > 1 {
        var culprits := Suspect(who);
        BanAll(culprits);
      }
    }

    /** Several share the suspicion: count it for each, and name those over the limit. */
    method Suspect(who: seq<Dest>) returns (culprits: seq<Dest>)
      modifies this`suspicion
      ensures suspicion == Suspected(old(suspicion), who) && culprits == OverLimit(suspicion, who)
    {
      var k := 0;
      while k < |who|
        invariant k <= |who|
        invariant suspicion == Suspected(old(suspicion), who[..k])
      {
        assert who[..k + 1][..k] == who[..k];
        suspicion := suspicion[who[k] := (if who[k] in suspicion then suspicion[who[k]] else 0) + 1];
        k := k + 1;
      }
      assert who[..k] == who;
      culprits, k := [], 0;
      while k < |who|
        invariant k <= |who| && culprits == OverLimit(suspicion, who[..k])
      {
        assert who[..k + 1][..k] == who[..k];
        if who[k] in suspicion && suspicion[who[k]] >= SUSPICION_LIMIT {
          culprits := culprits + [who[k]];
        }
        k := k + 1;
      }
      assert who[..k] == who;
    }

    /** The last block of a piece is in: verify it from disk before trusting it. */
    method Judge(index: nat, io: Io) returns (out: seq<Outgoing>)
      requires Valid()
      modifies this, picker
      ensures Valid() && Effect(View(), out) == EngineSpec.Judge(meta, old(View()), index, io)
      ensures |peers| == |old(peers)|
    {
      out := [];
      var verdict := storage.VerifyPiece(index, io.verify);
      match verdict {
        case Matches =>
          picker.SetHave(index);
          CreditSuppliers(index);
          var k := 0;
          while k < |peers|
            invariant k <= |peers| && out == Announce(peers[..k], index)
          {
            out := out + [Outgoing(peers[k].id, Message.Have(index))];
            k := k + 1;
          }
          assert peers[..k] == peers;
        case Mismatch =>
          picker.ResetPiece(index);
          BlameSuppliers(index);
        case Unreadable =>
          storageError := true;
      }
    }

    /** A peer sent a block: validate, persist, advance the picker, and on piece
        completion verify, announce and refill. */
    method OnBlock(idx: nat, index: nat, begin: nat, data: seq<byte>, now: nat, io: Io) returns (out: seq<Outgoing>)
      requires Valid() && idx < |peers|
      requires |storage.View()| == Total(meta.files)
      modifies this, picker, storage
      ensures Valid() && Effect(View(), out) == EngineSpec.OnBlock(meta, old(View()), idx, index, begin, data, now, io)
    {
      hide EngineSpec.FillRequests, EngineSpec.StoreBlock, PickerSpec.Picker.Lower, PickerSpec.Picker.Valid, Linear;
      out := [];
      if begin % BLOCK_LEN != 0 || index >= meta.geo.numPieces {
        return;
      }
      var b: Block := (index, begin / BLOCK_LEN);
      if |data| != meta.geo.BlockLen(b.0, b.1) {
        return;
      }
      var asked := b in peers[idx].inFlight;
      if asked {
        var p := peers[idx];
        peers := peers[idx := p.(inFlight := p.inFlight - {b}, strikes := 0)];
      }
      if !asked || index in picker.have {
      } else if picker.View().Received(b) {
        picker.BlockFailed(b);
      } else {
        var refill;
        out, refill := StoreBlock(idx, b, data, io);
        if !refill {
          return;
        }
      }
      var more := FillRequests(idx, now);
      assert [] + more == more;
      out := out + more;
    }

    method StoreBlock(idx: nat, b: Block, data: seq<byte>, io: Io) returns (out: seq<Outgoing>, refill: bool)
      requires Valid() && idx < |peers| && |storage.View()| == Total(meta.files)
      modifies this, picker, storage
      ensures Valid() && (Effect(View(), out), refill) == EngineSpec.StoreBlock(meta, old(View()), idx, b, data, io)
      ensures |peers| == |old(peers)|
    {
      hide EngineSpec.AcceptBlock, PickerSpec.Picker.Lower, PickerSpec.Picker.Valid, WriteLinear, Linear;
      out, refill := [], true;
      var written := storage.WriteBlock(b.0, b.1 * BLOCK_LEN, data, io.write);
      if written.Err? {
        picker.BlockFailed(b);
        storageError := true;
      } else {
        out, refill := AcceptBlock(idx, b, |data|, io);
      }
    }

    method AcceptBlock(idx: nat, b: Block, len: nat, io: Io) returns (out: seq<Outgoing>, whole: bool)
      requires Valid() && idx < |peers|
      modifies this, picker
      ensures Valid() && (Effect(View(), out), whole) == EngineSpec.AcceptBlock(meta, old(View()), idx, b, len, io)
      ensures |peers| == |old(peers)|
    {
      hide EngineSpec.CancelElsewhere, EngineSpec.Judge, PickerSpec.Picker.BlockReceived, PickerSpec.Picker.Valid, Linear;
      var p := peers[idx];
      peers := peers[idx := p.(downloaded := p.downloaded + len)];
      suppliers := suppliers[b := p.dest];
      out := CancelElsewhere(idx, b);
      whole := picker.BlockReceived(b);
      if whole {
        var more := Judge(b.0, io);
        out := out + more;
      }
    }

    method ServeRequest(idx: nat, req: BlockRequest, io: Io) returns (out: seq<Outgoing>)
      requires Valid() && idx < |peers|
      modifies this`peers
      ensures Valid() && Effect(View(), out) == EngineSpec.ServeRequest(meta, old(View()), idx, req, io)
    {
      out := [];
      var p := peers[idx];
      if p.weChoke || req.length == 0 || req.length > BLOCK_LEN
         || req.begin + req.length > meta.geo.PieceLen(req.index) || req.index !in picker.have {
        return;
      }
      var read := storage.ReadBlock(req.index, req.begin, req.length, io.serve);
      if read.Ok? {
        peers := peers[idx := p.(uploaded := p.uploaded + |read.value|)];
        out := [Outgoing(p.id, Piece(req.index, req.begin, read.value))];
      }
    }

    // ----- choking

    method SetChoke(id: nat, choke: bool) returns (out: seq<Outgoing>)
      requires Valid()
      modifies this`peers
      ensures Valid() && Effect(View(), out) == EngineSpec.SetChoke(old(View()), id, choke)
    {
      out := [];
      var found := Find(peers, id);
      if found.Some? {
        peers := peers[found.value := peers[found.value].(weChoke := choke)];
        out := [Outgoing(id, if choke then Choke else Unchoke)];
      }
    }

    method SetChokes(ids: seq<nat>, choke: bool) returns (out: seq<Outgoing>)
      requires Valid()
      modifies this`peers
      ensures Valid() && Effect(View(), out) == EngineSpec.SetChokes(old(View()), ids, choke)
    {
      ghost var s := View();
      out := [];
      var k := 0;
      while k < |ids|
        invariant k <= |ids| && Valid()
        invariant Effect(View(), out) == EngineSpec.SetChokes(s, ids[..k], choke)
      {
        assert ids[..k + 1][..k] == ids[..k];
        var more := SetChoke(ids[k], choke);
        out := out + more;
        k := k + 1;
      }
      assert ids[..k] == ids;
    }

    method RunChoker() returns (out: seq<Outgoing>)
      requires Valid()
      modifies this`peers, choker`round
      ensures Valid() && Effect(View(), out) == EngineSpec.RunChoker(old(View()))
    {
      hide EngineSpec.SetChokes, ChokerSpec.Plan, Linear, PickerSpec.Picker.Valid;
      var snapshots := TakeSnapshots();
      MarkRound();
      var decision := choker.Plan(snapshots);
      out := SetChokes(decision.unchoke, false);
      var more := SetChokes(decision.choke, true);
      out := out + more;
    }

    method TakeSnapshots() returns (snapshots: seq<ChokerSpec.Snapshot>)
      requires Valid()
      ensures snapshots == Snapshots(View())
    {
      var seeding := picker.View().Complete();
      snapshots := [];
      var k := 0;
      while k < |peers|
        invariant k <= |peers| && |snapshots| == k
        invariant forall j :: 0 <= j < k ==> snapshots[j] == SnapshotOf(seeding, peers[j])
      {
        snapshots := snapshots + [SnapshotOf(seeding, peers[k])];
        k := k + 1;
      }
    }

    /** Remember the byte counters as they stand at this round. */
    method MarkRound()
      modifies this`peers
      ensures peers == Ranked(old(peers))
    {
      var k := 0;
      while k < |peers|
        invariant k <= |peers| == |old(peers)|
        invariant forall j :: 0 <= j < k ==> peers[j] == Ranked(old(peers))[j]
        invariant forall j :: k <= j < |peers| ==> peers[j] == old(peers)[j]
      {
        var p := peers[k];
        peers := peers[k := p.(uploadedAtRound := p.uploaded, downloadedAtRound := p.downloaded)];
        k := k + 1;
      }
    }

    method ChokeRoundIfDue(now: nat) returns (out: seq<Outgoing>)
      requires Valid()
      modifies this`peers, this`lastChokeRound, choker`round
      ensures Valid() && Effect(View(), out) == EngineSpec.ChokeRoundIfDue(old(View()), now)
    {
      out := [];
      if SatSub(now, lastChokeRound) >= chokeInterval {
        lastChokeRound := now;
        out := RunChoker();
      }
    }

    // ----- messages

    method Violation(id: nat) returns (out: seq<Outgoing>)
      requires Valid()
      modifies this`toDrop
      ensures Valid() && Effect(View(), out) == EngineSpec.Violation(old(View()), id)
    {
      toDrop := toDrop + [(id, true)];
      out := [];
    }

    /** A bitfield, have-all or have-none: legal only as the opening message. */
    method OpeningField(idx: nat, legal: bool, field: set<nat>, now: nat) returns (out: seq<Outgoing>)
      requires Valid() && idx < |peers|
      modifies this, picker
      ensures Valid()
      ensures Effect(View(), out) ==
        if legal then EngineSpec.UpdateInterest(EngineSpec.ReplacePieceSet(old(View()), idx, field), idx, now)
        else EngineSpec.Violation(old(View()), old(peers)[idx].id)
    {
      hide EngineSpec.UpdateInterest, EngineSpec.ReplacePieceSet, PickerSpec.Picker.Valid, Linear;
      if legal {
        ReplacePieceSet(idx, field);
        out := UpdateInterest(idx, now);
      } else {
        out := Violation(peers[idx].id);
      }
    }

    /** A choking peer drops outstanding requests; release them for re-picking. */
    method ChokedBy(idx: nat)
      requires Valid() && idx < |peers|
      modifies this`peers, picker
      ensures Valid()
      ensures View() == ReleaseAll(SetPeer(old(View()), idx, old(peers)[idx].(peerChoking := true)), idx)
    {
      hide PickerSpec.Picker.Valid, PickerSpec.Picker.Release, Linear;
      var p := peers[idx];
      picker.BlocksFailed(p.inFlight.Keys);
      peers := peers[idx := p.(peerChoking := true, inFlight := map[])];
      EngineSteps.EditTwice(old(peers), idx, p.(peerChoking := true), peers[idx]);
    }

    /** A round runs now only if there is a free slot to give. */
    method InterestedIn(idx: nat) returns (out: seq<Outgoing>)
      requires Valid() && idx < |peers|
      modifies this`peers, choker`round
      ensures Valid()
      ensures var s := SetPeer(old(View()), idx, old(peers)[idx].(theyInterested := true));
        Effect(View(), out) ==
          if Counting.Count(s.peers, Unchoked()) < s.slots then EngineSpec.RunChoker(s) else Effect(s, [])
    {
      hide EngineSpec.RunChoker, PickerSpec.Picker.Valid, Linear, Counting.Count;
      out := [];
      peers := peers[idx := peers[idx].(theyInterested := true)];
      if Counting.Count(peers, Unchoked()) < choker.maxUnchoked {
        out := RunChoker();
      }
    }

    method Handle(idx: nat, msg: Message, now: nat, io: Io) returns (out: seq<Outgoing>)
      requires Valid() && idx < |peers| && |storage.View()| == Total(meta.files)
      modifies this, picker, storage, choker`round
      ensures Valid() && Effect(View(), out) == EngineSpec.Handle(meta, old(View()), idx, msg, now, io)
    {
      hide Dispatch, PickerSpec.Picker.Valid, Linear, Opens, EngineSpec.Handle;
      HandleIsDispatch(meta, View(), idx, msg, now, io);
      var first := !peers[idx].hasOpened;
      if Opens(msg) {
        peers := peers[idx := peers[idx].(hasOpened := true)];
      }
      if msg.Have? || msg.Bitfield? || msg.HaveAll? || msg.HaveNone? {
        out := DispatchPieces(idx, first, msg, now, io);
      } else if msg.Request? || msg.Piece? {
        out := DispatchData(idx, first, msg, now, io);
      } else {
        out := DispatchFlags(idx, first, msg, now, io);
      }
    }

    /** A peer has one piece more. */
    method PieceAnnounced(idx: nat, piece: nat, now: nat) returns (out: seq<Outgoing>)
      requires Valid() && idx < |peers|
      modifies this`peers, picker
      ensures Valid()
      ensures var p := old(peers)[idx];
        var s := SetPeer(old(View()), idx, p.(has := p.has + {piece})).(picker := old(picker.View()).AddSingle(piece));
        Effect(View(), out) == EngineSpec.UpdateInterest(s, idx, now)
    {
      hide EngineSpec.UpdateInterest, PickerSpec.Picker.Valid, PickerSpec.Picker.AddSingle, Linear;
      peers := peers[idx := peers[idx].(has := peers[idx].has + {piece})];
      picker.AddSingle(piece);
      out := UpdateInterest(idx, now);
    }

    /** Messages that ask for a block or bring one. */
    method DispatchData(idx: nat, first: bool, msg: Message, now: nat, io: Io) returns (out: seq<Outgoing>)
      requires Valid() && idx < |peers| && |storage.View()| == Total(meta.files) && (msg.Request? || msg.Piece?)
      modifies this, picker, storage
      ensures Valid() && Effect(View(), out) == Dispatch(meta, old(View()), idx, first, msg, now, io)
    {
      hide EngineSpec.ServeRequest, EngineSpec.OnBlock, PickerSpec.Picker.Valid, Linear;
      match msg {
        case Request(req) => out := ServeRequest(idx, req, io);
        case Piece(index, begin, data) => out := OnBlock(idx, index, begin, data, now, io);
      }
    }

    /** Messages about what a peer has. */
    method DispatchPieces(idx: nat, first: bool, msg: Message, now: nat, io: Io) returns (out: seq<Outgoing>)
      requires Valid() && idx < |peers| && |storage.View()| == Total(meta.files)
      requires msg.Have? || msg.Bitfield? || msg.HaveAll? || msg.HaveNone?
      modifies this, picker
      ensures Valid() && Effect(View(), out) == Dispatch(meta, old(View()), idx, first, msg, now, io)
    {
      hide EngineSpec.UpdateInterest, EngineSpec.ReplacePieceSet;
      hide PickerSpec.Picker.Valid, PickerSpec.Picker.AddSingle, Bitfields.Parse, Bitfields.PiecesOf, Linear, AllPieces;
      out := [];
      var p := peers[idx];
      match msg {
        case Have(piece) =>
          if piece < meta.geo.numPieces && piece !in p.has { out := PieceAnnounced(idx, piece, now); }
        case Bitfield(bits) =>
          var fits := first && Bitfields.Parse(bits, meta.geo.numPieces).Ok?;
          out := OpeningField(idx, fits, Bitfields.PiecesOf(bits, meta.geo.numPieces), now);
        case HaveAll | HaveNone =>
          out := OpeningField(idx, first && p.fast, if msg.HaveAll? then AllPieces(meta.geo.numPieces) else {}, now);
      }
    }

    /** Choke and interest transitions, and what needs no more than a check. */
    method DispatchFlags(idx: nat, first: bool, msg: Message, now: nat, io: Io) returns (out: seq<Outgoing>)
      requires Valid() && idx < |peers| && |storage.View()| == Total(meta.files)
      requires !(msg.Have? || msg.Bitfield? || msg.HaveAll? || msg.HaveNone? || msg.Request? || msg.Piece?)
      modifies this, picker, choker`round
      ensures Valid() && Effect(View(), out) == Dispatch(meta, old(View()), idx, first, msg, now, io)
    {
      hide EngineSpec.FillRequests, EngineSpec.RunChoker, ReleaseAll;
      hide PickerSpec.Picker.Valid, Counting.Count, Linear;
      out := [];
      var p := peers[idx];
      match msg {
        case KeepAlive | Cancel(_) | Extended(_) =>
        case RejectRequest(_) | SuggestPiece(_) | AllowedFast(_) =>
          if !p.fast { out := Violation(p.id); }
        case Choke => ChokedBy(idx);
        case Unchoke =>
          peers := peers[idx := p.(peerChoking := false)];
          out := FillRequests(idx, now);
        case Interested => out := InterestedIn(idx);
        case NotInterested =>
          peers := peers[idx := p.(theyInterested := false, weChoke := true)];
          if !p.weChoke { out := [Outgoing(p.id, Message.Choke)]; }
      }
    }

    /** Handle one message under the lock: returns what to send afterwards and
        which peers to drop. */
    method OnMessage(id: nat, msg: Message, now: nat, io: Io) returns (out: seq<Outgoing>, evict: seq<(nat, bool)>)
      requires Valid() && |storage.View()| == Total(meta.files)
      modifies this, picker, storage, choker`round
      ensures Valid() && Outcome(View(), out, evict) == EngineSpec.OnMessage(meta, old(View()), id, msg, now, io)
    {
      hide EngineSpec.Handle, EngineSpec.ChokeRoundIfDue, PickerSpec.Picker.Valid, Linear;
      out := [];
      var found := Find(peers, id);
      if found.Some? {
        out := Handle(found.value, msg, now, io);
      }
      var more := ChokeRoundIfDue(now);
      out := out + more;
      evict := toDrop;
      toDrop := [];
    }

    // ----- maintenance

    method MaintainPeer(idx: nat, now: nat) returns (out: seq<Outgoing>, drops: seq<(nat, bool)>)
      requires Valid() && idx < |peers|
      modifies this`peers, picker
      ensures Valid() && Tick(View(), out, drops) == EngineSpec.MaintainPeer(old(View()), idx, now)
      ensures |peers| == |old(peers)|
    {
      hide EngineSpec.FillRequests, PickerSpec.Picker.Release, PickerSpec.Picker.Valid, Linear;
      out, drops := [], [];
      var p := peers[idx];
      var expired := set b | b in p.inFlight && SatSub(now, p.inFlight[b]) >= requestTimeout;
      assert expired == Expired(View(), p, now);
      if expired != {} {
        peers := peers[idx := p.(inFlight := p.inFlight - expired, strikes := p.strikes + 1)];
        picker.BlocksFailed(expired);
        if p.strikes + 1 >= REQUEST_STRIKES {
          drops := [(p.id, true)];
          return;
        }
      }
      out := FillRequests(idx, now);
    }

    /** One maintenance tick: expire unanswered requests, refill every pipeline,
        run a choke round if one is due. */
    method Maintain(now: nat) returns (out: seq<Outgoing>, drops: seq<(nat, bool)>)
      requires Valid()
      modifies this, picker, choker`round
      ensures Valid() && Outcome(View(), out, drops) == OnTick(old(View()), now)
    {
      hide EngineSpec.MaintainPeer, EngineSpec.ChokeRoundIfDue, PickerSpec.Picker.Valid, Linear;
      ghost var s := View();
      out, drops := [], [];
      var n, idx := |peers|, 0;
      while idx < n
        invariant idx <= n == |s.peers| == |peers| && Valid() && choker.round == old(choker.round)
        invariant Tick(View(), out, drops) == MaintainBelow(s, now, idx)
      {
        var more, gone := MaintainPeer(idx, now);
        out, drops := out + more, drops + gone;
        idx := idx + 1;
      }
      var more := ChokeRoundIfDue(now);
      out := out + more;
      drops := drops + toDrop;
      toDrop := [];
    }

    // ----- joining and leaving

    method RegisterPeer(dest: Dest, fast: bool) returns (r: Option<nat>)
      requires Valid()
      modifies this`peers, this`nextId
      ensures Valid() && View() == EngineSpec.RegisterPeer(old(View()), dest, fast)
      ensures r == if Refused(old(View()), dest) then None else Some(old(nextId))
    {
      if dest in banned
         || Counting.Count(peers, From(dest)) >= MAX_CONNECTIONS_PER_DEST
         || |peers| >= maxPeers {
        return None;
      }
      r := Some(nextId);
      peers := peers + [Peer(nextId, dest, {}, false, fast, true, true, false, false, map[], 0, 0, 0, 0, 0)];
      nextId := nextId + 1;
    }

    method DropPeer(id: nat)
      requires Valid()
      modifies this`peers, picker
      ensures Valid() && View() == RemovePeer(old(View()), id)
    {
      var found := Find(peers, id);
      if found.Some? {
        var peer := peers[found.value];
        peers := Counting.SwapRemove(peers, found.value);
        picker.RemoveBitfield(peer.has);
        picker.BlocksFailed(peer.inFlight.Keys);
      }
    }
  }
}
