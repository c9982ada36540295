// The torrent coordinator's state and what each of its atomic steps does to it
// (crates/clove-core/src/torrent.rs). Every handler runs under one mutex, so a
// run is a sequence of these steps. Clock readings, the outcome of disk
// operations and the order of steps are inputs.
module EngineSpec {
  import opened Prelude
  import opened Wire
  import opened PickerSpec
  import opened DiskSpec
  import ChokerSpec
  import Bitfields
  import Counting

  const PIPELINE_DEPTH: nat := 16
  const REQUEST_STRIKES: nat := 3
  const MAX_CONNECTIONS_PER_DEST: nat := 2
  const SUSPICION_LIMIT: nat := 3

  /** An I2P destination hash. */
  type Dest = seq<byte>

  datatype Peer = Peer(
    id: nat,
    dest: Dest,
    has: set<nat>,
    hasOpened: bool,
    fast: bool,
    peerChoking: bool,
    weChoke: bool,
    theyInterested: bool,
    weInterested: bool,
    inFlight: map<Block, nat>,
    strikes: nat,
    uploaded: nat,
    downloaded: nat,
    uploadedAtRound: nat,
    downloadedAtRound: nat)

  datatype State = State(
    picker: Picker,
    slots: nat,
    round: nat,
    lastChokeRound: nat,
    chokeInterval: nat,
    requestTimeout: nat,
    peers: seq<Peer>,
    nextId: nat,
    maxPeers: nat,
    suppliers: map<Block, Dest>,
    banned: set<Dest>,
    suspicion: map<Dest, nat>,
    toDrop: seq<(nat, bool)>,
    storageError: bool,
    disk: seq<Cell>)

  /** A message queued for the connection with id `to`. */
  datatype Outgoing = Outgoing(to: nat, msg: Message)

  datatype Effect = Effect(state: State, out: seq<Outgoing>)
  {
    function After(before: seq<Outgoing>): Effect { Effect(state, before + out) }
  }

  /** How the disk treats the operations of one step. `write == Some(n)`: the
      block write fails once `n` bytes are down. `verify == Some(c)`: reading
      chunk `c` back fails. `serve`: reading a block to serve fails. */
  datatype Io = Io(write: Option<nat>, verify: Option<nat>, serve: bool)

  function Owes(b: Block): Peer -> bool { (p: Peer) => b in p.inFlight }

  function Holds(i: nat): Peer -> bool { (p: Peer) => i in p.has }

  function Unchoked(): Peer -> bool { (p: Peer) => !p.weChoke }

  function From(d: Dest): Peer -> bool { (p: Peer) => p.dest == d }

  function IdOf(): Peer -> nat { (p: Peer) => p.id }

  /** Position of the peer with an id. */
  function Find(peers: seq<Peer>, id: nat): (r: Option<nat>)
    ensures r.Some? ==> r.value < |peers| && peers[r.value].id == id
    ensures r.None? ==> forall k :: 0 <= k < |peers| ==> peers[k].id != id
  {
    if peers == [] then None
    else
      var r := Find(peers[..|peers| - 1], id);
      if r.Some? then r else if peers[|peers| - 1].id == id then Some(|peers| - 1) else None
  }

  function SetPeer(s: State, idx: nat, p: Peer): State
    requires idx < |s.peers|
  {
    s.(peers := s.peers[idx := p])
  }

  // ----- requesting

  function Asked(inFlight: map<Block, nat>, blocks: seq<Block>, now: nat): map<Block, nat> {
    map b | b in inFlight.Keys + BlockSet(blocks) :: if b in blocks then now else inFlight[b]
  }

  /** Blocks handed to a peer that already owes them. */
  function Again(inFlight: map<Block, nat>, blocks: seq<Block>): set<Block> {
    set b | b in blocks && b in inFlight
  }

  function Asks(geo: Geometry, id: nat, inFlight: map<Block, nat>, blocks: seq<Block>): seq<Outgoing> {
    if blocks == [] then []
    else
      var last := blocks[|blocks| - 1];
      Asks(geo, id, inFlight, blocks[..|blocks| - 1]) +
        (if last in inFlight then [] else [Outgoing(id, Request(geo.RequestFor(last)))])
  }

  /** Top up a peer's request pipeline. */
  function FillRequests(s: State, idx: nat, now: nat): Effect
    requires idx < |s.peers|
  {
    var p := s.peers[idx];
    var space := SatSub(PIPELINE_DEPTH, |p.inFlight|);
    if p.peerChoking || !p.weInterested || space == 0 then Effect(s, [])
    else
      var blocks := s.picker.PickBlocks(p.has, space);
      Effect(
        s.(picker := s.picker.AfterPick(p.has, space).Release(Again(p.inFlight, blocks)),
           peers := s.peers[idx := p.(inFlight := Asked(p.inFlight, blocks, now))]),
        Asks(s.picker.geo, p.id, p.inFlight, blocks))
  }

  predicate Interesting(s: State, p: Peer) { exists i :: i in p.has && i !in s.picker.have }

  function UpdateInterest(s: State, idx: nat, now: nat): Effect
    requires idx < |s.peers|
  {
    var p := s.peers[idx];
    if Interesting(s, p) && !p.weInterested then
      var s' := SetPeer(s, idx, p.(weInterested := true));
      var note := [Outgoing(p.id, Message.Interested)];
      if p.peerChoking then Effect(s', note) else FillRequests(s', idx, now).After(note)
    else if !Interesting(s, p) && p.weInterested then
      Effect(SetPeer(s, idx, p.(weInterested := false)), [Outgoing(p.id, NotInterested)])
    else Effect(s, [])
  }

  /** Everything a peer owes goes back to the picker. */
  function ReleaseAll(s: State, idx: nat): State
    requires idx < |s.peers|
  {
    s.(picker := s.picker.Release(s.peers[idx].inFlight.Keys),
       peers := s.peers[idx := s.peers[idx].(inFlight := map[])])
  }

  function ReplacePieceSet(s: State, idx: nat, field: set<nat>): State
    requires idx < |s.peers|
  {
    s.(picker := s.picker.RemoveBitfield(s.peers[idx].has).AddBitfield(field),
       peers := s.peers[idx := s.peers[idx].(has := field)])
  }

  // ----- delivery

  /** The cancels sent to the first `k` peers, other than `idx`, owing `b`. */
  function Cancels(geo: Geometry, peers: seq<Peer>, idx: nat, b: Block, k: nat): seq<Outgoing>
    requires k <= |peers|
  {
    if k == 0 then []
    else
      Cancels(geo, peers, idx, b, k - 1) +
        (if k - 1 != idx && b in peers[k - 1].inFlight
         then [Outgoing(peers[k - 1].id, Cancel(geo.RequestFor(b)))] else [])
  }

  function Withdrawn(peers: seq<Peer>, idx: nat, b: Block, k: nat): seq<Peer>
    requires k <= |peers|
  {
    seq(|peers|, n requires 0 <= n < |peers| =>
      if n != idx && n < k then peers[n].(inFlight := peers[n].inFlight - {b}) else peers[n])
  }

  /** Withdraw a block from every peer but `idx`. */
  function CancelElsewhere(s: State, idx: nat, b: Block): Effect {
    var cancels := Cancels(s.picker.geo, s.peers, idx, b, |s.peers|);
    Effect(s.(picker := s.picker.Lower(b, |cancels|), peers := Withdrawn(s.peers, idx, b, |s.peers|)), cancels)
  }

  function DropPiece(suppliers: map<Block, Dest>, index: nat, blocks: nat): map<Block, Dest> {
    map b | b in suppliers && !(b.0 == index && b.1 < blocks) :: suppliers[b]
  }

  function CreditBelow(suspicion: map<Dest, nat>, suppliers: map<Block, Dest>, index: nat, k: nat): map<Dest, nat> {
    if k == 0 then suspicion
    else
      var before := CreditBelow(suspicion, suppliers, index, k - 1);
      if (index, k - 1) in suppliers && suppliers[(index, k - 1)] in before then
        var d := suppliers[(index, k - 1)];
        if before[d] <= 1 then before - {d} else before[d := before[d] - 1]
      else before
  }

  /** A piece verified: each supplier earns back one failure per block. */
  function CreditSuppliers(s: State, index: nat): State {
    s.(suspicion := CreditBelow(s.suspicion, s.suppliers, index, s.picker.geo.Blocks(index)),
       suppliers := DropPiece(s.suppliers, index, s.picker.geo.Blocks(index)))
  }

  /** Who wrote the first `k` blocks of a piece, each named once. */
  function Contributors(suppliers: map<Block, Dest>, index: nat, k: nat): seq<Dest> {
    if k == 0 then []
    else
      var before := Contributors(suppliers, index, k - 1);
      if (index, k - 1) in suppliers && suppliers[(index, k - 1)] !in before
      then before + [suppliers[(index, k - 1)]] else before
  }

  function Suspected(suspicion: map<Dest, nat>, dests: seq<Dest>): map<Dest, nat> {
    if dests == [] then suspicion
    else
      var before, d := Suspected(suspicion, dests[..|dests| - 1]), dests[|dests| - 1];
      before[d := (if d in before then before[d] else 0) + 1]
  }

  function OverLimit(suspicion: map<Dest, nat>, dests: seq<Dest>): seq<Dest> {
    if dests == [] then []
    else
      var d := dests[|dests| - 1];
      OverLimit(suspicion, dests[..|dests| - 1]) +
        (if d in suspicion && suspicion[d] >= SUSPICION_LIMIT then [d] else [])
  }

  function Connections(peers: seq<Peer>, dest: Dest): seq<(nat, bool)> {
    if peers == [] then []
    else
      var last := peers[|peers| - 1];
      Connections(peers[..|peers| - 1], dest) + (if last.dest == dest then [(last.id, true)] else [])
  }

  function Ban(s: State, dest: Dest): State {
    s.(banned := s.banned + {dest}, suspicion := s.suspicion - {dest},
       toDrop := s.toDrop + Connections(s.peers, dest))
  }

  function BanAll(s: State, dests: seq<Dest>): State {
    if dests == [] then s else Ban(BanAll(s, dests[..|dests| - 1]), dests[|dests| - 1])
  }

  /** A piece failed its hash: a sole supplier is banned; several share the
      suspicion, and any that reaches the limit is banned. */
  function BlameSuppliers(s: State, index: nat): State {
    var blocks := s.picker.geo.Blocks(index);
    var who := Contributors(s.suppliers, index, blocks);
    var s' := s.(suppliers := DropPiece(s.suppliers, index, blocks));
    if |who| == 0 then s'
    else if |who| == 1 then BanAll(s', who)
    else
      var suspicion := Suspected(s.suspicion, who);
      BanAll(s'.(suspicion := suspicion), OverLimit(suspicion, who))
  }

  function Announce(peers: seq<Peer>, index: nat): seq<Outgoing> {
    seq(|peers|, k requires 0 <= k < |peers| => Outgoing(peers[k].id, Message.Have(index)))
  }

  /** The last block of a piece is in: judge the piece from disk. */
  ghost function Judge(m: Meta, s: State, index: nat, io: Io): Effect {
    match Verify(m, s.disk, index, io.verify)
    case Matches =>
      var s' := CreditSuppliers(s.(picker := s.picker.SetHave(index)), index);
      Effect(s', Announce(s'.peers, index))
    case Mismatch =>
      Effect(BlameSuppliers(s.(picker := s.picker.ResetPiece(index)), index), [])
    case Unreadable =>
      Effect(s.(storageError := true), [])
  }

  /** A block we asked `idx` for was written. Whether the pipeline is refilled
      afterwards is the second component. */
  ghost function AcceptBlock(m: Meta, s: State, idx: nat, b: Block, len: nat, io: Io): (Effect, bool)
    requires idx < |s.peers|
  {
    var p := s.peers[idx];
    var s1 := SetPeer(s, idx, p.(downloaded := p.downloaded + len)).(suppliers := s.suppliers[b := p.dest]);
    var cancelled := CancelElsewhere(s1, idx, b);
    var (picker, whole) := cancelled.state.picker.BlockReceived(b);
    var s2 := cancelled.state.(picker := picker);
    if whole then (Judge(m, s2, b.0, io).After(cancelled.out), true)
    else (Effect(s2, cancelled.out), false)
  }

  /** A block asked for and not in yet: write it and, if that works, accept it.
      Whether the pipeline is refilled afterwards is the second component. */
  ghost function StoreBlock(m: Meta, s: State, idx: nat, b: Block, data: seq<byte>, io: Io): (Effect, bool)
    requires idx < |s.peers| && |s.disk| == Total(m.files)
  {
    var start := m.geo.BlockStart(b);
    if start + |data| > |s.disk| then
      (Effect(s.(picker := s.picker.BlockFailed(b), storageError := true), []), true)
    else if io.write.Some? && io.write.value < |data| then
      (Effect(s.(picker := s.picker.BlockFailed(b), storageError := true,
                 disk := WriteLinear(m.files, s.disk, start, data[..io.write.value])), []), true)
    else
      AcceptBlock(m, s.(disk := WriteLinear(m.files, s.disk, start, data)), idx, b, |data|, io)
  }

  ghost function OnBlock(m: Meta, s: State, idx: nat, index: nat, begin: nat, data: seq<byte>, now: nat, io: Io): Effect
    requires idx < |s.peers| && |s.disk| == Total(m.files)
  {
    var b: Block := (index, begin / BLOCK_LEN);
    var p := s.peers[idx];
    if begin % BLOCK_LEN != 0 || index >= m.geo.numPieces || |data| != m.geo.BlockLen(b.0, b.1) then Effect(s, [])
    else
      var asked := b in p.inFlight;
      var s1 := if asked then SetPeer(s, idx, p.(inFlight := p.inFlight - {b}, strikes := 0)) else s;
      if !asked || index in s.picker.have then
        FillRequests(s1, idx, now)
      else if s.picker.Received(b) then
        FillRequests(s1.(picker := s.picker.BlockFailed(b)), idx, now)
      else
        var (e, refill) := StoreBlock(m, s1, idx, b, data, io);
        if refill && idx < |e.state.peers| then FillRequests(e.state, idx, now).After(e.out) else e
  }

  /** Serve a block if we are unchoking this peer and hold the piece. */
  ghost function ServeRequest(m: Meta, s: State, idx: nat, req: BlockRequest, io: Io): Effect
    requires idx < |s.peers|
  {
    var p := s.peers[idx];
    var start := m.geo.PieceStart(req.index) + req.begin;
    if p.weChoke || req.length == 0 || req.length > BLOCK_LEN
       || req.begin + req.length > m.geo.PieceLen(req.index) || req.index !in s.picker.have
       || io.serve || !Present(s.disk, start, req.length)
    then Effect(s, [])
    else
      Effect(SetPeer(s, idx, p.(uploaded := p.uploaded + req.length)),
             [Outgoing(p.id, Piece(req.index, req.begin, Bytes(s.disk, start, req.length)))])
  }

  // ----- choking

  function SnapshotOf(seeding: bool, p: Peer): ChokerSpec.Snapshot {
    ChokerSpec.Snapshot(p.id, p.theyInterested,
      if seeding then SatSub(p.uploaded, p.uploadedAtRound) else SatSub(p.downloaded, p.downloadedAtRound),
      !p.weChoke)
  }

  function Snapshots(s: State): seq<ChokerSpec.Snapshot> {
    seq(|s.peers|, k requires 0 <= k < |s.peers| => SnapshotOf(s.picker.Complete(), s.peers[k]))
  }

  function Ranked(peers: seq<Peer>): seq<Peer> {
    seq(|peers|, k requires 0 <= k < |peers| =>
      peers[k].(uploadedAtRound := peers[k].uploaded, downloadedAtRound := peers[k].downloaded))
  }

  /** Set the choke flag of the peer with an id and tell it, if it is there. */
  function SetChoke(s: State, id: nat, choke: bool): Effect {
    match Find(s.peers, id)
    case None => Effect(s, [])
    case Some(k) =>
      Effect(SetPeer(s, k, s.peers[k].(weChoke := choke)), [Outgoing(id, if choke then Choke else Unchoke)])
  }

  function SetChokes(s: State, ids: seq<nat>, choke: bool): Effect {
    if ids == [] then Effect(s, [])
    else
      var e := SetChokes(s, ids[..|ids| - 1], choke);
      SetChoke(e.state, ids[|ids| - 1], choke).After(e.out)
  }

  function RunChoker(s: State): Effect {
    var d := ChokerSpec.Plan(s.slots, s.round + 1, Snapshots(s));
    var e := SetChokes(s.(peers := Ranked(s.peers), round := s.round + 1), d.unchoke, false);
    SetChokes(e.state, d.choke, true).After(e.out)
  }

  function ChokeRoundIfDue(s: State, now: nat): Effect {
    if SatSub(now, s.lastChokeRound) >= s.chokeInterval
    then RunChoker(s.(lastChokeRound := now))
    else Effect(s, [])
  }

  // ----- messages

  function Violation(s: State, id: nat): Effect { Effect(s.(toDrop := s.toDrop + [(id, true)]), []) }

  predicate Opens(msg: Message) { !msg.KeepAlive? && !(msg.Extended? && msg.id == 0) }

  ghost function Handle(m: Meta, s: State, idx: nat, msg: Message, now: nat, io: Io): Effect
    requires idx < |s.peers| && |s.disk| == Total(m.files)
  {
    var p := s.peers[idx];
    Dispatch(m, if Opens(msg) then SetPeer(s, idx, p.(hasOpened := true)) else s, idx, !p.hasOpened, msg, now, io)
  }

  /** The dispatch table; `first` says whether this is the peer's opening message. */
  ghost function Dispatch(m: Meta, s: State, idx: nat, first: bool, msg: Message, now: nat, io: Io): Effect
    requires idx < |s.peers| && |s.disk| == Total(m.files)
  {
    var p := s.peers[idx];
    match msg
    case KeepAlive | Cancel(_) | Extended(_) => Effect(s, [])
    case RejectRequest(_) | SuggestPiece(_) | AllowedFast(_) =>
      if p.fast then Effect(s, []) else Violation(s, p.id)
    case Choke => Effect(ReleaseAll(SetPeer(s, idx, p.(peerChoking := true)), idx), [])
    case Unchoke => FillRequests(SetPeer(s, idx, p.(peerChoking := false)), idx, now)
    case Interested =>
      var s' := SetPeer(s, idx, p.(theyInterested := true));
      if Counting.Count(s'.peers, Unchoked()) < s'.slots then RunChoker(s') else Effect(s', [])
    case NotInterested =>
      Effect(SetPeer(s, idx, p.(theyInterested := false, weChoke := true)),
             if p.weChoke then [] else [Outgoing(p.id, Message.Choke)])
    case Have(piece) =>
      if piece < m.geo.numPieces && piece !in p.has then
        UpdateInterest(SetPeer(s, idx, p.(has := p.has + {piece})).(picker := s.picker.AddSingle(piece)), idx, now)
      else Effect(s, [])
    case Bitfield(bits) =>
      if first && Bitfields.Parse(bits, m.geo.numPieces).Ok? then
        UpdateInterest(ReplacePieceSet(s, idx, Bitfields.PiecesOf(bits, m.geo.numPieces)), idx, now)
      else Violation(s, p.id)
    case HaveAll | HaveNone =>
      if first && p.fast then
        UpdateInterest(ReplacePieceSet(s, idx, if msg.HaveAll? then AllPieces(m.geo.numPieces) else {}), idx, now)
      else Violation(s, p.id)
    case Request(req) => ServeRequest(m, s, idx, req, io)
    case Piece(index, begin, data) => OnBlock(m, s, idx, index, begin, data, now, io)
  }

  function AllPieces(n: nat): set<nat> { set i: nat | i < n && Bitfields.Within(i, n) }

  // ----- maintenance

  function Expired(s: State, p: Peer, now: nat): set<Block> {
    set b | b in p.inFlight && SatSub(now, p.inFlight[b]) >= s.requestTimeout
  }

  datatype Tick = Tick(state: State, out: seq<Outgoing>, drops: seq<(nat, bool)>)

  function MaintainPeer(s: State, idx: nat, now: nat): Tick
    requires idx < |s.peers|
  {
    var p, late := s.peers[idx], Expired(s, s.peers[idx], now);
    if late == {} then
      var e := FillRequests(s, idx, now);
      Tick(e.state, e.out, [])
    else
      var s' := SetPeer(s, idx, p.(inFlight := p.inFlight - late, strikes := p.strikes + 1))
        .(picker := s.picker.Release(late));
      if p.strikes + 1 >= REQUEST_STRIKES then Tick(s', [], [(p.id, true)])
      else
        var e := FillRequests(s', idx, now);
        Tick(e.state, e.out, [])
  }

  function MaintainBelow(s: State, now: nat, k: nat): Tick {
    if k == 0 then Tick(s, [], [])
    else
      var t := MaintainBelow(s, now, k - 1);
      if k - 1 >= |t.state.peers| then t
      else
        var t' := MaintainPeer(t.state, k - 1, now);
        Tick(t'.state, t.out + t'.out, t.drops + t'.drops)
  }

  // ----- the steps

  datatype Event =
    | Register(dest: Dest, fast: bool)
    | DropPeer(id: nat)
    | Receive(id: nat, msg: Message, now: nat, io: Io)
    | Maintain(now: nat)
    | SetPiecePriorities(priorities: seq<byte>)
    | SetMode(mode: Mode)
    | SetMaxPeers(maxPeers: nat)
    | SetRequestTimeout(timeout: nat)
    | SetChokeInterval(interval: nat)

  /** The new state, the messages to send, and the peers to drop afterwards. */
  datatype Outcome = Outcome(state: State, out: seq<Outgoing>, evict: seq<(nat, bool)>)

  function NewPeer(s: State, dest: Dest, fast: bool): Peer {
    Peer(s.nextId, dest, {}, false, fast, true, true, false, false, map[], 0, 0, 0, 0, 0)
  }

  predicate Refused(s: State, dest: Dest) {
    || dest in s.banned
    || Counting.Count(s.peers, From(dest)) >= MAX_CONNECTIONS_PER_DEST
    || |s.peers| >= s.maxPeers
  }

  function RegisterPeer(s: State, dest: Dest, fast: bool): State {
    if Refused(s, dest) then s
    else s.(peers := s.peers + [NewPeer(s, dest, fast)], nextId := s.nextId + 1)
  }

  function RemovePeer(s: State, id: nat): State {
    match Find(s.peers, id)
    case None => s
    case Some(k) =>
      s.(peers := Counting.SwapRemove(s.peers, k),
         picker := s.picker.RemoveBitfield(s.peers[k].has).Release(s.peers[k].inFlight.Keys))
  }

  ghost function OnMessage(m: Meta, s: State, id: nat, msg: Message, now: nat, io: Io): Outcome
    requires |s.disk| == Total(m.files)
  {
    var e := match Find(s.peers, id) case None => Effect(s, []) case Some(k) => Handle(m, s, k, msg, now, io);
    var c := ChokeRoundIfDue(e.state, now).After(e.out);
    Outcome(c.state.(toDrop := []), c.out, c.state.toDrop)
  }

  function OnTick(s: State, now: nat): Outcome {
    var t := MaintainBelow(s, now, |s.peers|);
    var c := ChokeRoundIfDue(t.state, now).After(t.out);
    Outcome(c.state.(toDrop := []), c.out, t.drops + c.state.toDrop)
  }

  ghost function Step(m: Meta, s: State, e: Event): Outcome
    requires |s.disk| == Total(m.files)
  {
    match e
    case Register(dest, fast) => Outcome(RegisterPeer(s, dest, fast), [], [])
    case DropPeer(id) => Outcome(RemovePeer(s, id), [], [])
    case Receive(id, msg, now, io) => OnMessage(m, s, id, msg, now, io)
    case Maintain(now) => OnTick(s, now)
    case SetPiecePriorities(ps) => Outcome(s.(picker := s.picker.SetPriorities(ps)), [], [])
    case SetMode(mode) => Outcome(s.(picker := s.picker.(mode := mode)), [], [])
    case SetMaxPeers(n) => Outcome(s.(maxPeers := n), [], [])
    case SetRequestTimeout(t) => Outcome(s.(requestTimeout := t), [], [])
    case SetChokeInterval(t) => Outcome(s.(chokeInterval := t), [], [])
  }

  /** A fresh engine over files with the given contents, told it has `have`. */
  function Start(m: Meta, disk: seq<Cell>, have: set<nat>, mode: Mode): State {
    State(HaveAllOf(NewPicker(m.geo, mode), have, m.geo.numPieces), 4, 0, 0, 10, 90, [], 0, USIZE_MAX,
          map[], {}, map[], [], false, disk)
  }

  /** Mark the pieces of `have` below `k` as held, in ascending order. */
  function HaveAllOf(p: Picker, have: set<nat>, k: nat): Picker {
    if k == 0 then p
    else
      var q := HaveAllOf(p, have, k - 1);
      if k - 1 in have then q.SetHave(k - 1) else q
  }
}
