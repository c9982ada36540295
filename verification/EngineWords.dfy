// What the engine believes of each peer is what that peer told it: which pieces
// it has, whether it chokes us or is interested, how much it sent and how often
// it was late (crates/clove-core/src/torrent.rs, `on_message`).
module EngineWords {
  import opened Prelude
  import opened Wire
  import opened PickerSpec
  import opened DiskSpec
  import opened EngineSpec
  import opened EngineInvariant
  import opened EngineDelivery
  import opened EngineTheorems
  import opened EngineSafety
  import opened EngineOutcomes
  import opened EngineBans
  import ChokerSpec
  import Bitfields
  import Counting

  // ----- what a peer says

  /** What a peer has told of itself. */
  datatype Words = Words(dest: Dest, fast: bool, begun: bool, has: set<nat>, choking: bool, interested: bool)

  /** The set a message leaves a peer with, in a torrent of `n` pieces. A whole
      set may be announced only by the first message, and without a bitfield only
      under the fast extension; its bytes must be those some set is sent as. */
  ghost predicate HasAfter(n: nat, w: Words, msg: Message, has: set<nat>) {
    if msg.HaveAll? && !w.begun && w.fast then forall i: nat :: i in has <==> i < n
    else if msg.HaveNone? && !w.begun && w.fast then has == {}
    else if msg.Bitfield? && !w.begun && (exists f: set<nat> :: Bitfields.Below(f, n) && Bitfields.Encode(f, n) == msg.bits) then
      Bitfields.Below(has, n) && Bitfields.Encode(has, n) == msg.bits
    else if msg.Have? && msg.piece < n then has == w.has + {msg.piece}
    else has == w.has
  }

  /** What a peer is taken to have told once a message of its is heard. Keep-alives
      and the extension handshake may come before its first message proper. */
  ghost predicate Heeds(n: nat, w: Words, msg: Message, v: Words) {
    && v.dest == w.dest && v.fast == w.fast
    && v.begun == (w.begun || !(msg.KeepAlive? || (msg.Extended? && msg.id == 0)))
    && v.choking == (if msg.Choke? then true else if msg.Unchoke? then false else w.choking)
    && v.interested == (if msg.Interested? then true else if msg.NotInterested? then false else w.interested)
    && HasAfter(n, w, msg, v.has)
  }

  function WordsOf(p: Peer): Words {
    Words(p.dest, p.fast, p.hasOpened, p.has, p.peerChoking, p.theyInterested)
  }

  /** The entry of a peer as far as the peer itself accounts for it. */
  datatype Record = Record(id: nat, words: Words, strikes: nat, downloaded: nat)

  function RecordOf(p: Peer): Record { Record(p.id, WordsOf(p), p.strikes, p.downloaded) }

  ghost predicate SameRecords(s: State, t: State) {
    |t.peers| == |s.peers| && forall k :: 0 <= k < |s.peers| ==> RecordOf(t.peers[k]) == RecordOf(s.peers[k])
  }

  /** Only the record of one peer changes. */
  ghost predicate OneRecord(s: State, t: State, idx: nat, r: Record) {
    && |t.peers| == |s.peers| && (idx < |s.peers| ==> RecordOf(t.peers[idx]) == r)
    && forall k :: 0 <= k < |s.peers| && k != idx ==> RecordOf(t.peers[k]) == RecordOf(s.peers[k])
  }

  lemma RecordsStay(s: State, idx: nat)
    ensures SameRecords(s, s)
    ensures idx < |s.peers| ==> OneRecord(s, s, idx, RecordOf(s.peers[idx]))
  {}

  lemma SameThrough(s: State, t: State, u: State)
    requires SameRecords(s, t) && SameRecords(t, u)
    ensures SameRecords(s, u)
  {
    hide RecordOf;
  }

  lemma OneThenSame(s: State, t: State, u: State, idx: nat, r: Record)
    requires OneRecord(s, t, idx, r) && SameRecords(t, u)
    ensures OneRecord(s, u, idx, r)
  {
    hide RecordOf;
  }

  lemma SameIsOne(s: State, t: State, idx: nat)
    requires SameRecords(s, t) && idx < |s.peers|
    ensures OneRecord(s, t, idx, RecordOf(s.peers[idx]))
  {
    hide RecordOf;
  }

  lemma EditRecord(s: State, idx: nat, p: Peer, t: State)
    requires idx < |s.peers| && t.peers == s.peers[idx := p]
    ensures OneRecord(s, t, idx, RecordOf(p))
    ensures RecordOf(p) == RecordOf(s.peers[idx]) ==> SameRecords(s, t)
  {
    hide RecordOf;
  }

  // ----- what changes no record

  lemma FillRecords(s: State, idx: nat, now: nat)
    requires idx < |s.peers|
    ensures SameRecords(s, FillRequests(s, idx, now).state)
  {
    hide Picker.PickBlocks, Picker.AfterPick, Picker.Release, Asked, Asks, Again;
  }

  lemma InterestRecords(s: State, idx: nat, now: nat)
    requires idx < |s.peers|
    ensures SameRecords(s, UpdateInterest(s, idx, now).state)
  {
    hide Interesting, FillRequests, SameRecords;
    var p := s.peers[idx];
    RecordsStay(s, idx);
    EditRecord(s, idx, p.(weInterested := false), SetPeer(s, idx, p.(weInterested := false)));
    var s' := SetPeer(s, idx, p.(weInterested := true));
    EditRecord(s, idx, p.(weInterested := true), s');
    FillRecords(s', idx, now);
    SameThrough(s, s', FillRequests(s', idx, now).state);
  }

  lemma {:induction false} SetChokesRecords(s: State, ids: seq<nat>, choke: bool)
    ensures SameRecords(s, SetChokes(s, ids, choke).state)
  {
    hide SameRecords;
    RecordsStay(s, 0);
    if ids != [] {
      SetChokesRecords(s, ids[..|ids| - 1], choke);
      var t, id := SetChokes(s, ids[..|ids| - 1], choke).state, ids[|ids| - 1];
      RecordsStay(t, 0);
      var found := Find(t.peers, id);
      if found.Some? { EditRecord(t, found.value, t.peers[found.value].(weChoke := choke), SetChoke(t, id, choke).state); }
      SameThrough(s, t, SetChoke(t, id, choke).state);
    }
  }

  lemma ChokerRecords(s: State)
    ensures SameRecords(s, RunChoker(s).state)
  {
    hide SetChokes;
    var d := ChokerSpec.Plan(s.slots, s.round + 1, Snapshots(s));
    var s' := s.(peers := Ranked(s.peers), round := s.round + 1);
    assert SameRecords(s, s');
    SetChokesRecords(s', d.unchoke, false);
    var t := SetChokes(s', d.unchoke, false).state;
    SetChokesRecords(t, d.choke, true);
    SameThrough(s, s', t);
    SameThrough(s, t, SetChokes(t, d.choke, true).state);
  }

  lemma RoundRecords(s: State, now: nat)
    ensures SameRecords(s, ChokeRoundIfDue(s, now).state)
  {
    hide RunChoker;
    ChokerRecords(s.(lastChokeRound := now));
  }

  lemma JudgeRecords(m: Meta, s: State, index: nat, io: Io)
    ensures Judge(m, s, index, io).state.peers == s.peers
  {
    hide Verify, BlameSuppliers, CreditBelow, DropPiece;
    BlameEffect(s.(picker := s.picker.ResetPiece(index)), index);
  }

  // ----- a block

  /** The message delivers a block its sender owes. */
  predicate Delivers(m: Meta, p: Peer, msg: Message) { msg.Piece? && !Unasked(m, p, msg.index, msg.begin, msg.block) }

  predicate Written(io: Io, data: seq<byte>) { io.write.None? || io.write.value >= |data| }

  lemma AcceptRecords(m: Meta, s: State, idx: nat, b: Block, len: nat, io: Io)
    requires idx < |s.peers|
    ensures OneRecord(s, AcceptBlock(m, s, idx, b, len, io).0.state, idx,
      RecordOf(s.peers[idx].(downloaded := s.peers[idx].downloaded + len)))
  {
    hide Judge, Cancels, Picker.BlockReceived, Picker.Lower;
    var p := s.peers[idx];
    var s1 := SetPeer(s, idx, p.(downloaded := p.downloaded + len)).(suppliers := s.suppliers[b := p.dest]);
    var t := CancelElsewhere(s1, idx, b).state;
    var u := t.(picker := t.picker.BlockReceived(b).0);
    JudgeRecords(m, u, b.0, io);
  }

  /** A delivery clears the strikes against its sender, and counts if it could
      be written; any other data changes no record. */
  lemma OnBlockRecords(m: Meta, s: State, log: set<Delivery>, idx: nat, index: nat, begin: nat, data: seq<byte>, now: nat, io: Io)
    requires Inv(m, s, log) && idx < |s.peers| && |s.disk| == Total(m.files)
    ensures var p, t := s.peers[idx], OnBlock(m, s, idx, index, begin, data, now, io).state;
      if Unasked(m, p, index, begin, data) then SameRecords(s, t)
      else OneRecord(s, t, idx, RecordOf(p).(strikes := 0, downloaded := p.downloaded + if Written(io, data) then |data| else 0))
  {
    hide Inv, OnBlock, FillRequests, AcceptBlock, WriteLinear, SameRecords, OneRecord, Picker.BlockFailed;
    var p := s.peers[idx];
    var b: Block := (index, begin / BLOCK_LEN);
    RecordsStay(s, idx);
    if Unasked(m, p, index, begin, data) {
      UnaskedEffect(m, s, log, idx, index, begin, data, now, io);
      FillRecords(s, idx, now);
    } else {
      assert b.1 * BLOCK_LEN == begin;
      OwedIsAskable(m, s, log, idx, b);
      var p0 := p.(inFlight := p.inFlight - {b}, strikes := 0);
      if !Written(io, data) {
        FailedWriteUnfolds(m, s, idx, b, data, now, io);
        var u := FailedWriteState(m, s, idx, b, data[..io.write.value]);
        EditRecord(s, idx, p0, u);
        FillRecords(u, idx, now);
        OneThenSame(s, u, FillRequests(u, idx, now).state, idx, RecordOf(p0));
      } else {
        OwedIsAccepted(m, s, log, idx, b, data, now, io);
        var s1 := SetPeer(s, idx, p0).(disk := WriteLinear(m.files, s.disk, m.geo.BlockStart(b), data));
        AcceptRecords(m, s1, idx, b, |data|, io);
        var r := RecordOf(p0.(downloaded := p0.downloaded + |data|));
        var e := AcceptBlock(m, s1, idx, b, |data|, io).0.state;
        EditedTwice(s, s1, e, idx, p0, r);
        FillRecords(e, idx, now);
        OneThenSame(s, e, FillRequests(e, idx, now).state, idx, r);
      }
    }
  }

  lemma EditedTwice(s: State, t: State, u: State, idx: nat, p: Peer, r: Record)
    requires idx < |s.peers| && t.peers == s.peers[idx := p] && OneRecord(t, u, idx, r)
    ensures OneRecord(s, u, idx, r)
  {
    hide RecordOf;
  }

  // ----- a message

  /** The record of a peer once a message of its was handled. */
  ghost predicate Updated(m: Meta, p: Peer, msg: Message, io: Io, r: Record) {
    && r.id == p.id && Heeds(m.geo.numPieces, WordsOf(p), msg, r.words)
    && r.strikes == (if Delivers(m, p, msg) then 0 else p.strikes)
    && r.downloaded == p.downloaded + (if Delivers(m, p, msg) && Written(io, msg.block) then |msg.block| else 0)
  }

  /** The same, computed. `first` says whether this is the peer's opening message. */
  function Next(m: Meta, p: Peer, first: bool, msg: Message, io: Io): Record {
    var n, r := m.geo.numPieces, RecordOf(p);
    match msg
    case Choke => r.(words := r.words.(choking := true))
    case Unchoke => r.(words := r.words.(choking := false))
    case Interested => r.(words := r.words.(interested := true))
    case NotInterested => r.(words := r.words.(interested := false))
    case Have(i) => if i < n then r.(words := r.words.(has := p.has + {i})) else r
    case Bitfield(bits) =>
      if first && Bitfields.Parse(bits, n).Ok? then r.(words := r.words.(has := Bitfields.PiecesOf(bits, n))) else r
    case HaveAll => if first && p.fast then r.(words := r.words.(has := AllPieces(n))) else r
    case HaveNone => if first && p.fast then r.(words := r.words.(has := {})) else r
    case Piece(index, begin, data) =>
      if Unasked(m, p, index, begin, data) then r
      else r.(strikes := 0, downloaded := p.downloaded + if Written(io, data) then |data| else 0)
    case _ => r
  }

  function Opened(p: Peer, msg: Message): Peer { if Opens(msg) then p.(hasOpened := true) else p }

  lemma NextIsUpdated(m: Meta, p: Peer, msg: Message, io: Io)
    ensures Updated(m, p, msg, io, Next(m, Opened(p, msg), !p.hasOpened, msg, io))
  {
    hide Next, Unasked, HasAfter;
    NextCounts(m, p, msg, io);
    NextFlags(m, p, msg, io);
    NextSet(m, p, msg, io);
  }

  lemma NextCounts(m: Meta, p: Peer, msg: Message, io: Io)
    ensures var r := Next(m, Opened(p, msg), !p.hasOpened, msg, io);
      && r.id == p.id
      && r.strikes == (if Delivers(m, p, msg) then 0 else p.strikes)
      && r.downloaded == p.downloaded + (if Delivers(m, p, msg) && Written(io, msg.block) then |msg.block| else 0)
  {
    hide Bitfields.Parse, Bitfields.PiecesOf, AllPieces;
  }

  lemma NextFlags(m: Meta, p: Peer, msg: Message, io: Io)
    ensures var w, v := WordsOf(p), Next(m, Opened(p, msg), !p.hasOpened, msg, io).words;
      && v.dest == w.dest && v.fast == w.fast
      && v.begun == (w.begun || !(msg.KeepAlive? || (msg.Extended? && msg.id == 0)))
      && v.choking == (if msg.Choke? then true else if msg.Unchoke? then false else w.choking)
      && v.interested == (if msg.Interested? then true else if msg.NotInterested? then false else w.interested)
  {
    var q, first := Opened(p, msg), !p.hasOpened;
    NextKeeps(m, q, first, msg, io);
    hide Next;
  }

  lemma NextKeeps(m: Meta, p: Peer, first: bool, msg: Message, io: Io)
    ensures var w, v := WordsOf(p), Next(m, p, first, msg, io).words;
      && v == w.(has := v.has, choking := v.choking, interested := v.interested)
      && v.choking == (if msg.Choke? then true else if msg.Unchoke? then false else w.choking)
      && v.interested == (if msg.Interested? then true else if msg.NotInterested? then false else w.interested)
  {
    hide Bitfields.Parse, Bitfields.PiecesOf, AllPieces, Unasked, Bitfields.Below;
  }

  lemma NextSet(m: Meta, p: Peer, msg: Message, io: Io)
    ensures HasAfter(m.geo.numPieces, WordsOf(p), msg, Next(m, Opened(p, msg), !p.hasOpened, msg, io).words.has)
  {
    hide Bitfields.Parse, Bitfields.Encode, Bitfields.PiecesOf, Bitfields.Below, AllPieces, Unasked;
    NextHas(m.geo.numPieces, WordsOf(p), msg);
  }

  lemma NextHas(n: nat, w: Words, msg: Message)
    ensures msg.HaveAll? ==> forall i: nat :: i in AllPieces(n) <==> i < n
    ensures msg.Bitfield? ==> (Bitfields.Parse(msg.bits, n).Ok? <==> exists f: set<nat> :: Bitfields.Below(f, n) && Bitfields.Encode(f, n) == msg.bits)
    ensures msg.Bitfield? && Bitfields.Parse(msg.bits, n).Ok? ==>
      Bitfields.Below(Bitfields.PiecesOf(msg.bits, n), n) && Bitfields.Encode(Bitfields.PiecesOf(msg.bits, n), n) == msg.bits
  {
    hide Bitfields.Encode, Bitfields.HasBit;
    if msg.Bitfield? { Bitfields.ParseAcceptsEncodings(msg.bits, n); }
  }

  lemma UnchokeRecords(s: State, idx: nat, now: nat)
    requires idx < |s.peers|
    ensures OneRecord(s, FillRequests(SetPeer(s, idx, s.peers[idx].(peerChoking := false)), idx, now).state, idx,
      RecordOf(s.peers[idx].(peerChoking := false)))
  {
    hide FillRequests, OneRecord, SameRecords;
    var q := s.peers[idx].(peerChoking := false);
    var t := SetPeer(s, idx, q);
    EditRecord(s, idx, q, t);
    FillRecords(t, idx, now);
    OneThenSame(s, t, FillRequests(t, idx, now).state, idx, RecordOf(q));
  }

  lemma InterestedRecords(s: State, idx: nat)
    requires idx < |s.peers|
    ensures var t := SetPeer(s, idx, s.peers[idx].(theyInterested := true));
      && OneRecord(s, t, idx, RecordOf(t.peers[idx]))
      && OneRecord(s, RunChoker(t).state, idx, RecordOf(t.peers[idx]))
  {
    hide RunChoker, OneRecord, SameRecords;
    var q := s.peers[idx].(theyInterested := true);
    var t := SetPeer(s, idx, q);
    EditRecord(s, idx, q, t);
    ChokerRecords(t);
    OneThenSame(s, t, RunChoker(t).state, idx, RecordOf(q));
  }

  lemma ServeRecords(m: Meta, s: State, idx: nat, req: BlockRequest, io: Io)
    requires idx < |s.peers|
    ensures SameRecords(s, ServeRequest(m, s, idx, req, io).state)
  {
    hide Present, Bytes;
  }

  lemma FlagsRecords(m: Meta, s: State, idx: nat, first: bool, msg: Message, now: nat, io: Io)
    requires idx < |s.peers| && |s.disk| == Total(m.files) && !msg.Piece?
    requires !msg.Have? && !msg.Bitfield? && !msg.HaveAll? && !msg.HaveNone?
    ensures OneRecord(s, Dispatch(m, s, idx, first, msg, now, io).state, idx, Next(m, s.peers[idx], first, msg, io))
  {
    hide FillRequests, RunChoker, Picker.Release, Counting.Count, ServeRequest, OneRecord, SameRecords;
    hide UpdateInterest, OnBlock, ReplacePieceSet, Bitfields.Parse, Bitfields.PiecesOf, AllPieces, Unasked;
    var p := s.peers[idx];
    RecordsStay(s, idx);
    match msg {
      case Unchoke => UnchokeRecords(s, idx, now);
      case Interested => InterestedRecords(s, idx);
      case Choke =>
        EditRecord(s, idx, p.(peerChoking := true, inFlight := map[]), ReleaseAll(SetPeer(s, idx, p.(peerChoking := true)), idx));
      case NotInterested =>
        var q := p.(theyInterested := false, weChoke := true);
        EditRecord(s, idx, q, SetPeer(s, idx, q));
      case Request(req) =>
        ServeRecords(m, s, idx, req, io);
        SameIsOne(s, ServeRequest(m, s, idx, req, io).state, idx);
      case RejectRequest(_) | SuggestPiece(_) | AllowedFast(_) => EditRecord(s, idx, p, Violation(s, p.id).state);
      case _ =>
    }
  }

  lemma ReplacedRecords(s: State, idx: nat, field: set<nat>, now: nat)
    requires idx < |s.peers|
    ensures OneRecord(s, UpdateInterest(ReplacePieceSet(s, idx, field), idx, now).state, idx, RecordOf(s.peers[idx].(has := field)))
  {
    hide UpdateInterest, Picker.AddBitfield, Picker.RemoveBitfield, OneRecord, SameRecords;
    var q, t := s.peers[idx].(has := field), ReplacePieceSet(s, idx, field);
    EditRecord(s, idx, q, t);
    InterestRecords(t, idx, now);
    OneThenSame(s, t, UpdateInterest(t, idx, now).state, idx, RecordOf(q));
  }

  lemma SetRecords(m: Meta, s: State, idx: nat, first: bool, msg: Message, now: nat, io: Io)
    requires idx < |s.peers| && |s.disk| == Total(m.files)
    requires msg.Bitfield? || msg.HaveAll? || msg.HaveNone?
    ensures OneRecord(s, Dispatch(m, s, idx, first, msg, now, io).state, idx, Next(m, s.peers[idx], first, msg, io))
  {
    hide UpdateInterest, ReplacePieceSet, Bitfields.Parse, Bitfields.PiecesOf, AllPieces, OneRecord;
    var n, p := m.geo.numPieces, s.peers[idx];
    EditRecord(s, idx, p, Violation(s, p.id).state);
    match msg {
      case Bitfield(bits) =>
        if first && Bitfields.Parse(bits, n).Ok? { ReplacedRecords(s, idx, Bitfields.PiecesOf(bits, n), now); }
      case HaveAll => ReplacedRecords(s, idx, AllPieces(n), now);
      case HaveNone => ReplacedRecords(s, idx, {}, now);
    }
  }

  lemma HaveRecords(m: Meta, s: State, idx: nat, first: bool, msg: Message, now: nat, io: Io)
    requires idx < |s.peers| && |s.disk| == Total(m.files) && msg.Have?
    ensures OneRecord(s, Dispatch(m, s, idx, first, msg, now, io).state, idx, Next(m, s.peers[idx], first, msg, io))
  {
    hide UpdateInterest, Picker.AddSingle, OneRecord, SameRecords;
    var p, piece := s.peers[idx], msg.piece;
    RecordsStay(s, idx);
    if piece in p.has {
      assert p.has + {piece} == p.has;
    } else {
      var q := p.(has := p.has + {piece});
      var t := SetPeer(s, idx, q).(picker := s.picker.AddSingle(piece));
      EditRecord(s, idx, q, t);
      InterestRecords(t, idx, now);
      OneThenSame(s, t, UpdateInterest(t, idx, now).state, idx, RecordOf(q));
    }
  }

  lemma PieceRecords(m: Meta, s: State, log: set<Delivery>, idx: nat, first: bool, msg: Message, now: nat, io: Io)
    requires Inv(m, s, log) && idx < |s.peers| && |s.disk| == Total(m.files) && msg.Piece?
    ensures OneRecord(s, Dispatch(m, s, idx, first, msg, now, io).state, idx, Next(m, s.peers[idx], first, msg, io))
  {
    hide Inv, OnBlock, OneRecord, SameRecords, Unasked;
    OnBlockRecords(m, s, log, idx, msg.index, msg.begin, msg.block, now, io);
    var t := OnBlock(m, s, idx, msg.index, msg.begin, msg.block, now, io).state;
    if Unasked(m, s.peers[idx], msg.index, msg.begin, msg.block) { SameIsOne(s, t, idx); }
  }

  lemma HandleRecords(m: Meta, s0: State, log: set<Delivery>, idx: nat, msg: Message, now: nat, io: Io)
    requires Inv(m, s0, log) && idx < |s0.peers| && |s0.disk| == Total(m.files)
    ensures OneRecord(s0, Handle(m, s0, idx, msg, now, io).state, idx,
      Next(m, Opened(s0.peers[idx], msg), !s0.peers[idx].hasOpened, msg, io))
  {
    hide Inv, Dispatch, OneRecord, Next;
    var p, first := s0.peers[idx], !s0.peers[idx].hasOpened;
    var s := if Opens(msg) then SetPeer(s0, idx, Opened(p, msg)) else s0;
    OpenKeeps(m, s0, log, idx);
    assert s.peers == s0.peers[idx := Opened(p, msg)] && s.peers[idx] == Opened(p, msg);
    if msg.Piece? {
      PieceRecords(m, s, log, idx, first, msg, now, io);
    } else if msg.Have? {
      HaveRecords(m, s, idx, first, msg, now, io);
    } else if msg.Bitfield? || msg.HaveAll? || msg.HaveNone? {
      SetRecords(m, s, idx, first, msg, now, io);
    } else {
      FlagsRecords(m, s, idx, first, msg, now, io);
    }
    EditedTwice(s0, s, Dispatch(m, s, idx, first, msg, now, io).state, idx, Opened(p, msg), Next(m, Opened(p, msg), first, msg, io));
  }

  // ----- a tick

  /** A tick holds against each late peer one strike more. */
  function Ticked(p: Peer, timeout: nat, now: nat): Record {
    RecordOf(p).(strikes := p.strikes + if Late(p, timeout, now) then 1 else 0)
  }

  lemma MaintainPeerRecords(s: State, idx: nat, now: nat)
    requires idx < |s.peers|
    ensures OneRecord(s, MaintainPeer(s, idx, now).state, idx, Ticked(s.peers[idx], s.requestTimeout, now))
  {
    hide FillRequests, Expired, Picker.Release, Late, OneRecord, SameRecords;
    var p, late := s.peers[idx], Expired(s, s.peers[idx], now);
    LateIsExpired(s, p, now);
    FillRecords(s, idx, now);
    SameIsOne(s, FillRequests(s, idx, now).state, idx);
    var q := p.(inFlight := p.inFlight - late, strikes := p.strikes + 1);
    var s' := SetPeer(s, idx, q).(picker := s.picker.Release(late));
    EditRecord(s, idx, q, s');
    FillRecords(s', idx, now);
    OneThenSame(s, s', FillRequests(s', idx, now).state, idx, RecordOf(q));
  }

  lemma {:induction false} MaintainRecords(s: State, now: nat, k: nat)
    requires k <= |s.peers|
    ensures var t := MaintainBelow(s, now, k).state;
      && t.requestTimeout == s.requestTimeout && |t.peers| == |s.peers|
      && (forall j :: 0 <= j < k ==> RecordOf(t.peers[j]) == Ticked(s.peers[j], s.requestTimeout, now))
      && (forall j :: k <= j < |s.peers| ==> t.peers[j] == s.peers[j])
  {
    hide MaintainPeer, Ticked, RecordOf, Struck;
    if k > 0 {
      MaintainRecords(s, now, k - 1);
      var t := MaintainBelow(s, now, k - 1).state;
      MaintainPeerRecords(t, k - 1, now);
      MaintainOnlyOne(t, k - 1, now);
    }
  }

  // ----- one step

  /** What a step other than joining and leaving makes of each peer's record: a
      message is heeded by the record of its sender, a tick strikes the late, and
      nothing else changes a record. */
  ghost predicate Accounted(m: Meta, s: State, e: Event, t: State) {
    && |t.peers| == |s.peers|
    && forall k :: 0 <= k < |s.peers| ==>
         var p, r := s.peers[k], RecordOf(t.peers[k]);
         if e.Receive? && e.id == p.id then Updated(m, p, e.msg, e.io, r)
         else if e.Maintain? then r == Ticked(p, s.requestTimeout, e.now)
         else r == RecordOf(p)
  }

  lemma StepAccounts(m: Meta, s: State, log: set<Delivery>, e: Event)
    requires Inv(m, s, log) && |s.disk| == Total(m.files) && !e.Register? && !e.DropPeer?
    ensures Accounted(m, s, e, Step(m, s, e).state)
  {
    hide Inv, OnMessage, OnTick, Updated, Late, RecordOf, Accounted;
    match e {
      case Receive(id, msg, now, io) => MessageAccounts(m, s, log, id, msg, now, io);
      case Maintain(now) => TickAccounts(m, s, now);
      case _ => SettingAccounts(m, s, e);
    }
  }

  lemma SettingAccounts(m: Meta, s: State, e: Event)
    requires |s.disk| == Total(m.files) && !e.Register? && !e.DropPeer? && !e.Receive? && !e.Maintain?
    ensures Accounted(m, s, e, Step(m, s, e).state)
  {
    hide RecordOf;
  }

  lemma MessageAccounts(m: Meta, s: State, log: set<Delivery>, id: nat, msg: Message, now: nat, io: Io)
    requires Inv(m, s, log) && |s.disk| == Total(m.files)
    ensures Accounted(m, s, Receive(id, msg, now, io), OnMessage(m, s, id, msg, now, io).state)
  {
    hide Handle, ChokeRoundIfDue, RecordOf, Updated, Next, PeersOk, AvailabilityExact, FlightExact, DestsOk, Witnessed, HeldVerified;
    var found := Find(s.peers, id);
    var e := match found case None => Effect(s, []) case Some(k) => Handle(m, s, k, msg, now, io);
    RoundRecords(e.state, now);
    if found.Some? {
      var idx := found.value;
      HandleRecords(m, s, log, idx, msg, now, io);
      NextIsUpdated(m, s.peers[idx], msg, io);
      assert forall k :: 0 <= k < |s.peers| && k != idx ==> s.peers[k].id != id;
    }
  }

  lemma TickAccounts(m: Meta, s: State, now: nat)
    ensures Accounted(m, s, Maintain(now), OnTick(s, now).state)
  {
    hide MaintainBelow, ChokeRoundIfDue, RecordOf, Ticked;
    MaintainRecords(s, now, |s.peers|);
    RoundRecords(MaintainBelow(s, now, |s.peers|).state, now);
  }

  /** A destination may join unless it is banned, has its connections already or
      the table is full. Who joins starts with a clean record, and nobody else's
      changes. */
  lemma JoinersStartAfresh(s: State, dest: Dest, fast: bool)
    ensures var t := RegisterPeer(s, dest, fast);
      t != s <==> dest !in s.banned && Counting.Count(s.peers, From(dest)) < MAX_CONNECTIONS_PER_DEST && |s.peers| < s.maxPeers
    ensures var t := RegisterPeer(s, dest, fast);
      t != s ==> t.peers == s.peers + [t.peers[|t.peers| - 1]] && RecordOf(t.peers[|s.peers|]) == Record(s.nextId, Unheard(dest, fast), 0, 0)
  {
    hide Counting.Count;
    assert RegisterPeer(s, dest, fast).nextId != s.nextId <==> !Refused(s, dest);
  }

  /** From any reachable state each message, tick and setting changes of the
      peers' records exactly what was said. */
  lemma RecordsAreAccountedFor(m: Meta, w: World, e: Event)
    requires Reachable(m, w) && !e.Register? && !e.DropPeer?
    ensures |w.state.disk| == Total(m.files) && Accounted(m, w.state, e, Step(m, w.state, e).state)
  {
    hide Reachable, Inv, Step, Accounted;
    ReachableIsSafe(m, w);
    InvOf(m, w);
    ShapeOf(m, w.state, w.log);
    StepAccounts(m, w.state, w.log, e);
  }

  // ----- every run

  /** What is heeded is determined by what is said. */
  lemma HeededOnce(n: nat, w: Words, msg: Message, a: Words, b: Words)
    requires Heeds(n, w, msg, a) && Heeds(n, w, msg, b)
    ensures a == b
  {
    hide Bitfields.Encode, Bitfields.PiecesOf;
    if msg.Bitfield? && !w.begun && a.has != w.has {
      Bitfields.EncodedStandsForSet(a.has, n);
    }
    if msg.Bitfield? && !w.begun && exists f: set<nat> :: Bitfields.Below(f, n) && Bitfields.Encode(f, n) == msg.bits {
      Bitfields.EncodedStandsForSet(a.has, n);
      Bitfields.EncodedStandsForSet(b.has, n);
    }
    assert a.has == b.has;
  }

  lemma HeededSome(m: Meta, w: Words, msg: Message)
    ensures exists v :: Heeds(m.geo.numPieces, w, msg, v)
  {
    hide Heeds, Next;
    var p := Peer(0, w.dest, w.has, w.begun, w.fast, w.choking, true, w.interested, false, map[], 0, 0, 0, 0, 0);
    assert WordsOf(p) == w;
    var io := Io(None, None, false);
    NextIsUpdated(m, p, msg, io);
    assert Heeds(m.geo.numPieces, w, msg, Next(m, Opened(p, msg), !p.hasOpened, msg, io).words);
  }

  ghost function Learned(m: Meta, w: Words, msg: Message): Words {
    HeededSome(m, w, msg);
    var v :| Heeds(m.geo.numPieces, w, msg, v);
    v
  }

  /** A peer that just joined chokes us, wants nothing and has announced nothing. */
  function Unheard(dest: Dest, fast: bool): Words { Words(dest, fast, false, {}, true, false) }

  /** What each connection, by its id, has told since it joined. */
  ghost function Ledger(m: Meta, w: World, events: seq<Event>): map<nat, Words> {
    if events == [] then map[]
    else
      var init := events[..|events| - 1];
      Noted(m, Run(m, w, init).state, Ledger(m, w, init), events[|events| - 1])
  }

  ghost function Noted(m: Meta, s: State, told: map<nat, Words>, e: Event): map<nat, Words> {
    match e
    case Register(dest, fast) => if Refused(s, dest) then told else told[s.nextId := Unheard(dest, fast)]
    case DropPeer(id) => told - {id}
    case Receive(id, msg, _, _) => if id in told then told[id := Learned(m, told[id], msg)] else told
    case _ => told
  }

  /** The peer table says of each peer what the ledger does, and both of the same peers. */
  ghost predicate Agrees(s: State, told: map<nat, Words>) {
    && (forall k :: 0 <= k < |s.peers| ==> s.peers[k].id in told && told[s.peers[k].id] == WordsOf(s.peers[k]))
    && (forall id :: id in told ==> exists k :: 0 <= k < |s.peers| && s.peers[k].id == id)
  }

  lemma StepAgrees(m: Meta, w: World, told: map<nat, Words>, e: Event)
    requires WorldInv(m, w) && Agrees(w.state, told)
    ensures Agrees(WorldStep(m, w, e).state, Noted(m, w.state, told, e))
  {
    hide Inv, OnMessage, OnTick, RemovePeer, RegisterPeer, Accounted, Agrees, Noted;
    InvOf(m, w);
    ShapeOf(m, w.state, w.log);
    IdsOf(m, w.state, w.log);
    if e.Register? {
      JoinAgrees(m, w.state, told, e);
    } else if e.DropPeer? {
      LeaveAgrees(m, w.state, told, e);
    } else {
      StepAccounts(m, w.state, w.log, e);
      TalkAgrees(m, w.state, told, e, Step(m, w.state, e).state);
    }
  }

  lemma NewIsUnheard(s: State, dest: Dest, fast: bool)
    ensures WordsOf(NewPeer(s, dest, fast)) == Unheard(dest, fast)
  {}

  lemma JoinAgrees(m: Meta, s: State, told: map<nat, Words>, e: Event)
    requires e.Register? && Agrees(s, told) && IdsOk(s.peers, s.nextId)
    ensures Agrees(RegisterPeer(s, e.dest, e.fast), Noted(m, s, told, e))
  {
    hide Refused, WordsOf, Unheard, Learned;
    if !Refused(s, e.dest) {
      var p := NewPeer(s, e.dest, e.fast);
      NewIsUnheard(s, e.dest, e.fast);
      PushAgrees(s, told, p, RegisterPeer(s, e.dest, e.fast));
    }
  }

  lemma PushAgrees(s: State, told: map<nat, Words>, p: Peer, t: State)
    requires Agrees(s, told) && t.peers == s.peers + [p] && forall k :: 0 <= k < |s.peers| ==> s.peers[k].id != p.id
    ensures Agrees(t, told[p.id := WordsOf(p)])
  {
    hide WordsOf;
    assert t.peers[|s.peers|] == p;
    forall id | id in told ensures exists k :: 0 <= k < |t.peers| && t.peers[k].id == id {
      var k :| 0 <= k < |s.peers| && s.peers[k].id == id;
      assert t.peers[k].id == id;
    }
  }

  lemma LeaveAgrees(m: Meta, s: State, told: map<nat, Words>, e: Event)
    requires e.DropPeer? && Agrees(s, told) && IdsOk(s.peers, s.nextId)
    ensures Agrees(RemovePeer(s, e.id), Noted(m, s, told, e))
  {
    hide Picker.RemoveBitfield, Picker.Release, WordsOf, Learned, Counting.SwapRemove, Agrees;
    var found := Find(s.peers, e.id);
    if found.Some? {
      SwapAgrees(s, told, found.value, RemovePeer(s, e.id));
    } else {
      Agree(s, told, e.id);
    }
  }

  lemma Agree(s: State, told: map<nat, Words>, id: nat)
    requires Agrees(s, told) && forall k :: 0 <= k < |s.peers| ==> s.peers[k].id != id
    ensures told - {id} == told
  {}

  lemma SwapAgrees(s: State, told: map<nat, Words>, i: nat, t: State)
    requires Agrees(s, told) && IdsOk(s.peers, s.nextId) && i < |s.peers| && t.peers == Counting.SwapRemove(s.peers, i)
    ensures Agrees(t, told - {s.peers[i].id})
  {
    hide WordsOf;
    var after := told - {s.peers[i].id};
    forall k | 0 <= k < |t.peers| ensures t.peers[k].id in after && after[t.peers[k].id] == WordsOf(t.peers[k]) {
      var j := if k == i then |s.peers| - 1 else k;
      assert t.peers[k] == s.peers[j] && j != i;
    }
    forall id | id in after ensures exists k :: 0 <= k < |t.peers| && t.peers[k].id == id {
      var k :| 0 <= k < |s.peers| && s.peers[k].id == id;
      assert t.peers[if k == |s.peers| - 1 then i else k] == s.peers[k];
    }
  }

  lemma TalkAgrees(m: Meta, s: State, told: map<nat, Words>, e: Event, t: State)
    requires !e.Register? && !e.DropPeer? && Agrees(s, told) && Accounted(m, s, e, t)
    ensures Agrees(t, Noted(m, s, told, e))
  {
    hide Heeds, Late, Learned, WordsOf, Updated;
    var after := Noted(m, s, told, e);
    forall k | 0 <= k < |t.peers|
      ensures t.peers[k].id == s.peers[k].id && t.peers[k].id in after && after[t.peers[k].id] == WordsOf(t.peers[k])
    {
      var p, r := s.peers[k], RecordOf(t.peers[k]);
      if e.Receive? && e.id == p.id { UpdatedIsHeard(m, p, e.msg, e.io, r); }
    }
    forall id | id in after ensures exists k :: 0 <= k < |t.peers| && t.peers[k].id == id {
      assert id in told;
      var k :| 0 <= k < |s.peers| && s.peers[k].id == id;
      assert t.peers[k].id == id;
    }
  }

  lemma UpdatedIsHeard(m: Meta, p: Peer, msg: Message, io: Io, r: Record)
    requires Updated(m, p, msg, io, r)
    ensures r.id == p.id && r.words == Learned(m, WordsOf(p), msg)
  {
    HeardIs(m, WordsOf(p), msg, r.words);
  }

  lemma HeardIs(m: Meta, w: Words, msg: Message, v: Words)
    requires Heeds(m.geo.numPieces, w, msg, v)
    ensures Learned(m, w, msg) == v
  {
    HeededOnce(m.geo.numPieces, w, msg, Learned(m, w, msg), v);
  }

  lemma {:induction false} RunAgrees(m: Meta, w: World, events: seq<Event>)
    requires WorldInv(m, w) && w.state.peers == []
    ensures Agrees(Run(m, w, events).state, Ledger(m, w, events))
  {
    hide WorldInv, WorldStep, Noted;
    if events != [] {
      var init := events[..|events| - 1];
      RunAgrees(m, w, init);
      RunKeeps(m, w, init);
      hide Agrees;
      StepAgrees(m, Run(m, w, init), Ledger(m, w, init), events[|events| - 1]);
    }
  }

  /** In every run the peer table knows exactly the connected peers, and of each
      exactly what its messages have told since it joined: the pieces it
      announced, whether it chokes us and whether it is interested. */
  lemma TableIsWhatPeersTold(m: Meta, disk: seq<Cell>, have: set<nat>, mode: Mode, events: seq<Event>)
    requires FairStart(m, disk, have)
    ensures var w := Beginning(m, disk, have, mode);
      var s, told := Run(m, w, events).state, Ledger(m, w, events);
      && (forall k :: 0 <= k < |s.peers| ==> s.peers[k].id in told && told[s.peers[k].id] == WordsOf(s.peers[k]))
      && (forall id :: id in told ==> exists k :: 0 <= k < |s.peers| && s.peers[k].id == id)
  {
    hide Run, Ledger;
    BeginsWell(m, disk, have, mode);
    RunAgrees(m, Beginning(m, disk, have, mode), events);
  }
}
