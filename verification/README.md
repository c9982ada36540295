# Verification of the clove download engine

This project models the parts of clove, a BitTorrent client for I2P, where
mistakes would be hardest to see, and proves what they promise. Verify it with
`dafny verify dfyconfig.toml`.

## The system modelled

**The piece-download engine.** A torrent is a state machine over its connected
peers. Each handler runs under one lock, so a run is a sequence of atomic steps:
a peer joins or leaves, a message arrives from any peer, a maintenance tick
passes, a setting changes. `EngineSpec` says what each step does to the state and
what it sends; `Torrents.Torrent`, `Pickers.Picker`, `Storages.Storage` and
`Chokers.Choker` are the mutable objects with the program's own loops, proved to
do exactly that. The state keeps several redundant tables. `EngineInvariant` says
how they must agree; `EngineSteps`, `EngineDelivery`, `EngineFrame` and
`EngineTheorems` prove that every step keeps them so, and `EngineSafety`,
`EngineOutcomes`, `EngineBlame`, `EngineBans`, `EngineCompletion`, `EngineEndgame`,
`EngineStamps` and `EngineUnread` read the promises off for every reachable state.
`EngineOutbox` says that what was sent is what the tables say, `EngineWords` that the
tables say of each peer what that peer told, `EngineVerdicts` what a verdict costs,
`EngineRefills` and `EngineRounds` that refills and choke rounds happen when they
should and serve whom they should; `EngineWitness` holds runs in which less happens
than one might expect. Hashing is an unknown function, clock
readings and disk faults are inputs of a step, what peers sent and what was queued
for them is a history kept beside the state.

**The choke scheduler** (`ChokerSpec`, `ChokerMerit`, `Choker`), **the files as one linear array**
(`DiskSpec`, `Storage`), **the bitfield bytes** (`Bitfield`), **the bencode codec**
(`BencodeSpec`, `BencodeTheory`, `BencodeOrder`, `BencodeFraming`, `BencodeSpans`,
`Bencode`; "bencoding" in BEP 3),
**the base32 and base64 codecs** (`BitStrings`, `Addr`, `AddrNumbers`; sections 6 and 4 of RFC
4648, the latter with I2P's alphabet), **the file layout** (`Layout`), **fetching
and serving metadata** (`Metadata`, BEP 9) and **the client-wide connection
budget** (`Budget`), whose threads and torrents are interleaved freely and whose
torrents take the engine's own steps.

`Prelude`, `Counting`, `Sorting` and `Wire` hold what the others share.

## Where the code and its comments differ

The model follows the code.

- `torrent.rs:180-190` asserts only that the picker counts no more requests than
  the peers owe, expecting peers to go on owing blocks of a piece already held.
  They never do: block by block the two are equal in every state between steps
  (`EngineSafety.InFlightCountsAreExact`).
- `bencode.rs:258-260` says an empty wanted key never matches. It matches the entry
  of `d0:i1ee` (`BencodeSpans.EmptyKeyCanMatch`); the span theorem covers it.
- `metainfo.rs:213-220` says the wrapper's `info` span is the bytes wrapped. That
  holds exactly when they are one complete value (`BencodeSpans.WrapSpanExact`).
- `picker.rs:500-519` compares a saturating `u32` sum. It is wrong only for a
  threshold of `u32::MAX` with more blocks than that remaining (`PickerTheory.EndgameExact`).
- `addr.rs:138-147` says the base32 decoder accepts nothing its encoder cannot
  produce. It accepts a dangling zero symbol (`Addr.Base32Canonical` says exactly
  when); a 32-byte hash nevertheless has one label only (`Addr.OneLabelPerHash`).
- `metadata.rs:242-245` promises at most twice the limit in any span of a window.
  With a window of no length and a positive limit every request is served
  (`Metadata.TwiceTheLimitIffWindowHasLength`).

Three things the code does not say and one might take for granted are false, and
each has its exact condition:

- A refill need not use the room it has. It falls short exactly when it is handed
  a block the peer owes already while a free one is passed over, which takes
  endgame (`EngineEndgame.RefillConservesWorkExactly`, `EngineWitness.RefillCanStopEarly`).
- A request need not expire within its timeout. In endgame a refill renews the
  stamp of what is owed (`EngineEndgame.RestampsExactly`), for ever if it comes to
  that (`EngineWitness.SilentPeerIsNeverFoundOut`); out of endgame the timeout
  holds (`EngineStamps.OverdueIsTakenBack`).
- A missing piece need not be offered again. It is not, ever, exactly when the disk
  once failed to read it back (`EngineUnread.UnreadExactly`, `EngineUnread.UnreadForGood`,
  `EngineWitness.OneReadFaultIsForGood`).

## Model

| member | source | states |
|---|---|---|
| EngineTheorems.RunKeeps | crates/clove-core/src/torrent.rs:177-221 | over any sequence of joins, departures, messages from any peer, ticks and setting changes, with any disk faults, every table stays consistent with every other; what is held only grows and its bytes never change |
| EngineTheorems.StepKeeps | crates/clove-core/src/torrent.rs:1531-1599 | one step from any consistent state, whichever event, leads to a consistent state and sends only true messages |
| EngineSafety.ReachableIsSafe | crates/clove-core/src/torrent.rs:586-655 | the invariant holds of every state reachable from a truthful start |
| EngineSafety.HeldPiecesAreSafe | crates/clove-core/src/torrent.rs:1863-1942 | each held piece is on disk with the expected hash, and no later run un-holds it or changes one of its bytes |
| EngineSafety.ServedBytesAreVerified | crates/clove-core/src/torrent.rs:1945-1979 | every `piece` ever sent lies inside a held piece and carries that verified piece's bytes, still, at every later moment |
| EngineSafety.AnnouncementsAreTrue | crates/clove-core/src/torrent.rs:1919-1932 | every `have` ever sent is and stays true; every request and cancel ever sent names one existing block, whole |
| EngineSafety.InFlightCountsAreExact | crates/clove-core/src/torrent.rs:177-190 | a block's in-flight count equals the number of connected peers owing it; received, verified or non-existent blocks are owed by nobody |
| EngineSafety.AvailabilityIsExact | crates/clove-core/src/torrent.rs:192-221 | a piece's availability equals the number of connected peers that have it, so withdrawing a set never saturates |
| EngineSafety.SuppliersAreExact | crates/clove-core/src/torrent.rs:1893-1932 | exactly the received, unverified blocks have a supplier, and the disk holds byte for byte what that destination sent |
| EngineSafety.UnchokedPeersFit | crates/clove-core/src/torrent.rs:2158-2191 | at most the slot count of peers are unchoked, and each of those is interested |
| EngineSafety.PeerTableIsSound | crates/clove-core/src/torrent.rs:1424-1471 | pipelines are never over-full, a choking peer owes nothing, peers owe only what they have, ids are distinct, no destination is over its connection limit |
| EngineOutbox.DebtsWereRequested | crates/clove-core/src/torrent.rs:2134-2150 | in every reachable state each block a peer owes was requested of it: `Request` with the block's piece, offset and length is among the messages queued for it |
| EngineOutbox.RefillSendsWhatItAsks | crates/clove-core/src/torrent.rs:2134-2150 | from every reachable state the messages of a refill are, each once and all to the peer refilled, the requests for exactly the blocks it newly owes |
| EngineOutbox.AnswersAreTaken | crates/clove-core/src/torrent.rs:1863-1890 | whatever answers such a request with as many bytes as it asks for is taken as that block, at its place on disk |
| EngineOutbox.DeliveriesCancelTheRest | crates/clove-core/src/torrent.rs:2004-2034 | after an owed block is written a cancel for it goes to each other peer that owes it, and no other cancel goes out |
| EngineOutbox.PeersKnowHowWeStand | crates/clove-core/src/torrent.rs:2049-2071 | in every reachable state the last word each peer had from us about choking and about interest is how we stand towards it, and the bytes counted as uploaded to it are those of the pieces it was sent |
| EngineOutbox.NewPiecesAreAnnounced | crates/clove-core/src/torrent.rs:1919-1932 | over any run, a peer connected before and after it was sent a `have` for every piece that came to be held in between |
| EngineOutbox.StepOutbox | crates/clove-core/src/torrent.rs:1531-1599 | in one step: new debts are requested, changes of choke and interest are told, uploads are what was sent, exactly the pieces newly held are announced to everybody, and only connected peers are written to |
| EngineWords.TableIsWhatPeersTold | crates/clove-core/src/torrent.rs:1618-1743 | over every run from the start the table holds exactly the connected peers, and of each exactly what its messages told since it joined: its pieces (all after have-all, none after have-none, those a bitfield encodes, one more per have), whether it chokes us, whether it is interested |
| EngineWords.RecordsAreAccountedFor | crates/clove-core/src/torrent.rs:1618-1743 | from every reachable state a message changes its sender's record as said and resets strikes and adds to the bytes received only by delivering an owed block; a tick adds a strike to exactly the late; no other record changes |
| EngineWords.JoinersStartAfresh | crates/clove-core/src/torrent.rs:1424-1471 | a destination joins if and only if it is not banned, not at its connection limit and the table is not full, and starts with a clean record |
| EngineEndgame.RefillConservesWorkExactly | crates/clove-core/src/torrent.rs:2121-2150 | in every reachable state, in endgame or not, a refill of an unchoked pipeline of interest leaves it full or no free block to ask for, if and only if it is not handed a block the peer owes already while a free one is passed over |
| EngineEndgame.RefillIsWorkConserving | crates/clove-core/src/torrent.rs:2121-2150 | in particular outside endgame every refill is work-conserving: what the peer has, is wanted and missing was received or is owed by somebody, or the pipeline is full |
| EngineWitness.RefillCanStopEarly | crates/clove-core/src/torrent.rs:2121-2150 | a reachable state of one peer and one piece of eighteen blocks in which a refill is handed an owed block, passes over a free one and leaves room |
| EngineEndgame.RestampsExactly | crates/clove-core/src/torrent.rs:2134-2150 | a refill gives an owed block a new time of asking if and only if it is handed one asked at another time, and that happens in endgame only |
| EngineStamps.StampIsWhenAsked | crates/clove-core/src/torrent.rs:2121-2150 | through any run no step of which ends in endgame, from any reachable state, the stamp of a debt is the time since which it has been owed without interruption |
| EngineStamps.OverdueIsTakenBack | crates/clove-core/src/torrent.rs:2086-2118 | in such a run a tick a timeout or more after a debt began takes the block off the peer, and if the peer owes it afterwards it was asked anew at that tick |
| EngineStamps.NothingOwedPastTheTimeout | crates/clove-core/src/torrent.rs:2086-2118 | so after a tick in such a run nobody has owed any block for as long as the timeout |
| EngineStamps.StepStamps | crates/clove-core/src/torrent.rs:2086-2150 | one step of any kind that does not end in endgame leaves the stamp of a debt alone unless it takes the block off, overdue or delivered, and asks again |
| EngineWitness.SilentPeerIsNeverFoundOut | crates/clove-core/src/torrent.rs:2086-2150 | in endgame, under any sequence of ticks closer together than the timeout, a peer that never answers goes on owing the block it was asked for at time 0, and is neither struck nor evicted |
| EngineWitness.OwedForAnyTime | crates/clove-core/src/torrent.rs:2086-2150 | so a block may be owed for any multiple of the timeout |
| EngineUnread.StepLeavesUnread | crates/clove-core/src/torrent.rs:1909-1938 | a missing piece has all its blocks after a step if and only if it had before, or the step delivered its last block and the device failed the read of its check |
| EngineUnread.UnreadExactly | crates/clove-core/src/torrent.rs:1934-1938 | over every run from the start: a missing piece has all its blocks if and only if some step of the run left it so |
| EngineUnread.NothingUnreadWhileTheDiskReads | crates/clove-core/src/torrent.rs:1934-1938 | in a run without read errors no missing piece ever has all its blocks |
| EngineUnread.UnreadForGood | crates/clove-core/src/torrent.rs:1934-1938 | a missing piece with all its blocks stays so through every later run; no block of it is picked or owed again, and while it is wanted the download is not complete |
| EngineWitness.OneReadFaultIsForGood | crates/clove-core/src/torrent.rs:1934-1938 | a run of four steps with one read error, after which the piece is left out for good |
| EngineOutcomes.RequestsAreAnswered | crates/clove-core/src/torrent.rs:1945-1979 | in a reachable state a request is answered, with the stored bytes, if and only if it is for at most a block of a held piece by an unchoked peer and the disk reads; the bytes are always there |
| EngineOutcomes.DeliveryOutcome | crates/clove-core/src/torrent.rs:1863-1942 | an owed block written without error changes the disk only by its own bytes, and is pending unless it completes its piece; then the hash alone decides: held, thrown away, in both cases with the piece's suppliers let go, or (unreadable) still pending |
| EngineOutcomes.FailedWriteOutcome | crates/clove-core/src/torrent.rs:1898-1908 | a failed write leaves the block unreceived, nothing held or blamed changed, and on disk only the prefix that was written |
| EngineVerdicts.VerdictsAreExact | crates/clove-core/src/torrent.rs:426-470 | from every reachable state an owed block that was written costs or repays nobody unless it completes its piece; then a match repays each destination one failure per block it supplied, a mismatch bans a sole supplier and otherwise raises each by one and bans exactly at the limit, an unreadable piece blames nobody |
| EngineOutcomes.UnaskedIsIgnored | crates/clove-core/src/torrent.rs:1872-1890 | data not asked of this peer, off a block boundary or of a wrong length (a zero-length block past the end included) changes nothing stored, held, received or blamed |
| EngineOutcomes.InterestIsHonest | crates/clove-core/src/torrent.rs:2049-2071 | interest follows exactly whether the peer has a piece we lack; the peer hears of changes only, before any request, and a choking peer is sent none |
| EngineRefills.PipelinesAreToppedUp | crates/clove-core/src/torrent.rs:1618-1743 | from every reachable state: news of pieces leaves us interested exactly if the peer has one we lack, with requests out if that is new; being unchoked, deciding a piece, a write error and unasked data top the pipeline up |
| EngineRefills.TicksTopUp | crates/clove-core/src/torrent.rs:2086-2118 | when a tick has dealt with a peer it does not strike out, that pipeline is topped up |
| EngineOutcomes.TickTakesOnlyTheOverdue | crates/clove-core/src/torrent.rs:2086-2118 | a tick leaves every debt younger than the timeout |
| EngineRounds.RoundsAreRunOnTime | crates/clove-core/src/torrent.rs:1531-1599 | from every reachable state a message or tick runs a choke round if one is due, one more if interest finds a slot free, and no other; after either, and after any word of interest, no slot is free while an interested peer is choked |
| EngineRounds.RoundsRewardExchange | crates/clove-core/src/torrent.rs:2152-2191 | a tick with a round due leaves unchoked the peers that sent us most since the last round (once we are complete: took most), ties to the lower id, in every third round all but one; the meters start over |
| EngineBlame.BansAreJust | crates/clove-core/src/torrent.rs:444-470 | in every reachable state, whatever comes next: whoever is banned had a part in the piece just completed, somebody with a part in it had sent a wrong block of it, and if the banned had not, others had a part in it and this is at least its third suspicion |
| EngineBlame.HonestPieceVerifies | crates/clove-core/src/torrent.rs:1893-1932 | a piece none of whose suppliers sent a wrong block of it does not fail its hash, whatever else they sent |
| EngineBlame.HonestSwarmBansNobody | crates/clove-core/src/torrent.rs:426-470 | over any run in which every destination sends true bytes, nobody is banned |
| EngineBlame.FreshHonestSwarmBansNobody | crates/clove-core/src/torrent.rs:426-470 | from the start, an honest swarm leaves the ban set empty |
| EngineBlame.BlameIsMeasured | crates/clove-core/src/torrent.rs:444-470 | a ban falls on the sole contributor to the failed piece, or on one of several whose count reaches the limit |
| EngineBans.BansAreEnforced | crates/clove-core/src/torrent.rs:387-397 | in every run a connected peer of a banned destination has been ordered evicted, and a banned destination that tries to join changes nothing |
| EngineBans.StepEnforces | crates/clove-core/src/torrent.rs:1531-1599 | a step other than joining or leaving keeps who is connected, and orders out every connection of each destination it bans |
| EngineBans.EvictionsAreDeserved | crates/clove-core/src/torrent.rs:1531-1599 | from every reachable state a message or tick evicts the sender of an illegal message, the peers struck out and all connections of whoever it bans, and nobody else but connections of the already banned |
| EngineCompletion.CompleteMeansWantedFilesAreWhole | crates/clove-core/src/picker.rs:215-241 | with priorities set from files, the download is complete if and only if every byte of every non-skipped file lies in a held, verified piece on disk |
| EngineCompletion.SettingPrioritiesFollowsFiles | crates/clove-core/src/torrent.rs:710-715 | applying the computed priorities makes the table agree with the files |
| EngineDelivery.CancelsAreTheOtherOwers | crates/clove-core/src/torrent.rs:2004-2034 | one cancel goes out for every debtor but the one that delivered |
| EngineDelivery.SettleKeeps | crates/clove-core/src/torrent.rs:1893-1918 | writing a block, blaming its sender, releasing all its debtors and marking it received keeps every table consistent |
| EngineDelivery.WriteInsideBlock | crates/clove-core/src/torrent.rs:1893-1908 | writing inside one block disturbs no other supplier's block and no other piece's hash |
| EngineDelivery.ClosePieceKeeps | crates/clove-core/src/torrent.rs:1912-1932 | by either verdict, closing a whole piece and letting go its suppliers keeps the invariant |
| EngineInvariant.DebtsMoveTogether | crates/clove-core/src/torrent.rs:2121-2150 | a change of one peer's debts matched by the picker's counts keeps the invariant |
| EngineSteps.RemoveKeeps | crates/clove-core/src/torrent.rs:1503-1527 | a departing peer takes its availability and its debts with it, exactly |
| EngineSteps.ReplaceKeeps | crates/clove-core/src/torrent.rs:1739-1743 | replacing a piece set on opening keeps availability exact |
| EngineSteps.MaintainKeeps | crates/clove-core/src/torrent.rs:2086-2118 | expiring and refilling every peer in turn keeps the invariant |
| EngineSteps.RunChokerKeeps | crates/clove-core/src/torrent.rs:2158-2191 | a choke round keeps the invariant, its slot bound included |
| Torrents.Torrent.constructor | crates/clove-core/src/torrent.rs:586-655 | the new coordinator is the model's start state, told pieces marked held |
| Torrents.Torrent.OnBlock | crates/clove-core/src/torrent.rs:1863-1942 | the handler's whole new state and messages are the model step's, write and read faults included |
| Torrents.Torrent.CancelElsewhere | crates/clove-core/src/torrent.rs:2004-2034 | the loop over the other debtors releases each and tells it so |
| Torrents.Torrent.CreditSuppliers | crates/clove-core/src/torrent.rs:428-440 | the loop lets every supplier of a verified piece go and repays one suspicion a block |
| Torrents.Torrent.BlameSuppliers | crates/clove-core/src/torrent.rs:444-470 | the loop lets the suppliers go, bans a sole one, else raises each one's suspicion and bans at the limit |
| Torrents.Torrent.Ban | crates/clove-core/src/torrent.rs:387-397 | the destination is banned, its suspicion dropped and its connections queued for removal |
| Torrents.Torrent.ServeRequest | crates/clove-core/src/torrent.rs:1945-1979 | a valid request reads the disk, queues the bytes and counts them; anything else changes nothing |
| Torrents.Torrent.UpdateInterest | crates/clove-core/src/torrent.rs:2049-2071 | interest follows whether the peer has a piece we miss, is announced on change and starts requesting |
| Torrents.Torrent.FillRequests | crates/clove-core/src/torrent.rs:2121-2150 | picks are noted against the peer and requested; duplicates are given back to the picker and not asked again |
| Torrents.Torrent.MaintainPeer | crates/clove-core/src/torrent.rs:2086-2118 | overdue blocks go back, a strike is counted, the third evicts, else the pipeline is refilled |
| Torrents.Torrent.RunChoker | crates/clove-core/src/torrent.rs:2158-2191 | snapshots, plan and the resulting choke and unchoke messages, over the live peer table |
| Torrents.Torrent.Handle | crates/clove-core/src/torrent.rs:1618-1730 | every message kind, with the opening-message rule and fast-extension checks |
| Torrents.Torrent.ReplacePieceSet | crates/clove-core/src/torrent.rs:1739-1743 | the old set is withdrawn from availability and the new one announced |
| Torrents.Torrent.OnMessage | crates/clove-core/src/torrent.rs:1531-1561 | handling a message, a choke round if due, and handing over the evictions |
| Torrents.Torrent.Maintain | crates/clove-core/src/torrent.rs:1566-1599 | a tick over all peers, a choke round if due, and the evictions |
| Torrents.Torrent.RegisterPeer | crates/clove-core/src/torrent.rs:1424-1471 | a destination banned, over its limit, or past the table's limit is refused; else it is seated under a fresh id |
| Torrents.Torrent.DropPeer | crates/clove-core/src/torrent.rs:1503-1527 | the peer leaves, its pieces and debts withdrawn in whatever order its map is walked |
| PickerTheory.PickHandsOutTheBest | crates/clove-core/src/picker.rs:461-498 | a pick is at most `want` distinct eligible blocks in the order of `PickIsInOrder`, and an eligible block is passed over only when the hand is full of better ones |
| PickerTheory.PickIsInOrder | crates/clove-core/src/picker.rs:461-552 | what is handed out is eligible (of a wanted missing piece the peer has, not in yet, owed by nobody unless in endgame), each block once, in order and before every eligible block passed over, and none is passed over while more are wanted; the order is: started pieces first, then higher priority, then (rarest first) lower availability, then lower index, then lower block, read off the tables |
| PickerTheory.EndgameExact | crates/clove-core/src/picker.rs:500-519 | the saturating sum answers "few blocks remain" correctly if and only if the threshold is below `u32::MAX` or no more than that many remain |
| PickerTheory.EndgameCanMisjudge | crates/clove-core/src/picker.rs:500-519 | a valid picker, with the threshold at `u32::MAX` and more blocks than that left, for which it answers wrongly |
| PickerTheory.EndgameMeansFewBlocksLeft | crates/clove-core/src/picker.rs:500-519 | for every threshold below `u32::MAX`, duplicates are allowed if and only if there is a threshold and no more blocks of wanted missing pieces than that are still to come |
| PickerTheory.CompleteMeansNothingMissing | crates/clove-core/src/picker.rs:338-340 | completion by the running count is exactly "no wanted piece is missing" |
| PickerTheory.SetHaveKeepsValid | crates/clove-core/src/picker.rs:379-395 | verifying a piece keeps the incremental wanted count equal to a recount |
| PickerTheory.SetPrioritiesKeepsValid | crates/clove-core/src/picker.rs:235-241 | so does a change of priorities |
| PickerTheory.BlockReceivedEffect | crates/clove-core/src/picker.rs:415-434 | one block becomes received and one debt lighter, no other block changes, and the piece is whole exactly when all its blocks are in |
| PickerTheory.ReleaseEffect | crates/clove-core/src/picker.rs:449-456 | giving back a set of blocks lowers exactly their counts by one each |
| Wire.Geometry.RequestsTile | crates/clove-core/src/picker.rs:304-316 | every byte of a piece is asked for by the request for exactly one block |
| Pickers.Picker.Pick | crates/clove-core/src/picker.rs:461-498 | the nested loop returns and marks in flight the first `want` of the model's ordered offer |
| Pickers.Picker.InEndgame | crates/clove-core/src/picker.rs:500-519 | the early-exit loop computes the saturating comparison |
| Pickers.Picker.CandidateOrder | crates/clove-core/src/picker.rs:529-552 | the candidates of a peer, in key order |
| Pickers.Picker.BlockReceived | crates/clove-core/src/picker.rs:415-434 | the accounting of one block and whether its piece is now whole |
| Pickers.Picker.BlockFailed | crates/clove-core/src/picker.rs:449-456 | one debt of the block is given back |
| Pickers.Picker.SetHave | crates/clove-core/src/picker.rs:379-395 | the piece is held, its accounting closed and the wanted count adjusted, invariants kept |
| Pickers.Picker.ResetPiece | crates/clove-core/src/picker.rs:397-406 | all accounting of a failed piece is forgotten, invariants kept |
| Pickers.Picker.SetPiecePriorities | crates/clove-core/src/picker.rs:235-241 | priorities replaced, missing entries normal, wanted count recounted by the loop |
| ChokerSpec.EveryLoserGetsOneTurn | crates/clove-core/src/choker.rs:117-153 | with n losers unchanged, any 3n consecutive rounds give each the optimistic slot in exactly one, from any starting round |
| ChokerSpec.StableLosersAreServed | crates/clove-core/src/choker.rs:108-157 | the same over rounds in which the peers change in any way that leaves the list of losers alone |
| ChokerSpec.ChosenFitsTheSlots | crates/clove-core/src/choker.rs:108-157 | each round chooses distinct, interested peers, no more than the slots |
| ChokerSpec.MeritFirst | crates/clove-core/src/choker.rs:108-157 | all slots but one always go to the best-ranked interested peers; outside optimistic rounds all do |
| ChokerMerit.FastestAreServed | crates/clove-core/src/choker.rs:108-157 | on the decision itself: in every round all unchoked peers but at most one are faster, or as fast with a lower id, than every interested peer left out; in a round that is not optimistic, all are |
| ChokerMerit.SlotsAreUsed | crates/clove-core/src/choker.rs:108-157 | only interested peers are unchoked, no more than there are slots, and all slots are taken if anybody interested is left out |
| ChokerSpec.DecisionRealisesTheChoice | crates/clove-core/src/choker.rs:68-96 | applying the decision leaves exactly the chosen unchoked, tells no peer two things and no stranger anything |
| Chokers.Choker.Plan | crates/clove-core/src/choker.rs:108-157 | the loops advance the round by one and return the model's decision |
| DiskSpec.SegmentsTile | crates/clove-core/src/storage.rs:261-287 | the per-file segments of a range cover it in order without gap or overlap, whatever the file list, empty files included |
| DiskSpec.ReadAfterWrite | crates/clove-core/src/storage.rs:112-163 | reading what was written returns it, every range outside that could be read still reads the same, and nothing else changes but gaps before it in its file, which become zeros |
| DiskSpec.FileAtUnique | crates/clove-core/src/storage.rs:261-287 | no byte of the torrent belongs to two files |
| Storages.Storage.WriteBlock | crates/clove-core/src/storage.rs:112-123 | a write through the files is a write to one linear array; out of range nothing changes; a device error leaves exactly the prefix written |
| Storages.Storage.ReadBlock | crates/clove-core/src/storage.rs:128-163 | a read returns the linear array's bytes, or the error for out of range, device failure or a file too short |
| Storages.Storage.VerifyPiece | crates/clove-core/src/storage.rs:172-212 | the chunked hash check equals hashing the piece at once, with short files a mismatch and device errors unreadable |
| Bitfields.Canonical | crates/clove-core/src/bitfield.rs:43-58 | well-formed bytes are determined by the set of pieces they stand for |
| Bitfields.OnesCountPieces | crates/clove-core/src/bitfield.rs:111-113 | counting ones counts pieces, because spare bits stay zero |
| Bitfields.EncodedStandsForSet | crates/clove-core/src/bitfield.rs:43-64 | the bytes a set of pieces is sent as are well formed and read back as that set |
| Bitfields.ParseAcceptsEncodings | crates/clove-core/src/bitfield.rs:43-58 | received bytes are accepted if and only if some set of the torrent's pieces is sent as exactly these bytes, and that set is the one read back |
| Bitfields.Bitfield.Has | crates/clove-core/src/bitfield.rs:80-87 | a bit test on the bytes is membership in the set, out of range included |
| Bitfields.Bitfield.Set | crates/clove-core/src/bitfield.rs:90-97 | setting adds exactly the piece, ignoring one out of range |
| Bitfields.Bitfield.Clear | crates/clove-core/src/bitfield.rs:100-107 | clearing removes exactly the piece |
| Bitfields.Bitfield.Full | crates/clove-core/src/bitfield.rs:28-35 | a full field holds exactly all pieces, spare bits cleared |
| Bitfields.Bitfield.Count | crates/clove-core/src/bitfield.rs:111-113 | the byte-wise count is the size of the set |
| Bitfields.HighestBitFirst | crates/clove-core/src/bitfield.rs:80-87 | pieces go from the highest bit of each byte to the lowest |
| BencodeTheory.DecodeOfEncode | crates/clove-core/src/bencode.rs:155-157 | decoding undoes encoding for every value within the depth limit, `i64::MIN` and arbitrary byte keys included |
| BencodeTheory.ReencodesFaithfully | crates/clove-core/src/bencode.rs:219-249 | every accepted input re-encodes to an input of the same length that decodes to the same value |
| BencodeTheory.ParsedIsWellFormed | crates/clove-core/src/bencode.rs:291-352 | whatever parses has keys in order and integers in range, fits the depth left, and encodes to as many bytes as were read |
| BencodeOrder.KeysCompareByBytes | crates/clove-core/src/bencode.rs:48-48 | one key is before another if and only if it is a proper prefix of it or has the smaller byte where they first differ |
| BencodeOrder.DecodedIsInByteOrder | crates/clove-core/src/bencode.rs:321-349 | whatever order an input lists them in, every dictionary of what it decodes to has its keys in strict byte order |
| BencodeOrder.CanonicalExactly | crates/clove-core/src/bencode.rs:219-249 | an accepted input re-encodes to itself if and only if all its dictionaries list their keys in byte order |
| BencodeFraming.FramingIsExact | crates/clove-core/src/bencode.rs:155-194 | every proper prefix of an accepted input is truncated, and every extension has trailing data exactly where it ends |
| BencodeFraming.DepthLimitIsExact | crates/clove-core/src/bencode.rs:291-294 | what is written for a well-formed value decodes back or is too deep, exactly as it nests within the limit |
| BencodeTheory.IntExact | crates/clove-core/src/bencode.rs:356-404 | an accepted integer is spelled the one canonical way |
| BencodeTheory.BytesExact | crates/clove-core/src/bencode.rs:408-453 | an accepted byte string is spelled the one canonical way |
| BencodeTheory.NodesCostTwo | crates/clove-core/src/bencode.rs:23-36 | each node of a value costs its encoding at least two bytes |
| BencodeTheory.DecodedTreeIsSmall | crates/clove-core/src/bencode.rs:23-36 | a decoded tree has at most half as many nodes as the input has bytes |
| BencodeSpans.ParseValueLocal | crates/clove-core/src/bencode.rs:291-352 | a value reads the same with anything after it and at any lesser depth |
| BencodeSpans.SpanIsTheStoredValue | crates/clove-core/src/bencode.rs:186-194 | for any key, the span exists exactly when the top-level dictionary has the key, and decoding that slice alone gives the value stored |
| BencodeSpans.EmptyKeyCanMatch | crates/clove-core/src/bencode.rs:251-263 | an empty wanted key does match an entry with an empty key, contrary to the comment |
| BencodeSpans.WrapSpanExact | crates/clove-core/src/metainfo.rs:212-221 | the wrapper's `info` span is exactly the bytes wrapped if and only if those are one complete value |
| Bencode.Decoder.Value | crates/clove-core/src/bencode.rs:291-306 | the cursor, node count and span after reading a value, and that the node budget is never hit |
| Bencode.Decoder.Node | crates/clove-core/src/bencode.rs:308-352 | each kind of value read as the grammar says, errors at the same offsets, two bytes paid per node |
| Bencode.Decoder.Int | crates/clove-core/src/bencode.rs:356-404 | checked negative accumulation reads every `i64` and rejects the rest |
| Bencode.Decoder.ByteString | crates/clove-core/src/bencode.rs:413-453 | the length digits and then exactly that many bytes, or the error and its offset |
| Bencode.DecodeWithEntry | crates/clove-core/src/bencode.rs:186-194 | decoder and specification agree on value, span, error kind and offset, for every input and key |
| Bencode.DecodePrefixOf | crates/clove-core/src/bencode.rs:168-172 | the same for a leading value, with the bytes it used |
| Bencode.EncodeInto | crates/clove-core/src/bencode.rs:219-249 | appends the canonical encoding and nothing else |
| Addr.Base32RoundTrip | crates/i2pnet/src/addr.rs:118-170 | decoding undoes encoding for every byte string |
| Addr.Base32Canonical | crates/i2pnet/src/addr.rs:153-170 | an accepted string is what the encoder writes if and only if its length is not 1, 3 or 6 modulo 8 |
| Addr.DanglingSymbolAccepted | crates/i2pnet/src/addr.rs:153-170 | the string "a" is accepted as no bytes, which the encoder never writes |
| Addr.OneLabelPerHash | crates/i2pnet/src/addr.rs:33-49 | a hash comes back from its label, and only one name, with or without the suffix, stands for it |
| Addr.LabelLength | crates/i2pnet/src/addr.rs:44-49 | thirty-two decoded bytes mean exactly fifty-two symbols |
| Addr.Base64RoundTrip | crates/i2pnet/src/addr.rs:174-231 | decoding undoes encoding for every byte string, in I2P's alphabet |
| Addr.Base64Canonical | crates/i2pnet/src/addr.rs:212-231 | an accepted string is the encoding of its bytes, up to `=` |
| AddrNumbers.Base32IsTheNumber | crates/i2pnet/src/addr.rs:118-136 | the symbols are the digits, a to z and 2 to 7, of the bytes read as one number, brought up to a whole symbol with zero bits |
| AddrNumbers.Base64IsTheNumber | crates/i2pnet/src/addr.rs:174-195 | the same in A to Z, a to z, 0 to 9, hyphen and tilde, padded to a multiple of four |
| Addr.Base32Encode | crates/i2pnet/src/addr.rs:118-136 | the 32-bit shifting loop loses no bit: it spells the bytes five bits at a time |
| Addr.Base32Decode | crates/i2pnet/src/addr.rs:153-170 | the 32-bit shifting loop regroups the symbols' bits into bytes, rejecting non-zero spare bits |
| Addr.I2pBase64Encode | crates/i2pnet/src/addr.rs:174-195 | three bytes at a time, the same regrouping into six-bit symbols, padded |
| Addr.I2pBase64Decode | crates/i2pnet/src/addr.rs:212-231 | skips `=`, refuses a lone symbol, else regroups as base32 does |
| BitStrings.PushBits | crates/i2pnet/src/addr.rs:118-170 | shifting bits into a truncating 32-bit register keeps every pending bit |
| BitStrings.TakeTop | crates/i2pnet/src/addr.rs:118-170 | reading the top pending bits by shifting yields them and leaves the others pending |
| BitStrings.ChopLosesNothing | crates/i2pnet/src/addr.rs:118-136 | the whole groups and the leftover spell the bit string |
| Layout.CheckDistinctPaths | crates/clove-core/src/metainfo.rs:589-604 | accepts if and only if no path equals and none is a proper component-prefix of another; each error names a collision of its kind |
| Layout.SortedCollision | crates/clove-core/src/metainfo.rs:573-581 | in sorted order there is a collision anywhere if and only if there is one between neighbours |
| Layout.SortKeepsCollisions | crates/clove-core/src/metainfo.rs:589-604 | so scanning neighbours after sorting misses and invents nothing |
| Layout.PiecePriorities | crates/clove-core/src/metainfo.rs:168-197 | the loops over files and their piece ranges compute each piece's highest overlapping priority |
| Layout.HighestIsTheMaximum | crates/clove-core/src/metainfo.rs:149-197 | that value bounds every non-empty overlapping file's priority and is one of them unless zero |
| Layout.TouchedPieces | crates/clove-core/src/metainfo.rs:182-194 | the pieces from first to last byte are exactly those the range touches |
| Metadata.TwiceTheLimitIffWindowHasLength | crates/clove-core/src/metadata.rs:237-286 | no span of a window's length holds more than twice the limit of served requests, for all nondecreasing times, if and only if the window has a length or the limit is zero |
| Metadata.RefusalIsEarned | crates/clove-core/src/metadata.rs:225-286 | a request is refused only after at least the limit of others within a window's length |
| Metadata.RequestBudget.Allow | crates/clove-core/src/metadata.rs:273-286 | one call turns the window over if it expired, and spends one request or refuses |
| Metadata.MetadataAssembler.AddPiece | crates/clove-core/src/metadata.rs:185-200 | a fitting piece is filed if its place is empty; the count of filed pieces stays exact |
| Metadata.MetadataAssembler.Finish | crates/clove-core/src/metadata.rs:212-222 | the joined pieces if all are there and hash as expected |
| Metadata.NewAssembler | crates/clove-core/src/metadata.rs:134-144 | refuses a size of zero or over the limit |
| Metadata.FinishedIsWhatWasReceived | crates/clove-core/src/metadata.rs:185-222 | what comes out hashes as expected, has the announced size, and each piece of it was received as that piece |
| Metadata.HonestPiecesAssemble | crates/clove-core/src/metadata.rs:185-222 | from honest senders the blob comes out if and only if each piece came, in any order, with any repeats and misfits |
| Budget.TakenIsExact | crates/clove-core/src/budget.rs:55-75 | over every interleaving of claims (with spurious failures), attaches, departures and returns on any number of threads and torrents, the counter equals seated peers plus slots held by threads, never exceeds the limit and never wraps |
| Budget.RefusalSawItFull | crates/clove-core/src/budget.rs:55-75 | a claim about to be refused saw the budget full at some moment since it began |
| Budget.ClaimsEnd | crates/clove-core/src/budget.rs:55-75 | a claiming thread left alone for two turns is decided, and has a slot exactly if both the count it had read and the count now leave room |
| Budget.NextKeeps | crates/clove-core/src/torrent.rs:1112-1126 | each atomic action of any thread keeps the count exact |
| Budget.OnAttemptKeeps | crates/clove-core/src/budget.rs:55-75 | one turn of the claim loop at any interleaving, spurious failure or not, keeps the count exact and the value read real |
| Budget.OnSeatKeeps | crates/clove-core/src/torrent.rs:1424-1471 | registration moves a slot into the table or, refused, on its way out |
| Budget.PeerBudget.Drop | crates/clove-core/src/budget.rs:112-116 | a dropped slot gives one back |

## Left out

- Threads, sockets, streams, handshakes and the metadata download loop: network plumbing. A peer may leave at any step, which covers every reason for it.
- Extension messages, peer exchange and metadata serving in the torrent: an extended message has no effect here but to count as an opening.
- Known peers, offences and back-off, keep-alives and the idle timer: they choose whom to dial and when to hang up, and touch none of the tables modelled.
- Statistics, announce status and the stored error text: an error is a flag.
- Several clock readings inside one handler: each step has one `now`.
- `u32` counters (availability, in-flight, suspicion, strikes) and the `u64` round and byte counters are unbounded; their saturation or overflow is not modelled. The endgame sum's saturation is.
- `usize` is taken to be 64 bits wide.
- The `openat`, `mkdirat` and `fallocate` walk, other processes changing files, and short reads or writes that the standard library retries.
- Hash functions, and therefore collisions: nothing is assumed of them but that equal bytes hash equally.
- UTF-8, case folding and the checks on single path components: paths come in as folded component sequences.
- Validation of other `.torrent` fields, tracker addresses, JSON, HTTP, trackers, resume files, magnet links, configuration and the command line: they would add easy members.
- Trimming white space around a label.
- The library sort is a specification function by insertion; for the total orders used here the sorted sequence is unique (`Sorting.SortedUnique`).
- Sets of pieces in the engine are sets of indices; the bytes behind them are related to sets in `Bitfields`, and a received bitfield goes through its parser.
- A slot is tied to its peer by count, not by identity.
- Budget.PeerBudget.Claim: runs alone, with a given number of spurious failures; the interleaved claim is `Budget.OnAttempt`, one turn of the loop at a time.
- The assembler's list of missing pieces and the scheduling of requests for them.
- Loads of the connection budget are sequentially consistent in the model, where the program's are relaxed: "saw it full at some moment" is idealised that way (`Budget.RefusalSawItFull`).
- The bitfield and extension handshake queued when a connection is attached (`torrent.rs:1134-1160`) are not among the modelled outputs.
