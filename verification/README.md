# Verified model of the download client

This project models the parts of a BitTorrent client whose correctness is not visible in any one
function, and proves what those parts promise together: the download engine, the storage stream,
peer exchange, the bencode codec, metadata exchange, and the piece availability index.

Where the program updates objects, the model has a class with the same fields and methods, and every
method is proved equal to a function that says what the new state is. The theorems are about those
functions, over every run. Times, the hash function, partial reads and writes, and everything a peer
may send are arbitrary inputs.

## How it is organised

- `Basics`, `OrderedDict`, `Digits`: sums, byte ranges, insertion-ordered dictionaries, decimal text and key order.
- `Blocks`, `Pieces`, `Assembly`, `PieceObject`: how a piece is cut, its block states and buffer, and what it
  assembles from any history of arrivals.
- `SchedulerSpec`, `SchedulerObject`: the four overlapping records of who was asked for what, and the object
  that keeps them. `PlanSpec`, `PlanRuns`: what one planning pass may do and leaves undone.
- `EngineSpec`, `EngineProofs`, `ManagerObject`: the download as a transition system of atomic steps (register,
  plan, lose, block arrives, verify, hash, write some bytes, finish, fail), its invariant, and the manager's
  methods as those steps.
- `SoloProofs`, `Theorems`, `Pipelines`: what holds in every reachable state. `Races`, `Hiding`: how racing strands
  a block and hides another. `CacheDrift`: how far the cached count is ahead. `Blame`: whom a failed hash penalises.
  `AskedHistory`, `Counters`: what the record of requests and the counters hold after any run.
- `Torrents`, `Storage`, `StreamSpec`, `StorageObject`: many files as one stream, and the storage manager.
  `StorageRuns`, `DownloadObject`: the download over files, as runs whose writes are chunks going to single files
  in any interleaving, and as the manager and the storage manager together.
- `BencodeSpec`, `BencodeProofs`, `BencodeTheorems`, `BencodeObject`: the codec. `BencodeLimits`: what its limits
  mean. `BencodeOrders`: what it accepts when keys need not be sorted.
- `Pex`, `PexConvergence`, `PexObject`, `PexWire`: peer exchange as a replication protocol, down to the bytes.
- `Metadata`: metadata messages and what a server answers. `MetadataWindow`, `MetadataInbox`, `MetadataFetch`: the
  windowed download, what it asks for, what its arrivals mean, and the object that runs it beside the server.
- `Bitfields`, `Availability`, `AvailabilityObject`: packed bitfields and the incremental index over them.

## Where the code does less than it says

Each of these is proved, with the exact condition under which the promise does hold.

- A block raced in endgame can end REQUESTED with nobody fetching it: from every reachable state where the race
  may start a run leads there (`Races.RaceRunStrands`), and such downloads exist (`Races.SomeDownloadStrands`). It
  happens when the last request is lost while the piece still remembers a peer that lost an earlier request
  (`SoloProofs.OrphanStrandsExactlyWhen`), because only the loss of the last request reaches the piece
  (app/download/scheduler.py:469-477). It cannot happen with endgame off
  (`Theorems.EndgameOffLedgersExact`).
- The planner is maximal with endgame off, but not while racing: a piece offers only its first eligible block,
  and when that one is too young to race, a missing block behind it is not looked at
  (`PlanSpec.RacingHidesMissing`, `PlanSpec.RacingCanHide`; app/download/scheduler.py:369-393). A run leads there
  from the start of a download (`Hiding.SomeDownloadHides`).
- The cached unclaimed count can be too high (`CacheDrift.SomeCacheOvercounts`; app/download/manager.py:477). After
  any run it is ahead of a recount by exactly the blocks stored without being REQUESTED while it was set and since it
  was last cleared, and exact if and only if there were none (`CacheDrift.CacheExactExactlyWhen`).
- A piece's list of sources survives a failed hash, so peers of an earlier attempt are penalised again when a
  later attempt fails (`Blame.EarlierSupplierIsBlamedAgain`; app/download/piece.py:283-308). A failed hash
  penalises exactly the suppliers of the attempt that failed if and only if nobody supplied a block in an earlier
  attempt only (`Blame.BlameIsFairExactlyWhen`).
- A peer-exchange build takes its entries out of the queues before it encodes them. When a drained address has
  no compact form the encoder raises, and the withdrawals already taken out are forgotten: the peer goes on
  believing in peers that left (`Pex.FailedBuildLosesAWithdrawal`; app/discovery/pex.py:390-408). The two sides
  stay agreed exactly under the condition of `Pex.BuildAgreesExactlyWhen`, and in every run they differ by exactly
  the forgotten keys (`Pex.ReplicaIsToldAndLost`).
- A connected peer known by a host name is never told, since it has no compact form, yet nothing keeps it out of
  the snapshot (app/peer/discovery/peer_manager.py:463-491). While the queue fits one message every build then
  raises and nobody is told anything (`PexConvergence.NamedPeerSilencesTheLedger`). The told set converges to the
  connected set if and only if no connected peer is known by a name (`PexConvergence.ConvergesExactlyWhen`).
- A `have` from a peer that is connected but not yet tracked is counted twice, and once still after the peer has
  left (`Availability.EarlyHaveCountsTwice`; app/download/manager.py:540-546). `Availability.CountsAreHolders` gives the
  exact surplus.

## Model

| member | source | states |
|---|---|---|
| Theorems.EndToEndIntegrity | app/download/manager.py:583-623 | In every reachable state, with verification before writing, every reported piece has on disk exactly bytes that hash to the promise, whatever verifications, partial writes and faults interleave; the reported set is the set of VERIFIED pieces and of stored pieces |
| Theorems.VerifiedOnlyGrows | app/download/manager.py:583-623 | Over any continuation of any run a verified piece stays verified and its bytes on disk never change again |
| Theorems.VerifiedIsForever | app/download/manager.py:589-623 | No single step of any kind un-verifies a piece or touches its bytes on disk |
| Theorems.BytesConserved | app/download/manager.py:450-526 | Over any run from the start, payload received equals wasted bytes plus bytes held by pieces, and messages equal received plus duplicate plus unsolicited, across duplicates, wrong lengths, hash failures and re-downloads |
| Counters.CountersCount | app/download/manager.py:450-623 | After any run each counter is the number of the run's events of its kind: blocks stored, copies, unasked messages, pieces written, failed hashes, bytes wasted and penalties handed out |
| Counters.RacesCount | app/download/endgame.py:96-105 | Over any run the number of races grows by the number of assignments of a block that another peer, and not this one, is fetching |
| Theorems.LedgersAgree | app/download/scheduler.py:305-517 | In every reachable state pipelines and endgame sets hold the same (peer, block) pairs, no endgame set is empty, and each pair has a registered peer, an asked entry, a claim, a REQUESTED block and a piece still taking blocks |
| Theorems.CacheNeverUndercounts | app/download/scheduler.py:222-238 | In every reachable state the cached unclaimed count, when set, is a recount plus a surplus that is never negative; so endgame is active only when the true count is within the threshold |
| CacheDrift.CacheExactExactlyWhen | app/download/scheduler.py:222-289 | After any run the cached count, when set, exceeds a recount by exactly the number, read off the events, of blocks stored without being REQUESTED while it was set and since a failed hash last cleared it; so it equals a recount if and only if there were none |
| CacheDrift.CacheExactWhenInvited | app/download/scheduler.py:275-289 | In every run where each stored block was REQUESTED on arrival the cached count equals a recount |
| CacheDrift.SomeCacheOvercounts | app/download/manager.py:477 | A witness run: a download's only block is counted as unclaimed, then arrives from a peer that was never asked, and the cached count is one too high |
| Theorems.EndgameOffLedgersExact | app/download/scheduler.py:417-517 | With endgame off, in every reachable state a piece remembers exactly the live requesters of a block, REQUESTED means one peer has it in its pipeline, never two, and no block is stranded |
| Theorems.EndgameOffLossFrees | app/download/scheduler.py:469-477 | With endgame off, in every reachable state, giving up any list of requests, be it one that could not be sent or all that expired together, returns every block of theirs to MISSING |
| Theorems.EndgameOffSendFailureFrees | app/download/manager.py:360-369 | With endgame off, in every reachable state, giving up one request that could not be sent returns its block to MISSING |
| Theorems.EndgameOffDropFrees | app/download/scheduler.py:479-493 | With endgame off, in every reachable state, dropping a peer returns every block of its pipeline to MISSING |
| Pipelines.PipelinesStayWithinCapacity | app/download/scheduler.py:93-103 | In every reachable state, over registrations, passes, losses, arrivals and verifications, no pipeline holds more than the configured number of requests |
| Theorems.CancelFindsNothing | app/download/manager.py:496-509 | When a stored block completes its piece no pipeline holds any block of that piece, so the cancelling that follows has nothing to do |
| EngineProofs.StepKeepsInv | app/download/manager.py:450-623 | Every atomic step, from any state satisfying the invariant of all ledgers, geometry, tasks, disk and counters, ends in one satisfying it |
| EngineProofs.RequestLedgers | app/download/scheduler.py:204-289 | The steps that only move requests change neither the bytes held nor the distance between the cached and the true count |
| EngineProofs.DataIsReady | app/download/manager.py:585-588 | A scheduled verification always finds its piece's data, of the full size: the branch for a piece without data is dead code |
| EngineProofs.WrittenRange | app/download/manager.py:589-615 | When the last byte of a write is out, the piece's range on disk is exactly the verified data |
| SoloProofs.OrphanStrandsExactlyWhen | app/download/scheduler.py:469-477 | Giving up a request leaves its block REQUESTED with nobody fetching it if and only if this was the last fetcher and the piece still remembers a peer that lost an earlier race |
| SoloProofs.LostRaceStrands | app/download/scheduler.py:469-477 | A missing block of a piece still taking blocks, given to two registered peers and then given up by first one and then the other, is left REQUESTED with nobody fetching it |
| Races.RaceStrands | app/download/scheduler.py:323-393 | From any scheduler state where the planner is racing and may give one missing block to either of two peers, giving it to the first and, the delay later, to the second are both gifts the planner may make, and losing both requests strands the block |
| Races.RaceRunStrands | app/download/scheduler.py:323-393 | The same as a run: from every reachable download where the race may start, two assignments of the planner and two expiries lead to a reachable state with a stranded block |
| Races.SomeDownloadStrands | app/download/scheduler.py:469-477 | There is such a download from the very start: any two usable peers holding its only piece lead it to a stranded block |
| SoloProofs.StrandedNeedsRacing | app/download/scheduler.py:369-393 | A stranded block is offered again only while racing and only to peers its piece does not remember |
| SoloProofs.AgreedMeansOneHolder | app/download/piece.py:206-228 | When claims equal live requests and nothing is raced, a block is REQUESTED exactly when one peer, and one only, holds it |
| PlanSpec.AssignmentIsSafe | app/download/scheduler.py:335-393 | An assignment goes to a connected, unchoked, registered peer holding the piece, for a block inside the piece, not received, not in that peer's pipeline already (so the defensive break is dead code), which stays within capacity |
| PlanSpec.SecondCopyOnlyInEndgame | app/download/scheduler.py:369-393 | A block in flight elsewhere is given again only while endgame is active and its oldest request has waited the full delay |
| PlanSpec.StartedPiecesFirst | app/download/scheduler.py:369-413 | Without racing, a block is given to a peer only when the peer holds no started piece with a missing block that has more blocks received than the block's own piece, or as many and a lower index; any started piece is ahead of a fresh one |
| PlanSpec.PassedMeansExhausted | app/download/scheduler.py:369-393 | Without racing, a peer for whom no block was found holds no unfinished piece with a missing block |
| PlanSpec.RacingHidesMissing | app/download/scheduler.py:369-393 | While racing, a piece with a missing block is passed over if and only if the first block the peer could take from it is being fetched by others and every such request is younger than the delay |
| PlanSpec.RacingCanHide | app/download/scheduler.py:369-393 | Maximality fails while racing: giving the first of two missing blocks to one peer hides the second from every other peer until the delay has passed |
| Hiding.SomeDownloadHides | app/download/scheduler.py:369-393 | A witness run from the very start: any two usable peers holding the only piece of a download, one given the first of its two blocks, lead to a reachable state where the piece is passed over for the other peer, which has room, although its second block is missing |
| PlanSpec.PassMonotone | app/download/scheduler.py:323-357 | Within one planning pass pipelines only grow and no block becomes missing, so a peer that was served stays served |
| PlanRuns.PassIsARun | app/download/scheduler.py:323-357 | What a planning pass does is a run of the engine's own steps |
| PlanRuns.PlanningStaysReachable | app/download/manager.py:348-384 | A planning pass from a reachable state ends in a reachable state, so every result about reachable states holds between passes |
| SchedulerSpec.InFlightIsRequested | app/download/scheduler.py:417-517 | A block in a pipeline is REQUESTED and its piece is not DOWNLOADED, VERIFYING or VERIFIED |
| SchedulerSpec.GiveKeepsInv | app/download/scheduler.py:335-357 | Giving a block to a registered peer keeps the agreement of all four ledgers |
| SchedulerSpec.OrphanKeepsInv | app/download/scheduler.py:469-477 | Losing one request keeps it, the piece being touched only when the last fetcher is lost |
| SchedulerSpec.PeerGoneKeepsInv | app/download/scheduler.py:479-493 | Dropping a peer with everything in its pipeline keeps it, and no pipeline or endgame entry of the peer is left |
| SchedulerSpec.AcceptKeepsInv | app/download/scheduler.py:417-433 | Storing an accepted block and clearing its requests everywhere keeps it, requested or not |
| SchedulerSpec.CancelAllKeepsInv | app/download/scheduler.py:445-467 | Cancelling any list of requests keeps it |
| SchedulerSpec.ClosedIsQuiet | app/download/scheduler.py:445-467 | No block of a piece that takes no more blocks is in any pipeline |
| SchedulerSpec.PruneKeepsInv | app/download/scheduler.py:249-273 | Pruning the asked history keeps every entry a pipeline relies on |
| SchedulerObject.Scheduler.Plan | app/download/scheduler.py:305-357 | With the configured capacity, the nested filling loops carry out a legal pass whose gifts are the returned assignments in order: emptiest pipeline before the pass first, equal ones in the order given. Every usable peer ends its turn with a full pipeline or with every piece it holds passed over; with endgame off it still has, at the end, a full pipeline or nothing missing to offer |
| SchedulerObject.Scheduler.FillPeer | app/download/scheduler.py:335-357 | Filling one pipeline is a legal pass, all of its gifts to this peer, and stops only when the pipeline is full or every piece the peer holds was passed over; with endgame off the peer is then exhausted |
| SchedulerObject.Scheduler.NextBlock | app/download/scheduler.py:369-393 | The block returned is the first offer of a piece the peer holds, all pieces ahead of that one, started before fresh and fuller before emptier, having been passed over; none is returned only if every piece was passed over |
| SchedulerObject.Scheduler.Candidates | app/download/scheduler.py:395-413 | Every unfinished piece is a candidate, all started ones before all fresh ones, the started ones with more blocks received first and ties to the lower index |
| SchedulerObject.Scheduler.Started | app/download/scheduler.py:395-413 | Every started piece, the one with most blocks received first, ties to the lower index |
| SchedulerObject.Scheduler.UnclaimedBlocks | app/download/scheduler.py:222-238 | A set count is returned as it is; an unset one is set to the sum over unfinished pieces of blocks nobody has been asked for |
| SchedulerObject.Scheduler.NoteReceived | app/download/scheduler.py:417-433 | The block leaves every pipeline and the endgame set; the sender's asked entry is used up and no other (`AskedHistory.ReceivedAsked`); exactly the other fetchers are returned to be cancelled |
| AskedHistory.ReceivedAsked | app/download/scheduler.py:417-433 | An arrival takes out of the asked history the pair of its sender and its block, and no other pair |
| AskedHistory.AskedExactlyWhen | app/download/scheduler.py:209-433 | After any run a peer is on record for a block if and only if the block was assigned to it and since then no copy of it from that peer reached the ledgers, the peer did not leave, no prune came while the piece was VERIFIED and no hash of the piece failed |
| AskedHistory.LateCopyExactlyWhen | app/download/manager.py:466-476 | After any run, a copy for a piece that takes no more blocks is counted as a duplicate exactly when its sender is on record for it by that rule, and as unsolicited otherwise |
| AskedHistory.LoserIsADuplicate | app/download/manager.py:466-510 | A race run to its end: with two peers fetching one block in a reachable state and one copy stored, the other copy raises the duplicates and not the unsolicited, whether the first completed the piece or not |
| SchedulerObject.Scheduler.NoteOrphaned | app/download/scheduler.py:469-477 | The block leaves this one pipeline and the peer leaves its endgame set; the piece drops the claim, and the cached count grows if that frees the block, only when no endgame fetcher is left; asked entries stay; the result says whether the last fetcher was lost |
| SchedulerObject.Scheduler.DropPeer | app/download/scheduler.py:479-493 | Every block of the peer's pipeline, each once, leaves it and its endgame set, and its piece drops the claim even when others still fetch it; then registration, pipeline and asked history of the peer are gone |
| SchedulerObject.Scheduler.Expire | app/download/scheduler.py:495-517 | Exactly the requests at least the timeout old are lost, in some order, and reported |
| SchedulerObject.Scheduler.CancelPiece | app/download/scheduler.py:445-467 | Every pair of a piece's blocks in any pipeline is removed and reported, and no other pair |
| SchedulerObject.Scheduler.PruneAsked | app/download/scheduler.py:249-261 | Exactly the asked entries of blocks whose piece is VERIFIED go |
| SchedulerObject.Scheduler.NotePieceReset | app/download/scheduler.py:275-279 | The asked entries of the piece are dropped and the cached count is discarded |
| SchedulerObject.Scheduler.Register | app/download/scheduler.py:204-207 | The peer is registered and has a pipeline: the one it had, or an empty one; nothing else changes |
| SchedulerObject.Scheduler.Forget | app/download/scheduler.py:209-216 | Registration, pipeline and asked history of the peer are gone; pieces, endgame sets and other peers are untouched |
| SchedulerObject.Scheduler.IsStale | app/download/scheduler.py:263-273 | True exactly when no pipeline holds the block or the oldest request for it has waited the full delay |
| SchedulerObject.EndgameTracker.NoteRequest | app/download/endgame.py:96-105 | The requester joins the set of the block; a second requester counts a race |
| SchedulerObject.EndgameTracker.NoteReceived | app/download/endgame.py:107-120 | The block's set is removed and returned |
| SchedulerObject.EndgameTracker.NoteLost | app/download/endgame.py:122-135 | The peer leaves the set, an empty set is removed, and the result says whether the last fetcher was lost |
| ManagerObject.DownloadManager.constructor | app/download/manager.py:123-184 | The object starts in a state from which runs begin |
| ManagerObject.DownloadManager.HandleBlock | app/download/manager.py:450-510 | The whole method is the one atomic arrival step of the specification, and keeps the invariant |
| ManagerObject.DownloadManager.Disconnect | app/download/manager.py:528-530 | Every request of the peer is given up and the peer forgotten, nothing else of the download changes and the invariant is kept |
| ManagerObject.DownloadManager.ReclaimExpired | app/download/manager.py:438-446 | Exactly the requests at least the timeout old are lost and returned, every one left is younger, nothing else changes and the invariant is kept |
| ManagerObject.DownloadManager.PlanRequests | app/download/manager.py:348-384 | Planning changes only the scheduler, by a legal pass whose gifts are the assignments in order, emptiest pipeline first and equal ones as given, and keeps the invariant; every usable peer ends its turn with a full pipeline or every piece passed over, and with endgame off the pass with a full pipeline or nothing missing to offer |
| ManagerObject.DownloadManager.SendFailed | app/download/manager.py:360-369 | A request that could not be sent is lost again, and nothing else changes |
| ManagerObject.DownloadManager.BeginVerify | app/download/manager.py:583-588 | A task that starts takes its piece's data, or gives the piece up |
| ManagerObject.DownloadManager.JudgeHash | app/download/manager.py:589-609 | Data that hashes to the promise goes on to be written; otherwise the piece is reset, its bytes are wasted and every source is penalised |
| ManagerObject.DownloadManager.WriteChunk | app/download/manager.py:589-590 | Some more bytes of the piece reach exactly their place on disk |
| ManagerObject.DownloadManager.FinishWrite | app/download/manager.py:610-623 | The piece becomes VERIFIED and reported in the same step |
| ManagerObject.DownloadManager.Abandon | app/download/manager.py:589-623 | Any other failure leaves the piece VERIFYING and releases its buffer |
| Blame.BlameIsFairExactlyWhen | app/download/manager.py:589-609 | In every run a failed hash penalises exactly the peers that ever supplied a block of the piece; these are exactly the suppliers of the failed attempt if and only if nobody supplied a block in an earlier attempt only, and always so on a piece's first failure |
| Blame.EarlierSupplierIsBlamedAgain | app/download/piece.py:283-308 | A witness run: one peer's bad block fails the piece, another peer alone supplies the next attempt, and its failure penalises the first peer a second time |
| Blocks.PlanBlocks | app/download/block.py:77-105 | The blocks tile the piece from 0 to its size in order, all full but the last; size 0 gives no blocks; a negative size, a block size below one and, for a piece with blocks, a negative index or blocks above the protocol's maximum are refused, and nothing else |
| Blocks.BlockAtAgrees | app/download/block.py:108-126 | Computing the block of an offset directly gives the very block the plan has there, and fails exactly for offsets that start no block |
| Blocks.CoveringBlock | app/download/block.py:77-105 | Every byte of the piece lies in a planned block |
| Blocks.OffsetsDistinct | app/download/block.py:77-105 | No two planned blocks start at one offset |
| Assembly.EveryBlockHoldsFirstCopy | app/download/piece.py:230-306 | After any sequence of requests, arrivals in any order, duplicates, wrong lengths, losses and resets, each received block's bytes in the buffer are the first accepted payload since the last reset |
| Assembly.AssembledData | app/download/piece.py:262-266 | Once complete and unreleased, the data is the offset-ordered concatenation of the first accepted payloads and has the piece's size |
| Pieces.CompleteBytes | app/download/piece.py:119-131 | A complete piece has received exactly its size in bytes |
| Pieces.StoreKeeps | app/download/piece.py:230-260 | Storing an accepted block keeps the piece well formed and leaves it DOWNLOADING, or DOWNLOADED exactly when it is complete |
| Pieces.StoreCounts | app/download/piece.py:230-260 | Storing an accepted block raises the bytes received by exactly its length |
| Pieces.MarkOrphanedKeeps | app/download/piece.py:214-228 | Releasing a claim frees the block only when no claim is left, and keeps the piece well formed |
| Pieces.ResetKeeps | app/download/piece.py:296-308 | A reset piece is well formed, empty and MISSING throughout |
| PieceObject.Piece.RequestableBlock | app/download/piece.py:156-182 | The first block in offset order that is missing, or while racing requested by others, is returned; none only if there is none |
| PieceObject.Piece.MarkRequested | app/download/piece.py:206-212 | The peer is added to the block's requesters, a MISSING block becomes REQUESTED and a MISSING piece becomes REQUESTED; received blocks and all other blocks stay as they are |
| PieceObject.Piece.MarkOrphaned | app/download/piece.py:214-228 | The peer leaves the block's requesters; a REQUESTED block nobody else claims becomes MISSING, and the result says whether it did; an unknown offset changes nothing |
| PieceObject.Piece.AddBlock | app/download/piece.py:230-260 | Accepted exactly when the offset starts a block not yet received and the length is the block's; the bytes land at the offset and nowhere else; otherwise nothing changes |
| PieceObject.Piece.GetData | app/download/piece.py:262-266 | The buffer of a complete, unreleased piece, and nothing otherwise |
| PieceObject.Piece.Reset | app/download/piece.py:296-308 | Every block is MISSING without requesters, the buffer is gone and the piece is MISSING, while its sources and its failure count are kept |
| PieceObject.BuildPieces | app/download/piece.py:327-350 | One well-formed piece per hash, sized by the torrent, VERIFIED exactly when listed as complete; an invalid block size is refused |
| Torrents.PieceInside | app/torrent/metadata.py:169-180 | A piece's range lies inside the stream and is not empty |
| Torrents.PiecesDisjoint | app/torrent/metadata.py:169-180 | Ranges of different pieces do not meet |
| Torrents.PiecesCover | app/torrent/metadata.py:169-180 | Every byte of the stream lies in a piece |
| Storage.Spans | app/storage/files.py:292-316 | Over any tiling, empty files included, the spans chain through the stream and cover exactly the range; out of range is refused |
| Storage.Plan | app/storage/files.py:318-346 | The chunks are exactly the data, chained through the stream; the 'not covered' error never occurs when files tile the stream |
| StreamSpec.PutIsStreamWrite | app/storage/manager.py:547-552 | Writing inside one file is writing at the corresponding place of the concatenated stream, for any file contents |
| StreamSpec.WindowInStream | app/storage/manager.py:554-562 | What the stream holds in a file's range is that file's window |
| StorageObject.DiskFile.WriteAt | app/storage/files.py:71-94 | However writes are split, the file is overwritten by the written prefix; success means all of it, and failure that the system failed once |
| StorageObject.DiskFile.ReadAt | app/storage/files.py:97-125 | However reads are split, the result is a prefix of what is available, all of it unless the system failed once |
| StorageObject.StorageManager.WriteStream | app/storage/manager.py:547-552 | Exactly the range of the concatenated stream changes; a failure leaves a prefix and comes only from a failing system; out of range, and only then, leaves nothing |
| StorageObject.StorageManager.ReadStream | app/storage/manager.py:554-562 | A result of full length is exactly the range of the stream; files of full length give it unless the system failed |
| StorageObject.StorageManager.ReadBlock | app/storage/manager.py:355-381 | A piece out of range and a range outside its piece are refused, each exactly then; any other block is returned exactly from its piece's range, or as incomplete, never short, and incomplete only if a file is short or the system failed |
| StorageObject.StorageManager.WritePiece | app/storage/manager.py:277-333 | A piece out of range, one of the wrong size, and, with verification on by the caller's word or else by configuration, one that does not hash to the promise are refused, each exactly then and nothing written; any other piece is written in its range, completed and its length returned, unless the system failed |
| StorageObject.StorageManager.CheckPiece | app/storage/manager.py:383-397 | True only if the piece's bytes are there and hash to the promise, and always then when every file has its full length and reading does not fail |
| StorageObject.StorageManager.VerifyCompleted | app/storage/manager.py:399-456 | Every target is judged valid or invalid and for the right reason; the completed set becomes the valid ones plus those not asked about, so a full check leaves only pieces that hash to their promise on disk |
| StorageRuns.WritesCompose | app/storage/manager.py:547-552 | Writing some bytes of a piece and then more is one longer write |
| StorageRuns.ChunkIsAStep | app/storage/manager.py:547-552 | Some bytes of a verified piece written at their place in one file are, on the concatenation of all files, exactly the download's write step, from any point of the piece and for any file contents |
| StorageRuns.FileStepRefines | app/storage/manager.py:547-552 | Every step of the download over files is allowed on the flat download and has its effect there: writes to single files as write steps, everything else leaving the files alone |
| StorageRuns.FileRunsAreRuns | app/storage/manager.py:277-333 | Whatever the files go through, in any interleaving of chunks of different pieces with all other steps, is a run of the flat download |
| StorageRuns.FilesHoldWhatIsVerified | app/storage/manager.py:277-333 | In every run over files from a start, with verification before writing, the files hold for every reported piece, across file boundaries, bytes that hash to the promise |
| StorageRuns.FilesKeepWhatIsVerified | app/download/manager.py:610-623 | Over any continuation a reported piece stays reported and keeps its bytes in the files, whatever is written afterwards |
| DownloadObject.Download.Begin | app/storage/manager.py:547-552 | As objects: a verified piece is cut once into a plan whose chunks are exactly its data |
| DownloadObject.Download.WriteNext | app/storage/manager.py:547-552 | The next chunk of the plan goes to its file, wholly or in part, and that is one write step of the manager; a whole chunk advances the walk and a failure ends it; what the manager takes for its disk stays what the files hold, whatever other pieces are being walked |
| DownloadObject.Download.Finish | app/download/manager.py:610-623 | When the plan of a piece is walked to its end the piece is written whole; the storage and the manager count it complete together, and the two still agree |
| DownloadObject.Download.GiveUp | app/download/manager.py:589-623 | A storage error gives up the verification; files and manager still agree |
| DownloadObject.Download.ReportedIsInFiles | app/download/manager.py:589-623 | In every valid state of the two objects, with verification before writing, the files hold for every reported piece bytes that hash to the promise, and the storage has it as complete |
| BencodeTheorems.PrefixRoundTrip | app/bencode/decoder.py:116-127 | Every value within the limits is read back from the front of any buffer, consuming exactly its own text |
| BencodeTheorems.RoundTrip | app/bencode/encoder.py:40-96 | Decoding the encoding of any value within the limits gives the value |
| BencodeTheorems.PrefixFree | app/bencode/decoder.py:116-127 | No value's text is the beginning of another's |
| BencodeTheorems.StrictIsCanonical | app/bencode/decoder.py:244-278 | With sorted keys required, accepted input is the canonical encoding of its value |
| BencodeTheorems.StrictAcceptsExactly | app/bencode/decoder.py:161-278 | With sorted keys required, exactly the canonical encodings of values within the limits are accepted |
| BencodeOrders.LenientAcceptsExactly | app/bencode/decoder.py:161-278 | Without the flag an input is decoded to a value if and only if the value is within the limits and the input is its text with the keys of every dictionary, at every level, in some order |
| BencodeOrders.OrdersHaveOneSize | app/bencode/encoder.py:124-130 | The canonical text of a value is one of those orders and all of them have its size |
| BencodeOrders.TreeComplete | app/bencode/decoder.py:232-278 | Any text of a value up to the order of keys is read back, whole, from wherever it stands, and nothing after it is looked at |
| BencodeTheorems.StrictIsInjective | app/bencode/decoder.py:161-278 | Two inputs strictly decoded to one value are equal |
| BencodeTheorems.LenientKeepsSize | app/bencode/encoder.py:124-130 | Without the flag re-encoding never changes the size |
| BencodeTheorems.DecodedIsWithin | app/bencode/decoder.py:161-278 | Whatever is decoded obeys the limits it was decoded under |
| BencodeLimits.WithinMeans | app/bencode/decoder.py:161-278 | A value is within the limits if and only if nothing in it, keys included, is nested deeper than the limit, no number in it is longer than 1024 characters and no length of a byte string longer than 20 digits |
| BencodeTheorems.SpansTileInput | app/bencode/decoder.py:129-152 | The input is the opening marker, each key's text followed by its span, and the closing marker; spans are ordered and disjoint, and each decodes alone to its value |
| BencodeTheorems.SpansCoverMapping | app/bencode/decoder.py:129-152 | The mapping has exactly the spans' keys and values, and is what plain decoding gives |
| BencodeTheorems.ValueMoves | app/bencode/decoder.py:161-278 | The same bytes parse to the same value wherever they stand and at any shallower depth |
| BencodeProofs.ValueSound | app/bencode/decoder.py:161-278 | Input accepted at a cursor gives a value within the limits and has the size of its canonical text; when keys are required sorted it is that text |
| BencodeProofs.ValueComplete | app/bencode/decoder.py:161-278 | The text of a value within the limits is accepted at any cursor, and nothing after it is looked at |
| BencodeObject.Decoder.DecodeValue | app/bencode/decoder.py:161-179 | The cursor machine agrees with the specification on value, error and cursor |
| BencodeObject.Decoder.DecodeInt | app/bencode/decoder.py:181-203 | The integer token rules: digits, length limit, no leading zero, no negative zero |
| BencodeObject.Decoder.DecodeBytes | app/bencode/decoder.py:205-230 | The byte-string rules, including lengths past the end |
| BencodeObject.Decoder.DecodeList | app/bencode/decoder.py:232-242 | The loop reads exactly the specified items |
| BencodeObject.Decoder.DecodeDict | app/bencode/decoder.py:244-278 | The loop builds exactly the mapping and spans of the specified entries; duplicate, unsorted and non-byte keys are refused where the specification refuses them |
| BencodeObject.Decoder.Decode | app/bencode/decoder.py:104-114 | The object decodes as specified, and a decoded value's encoding has the input's length |
| BencodeObject.Decoder.DecodeMappingWithSpans | app/bencode/decoder.py:129-152 | Every key has a span, and the bytes of that span decode alone to the key's value |
| BencodeObject.Encoder.EncodeTop | app/bencode/encoder.py:40-49 | The buffer ends up holding exactly the canonical text |
| BencodeObject.Encoder.EncodeValue | app/bencode/encoder.py:51-96 | The canonical text of the value is appended and nothing else changes |
| BencodeObject.Encoder.SortKeys | app/bencode/encoder.py:86-89 | The keys, each once, and every earlier one before every later one in byte order: at their first different byte it has the lower one, or it is a beginning of the other |
| Digits.AscendingUnique | app/bencode/encoder.py:86-89 | A set of keys has only one ascending order, so the encoding does not depend on how it was sorted |
| Digits.LessIsByteOrder | app/bencode/encoder.py:86-89 | One key is sorted before another if and only if they share a beginning after which it ends or has the lower byte |
| BencodeTheorems.CanonicalKeyOrder | app/bencode/encoder.py:83-94 | Any listing of a dictionary's keys in byte order gives its canonical text |
| BencodeTheorems.SampleText | app/bencode/encoder.py:51-96 | A dictionary of two numbers is written d1:ai1e1:bi-2ee, letter by letter |
| BencodeTheorems.SampleList | app/bencode/encoder.py:60-76 | A list of a number and a byte string is written li0e4:spame, letter by letter |
| Digits.DecimalOfNumber | app/bencode/decoder.py:181-230 | Digits without a leading zero are the only text of their number |
| Pex.ReplicaIsToldAndLost | app/discovery/pex.py:366-435 | In every run the peer believes exactly the told set plus the keys that failed builds forgot, and the two are disjoint |
| Pex.SmoothLosesNothing | app/discovery/pex.py:390-435 | In every run in which no build raised with something to withdraw, the peer believes exactly the told set |
| Pex.BuildAgreesExactlyWhen | app/discovery/pex.py:390-408 | One build keeps the two sides agreed if and only if it is not due, has nothing to withdraw, or every drained address has a compact form |
| Pex.FailedBuildLosesAWithdrawal | app/discovery/pex.py:390-435 | A witness: a named peer joins as an advertised one leaves, the build raises after draining, and the withdrawal is never sent |
| Pex.RunIsLawful | app/discovery/pex.py:366-435 | In every run sends are at least the interval apart, and a message built at any point obeys the message rules and adds no key the peer already has from the ledger |
| Pex.MessagesAreLawful | app/discovery/pex.py:390-435 | A message is not empty, repeats no key, adds and drops no key at once, adds only untold and drops only told keys, and carries exactly the oldest pending ones: min(200, pending) additions at first and min(50, pending) later, min(50, pending) withdrawals |
| Pex.BuildOutcome | app/discovery/pex.py:390-435 | A build is silent exactly when it is less than the interval after the last send or nothing is pending; otherwise it raises exactly when one of the oldest 200 (50 after the first) additions or 50 withdrawals is a name, and sends exactly when none is |
| Pex.BuildKeepsInv | app/discovery/pex.py:390-435 | Building keeps pending additions untold and pending withdrawals told, whatever the outcome |
| Pex.JoinedKeepsInv | app/discovery/pex.py:366-379 | Noting an arrival keeps that, cancels a pending withdrawal, and queues the contact exactly when untold |
| Pex.LeftKeepsInv | app/discovery/pex.py:381-388 | Noting a departure keeps that, cancels a pending addition, and queues a withdrawal exactly when told |
| PexConvergence.RoundPays | app/discovery/pex.py:336-435 | For any told and connected sets without host names, a due build followed by the same snapshot lowers 2 (added outside S) + (added inside S) + (told outside S): by the entries of the message when it is sent, by the stale additions twice and the withdrawals when it raises; so as long as that is positive every round lowers it |
| PexConvergence.Converges | app/discovery/pex.py:336-435 | After as many rounds as that potential, told is exactly the connected set and both queues are empty, and it stays so, however stale the queues were and whatever host names were queued; only told and the connected set must be without names |
| PexConvergence.ConvergesExactlyWhen | app/discovery/pex.py:336-435 | After any run of the ledger, a sync and enough rounds, told is exactly the connected set if and only if no connected peer is known by a host name |
| PexConvergence.NamedPeerIsNeverTold | app/discovery/pex.py:390-408 | After any run at all, told is not a set with a host name in it |
| PexConvergence.NamedPeerSilencesTheLedger | app/discovery/pex.py:390-408 | While a peer known by a host name is connected and the queue fits one message, every due build raises, told only shrinks, and the same holds in the next round |
| PexConvergence.RaisedPays | app/discovery/pex.py:390-435 | A raising build with a nameless connected set drains at least one stale addition, and lowers the potential by twice the stale additions and once the withdrawals it forgot |
| PexConvergence.NoWorkMeansAgreed | app/discovery/pex.py:336-364 | After a sync the potential is zero if and only if told is the snapshot and nothing is pending to add |
| PexObject.PexLedger.Sync | app/discovery/pex.py:336-364 | The loops leave pending additions enlarged by the untold part of the snapshot and pending withdrawals equal to what was told and is gone; the effect is one of a sequence of notes |
| PexObject.PexLedger.NoteConnected | app/discovery/pex.py:366-379 | A pending withdrawal of the contact is cancelled; it is queued to be added, in place if queued already, exactly when it has not been told; the queue invariant is kept |
| PexObject.PexLedger.NoteDisconnected | app/discovery/pex.py:381-388 | A pending addition of the contact is cancelled; its withdrawal is queued exactly when it has been told; the queue invariant is kept |
| PexObject.PexLedger.BuildMessage | app/discovery/pex.py:390-408 | Too early or nothing pending: no message and no change. Otherwise both queues are drained up to their caps before encoding: if every drained addition has a compact form they are told and sent and the clock is set, else the build raises with the withdrawals forgotten and the additions not told; a message sent is lawful |
| PexObject.PexLedger.DrainAdded | app/discovery/pex.py:410-418 | The oldest pending additions up to the cap, removed from the queue |
| PexObject.PexLedger.DrainDropped | app/discovery/pex.py:420-435 | The oldest pending withdrawals up to the cap, removed from the queue and from the told set |
| PexWire.WireRoundTrip | app/discovery/pex.py:177-257 | A message within the caps is decoded to exactly its addresses per family in order, one flag byte per added address, nothing truncated |
| PexWire.FlagsSayTraits | app/discovery/pex.py:120-132 | In what a recipient decodes, bit 0x02 of an address's flag byte says seed, bit 0x10 says reachable, and no other bit is set |
| PexWire.SampleMessage | app/discovery/pex.py:177-206 | A message adding one IPv4 seed, byte by byte |
| PexWire.RecipientFollows | app/discovery/pex.py:177-257 | A recipient applying the decoded lists ends where the ledger's bookkeeping says |
| PexWire.BuildRaisesWithEncoder | app/discovery/pex.py:390-408 | The ledger's build raises exactly when it is due, has something to say and the encoder refuses the drained message |
| PexWire.RecordsRoundTrip | app/discovery/pex.py:454-490 | A compact list reads back as its addresses |
| PexWire.Capped | app/discovery/pex.py:238-246 | At most 200 addresses are kept, IPv4 first, and the rest is counted |
| OrderedDict.PutKeeps | app/discovery/pex.py:366-379 | Assignment in an insertion-ordered dictionary keeps keys distinct and adds just the one |
| OrderedDict.PutPlaces | app/discovery/pex.py:366-379 | A known key keeps its place and a new one goes last, so queues are drained oldest first |
| OrderedDict.RemoveKeeps | app/discovery/pex.py:366-388 | Removal keeps keys distinct and removes just the one |
| OrderedDict.RemovePlaces | app/discovery/pex.py:366-388 | What is left keeps its order |
| MetadataFetch.Download | app/peer/metadata_exchange.py:404-485 | It fails with TooManyPieces exactly when the announced size takes more than 2048 chunks. Otherwise it returns if and only if a beginning of the arrivals brings every chunk, in any order, with repeats, requests, silences and unrelated messages between and nothing that ends the download, and can be read in the passes that begin before the deadline; it fails with an arrival's error if and only if that arrival ends it first, in the same sense; and else it is unfinished. The result has exactly the announced size and, if the replies came from a server of some bytes of that size, is those bytes. At every moment at most four distinct chunks are outstanding, retries included, and no received chunk is asked for |
| MetadataInbox.PassesAskRightly | app/peer/metadata_exchange.py:443-458 | Every pass of every download asks for the lowest missing chunks nobody asked for yet, as many as keep four outstanding; with none to ask for, for the four lowest missing again if five seconds went by since the last request, and otherwise for nothing |
| MetadataInbox.AnswerBrings | app/peer/metadata_exchange.py:404-596 | What a server answers to a request brings the fetching side the chunk asked for if it exists, and ends the download as rejected if not |
| MetadataInbox.HistoryKept | app/peer/metadata_exchange.py:443-458 | The window is kept after any number of passes, over any arrivals and any clock |
| MetadataWindow.ChoiceIsSafe | app/peer/metadata_exchange.py:443-453 | Both the window's choice and the retry's choice keep the window: they ask only for missing chunks, lowest first, at most four outstanding |
| MetadataWindow.RetryAsksNothingNew | app/peer/metadata_exchange.py:448-451 | A retry re-sends only chunks already asked for |
| MetadataWindow.SendingLowest | app/peer/metadata_exchange.py:443-447 | Outstanding chunks are always the lowest missing ones |
| MetadataFetch.JoinIsRaw | app/peer/metadata_exchange.py:485 | Joining the server's chunks in order gives the served bytes |
| MetadataFetch.JoinHasSize | app/peer/metadata_exchange.py:425-485 | Joining chunks of their expected lengths gives exactly the announced size |
| MetadataFetch.Fetch.Accept | app/peer/metadata_exchange.py:468-483 | A reply is kept exactly when it is no rejection, its piece is in range, its announced size is consistent and its chunk has the expected length |
| MetadataFetch.Fetch.ToSend | app/peer/metadata_exchange.py:443-451 | The choice is the one `MetadataInbox.PassesAskRightly` is about, and asking for it keeps the window |
| MetadataFetch.Fetch.ReadMessage | app/peer/metadata_exchange.py:488-532 | The next arrival that is not passed over decides, and is consumed: silence gives nothing, a broken stream or an unreadable message under either id its error, and a reply that is not a request the reply |
| MetadataFetch.MetadataServer.Respond | app/peer/metadata_exchange.py:575-596 | A readable request for a chunk the served bytes have is answered with that chunk and the true size, one past the last chunk with a rejection, and anything else with nothing |
| Metadata.DataRoundTrip | app/peer/metadata_exchange.py:213-268 | A data message is read back whole, its chunk byte for byte |
| Metadata.RequestRoundTrip | app/peer/metadata_exchange.py:208-268 | A request is read back whole |
| Metadata.RejectRoundTrip | app/peer/metadata_exchange.py:218-268 | A rejection is read back whole |
| Metadata.SplitAt | app/peer/metadata_exchange.py:271-276 | The server's chunks are as many, and each the bytes and length, that the fetching side expects |
| Metadata.ServedIsFaithful | app/peer/metadata_exchange.py:575-596 | Whatever a server replies that is not a rejection carries the chunk of the piece it names and the true size |
| Metadata.AnswersAreRight | app/peer/metadata_exchange.py:575-596 | Exactly readable requests are answered: one for a chunk that exists with 16384 bytes, or what is left, of the served bytes from the right place and the true size, one past the end with a rejection |
| Bitfields.Bitfield.Set | app/peer/bitfield.py:130-137 | One piece changes, every other bit stays, spare bits stay clear |
| Bitfields.Bitfield.FromBytes | app/peer/bitfield.py:54-69 | Refused exactly when too short; otherwise every piece's bit is kept, spare bits cleared, and clean bytes come back unchanged |
| Bitfields.Bitfield.MaskSpareBits | app/peer/bitfield.py:178-184 | Bits of no piece are cleared and no other bit changes |
| Bitfields.Bitfield.Count | app/peer/bitfield.py:104-111 | The number of set bits is the number of pieces held, and equals the piece count exactly when all are held |
| Bitfields.SameHeldSameBytes | app/peer/bitfield.py:167-184 | Bitfields of one torrent holding the same pieces are equal bytes |
| Bitfields.WithBitSets | app/peer/bitfield.py:130-137 | Setting or clearing one bit of a byte leaves the other seven |
| Availability.CountsAreHolders | app/peer/bitfield.py:223-262 | In every run a piece's count is the number of tracked peers whose bitfield has it plus the announcements made before tracking; never negative; exact if and only if there were no early announcements of that piece |
| Availability.EarlyHaveCountsTwice | app/download/manager.py:540-546 | A witness: a peer announcing before it is tracked is counted twice, and once still after it left |
| AvailabilityObject.PieceAvailability.Apply | app/peer/bitfield.py:257-262 | Exactly the bitfield's pieces move by one; a bitfield of another torrent is refused |
| AvailabilityObject.PieceAvailability.Rarest | app/peer/bitfield.py:243-255 | The wanted pieces, each once, fewest holders first, ties by index; with a limit, the first of them |
| AvailabilityObject.Tracker.Announce | app/download/manager.py:540-546 | Over shared bitfields a new announcement changes session, index and nothing else; a repeated one changes nothing |
| AvailabilityObject.Tracker.Track | app/download/manager.py:391-409 | The peer's current bitfield is counted in whole |
| AvailabilityObject.Tracker.Leave | app/download/manager.py:528-538 | What the departing peer's bitfield says now is taken out |

## Left out

- The event loop, timers, task cancellation and wake-ups: the model has the atomic segments between two awaits, in any order and at any time.
- Sockets, threads, the file system below positional reads and writes, pre-allocation and path handling: files are byte arrays that may be short and whose reads and writes may be partial or fail.
- SHA-1: the hash is an arbitrary function given to the model.
- The reset taken when no event loop is running (app/download/manager.py:575-579).
- The piece selector: fresh pieces are offered in some order; nothing is claimed about which.
- Iteration order of Python sets: withdrawals queued by one sync, requests given up by one drop, and racing peers are processed in some order.
- SchedulerObject.Scheduler.Plan: the optional limit that replaces the configured pipeline capacity for one pass (app/download/scheduler.py:305-324) is not modelled; the manager never gives one (app/download/manager.py:359).
- ManagerObject.DownloadManager.Disconnect: taking the peer out of the availability index is `AvailabilityObject.Tracker.Leave`; the remembered interest and the wake-up are not modelled.
- The counters of requests sent, expired and cancelled, rates, progress, events and log records.
- Resume files, the session and engine around the manager, trackers, DHT, the peer wire handshake and messages other than those named above.
- SchedulerSpec.Sched: the pieces of a scheduler are values in the specification; the object layer proves for each method that the one piece object it writes changes as specified and no other does.
- StorageObject.StorageManager.WriteStream: runs without other writes between its chunks; interleaved chunks are the runs of `StorageRuns` and the calls of `DownloadObject.Download`.
- StorageObject.StorageManager.WritePiece: runs without other writes between its chunks; interleaved chunks are the runs of `StorageRuns` and the calls of `DownloadObject.Download`.
- StorageObject.StorageManager.VerifyCompleted: runs without writes between its batches.
- BencodeObject.Encoder.EncodeTop: as for EncodeValue, refusals do not occur.
- BencodeObject.Encoder.EncodeValue: values that bencode cannot represent, and conversions from byte-like objects, do not occur in the model's value type, so the encoder's refusals are not modelled.
- BencodeTheorems.SpansTileInput: it needs no separate limit, since decoding with spans has already checked the limits.
- StorageObject.DiskFile.PWrite: a positional write that neither fails nor makes progress is not modelled; the source would repeat it without end.
- Pex.Build: hosts are octets or a name; the many spellings of one address as text are taken as one host, and the label of an address's source is kept but never read.
- PexWire.DecodePex: the flags are passed on as read; nothing is claimed about their alignment when records with port 0 were skipped.
- `sanitize_incoming` (app/discovery/pex.py:260-293) and whatever the peer manager does with received addresses.
- PexObject.PexLedger.BuildMessage: whether a message that was built is also delivered is outside the ledger.
- MetadataFetch.Fetch.ReadMessage: the refusals sent to a peer that asks for metadata during a fetch are not recorded.
- MetadataFetch.Download: the final hash check of the caller is not part of it.
- Availability.Next: a bitfield message after the peer was tracked replaces the tracked object and is not modelled; the source accepts only one such message per session, and peers send it first.
- The bitfield's other constructors, queries and hex form (app/peer/bitfield.py:72-96, app/peer/bitfield.py:143-176): they would only add easy members.
- AvailabilityObject.PieceAvailability.Rarest: a negative limit, which Python would read as dropping from the end, is not modelled.
