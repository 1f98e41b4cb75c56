# KeibiDrop, verified models

Models in Dafny 4.11 of the parts of KeibiDrop where an error loses data: the on-demand chunk cache of one mounted
file, the two-peer version protocol, the per-chunk version ledger and its sidecar, and two codecs. Each model states
what the code does as functions on values, has the loops and in-place updates as methods of classes proved against
those functions, and proves what the system promises as lemmas about every input and every run.

| file | what it models |
|---|---|
| Bytes.dfy | integer widths, byte order, reads and writes of a file kept as bytes |
| ChunkBitmap.dfy | the bitmap of downloaded chunks as a set of indices |
| CacheFile.dfy | the sparse cache copy: landings, app writes, the fill, completion |
| FetchTable.dfy | the singleflight over fetch units |
| MountedFile.dfy | read, write and read-ahead of one file, with other goroutines interleaved |
| Acceptance.dfy | what an accepted announce makes of the local copy |
| Reconcile.dfy | what a peer edit keeps of the cache |
| WarmSiblings.dfy | one batch of the sibling warmer |
| ChunkLedger.dfy | the version ledger: judgement, exchange, swap-save, dirty records |
| Sidecar.dfy, Restart.dfy | the .kdbitmap file, and what survives a restart |
| VersionProtocol.dfy | two peers, one file, messages in flight |
| ReadAhead.dfy | the read-ahead detector |
| DirMove.dfy | directory rename and its undo |
| Nonce.dfy, ChunkedCipher.dfy | AEAD nonces and chunked encryption |
| MdnsPacket.dfy | the DNS wire codec, sections 4.1.1 to 4.1.4 of RFC 1035 |

## How to read it

- xxh3 is a function from bytes to 64 bits. Where a proof needs that it tells contents apart, this is a hypothesis
  about the contents at hand: no function into 64 bits is injective.
- The stream returns the range asked for or an error; disk writes may be short and reads may fail. Two ghost counters
  record such failures, and the contracts say that nothing else keeps an operation from doing its work.
- Other goroutines are arbitrary steps taken wherever the code holds no lock; a chunk is checked, written and marked
  in one step, and one app write is one step.
- In the protocol, messages arrive in order each way and the two tie flags are opposite. A run may take any step the
  code can take, at any clock value; the announce of an edit waits for the fill as Release makes it wait. The clock
  condition is that a write or a truncate has a stamp above every stamp its writer has seen. Releases may find any
  time on disk; only convergence asks that it is not above the identity in memory. A version counts as fetched once a
  fetch begun under it has ended, and an empty one with its announce.
- Lemmas switch automatic induction off, so that each proof is what its body says.

## Where the code and its comments part

Each of the following has a lemma with a concrete run or input, and a lemma, for all inputs, that says exactly when the
code keeps its promise.

- A read served out of a fetched range answers with the peer's bytes over chunks the app has rewritten: `StaleRead`
  and `ReadStale` take it, `StaleExactly` says when.
- A write into a complete copy does not refresh fingerprints; when the peer then restores the old bytes, reconcile
  keeps the app's: `RestoredBytesKeepStaleChunk`, and exactly when, `StaleKeptExactly`. A chunk the peer's answer leaves
  out matches a zero fingerprint: `UnansweredKept`.
- A swap-save over an unannounced edit can replace the peer's version with no sibling: `SwapOverDraftLosesVersion`,
  `SwapOverDraft`.
- So can the save after a stamp that both peers minted (`TieLosesVersion`), after the release of a session truncated to
  zero that an EDIT took over (`EchoLosesVersion`), and a truncate after a fetch that ended under a newer watermark
  (`LateFetchLosesVersion`): `SaveOverUnseen`, `TruncateOverUnseen` and `SwapOverUnseen` say exactly when a version is
  lost, `ReleaseClaims`, `OnlyEditLeavesZeroed` and `FetchClaims` when it comes to that.
- A release of a file the peer took over leaves the peers at different stamps when the disk time is above the identity:
  `EchoedReleaseDiverges`, `ReleaseConverges`; and in bounds it can leave the file without an owner:
  `EchoedReleaseOwner`.
- A swap-save's stamp can fall below a stamp its author has seen when the clock steps back: `ClockBackForgets`;
  `SwapSeenCovers` and `SeenFallsExactly` say which steps lose a stamp, `WatermarkCovers` which stamps are never lost.
- The sibling warmer can lead a unit that has landed: `LedAgain`, `NeverLedAgain`, `ClaimWarm`.
- A complete copy that loses a tie shows zeros: `TieExists`, `TieShowsZeros`, `AddShowsExactly`.

Further limits, each with its exact condition in one lemma or contract:

- A read that reaches past the last fetch unit of a complete copy is answered with end of file, and one that reaches
  past the last chunk can fail with every byte it asked for on disk (`Read`, `ServeUncovered`).
- A fill that finds nothing missing does not make the announce that waits for it (`PrefetchFile`).
- The restored edit outranks the re-announce of its own base exactly when it was settled above it
  (`ReannounceResetsNothing`), and not at all when its length changed (`ResizedEditIsForgotten`).
- A directory move over a tracked target loses an entry (`OccupiedTargetLoses`).
- A read-ahead window of one block starts empty refills (`WindowOfOneRefillsNothing`).
- A plaintext stream that is too short but ends on a block boundary is encrypted without an error (`EncryptChunked`).
- After the nonce overflow error the generator stands in the next epoch (`OverflowCarries`).

## Model

| member | source | states |
|---|---|---|
| Bitmaps.ChunkBitmap.constructor | pkg/filesystem/download.go:124-141 | a new bitmap has no chunk present, no fingerprints, and exactly the chunks its file needs |
| Bitmaps.ChunkBitmap.Has | pkg/filesystem/download.go:144-154 | the bit words answer membership in the set of present chunks; an index outside the file is absent |
| Bitmaps.ChunkBitmap.Set | pkg/filesystem/download.go:157-170 | the set gains exactly that chunk and the cached counter stays its size, also when the bit was set or the index is outside |
| Bitmaps.ChunkBitmap.SetRange | pkg/filesystem/download.go:173-183 | exactly the chunks of the file that the byte range touches are gained |
| Bitmaps.ChunkBitmap.HasRange | pkg/filesystem/download.go:186-199 | true exactly when every chunk the byte range touches is present, so never when the range passes the last chunk |
| Bitmaps.ChunkBitmap.SetHash | pkg/filesystem/download.go:202-214 | one fingerprint changes; the slice is allocated, zeroed, on first use |
| Bitmaps.ChunkBitmap.Hash | pkg/filesystem/download.go:217-233 | a fingerprint is known exactly for a present chunk once fingerprints exist |
| Bitmaps.ChunkBitmap.IsComplete | pkg/filesystem/download.go:281-286 | comparing the counter with the total decides that no chunk is missing |
| Bitmaps.ChunkBitmap.NextMissing | pkg/filesystem/download.go:301-312 | the first missing chunk from an index on, or -1 exactly when none is missing |
| Bitmaps.IndicesAfterSet | pkg/filesystem/download.go:157-170 | setting one bit of one word adds exactly one index to the set that the words stand for, and stays in 64 bits |
| Bitmaps.FullBySize | pkg/filesystem/download.go:281-286 | a set of chunk indices is full exactly when its size is the total |
| Bitmaps.TouchedByBytes | pkg/filesystem/download.go:173-199 | the chunks from the first to the last of a byte range are exactly those some byte of the range lies in |
| Bitmaps.CeilDivCovers | pkg/filesystem/download.go:124-141 | the ceiling division gives exactly the chunks that begin inside the file |
| CacheFiles.PartialCopyRun | pkg/filesystem/fuse_directory.go:2442-2519 | over any run of whole landings, torn landings and app writes into present chunks, a present chunk holds the peer bytes overlaid with the writes in order, a missing chunk holds no app byte, and a complete copy equals the peer file with the writes applied |
| CacheFiles.CompleteIsOverlay | pkg/filesystem/fuse_directory.go:4715-4756 | once no chunk is missing the disk is the overlaid file: a deferred announce presents no hole |
| CacheFiles.WriteKeepsFaithful | pkg/filesystem/fuse_directory.go:2485-2515 | an app write whose chunks are all present keeps the cache invariant for the longer overlay |
| CacheFiles.MarkKeepsFaithful | pkg/filesystem/probe_fetch.go:117-120 | a missing chunk whose every byte was just written from the peer may be marked |
| CacheFiles.WriteStalesPrints | pkg/filesystem/fuse_directory.go:2102-2123 | a write makes stale no fingerprint outside the chunks it covers |
| CacheFiles.PresentChunkBytes | pkg/filesystem/fuse_directory.go:2111-2122 | what is read back for a present chunk is its overlaid bytes, in full length |
| CacheFiles.CacheFile.constructor | pkg/filesystem/fuse_directory.go:4497-4511 | a file announced by the peer starts with nothing landed and a valid cache |
| CacheFiles.CacheFile.LandPiece | pkg/filesystem/probe_fetch.go:99-122 | one turn of the landing loop keeps the cache valid, marks at most the chunk at the position, and marks it when it is whole, unless the write fails |
| CacheFiles.CacheFile.MarkCached | pkg/filesystem/probe_fetch.go:90-125 | landing a fetched range keeps the cache valid on every path, marks only chunks that begin inside it and are full or end with the file, each with the fingerprint of the peer bytes, and all of them unless a write to the disk fails |
| CacheFiles.CacheFile.RehashWritten | pkg/filesystem/fuse_directory.go:2106-2123 | after a write the fingerprints of the covered present chunks are true or the zero placeholder, all true unless a read back fails, and no bit is cleared |
| CacheFiles.CacheFile.AppPwrite | pkg/filesystem/fuse_directory.go:2485-2519 | a write into present chunks of a partial copy keeps the cache valid and appends exactly the written bytes to the overlay; they are all of the data and the fingerprints fresh, unless a disk operation fails |
| CacheFiles.CacheFile.AppPwriteLocal | pkg/filesystem/fuse_directory.go:2471-2519 | a write into a complete copy leaves the disk equal to the overlay, which grows by all of the data unless the disk fails; fingerprints are not refreshed there |
| CacheFiles.CacheFile.LandWarmFile | pkg/filesystem/warm_siblings.go:281-370 | a warmed small file is extended to its size and written, and marked exactly when every check holds, before the write and after it, and the write does not fail; then it is whole on disk; a failed first check writes nothing, and no app write is ever covered |
| CacheFiles.CacheFile.LandBlock | pkg/filesystem/probe_fetch.go:90-125 | a block begun and ended on chunk bounds or at the end of the file leaves none of its chunks missing, unless a write to the disk fails |
| CacheFiles.CacheFile.LandStream | pkg/filesystem/fuse_directory.go:4660-4714 | blocks of the stream land in order; a whole stream leaves nothing missing from its start on, unless a write to the disk fails |
| CacheFiles.CacheFile.PrefetchFile | pkg/filesystem/fuse_directory.go:4600-4761 | resumes at the first missing chunk; complete exactly when no chunk is missing, and then the disk equals the peer file with the writes applied; the deferred announce fires exactly when it was wanted, a chunk was missing at the start and none is at the end |
| FetchTables.UnfinishedAreDisjoint | pkg/filesystem/probe_fetch.go:36-75 | two unfinished fetches share no byte |
| FetchTables.NeverLedAgain | pkg/filesystem/probe_fetch.go:36-75 | a leader, whoever registered it, stays clear of a fetch that finished well exactly when it takes no landed unit of it |
| FetchTables.ReleasedFindsUnit | pkg/filesystem/fuse_directory.go:2613-2645 | a waiter released without an error finds the unit it joined for landed |
| FetchTables.LeadKeepsSingleflight | pkg/filesystem/probe_fetch.go:60-74 | registering a run of free units keeps the singleflight invariant |
| FetchTables.SettleKeepsSingleflight | pkg/filesystem/fuse_directory.go:2628-2645 | settling a fetch and dropping its own keys keeps the singleflight invariant |
| FetchTables.FetchTable.SkipLanded | pkg/filesystem/probe_fetch.go:50-52 | the first unit of the range that has not landed; everything before it has |
| FetchTables.FetchTable.Register | pkg/filesystem/probe_fetch.go:60-74 | registers a contiguous run of free missing units and stops only at the end or before a unit that is owned or landed |
| FetchTables.FetchTable.BeginFetchSpan | pkg/filesystem/probe_fetch.go:44-75 | leads over exactly the run of free units that have not landed, or joins the owner of the first missing unit, or finds every unit landed |
| FetchTables.FetchTable.BeginBlockFetch | pkg/filesystem/probe_fetch.go:143-157 | registers the unit exactly when nobody owns it, landed or not, and keeps the singleflight invariant |
| FetchTables.FetchTable.FinishFetch | pkg/filesystem/fuse_directory.go:2628-2645 | drops exactly the keys this fetch still owns, settles once, and on success raises the held stamp to the watermark; a second call wakes and drops nothing |
| MountedFiles.FetchWindow | pkg/filesystem/fuse_directory.go:3277-3290 | the range of one miss is the window function; it ends on a unit bound or the end of the file, covers the request unless that exceeds one 16 MiB message, and reaches no unit the request does not |
| MountedFiles.MountedFile.Land | pkg/filesystem/probe_fetch.go:90-125 | landing any range of the peer file keeps the cache and the singleflight invariant; without a failed write every chunk that begins in an aligned range is then present |
| MountedFiles.MountedFile.CompleteFetch | pkg/filesystem/fuse_directory.go:3533-3555 | on every path a leader settles its fetch, without an error exactly when the bytes came and no write failed, and then its range has landed |
| MountedFiles.MountedFile.Others | pkg/filesystem/fuse_directory.go:3457-3520 | any number of steps of other goroutines, fetches registered without a look at the bitmap included, only gain chunks and keep every fetch, its range and its outcome |
| MountedFiles.MountedFile.RequestHit | pkg/filesystem/fuse_directory.go:3203-3207 | the fast-path test holds exactly when every requested byte of the file lies in a present chunk and the request stays inside the chunks |
| MountedFiles.MountedFile.Pread | pkg/filesystem/probe_fetch.go:129-141 | the bytes served from the cache are exactly the overlaid file bytes of the request, clamped to its size |
| MountedFiles.MountedFile.FirstMissingUnit | pkg/filesystem/fuse_directory.go:3259-3276 | where the fetch starts: the first unit of the request that has not landed, the first of all when every one has, past the file exactly when the request ends past the last unit and nothing is missing |
| MountedFiles.MountedFile.PlanFetch | pkg/filesystem/fuse_directory.go:3256-3327 | at most three attempts to lead or wait; the plan serves from the cache only when the whole request landed, gives up only when the mount stops, and when nothing interferes it is the one that what is present calls for, with every missing range registered |
| MountedFiles.LedCovers | pkg/filesystem/fuse_directory.go:3298-3457 | a leader with no other fetch in flight covers the whole request exactly when the units it reaches into fit one message and none has landed |
| MountedFiles.LedToEnd | pkg/filesystem/fuse_directory.go:3298-3457 | a leader with no other fetch in flight that does not cover a request past the last chunk fetches to the end of the file exactly in a dead end |
| MountedFiles.MountedFile.ServeUncovered | pkg/filesystem/fuse_directory.go:3457-3501 | when the fetch did not cover the request, waiting for the others and fetching the rest serves the whole request, never a short read; without a failure it does exactly unless the request runs past the last chunk and the fetch reached the end of the file |
| MountedFiles.MountedFile.ReadMissing | pkg/filesystem/fuse_directory.go:3329-3560 | a read that fetches serves the slice or the cache, a leader releases its waiters on every exit, and without a failure it is served exactly unless it must wait for chunks past the last one |
| MountedFiles.MountedFile.Read | pkg/filesystem/fuse_directory.go:3202-3560 | whatever other goroutines do meanwhile, served bytes are the overlaid file (cache) or the peer file (slice) of the request, and both at once where the app wrote nothing; a request that stays inside the chunks goes unserved only after a failure, and what is served without one has landed; when nothing interferes, what is present decides the way, and when nothing fails either, the read is served exactly unless it ends past the last unit or in a dead end past the last chunk; a request whose bytes are all present is served from the cache; end of file is answered only past the last unit, and there always on a complete copy |
| MountedFiles.UntouchedReads | pkg/filesystem/fuse_directory.go:3202-3560 | where no app write reaches, the overlaid file reads as the peer file |
| MountedFiles.StaleExactly | pkg/filesystem/fuse_directory.go:3457-3514 | a read nothing disturbs answers with bytes the app has overwritten exactly when its chunks are not all present, its units fit one fetch with none or all of them landed, and a present chunk of it holds a changed byte |
| MountedFiles.MountedFile.FillForWrite | pkg/filesystem/fuse_directory.go:2072-2100 | whatever was missing and whatever other goroutines do, every chunk of the file the write touches is present afterwards unless a fetch or a disk write failed or the mount stopped; no app byte is written or lost |
| MountedFiles.MountedFile.Write | pkg/filesystem/fuse_directory.go:2435-2519 | fill then pwrite: without a failure all of the data is written; the overlay grows by exactly the written bytes, a partial copy stays a valid cache with every chunk of the request present, a complete one equals its overlay |
| MountedFiles.MountedFile.PrefetchRange | pkg/filesystem/fuse_directory.go:2660-2726 | a read-ahead refill takes its blocks in order: each is whole, or its first missing unit belongs to a fetch in flight, or the run of units from there on was led, landed and settled; it ends early only where it is stopped, at the end of the file, or after its own fetch failed |
| MountedFiles.MountedFile.ClaimWarm | pkg/filesystem/warm_siblings.go:149-165 | the warmer stays out only of a file that is whole or that a fetch in flight covers; undisturbed it leads exactly when a chunk is missing and nobody owns unit 0; it leads a landed unit only when another goroutine came between its look at the bitmap and the registration |
| MountedFiles.MountedFile.LandWarmClaim | pkg/filesystem/warm_siblings.go:281-370 | a warm claim settles its fetch on every path, without an error exactly when the frame was whole, every check held and no write failed, and then the whole file is present |
| MountedFiles.LedAgain | pkg/filesystem/warm_siblings.go:149-165 | a run in which the warmer finds the bitmap incomplete, a demand fetch lands and settles, and the registration leads the landed unit again, for every small file |
| MountedFiles.StaleRead | pkg/filesystem/fuse_directory.go:3457-3514 | a run of a landing and a write from the empty copy after which a read of two chunks is served by the slice, with the byte the app has replaced |
| MountedFiles.RewrittenFile | pkg/filesystem/fuse_directory.go:2485-2515 | the copy of that run as a mounted file: one chunk landed and one byte of it rewritten |
| MountedFiles.ReadStale | pkg/filesystem/fuse_directory.go:3202-3514 | the read of that file, taken with no step of another goroutine, answers with the replaced byte |
| Reconciles.ReconcileBitmap | pkg/filesystem/reconcile.go:13-38 | the fresh bitmap holds exactly the chunks in the common prefix whose stored fingerprint equals the looked-up peer fingerprint, with their fingerprints; null exactly in the fallback cases |
| Reconciles.KeptIsRight | pkg/filesystem/reconcile.go:24-33 | a kept chunk the peer answered for holds the new bytes if and only if its stored fingerprint describes the disk |
| Reconciles.UnansweredKept | pkg/filesystem/reconcile.go:24-34 | a chunk the peer answer leaves out is kept exactly when its fingerprint is zero, and marking it breaks the cache exactly when the disk does not hold the new bytes |
| Reconciles.StaleKeptExactly | pkg/filesystem/fuse_directory.go:2471-2519 | after a write into a complete copy, which refreshes no fingerprint, a chunk is kept with wrong bytes exactly when the new version has the bytes from before the write there and the write changed them |
| Reconciles.RestoredBytesKeepStaleChunk | pkg/filesystem/fuse_directory.go:2728-2750 | a complete fingerprinted copy of 16 MiB, one app write, and a peer version that restores the old bytes: the chunk is kept and holds the app byte |
| Reconciles.ValidCopyProves | pkg/filesystem/fuse_directory.go:2102-2123 | the bitmap of any valid copy of the replaced version, placeholders included, meets the condition of the fingerprint path when the peer answers for the whole prefix with nonzero fingerprints |
| Reconciles.ReconcileByPrints | pkg/filesystem/fuse_directory.go:2774-2846 | exactly the matching chunks become present beside what others land and the cache is faithful to the new version; every kept chunk holds the new bytes, and of the answered chunks with a true fingerprint all that hold them are kept |
| Reconciles.SeedFromLocal | pkg/filesystem/fuse_directory.go:2857-2923 | whatever the seed holds the cache stays faithful to the new version; every provable chunk is kept unless a read or a write fails or the mount stops |
| Reconciles.OtherLands | pkg/filesystem/probe_fetch.go:99-122 | a concurrent landing leaves every byte as it was or as the peer has it |
| Acceptances.AddShowsExactly | pkg/filesystem/fuse_directory.go:4349-4461 | after an accepted ADD reads show the announced version whatever it holds, exactly when the bitmap starts over or has no chunk |
| Acceptances.EditShowsAny | pkg/filesystem/fuse_directory.go:4893-4935 | after an accepted EDIT reads show the announced version whatever it holds |
| Acceptances.AcceptKeeps | pkg/filesystem/fuse_directory.go:4316-4461 | an accepted announce keeps the common prefix on disk, zeros where the loser was moved away; an ADD that ties at the same size keeps the bitmap, or takes the sidecar without a conflict, and reads remote exactly when a chunk is missing or it did before |
| Acceptances.StaleOnlyOnTie | pkg/filesystem/fuse_directory.go:4249-4259 | an accepted ADD leaves stale bytes only as a tie with an own write of the same size over a copy with a bitmap or a sidecar |
| Acceptances.TieShowsZeros | pkg/filesystem/fuse_directory.go:4323-4340 | a concurrent tie with our own write, lost by rank, over a complete copy of the same size: every byte reads as zero |
| Acceptances.TieExists | pkg/filesystem/fuse_directory.go:4252-4263 | a file and an ADD that meet the conditions of that tie |
| Acceptances.LocalCopy.PreserveLoser | pkg/filesystem/fuse_directory.go:4316-4342 | the disk after the loser was moved or copied aside and the path cut to the new size |
| Acceptances.LocalCopy.Reset | pkg/filesystem/fuse_directory.go:4413-4430 | a fresh bitmap of the announced size, nothing present, reads remote |
| Acceptances.LocalCopy.AttachBitmap | pkg/filesystem/fuse_directory.go:4440-4460 | a copy without a bitmap takes its sidecar or an empty one, and is synced exactly when that is complete |
| Acceptances.LocalCopy.AcceptAdd | pkg/filesystem/fuse_directory.go:4316-4461 | the copy becomes what the four branches of an accepted ADD make of it |
| Acceptances.LocalCopy.AcceptEdit | pkg/filesystem/fuse_directory.go:4893-4935 | the copy starts over at the announced size |
| WarmBatches.CollectWarmCandidates | pkg/filesystem/warm_siblings.go:109-171 | exactly the claimable candidates from the first on until 512 files or 4 MiB; the bytes pass the budget by less than one small file |
| WarmBatches.WholeIsFile | pkg/filesystem/warm_siblings.go:258-272 | a frame is taken for the whole file only when its bytes are all of a file of the claimed size, and any frame without an error that carries such a file from its start to its end is |
| WarmBatches.WarmBatch.Finish | pkg/filesystem/warm_siblings.go:44-71 | a claim settles once; a second call changes nothing |
| WarmBatches.WarmBatch.WarmSiblings | pkg/filesystem/warm_siblings.go:173-272 | wherever the reply ends, every claim is settled exactly once, without an error exactly when the first frame naming it has no error code, offset zero, the last mark, both sizes equal to the claimed one, and landed |
| ChunkLedgers.RecordsPartitionChunks | pkg/filesystem/chunk_ledger.go:46-51 | records partition the bitmap chunks eight to one and the two ceiling divisions agree |
| ChunkLedgers.TouchesByBytes | pkg/filesystem/chunk_ledger.go:97-112 | the records of a byte range are exactly those some byte of it lies in |
| ChunkLedgers.ExchangeConverges | pkg/filesystem/chunk_ledger.go:196-242 | for equal lengths and opposite tie flags one simultaneous exchange makes every hash equal and the second difference empty on both sides |
| ChunkLedgers.ConflictsAreComplete | pkg/filesystem/chunk_ledger.go:196-229 | a dirty record whose bytes are replaced is listed as a conflict exactly when the winner did not start from its hash |
| ChunkLedgers.NewestWins | pkg/filesystem/chunk_ledger.go:196-242 | after any list of received ledgers each chunk is at the newest version offered |
| ChunkLedgers.ReceivedRecord | pkg/filesystem/chunk_ledger.go:196-242 | a received record is taken, without its bytes and with nothing pending, exactly when its hash differs and its stamp is newer or wins the tie; every other stays as it was |
| ChunkLedgers.DeliveryOrderIrrelevant | pkg/filesystem/chunk_ledger.go:196-242 | when stamps name versions, the same ledgers in any order and multiplicity, under any tie flags, leave the same versions |
| ChunkLedgers.SwapSendsDelta | pkg/filesystem/chunk_ledger.go:157-189 | a peer that agrees with us fetches exactly the changed list with no conflict, if and only if no record past our end has hash zero |
| ChunkLedgers.SwapAgain | pkg/filesystem/chunk_ledger.go:157-189 | swapping the same temp again changes exactly the changed records it does not hold; with a fully present temp nothing changes |
| ChunkLedgers.SwappedRecord | pkg/filesystem/chunk_ledger.go:157-189 | a swapped record keeps what the target holds or takes the bytes of the temp as a change from the version the target had |
| ChunkLedgers.AllPresentIffComplete | pkg/filesystem/chunk_ledger.go:301-351 | all records have an identity exactly when no chunk is missing or without fingerprint |
| ChunkLedgers.PrintBytesInjective | pkg/filesystem/chunk_ledger.go:326-351 | equal identity input means equal fingerprints, chunk by chunk |
| ChunkLedgers.PrintBytesInOrder | pkg/filesystem/chunk_ledger.go:326-351 | the fingerprints stand in the identity input in chunk order, eight bytes each |
| ChunkLedgers.BaseOfFirstWrite | pkg/filesystem/chunk_ledger.go:117-131 | over any run of writes, landings, syncs and settlements from a clean record, it is dirty from the first write that touches it on, its base stays the identity and the version held right before that write, and its stamp is the newest it was settled with since, 0 before |
| ChunkLedgers.DirtyKeepsBase | pkg/filesystem/chunk_ledger.go:117-150 | over any such run a dirty record keeps its base and author, and its stamp never falls |
| ChunkLedgers.SyncedRecord | pkg/filesystem/chunk_ledger.go:297-325 | field by field what a sync makes of a clean and of a dirty record, with and without an identity |
| ChunkLedgers.SettledRecord | pkg/filesystem/chunk_ledger.go:133-150 | field by field what settling makes of a record |
| ChunkLedgers.MinBaseIsMinimum | pkg/filesystem/chunk_ledger.go:266-282 | the announced base is the smallest base among the dirty records and exists exactly when one is dirty |
| ChunkLedgers.MaxDirtyIsMaximum | pkg/filesystem/chunk_ledger.go:284-295 | the newest dirty stamp, zero without a positive one |
| ChunkLedgers.ChunkLedger.RecordRange | pkg/filesystem/chunk_ledger.go:95-112 | exactly the records of the ledger the byte range touches |
| ChunkLedgers.ChunkLedger.MarkWritten | pkg/filesystem/chunk_ledger.go:114-131 | one record becomes dirty, with its base only on the first write; nothing outside the ledger changes |
| ChunkLedgers.ChunkLedger.Settle | pkg/filesystem/chunk_ledger.go:133-150 | a dirty record takes hash and stamp; a zero hash and an older stamp are ignored |
| ChunkLedgers.ChunkLedger.SettleSwap | pkg/filesystem/chunk_ledger.go:152-189 | the ledger becomes the swapped ledger at the length of the temp and returns exactly the changed list |
| ChunkLedgers.ChunkLedger.Diff | pkg/filesystem/chunk_ledger.go:214-229 | the two lists are exactly the accepted and the conflicting indices, ascending |
| ChunkLedgers.ChunkLedger.Apply | pkg/filesystem/chunk_ledger.go:231-242 | an accepted record is adopted without its bytes; past the end nothing happens |
| ChunkLedgers.ChunkLedger.Clean | pkg/filesystem/chunk_ledger.go:244-252 | every dirty bit is cleared and nothing else changes |
| ChunkLedgers.ChunkLedger.AnyDirty | pkg/filesystem/chunk_ledger.go:254-264 | true exactly when some record is dirty |
| ChunkLedgers.ChunkLedger.DirtyBase | pkg/filesystem/chunk_ledger.go:266-282 | returns the minimum that MinBaseIsMinimum characterises |
| ChunkLedgers.ChunkLedger.MaxDirtyStamp | pkg/filesystem/chunk_ledger.go:284-295 | returns the maximum that MaxDirtyIsMaximum characterises |
| ChunkLedgers.ChunkLedger.SettleDirty | pkg/filesystem/chunk_ledger.go:407-418 | every dirty record is raised to the stamp, none lowered |
| ChunkLedgers.ChunkLedger.RecordIdentity | pkg/filesystem/chunk_ledger.go:326-351 | the hash of the fingerprints of the record, unknown exactly when one is |
| ChunkLedgers.ChunkLedger.SyncFromBitmap | pkg/filesystem/chunk_ledger.go:297-325 | presence and identity follow the bitmap in every record; a clean record becomes the held version when its bytes are known and keeps its stamp while they are missing; dirty records keep stamp, base and dirty bit |
| ChunkLedgers.ChunkLedger.BasesFor | pkg/filesystem/chunk_ledger.go:383-396 | exactly the clean records the write touches, each with its present identity or zero |
| ChunkLedgers.ChunkLedger.MarkRange | pkg/filesystem/chunk_ledger.go:398-405 | exactly the touched records become dirty, with the captured bases |
| ChunkLedgers.ChunkLedger.NoteWrite | pkg/filesystem/fuse_directory.go:2476-2519 | capturing bases for the buffer and marking what the short write touched is the write step of a session |
| Sidecars.RecordRoundTrip | pkg/filesystem/chunk_ledger.go:353-381 | a record survives encoding, signed stamps and both flags included |
| Sidecars.RoundTrip | pkg/filesystem/download.go:396-437 | a version 2 sidecar loads back to every bit, the counter, the fingerprints, both stamps and every record, if and only if the chunk count fits 32 bits |
| Sidecars.RoundTripV1 | pkg/filesystem/download.go:338-353 | a version 1 sidecar loads back to the bitmap without fingerprints, if and only if the chunk count fits 32 bits |
| Sidecars.SidecarLayout | pkg/filesystem/download.go:396-437 | every field of a version 2 sidecar at its byte: header, bit words, fingerprints, stamps, record count, and each record |
| Sidecars.PrefixStable | pkg/filesystem/download.go:461-552 | for any bytes, a prefix that loads holds everything the loader read, and the longer file loads the same |
| Sidecars.TruncatedNeverLoads | pkg/filesystem/download.go:461-552 | every strict prefix of a saved file, either version, is an error |
| Sidecars.Save | pkg/filesystem/download.go:338-353 | writes the version 1 file |
| Sidecars.SaveSidecar | pkg/filesystem/download.go:396-437 | writes the version 2 file; without metadata zeros and no records |
| Sidecars.LoadSidecar | pkg/filesystem/download.go:461-552 | the loader with its moving position computes the decoder that the round trip and truncation lemmas are about |
| Restarts.RestartKeepsEdit | pkg/filesystem/sidecar.go:105-210 | save, load and restore bring back the bitmap and every synced record and the pending edit: the file is the one before the restart but for the watermark, the last announce and a stamp raised to the newest of disk and records; its stamp is kept exactly when that newest is it |
| Restarts.RestartRestores | pkg/filesystem/sidecar.go:184-210 | every saved sidecar, with or without a ledger or a dirty record, loads and raises held stamp and watermark to the saved one; without a pending edit nothing else changes, with one the file is local-newer with the saved base, -1 for none over a known version, at the newest stamp of its records |
| Restarts.CleanRestartKeepsVersion | pkg/filesystem/sidecar.go:188-197 | after the restart of a clean copy the peer announce of the saved version is not accepted, whoever wins ties, and the next session declares that version as its base |
| Restarts.ReannounceResetsNothing | pkg/filesystem/fuse_directory.go:4243-4311 | the re-announce of the held version is not accepted and resets nothing, ADD or EDIT, either rank, if and only if the restored stamp is above it |
| Restarts.SettledAboveHeld | pkg/filesystem/fuse_directory.go:1491-1501 | settling at release puts the newest dirty stamp at least at the announced identity |
| Restarts.ResizedEditIsForgotten | pkg/filesystem/sidecar.go:148-158 | a copy whose length changed no longer matches its sidecar, so its edit is not restored |
| Restarts.SyncKeepsEdit | pkg/filesystem/sidecar.go:64-66 | the sync before a save keeps which records are dirty, their stamps and bases |
| Restarts.SnapshotWellFormed | pkg/filesystem/download.go:396-414 | every valid bitmap is one the round trip applies to |
| Restarts.FlushSidecar | pkg/filesystem/sidecar.go:47-69 | the saved file is the encoding of the synced ledger, with the edit base exactly when a record is dirty |
| Restarts.RestoreSidecarMeta | pkg/filesystem/sidecar.go:184-210 | raises held stamp and watermark from every sidecar, with or without an edit; restores the edit, its base and its newest stamp exactly when a record is dirty, and otherwise changes nothing else |
| Restarts.AdoptSidecarInto | pkg/filesystem/sidecar.go:148-173 | adopts exactly a sidecar that loads for the size on disk, and then the file has at least the held stamp it was saved with and is local-newer exactly when an edit came back; otherwise nothing changes |
| VersionProtocols.NoSilentLoss | pkg/filesystem/fuse_directory.go:4239-4263 | over any run of two peers under the clock condition, whatever times the releases find on disk, at quiescence every version either wrote is the shared current one, or in a conflict sibling, or under a later own version or the later name of its own release, or replaced by a version whose base is at least its stamp and whose author had its bytes, save under an announce whose author put the same stamp on something else, claims to hold the version, or declared a swapped-over draft |
| VersionProtocols.OwnerIsShown | pkg/filesystem/fuse_directory.go:4243-4310 | at quiescence at most one peer holds the file as its own and the other shows its version by the name its release carried |
| VersionProtocols.Converges | pkg/filesystem/fuse_directory.go:4243-4310 | at quiescence, when no release found a disk time above the identity, both peers hold the same stamp and at most one as its own, exactly one unless the stamp is one a release echoed |
| VersionProtocols.RunsConverge | pkg/filesystem/fuse_directory.go:4243-4310 | the same for every run from two peers without the file under the clock condition with releases in bounds |
| VersionProtocols.RunKeepsInv | pkg/filesystem/fuse_directory.go:4239-4311 | the invariant tying base, held, announced, dirty, watermark, the copy and the messages in flight holds in every state of every run under the clock condition on edits, deferred and late releases included |
| VersionProtocols.RunKeepsAligned | pkg/filesystem/fuse_directory.go:2036-2041 | along runs whose releases find no disk time above the identity no stamp is sent above it |
| VersionProtocols.AcceptedBaseIsHonest | pkg/filesystem/fuse_directory.go:4260-4263 | an announce accepted without conflict declares a base at least the replaced stamp, and its author had the bytes of that version, or put the same stamp on something else, or claims the version, or declared a swapped-over draft |
| VersionProtocols.LocalKeepsChannel | pkg/filesystem/fuse_directory.go:2021-2052 | every message sent carries an own stamp or one of a release of a file no longer own, not above what the file shows, and declares a base announced before, fetched, claimed, or a swapped-over draft |
| VersionProtocols.IdentityNeverDecreases | pkg/filesystem/fuse_directory.go:4243-4260 | over any run under the clock condition the identity of the file never decreases on either peer |
| VersionProtocols.ReleaseClaims | pkg/filesystem/fuse_directory.go:1489-1513 | a release makes its peer claim a version without its bytes exactly when the peer took the file over, chunks of it are missing, the truncate to zero is still in force and the version is not held |
| VersionProtocols.FetchClaims | pkg/filesystem/fuse_directory.go:2598-2626 | the end of a fetch does exactly when the watermark has moved past the version it began under and that is not held |
| VersionProtocols.OnlyEditLeavesZeroed | pkg/filesystem/fuse_directory.go:4276-4282 | a file given up with the truncate to zero in force was given up to an EDIT |
| VersionProtocols.WholeIsSeen | pkg/filesystem/fuse_directory.go:1489-1513 | a file given up to the peer whose copy is whole holds the peer version, unless both wrote its stamp: waiting for the fill claims nothing |
| VersionProtocols.CrossingEditsOneWinner | pkg/filesystem/fuse_directory.go:4252-4259 | two crossing edits, equal stamps included, are accepted by exactly one side |
| VersionProtocols.AcceptedExactly | pkg/filesystem/fuse_directory.go:4243-4263 | an ADD is accepted when it is newer than the watermark (the stat before there is one) and than a local change, or ties with one and wins; an EDIT when it is older than neither and wins a tie over a local change; a conflict is an accepted one whose base is older than either |
| VersionProtocols.JudgedExactly | pkg/filesystem/fuse_directory.go:4276-4311 | the judgement touches neither held and announced stamp nor base and session; what it does to watermark, stat and LocalNewer by acceptance, kind and local change |
| VersionProtocols.AcceptedOverUnseen | pkg/filesystem/fuse_directory.go:4260-4263 | an accepted announce loses a version its author has no byte of exactly when its base covers the stamp in memory |
| VersionProtocols.SwapOverDraft | pkg/filesystem/fuse_directory.go:3730-3755 | a swap-save over an own draft, accepted by the peer, loses the peer version we never fetched exactly when the stamp that has in memory is not above the draft |
| VersionProtocols.SaveOverUnseen | pkg/filesystem/fuse_directory.go:2453-2463 | a save in a new session, delivered, loses the peer version we never fetched exactly when our last announced or held stamp is the stamp or the name of that version |
| VersionProtocols.TruncateOverUnseen | pkg/filesystem/fuse_directory.go:2195-2221 | so does a bare truncate, which is announced at once |
| VersionProtocols.SwapOverUnseen | pkg/filesystem/fuse_directory.go:3730-3755 | so does a swap-save over a file that is not our own |
| VersionProtocols.SessionKeepsBase | pkg/filesystem/fuse_directory.go:2454-2466 | over any run, at any clock, a file that is dirty stays so with the same base while its peer neither announces nor swaps another file onto it, whatever it writes, truncates, fetches or receives |
| VersionProtocols.SessionDeclaresFirstBase | pkg/filesystem/fuse_directory.go:2021-2045 | over any run the announce that closes a session, and every truncate inside it, declares the larger of held and announced stamp right before its first write, -1 when both are 0 |
| VersionProtocols.BareTruncateDeclaresBase | pkg/filesystem/fuse_directory.go:2195-2205 | a truncate outside a session declares the larger of held and announced stamp of that moment, -1 when both are 0 |
| VersionProtocols.ReleaseConverges | pkg/filesystem/fuse_directory.go:1480-1590 | after a release and its delivery with nothing else open, and releases in bounds before, the stamps agree exactly when the disk time was not above the released identity |
| VersionProtocols.EchoedReleaseOwner | pkg/filesystem/fuse_directory.go:1480-1590 | after the release of a file the peer took over, the peer still owns it exactly when it did and its rank wins ties; otherwise neither does |
| VersionProtocols.SwapCovers | pkg/filesystem/fuse_directory.go:3730-3790 | a swap stamp exceeds a given stamp on all clocks exactly when watermark, last announce or the own draft still covers it |
| VersionProtocols.SeenFallsExactly | pkg/filesystem/fuse_directory.go:3730-3755 | the newest stamp a swap takes into account falls at a local step exactly when an edit or a release is stamped behind what the file remembers |
| VersionProtocols.WatermarkCovers | pkg/filesystem/fuse_directory.go:4283-4289 | on any run and any clock the watermark, so every later swap stamp, covers every ADD and every accepted EDIT |
| VersionProtocols.SwapSeenCovers | pkg/filesystem/fuse_directory.go:3730-3790 | a swap stamp is above everything its author received or sent, rejected EDITs included, on every run in which no own edit or release is stamped behind |
| VersionProtocols.SwapIsFresh | pkg/filesystem/fuse_directory.go:3774-3790 | under the clock condition a swap-save stamp is above everything its author has seen or sent |
| VersionProtocols.ClockBackForgets | pkg/filesystem/fuse_directory.go:4836-4839 | a run in which a clock step back leaves a swap-save stamped below a rejected EDIT it received |
| VersionProtocols.TieLosesVersion | pkg/filesystem/fuse_directory.go:4252-4263 | a run in which a tied stamp hides a conflict and a version is lost |
| VersionProtocols.SwapOverDraftLosesVersion | pkg/filesystem/fuse_directory.go:3730-3755 | a run under the clock condition, to quiescence, in which a swap-save over an unannounced edit loses the peer version |
| VersionProtocols.EchoedReleaseDiverges | pkg/filesystem/fuse_directory.go:4735-4757 | a run to quiescence in which the release of an edit the peer took over, announced after the fill, leaves the peers at different stamps |
| VersionProtocols.EchoLosesVersion | pkg/filesystem/fuse_directory.go:4893-4901 | a run under the clock condition in which an EDIT takes over a session truncated to zero, its release does not wait for the fill, and the next save loses the version |
| VersionProtocols.LateFetchLosesVersion | pkg/filesystem/fuse_directory.go:2617-2626 | a run under the clock condition in which a fetch ends after a newer version was accepted, notes that as held, and a truncate loses it |
| VersionProtocols.TrackedFile.Create | pkg/filesystem/fuse_directory.go:395-410 | a new file opens a session with base -1; ties the fields to the step function |
| VersionProtocols.TrackedFile.Write | pkg/filesystem/fuse_directory.go:2450-2500 | the first write of a session captures the base, every later one leaves it; a write that stores nothing opens the session and leaves the stamp |
| VersionProtocols.TrackedFile.Release | pkg/filesystem/fuse_directory.go:1480-1513 | what the last close decides: announce now, or after the fill exactly when chunks are missing and the file was not truncated to zero |
| VersionProtocols.TrackedFile.AnnounceLocalEdit | pkg/filesystem/fuse_directory.go:2021-2052 | the announce carries the session base and the later of the disk time and the stamp in memory, which becomes the announced stamp and raises the held one; it ends the session and changes nothing else |
| VersionProtocols.TrackedFile.Truncate | pkg/filesystem/fuse_directory.go:2160-2221 | a truncate that changes the size claims authority and announces with the session base or a fresh one, one that does not announces nothing, and one to zero sets its flag |
| VersionProtocols.TrackedFile.AddRemoteFile | pkg/filesystem/fuse_directory.go:4220-4347 | acceptance, sibling and every version field after an ADD on all branches; a conflict that cannot be preserved leaves the version fields; both flags of a local rewrite fall on acceptance, even then |
| VersionProtocols.TrackedFile.EditRemoteFile | pkg/filesystem/fuse_directory.go:4818-4903 | acceptance, sibling and every version field after an EDIT; a rejected EDIT and a conflict that cannot be preserved change nothing, and the two flags stay in every case |
| VersionProtocols.TrackedFile.NoteHeld | pkg/filesystem/fuse_directory.go:2617-2626 | landed bytes raise the held stamp to the watermark; ties the field to the step function |
| VersionProtocols.TrackedFile.SwapStamps | pkg/filesystem/fuse_directory.go:3716-3755 | the base and the newest seen stamp of a swap-save target |
| VersionProtocols.TrackedFile.StampRenamed | pkg/filesystem/fuse_directory.go:3757-3790 | the stamp is above both clocks and everything seen |
| VersionProtocols.TrackedFile.SwapOnto | pkg/filesystem/fuse_directory.go:1808-1906 | for any source and target, the moved object keeps its flags, takes the fresh stamp above everything seen and, when the target is the peer file and it is not, the watermark; the message has the swap base |
| ReadAheads.ReadAheadFrontier | pkg/filesystem/fuse_directory.go:2987-3075 | over any run the refills of a stream are ascending and disjoint, within the window past the high-water mark, none before half a block was consumed since the last seek, at most one running |
| ReadAheads.RefillsExactly | pkg/filesystem/fuse_directory.go:2987-3075 | over any run, a read far from the head begins a new stream and starts nothing; one near it starts a refill exactly when half a block was consumed since the seek, none runs and the refills reach at most half the window past the head (one block before the first), and that refill goes on from there up to the window past the head |
| ReadAheads.StreamKeptAhead | pkg/filesystem/fuse_directory.go:3040-3062 | after every read of a stream that has consumed half a block a refill runs or the lead exceeds half the window |
| ReadAheads.AfterKeepsGood | pkg/filesystem/fuse_directory.go:2987-3075 | one read or the end of a refill keeps the frontier invariant |
| ReadAheads.WindowOfOneRefillsNothing | pkg/filesystem/fuse_directory.go:3040-3072 | with a window of one block a refill can be empty |
| ReadAheads.ReadAhead.MaybeReadAhead | pkg/filesystem/fuse_directory.go:2987-3075 | the detector computes the step function that the run lemmas are about |
| ReadAheads.ReadAhead.RefillDone | pkg/filesystem/fuse_directory.go:2660-2666 | the end of a refill frees the one slot and changes nothing else |
| DirMoves.UndoRestores | pkg/filesystem/fuse_directory.go:4026-4066 | when nothing is tracked at or under the target and neither path contains the other, move and undo restore a map exactly |
| DirMoves.NothingLost | pkg/filesystem/fuse_directory.go:3894-3951 | the keys before and after a move correspond one to one |
| DirMoves.OccupiedTargetLoses | pkg/filesystem/fuse_directory.go:3914-3920 | a move loses an entry exactly when some entry of the directory has its target already tracked |
| DirMoves.StoredAfter | pkg/filesystem/fuse_directory.go:3894-3951 | after the move every object stands at its stored path |
| DirMoves.RekeyMap | pkg/filesystem/fuse_directory.go:3899-3921 | one re-keying loop moves exactly the entries below the directory and their stored paths |
| DirMoves.DirTree.RekeyChildren | pkg/filesystem/fuse_directory.go:3894-3951 | the three loops move exactly the entries below the directory, also when file and remote map share objects |
| DirMoves.DirTree.RenameDir | pkg/filesystem/fuse_directory.go:1808-1842 | the file, remote and directory maps are the moved maps and every object stands at its stored path |
| DirMoves.DirTree.UndoLocalDirMove | pkg/filesystem/fuse_directory.go:4026-4066 | the three maps are moved back and every object stands at its stored path |
| Nonces.NoncesDistinct | pkg/crypto/symmetric.go:57-78 | over any run with rising epochs, up to the first overflow, no nonce repeats |
| Nonces.EpochHolds | pkg/crypto/symmetric.go:57-84 | after SetEpoch exactly 2^48 - 1 calls succeed under that epoch and the next fails |
| Nonces.DirectionsDisjoint | pkg/crypto/symmetric.go:44-49 | generators with different prefixes never share a nonce |
| Nonces.NonceStartsWithSalt | pkg/crypto/ratchet.go:24-29 | the first six nonce bytes are the ratchet salt of prefix and epoch |
| Nonces.NonceReadsBack | pkg/crypto/symmetric.go:63-78 | a nonce is the prefix and the state, most significant byte first |
| Nonces.OverflowCarries | pkg/crypto/symmetric.go:63-72 | after the overflow error the state stands in the next epoch |
| Nonces.NonceGenerator.Next | pkg/crypto/symmetric.go:63-78 | the next state of the same epoch as a nonce, or the error at the wrap |
| Nonces.NonceGenerator.SetEpoch | pkg/crypto/symmetric.go:80-84 | the epoch is installed with counter zero |
| ChunkedCiphers.OpenedSealed | pkg/crypto/symmetric.go:207-276 | decrypting what encryption wrote gives the plaintext, for every length |
| ChunkedCiphers.SealedLength | pkg/crypto/symmetric.go:175-185 | the ciphertext is exactly as long as EncryptedSize says |
| ChunkedCiphers.SealedBlock | pkg/crypto/symmetric.go:207-241 | block k of the ciphertext is block k of the plaintext sealed with a nonce of its own |
| ChunkedCiphers.SizesInverse | pkg/crypto/symmetric.go:175-205 | DecryptedSize inverts EncryptedSize if and only if the plaintext is not empty |
| ChunkedCiphers.EncryptChunked | pkg/crypto/symmetric.go:207-241 | writes the sealed chunks of the first plainSize bytes; a shorter stream is an error unless it ends on a block boundary, which is silent |
| ChunkedCiphers.DecryptChunked | pkg/crypto/symmetric.go:243-276 | writes the opened chunks, or fails exactly when a chunk does not open or is cut short |
| MdnsPackets.NameRoundTrip | pkg/discovery/mdns_packet.go:88-160 | a name of labels of 1 to 63 bytes decodes to itself from wherever it was written |
| MdnsPackets.NameSurvivesExactly | pkg/discovery/mdns_packet.go:88-160 | a fully qualified name decodes to itself and to its end if and only if each of its labels has 1 to 63 bytes |
| MdnsPackets.NameDecodes | pkg/discovery/mdns_packet.go:94-103 | a name without empty labels decodes to its labels, each cut at 63 bytes |
| MdnsPackets.NameLayout | pkg/discovery/mdns_packet.go:88-104 | a name of two labels, and the root, byte by byte |
| MdnsPackets.ChainDecodes | pkg/discovery/mdns_packet.go:106-160 | runs of labels chained by up to ten pointers, of which the first points before the name, decode to the labels of all runs in order, and reading goes on after the first pointer |
| MdnsPackets.DecodedIsChain | pkg/discovery/mdns_packet.go:106-160 | on any bytes, whatever decodes is such a chain of runs, with that name and that end |
| MdnsPackets.CompressedName | pkg/discovery/mdns_packet.go:136-150 | labels followed by the two bytes of a pointer to a name written before them decode to the first labels and then those, ending after the two bytes, for every 14-bit target |
| MdnsPackets.DecodeAdvances | pkg/discovery/mdns_packet.go:106-160 | on any bytes the decoder ends in bounds and past where it started |
| MdnsPackets.FirstPointerGoesBack | pkg/discovery/mdns_packet.go:136-150 | a name that starts with a pointer decodes only when it points back, and reading resumes after the two bytes |
| MdnsPackets.HeaderLayout | pkg/discovery/mdns_packet.go:40-47 | the header is six big-endian fields of two bytes |
| MdnsPackets.QuestionLayout | pkg/discovery/mdns_packet.go:169-173 | a question on the wire is its name, type and class, big-endian |
| MdnsPackets.RecordLayout | pkg/discovery/mdns_packet.go:175-184 | a record on the wire is its name, type, class, four bytes of time to live, two bytes of length and its data |
| MdnsPackets.MessageRoundTrip | pkg/discovery/mdns_packet.go:162-289 | parsing a marshalled message returns its header, questions and records, for well-formed names that fit the counts and a zero authority count |
| MdnsPackets.ParsedFits | pkg/discovery/mdns_packet.go:192-289 | what parses from any bytes holds no more questions and records than its length allows and exactly as many as its counts |
| MdnsPackets.RecordMeaning | pkg/discovery/mdns_packet.go:228-272 | what a parsed record reads out of its data, by type and length: the pointer name, port and target, or address, and nothing else; names there may point into the whole message |
| MdnsPackets.ServiceResponseParses | pkg/discovery/mdns_packet.go:298-328 | a built service response parses back to instance name, port, target and address |
| MdnsPackets.DnsNameEncode | pkg/discovery/mdns_packet.go:88-104 | the label loop writes the encoding of the name |
| MdnsPackets.DnsNameDecode | pkg/discovery/mdns_packet.go:106-160 | the loop computes the decoder, in bounds and past its start, ending by jumps left and bytes left |
| MdnsPackets.DnsMessageMarshal | pkg/discovery/mdns_packet.go:162-190 | the loops write the marshalled message |
| MdnsPackets.ParseOneRecord | pkg/discovery/mdns_packet.go:228-272 | one record with what its type says to read out of its data |
| MdnsPackets.DnsMessageParse | pkg/discovery/mdns_packet.go:192-289 | the loops compute the parser |
| MdnsPackets.BuildServiceResponse | pkg/discovery/mdns_packet.go:298-319 | marshals the three records, or refuses an address that is not IPv4 |

## Left out

- Kernel file systems, handles, stat and xattr calls, Windows rename fallbacks, kernel cache invalidation: the disk is a byte sequence per file.
- Stream pools, timeouts, retries: a fetch returns its exact range or fails. The disk-space guard and the cancelling of a refill by a seek are where PrefetchRange is told to stop.
- Liveness of goroutines and timers: what is proved is safety, and that every exit settles its fetch.
- Read: takes the size of the bitmap as the size of the remote file, so a read after the app extended the file past the peer's size is not modelled.
- ReadMissing: takes the same size for both, like Read.
- ServeUncovered: takes the same size for both, like Read.
- Pread: takes the same size for both, like Read.
- FillForWrite: takes the same size for both, like Read, whose path it uses.
- Write: a second write after one that extended the file past the peer's size is not modelled; the ledger marks of a write are proved in ChunkLedger.dfy and its version fields in VersionProtocol.dfy, each on its own state.
- The cache writer that runs after a slice was served: it lands before the read returns, which changes no served byte.
- BeginFetchSpan: a fetch is a value in a list named by its number, not a heap object; aliasing of fetches is by that number.
- LandWarmFile: the pointer checks are what the guard says they found.
- CollectWarmCandidates: takes the candidates sorted and rotated, and who owns unit 0 as a flag; the registration itself is ClaimWarm.
- WarmSiblings: whether a whole frame lands is a flag of the frame, decided by LandWarmFile.
- DirTree: a tracked file or directory is a number with its stored path in a map; name and disk path are functions of that path. CrossingDirMove and the record of recent moves are not part of this model.
- ReconcileByPrints: app writes during the background job are not interleaved with it, only landings; the peer's answers arrive as one map or not at all.
- ReconcileBitmap: takes the default chunk size of 512 KiB, as do FlushSidecar and SyncFromBitmap.
- AcceptAdd: file operations succeed, and reads of a copy that is not synced and has no bitmap are fetched.
- LoadSidecar: returns the fields of the bitmap and the ledger, not the objects.
- ChunkBitmap.Clear and ClearRange: nothing in the program calls them; Progress is a ratio for display.
- NoSilentLoss: leaves out Chmod's announce, a write that stores nothing, a truncate to the size the file has, a failed preserve of the loser, a copy that a reconcile alone makes whole, and files that existed before the program tracked them; a swap-save takes a released working copy.
- AddRemoteFile: a preserved loser is recorded as kept, its sibling file is not modelled.
- EditRemoteFile: a preserved loser is recorded as kept, its sibling file is not modelled.
- EncryptedSize: sizes are unbounded integers; wrap-around near 2^64 is not modelled.
- Cryptography proper (ML-KEM, X25519, HKDF, the AEAD itself): functions with length and inverse properties.
- MessageRoundTrip: names with an empty label or one longer than 63 bytes are outside its condition; NameSurvivesExactly shows that no other name is lost.
- Command line, MCP, mobile, Rust bridge, configuration, log rotation, discovery sockets: plumbing.
