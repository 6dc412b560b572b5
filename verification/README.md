# Verification of the block store and its companions

This project models the deduplicating block store of aether-vfs and three smaller protocols of the same
repository, and proves what they promise.

**The block store** keeps files as fixed-size blocks. A block is stored once, as a record in an append-only pack
file, and counted by reference; a file is a manifest of block ids in segments of 4096 slots. Writers, readers,
compaction and recovery work on one transactional index.

- `Base`, `Manifest`, `Codec`, `Rows`: integers, block arithmetic, record and row formats.
- `Ledger`: the index tables as one value (`Db`), the row operations, and the invariant `Inv`: a block's refcount is
  the number of manifest slots with its id, `dedup` and `blocks` are inverse maps, a pack's live bytes are a recount,
  ids in manifests were given out, and a cached slot's block has that slot's length.
- `Segments`, `Index`, `Files`: the tables as an object with segmented manifests, and `set_slots`, `resize`, `remove`
  proved against their flat meaning.
- `Meaning`, `Commits`, `Writes`, `WriteAll`, `PutFiles`, `PutRetry`, `LostHit`, `Healing`: an index means a map from file to
  length and partial block contents (`Contents`); each commit is proved to be the plain operation on that map.
- `System`, `Safety`, `Runs`, `Steps`, `WriterSteps`, `Reseal`, `StaleRun`: the whole store as a state machine, one step per index transaction or
  writer-lock section. The state holds the index, the last durable index, the pack files with their synced prefixes,
  the writer, every writer's appended records, compaction's copies, the retired queue and the running reads with their
  snapshots. A crash keeps the durable index and the synced bytes. A commit is stated on rows and hashes.
  Theorems range over all runs; the methods of `Steps` and `WriterSteps` run the code of commits, healing, moves,
  reads, recovery and the pack writer and end in its next state.
- `Scan`, `Compaction`, `CompactPack`, `Tracker`, `PackWriter`, `Recover`, `Ranges`, `Read`, `ReadBack`, `Verify`: the loops behind
  those steps, each proved against what the steps assume or the documentation promises.

**The GPU batch encoder** (`Gpu`, `GpuProof`, `GpuRuns`, `GpuFrames`, `GpuPanic`) is a protocol of lock-sized steps over a queue, batches in
flight, failing threads and requests. **The content-server pool** (`Cdn`, `CdnRuns`, `CdnShared`) is a timed state machine.
**Ranged archive reads** (`Seekable`, `SeekRange`, `SeekFile`, `Archive`, `Zip`, `ZipWritten`) are fast forms proved equal to simple ones,
and find in a written zip what was written.

## Hypotheses

- `CollisionFree`: no two blocks that are ever stored have the same hash. Hashes, checksums and decompression are
  functions of the environment (`Env`, `Zstd`); a frame decompresses to the block it was made from.
- A durable index commit makes all earlier commits durable; a crash goes back to the last one. A synced file keeps its
  synced bytes; a durable directory entry keeps its file; a deleted file does not come back.
- `CurrentLives` at registration (see below), and for commits of `put_files` the condition `GoodBatch`.
- The clock of the server pool does not run backwards; operations that read it before they take the lock may carry an
  earlier time. The GPU engine delivers batches in submission order,
  one at a time, and returns when all are delivered.
- While a pack is compacted, the records moved out of it go to a registered pack that is not retired and is another one.
- Integers do not wrap: `refcount` (32 bits), `offset + buf.len()` and `block_start + bs` (64 bits) stay in range.

## Where the code does not keep what it seems to promise

- `put_files` drops a file's old blocks before it looks up its new ones. A block found beforehand can be gone by then:
  replacing `xy` by `y` fails (`LostHit.LostDedupHit`). If the writer has appended `y`, the pack of that record was
  retired since and another thread has stored `xy` before the commit, it commits a block into the retired pack
  (`LostHit.StaleHit`; `StaleRun.StaleReached` is a run that gets there). `PutFiles.PutFiles` proves that the commit of
  a batch whose blocks were found or appended succeeds if and only if `FoundBatch` holds, and leaves no block in a
  retired pack if and only if `GoodBatch` does, both conditions on the store, the records and the batch before the commit. `write_chunk` needs no condition. A
  comment in its tests speaks of netting references; the code does not.
- Pack registration seals whatever pack is current, whatever its state. If the sync in `start_pack` fails, the sealed
  pack stays current, compaction can retire it, and the next registration seals it again: a writer can then commit a
  block into a pack whose file is deleted (`Reseal.ResealLosesBlock`). `Runs.ResealExact` gives the exact condition, and
  `Runs.SyncedStartsAreSafe` shows that it holds in every run in which that sync does not fail.
- A writer that gives up on a stalled GPU while another thread still holds one of its blocks can take its
  results before that thread settles the block, which then indexes an empty list. `GpuPanic.PanicExact` shows that this
  is possible if and only if some thread holds one of its blocks when it gives up; `GpuPanic.UncalmReached` reaches it.
- Locating a zip's directory from its tail misses an end record followed by enough padding (`Zip.TailCanMiss`);
  `Zip.TailIsEnough` gives the exact condition.
- The server pool promises one trial request per cooldown. If no host may take a request, `pick` falls back to the host
  that recovers first, which can be the one on trial (`CdnRuns.SecondRequest`); `CdnRuns.OneRequestPerTrial` gives the
  exact condition. Its wait can exceed the longest cooldown by the time it spent waiting for the lock.

## Model

| member | source | states |
|---|---|---|
| `Base.LittleEndianRoundTrip` | addons/crates/aether-block-store/src/codec.rs:37-67 | a `w`-byte little-endian integer reads back as itself |
| `Codec.HeaderRoundTrip` | addons/crates/aether-block-store/src/codec.rs:37-67 | every record header that fits its fields decodes to itself, whatever bytes follow it |
| `Codec.HeaderCanonical` | addons/crates/aether-block-store/src/codec.rs:50-67 | whatever decodes is the encoding of the header it decodes to: other magic, flags or reserved bytes are refused |
| `Codec.FrameRoundTrip` | addons/crates/aether-block-store/src/codec.rs:103-158 | a record built from a frame of a block decodes to the block, stored compressed or raw |
| `Codec.StoredSmallest` | addons/crates/aether-block-store/src/codec.rs:103-112 | a record holds the smaller of the frame and the raw block |
| `Codec.ReadIsChecked` | addons/crates/aether-block-store/src/read.rs:103-129 | whatever is read back lies in a record with the block's hash and lengths whose payload has its header's checksum |
| `Codec.AppendedReads` | addons/crates/aether-block-store/src/read.rs:103-129 | an encoded record lying at a location reads back as the block of its hash |
| `Codec.RecordStays` | addons/crates/aether-block-store/src/read.rs:103-129 | bytes appended after a record do not change what reading it gives |
| `Codec.RecordsAgree` | addons/crates/aether-block-store/src/read.rs:103-129 | two readable locations at one offset agree in length and hash |
| `Rows.EncodeSegment` | addons/crates/aether-block-store/src/manifest.rs:39-49 | the encoding loop writes the header of segment 0 and the ids in order |
| `Rows.SegmentRoundTrip` | addons/crates/aether-block-store/src/manifest.rs:39-73 | decoding an encoded segment gives back its ids, and its length for segment 0 |
| `Rows.LocRoundTrip` | addons/crates/aether-block-store/src/index.rs:47-67 | a block row survives its 40-byte encoding |
| `Rows.PackRoundTrip` | addons/crates/aether-block-store/src/index.rs:90-107 | a pack row survives its 9-byte encoding |
| `Manifest.BlocksTile` | addons/crates/aether-block-store/src/manifest.rs:12-37 | blocks are non-empty, full except the last, and together cover the file exactly |
| `Manifest.FitsExactly` | addons/crates/aether-block-store/src/manifest.rs:12-19 | a length is allowed exactly up to 0xFFFFFFFF full segments |
| `Manifest.OnlyLastCommonChanges` | addons/crates/aether-block-store/src/files.rs:93-101 | between two lengths of a file only the last common block can change length |
| `Index.Tables.AddLive` | addons/crates/aether-block-store/src/index.rs:394-402 | adds to a pack's live bytes; fails exactly for an unknown pack or an underflow, changing nothing |
| `Index.Tables.InsertBlock` | addons/crates/aether-block-store/src/index.rs:405-413 | a new id, a row with refcount 0, its dedup row and its bytes in the pack's total |
| `Index.Tables.Incref` | addons/crates/aether-block-store/src/index.rs:415-421 | one more reference; an unknown block is an error |
| `Index.Tables.Decref` | addons/crates/aether-block-store/src/index.rs:425-434 | one reference less; the last one removes the rows and bytes; a healed block is left alone |
| `Index.Tables.RemoveBlock` | addons/crates/aether-block-store/src/index.rs:437-443 | removes the row, its dedup row if it is its own, and its live bytes |
| `Index.Tables.Abort` | addons/crates/aether-block-store/src/index.rs:185-222 | a transaction that fails restores every table |
| `Ledger.IncrefKeeps` | addons/crates/aether-block-store/src/index.rs:415-421 | with one increment owed, the increment is paid and everything else stays in order |
| `Ledger.DecrefKeeps` | addons/crates/aether-block-store/src/index.rs:425-434 | with one decrement owed, the decrement never fails, is paid, and drops only unreferenced rows |
| `Ledger.InsertKeeps` | addons/crates/aether-block-store/src/index.rs:405-413 | inserting a genuine block under a new hash keeps ids, inverse maps, totals and accounts |
| `Ledger.RemoveKeeps` | addons/crates/aether-block-store/src/index.rs:437-443 | removing any row keeps ids, inverse maps and totals; the live byte count never underflows |
| `Ledger.RemoveOwnRow` | addons/crates/aether-block-store/src/index.rs:437-443 | whatever the tables hold, a removed block takes only its own dedup row with it |
| `Ledger.MoveKeeps` | addons/crates/aether-block-store/src/compact.rs:216-223 | repointing a block to another registered pack keeps the whole invariant |
| `Ledger.NoLiveNoBlocks` | addons/crates/aether-block-store/src/compact.rs:110-116 | a pack whose live byte count is zero has no block in it |
| `Ledger.RefsSplit` | addons/crates/aether-block-store/src/verify.rs:63-77 | references are counted file by file |
| `Files.SetSlots` | addons/crates/aether-block-store/src/files.rs:23-53 | across segments, replaces exactly the run of slots and returns what it held |
| `Files.Resize` | addons/crates/aether-block-store/src/files.rs:61-135 | for every old and new length the manifest becomes the flat resize, and exactly the dropped cached ids are returned |
| `Files.ResizeExisting` | addons/crates/aether-block-store/src/files.rs:75-135 | the same for an existing file, through the cut segment, new segments and removed segments |
| `Files.EditCut` | addons/crates/aether-block-store/src/files.rs:92-107 | clearing, draining and resizing the cut segment, and what is dropped from it |
| `Files.Remove` | addons/crates/aether-block-store/src/files.rs:150-168 | removes every segment and returns the cached ids of all of them |
| `Segments.ResizeConserves` | addons/crates/aether-block-store/src/files.rs:61-135 | kept slots and returned ids together are the old non-missing ids, with multiplicity |
| `Segments.ResizedRowsOk` | addons/crates/aether-block-store/src/files.rs:108-132 | after a resize exactly the segments of the new length exist, of the right sizes, the length in segment 0 |
| `Segments.ResizedRowsFlat` | addons/crates/aether-block-store/src/files.rs:108-132 | such segments, read flat, are the old slots resized: kept where the block is unchanged, missing elsewhere |
| `Segments.OneFileChanged` | addons/crates/aether-block-store/src/files.rs:23-168 | editing one file's segments changes that file's row only |
| `Commits.SetLen` | addons/crates/aether-block-store/src/store.rs:387-400 | refused exactly for a length that does not fit; else the file is the resized file, other files hold what they held, the invariant stays |
| `Commits.Delete` | addons/crates/aether-block-store/src/store.rs:403-413 | the file is gone, other files hold what they held; an unknown file is an error that changes nothing |
| `Commits.DecrefAll` | addons/crates/aether-block-store/src/store.rs:394-397 | paying a list of owed decrements never fails and settles the accounts |
| `Commits.Resolve` | addons/crates/aether-block-store/src/write.rs:248-255 | every hash gets the id of its block, stored or inserted, each content once |
| `Commits.ReplaceSlots` | addons/crates/aether-block-store/src/write.rs:248-266 | resolve, set slots, increment, decrement: the slots hold the given blocks, nothing else changes, the invariant stays |
| `Writes.ValidWrites` | addons/crates/aether-block-store/src/write.rs:16-31 | a write is accepted exactly if it is empty, ends at the file's end, or ends inside it after whole blocks |
| `Writes.ValidChunks` | addons/crates/aether-block-store/src/write.rs:192-200 | the chunks of an accepted write have the lengths of the blocks they replace |
| `Writes.MissingRecords` | addons/crates/aether-block-store/src/write.rs:234-246 | lists, in order, exactly the hashes that are neither stored nor appended in a pack that takes records |
| `Writes.WriteChunk` | addons/crates/aether-block-store/src/write.rs:227-268 | one commit of `write_chunk`: refused with the error of the check, sent back with exactly the lost records and nothing changed, or exactly the chunk written, every new row in a pack that takes records |
| `WriteAll.WriteChunkRetry` | addons/crates/aether-block-store/src/write.rs:202-278 | whatever other threads commit between the rounds: the chunk is written into the store the last round met; an error is an append that failed or a refusal by the store met, and changes nothing; if nothing it counts on goes away, the first round commits |
| `WriteAll.FindNew` | addons/crates/aether-block-store/src/write.rs:202-213 | each hash not stored yet is listed once |
| `WriteAll.AppendFinds` | addons/crates/aether-block-store/src/write.rs:281-297 | after appending, every hash was stored when looked for or has a record, and each record stems from a round of this writer |
| `WriteAll.RetrySought` | addons/crates/aether-block-store/src/write.rs:270-277 | after a retry every hash is stored now, has its record still, or is to be appended again |
| `WriteAll.WriteBlocks` | addons/crates/aether-block-store/src/write.rs:51-85 | commits the chunks in order, each against the store of its own later round, until all blocks are written or one fails; an I/O error is an append that failed or the automatic flush after the last commit, and a valid write is refused only if another thread changes the file's length |
| `WriteAll.LogWrites` | addons/crates/aether-block-store/src/write.rs:60-85 | if other threads leave the file alone, it then holds exactly the blocks written so far |
| `WriteAll.ChunksSplit` | addons/crates/aether-block-store/src/write.rs:63-66 | cutting data at a block boundary cuts its list of blocks |
| `PutFiles.PutFiles` | addons/crates/aether-block-store/src/write.rs:131-175 | commits exactly if every block was found beforehand and is found when its file's turn comes; it then leaves no block in a retired pack exactly if the batch is good |
| `PutFiles.PutFilesCommit` | addons/crates/aether-block-store/src/write.rs:135-175 | one round's commit: all of the batch with exactly its contents, or nothing, with the same two conditions; it is sent back with exactly the hashes that are neither stored nor recorded in a pack that takes records |
| `PutRetry.PutRounds` | addons/crates/aether-block-store/src/write.rs:120-182 | whatever other threads commit between the rounds: the batch is committed as one into the store the last round met; it fails only if an append does or the commit loses a block it had found; if nothing it counts on goes away, the first round decides, by `FoundBatch` |
| `PutRetry.PutAllFiles` | addons/crates/aether-block-store/src/write.rs:96-189 | the whole call: a batch that is not allowed is refused without change; an error after the commit is the flush's; every other error changes nothing |
| `PutFiles.PutFile` | addons/crates/aether-block-store/src/write.rs:150-173 | one file of the batch: resized, then every slot set; succeeds exactly if every block is cached after the resize or has a record in a registered pack |
| `PutFiles.CheckBatch` | addons/crates/aether-block-store/src/write.rs:99-111 | a batch is refused for a length that does not fit or an id listed twice |
| `PutFiles.StoredIff` | addons/crates/aether-block-store/src/write.rs:139-146 | a hash has a dedup row exactly if some file still caches its block |
| `LostHit.LostDedupHit` | addons/crates/aether-block-store/src/write.rs:139-160 | replacing `xy` by `y` fails though every block of it is stored beforehand |
| `LostHit.StaleHit` | addons/crates/aether-block-store/src/write.rs:139-160 | a writer has appended `y` to a pack that was retired since, and another thread has stored `xy` in the meantime: the batch that replaces `xy` by `y` commits and is not good, its block lies in the retired pack |
| `StaleRun.StaleReached` | addons/crates/aether-block-store/src/write.rs:120-175 | a run from a new store, without any failure, reaches that state |
| `Meaning.WrittenContents` | addons/crates/aether-block-store/src/write.rs:256-266 | slots set to blocks of given content make the file hold that content there |
| `Meaning.SizedContents` | addons/crates/aether-block-store/src/files.rs:61-135 | a resized manifest means the resized partial content |
| `Meaning.OnlyFileContents` | addons/crates/aether-block-store/src/write.rs:227-268 | whatever happens to one file's slots, other files mean the same despite shared blocks |
| `Meaning.EditsMean` | addons/crates/aether-block-store/src/write.rs:141-175 | the rows and hashes a transaction leaves have the meaning of its operation on the plain store, whatever blocks the files share |
| `Meaning.KeptTwice` | addons/crates/aether-block-store/src/write.rs:150-173 | edits of several files in one transaction keep every block that some slot still refers to |
| `Meaning.AcceptedNoneRetired` | addons/crates/aether-block-store/src/write.rs:234-246 | a transaction whose new rows lie in packs that take records puts no block into a retired pack |
| `Safety.CommitKeeps` | addons/crates/aether-block-store/src/write.rs:227-268 | a commit whose new rows lie in packs that take records keeps the whole invariant: every record of the index is in its file and none in a retired pack |
| `Safety.RegisterKeeps` | addons/crates/aether-block-store/src/store.rs:319-341 | registering a pack keeps the invariant if the current pack was not retired meanwhile |
| `Safety.StartKeeps` | addons/crates/aether-block-store/src/pack.rs:184-205 | starting a pack, its directory entry durable or not, keeps the invariant |
| `Safety.AbandonKeeps` | addons/crates/aether-block-store/src/pack.rs:175-181 | abandoning a pack with any partial write keeps every record where it was |
| `Safety.SyncedIsLasting` | addons/crates/aether-block-store/src/store.rs:255-269 | after the sync under the writer lock, every record of the index would survive a crash |
| `Safety.FlushCommitKeeps` | addons/crates/aether-block-store/src/store.rs:241-269 | a durable commit keeps the invariant |
| `Safety.RetireKeeps` | addons/crates/aether-block-store/src/compact.rs:108-120 | retiring a pack without live bytes keeps the invariant, in the index and durably |
| `Safety.MoveKeeps` | addons/crates/aether-block-store/src/compact.rs:198-229 | repointing blocks to their copies keeps every record readable, also when rows moved or went meanwhile |
| `Safety.CopiedReads` | addons/crates/aether-block-store/src/compact.rs:198-206 | a record copied byte by byte reads like the original |
| `Safety.HealBooks` | addons/crates/aether-block-store/src/read.rs:133-144 | a healed block leaves refcounts, dedup rows and totals in order |
| `Safety.SnapshotOk` | addons/crates/aether-block-store/src/read.rs:21-24 | a snapshot taken now has every record in its file and none in a pack queued for deletion |
| `Safety.DeleteReaders` | addons/crates/aether-block-store/src/compact.rs:232-260 | when every running read entered in or after a pack's generation, no snapshot has a block in the pack |
| `Safety.CrashKeeps` | addons/crates/aether-block-store/src/store.rs:468-544 | after a crash the durable index is in order and its records lie whole in the surviving bytes |
| `Safety.NoPackMissing` | addons/crates/aether-block-store/src/store.rs:497-503 | recovery never finds a pack with live bytes without its file |
| `Safety.RecoveryKeeps` | addons/crates/aether-block-store/src/store.rs:486-544 | recovery re-establishes the whole invariant |
| `Runs.StepKeeps` | addons/crates/aether-block-store/src/store.rs:241-346 | every step of writers, readers, compaction, crash and recovery keeps the invariant |
| `Runs.RunInv` | addons/crates/aether-block-store/src/store.rs:241-346 | the invariant holds at every point of every run |
| `Runs.CrashSafety` | addons/crates/aether-block-store/src/store.rs:468-544 | after a crash at any point: invariant, whole records, no deleted pack referenced, no pack missing |
| `Runs.RecoverySafety` | addons/crates/aether-block-store/src/store.rs:486-544 | recovery leaves contents alone; new pack ids exceed every row and file |
| `Runs.RecoveryFinishes` | addons/crates/aether-block-store/src/store.rs:468-544 | recovery can finish from every state a crash leaves, also a crash during recovery |
| `Runs.RetirementSafety` | addons/crates/aether-block-store/src/compact.rs:108-120 | once a pack is retired no block points into it ever after, whoever commits |
| `Runs.ReaderSafety` | addons/crates/aether-block-store/src/read.rs:21-24 | a running read's snapshot is in order and all its records are in their files |
| `Runs.DeletionSafety` | addons/crates/aether-block-store/src/compact.rs:232-260 | a file goes only when neither the index nor any running read has a block in it |
| `Runs.MoveInvisible` | addons/crates/aether-block-store/src/compact.rs:198-229 | compaction's commit changes no file's content |
| `Runs.HealForgets` | addons/crates/aether-block-store/src/read.rs:133-144 | healing keeps every file's length and turns blocks into missing ones at most |
| `Runs.StepMeaning` | addons/crates/aether-block-store/src/store.rs:241-346 | a commit, stated on rows and hashes, applies exactly its plain operation to the contents; healing only forgets blocks; every other step but a crash leaves contents alone; a crash goes back to the last durable commit |
| `Runs.DurableSince` | addons/crates/aether-block-store/src/store.rs:226-265 | from a durable commit on, the durable index is the index of some later moment |
| `Runs.FlushLasts` | addons/crates/aether-block-store/src/store.rs:226-265 | a crash after a flush leaves the contents of some moment since the flush, in every run, so no earlier write is lost |
| `Steps.CommitIsStep` | addons/crates/aether-block-store/src/store.rs:241-346 | a transaction from a writer's own records that edits the rows as its operation says is a step that keeps the store's invariant |
| `Steps.SetLenStep` | addons/crates/aether-block-store/src/store.rs:387-400 | running `set_len` on a reachable store is its commit step, or refused without change |
| `Steps.DeleteStep` | addons/crates/aether-block-store/src/store.rs:403-413 | running `delete` is its commit step, or refused without change |
| `Steps.WriteStep` | addons/crates/aether-block-store/src/write.rs:227-268 | running a commit of `write_chunk` is its step, or refused or sent back without change |
| `Steps.RetryIsStep` | addons/crates/aether-block-store/src/write.rs:213-278 | the committing round of a retrying writer is a step from the store that round met |
| `Steps.PutStep` | addons/crates/aether-block-store/src/write.rs:96-187 | a batch of `put_files` that commits is a step of the store if and only if it is good |
| `Steps.RecoverSteps` | addons/crates/aether-block-store/src/store.rs:468-544 | `recover` on what a crash left does not fail, and deletion steps and one recovery step lead to the state it sets up |
| `Steps.HealStep` | addons/crates/aether-block-store/src/read.rs:133-155 | running `heal` is its step, or changes nothing |
| `Steps.MoveStep` | addons/crates/aether-block-store/src/compact.rs:207-228 | committing the picked and copied records is the move step, changes no contents and repoints exactly the rows still in place |
| `Steps.EnterStep` | addons/crates/aether-block-store/src/tracker.rs:26-34 | entering the tracker is a read's first step, and the tracker goes on counting the store's readers |
| `Steps.SnapStep` | addons/crates/aether-block-store/src/read.rs:24 | taking the snapshot leaves the tracker in step with the store |
| `Steps.LeaveStep` | addons/crates/aether-block-store/src/tracker.rs:54-63 | leaving is a read's last step, with the same |
| `Steps.AdvanceStep` | addons/crates/aether-block-store/src/compact.rs:125-126 | advancing queues the retired pack under the new generation |
| `Steps.DeleteFileStep` | addons/crates/aether-block-store/src/compact.rs:237-241 | the tracker lets a queued pack's file go exactly when the store's deletion step may happen |
| `Runs.ResealExact` | addons/crates/aether-block-store/src/store.rs:319-341 | registration keeps retired packs retired if and only if the current pack is not one of them |
| `Runs.SyncedStartsAreSafe` | addons/crates/aether-block-store/src/pack.rs:184-205 | if the sync in `start_pack` never fails, every run is safe without any hypothesis |
| `Reseal.ResealLosesBlock` | addons/crates/aether-block-store/src/store.rs:319-341 | a run in which a failed sync leads to a committed block without a file |
| `Scan.ScanPack` | addons/crates/aether-block-store/src/compact.rs:66-100 | the scan loop finds the records up to the first torn place |
| `Scan.ScanExact` | addons/crates/aether-block-store/src/compact.rs:66-100 | whole records and a torn tail are scanned into exactly those records at their offsets |
| `Scan.PrefixIsTorn` | addons/crates/aether-block-store/src/compact.rs:77-86 | no proper prefix of a record passes for a record |
| `Compaction.PickScanned` | addons/crates/aether-block-store/src/compact.rs:132-156 | exactly the scanned records that are the current copy of a block are moved, or healed if unsound; no block twice |
| `Compaction.PickFromFile` | addons/crates/aether-block-store/src/compact.rs:66-156 | a batch of the scan: while every block of the pack can be read none is healed and each pick carries its whole record; every record moved has the checksum of its header, every current record without it is healed; no block twice |
| `Compaction.GoodIsSound` | addons/crates/aether-block-store/src/compact.rs:146-151 | a readable record is never healed by the scan, and its bytes are taken whole |
| `Compaction.PickByIndex` | addons/crates/aether-block-store/src/compact.rs:163-192 | every block of the pack in a range of ids is moved once, with its record's bytes and a good checksum, or healed if its record is unsound; none is healed while all can be read |
| `Compaction.MoveRecords` | addons/crates/aether-block-store/src/compact.rs:207-228 | for the copies of distinct picks, exactly the rows still at the place copied from are repointed; never fails |
| `Compaction.PickedDistinct` | addons/crates/aether-block-store/src/compact.rs:198-206 | the copies of what was picked are of distinct blocks |
| `Compaction.MoveIsStep` | addons/crates/aether-block-store/src/compact.rs:207-228 | that commit is the move step of the store |
| `Compaction.EvacuatedIsEmpty` | addons/crates/aether-block-store/src/compact.rs:101-116 | moving every block of a pack elsewhere leaves it without live bytes, so it can be retired |
| `CompactPack.Compact` | addons/crates/aether-block-store/src/compact.rs:66-129 | the whole call, whatever other threads commit in between: every transaction of it moves, heals or retires as it should; the pack ends retired and without a block, or sealed because another thread put a block into it after the scan; no block is healed while all can be read; if all lie where the scan finds records and no thread adds one, the scan leaves none and the index is not walked; it fails only without a file, if an append fails or if the pack's row is gone |
| `CompactPack.ScanMoves` | addons/crates/aether-block-store/src/compact.rs:66-100 | the scan in batches, each moved in a transaction of its own: afterwards no readable block that no other thread put there lies where the scan found a record |
| `CompactPack.MoveScanned` | addons/crates/aether-block-store/src/compact.rs:132-157 | one batch: bad records healed one by one, then the live ones moved; readable blocks at the places of its records have left the pack |
| `CompactPack.Evacuate` | addons/crates/aether-block-store/src/compact.rs:163-194 | unless another thread puts a block into the pack, none is left in it after the walk over the index |
| `CompactPack.ShiftTurn` | addons/crates/aether-block-store/src/compact.rs:198-228 | the transaction changes no contents, keeps the books and takes exactly the picked blocks out of the pack |
| `CompactPack.EndTurn` | addons/crates/aether-block-store/src/compact.rs:109-120 | the last transaction retires the pack if and only if no block lies in it |
| `CompactPack.EmptyIffNoLive` | addons/crates/aether-block-store/src/compact.rs:103-106 | a pack has no live bytes if and only if no block lies in it |
| `Healing.Heal` | addons/crates/aether-block-store/src/read.rs:133-155 | drops the block exactly if it is still at that place; ids are not reused; contents only lose blocks |
| `PackWriter.Writer.Put` | addons/crates/aether-block-store/src/pack.rs:208-231 | buffered writing keeps bytes in order, or fails after writing some |
| `PackWriter.Writer.FlushBuffer` | addons/crates/aether-block-store/src/pack.rs:235-243 | on success the file has every byte; on failure the pack is abandoned; both are steps of the store |
| `PackWriter.Writer.Sync` | addons/crates/aether-block-store/src/pack.rs:246-256 | on success the current pack is whole and synced; its id stays current either way; a failure is the store's step that abandons it |
| `PackWriter.Writer.Append` | addons/crates/aether-block-store/src/pack.rs:208-231 | a record's place is the end of all bytes before it |
| `PackWriter.Writer.StartPack` | addons/crates/aether-block-store/src/pack.rs:184-205 | the old pack is whole and synced, the new one empty; on failure nothing is active; each outcome is the store's step for it |
| `PackWriter.Writer.AppendRecords` | addons/crates/aether-block-store/src/store.rs:307-346 | on success every record is in its file at the place returned, for good; a record stands at a pack's start or ends within the pack size, and follows the one before it in the same pack exactly if it still fits; only the active pack gets bytes; whatever fails, the writer has made steps of the store and is in its state |
| `PackWriter.Writer.AppendNext` | addons/crates/aether-block-store/src/store.rs:313-344 | the next record goes right behind the last one if it fits there, else to the start of a new pack |
| `PackWriter.LaidBounded` | addons/crates/aether-block-store/src/pack.rs:167-172 | records laid out so end within the pack size, or stand alone at a pack's start |
| `PackWriter.Writer.NewPack` | addons/crates/aether-block-store/src/store.rs:316-339 | registration and start of a pack are steps of the store, whichever part fails; records placed before stay placed |
| `PackWriter.Writer.RegisterNext` | addons/crates/aether-block-store/src/store.rs:317-337 | the registration commit is its step, or fails as one |
| `PackWriter.Writer.SyncForCommit` | addons/crates/aether-block-store/src/store.rs:241-265 | the sync of a durable commit is its step: the current pack is synced and the lock held, or the pack is abandoned |
| `WriterSteps.LeadsHealthy` | addons/crates/aether-block-store/src/store.rs:307-346 | whatever the pack writer does and whatever fails on the way, the store keeps its invariant, and its current pack is not retired |
| `WriterSteps.EncodeAndAppend` | addons/crates/aether-block-store/src/write.rs:281-331 | appending new blocks is a run of the store; on success the writer has a readable record for every block at the place returned, on failure nothing is handed out |
| `PackWriter.Writer.Resume` | addons/crates/aether-block-store/src/pack.rs:141-152 | appending resumes at the file's end |
| `PackWriter.IssuedReads` | addons/crates/aether-block-store/src/store.rs:307-346 | a record handed out for a block reads back as that block |
| `Tracker.ReadTracker.Enter` | addons/crates/aether-block-store/src/tracker.rs:26-34 | counts a read under the current generation |
| `Tracker.ReadTracker.Advance` | addons/crates/aether-block-store/src/tracker.rs:38-42 | starts a generation later than that of every running read |
| `Tracker.ReadTracker.IsClearBefore` | addons/crates/aether-block-store/src/tracker.rs:45-51 | true exactly when every running read entered in that generation or later |
| `Tracker.ReadTracker.Leave` | addons/crates/aether-block-store/src/tracker.rs:54-63 | one read less in its generation |
| `Tracker.ClearIsGuard` | addons/crates/aether-block-store/src/tracker.rs:45-51 | the tracker's answer is the store's condition for deleting a file |
| `Tracker.LeaveTracks` | addons/crates/aether-block-store/src/tracker.rs:54-63 | when a read leaves, the tracker still counts exactly the readers left |
| `Tracker.EnterTracks` | addons/crates/aether-block-store/src/tracker.rs:26-34 | the same when one enters |
| `Tracker.Reclaimer.DeleteRetired` | addons/crates/aether-block-store/src/compact.rs:232-260 | whatever fails, each entry is still queued or its file and row are gone; it fails exactly if a row cannot be removed, and else an entry stays exactly if the tracker is not clear for it or its file cannot be deleted; a file goes only if the tracker is clear for its entry at that moment; the call is a run of the store's deletion steps |
| `Recover.Recover` | addons/crates/aether-block-store/src/store.rs:468-544 | fails only if a pack is missing; else is the recovery step: what is deleted, kept, sealed and resumed, and the next id |
| `Recover.ReconcileAll` | addons/crates/aether-block-store/src/store.rs:486-512 | the loop over the `packs` table |
| `Read.ReadFile` | addons/crates/aether-block-store/src/read.rs:21-66 | every touched block fills its part of the buffer, is left alone if its slot names no block, or is listed as missing; the blocks to heal are exactly the touched ones whose record cannot be read, on an error those before the failing one; fails exactly if fetching a touched record does; the length error does not occur |
| `Read.ReadBlockInto` | addons/crates/aether-block-store/src/read.rs:69-99 | copies the asked part of a block and touches nothing outside it; an unsound record may leave anything in a wholly asked block; fails exactly for a short block or an I/O error |
| `Ranges.PushPoints` | addons/crates/aether-block-store/src/store.rs:447-455 | pushing a range adds exactly its bytes |
| `Ranges.MergedUnique` | addons/crates/aether-block-store/src/store.rs:447-455 | a merged list is determined by the bytes it covers |
| `ReadBack.ReaderSnapshot` | addons/crates/aether-block-store/src/read.rs:21-24 | every running read of every run works on a snapshot in order |
| `ReadBack.DataIsContent` | addons/crates/aether-block-store/src/read.rs:53-60 | what a read gets for a block is what the block means |
| `ReadBack.ReadSees` | addons/crates/aether-block-store/src/read.rs:21-66 | on a snapshot in order, cached bytes are read and others left alone |
| `ReadBack.ReadMeans` | addons/crates/aether-block-store/src/read.rs:21-66 | a read shows every cached byte of its range, leaves the rest of the buffer alone and lists exactly the touched bytes whose block is not cached |
| `ReadBack.GoodIsReadable` | addons/crates/aether-block-store/src/read.rs:31-45 | a snapshot in order meets what reading a file asks for |
| `ReadBack.TouchedBlocks` | addons/crates/aether-block-store/src/read.rs:38 | the blocks a read touches are blocks of the file |
| `ReadBack.MissingExact` | addons/crates/aether-block-store/src/read.rs:57-59 | a byte is reported missing exactly if the store does not have its block |
| `ReadBack.ReadYourWrites` | addons/crates/aether-block-store/src/read.rs:21-66 | a read inside data a file holds misses nothing and returns exactly those bytes |
| `ReadBack.WriteThenRead` | addons/crates/aether-block-store/src/write.rs:51-85 | a write and then a read inside it: if other threads leave the file alone meanwhile, the read returns exactly the bytes written, unless fetching a record fails |
| `Verify.VerifyStore` | addons/crates/aether-block-store/src/verify.rs:48-151 | for every table, no problem is reported if and only if the store is in order |
| `Verify.VerifySegments` | addons/crates/aether-block-store/src/verify.rs:56-93 | the walk over the manifests: problems and reference counts |
| `Verify.WalkExact` | addons/crates/aether-block-store/src/verify.rs:32-92 | a clean walk means every file has exactly the segments its length asks for, and the other way round |
| `Verify.RefCountIs` | addons/crates/aether-block-store/src/verify.rs:75-77 | the references counted are those of the manifests |
| `Verify.VerifyBlocks` | addons/crates/aether-block-store/src/verify.rs:96-124 | refcounts, dedup rows and records of all blocks, and the bytes per pack |
| `Verify.VerifyDedup` | addons/crates/aether-block-store/src/verify.rs:128-133 | every dedup row has its block |
| `Verify.VerifyPacks` | addons/crates/aether-block-store/src/verify.rs:135-151 | totals and files of packs, and blocks in packs that are not there or retired |
| `Verify.InvariantPasses` | addons/crates/aether-block-store/src/verify.rs:48-151 | a store that keeps its invariant and whose records can be read passes if and only if every registered pack that is not retired has its file; a failed pack creation leaves one without |
| `GpuProof.StepKeeps` | addons/crates/aether-block-store/src/gpu.rs:331-634 | every lock-sized step keeps: no block held twice, none lost, frames right, counter exact, engine aligned |
| `GpuProof.RunInv` | addons/crates/aether-block-store/src/gpu.rs:331-757 | the same at every point of every run |
| `GpuProof.EnqueueKeeps` | addons/crates/aether-block-store/src/gpu.rs:546-589 | queueing under the bound keeps the counter exact and bounded |
| `GpuProof.DeliverKeeps` | addons/crates/aether-block-store/src/gpu.rs:418-436 | a finished batch is the oldest in flight, and the delivery takes it over with the frames of its very blocks |
| `GpuProof.FillKeeps` | addons/crates/aether-block-store/src/gpu.rs:364-414 | a batch is put in flight as the engine gets its blocks, also while a delivery is under way |
| `GpuProof.WrongPopKeeps` | addons/crates/aether-block-store/src/gpu.rs:419-424 | a batch with the wrong number of frames is in the delivery's hands until it is put back |
| `GpuProof.PutBackKeeps` | addons/crates/aether-block-store/src/gpu.rs:430 | putting it back keeps everything, though the engine no longer has it |
| `GpuProof.WrongFailKeeps` | addons/crates/aether-block-store/src/gpu.rs:431 | the failure that follows takes over the queue |
| `GpuProof.ResolveKeeps` | addons/crates/aether-block-store/src/gpu.rs:273-282 | settling one block, of a failed batch for the CPU or of a delivered one with its own frame, keeps everything |
| `GpuFrames.SmoothRunsUseFrames` | addons/crates/aether-block-store/src/gpu.rs:273-447 | in every run without a failed batch, a wrong pop, a quiet device or a writer that settles or gives up by itself, no block is left to the CPU and no thread is to leave one |
| `GpuFrames.DeliveredInOrder` | addons/crates/aether-block-store/src/gpu.rs:418-447 | in every run, whatever else happens: after a batch was delivered its thread goes through the blocks in the batch's order, each with the frame at its place |
| `GpuFrames.DeliveredGetsFrame` | addons/crates/aether-block-store/src/gpu.rs:434-437 | in every run: block `m` of a batch delivered with frames, if it has no result when its turn comes, gets frame `m` |
| `GpuFrames.DeliveredKeepFrames` | addons/crates/aether-block-store/src/gpu.rs:418-447 | over every run in which a writer gives up on a stalled GPU only while no failing thread holds a block of its: each block its thread has passed has the frame at its own place and keeps it |
| `GpuFrames.OneBlockEncoded` | addons/crates/aether-block-store/src/gpu.rs:524-600 | such a run exists: under every valid bound a writer of a block of any allowed size gets its frame, and the bytes in flight are back to none |
| `GpuProof.FreeKeeps` | addons/crates/aether-block-store/src/gpu.rs:352-357 | the bytes given back never exceed the counter |
| `GpuRuns.NoneLost` | addons/crates/aether-block-store/src/gpu.rs:331-448 | a block without a result is with its writer, queued, in flight or being settled, and in one place only |
| `GpuRuns.FramesAreTheBlocks` | addons/crates/aether-block-store/src/gpu.rs:418-447 | a frame result is the frame of that very block |
| `GpuRuns.StepKeepsResults` | addons/crates/aether-block-store/src/gpu.rs:273-282 | no result changes once it is there |
| `GpuRuns.Backpressure` | addons/crates/aether-block-store/src/gpu.rs:344-355 | the counter equals the bytes held or being settled, stays within its bound, and no subtraction saturates |
| `GpuRuns.AllSettled` | addons/crates/aether-block-store/src/gpu.rs:681-698 | once failure or shutdown has run its course every queued block has a result |
| `GpuRuns.CalmRunsDoNotPanic` | addons/crates/aether-block-store/src/gpu.rs:602-634 | if no writer gives up while a thread holds one of its blocks, in a failure, a delivery or between taking a batch and putting it back, no result is set after it was taken |
| `GpuPanic.PanicExact` | addons/crates/aether-block-store/src/gpu.rs:602-634 | in every run that was calm so far, a writer that gives up makes a panic possible if and only if some thread still holds one of its blocks |
| `GpuPanic.UncalmPanics` | addons/crates/aether-block-store/src/gpu.rs:602-634 | whenever a writer can give up while a thread holds one of its blocks, wherever in whose list, there is a continuation that sets a result that was taken |
| `GpuPanic.RunOff` | addons/crates/aether-block-store/src/gpu.rs:331-358 | after a failure nothing is queued again, and once a writer's own failure has drained the batches in flight there are none again, but for one that a delivery puts back and is about to drain |
| `GpuPanic.UncalmReached` | addons/crates/aether-block-store/src/gpu.rs:602-634 | such a state is reached by a run in which the writer's own failure has run to its end |
| `Cdn.Best` | addons/crates/aether-steam/src/cdn.rs:404-410 | the fastest open host, ties to the first |
| `CdnShared.CdnPool.RefreshHosts` | addons/crates/aether-steam/src/cdn.rs:381-390 | exactly the hosts whose last request sample is as old as the longest cooldown rank by their probe again, or as unmeasured; no other host changes |
| `CdnShared.CdnPool.Pick` | addons/crates/aether-steam/src/cdn.rs:428-448 | a step of the pool: the host and wait of the rule, the wait never past the longest cooldown from the moment of the lock |
| `CdnShared.CdnPool.ReportSuccess` | addons/crates/aether-steam/src/cdn.rs:450-456 | host `i` may take requests at any time, its rank and all other hosts are unchanged |
| `CdnShared.CdnPool.ReportFailure` | addons/crates/aether-steam/src/cdn.rs:458-468 | host `i` may take a request exactly from its cooldown's end on, at most the longest cooldown away, a server's own figure included; its connection counts as cold; nothing else changes |
| `CdnShared.CdnPool.ReportRetry` | addons/crates/aether-steam/src/cdn.rs:473-475 | host `i` may take a request exactly from its cooldown's end on; its failures, rank and all other hosts are unchanged |
| `CdnShared.CdnPool.ReportLatency` | addons/crates/aether-steam/src/cdn.rs:480-493 | the average moves by a quarter of the way to the sample, or not at all for a request sent before the connection was warm; when the host may take requests is unchanged |
| `CdnShared.CdnPool.ReportStall` | addons/crates/aether-steam/src/cdn.rs:499-508 | a measured host that was waited for longer than its time ranks by the wait, every other keeps its rank; when it may take requests is unchanged |
| `CdnShared.CdnPool.Probe` | addons/crates/aether-steam/src/cdn.rs:314-358 | takes the probes' answers in the order they land |
| `CdnShared.ProbedRank` | addons/crates/aether-steam/src/cdn.rs:332-350 | after the probes a host ranks by its last answer |
| `CdnShared.NeverAnswered` | addons/crates/aether-steam/src/cdn.rs:332-350 | a host that answered none of its probes is unreachable, unless a request had measured it |
| `CdnShared.CdnPool.Peek` | addons/crates/aether-steam/src/cdn.rs:363-370 | the host a `pick` of that moment chooses, now and still afterwards; nothing is marked as in use or on trial |
| `CdnShared.CdnPool.Connect` | addons/crates/aether-steam/src/cdn.rs:371-374 | the host counts as connected, from now on if it did not yet; its rank and when it may take requests are unchanged |
| `Cdn.AllCooling` | addons/crates/aether-steam/src/cdn.rs:440-447 | when no host may take a request, one recovers first, within the longest cooldown |
| `CdnRuns.RunOk` | addons/crates/aether-steam/src/cdn.rs:381-508 | in every run, with clocks read before or inside the lock: failures exactly with a cooldown end, which is near; trials only of failed hosts |
| `CdnRuns.PickAnswers` | addons/crates/aether-steam/src/cdn.rs:428-448 | `pick` always has an answer and never asks to wait past the longest cooldown from the moment of its lock |
| `CdnRuns.OneRequestPerTrial` | addons/crates/aether-steam/src/cdn.rs:397-448 | while a trial is out a second request goes to its host if and only if no host may take one and the trial's host is the first whose cooldown ended, and then at once |
| `CdnRuns.SecondRequest` | addons/crates/aether-steam/src/cdn.rs:428-448 | with one host that happens: a run with two requests during one trial |
| `CdnRuns.CountsStreak` | addons/crates/aether-steam/src/cdn.rs:450-468 | in every run a host's failure count is the number of failures since its last success |
| `CdnRuns.CooldownHolds` | addons/crates/aether-steam/src/cdn.rs:397-468 | after a failure no request goes out to the host, at once or after the wait asked for, before the cooldown its failures in a row earn it is over |
| `CdnRuns.CooldownDoubles` | addons/crates/aether-steam/src/cdn.rs:458-468 | the cooldown doubles with each failure up to the 17th and never passes its maximum |
| `Cdn.Timed` | addons/crates/aether-steam/src/cdn.rs:480-493 | the new average lies between the old one and the sample |
| `Cdn.Stalled` | addons/crates/aether-steam/src/cdn.rs:499-508 | a stalled host never ranks better, and a measured one not below the wait |
| `CdnRuns.SwitchNeedsReason` | addons/crates/aether-steam/src/cdn.rs:227-232 | in every run a healthy host in use is replaced only by `pick`, and only by one that takes less than half its time or is of a better class |
| `CdnRuns.SwitchesToFaster` | addons/crates/aether-steam/src/cdn.rs:397-416 | the converse: in every run, once an open host takes less than half the time of the healthy host in use, or is of a better class, the request goes at once to the fastest open host, which is then the one in use, or on trial if it has failed before |
| `CdnRuns.BestIsFastest` | addons/crates/aether-steam/src/cdn.rs:397-409 | the host `choose` ranks first is the fastest open one, the earlier of equals |
| `CdnRuns.OpenExactly` | addons/crates/aether-steam/src/cdn.rs:397-408 | a host may take a request exactly if its cooldown is over and, after a failure, no trial of it is out or that has timed out |
| `CdnRuns.SamplesAge` | addons/crates/aether-steam/src/cdn.rs:381-390 | in every run, at every pick: samples as old as the longest cooldown are forgotten, younger ones kept |
| `CdnRuns.StaysOnHost` | addons/crates/aether-steam/src/cdn.rs:397-416 | the pool does not flap: while the host in use does not fail and no open host is clearly faster at a pick, every request goes to it |
| `CdnRuns.FastestChosen` | addons/crates/aether-steam/src/cdn.rs:397-416 | in every run, without a healthy host in use, the fastest open host is chosen, ranked by time, then unmeasured, then unreachable, then position |
| `Seekable.Parse` | addons/crates/aether-archive/src/seekable.rs:89-155 | the parsing loop computes the table |
| `Seekable.TableChained` | addons/crates/aether-archive/src/seekable.rs:118-149 | the frames of every parsed table tile the stream and the content |
| `Seekable.TableRoundTrip` | addons/crates/aether-archive/src/seekable.rs:60-155 | the table of any stream reads back, whatever precedes it |
| `Seekable.TableCanonical` | addons/crates/aether-archive/src/seekable.rs:60-155 | the converse: whatever parses as a seek table is the encoding of the frames it parses to; other magics, sizes or reserved bits are refused |
| `SeekFile.ReadFromParses` | addons/crates/aether-archive/src/seekable.rs:192-217 | fetching only the table opens exactly the streams whose table parses and accounts for every byte, with the same table |
| `SeekFile.OpenedInside` | addons/crates/aether-archive/src/seekable.rs:192-217 | every frame of an opened stream lies inside it, before the table |
| `SeekFile.StreamOpens` | addons/crates/aether-archive/src/seekable.rs:192-217 | a written stream opens and its frames hold what was written |
| `SeekFile.OpenAndRead` | addons/crates/aether-archive/src/seekable.rs:192-361 | opening a written stream and reading a range gives exactly that range of what was written, and refuses a range outside |
| `SeekRange.SelectedParts` | addons/crates/aether-archive/src/seekable.rs:248-272 | the frames of a range give exactly the range, empty frames included |
| `SeekRange.PartsAreSlice` | addons/crates/aether-archive/src/seekable.rs:346-361 | the parts of all frames are the slice of the whole content |
| `SeekRange.SelMeets` | addons/crates/aether-archive/src/seekable.rs:248-272 | every selected frame is not empty and meets the range |
| `SeekRange.SelIsOverlap` | addons/crates/aether-archive/src/seekable.rs:248-272 | a frame is selected if and only if its content meets the range |
| `SeekRange.ReadRange` | addons/crates/aether-archive/src/seekable.rs:346-361 | succeeds if and only if the range lies in the content and every frame that meets it lies in the data and decodes; then it is the slice of what the frames decode to |
| `Archive.Runs` | addons/crates/aether-nexus/src/archive.rs:924-938 | the frames in order, cut into adjacent runs of at most 32 MiB, and only where the next frame is not adjacent or would pass that |
| `Archive.Decode` | addons/crates/aether-nexus/src/archive.rs:942-963 | succeeds exactly if every frame with content was fetched and decodes; then a run's parts inside the range |
| `Archive.ReadByRuns` | addons/crates/aether-nexus/src/archive.rs:587-630 | reading run by run succeeds exactly when reading frame by frame does, with the same slice |
| `Archive.Buffered` | addons/crates/aether-nexus/src/archive.rs:127-164 | bytes from prefetched spans are the file's bytes; nothing comes back only if a byte is uncovered or a span with bytes of the range failed |
| `Archive.FetchWithHeader` | addons/crates/aether-nexus/src/archive.rs:703-759 | exactly the wanted bytes and the data range of the simple form, whatever the header's lengths; fails exactly when that does, or its sums pass 64 bits; a further request is made only if local name and extra field are shorter than the directory's name or longer than it by more than 256 bytes |
| `Archive.Trim` | addons/crates/aether-nexus/src/archive.rs:745-756 | cutting and completing the guessed bytes gives exactly the wanted bytes, and asks for more exactly if the guess lacks some |
| `Zip.TailIsEnough` | addons/crates/aether-archive/src/zip.rs:142-214 | locating from the tail equals locating in the whole file if and only if the end record lies in the tail, or before it names nothing, and needs no locator that lies before the tail |
| `Zip.UsualTail` | addons/crates/aether-archive/src/zip.rs:142-214 | so whenever a comment ends the file, and whenever the end record, padded or not, starts a locator's length inside the tail |
| `Zip.TailEocd` | addons/crates/aether-archive/src/zip.rs:163-179 | the search in the tail finds the file's end record, or nothing if that lies before the tail |
| `Zip.TailCanMiss` | addons/crates/aether-archive/src/zip.rs:163-177 | with padding after the end record the tail finds nothing though the whole file does |
| `Zip.DirectoryInside` | addons/crates/aether-archive/src/zip.rs:100-126 | any directory returned lies inside the file |
| `Zip.SameEocd` | addons/crates/aether-archive/src/zip.rs:163-179 | an end record whose comment ends the file is found in the tail, with room for locator and record before it |
| `Zip.FindExtraField` | addons/crates/aether-archive/src/zip.rs:398-411 | the loop over the extra fields |
| `Zip.ExtraFound` | addons/crates/aether-archive/src/zip.rs:398-411 | the first field with the id is found among well-formed fields |
| `Zip.HeaderPrefix` | addons/crates/aether-archive/src/zip.rs:448-476 | only the fixed part of a local header counts for the data range |
| `ZipWritten.LocalRangeRead` | addons/crates/aether-archive/src/zip.rs:448-476 | a written local header gives the range behind its name and extra field, or an error if that passes 64 bits or the entry is encrypted |
| `ZipWritten.WrittenDataRange` | addons/crates/aether-archive/src/zip.rs:448-476 | the data of a written entry is found behind its local header, name and extra field, and is the data written |
| `ZipWritten.FetchWritten` | addons/crates/aether-nexus/src/archive.rs:703-759 | fetching bytes of a written entry gives those bytes of its data, in one round if its local name is the directory's and its extra field at most 256 bytes |
| `ZipWritten.ClassicLocated` | addons/crates/aether-archive/src/zip.rs:142-214 | a written end record, of any comment and before any tail length allowed, is found: its directory is returned if it lies in the file and needs no 64-bit record, and a spanned archive is refused |
| `ZipWritten.Zip64Located` | addons/crates/aether-archive/src/zip.rs:142-214 | with the 64-bit records the directory is the one they name, whatever the classic record says; spanned archives are refused |
| `ZipWritten.Zip64Alone` | addons/crates/aether-archive/src/zip.rs:100-113 | the 64-bit record alone gives its directory |

## Left out

- Index.Tables.Abort: models the restoring only; which calls abort is part of the methods that use it.
- Index.Tables.Incref: does not model the wrap-around of a 32-bit refcount; the code does not check it either.
- PackWriter.Writer.Put: does not model the size of the write buffer; any part of the buffered bytes may reach the file at any time.
- CompactPack.Compact: does not model the numbers of bytes it reports, nor read errors other than the end of the file.
- WriterSteps.EncodeAndAppend: does not model which frame the compressor makes, only that it decompresses to the block.
- GpuPanic.PanicExact: does not model what becomes of a thread after it panicked.
- Recover.Recover: does not model the checks of block size and schema version in the metadata.
- Verify.VerifyStore: does not model the texts of the problems, only which ones are reported.
- Tracker.Reclaimer.DeleteRetired: does not model entries queued meanwhile; only compaction queues entries, and it calls
  this under the same lock.
- CdnShared.CdnPool.ReportLatency: does not model overflow of the duration product.
- Corruption of pack bytes on disk: records are whole once written; healing is a step that may drop any block at any time.
- Checks on the length of a file id.
- Hashing, compression, checksums, the index database, file locking and directory sync: functions and steps with the hypotheses above.
- `cached_ranges`, `file_ids`, `stat` and statistics: short queries over the same tables.
- When an automatic flush is due, commit counters and write classes: they only decide when a flush step happens.
- Condition variables, waiting times, fairness and liveness: only safety over lock-sized steps.
- Parsing of whole central directories, entry names and their decoding: only the end records, extra fields and local headers.
- `seekable` and `read_entry` of the archive reader: they combine the parts that are modelled.
- HTTP, retries, signed links, login and token handling.
- GOG chunk reads and other providers: they repeat the range properties.
- The `rust/` core crates.
