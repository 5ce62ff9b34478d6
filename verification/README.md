# Verified model of ringwal and ringmpsc

This project models the two layers of the repository whose correctness is hardest to see from any
single function, and proves their properties for every input, every run and every crash point.

**The write-ahead log** (`ringwal`, on the three-tier files of `ringwal-sim`). Writers push
envelopes into rings; one flusher numbers them, appends CRC-framed records to rotating segments,
fsyncs and notifies commit waiters; recovery re-parses whatever bytes a crash left, classifies
transactions, and checkpoints truncate the log. `WalRun` is the whole system as one step machine:
begin, send, drain, write, open and seal a segment, append, flush, fsync success or failure in any
order, kernel write-back, truncation, crash with any torn tail, restart. The parser works on bytes.

**The lock-free ring and its channel** (`ringmpsc`, `ringmpsc-stream`). `RingRun` is the SPSC ring
as interleaved atomic steps with coherently stale counter loads. The same step function runs on
wrapping 64-bit counters with masked indices and on unbounded counters; the second refines a FIFO
queue, and the first is proved to be indistinguishable from the second. On top of the queue stand
the multi-producer channel, the stream receiver's `poll_next` and the sink.

The two layers meet in `WalQueues` and `Joint`. `WalQueues` ties the channel and receiver objects to
the log step by step: a commit to a ring is the log's Send, an item yielded by the stream its Drain,
a registration nothing to it. `Joint` is one machine of 64-bit rings, receiver buffer, flusher, disk
and crashes; each of its runs is, seen from the log, a run of `WalRun`, so the log's theorems hold
of it. `Lifting` is the converse: every run of the log in which no queue outgrows its ring is one of
that machine. `EndToEnd` joins the log, the crash, recovery and the store in one statement, and `Joint`
states it for the whole machine. `Witness` shows that the hypotheses of the log's theorems can be
met, and `Service` that the log can always go on: after any run and any crash, every transaction can
be completed.

| file | content |
|---|---|
| `Entry`, `Parser`, `Disk`, `Log` | record format, torn-segment parser, three-tier file, reading a log by transaction |
| `WalRun`, `WalInvariant`, `WalSteps`, `WalCrash`, `WalTheorems`, `WalFaults`, `WalRotation`, `Witness`, `Service` | the step machine, its invariant, one lemma per step, the theorems, runs where a documented promise fails, a codec and a run that meet the hypotheses, and progress after any crash |
| `Segments`, `Flusher`, `FlusherRun` | segment rotation as functions, the flusher's objects proved against them, and both tied to the step machine |
| `SegmentName`, `Recovery`, `Checkpoint`, `Store`, `EndToEnd` | `recover`, checkpoint truncation, replay, and the end-to-end statement |
| `Words`, `RingRun`, `RingProof`, `RingWrap`, `RingSend`, `RingBuffer` | 64-bit counters, the ring machine, FIFO refinement, wrap-around, batch sends under concurrency, and the ring operations in place on a buffer |
| `Registration`, `ChannelRing`, `Channel`, `Stream`, `Sink`, `WalQueues`, `Joint`, `Lifting` | producer registration, MPSC delivery over the rings' atomic steps, the stream receiver, the sender, the link to the log, and rings and log as one machine, in both directions |

`dafny verify dfyconfig.toml` checks everything.

## What is assumed

- bincode and CRC32 are unknown functions. `Entry.Lawful` asks that bincode reads back what it
  wrote and that a checksum fits in 32 bits. Nothing is assumed about collisions or about bytes
  bincode did not write. `Witness.LawfulCodec` builds such a codec.
- The records that transactions write serialize, each to a length that fits in 64 bits
  (`Entry.Fits`). An entry that does not serialize is dropped silently while its commit is still
  notified (crates/ringwal/src/wal.rs:451-459); `Flusher.FlusherTask.CollectEnvelope` models that,
  the runs of `WalRun` exclude it.
- A crash keeps the durable bytes of each file and, beyond the simulator, any prefix of the bytes
  written after them. A crash ends the process; it is not the simulator's in-run crash probability.
- Record writes and the fsync inside `seal` succeed. `Parser.FailedWriteReads` states what recovery
  makes of a file after a failed `write_all`. An fsync of the active segment may fail; a failed
  fsync takes no bytes back, and a later one may still make them durable.
- Every restart calls `recover` before handing out transaction ids, and users go through
  `Transaction`. Transaction ids are below 2^64.
- `read_segment_max_tx_id` decodes entries as `WalEntry<String, Vec<u8>>`
  (crates/ringwal/src/recovery.rs:327-328), so the truncation results are about logs of that type.
- A truncating task sees of each file what has left the application, and perhaps more: all of it in
  the simulator, only flushed bytes of a real file (crates/ringwal/src/io/real.rs:55-56).
  `WalCrash.TruncationSparesIff` states what that can cost; outside a rotation it costs nothing,
  and `WalRotation` has a run that pays inside one.
- Per ring: at most one open reservation, only written slots are committed, and only one of the two
  consumer interfaces is used (`RingBuffer.MixedConsumers` shows what mixing does). Debug
  assertions are off and `usize` has 64 bits.
- A load of the other side's counter returns any value between the last one seen and the current
  one. `Channel.MpscChannel.prompt` and `Sink.RingSender.prompt` distinguish loads that return the
  newest value.
- The consumer's slice `rings[..count]` is taken while no failing registration is in flight;
  `Registration.RegistrationIsExclusive` proves that this is exactly when it is within bounds.

## Where code and documentation disagree

The model follows the code.

- INV-WAL-05 promises commit durability in all modes (crates/ringwal/docs/architecture.md:340). The
  pipelined modes notify waiters after a failed fsync as well
  (crates/ringwal/src/wal.rs:242-247, crates/ringwal/src/wal.rs:328-333).
  `WalFaults.FailedPipelinedFsyncLosesCommit` is a run that loses an acknowledged commit;
  `WalFaults.AcknowledgedSurvivesIff` says, for every run, exactly which transactions a crash cannot
  take; `WalTheorems.LaterFsyncSecures` gives the condition a caller can see.
- The section "Ordering Guarantees" of the ringwal crate's specification promises per-key order when
  each key is written by a single writer. Recovery lists transactions in hash-set order, so a
  writer's own second version of a key can be undone: `Store.OneWriterTwoVersions`.
  `Store.ReplayOrderIff` gives the exact condition.
- INV-WAL-01 asks for LSNs that increase across segments (crates/ringwal/docs/architecture.md:336);
  they restart at 1 on every open (crates/ringwal/src/wal.rs:76). `Segments.SecondOpenRepeatsLsn` is
  an input, `Segments.LsnsAcrossOpensIff` the exact condition.
- Segment ids are found under any name that parses, but read only under the generated one
  (crates/ringwal/src/segment.rs:244-264): next to `wal-00000001.log`, a file `wal-1.log` makes
  recovery read segment 1 twice and report its transactions with their entries doubled:
  `Recovery.SegmentReadTwice`. `Recovery.ReadOnceIff` gives the exact condition, for every
  directory; `Recovery` and `Checkpoint` model both cases.
- INV-WAL-07 promises that a transaction's entries are all-or-nothing
  (crates/ringwal/docs/architecture.md:342). Truncation judges a segment by the bytes that have left
  the application (crates/ringwal/src/recovery.rs:273-284), and in the middle of a rotation the old
  segment is a candidate while records are still in its write buffer.
  `WalRotation.TruncationInRotationLosesOperation` is a run without any failure after which an
  acknowledged transaction is recovered as committed without its entry;
  `WalCrash.TruncationSparesIff` gives the exact condition, `WalTheorems.CheckpointSpares` the one a
  caller can keep.
- `Ring::reserve` documents "None if full/closed" but never tests `closed`
  (crates/ringmpsc/src/ring.rs:191-246). `RingWrap.ClosedAcceptsIff` says exactly which closed rings
  still accept an item.
- `StackProducer::send` documents partial sends (crates/ringmpsc/src/stack_channel.rs:513-515); on a
  ring that stays open it is all-or-nothing: `RingSend.SendOn64Bits`, and in place on the buffer
  `RingBuffer.SharedRing.SendAll`.

## Model

| member | source | states |
|---|---|---|
| `Entry.DecodeEncodeHeader` | crates/ringwal/src/entry.rs:112-142 | reading a written header gives the header, for every length, checksum and version |
| `Entry.EncodeDecodeHeader` | crates/ringwal/src/entry.rs:123-142 | writing back any 13 bytes read as a header gives the same bytes |
| `Entry.HeaderToBytes` | crates/ringwal/src/entry.rs:123-130 | the array filled in place holds the encoding and decodes to the header |
| `Entry.FrameLayout` | crates/ringwal/src/entry.rs:91-130 | a record on disk is its length in 8 bytes and its checksum in 4, lowest byte first, version 1, and the data |
| `Parser.WholeIsMaximal` | crates/ringwal/src/recovery.rs:153-197 | the number of records wholly inside a cut is the largest one whose bytes fit |
| `Parser.ParseFrames` | crates/ringwal/src/recovery.rs:153-197 | parsing written records followed by anything gives the records and then what the rest parses to |
| `Parser.TornParse` | crates/ringwal/src/recovery.rs:133-200 | for every record list and every cut offset, exactly the records wholly inside the cut, one partial write iff the cut falls inside a record, no checksum failure |
| `Parser.ReadSegmentEntries` | crates/ringwal/src/recovery.rs:133-200 | the offset loop computes the recursive parse of any bytes, with its counters |
| `Parser.ParseAnything` | crates/ringwal/src/recovery.rs:153-197 | on any bytes: fewer than a header count as torn unless there are none; behind a header, too little data is torn, a wrong checksum or data that do not deserialize are a checksum failure, and each of them ends the reading |
| `Parser.ReadSegmentMaxTxId` | crates/ringwal/src/recovery.rs:290-337 | the scan bounds every id that recovery would read from the same bytes, corrupt ones included |
| `Parser.ScanAnything` | crates/ringwal/src/recovery.rs:290-337 | on any bytes: the scan ends where reading ends, but goes past data that have their checksum and do not deserialize |
| `Parser.ScanMaxIdOfFrames` | crates/ringwal/src/recovery.rs:290-337 | on written records with a torn tail the scan finds exactly the largest id |
| `Parser.FailedWriteHidesLaterRecords` | crates/ringwal/src/segment.rs:65-66 | a header whose data was not written makes the shorter records appended behind it invisible to recovery |
| `Parser.FailedWriteReads` | crates/ringwal/src/segment.rs:65-66 | whatever was written before the lost data and after its header, exactly what recovery reads: all records before, then nothing if the bytes after are too few or do not have the header's checksum, and otherwise whatever bincode makes of them and the parse of the rest |
| `Disk.SimFile.Flush` | crates/ringwal-sim/src/sim_io.rs:81-84 | moves the application buffer to the kernel, changes nothing a reader sees, takes no durable byte back |
| `Disk.SimFile.Sync` | crates/ringwal-sim/src/sim_io.rs:87-91 | everything visible becomes durable |
| `Disk.SimFile.Crash` | crates/ringwal-sim/src/sim_io.rs:94-98 | exactly the durable bytes remain |
| `Segments.SegmentShape` | crates/ringwal/src/segment.rs:60-83 | over every sequence of batches: sealed segments are non-empty, at least the limit and less than the limit plus their last record, on disk, with increasing ids and disjoint increasing LSN ranges |
| `Segments.PutAllShape` | crates/ringwal/src/segment.rs:163-172 | a numbered batch keeps that shape from any state that has it |
| `Segments.SealedNonEmptyIff` | crates/ringwal/src/segment.rs:81-83 | sealed segments are never empty exactly when the limit is positive; with limit 0 the first one is |
| `Segments.PutAllStores` | crates/ringwal/src/segment.rs:163-172 | rotation loses and reorders nothing: the segments together hold the batches in order |
| `Segments.PutAllConcat` | crates/ringwal/src/segment.rs:163-172 | batches one after the other are one long batch |
| `Segments.TruncatesPrefix` | crates/ringwal/src/segment.rs:221-235 | `truncate_before` removes exactly a prefix of the sealed list: the segments wholly below the LSN |
| `Segments.LastLsnsIncrease` | crates/ringwal/src/segment.rs:221-235 | the sealed list of every run has the ordering that prefix truncation needs |
| `Segments.LsnsAcrossOpensIff` | crates/ringwal/src/wal.rs:76 | over any sequence of opens LSNs increase exactly when at most one of them wrote records |
| `Segments.SecondOpenRepeatsLsn` | crates/ringwal/src/wal.rs:76 | two opens that write one record each both use LSN 1 |
| `Flusher.Segment.AppendEntry` | crates/ringwal/src/segment.rs:60-78 | header and data reach the file as one frame, and the metadata follows |
| `Flusher.SegmentManager.constructor` | crates/ringwal/src/segment.rs:138-157 | opening always starts a new segment, one past the highest id found |
| `Flusher.SegmentManager.Rotate` | crates/ringwal/src/segment.rs:197-207 | the old segment is synced and listed before the new one receives a byte |
| `Flusher.SegmentManager.WriteBatch` | crates/ringwal/src/segment.rs:163-172 | the loop puts the whole batch behind what was stored, rotating as the specification does |
| `Flusher.SegmentManager.TruncateBefore` | crates/ringwal/src/segment.rs:221-235 | the retain loop keeps exactly the segments not below the LSN and counts the others |
| `Flusher.FlusherTask.CollectEnvelope` | crates/ringwal/src/wal.rs:439-462 | LSNs since the open are 1, 2, 3 and so on; an entry that does not serialize takes its LSN, is left out and still queues its waiter; the batch stays numbered |
| `Flusher.SyncFile` | crates/ringwal/src/wal.rs:484-523 | the tiers after flush and sync for each mode and each failure: durable after a successful sync in a durable mode, in the kernel after a flush only, unchanged when the flush failed |
| `Flusher.FlusherTask.FlushAndNotify` | crates/ringwal/src/wal.rs:465-547 | the batch is stored in order and the segments are the specification's, whether flush or sync fails; waiters are notified only when the sync succeeded |
| `Flusher.FlushedIsDurable` | crates/ringwal/src/wal.rs:484-535 | where waiters of a durable mode are notified, every byte of the active file is durable |
| `Flusher.FlushesShape` | crates/ringwal/src/wal.rs:465-547 | over every sequence of flushes since the open, whatever flushes and syncs fail, the flusher's own segments have the shape of `Segments.SegmentShape` |
| `Flusher.FlusherTask.FlushSegments` | crates/ringwal/src/wal.rs:465-547 | the objects hold exactly the segments of all flushes since the open |
| `Flusher.FlusherTask.SegmentsHaveShape` | crates/ringwal/src/segment.rs:60-83 | so the sealed shape is the flusher's own manager's, after any flushes |
| `FlusherRun.PutIsPath` | crates/ringwal/src/segment.rs:163-172 | one turn of `write_batch` is the step machine's Append, after opening and sealing when it rotates |
| `FlusherRun.WriteBatchIsPath` | crates/ringwal/src/segment.rs:163-207 | `write_batch` of a batch of any length is a path of the step machine that ends with the manager's files |
| `FlusherRun.CollectIsDrain` | crates/ringwal/src/wal.rs:439-462 | what `CollectEnvelope` adds to batch and waiters is what the step machine's Drain adds |
| `FlusherRun.FlushIsPath` | crates/ringwal/src/wal.rs:465-547 | `flush_and_notify` of a waiting mode, from start of the write to the sync's outcome, is a path of the step machine that ends with the manager's files and acknowledges exactly the waiters, and only if the sync succeeded |
| `WalTheorems.NextKeeps` | crates/ringwal/src/wal.rs:304-436 | every step of writers, flusher, fsyncs (failing ones included), kernel, truncation, crash and restart keeps the invariant of the log |
| `WalTheorems.RunInv` | crates/ringwal/src/wal.rs:304-436 | the invariant holds in every state of every run, whatever fsyncs fail |
| `WalTheorems.Durability` | crates/ringwal/src/transaction.rs:91-105 | once a commit is acknowledged, recovery after any later steps, with any number of crashes and restarts, reports it as committed with exactly its buffered entries in order, unless truncation deletes its records |
| `WalTheorems.SecuredDurability` | crates/ringwal/src/wal.rs:209-257 | in every run, whatever fsyncs fail, a transaction for which the fsync of its own or a later hand-over returned Ok is recovered as committed with its entries after any later steps |
| `WalTheorems.LaterFsyncSecures` | crates/ringwal/src/wal.rs:209-257 | a transaction handed over at one step is in that position once the fsync of any hand-over of the same process not earlier has returned Ok, however many others fail |
| `WalTheorems.AckedIsSafeInRun` | crates/ringwal/src/wal.rs:465-547 | where no pipelined fsync fails, every notified transaction is in that position |
| `WalTheorems.Atomicity` | crates/ringwal/src/segment.rs:163-207 | in every run and at every crash point, torn tails included, the recovered log is a prefix of the written one, and a transaction recovered as committed or rolled back, acknowledged or not, has exactly its entries |
| `WalTheorems.CheckpointSpares` | crates/ringwal/src/recovery.rs:260-287 | truncation outside a rotation never deletes a record of an id at or above its checkpoint |
| `WalTheorems.PipelinedFsync` | crates/ringwal/src/wal.rs:209-294 | fsyncs finish in any order and others may fail, yet when batch k's fsync has returned Ok every byte of every batch handed over no later is durable, also across rotation |
| `WalCrash.CrashLeavesPrefix` | crates/ringwal/src/segment.rs:197-207 | because a segment is sealed before its successor receives bytes, what survives across all files is a prefix of the log |
| `WalCrash.CrashKeepsDurable` | crates/ringwal-sim/src/sim_io.rs:94-98 | a transaction all of whose records are durable reads the same after any crash |
| `WalCrash.TruncateKeeps` | crates/ringwal/src/recovery.rs:260-287 | truncation during a run keeps the invariant for every id it does not touch |
| `WalCrash.TruncationSparesIff` | crates/ringwal/src/recovery.rs:273-284 | an id at or above the checkpoint loses a record exactly when a deleted segment holds one behind what the scan could see |
| `WalCrash.RestartKeeps` | crates/ringwal/src/segment.rs:138-157 | recovery and reopening keep the invariant: the id counter is past every id on disk, the new segment is behind the old ones |
| `WalFaults.FailedPipelinedFsyncLosesCommit` | crates/ringwal/src/wal.rs:236-249 | a run of a pipelined mode in which one failed fsync acknowledges a commit that a crash then loses |
| `WalFaults.AcknowledgedSurvivesIff` | crates/ringwal/src/wal.rs:236-249 | in every state of every run, however many fsyncs failed before: a transaction survives every crash if and only if its records are all in the log and durable; for an acknowledged one of the running process, if and only if they are durable |
| `WalRotation.TruncationInRotationLosesOperation` | crates/ringwal/src/recovery.rs:273-284 | a run without failures in which truncation during a rotation takes an operation of an acknowledged transaction: with every file durable it is recovered as committed without its entry |
| `Witness.LawfulCodec` | crates/ringwal/src/entry.rs:10-40 | injective encodings of keys and values give a codec that meets the assumptions |
| `Witness.AcknowledgingRun` | crates/ringwal/src/wal.rs:304-436 | in any mode there is a run without failures that acknowledges a transaction |
| `Witness.DurabilityApplies` | crates/ringwal/src/transaction.rs:91-105 | both together: the hypotheses of the durability theorem are met |
| `Service.Completes` | crates/ringwal/src/transaction.rs:91-105 | in every reachable state with an idle flusher, in any mode, a new transaction of any records can be sent, collected, written with its rotations and fsynced, and its commit is acknowledged |
| `Service.ServiceResumes` | crates/ringwal/src/recovery.rs:52-130 | after any run, a crash at any point and a restart with any id counter beyond the recovered ids, the run can go on until any new transaction is complete and acknowledged |
| `SegmentName.NameRoundTrip` | crates/ringwal/src/segment.rs:244-264 | generated file names parse back to their ids, for every 64-bit id |
| `SegmentName.NamesDiffer` | crates/ringwal/src/segment.rs:244-246 | different ids have different file names |
| `SegmentName.NameLength` | crates/ringwal/src/segment.rs:244-246 | names have 16 characters exactly for ids of up to 8 digits |
| `SegmentName.DiscoverIff` | crates/ringwal/src/segment.rs:249-264 | a name is found as segment `id` if and only if it is `wal-`, an optional plus sign, digits that stand for `id`, and `.log`, and `id` fits in 64 bits; overflow tests digit by digit are the test of the number |
| `Recovery.ReadSegments` | crates/ringwal/src/recovery.rs:61-70 | for every directory: the ids found, duplicates included, are read in sorted order, whatever order the directory lists them in, and torn and corrupt records are counted over all segments |
| `Recovery.CountsAreTotals` | crates/ringwal/src/recovery.rs:61-70 | for any segments, the numbers of torn and of corrupt records are the sums of those of each segment |
| `Recovery.ReadsWritten` | crates/ringwal/src/recovery.rs:61-70 | on segments that the log wrote and crashes cut: all whole records in order, one torn record per segment that ends in one, none corrupt |
| `Recovery.ReadOnceIff` | crates/ringwal/src/segment.rs:249-264 | for every directory: recovery reads no segment twice if and only if no two names give the same id |
| `Recovery.SegmentReadTwice` | crates/ringwal/src/segment.rs:244-264 | with `wal-1.log` beside the generated name, the log is segment 1's twice over: outcomes are as before and every transaction's entries are doubled |
| `Recovery.DiscoverSegmentIds` | crates/ringwal/src/segment.rs:249-264 | each id is listed as often as a name gives it, in any listing order |
| `Recovery.SortIds` | crates/ringwal/src/recovery.rs:62 | a sorted permutation |
| `Log.LastMarkerWins` | crates/ringwal/src/recovery.rs:77-90 | of several markers of a transaction the last one decides, whatever is before and between |
| `Log.NoMarkerIncomplete` | crates/ringwal/src/recovery.rs:101-107 | a transaction without a marker is incomplete and keeps its records |
| `Recovery.Classify` | crates/ringwal/src/recovery.rs:72-90 | the two hash maps hold exactly each id's last marker and its non-marker entries in order |
| `Recovery.BuildTransactions` | crates/ringwal/src/recovery.rs:92-122 | whatever the iteration order, each id of the log is listed once with its last marker or Incomplete and its entries |
| `Recovery.CountsAddUp` | crates/ringwal/src/recovery.rs:109-122 | committed, aborted and incomplete add up to the total |
| `Recovery.CountIs` | crates/ringwal/src/recovery.rs:109-113 | each count is the number of transactions with that outcome |
| `Recovery.Recover` | crates/ringwal/src/recovery.rs:52-130 | the classification of the directory's log, the maximum id, each outcome's number of transactions, and torn and corrupt records as sums over the segments |
| `Recovery.RecoverWritten` | crates/ringwal/src/recovery.rs:52-130 | on a directory that the log wrote and crashes cut: the transactions of its whole records, `partial_writes` the number of segments with a torn end, no checksum failure |
| `Checkpoint.CheckpointRoundTrip` | crates/ringwal/src/recovery.rs:203-222 | the checkpoint reads back and writing it leaves the log unchanged |
| `Checkpoint.TakeCheckpoint` | crates/ringwal/src/recovery.rs:229-252 | without a checkpoint file, or with one that is not 8 bytes long, a checkpoint is taken exactly if an id above 0 is committed; with k recorded, exactly if one above k is; it is the largest committed id |
| `Checkpoint.TruncateSegmentsBefore` | crates/ringwal/src/recovery.rs:260-287 | for every directory: exactly the outdated candidates are deleted, except where deletion fails, and the count is exact |
| `Checkpoint.OutdatedWritten` | crates/ringwal/src/recovery.rs:269-284 | on segments that the log wrote and crashes cut, those deleted are exactly the ones, the last excepted, that hold a record with a positive id and only records of ids below the checkpoint |
| `Checkpoint.CountedDistinct` | crates/ringwal/src/recovery.rs:269-286 | where no two names give the same id, the count is the number of outdated segments |
| `Checkpoint.HighestSurvives` | crates/ringwal/src/recovery.rs:264-271 | for every directory the highest segment id is still found afterwards, so reopening never reuses a segment id |
| `Checkpoint.TruncationPreservesRecovery` | crates/ringwal/src/recovery.rs:260-337 | for every directory, whatever its names and contents, every id at or above a committed one used as checkpoint is classified as before with the same entries, the maximum id is unchanged and the highest segment id is still found |
| `Checkpoint.CheckpointAndTruncate` | crates/ringwal/src/wal.rs:149-157 | a checkpoint is taken exactly when one is due; then it is the largest committed id and reads back, exactly the outdated segments are gone, and everything at or above it is preserved |
| `Store.InMemoryStore.ApplyTransactions` | crates/ringwal-store/src/store.rs:159-174 | the nested loops apply exactly the committed transactions' entries in list order |
| `Store.SlotOfApplyAll` | crates/ringwal-store/src/store.rs:114-131 | a key's value after any operations is decided by the last operation on it |
| `Store.LastInLogOrder` | crates/ringwal/src/recovery.rs:77-90 | in log order, the last committed operation on a key is its own transaction's last one there |
| `Store.ReplayOrderIff` | crates/ringwal-store/src/store.rs:159-174 | every order in which `recover` may list the transactions replays to the store of the log's own order if and only if committed transactions that touch the same key leave the same value in it |
| `Store.DisjointReplay` | crates/ringwal-store/src/store.rs:159-174 | without shared keys, every order gives the store of the interleaved log |
| `Store.OneWriterTwoVersions` | crates/ringwal/src/recovery.rs:94-120 | one writer's second version of a key can be replaced by its first on recovery |
| `EndToEnd.ReadsTheSegments` | crates/ringwal/src/recovery.rs:61-70 | reading the directory of a run's segment files gives the log of the run's theorems |
| `EndToEnd.DirOfStores` | crates/ringwal/src/segment.rs:244-264 | a directory with each segment under its generated name holds exactly those segments |
| `EndToEnd.AcknowledgedWriteSurvives` | crates/ringwal-store/src/store.rs:140-154 | after any run, crash and recovery, each key written by an acknowledged transaction holds the value it wrote last, unless another recovered commit wrote that key |
| `Words.AndMask` | crates/ringmpsc/src/config.rs:34-43 | for every power-of-two capacity, bitwise and with the mask is the remainder |
| `Words.WrappedIndex` | crates/ringmpsc/src/ring.rs:264-267 | the slot of a counter that has wrapped is the slot of the unbounded counter |
| `RingProof.NoOverlap` | crates/ringmpsc/src/ring.rs:264-282 | no slot open for writing is one the consumer has still to release |
| `RingProof.StepRefines` | crates/ringmpsc/src/ring.rs:217-309 | every step keeps cached_head <= head <= tail <= cached_head + capacity and initialised slots, appends commits to the queue and removes from its front what is taken or dropped |
| `RingProof.RunRefinesFifo` | crates/ringmpsc/src/ring.rs:427-475 | over every interleaving with stale loads the ring is a FIFO queue: taken, then dropped, then still queued slots are the committed ones in order |
| `RingProof.ShortReservation` | crates/ringmpsc/src/stack_ring.rs:313-320 | a reservation shorter than asked for ends at the buffer's end and leaves the rest free at its start |
| `RingProof.PromiseKept` | crates/ringmpsc/src/stack_channel.rs:517-535 | no step of the consumer, and no close, takes that free space away |
| `RingProof.SecondReservation` | crates/ringmpsc/src/stack_channel.rs:517-535 | so a second reservation gets all of it whatever head it loads, with the consumer running concurrently |
| `RingProof.PeekShows` | crates/ringmpsc/src/ring.rs:317-379 | `readable` shows all items before the tail it goes by and the buffer's end, and `advance` takes exactly the first n of them |
| `RingProof.AbandonedAgain` | crates/ringmpsc/src/ring.rs:217-246 | a reservation dropped uncommitted publishes nothing, and the next one gets the same slots |
| `RingSend.SendIsAllOrNothing` | crates/ringmpsc/src/stack_channel.rs:517-535 | over every run whose producer executes `send(items)` and whose consumer does anything, on an open ring: the commits are a prefix of the items in order, at most two reservations, at most 6 more producer steps than items, and on return all items or none, as the head loaded by the first reservation leaves room or not |
| `RingSend.SendOn64Bits` | crates/ringmpsc/src/stack_ring.rs:280-320 | the same on wrapping 64-bit counters, from any reachable state |
| `RingSend.CallReturns` | crates/ringmpsc/src/stack_channel.rs:517-535 | from every point of every such call, whatever the consumer did so far, the producer can run it to its end |
| `RingSend.SendCompletes` | crates/ringmpsc/src/stack_channel.rs:517-535 | for all items there is a run to the end of the call: all are sent if the head leaves room for them, none otherwise |
| `RingWrap.StepAgrees` | crates/ringmpsc/src/ring.rs:228-240 | a step on wrapping counters is enabled, moves and hands over exactly as on unbounded ones: same space, availability, index and loop end |
| `RingWrap.WrapAroundInvisible` | crates/ringmpsc/src/ring.rs:434-467 | every run on 64-bit counters, across any number of wraps, has the commits, takes and drops of a run on unbounded counters |
| `RingWrap.RingIsFifo` | crates/ringmpsc/src/ring.rs:740-762 | over the whole life of a heap or stack ring from any starting counter: nothing uninitialised is read or dropped, and each committed item is taken once or dropped once, in order |
| `RingWrap.CountersStayNear` | crates/ringmpsc/src/ring.rs:217-309 | at every point of every 64-bit run the counters stay within a capacity and reserved slots are disjoint from readable ones |
| `RingWrap.NothingAfterClose` | crates/ringmpsc/src/stack_ring.rs:280-283 | once a stack ring is closed with no reservation open, nothing is committed in any later run |
| `RingWrap.CloseIsFinal` | crates/ringmpsc/src/ring.rs:726-728 | after a close, whatever steps follow, the ring is closed, and a stack ring without open reservation has accepted all it ever will |
| `RingWrap.DropsTheRest` | crates/ringmpsc/src/ring.rs:740-762 | an idle ring can be dropped and drops exactly what was committed and not taken |
| `RingWrap.ClosedAcceptsIff` | crates/ringmpsc/src/ring.rs:217-246 | on 64-bit counters: a closed ring without open reservation can commit something with no step of the consumer if and only if it is a heap ring with room behind its head |
| `RingBuffer.SharedRing.constructor` | crates/ringmpsc/src/ring.rs:123-138 | a new ring is empty and open |
| `RingBuffer.SharedRing.Reserve` | crates/ringmpsc/src/ring.rs:217-246 | succeeds iff the cached or the loaded head leaves room, and gives the slots after the tail up to the buffer's end |
| `RingBuffer.SharedRing.Commit` | crates/ringmpsc/src/ring.rs:289-309 | the tail and the number of items grow by n, within the capacity |
| `RingBuffer.SharedRing.Push` | crates/ringmpsc/src/ring.rs:684-690 | appends the item iff there was room, otherwise changes no content |
| `RingBuffer.SharedRing.Send` | crates/ringmpsc/src/ring.rs:693-706 | appends the prefix that fits before the buffer's end, all or nothing as to room |
| `RingBuffer.SharedRing.SendAll` | crates/ringmpsc/src/stack_channel.rs:517-535 | the loop in place on the buffer, the consumer taking items between its rounds: all items in order in at most two reservations, or none, as the first loaded head decides |
| `RingBuffer.SharedRing.ConsumeBatch` | crates/ringmpsc/src/ring.rs:427-475 | the loop moves out exactly the items up to the loaded tail, in order, and leaves the rest |
| `RingBuffer.SharedRing.ConsumeUpTo` | crates/ringmpsc/src/ring.rs:554-607 | at most the limit, from the front, in order |
| `RingBuffer.SharedRing.ConsumeToEnd` | crates/ringmpsc/src/stack_ring.rs:513-542 | the stack ring's loop to an end position takes the same items |
| `RingBuffer.SharedRing.Readable` | crates/ringmpsc/src/ring.rs:317-354 | shows all up to the cached tail or the buffer's end, whichever is first; it is a prefix of the contents iff the cached tail is not behind the head or the buffer's end cuts the view short |
| `RingBuffer.SharedRing.Advance` | crates/ringmpsc/src/ring.rs:362-379 | releases the first n items and keeps the cached tail usable |
| `RingBuffer.SharedRing.Drop` | crates/ringmpsc/src/ring.rs:740-762 | drops each remaining item once and no other slot |
| `RingBuffer.MixedConsumers` | crates/ringmpsc/src/ring.rs:317-354 | after one `consume_batch`, `readable` shows slots of an empty ring |
| `Registration.StepKeeps` | crates/ringmpsc/src/channel.rs:107-126 | each fetch_add, bound check and fetch_sub by any call keeps the counter law |
| `Registration.RegistrationIsExclusive` | crates/ringmpsc/src/channel.rs:107-126 | under every interleaving successful ids are exactly 0 to s - 1 without repetition, the counter is s plus in-flight failures, those exist only when s is the maximum, and the counter is within bounds iff there are none |
| `Registration.RefusedIff` | crates/ringmpsc/src/channel.rs:107-126 | under every interleaving a call that tests `closed` after a close never gets an id; one that tests it before is refused only through its fetch_sub and when all ids are taken, and gets its id otherwise |
| `Registration.EnoughIds` | crates/ringmpsc/src/channel.rs:113-124 | while no more calls add than there are ids, each of them has one, also if the channel is closed in between |
| `Registration.CallsInOrder` | crates/ringmpsc/src/channel.rs:107-126 | calls that do not overlap get the ids in order |
| `Registration.OneTooMany` | crates/ringmpsc/src/channel.rs:116-122 | the call after the last id is refused and leaves the counter as it was |
| `Channel.DeliversMore` | crates/ringmpsc/src/channel.rs:158-298 | deliveries of consecutive calls join to the next committed items of every producer |
| `Channel.DeliveredIsPrefix` | crates/ringmpsc/src/channel.rs:158-298 | what was delivered of a producer is a prefix of what it committed, and the rest is in its ring |
| `ChannelRing.RingStep` | crates/ringmpsc/src/ring.rs:217-309 | every atomic step of a 64-bit ring of the channel is a step of the queue of committed items: what is taken is the next items of the producer's whole history |
| `Channel.MpscChannel.Traffic` | crates/ringmpsc/src/channel.rs:107-126 | any acts of producers, and registrations, are carried out on the rings and leave the consumer's side of every ring and what it has delivered as they were |
| `Channel.MpscChannel.Visit` | crates/ringmpsc/src/ring.rs:615-666 | one ring's turn as load, reads out of slots and store of the head, with other threads between any two of them: the producer's next items in order, at most the limit, all that was seen unless the limit was reached |
| `Channel.MpscChannel.ConsumeAll` | crates/ringmpsc/src/channel.rs:158-298 | the whole family over the rings' slots and counters: each producer's next items in order, ring after ring from the first, a ring having its turn only when those before it are empty; at most the limit; a ring keeps seen items only if the limit was reached; something if anything was waiting |
| `Stream.RingReceiver.PollNext` | crates/ringmpsc-stream/src/receiver.rs:144-317 | a buffered item is returned at once; per producer yielded, buffered and in-ring items are the committed ones; which answer comes when: the end exactly after the final drain or on a closed channel found empty, and only after everything the last full drain saw was yielded; Ready if an item was waiting, unless a notification makes the call wake itself and the next one drain; Pending means such a self-wake, or an open channel with every ring seen empty after the registration, drained again for every timer tick |
| `Stream.RingReceiver.PollTail` | crates/ringmpsc-stream/src/receiver.rs:231-316 | the same for the part after registration, with any number of timer ticks: Ready if an item was waiting, otherwise the end exactly if the channel is closed |
| `Stream.FinishedMeansYielded` | crates/ringmpsc-stream/src/receiver.rs:158-189 | a drained mark and an empty buffer mean that all items committed at the mark were yielded |
| `WalQueues.RestartMirrors` | crates/ringwal/src/wal.rs:70-92 | when the log is opened its queues mirror a channel without producers |
| `WalQueues.RegistrationMirrors` | crates/ringmpsc/src/channel.rs:107-126 | a writer that registers while the log runs keeps the mirror |
| `WalQueues.CommitIsSend` | crates/ringwal/src/writer.rs:117-142 | committing a transaction's next record to its ring is the log's Send step on the mirrored queues |
| `WalQueues.PollIsDrain` | crates/ringwal/src/wal.rs:439-462 | a buffered or waiting envelope makes the poll ready, and whenever the rings and the receiver's buffer mirror the log's queues, a ready poll is exactly the log's Drain step of that producer |
| `Joint.MoveIsLogStep` | crates/ringwal/src/wal.rs:304-462 | every move of rings, receiver, flusher, disk or crash is nothing to the log or exactly one step of it: a commit of a record its Send, a collect its Drain of that producer |
| `Joint.ProjectsToRun` | crates/ringwal/src/wal.rs:304-462 | every run of the whole machine, across any number of crashes and restarts, is a run of the log seen from it |
| `Lifting.RunLifts` | crates/ringwal/src/wal.rs:304-462 | conversely every run of the log in which no queue outgrows its ring is what the log sees of a run of the whole machine, with the same steps and states |
| `Joint.JointDurability` | crates/ringwal/src/transaction.rs:91-105 | in every such run an acknowledged transaction is recovered as committed with exactly its entries after any later moves that spare its records |
| `Joint.JointWriteSurvives` | crates/ringwal-store/src/store.rs:140-154 | from the ring's slots to the rebuilt store: each key an acknowledged transaction wrote holds the value it wrote last, unless another recovered commit wrote that key |
| `Sink.RingSender.TrySend` | crates/ringmpsc-stream/src/sender.rs:59-84 | with the consumer running and stale head loads, the item is committed to the ring or preserved; it is refused only by a closed channel or a ring that the sender's head shows full; order is kept exactly when no other item is pending |
| `Sink.RingSender.Send` | crates/ringmpsc-stream/src/sender.rs:90-146 | the retry loop commits the item once, on the first round that finds room before it finds the channel closed; a round fails only on a ring seen full |
| `Sink.RingSender.PollReady` | crates/ringmpsc-stream/src/sender.rs:184-221 | Ok means that nothing is pending; nothing accepted is lost; Pending only with the ring seen full |
| `Sink.RingSender.StartSend` | crates/ringmpsc-stream/src/sender.rs:246-265 | accepted items stay in order exactly when none was pending (or an equal one was, and there was room); the item is kept pending only by a ring seen full |
| `Sink.RingSender.PollFlush` | crates/ringmpsc-stream/src/sender.rs:295-328 | Ok means that every accepted item is in the ring; Pending only with the ring seen full |
| `Sink.RingSender.PollClose` | crates/ringmpsc-stream/src/sender.rs:354-365 | the ring is closed only after every accepted item is in it, and then it is; Pending only with the ring seen full |
| `Sink.RingSender.Session` | crates/ringmpsc-stream/src/sender.rs:184-365 | over every call sequence that obeys the Sink contract, committed items and the pending one are the accepted items in order, an item is pending only by a ring seen full, and while the ring has room and nobody closes exactly the offered items are committed |

## Left out

- `SyncMode::None`: it acknowledges commits without durability, so the durability theorems do not cover it; `Flusher.SyncFile` models its flush.
- Wake-ups and liveness: tokio notifications, timers and wakers are arguments of the modelled calls; no claim that a waiting task is ever woken.
- Delivery of everything sent after a final drain, and registration or sends racing with close: the closed tests are separate steps from the commit, so neither holds.
- Transactions below the checkpoint that are still in flight: truncation may delete their early entries.
- Headers of arbitrary garbage whose length overflows `offset + length` in 64 bits: offsets are unbounded here.
- Failing record writes, failing fsync inside `seal` and failing directory operations other than deletion: outside the fault model.
- `FlusherRun.FlushIsPath`: the flush before the sync succeeds, because the step machine has no failing flush; `Flusher.SyncFile` and `Flusher.FlushesShape` have one.
- `Segments.SegmentShape`: needs a positive segment limit; `Segments.SealedNonEmptyIff` shows that limit 0 seals an empty first segment.
- `RingBuffer.SharedRing`: whole calls alternate on the object; interleaving of atomic steps is the subject of `RingRun`, `RingSend` and `Channel`, and aliasing of the two sides' references is not modelled.
- `len` and `is_full` as seen by a third thread, metrics, allocators, NUMA and mmap code, cache alignment, panicking handlers.
- `WalEntry` timestamps, the commit registry, `current_lsn`, graceful shutdown of the flusher, the checkpoint scheduler and the transaction's in-memory state field.
- `span_collector`, `RealIo`, the oracle driver and the fault-injection harness.
