# Raft log store: model and proofs

A Raft node keeps its log, its vote and its commit point in `RaftLog`. Every change is a record
in a chunked write-ahead log; in memory an index map, a payload cache and the log state follow
the records. These files model the store on top of the contract of its log files, and prove that
it behaves like one simple log: through eviction, chunk rotation, removal of obsolete chunks, a
flush worker that runs behind, and crashes followed by an open. A read that misses the cache loads
from what the worker has written, so when reads are exact depends on what eviction leaves in
memory; the proofs say exactly when.

## How the model is built

- **Record stream.** A *history* is every record the store ever accepted, with the chunk it went
  to. State, index map and simple log at any time are folds over a prefix of it
  (`History.dfy`). A chunk is named by the offset of its first record, and starts with a
  checkpoint of the state reached.
- **Store on values.** `Store.dfy` gives each operation of the store as a function: the writer
  calls, flush, read, one step of the flush worker, a crash, and open with replay.
- **Objects.** `RaftLogStateCell`, `PayloadCache`, `RaftLogStateMachine` and `RaftLog` are the
  source's mutable objects, with its loops and early returns. Each method is proved to do what
  the function on values does. What those functions mean is then said without them:
  `SimpleLog.dfy` has the effect and the error of each call, `Answer.dfy` the offset it answers,
  `CacheCall.dfy` what it does to the cache, `Flush.dfy` what a flush hands over, and `Opening.dfy`
  what opening any files yields.
- **Runs.** A run interleaves writer calls, worker steps, moves of the eviction boundary, cache
  drains, and crashes that keep at least what is synced (`Runs.dfy`). `Invariant.dfy` and
  `Recovery.dfy` prove the invariant that every such step keeps; `Guarantees.dfy` reads off what
  it means, `Buffering.dfy` and `Reclaim.dfy` when obsolete chunks are handed over and that they
  go away. `Worker.dfy` lets the worker catch up; `Retention.dfy` proves exactly when an append
  stays readable until it is written. `Replacement.dfy` and `StaleKeys.dfy` are runs in which the
  cache does what one would not expect.
- **Simple log.** `SimpleLog.dfy` says what each call means on a state and a map from index to
  `(id, payload)`, without chunks, cache or worker, and proves that the store refines it;
  `CrashRuns.dfy` does so for runs with crashes.
- **Bytes.** `Codec.dfy` and `RecordCodec.dfy` are the record codec over any self-delimiting field
  codecs and any 8-byte checksum; `RecordStream.dfy` encodes and decodes step by step;
  `TestFormat.dfy` shows that the field codecs of the crate's tests qualify; `ByteCrash.dfy`
  carries crash recovery down to files that end at an arbitrary byte.

## What callers and the environment owe

`Runs.Enabled` lists it in full.

- A purge that is not a no-op is *coherent*: the entries it leaves are above it in id and index,
  and if it leaves none it reaches `last`. The code does not check this, although
  `docs/architecture.md:204` says that a conflicting id is rejected. `PurgeExactly` proves that
  the log stays one run exactly for coherent purges; `ConflictingPurge` is an accepted purge that
  breaks it.
- An `update_state` has `purged <= last` and `committed <= last`; on an empty log also
  `last == purged`, with `last` not lowered. The code accepts any state on an empty log.
  `UpdateExactly` proves that the log stays one run exactly under the first three.
- The worker reports a chunk as persisted only when everything before its end is synced. It reports
  chunks in order, each at most once.
- A crash loses nothing that is synced.

## Findings

- **Evicted before it is written.** `docs/architecture.md:171` says that data not yet synced stays
  in memory. A truncation does not move the eviction boundary back, so an entry of a lower term
  that replaces a truncated one can leave the cache while it is still in the open chunk's buffer,
  and a read of it then fails. `EvictedBeforeWritten` is such a run, with an id at or below the
  boundary. `LostToLaterReport` is another, with an id above the boundary: the report of a chunk
  closed earlier moves the boundary onto the entry after its append. `AppendStaysReadable` is the
  exact condition: an appended entry stays readable, whatever is called afterwards, if and only if
  its id is above the boundary and above the last id of every chunk that is still to be reported
  and will be synced before the entry is written.
- **An obsolete chunk left behind.** `src/raft_log/raft_log.rs:398-401` names two events that can
  make a closed chunk removable. There is a third: an `update_state` that raises `purged`.
  `UpdateEager` gives the exact condition under which it leaves a chunk unbuffered, and
  `UpdateLeavesObsoleteChunk` a run where it does.
- **Stale cache keys.** A cached key that is no longer live is at or below `purged`, except after
  an update that lowers `purged`, or a purge with a lower id than the entries it removes.
  `StaleExactly` proves that these are the only exceptions; `StaleAfterUpdate` and
  `StaleAfterLowPurge` are reachable stores in which they occur.
- **A batch is not atomic.** A rejected batch leaves its longest accepted prefix in the store
  (`BatchIsItsLongestPrefix`); every other rejected call changes nothing.

## Model

| member | source | states |
|---|---|---|
| `SimpleLogs.StoreIsASimpleLog` | src/raft_log/raft_log.rs:58-304 | From an empty store, after any crash-free run, for any cache limits, rotation policy and interleaving of worker and eviction: the state is that of the simple log after the same calls; a read returns what the simple log has if and only if each entry of the range is cached or written; and where appends stay above the last id of every closed chunk before them, every read does. |
| `CrashRuns.StoreIsASimpleLogWithCrashes` | src/raft_log/raft_log.rs:58-304 | The same for runs with any number of crashes: after every step, the simple log is what the step means on the one before; a crash takes it back to what it was after some earlier record, none that was synced being lost; states and reads are as above. |
| `SimpleLogs.CallRefines` | src/raft_log/raft_log.rs:58-153 | On every store that satisfies the invariant, each call is accepted exactly when its meaning on the simple log says so, is otherwise rejected with exactly the error that the meaning spells out, and has exactly its effect there; flush, worker, boundary and drain steps have none. |
| `SimpleLogs.StateOrder` | src/raft_log/state_machine/raft_log_state.rs:154-278 | Over any run of writer calls from a reachable store, `vote`, `committed` and `purged` never go back, `purged <= last` and `committed <= last`, and `last` goes back only if the run truncates, never below the old `committed` or `purged`. |
| `SimpleLogs.CommittedStable` | src/raft_log/state_machine/raft_log_state.rs:224-266 | Over any such run, an entry at or below `committed` keeps its index, id and payload unless the run contains a purge that covers its index. |
| `SimpleLogs.UpdateLeavesReads` | src/raft_log/raft_log.rs:237-262 | An `update_state` with any state, accepted or not, leaves the result of every read as it was. |
| `SimpleLogs.RejectedChangesNothing` | src/raft_log/raft_log.rs:424-440 | On every store, a rejected call other than a batch append leaves files, buffer, queue, map, cache and state identical. |
| `SimpleLogs.BatchIsItsLongestPrefix` | src/raft_log/raft_log.rs:74-82 | On every store, a batch leaves exactly what its longest accepted prefix leaves, and is accepted exactly when that prefix is the whole batch. |
| `Answers.AnswerIsLastRecord` | src/raft_log/raft_log.rs:424-456 | On every reachable store, an accepted call answers the last offset of the stream it leaves. There is its last record; or, exactly if that filled its chunk, the checkpoint that opens the next chunk right behind it. An empty batch and a purge at or below `purged` leave everything as it is and answer the last offset there was. |
| `Answers.AppendAllLast` | src/raft_log/raft_log.rs:74-82 | A batch is its entries one by one: effect and answer are those of the last entry after the others, unless these are rejected. |
| `Guarantees.ReadIsExact` | src/raft_log/raft_log.rs:268-304 | In every reachable store whose appends each stayed above the last id of every closed chunk before them, a read of `[from, to)` returns, in ascending order and without a failed load, exactly the simple log's entries in that range: whatever the cache has lost, the worker has written. |
| `Guarantees.SliceIsTheRange` | src/raft_log/raft_log.rs:268-304 | What `ReadIsExact` and its relatives compare a read with: exactly the simple log's entries with an index in `[from, to)`, each once, by ascending index. |
| `Guarantees.EntryReads` | src/raft_log/raft_log.rs:274-303 | In every reachable store a live entry is read, with the right id and payload, if and only if it is cached or the worker has written it; otherwise the load fails. |
| `Guarantees.ReadIsExactWhenInReach` | src/raft_log/raft_log.rs:268-304 | In every reachable store a read of `[from, to)` returns exactly the simple log's entries in that range if and only if each of them is cached or written. |
| `Guarantees.IdleReadIsExact` | src/raft_log/raft_log.rs:268-304 | Whatever has been evicted, reads are exact in every reachable store whose worker has written everything. |
| `Guarantees.LocationLoads` | src/raft_log/raft_log.rs:286-299 | The location of a live entry loads from the files if and only if the worker has written it, and then it is the `Append` of that same id with that entry's payload, so the panic arm is unreachable. |
| `Guarantees.LogIsOneRun` | src/raft_log/state_machine/mod.rs:115-154 | In every reachable store the index map holds consecutive indices with rising ids, all above `purged`, the last of them `last`; an empty map means `last == purged`. |
| `Guarantees.TwoEndsDecideTheLog` | src/raft_log/state_machine/mod.rs:62-109 | On every reachable non-empty store the check of the first and the last entry accepts a state if and only if the indices are exactly those after `purged` up to `last`, every id is above `purged`, and the final id is `last`. |
| `Guarantees.CrashLosesOnlyTheTail` | src/raft_log/raft_log.rs:202-235 | At every crash point of every run, opening what is left never fails, and the opened store has the state and answers every read of the first `cut` accepted records, `cut` covering everything synced. |
| `Guarantees.SyncedStays` | src/raft_log/raft_log.rs:135-153 | Over any run with any number of crashes, no synced record is changed or dropped. |
| `Guarantees.FlushedIsSynced` | src/raft_log/raft_log.rs:362-370 | When the worker is idle after a sync flush, everything accepted before that flush is synced, whatever was called meanwhile. |
| `Guarantees.FlushSurvivesCrash` | src/api/raft_log_writer.rs:113-137 | From then on, wherever a crash cuts, the reopened store's stream starts with everything accepted before the flush. |
| `Flushing.FlushedIsWritten` | src/raft_log/raft_log.rs:135-153 | When the worker is idle after a flush, with a sync or without, everything accepted before it is in the files, whatever was called meanwhile. |
| `Flushing.FlushedReads` | src/tests/test_raft_log.rs:1266-1297 | From then on every entry accepted before the flush and still in the log is read, and its record loads from the files whether it is cached or not. |
| `Flushing.FlushedSurvivesExit` | src/tests/test_raft_log.rs:1266-1297 | If the process ends then and nothing written is lost, the next open finds a stream that starts with everything accepted before the flush, synced or not. |
| `Flushing.FlushWrites` | docs/architecture.md:162 | From every reachable store, a flush and enough worker steps end with an empty queue and everything accepted in the files. |
| `Flushing.FlushWithoutSync` | src/api/raft_log_writer.rs:113-137 | Without a sync a flush promises no sync, hands over no chunk for removal, and leaves those that wait waiting. |
| `Flushing.FlushWithSync` | src/raft_log/raft_log.rs:140-151 | With a sync it hands over exactly the chunks that wait, behind those handed over before. |
| `Flushing.FullChunkIsSynced` | docs/architecture.md:181 | A chunk that fills up needs no flush: once the worker is idle, everything before the open chunk is synced, unless that chunk was already open when the run began. |
| `Workers.WorkerCatchesUp` | docs/architecture.md:137-138 | Enough worker steps, with nothing in between, empty any queue. |
| `Guarantees.RemovalIsSafe` | src/raft_log/raft_log.rs:389-422 | In every reachable store every live entry lies in a later chunk than any that is unlinked, queued for removal, or waiting to be queued. |
| `Guarantees.RemovalBehindSync` | src/raft_log/raft_log.rs:140-151 | When a removal reaches the head of the queue, its chunks hold nothing live in the synced stream, nor in any longer stream that a crash can leave. |
| `Reclaim.FlushUnlinks` | docs/architecture.md:182 | When the worker is idle after a sync flush, no chunk that was waiting for removal at the flush is left on disk, whatever was called meanwhile. |
| `Reclaim.FlushSettles` | src/raft_log/raft_log.rs:135-153 | From every reachable store, a sync flush and enough worker steps end with an empty queue, everything accepted synced, and no chunk that waited for removal left on disk. |
| `Guarantees.ChunksAreContiguous` | src/raft_log/raft_log.rs:406-422 | Unlinked, queued, waiting, closed and open chunks are, in this order, one gap-free ascending sequence, so the files on disk are always a suffix of it. |
| `Guarantees.UncachedIsPersisted` | src/raft_log/state_machine/payload_cache.rs:14-34 | On a stream whose appends stay above every closed chunk's last id, an entry that is not cached lies in a closed chunk that is written to its end, synced to its end if the entry was appended since the store was last opened, and its record loads from the files. |
| `Guarantees.AppendProtects` | src/raft_log/state_machine/payload_cache.rs:56-77 | Where every unwritten entry is cached and not evictable, that is still so right after an accepted append if and only if its id is above the eviction boundary. What later reports may do is `AppendStaysReadable`. |
| `Retention.AppendStaysReadable` | docs/architecture.md:169-175 | From every reachable store: an accepted append can be read, for as long as it is in the log, in every crash-free run that follows, if and only if its id is above the eviction boundary and above the last id of every chunk that is not yet reported and is synced once the present queue is worked off. |
| `Guarantees.CacheIsCoherent` | src/raft_log/state_machine/payload_cache.rs:101-136 | In every reachable store each cached key is at most `last`; a live one has the payload of its record, any other lies below the whole log; and `size` is the sum of the cached payload sizes. |
| `CacheCalls.CallCaches` | src/raft_log/state_machine/mod.rs:123-149 | In every reachable store and for every step but an append or a crash, the cache afterwards holds exactly the items it held before, less those above the last id that a truncation keeps, those at or below both the purged id and the boundary, or those at or below the boundary in a drain; its size is the sum of what it holds; the boundary is where it was, or at the `last` of the reported chunk. |
| `CacheCalls.AppendCaches` | src/raft_log/state_machine/payload_cache.rs:56-77 | An accepted append puts its item behind the others and evicts from the front exactly the shortest prefix of evictable items that brings the cache within the configured item count and byte capacity, or all evictable ones if none does. |
| `CacheCalls.BatchCaches` | src/raft_log/state_machine/payload_cache.rs:65-77 | After an accepted batch the cache is within both configured limits, or holds no key at or below the boundary. |
| `CacheCalls.LimitsAreConfigured` | src/raft_log/state_machine/mod.rs:30-42 | In every reachable store, crashes and opens included, the cache is held to the item count and the capacity of the store's configuration, each in its place. |
| `CacheCalls.ConfigIsTheOpenedOne` | src/raft_log/raft_log.rs:202-235 | An open takes the configuration it is given; no other step changes it. |
| `Refills.OpenRefills` | src/raft_log/raft_log.rs:202-235 | When the entries in the surviving files fit the configured limits, a crash and an open leave every live entry in the cache. |
| `ByteCrashes.ByteCrashLosesOnlyTheTail` | docs/architecture.md:177-183 | The same as `CrashLosesOnlyTheTail` for files that end at an arbitrary byte behind the synced ones: what decodes is opened, and nothing synced is lost. |
| `ByteCrashes.ByteCutIsRecordCut` | docs/architecture.md:183 | Files torn at any byte decode to exactly the whole records before it, dropping an incomplete record and a file without a complete one. |
| `Replacement.EvictedBeforeWritten` | docs/architecture.md:169-175 | A reachable store with a live entry of the open chunk that is neither cached nor in any file. |
| `Replacement.LostToLaterReport` | docs/architecture.md:169-175 | A reachable store and an accepted append above the eviction boundary, which some run then evicts before it is written. |
| `Buffering.NothingLeftUnbuffered` | src/raft_log/raft_log.rs:389-453 | After any run without `update_state`, crashes and opens included, the oldest closed chunk that is not buffered ends above `purged`. |
| `Buffering.ScanTakesAll` | src/raft_log/raft_log.rs:406-422 | A scan hands over exactly the longest prefix of closed chunks that end at or below `purged`, in order. |
| `Buffering.UpdateEager` | src/raft_log/raft_log.rs:251-262 | An accepted `update_state` leaves nothing removable unbuffered if and only if it closes the open chunk, sets no `purged`, finds no closed chunk, or the oldest one ends above the new `purged`. |
| `Buffering.UpdateLeavesObsoleteChunk` | src/raft_log/raft_log.rs:398-401 | A run after which an obsolete closed chunk is not buffered. |
| `Invariants.AppendAndApplyKeeps` | src/raft_log/raft_log.rs:424-456 | An admissible record is accepted exactly when the state accepts it, never fails once stored, extends the stream by itself, followed by a chunk-leading checkpoint exactly when it fills the chunk, and keeps the invariant; a rejected one leaves the store identical. |
| `Invariants.RotateKeeps` | docs/architecture.md:179-181 | Closing the open chunk adds the checkpoint that opens the next one, and changes neither state nor log. |
| `Invariants.BufferKeeps` | src/raft_log/raft_log.rs:389-401 | Every chunk that is handed over for removal holds nothing live, then and later. |
| `Invariants.FlushKeeps` | src/raft_log/raft_log.rs:135-153 | A flush queues each removal behind a sync of the whole stream. |
| `Invariants.WorkerKeeps` | docs/architecture.md:137-138 | A worker step, an unlink in particular, keeps the invariant: what is unlinked is the oldest file, and it holds nothing live in any stream the disk can still lose. |
| `Invariants.BoundaryKeeps` | src/raft_log/raft_log.rs:207-217 | Moving the boundary to the last id of a synced closed chunk keeps what the cache promises. |
| `Recovery.ReplayAccepts` | src/raft_log/state_machine/mod.rs:74-80 | Replaying the stream from any chunk start accepts every record, and yields the live state, the map built from there, and a cache that keeps its promises. |
| `Recovery.CrashRecovery` | src/raft_log/raft_log.rs:202-235 | At every crash point the surviving files replay to exactly the state and the index map that the live store had after the first `cut` records. |
| `Recovery.OpenKeeps` | src/raft_log/raft_log.rs:219-235 | Opening after a crash succeeds, satisfies the invariant again, and its stream is the first `cut` records, with at most one leading checkpoint more. |
| `Recovery.OpenRestoresBoundary` | src/tests/test_reopen.rs:139-160 | Opening any files leaves the eviction boundary at the `last` reached before the last file, or unset when there is only one. |
| `Opening.OpenDecides` | src/raft_log/raft_log.rs:189-235 | Opening any files succeeds if and only if each starts where the one before it ends and every record is accepted in turn; a gap is an error of its own, and otherwise the error is that of the first record that is not accepted. |
| `Opening.OpenGoesOn` | src/raft_log/raft_log.rs:189-235 | The opened store has the state that the records lead to, goes on in the last file or in a new one behind it that starts with that state, counts what it read as written, and has nothing queued; an empty directory gets a first file. |
| `Runs.ReachableInv` | src/raft_log/raft_log.rs:58-153 | Every reachable store satisfies the invariant. |
| `Histories.SuffixLog` | src/raft_log/state_machine/mod.rs:115-154 | Replaying from chunk `p` gives, after every record, the live map restricted to the entries of chunk `p` and later. |
| `Histories.SuffixState` | src/raft_log/state_machine/raft_log_state.rs:154-181 | Replaying from a chunk start gives, after every record, the live state. |
| `Histories.WindowHolds` | src/raft_log/state_machine/raft_log_state.rs:192-278 | Every stream of admissible records leaves the map one run of indices that ends at `last`. |
| `Histories.EntriesSourced` | src/raft_log/state_machine/mod.rs:123-132 | Each location in the map holds the `Append` of that same id, in that chunk. |
| `Histories.LogResolves` | src/raft_log/log_data.rs:6-10 | The map of locations, read through the records, is the simple log. |
| `Histories.ObsoleteIsDead` | src/raft_log/raft_log.rs:392-396 | A closed chunk whose trailing state has `last <= purged` holds no live entry. |
| `Histories.DeadForever` | src/raft_log/raft_log.rs:392-396 | Once a closed chunk holds no live entry, no later record changes that. |
| `StateMachines.WindowStep` | src/raft_log/state_machine/mod.rs:115-154 | Every admissible record keeps the map one run of indices with rising ids that ends at `last`. |
| `StateMachines.PurgeExactly` | src/raft_log/raft_log.rs:109-128 | A purge, which the code always accepts, keeps that if and only if it is coherent. |
| `StateMachines.ConflictingPurge` | docs/architecture.md:204 | An accepted purge, naming an index with another term than the entry there, that breaks it. |
| `StateMachines.UpdateExactly` | src/raft_log/raft_log.rs:237-262 | A state that passes the check keeps it if and only if `purged` and `committed` are at most `last` and, on an empty log, `last == purged`. |
| `StateMachines.TwoEndpoints` | src/raft_log/state_machine/mod.rs:62-109 | On one run of indices, the two ends fit a state if and only if the whole map is what the state describes. |
| `StateMachines.RaftLogStateMachine.constructor` | src/raft_log/state_machine/mod.rs:30-42 | Starts with an empty map, the default state, and an empty cache with the two limits each in its place (`LimitsAreConfigured`). |
| `StateMachines.RaftLogStateMachine.Check` | src/raft_log/state_machine/mod.rs:44-60 | Gives the answer that applying the record gives, wherever it gets stored; where `purged` and `committed` are at most `last`, accepts an action if and only if vote and commit point do not go back, the commit point stays within the log, and an append comes right after the last entry and above it. |
| `StateMachines.RaftLogStateMachine.CheckCheckpoint` | src/raft_log/state_machine/mod.rs:81-109 | Compares the first and the last entry with the state; an empty log matches any. |
| `StateMachines.RaftLogStateMachine.Apply` | src/raft_log/state_machine/mod.rs:115-154 | Moves map, cache and state as the step functions say, and leaves the boundary alone; what that does to the cache is `CallCaches` and `AppendCaches`. |
| `LogState.AcceptsExactly` | src/raft_log/state_machine/raft_log_state.rs:132-260 | Where `purged` and `committed` are at most `last`, the tests for the five kinds of action accept exactly those that take neither vote nor commit point back, leave the commit point within the log, and append only right after the last entry and above it. |
| `LogState.RaftLogStateCell.Apply` | src/raft_log/state_machine/raft_log_state.rs:132-181 | A rejected record names its error and leaves every field; an accepted one has its effect and no other. `CallRefines` spells both out for each call. |
| `LogState.RaftLogStateCell.TruncateAfter` | src/raft_log/state_machine/raft_log_state.rs:262-266 | `last` only goes down. |
| `LogState.RaftLogStateCell.Purge` | src/raft_log/state_machine/raft_log_state.rs:268-278 | `purged` and `last` only go up. |
| `PayloadCaches.EvictedIsShortest` | src/raft_log/state_machine/payload_cache.rs:65-105 | Eviction removes a prefix and takes its size off the account; it ends within both limits or with nothing evictable, and every shorter prefix would leave a limit exceeded with an evictable item in front. |
| `PayloadCaches.InsertMembers` | src/raft_log/state_machine/payload_cache.rs:56-63 | An insertion adds its item, and loses no item above the boundary. |
| `PayloadCaches.InsertAccounting` | src/raft_log/state_machine/payload_cache.rs:56-63 | The size account stays exact for a fresh key, and is off by the overwritten payload for a present one; the cache ends within its limits or with nothing evictable. |
| `PayloadCaches.DrainedSpec` | src/raft_log/state_machine/payload_cache.rs:79-95 | A drain keeps exactly the items above the boundary, with the matching size. |
| `PayloadCaches.TruncatedAfterSpec` | src/raft_log/state_machine/payload_cache.rs:111-120 | A truncation keeps exactly the items at or below the key, with the matching size. |
| `PayloadCaches.PurgedUptoSpec` | src/raft_log/state_machine/payload_cache.rs:122-131 | A purge drops exactly the items at or below both the key and the boundary, with the matching size. |
| `PayloadCaches.PayloadCache.SetLastEvictable` | src/raft_log/state_machine/payload_cache.rs:31-34 | Moves the boundary and nothing else. |
| `PayloadCaches.PayloadCache.Get` | src/raft_log/state_machine/payload_cache.rs:107-109 | Returns the payload of the key, if cached. |
| `PayloadCaches.PayloadCache.EvictFirst` | src/raft_log/state_machine/payload_cache.rs:101-105 | Removes the lowest item; the unsigned size does not underflow. |
| `PayloadCaches.PayloadCache.TryEvict` | src/raft_log/state_machine/payload_cache.rs:65-77 | The loop ends, and does the eviction that `EvictedIsShortest` characterises. |
| `PayloadCaches.PayloadCache.Insert` | src/raft_log/state_machine/payload_cache.rs:56-63 | Inserts and evicts. |
| `PayloadCaches.PayloadCache.DrainEvictable` | src/raft_log/state_machine/payload_cache.rs:87-95 | The loop does the drain that `DrainedSpec` characterises. |
| `PayloadCaches.PayloadCache.TruncateAfter` | src/raft_log/state_machine/payload_cache.rs:111-120 | The pop-and-put-back loop does the truncation that `TruncatedAfterSpec` characterises. |
| `PayloadCaches.PayloadCache.PurgeUpto` | src/raft_log/state_machine/payload_cache.rs:122-131 | The pop-and-put-back loop does the purge that `PurgedUptoSpec` characterises. |
| `PayloadCaches.PayloadCache.Clear` | src/raft_log/state_machine/payload_cache.rs:133-136 | Empties the cache and its account. |
| `CacheHistories.CoherentStep` | src/raft_log/state_machine/mod.rs:123-149 | Every admissible record keeps each cached key at most `last`, live keys with the right payload, other keys below the log, and the account exact; so an appended key is always fresh. |
| `CacheHistories.StaleExactly` | src/raft_log/state_machine/payload_cache.rs:122-131 | Every cache whose keys are live or at most `purged` stays so if and only if the record leaves `purged` above all it takes out of the log. |
| `StaleKeys.StaleAfterUpdate` | src/raft_log/state_machine/payload_cache.rs:122-131 | A reachable store with no stale key above `purged`, and an `update_state` after which there is one. |
| `StaleKeys.StaleAfterLowPurge` | src/raft_log/state_machine/payload_cache.rs:122-131 | A reachable store with no stale key above `purged`, and a purge after which there is one. |
| `CacheHistories.ServedStep` | src/raft_log/state_machine/mod.rs:123-149 | Entries from an offset on stay cached and protected through every record, as long as appended ids are above the boundary. |
| `RaftLogs.RaftLog.ReplayRecord` | src/raft_log/state_machine/mod.rs:115-154 | Applies one record where it was stored, after moving the boundary at the start of a later chunk. |
| `RaftLogs.RaftLog.ReplayFile` | src/raft_log/raft_log.rs:189-201 | Replays one file; the first rejected record ends it. |
| `RaftLogs.RaftLog.Replay` | src/raft_log/raft_log.rs:189-201 | Replaying file by file is replaying the stream, and yields the state at the end of each chunk. |
| `RaftLogs.RaftLog.Open` | src/raft_log/raft_log.rs:202-235 | Opens exactly the store on values, or fails with the same error; `OpenDecides`, `OpenGoesOn` and `LimitsAreConfigured` say which. |
| `RaftLogs.RaftLog.BufferRemovableChunks` | src/raft_log/raft_log.rs:406-422 | The two loops do the scan that `ScanTakesAll` characterises. |
| `RaftLogs.RaftLog.AppendAndApply` | src/raft_log/raft_log.rs:424-456 | Check, store, apply, close when full, buffer: the store on values, with its answer or error, and with applying proved not to fail. |
| `RaftLogs.RaftLog.SaveUserData` | src/raft_log/raft_log.rs:59-67 | The call on values, whose effect and error are those of `CallRefines` and whose answer is that of `AnswerIsLastRecord`. |
| `RaftLogs.RaftLog.SaveVote` | src/raft_log/raft_log.rs:69-72 | The call on values, whose effect and error are those of `CallRefines` and whose answer is that of `AnswerIsLastRecord`. |
| `RaftLogs.RaftLog.Append` | src/raft_log/raft_log.rs:74-82 | The loop over the batch is the call on values, one entry after the other as in `AppendAllLast`; effect, error and answer likewise. |
| `RaftLogs.RaftLog.Truncate` | src/raft_log/raft_log.rs:84-107 | The call on values, with both ways of not finding the entry to keep; effect, error and answer likewise. |
| `RaftLogs.RaftLog.Purge` | src/raft_log/raft_log.rs:109-128 | The call on values; at or below `purged` nothing happens. Effect and answer likewise, the cache as in `CallCaches`. |
| `RaftLogs.RaftLog.Commit` | src/raft_log/raft_log.rs:130-133 | The call on values, whose effect and error are those of `CallRefines` and whose answer is that of `AnswerIsLastRecord`. |
| `RaftLogs.RaftLog.UpdateState` | src/raft_log/raft_log.rs:251-262 | The call on values, behind the check of the two ends; effect, error and answer likewise. |
| `RaftLogs.RaftLog.Flush` | src/raft_log/raft_log.rs:135-153 | The call on values, which `FlushedIsWritten`, `FlushWithSync` and `FlushWithoutSync` characterise; only a sync flush hands over chunks for removal. |
| `RaftLogs.RaftLog.ReadEntry` | src/raft_log/raft_log.rs:274-303 | From the cache if it is there, otherwise from what the worker has written of its chunk; not there yet, the read fails. |
| `RaftLogs.RaftLog.Read` | src/raft_log/raft_log.rs:268-304 | On every store that satisfies the invariant, exactly the simple log's entries of the range if and only if each of them is cached or written. |
| `RaftLogs.RaftLog.DrainCacheEvictable` | src/raft_log/raft_log.rs:372-378 | Drains the cache and touches nothing else. |
| `RaftLogs.RaftLog.OnChunkPersisted` | src/raft_log/raft_log.rs:207-217 | Moves the boundary to the `last` of the reported checkpoint. |
| `Codecs.CutStreamDecodes` | src/raft_log/raft_log_action.rs:117-163 | For any self-delimiting codec: a stream cut at any byte decodes to exactly the values wholly there, and ends clean or torn, never corrupt. |
| `Codecs.TornTail` | src/raft_log/raft_log_action.rs:117-163 | Values followed by any strict prefix of one more decode to exactly those values, then run out of bytes. |
| `Codecs.StreamIsUnambiguous` | src/raft_log/raft_log_action.rs:117-163 | No byte string is the encoding of two streams. |
| `Codecs.FrameReads` | src/raft_log/raft_log_action.rs:112-163 | A tag, a self-delimiting payload and the checksum over both are self-delimiting again. |
| `RecordCodecs.StateReads` | src/raft_log/state_machine/raft_log_state.rs:50-93 | A version byte and five optional fields round-trip with any tail, and cut anywhere run out of bytes. |
| `RecordCodecs.PayloadReads` | src/raft_log/raft_log_action.rs:48-81 | Under its own tag each kind of payload round-trips with any tail, and cut anywhere runs out of bytes. |
| `RecordCodecs.RecordsAreSelfDelimiting` | src/raft_log/raft_log_action.rs:117-163 | Whatever follows a record, decoding returns it and takes exactly its bytes; cut anywhere it runs out of bytes. |
| `RecordCodecs.CutRecordsDecode` | docs/architecture.md:183 | A record stream cut at any byte decodes to exactly the records wholly there. |
| `RecordCodecs.TornRecord` | src/raft_log/raft_log_action.rs:152-163 | Records followed by a torn one decode to exactly the records. |
| `RecordCodecs.DecodedIsVerified` | src/raft_log/raft_log_action.rs:152-163 | What decodes has a known tag, takes no more bytes than there are, and has the checksum of its tag and payload right behind them. |
| `RecordCodecs.RecordLayout` | src/raft_log/raft_log_action.rs:112-145 | A record is four bytes with its tag, 0 to 4 for the actions in their order and 5 for the checkpoint, its payload, and the eight bytes of the checksum over both. |
| `RecordCodecs.WrongChecksumIsCorrupt` | src/raft_log/raft_log_action.rs:152-163 | Whole records and then one whose checksum is another decode to exactly the whole records and end corrupt, never torn, whatever comes behind. |
| `RecordCodecs.UnknownTagIsCorrupt` | src/raft_log/raft_log_action.rs:63-81 | The same for a tag above 5. |
| `RecordCodecs.UnknownVersionIsCorrupt` | src/raft_log/state_machine/raft_log_state.rs:67-93 | The same for a checkpoint whose format version is not 1. |
| `RecordStreams.ChecksumWriter.WriteState` | src/raft_log/state_machine/raft_log_state.rs:50-65 | Writes exactly the encoding and returns its length. |
| `RecordStreams.ChecksumWriter.WritePayload` | src/raft_log/raft_log_action.rs:48-61 | Writes exactly the encoding and returns its length. |
| `RecordStreams.WriteRecord` | src/raft_log/raft_log_action.rs:118-145 | Appends exactly the encoding of the record, returns its length, and never meets the reserved tag. |
| `RecordStreams.Reader.ReadState` | src/raft_log/state_machine/raft_log_state.rs:67-93 | Returns what the bytes decode to and stops right behind it; an unknown version is invalid data. |
| `RecordStreams.Reader.ReadPayload` | src/raft_log/raft_log_action.rs:63-81 | Returns what the bytes decode to under the tag and stops right behind it; an unknown tag is invalid data. |
| `RecordStreams.Reader.VerifyChecksum` | src/raft_log/raft_log_action.rs:159 | Fewer than eight bytes behind the payload are an unexpected end; eight others than its checksum are invalid data. |
| `RecordStreams.Reader.ReadRecord` | src/raft_log/raft_log_action.rs:152-163 | Returns the record that starts here and stops right behind its checksum; too few bytes and a wrong checksum are told apart. |
| `TestFormats.TestFormatIsSound` | src/testing.rs:15-38 | The field codecs of the crate's tests, with any checksum of the right width, keep the law that the record codec asks for. |
| `TestFormats.TestVectors` | src/raft_log/raft_log_record.rs:26-106 | Vote, commit, truncation and purge are, byte by byte, those of the test vectors: tag, fields, and the checksum of both. |
| `TestFormats.AppendBytes` | src/raft_log/raft_log_record.rs:46-64 | So is an append of any short text under small numbers. |
| `TestFormats.TruncateAllBytes` | src/raft_log/raft_log_action.rs:48-61 | A truncation that keeps nothing is its tag, a zero byte, and the checksum of both. |
| `TestFormats.CheckpointVector` | src/raft_log/raft_log_record.rs:108-141 | So is the checkpoint with those numbers in all five fields and any short text. |

## Left out

- UncachedIsPersisted: needs that each appended id is above the `last` of every chunk-closing checkpoint before it; without that it fails, see `EvictedBeforeWritten` and `LostToLaterReport`, and `AppendStaysReadable` gives the exact condition for one append. An entry from before the last open is only known to be written.
- CacheIsCoherent: that other keys are at or below `purged` needs that no record leaves `purged` below what it takes out of the log, see `StaleExactly`.
- NothingLeftUnbuffered: needs that the run has no `update_state`, see `UpdateEager` for the exact condition.
- StoreIsASimpleLog: speaks of runs without a crash, see `StoreIsASimpleLogWithCrashes`.
- LogIsOneRun: holds under the coherent purges and updates of `Runs.Enabled`, see `PurgeExactly` and `UpdateExactly`.
- ReadIsExact: needs the same of appended ids, see `ReadIsExactWhenInReach` for the exact condition.
- AppendStaysReadable: speaks of runs without a crash; an entry that a crash drops was not synced, see `SyncedStays`.
- TestVectors: the checksum bytes are not computed, because the checksum is any function with 8-byte results; where it is and what it is taken over is stated.
- OpenDecides: whether a gap or a rejected record is reported when files have both is decided inside `chunked-wal`; the model reports the gap.
- AnswerIsLastRecord: a `Segment` also holds the length of the record; the model answers its offset.
- TestFormatIsSound: a log id with index `u64::MAX` decodes in the source and is malformed in the model, because indices stay below it.
- The types of the crate's user are fixed: log ids are `(term, index)` in lexicographic order, votes are totally ordered pairs, payloads and user data are bytes, and the payload size is the length.
- Indices stay below `u64::MAX`, because `next_log_index` adds one.
- Chunk ids and segments count records where the source counts bytes; the rotation policy is any predicate on the open chunk's records.
- The files of the `chunked-wal` crate are used through their contract: appends to the open chunk, a first-in first-out worker, closed chunks that are synced on rotation, files unlinked whole, and an open that either goes on with the last chunk or starts a new one. The crate itself, its batching, back-pressure and directory lock are not part of this model.
- The choice between action and checkpoint when a record is decoded is made in `chunked-wal`; the model puts both behind one tag.
- I/O errors, channel errors and flush callbacks do not occur; sends and writes into the buffer succeed.
- Zero-filled tails, corrupted bytes and the option not to truncate an incomplete record.
- Whether a string payload is valid UTF-8.
- Each locked call on the cache is one atomic step.
- Hit and miss counters, `dump`, `stat`, display, configuration defaults and the error types' texts.
