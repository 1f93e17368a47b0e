# Flywheel: verified model

Flywheel is a disk-backed artifact cache with a routing agent, a client protocol and a caching proxy.
This project models the parts of it that carry state across calls, tasks and crashes, and proves what
they keep in every run. It is written in Dafny 4.11; `dafny verify dfyconfig.toml` checks everything.

| file | what it models |
|---|---|
| `SpaceLedger`, `Uploads`, `Staging` | free-space accounting, any number of interleaved uploads, one body staged under a growing reservation |
| `Store`, `ReadBack`, `StoreKeys` | the metadata tables and their atomic batches, what each key reads back after any history, the durable key bytes, range deletion and the ordered queue scan |
| `RecentUse`, `Maintenance`, `Deadlines`, `SharedPass` | the two packed recency filters, the bounded eviction pass, the deadlines it sets, and the pass among other tasks |
| `Encodings`, `Publication`, `Targets`, `Lookups`, `Visibility`, `PublicationRuns` | hasher, writer and temporary files; publish, look up, evict, self-heal, recover and crash, one call per step; what becomes of each upload |
| `ChannelDeletion`, `FencedWrites`, `DeletedRows` | gates, leases, the persisted Deleting mark, forgotten gates, requeues, restart and resume; what each task behind a gate leaves, and what stays of a deleted channel |
| `Ring`, `RingState`, `Failures`, `RoutingKey` | the hash continuum, ejection and readmission around it, failures counted on the calls, the routing-key encoding |
| `Manifest`, `ProtocolReader`, `SingleFlight` | the manifest merge, the cancellable line reader, the proxy's lock map |
| `Words`, `Bytes`, `Sorting`, `Sums`, `Identity` | fixed-width arithmetic, byte order, sorting, totals, identifiers |

The shape is the same throughout. A specification is a set of functions on values. Objects that the
program updates in place are classes whose methods are proved to compute those functions of the old
state. Protocols between tasks are machines: `Enabled` says which steps may happen, `Step` or `Apply`
what they do, and `IsRun` describes any interleaving of any length. The theorems are about every run, and
say what happened in terms of the actions, calls or operations of that run, not of the functions above.

SHA-256 and the ring hash are arbitrary functions; only content addressing assumes that no two bodies
ever staged collide. zstd is an abstract streaming encoder whose closed frames expand to the body,
however it was cut into chunks. JSON parsing is any function. The clock, the filesystem's answers, the
recency hash and the free-space observation are parameters.

Where the code and its comments disagree, the model follows the code:

- `refresh` samples free space before it takes the ledger lock (`src/cache/space.rs:114-115`), although
  the comment above it places both under the lock. `Uploads.AccountedExactly` says in exactly which
  states the free space is what the accounts explain, `Uploads.LostCommitRun` is a run that loses a body.
- A reservation is marked published only after the rename has returned
  (`src/storage/local/artifact_files.rs:448-460`). An upload dropped in between releases space that a
  real file takes: the same theorem, and `Uploads.StrayRun`.
- `update_expiry` writes its whole record back under a shared lease (`src/channel/service.rs:159-167`).
  `ChannelDeletion.CrashInsideFinishResumes` gives the exact condition on the run under which a crashed
  deletion resumes, `ChannelDeletion.OverwriteRun` a run in which it does not.
- `requeue` reads a record and writes it back in a second call, under the artifact's stripe but without
  the channel's gate (`src/storage/metadata/rocksdb.rs:254-285`, `src/cache/service.rs:342-353`), and calls
  itself atomic. If the channel is deleted in between, the write restores a record and a queue row:
  `DeletedRows.RowsGoneExactly` says exactly when, `DeletedRows.StraddlingRun` shows it for any artifact.
- The self-heal of a lookup does not look again before it removes the row
  (`src/cache/service.rs:414-417`): `Visibility.HealIsLateExactly` and `Visibility.VisibleExactly` say
  exactly what that costs, `PublicationRuns.HealHidesRepublication` shows it with every stripe respected.
- A file and a record can be paired across encodings, since a publication keeps whichever of the two it
  finds (`src/storage/local/artifact_files.rs:443-447`, `src/storage/metadata/rocksdb.rs:90-104`).
  `Lookups.HitServesExactly` gives the exact condition on the run, `PublicationRuns.MixedEncodingRun` a run.
- The flight drop and the clone drop are two steps (`src/proxy/mod.rs:991-995`), so an entry can outlive
  its requests: `SingleFlight.StrandedExactly` says exactly when, `SingleFlight.LeakRun` shows it.
- Merging the manifest twice is not one merge when a stored entry was seen after now:
  `Manifest.ComposesExactly` (`src/cacheprog/session.rs:111-145` does not state the condition).
- With `retry_timeout` 0, or a deadline past the 64-bit maximum, a failure that reports an ejection
  leaves the member in the ring: `RingState.EjectionLeavesRing`.
- `docs/architecture.md:212` gives the eviction row a byte count; the code writes an empty value, and so
  does the model.

## Model

| member | source | states |
|---|---|---|
| `SpaceLedger.AdmissionIsExact` | src/cache/space.rs:128-134 | a non-zero amount is admitted, in saturating arithmetic, exactly when the unsaturated inequality reserved + committed + headroom + bytes <= observed holds and the ledger is not degraded |
| `SpaceLedger.AvailableIsExact` | src/cache/space.rs:128-134 | what is available is the observation less everything spoken for, and never less than nothing |
| `SpaceLedger.SharedLedger.constructor` | src/cache/space.rs:91-105 | the ledger starts degraded with nothing reserved and takes its first observation |
| `SpaceLedger.SharedLedger.Refresh` | src/cache/space.rs:113-126 | a successful observation replaces the old one and resets the committed count, and from then on exactly the amounts that fit are admitted; after a failed one no non-zero amount is, and every other field is as it was |
| `SpaceLedger.SharedLedger.CurrentMode` | src/cache/space.rs:137-155 | hysteresis: Normal is left below the low watermark, Reclaiming is left at the high one, and the remembered mode is the reported one |
| `SpaceLedger.SharedLedger.TryReserve` | src/cache/space.rs:174-185 | grants exactly the admitted amounts, adds them to reserved, and a non-zero grant establishes the exact inequality |
| `SpaceLedger.SharedLedger.Release` | src/cache/space.rs:187-190 | takes the amount off reserved and nothing else |
| `SpaceLedger.SharedLedger.Commit` | src/cache/space.rs:192-197 | moves the amount from reserved to committed |
| `Uploads.StepKeeps` | src/storage/local/artifact_files.rs:27-173 | every step of every upload, a rename whose upload is dropped before it is marked included, keeps: reserved equals the sum still owed by live reservations and pending settlements, granted = released + committed + owed, and the free space is exactly what the observation, the counters and the debt explain; a reservation finds room up to the debt |
| `Uploads.RunKeepsAccounts` | src/storage/local/artifact_files.rs:45-173 | those accounts hold at every moment of every interleaving, dropped futures and failed removals included |
| `Uploads.SettlingNeverSaturates` | src/cache/space.rs:187-197 | releasing and committing change the counters by the exact amount: the saturating operations never saturate |
| `Uploads.ReservingNeverSaturates` | src/storage/local/artifact_files.rs:100-109 | a granted reservation grows the ledger and the upload's own count by exactly the amount |
| `Uploads.AwaitSound` | src/storage/local/artifact_files.rs:91-173 | whatever other tasks do between two steps of an upload, it finds its reservation as it left it and the ledger still backing it |
| `Uploads.EvolvesKeeps` | src/storage/local/artifact_files.rs:91-173 | the same from any state that keeps the accounts |
| `Uploads.SettledExactlyOnce` | src/storage/local/artifact_files.rs:112-173 | when all uploads of a run are over, everything granted was released or committed once and nothing stays reserved |
| `Uploads.ReservationHolds` | src/cache/space.rs:173-197 | from a successful non-zero reservation to the next successful refresh the exact inequality survives every step of every task |
| `Uploads.FailedRefreshAdmitsNothing` | src/cache/space.rs:113-126 | in every run, from a refresh whose sample failed until one succeeds, no upload is granted a byte, and the failed one changes no number of the ledger |
| `Uploads.NothingBeforeFirstRefresh` | src/cache/space.rs:91-105 | in every run nothing is granted before the first successful refresh |
| `Uploads.ModeFollowsWatermarks` | src/cache/space.rs:137-155 | reading the mode changes only what is remembered: Reclaiming is entered below the low watermark and left at the high one |
| `Uploads.AccountedExactly` | src/cache/space.rs:107-126 | at any moment of any run the free space equals observation - committed - unseen + freed + overcharged if and only if, since the last successful refresh, no refresh installed a sample that a body written and settled in its window was missing from, and no renamed body was released; otherwise it is smaller |
| `Uploads.LostExactly` | src/cache/space.rs:113-126 | a sample under way misses bytes exactly when a body it had not seen in full was settled while its window was open |
| `Uploads.DebtExactly` | src/storage/local/artifact_files.rs:62-89 | bytes are known to nobody exactly in those states |
| `Uploads.RunKeepsRoom` | src/cache/space.rs:173-185 | in every run the free space plus the worst debt in which a reservation was granted covers the headroom and everything live uploads may still write |
| `Uploads.UploadsStayAboveHeadroom` | src/cache/space.rs:173-185 | while no reservation is granted in an unaccounted state, uploads leave the emergency headroom free |
| `Uploads.LostCommitRun` | src/cache/space.rs:113-126 | without the condition that fails, for every body that fits into the headroom: a refresh forgets a committed body and the run ends one body below the headroom |
| `Uploads.StrayRun` | src/storage/local/artifact_files.rs:448-460 | so does a run in which an upload is dropped between its rename and its mark |
| `Staging.Reservation.constructor` | src/storage/local/artifact_files.rs:92-98 | a new reservation owes nothing and has no file; it is a new upload of the interleaving machine |
| `Staging.MirrorIsBacked` | src/storage/local/artifact_files.rs:27-43 | the ledger holds at least what any upload of the machine owes, and its two counters never overflow together |
| `Staging.Reservation.Await` | src/storage/local/artifact_files.rs:341-356 | at an await the machine moves only by steps of others, and the reservation still stands where its upload does |
| `Staging.Reservation.MarkTemporary` | src/storage/local/artifact_files.rs:130-132 | arming cleanup is a step of the machine and changes nothing owed |
| `Staging.Reservation.Reserve` | src/storage/local/artifact_files.rs:100-109 | zero always succeeds; otherwise the ledger decides, and both counts grow together or not at all |
| `Staging.Reservation.Cover` | src/storage/local/artifact_files.rs:350-354 | grows by whole extents until the length is covered, with less than one extent to spare, or stops where the ledger refuses an extent |
| `Staging.Reservation.CoverStored` | src/storage/local/artifact_files.rs:366-370 | grows to exactly the encoded size when that is more than what is reserved, or stops where the ledger refuses the difference |
| `Staging.Reservation.Commit` | src/storage/local/artifact_files.rs:112-120 | charges at most what is owed and takes the whole reservation off reserved; its two ledger calls are two steps of the machine, which end the upload |
| `Staging.Reservation.Discard` | src/storage/local/artifact_files.rs:145-173 | releases unless a file may be left behind: a published body, or a temporary one whose removal failed, is committed; abandoning, removing and settling are steps of the machine, which end the upload |
| `Staging.StageWriter.constructor` | src/storage/local/artifact_files.rs:208-213 | nothing accepted, buffered or on disk |
| `Staging.StageWriter.WriteAll` | src/storage/local/artifact_files.rs:215-220 | disk and buffer together stay the encoder's output for the chunks accepted, however much of it drains |
| `Staging.StageWriter.Finish` | src/storage/local/artifact_files.rs:225-237 | after closing and flushing the whole frame is on disk |
| `Staging.BrokenStays` | src/storage/local/artifact_files.rs:341-348 | the first failure of a stream decides its outcome, whatever follows |
| `Staging.WholeDelivers` | src/storage/local/artifact_files.rs:341-356 | a stream is accepted with a body exactly when that body is the concatenation of its chunks and fits the limit |
| `Staging.WriteChunk` | src/storage/local/artifact_files.rs:350-356 | a chunk is written only once its length is covered; out of space and a failed write are told apart |
| `Staging.StreamBody` | src/storage/local/artifact_files.rs:341-356 | the chunk loop hashes and writes exactly the accepted body, covered by the reservation; a failed stream, an over-long one, a failed write and a refused extent are each reported for that cause |
| `Staging.OpenFile` | src/storage/local/artifact_files.rs:326-337 | the file is open exactly when directory and open succeed; cleanup is armed once the directory exists |
| `Staging.CloseFile` | src/storage/local/artifact_files.rs:358-383 | after the flush the file decodes to the hashed bytes, and the reservation covers its size or the ledger refuses the difference |
| `Staging.StageReserved` | src/storage/local/artifact_files.rs:313-384 | terminates on any stream; on success the file decodes to the whole body, the digest and length are that body's, both lengths are covered and at most max(initial, len + extent - 1, stored) is reserved; out of space means that the ledger refuses an extent the stream outgrew or the rest of the encoded size |
| `Staging.Stage` | src/storage/local/artifact_files.rs:257-308 | rejected exactly when the initial reservation is refused, with the ledger unchanged; a failure has the causes above, leaves nothing owed and settles the reservation as the cleanup found it; the initial reservation is the declared length up to max_bytes, or one extent when none is declared; success as above with len <= max_bytes; whatever the outcome, the call is a step sequence of the interleaving machine |
| `Staging.ChargePublication` | src/cache/service.rs:451-482 | the final commit charges exactly the stored length for a new file and nothing for a duplicate |
| `Store.PerformKeepsQueue` | src/storage/metadata/rocksdb.rs:76-160 | every operation, requeueing to an equal deadline included, keeps the queue equal to {(channel, deadline, artifact)} over all records |
| `Store.HistoryKeepsQueue` | src/storage/metadata/rocksdb.rs:254-325 | the queue is exact after any sequence of operations from an empty store |
| `Store.LogReplays` | src/storage/metadata/rocksdb.rs:423-434 | replaying the batches a history wrote, without reading what they were computed from, gives the history's tables |
| `Store.CrashKeepsQueue` | src/storage/metadata/rocksdb.rs:390-403 | replaying any prefix of the batches leaves an exact queue, and so does carrying on from there with any operations |
| `Store.RocksMetadata.Write` | src/storage/metadata/rocksdb.rs:423-434 | one call is one atomic batch and keeps the queue exact |
| `Store.RocksMetadata.Commit` | src/storage/metadata/rocksdb.rs:76-116 | reports created exactly for a missing record; an existing record is kept as it was; a given name is bound to its record, no other name and no channel record changes |
| `Store.RocksMetadata.MoveDeadline` | src/storage/metadata/rocksdb.rs:254-287 | moves record and row together when the deadline is the expected one, otherwise changes nothing |
| `Store.RocksMetadata.EvictRow` | src/storage/metadata/rocksdb.rs:289-325 | removes the record and reports its stored length exactly when the row is current; a stale row never costs a record |
| `ReadBack.NameReadsBack` | src/storage/metadata/rocksdb.rs:76-220 | after any history a name is bound to a record if and only if some publication or binding gave it that record and no later operation bound it, unbound it or deleted its channel's data |
| `ReadBack.RecordReadsBack` | src/storage/metadata/rocksdb.rs:76-160 | after any history a key reads back a record if and only if it is the one of a commit that found the key absent, at the deadline that the requeues since have moved it to, and no removal, no eviction at its current deadline and no channel deletion followed; later commits change nothing |
| `ReadBack.ChannelReadsBack` | src/storage/metadata/rocksdb.rs:348-415 | after any history a channel reads back a record if and only if that was stored last and its deletion has not been finished since |
| `StoreKeys.DigitsOrder` | src/storage/metadata/rocksdb.rs:454-465 | byte strings of one length compare as the big-endian numbers they spell |
| `StoreKeys.BigEndianRoundTrip` | src/storage/metadata/rocksdb.rs:454-481 | reading a big-endian number back gives the number, at every width |
| `StoreKeys.RowRoundTrip` | src/storage/metadata/rocksdb.rs:467-481 | a queue key has 66 bytes; decoding gives back its deadline and digest, its prefix is the channel and its last 32 bytes are the digest |
| `StoreKeys.RowOrder` | src/storage/metadata/rocksdb.rs:454-465 | within a channel, byte order of queue keys is numeric (deadline, digest) order, both ways |
| `StoreKeys.PrefixEndIsNext` | src/storage/metadata/rocksdb.rs:494-497 | the end of the range is the least bound above a channel: at or below another channel exactly when that channel is greater |
| `StoreKeys.RangeIsChannel` | src/storage/metadata/rocksdb.rs:494-497 | a channel-prefixed key lies in the range exactly when it belongs to the channel |
| `StoreKeys.RangeDeleteRemovesChannel` | src/storage/metadata/rocksdb.rs:390-403 | deleting the byte range from a column family removes exactly that channel from the table it represents |
| `StoreKeys.KeysAreChannelPrefixed` | src/storage/metadata/rocksdb.rs:436-465 | artifact, reference and queue keys all start with their channel |
| `StoreKeys.KeysDistinguish` | src/storage/metadata/rocksdb.rs:436-452 | no two artifacts and no two names share a key |
| `StoreKeys.ReclaimCandidates` | src/storage/metadata/rocksdb.rs:222-249 | the prefix scan over key bytes returns exactly the first `limit` entries of the channel's (deadline, digest) order |
| `StoreKeys.ScanIsHeads` | src/storage/metadata/rocksdb.rs:222-249 | stopping a scan at the limit or at the first foreign key loses no entry of the channel and admits none of another |
| `RecentUse.SetBitSetsOne` | src/cache/recent_use.rs:33-38 | setting one bit of a packed word changes that bit only |
| `RecentUse.SlotsAfterSet` | src/cache/recent_use.rs:33-38 | marking a slot of a packed filter adds exactly that slot |
| `RecentUse.Probes` | src/cache/recent_use.rs:62-79 | a key claims the slots of four probes and no others |
| `RecentUse.PositionIs` | src/cache/recent_use.rs:70-78 | probe i of a hash with halves (high, low) is at low + i * high, the high half made odd, modulo the size; the wrapping operations never wrap |
| `RecentUse.ProbesAreFour` | src/cache/recent_use.rs:67-78 | in a filter of whole words the four probes of every hash are four different slots |
| `RecentUse.MarksAreTold` | src/cache/recent_use.rs:33-45 | of two keys whose hashes send them to different slots, marking one does not show the other |
| `RecentUse.NoFalseNegatives` | src/cache/recent_use.rs:40-45 | whatever collides, a key marked in the current or previous window is seen |
| `RecentUse.MarkSurvivesOneRotation` | src/cache/recent_use.rs:47-53 | a mark is seen before and after one rotation, and two rotations without marks forget everything |
| `RecentUse.Filters.constructor` | src/cache/recent_use.rs:22-31 | both filters start empty, with the size rounded up to whole words |
| `RecentUse.Filters.MarkUse` | src/cache/recent_use.rs:33-38 | the active filter afterwards holds exactly the probe bits of the window's marks, the new one included; the other is untouched |
| `RecentUse.Filters.RotateWindows` | src/cache/recent_use.rs:47-53 | the current window becomes the previous one and the new one is empty, exactly, in both packed filters |
| `RecentUse.Filters.Contains` | src/cache/recent_use.rs:55-60 | true exactly when all probe slots of the key are set in that filter |
| `RecentUse.Filters.SeenRecently` | src/cache/recent_use.rs:40-45 | answers from the bits exactly what the two windows of marks imply |
| `Maintenance.ExamineQueued` | src/cache/service.rs:337-379 | on an exact queue a scanned row is never stale: it is either moved with its record or unlinked and removed with it |
| `Maintenance.PassInBudget` | src/cache/service.rs:319-384 | a pass reclaims and requeues at most `limit` candidates over all channels, and everything before the last reclaimed body fits strictly in the byte budget |
| `Maintenance.PassConserves` | src/cache/service.rs:319-384 | a pass keeps the queue exact and registry and references unchanged; the records and the files that are gone are exactly those it counts as reclaimed, each once |
| `Maintenance.NormalEvictsColdAndDue` | src/cache/service.rs:334-356 | a record or file missing after a Normal pass was past its deadline and not seen by the filter; every other record is unchanged, or was seen and has only its deadline moved |
| `Maintenance.NormalKeepsSeen` | src/cache/service.rs:343-356 | an artifact the filter has seen survives a Normal pass |
| `Maintenance.NormalLeavesNothingDue` | src/cache/service.rs:319-384 | if neither budget runs out, no due row remains in any visited channel with a positive expiry |
| `Deadlines.PassMovesDeadlines` | src/cache/service.rs:324-353 | a surviving record whose deadline a pass moved was seen, in Normal mode, and is now due at min(now + the expiry its channel's record names, the 64-bit maximum), with nothing else of it changed; so is every record the pass logged as requeued, each of which was due; every candidate spent was reclaimed or so moved |
| `Deadlines.SeenDueMoves` | src/cache/service.rs:337-353 | if neither budget runs out, every artifact of a visited channel that was due and seen is moved to that deadline |
| `Maintenance.ChannelReclaims` | src/cache/service.rs:329-379 | a Reclaiming sweep of a channel evicts its candidates in order until a budget runs out, at least one if it has any |
| `Maintenance.ReclaimingEvictsPrefixes` | src/cache/service.rs:323-384 | from each channel a Reclaiming pass removes a prefix of the (deadline, digest) order and nothing else |
| `Maintenance.ReclaimingMakesProgress` | src/cache/service.rs:323-384 | with positive budgets a Reclaiming pass removes something whenever a visited channel has an artifact |
| `Maintenance.BurstBounded` | src/main.rs:113-139 | without publications, the artifact count at the start bounds the productive passes of a burst |
| `SharedPass.UninterruptedIsExamine` | src/cache/service.rs:341-379 | looking, unlinking and evicting without interruption is the examination of a pass by itself |
| `SharedPass.SharedPassKeeps` | src/cache/service.rs:319-384 | with any store and file operations between any two of these steps the queue stays exact and the pass stays in both budgets |
| `SharedPass.HandOrigin` | src/cache/service.rs:357-369 | a candidate in hand goes back to the step that looked at it and read whether its row was current |
| `SharedPass.SharedPassEvicts` | src/cache/service.rs:357-379 | looking takes nothing; only the body of a row that was current when looked at is unlinked; evicting takes a record exactly when its row is current at that step, else nothing is taken or counted; in Normal mode the record taken is due and was not seen |
| `Maintenance.EveryChannelLeads` | src/cache/service.rs:316-319 | within as many passes as there are channels every channel is visited first, from any cursor |
| `Maintenance.LeaderReclaims` | src/cache/service.rs:307-385 | and a channel visited first under Reclaiming loses the head of its queue, whatever the others hold |
| `Maintenance.LocatedSurvivesTwoPasses` | src/lib.rs:118-126 | an artifact located before a pass survives that Normal pass and the next, with a rotation in between and any other marks |
| `Maintenance.ActiveChannels` | src/cache/service.rs:500-515 | the active channels of the registry, each once, in key order |
| `Maintenance.CacheService.constructor` | src/cache/service.rs:96-111 | a service over an exact store and valid filters |
| `Maintenance.CacheService.ExamineOne` | src/cache/service.rs:341-379 | one candidate under its stripe does to store and files what the specification does, reading recency from the packed filters |
| `Maintenance.CacheService.SweepChannel` | src/cache/service.rs:329-379 | the candidate loop with its early exits computes the channel pass, budgets and count included |
| `Maintenance.CacheService.SweepChannels` | src/cache/service.rs:319-384 | the channel loop computes the full pass from one pair of budgets |
| `Maintenance.CacheService.RunMaintenanceOnce` | src/cache/service.rs:310-385 | refreshes, derives the mode, rotates the key-ordered active channels by the cursor, advances the cursor, and performs exactly that full pass |
| `ChannelDeletion.ExclusiveAlone` | src/channel/service.rs:199-205 | until a deletion has finished, no other task is fenced or exclusive while it runs |
| `ChannelDeletion.StepKeeps` | src/channel/service.rs:122-205 | every step, cancelled tasks, unfenced evictions, both halves of a requeue and restarts included, keeps the gate and stripe discipline, the exact queue, the removed files and the condemned record |
| `ChannelDeletion.RunKeeps` | src/cache/service.rs:424-527 | the invariant holds at every moment of every interleaving |
| `ChannelDeletion.FinishedForever` | src/channel/service.rs:199-205 | once the registry row is deleted no step undoes it |
| `ChannelDeletion.BatchIsRequeue` | src/storage/metadata/rocksdb.rs:254-285 | the batch a requeue writes is the store's requeue on the tables that it read, not on those it writes to |
| `ChannelDeletion.WrittenKeepsQueue` | src/storage/metadata/rocksdb.rs:273-282 | even a late write keeps the eviction queue exact, because the stripe keeps everything but a wipe away from the record |
| `FencedWrites.PublishLands` | src/cache/service.rs:443-488 | a fenced publication adds its file and nothing else, then its record and row if there is none, and the name it was given |
| `FencedWrites.BindLands` | src/storage/metadata/rocksdb.rs:162-185 | a fenced binding binds exactly that name to that record |
| `FencedWrites.UnbindLands` | src/storage/metadata/rocksdb.rs:205-217 | a fenced unbinding removes exactly that name |
| `FencedWrites.RecordLands` | src/channel/service.rs:159-186 | a fenced expiry update leaves the channel active at the new expiry, a deletion leaves it Deleting at the expiry it read; nothing else changes |
| `FencedWrites.InactiveRefuses` | src/channel/service.rs:122-158 | whoever rechecks a channel that is not active ends there and has changed nothing |
| `FencedWrites.RefusedLeaseTakesNoGate` | src/channel/service.rs:122-158 | an update or deletion of a channel that is not active registers no gate |
| `FencedWrites.DefaultStays` | src/channel/service.rs:169-186 | in every run, restarts included, the default channel stays registered and active |
| `DeletedRows.DeletionHasWipe` | src/channel/service.rs:199-205 | every completed deletion has its wipe, and has held the gate since |
| `DeletedRows.NoneFenced` | src/channel/service.rs:199-205 | from the wipe of a completed deletion on, no task is ever fenced again |
| `DeletedRows.RowsGoneExactly` | src/storage/metadata/rocksdb.rs:254-285 | artifact, reference and queue rows of the channel are absent in every state from the wipe to any later one if and only if no requeue that found its record before the wipe wrote it back in between |
| `DeletedRows.DeletedForever` | src/channel/service.rs:169-205 | after a deletion completes, the registry record and the final files are absent forever, in every interleaving; its rows are absent exactly under the condition above |
| `DeletedRows.StraddlingRun` | src/cache/service.rs:342-353 | for any artifact of any deletable channel, a run in which a record and a queue row are back after the deletion has completed |
| `ChannelDeletion.ResumeFinishes` | src/channel/service.rs:188-197 | startup on a channel persisted as Deleting reaches that same state |
| `ChannelDeletion.OverwrittenExactly` | src/channel/service.rs:159-186 | a Deleting mark is overwritten exactly in the runs in which an expiry update was written back and no mark followed |
| `ChannelDeletion.CrashInsideFinishResumes` | src/channel/service.rs:188-205 | after a crash anywhere inside `finish_deletion`, startup completes the deletion if and only if the run has no expiry update written back after the last mark; otherwise startup changes nothing |
| `ChannelDeletion.OverwriteRun` | src/channel/service.rs:159-186 | the run, for any expiries, in which the update undoes the mark and the channel stays registered |
| `Publication.FinishKeeps` | src/storage/local/artifact_files.rs:357-383 | once the writer is closed and its buffer empty, the temporary file decodes to exactly the bytes that were hashed |
| `Publication.StepKeeps` | src/storage/local/artifact_files.rs:313-473 | every step keeps: disk and buffer of each temporary file are its writer's output, the hasher is ahead by the chunk in hand, each final file decodes to a body whose digest is its name, each row is truthful about its length |
| `Publication.RunKeeps` | src/cache/service.rs:357-489 | the same at every moment of every run, crashes between any two steps included |
| `Publication.FilesAlwaysComplete` | src/storage/local/artifact_files.rs:428-473 | no final file is ever partial or misnamed, although the rename moves whatever the temporary file holds |
| `Targets.UploadTraced` | src/cache/service.rs:157-176 | at every moment of every run an upload stands under what its own start named and what its own chunks hashed to |
| `Targets.PublishedAsNamed` | src/cache/service.rs:157-176 | every upload that is striped, renamed or acknowledged goes back to its start: it is so under the artifact that named, if any, and a renamed or acknowledged one hashed bytes with that digest |
| `Targets.MismatchChangesNothing` | src/storage/local/artifact_files.rs:428-439 | an upload whose bytes have another digest than the one it named changes no file and no row, is never acknowledged, and ends |
| `Targets.MatchPublishes` | src/storage/local/artifact_files.rs:428-473 | one whose bytes match is renamed under their digest and acknowledged with a row |
| `PublicationRuns.PartialTemporaryRun` | src/storage/local/artifact_files.rs:222-237 | temporary files can be: a crash before the flush leaves one empty, for any body with a non-empty frame |
| `Lookups.HitServesExactly` | src/cache/service.rs:399-422 | every hit goes back to the publication whose rename put its file in place and to the one that wrote the row it read, and serves the named body if and only if those two staged it in the same encoding |
| `Lookups.LookupServesBodyOrMisses` | src/cache/service.rs:399-422 | with one encoding per digest every hit of every run serves the whole body, whatever crashed, was evicted, healed or republished |
| `Visibility.StripeStep` | src/cache/service.rs:342-379 | every step keeps one holder per stripe; what a holder has renamed is there, what it is evicting has its row, what it has unlinked is gone |
| `Visibility.OrphanExactly` | src/cache/service.rs:357-379 | a file without a row, and with no publication about to write one, comes exactly from a publication cut off between rename and row, from a heal, or from a channel deletion between its stages, until something takes the file or another publication finds it; an eviction stopped anywhere leaves none |
| `Visibility.HealIsLateExactly` | src/cache/service.rs:412-418 | every heal goes back to an open that missed, and removes the row of a file that is there exactly when a rename put the file in place between the two and no eviction followed |
| `Visibility.AcknowledgedInstalled` | src/cache/service.rs:443-488 | every acknowledged publication has the rename that put its file in place |
| `Visibility.VisibleExactly` | src/cache/service.rs:399-489 | an acknowledged publication stays visible exactly until its file is unlinked by an eviction, its channel is deleted, or a lookup whose open missed before that rename heals |
| `PublicationRuns.MixedEncodingRun` | src/storage/metadata/rocksdb.rs:90-104 | an eviction crashes after its unlink, recovery leaves the row, the body is published in the other encoding and the old row kept: a hit that does not serve it |
| `PublicationRuns.HealHidesRepublication` | src/cache/service.rs:414-417 | a run, all stripes respected: a lookup reads the row, the artifact is evicted, the open misses, the artifact is published again and acknowledged, and the heal hides it |
| `Ring.New` | src/agent/ring.rs:61-87 | sorting, deduplicating and pushing every virtual node builds the specified continuum |
| `Ring.CanonicalFacts` | src/agent/ring.rs:62-63 | members end strictly sorted by ID, with the same IDs, each the first entry given for it |
| `Ring.BuiltWellFormed` | src/agent/ring.rs:61-87 | the points are sorted and are exactly the virtual nodes of the members |
| `Ring.PointsPerMember` | src/agent/ring.rs:61-87 | the ring has 160 points for every distinct ID, colliding ones included |
| `Ring.PartitionPoint` | src/agent/ring.rs:103-103 | binary search splits the sorted points at the position |
| `Ring.SlotIsNearestPoint` | src/agent/ring.rs:99-106 | the slot found, wrap-around included, minimises (clockwise distance, member) over all points |
| `Ring.OwnerFollowsRule` | src/agent/ring.rs:61-106 | for any hash, at every position, `owner` is the member minimising (distance of its nearest virtual node, ID), and none exactly for no members |
| `Ring.OwnerUnique` | src/agent/ring.rs:97-98 | that rule picks one ID |
| `Ring.OwnerDependsOnIdsOnly` | src/agent/ring.rs:59-60 | input order, duplicates and addresses do not affect an owner |
| `Ring.RingDeterminedByIds` | src/agent/ring.rs:59-87 | two lists with the same entries, in any order and multiplicity, build the same ring |
| `Ring.RemovalMovesExactlyItsPositions` | src/agent/ring.rs:61-106 | removing a member, the last one included, changes the owner of exactly the positions it owned |
| `Ring.AdditionMovesOnlyToNewcomer` | src/agent/ring.rs:61-106 | adding a member, to an empty ring included, changes the owner of exactly the positions it now owns |
| `RingState.Search` | src/agent/discovery.rs:293-305 | binary search by ID finds the member if there is one |
| `RingState.Carry` | src/agent/discovery.rs:212-230 | a snapshot ends strictly sorted, with each ID's health carried over |
| `RingState.SnapshotMembers` | src/agent/discovery.rs:212-230 | sorting and deduplicating the health rows commutes with sorting and deduplicating the members |
| `RingState.SnapshotReplaces` | src/agent/discovery.rs:212-230 | after a snapshot the known IDs are exactly the discovered ones, each at the address it was first discovered at |
| `RingState.StepKeeps` | src/agent/discovery.rs:156-230 | every call keeps: members strictly sorted by ID, the stored deadline the minimum one, non-ejected members below the failure limit, the ring over exactly the non-ejected members |
| `RingState.Run` | src/agent/discovery.rs:156-230 | the same after any sequence of calls |
| `RingState.EarliestIs` | src/agent/discovery.rs:273-291 | the deadline computed by a rebuild is the minimum over ejected members, absent exactly when there are none |
| `RingState.RouteServesExactly` | src/agent/discovery.rs:156-173 | after any calls, `ring()` at a time routes over exactly the members with no retry deadline or one at or before that time |
| `RingState.EjectionLeavesRing` | src/agent/discovery.rs:193-209 | a failure that reports an ejection takes the member out of the ring if and only if the timeout is positive and the deadline does not wrap |
| `RingState.EjectionMovesExactlyItsPositions` | src/agent/discovery.rs:193-209 | while a member is out, exactly the positions it owned are routed elsewhere |
| `RingState.ReadmissionRestoresRing` | src/agent/discovery.rs:273-291 | past its deadline an ejection has not changed the ring: routing is over the members it would have been over without the failure, whatever other deadlines passed |
| `RingState.EjectionLeavesNoTrace` | src/agent/discovery.rs:156-230 | the same after any later calls, snapshots and failures of other members included, compared with the run that only routed at that time |
| `Failures.AlwaysCounted` | src/agent/discovery.rs:176-230 | in every run a member in service was started afresh at some call: its success, its discovery or its readmission, an ejection that its own rebuild takes back included |
| `Failures.CountIsFailuresSince` | src/agent/discovery.rs:176-209 | its stored count is the number of its failures among the calls since then |
| `Failures.EjectsAtLimit` | src/agent/discovery.rs:200-208 | so a failure ejects a member in service if and only if it is the failure-limit-th since then |
| `Failures.OthersNeverEject` | src/agent/discovery.rs:196-202 | a failure of a member that is unknown or out of service ejects nothing |
| `Failures.OutForTimeout` | src/agent/discovery.rs:204-207 | an ejection takes the member out until now + retry timeout, when that is later and does not overflow |
| `Failures.BackAtDeadline` | src/agent/discovery.rs:156-173 | whatever is called before the deadline, short of a snapshot that drops it, the member is routed to again exactly from its deadline on |
| `RingState.SharedRing.constructor` | src/agent/discovery.rs:139-152 | starts empty with a failure limit of at least one |
| `RingState.SharedRing.Readmissions` | src/agent/discovery.rs:273-291 | the loop resets every member whose deadline has passed, in place, and collects the rest |
| `RingState.SharedRing.Rebuild` | src/agent/discovery.rs:273-291 | health, ring and earliest deadline afterwards are those of the specification |
| `RingState.SharedRing.RouteFast` | src/agent/discovery.rs:156-162 | under the read lock, answers exactly when no deadline has passed, with the continuum over the members that may serve |
| `RingState.SharedRing.RouteLocked` | src/agent/discovery.rs:163-173 | under the write lock, from any state, returns the continuum over exactly the members that may serve at that moment |
| `RingState.SharedRing.RouteAt` | src/agent/discovery.rs:156-173 | both together, with any calls of other threads between the two locks |
| `RingState.SharedRing.Succeeded` | src/agent/discovery.rs:176-190 | clears the failure count of a known member and nothing else |
| `RingState.SharedRing.Failed` | src/agent/discovery.rs:193-209 | reports an ejection exactly when a member in service reaches the limit |
| `RingState.SharedRing.Apply` | src/agent/discovery.rs:212-230 | replaces the membership, keeping the health of known IDs and the invariant |
| `RoutingKey.DecodingInverts` | src/agent/ring.rs:17-29 | any list of parts is read back from its length-prefixed encoding |
| `RoutingKey.EncodeParts` | src/agent/ring.rs:20-29 | the loop fails exactly when a part exceeds its two-byte length, and otherwise its key decodes to the parts |
| `RoutingKey.RoutingKey` | src/agent/ring.rs:20-29 | a key exists exactly for kinds and IDs of at most 65535 bytes; it is version, kind and ID, each behind its two-byte big-endian length, and decodes to them |
| `RoutingKey.KeysDistinguish` | src/agent/ring.rs:17-29 | two objects share a key only when kind and ID are equal |
| `Manifest.TopSize` | src/cacheprog/session.rs:132-142 | the cap keeps as many entries as it can |
| `Manifest.KeptOutranksDropped` | src/cacheprog/session.rs:132-142 | nothing kept is older, by (last seen, action), than anything dropped |
| `Manifest.DropLeast` | src/cacheprog/session.rs:132-142 | removing the oldest entry of an over-full map does not change its top entries |
| `Manifest.ByAge` | src/cacheprog/session.rs:132-142 | the sorted list holds every entry's (last seen, action) once |
| `Manifest.EvictOldest` | src/cacheprog/session.rs:132-142 | removing the excess in age order leaves exactly the top entries |
| `Manifest.MergeManifest` | src/cacheprog/session.rs:111-145 | the result is the top 32768 entries of the recent stored ones overridden by this build's usage |
| `Manifest.MergeKeeps` | src/cacheprog/session.rs:111-145 | at most 32768 entries; a used one has this build's output and size and was seen now; any other is as stored and was seen within 1209600 seconds; and unless the cap is met nothing used or that recent is missing |
| `Manifest.MergeDropsOldest` | src/cacheprog/session.rs:128-142 | what a merge drops although it is used or recent was seen no later than anything it keeps, ties going by action |
| `Manifest.TopAbsorbs` | src/cacheprog/session.rs:111-145 | capping before more usage is merged in does not change what the final cap keeps |
| `Manifest.MergesCompose` | src/cacheprog/session.rs:111-145 | when nothing stored was seen after now, two merges equal one merge of the second usage over the first, evictions in between included |
| `Manifest.ComposesExactly` | src/cacheprog/session.rs:111-145 | merging composes for all usages if and only if the cap is 0 or nothing stored was seen after now |
| `Manifest.FutureEntryBreaksComposition` | src/cacheprog/session.rs:111-145 | for every stored map with a later entry and every positive cap, two usages whose merges do not compose |
| `ProtocolReader.MessagesOfSignificantLines` | src/cacheprog/mod.rs:85-118 | the messages of a stream are those of its non-blank lines taken in order, a put with a body consuming the line after it |
| `ProtocolReader.LinesRoundTrip` | src/cacheprog/mod.rs:313-331 | lines written one after another are read back as those lines |
| `ProtocolReader.WhatIsMeantIsRead` | src/cacheprog/mod.rs:85-118 | requests, puts of at least one byte each followed by a body line, zero-size puts without one and garbled lines, with blank lines anywhere between, are delivered as written, in order |
| `ProtocolReader.BodyIsMissed` | src/cacheprog/mod.rs:94-103 | a stream that ends after the line of a put with a body delivers what came before and is broken |
| `ProtocolReader.Reader.constructor` | src/cacheprog/mod.rs:77-83 | starts with an empty line buffer and no pending put |
| `ProtocolReader.Reader.ReadUntil` | src/cacheprog/mod.rs:322-322 | no byte is lost or repeated, whether the read completes, ends, fails or is cancelled part way |
| `ProtocolReader.Reader.ReadProtocolLine` | src/cacheprog/mod.rs:313-331 | yields the first non-blank line of the unread stream, end of file exactly when there is none, and a cancelled call does not change which line that is |
| `ProtocolReader.Reader.NextMessage` | src/cacheprog/mod.rs:85-118 | yields the next message of the unread stream; a dropped call or a read error changes nothing about it, and only happens to a caller that polls too little or meets an error |
| `ProtocolReader.Reader.Drive` | src/cacheprog/mod.rs:85-118 | under any schedule of dropped and resumed calls, up to a read error, what was delivered followed by the messages of what is left is the transcript of the whole stream |
| `ProtocolReader.ChunkingIsInvisible` | src/cacheprog/mod.rs:67-120 | two readers of the same bytes, chunked and cancelled differently, deliver the same messages and agree on a missing body; patient schedules reach the end |
| `SingleFlight.CountOfTwo` | src/proxy/mod.rs:979-985 | a strong count of at most two means exactly that no other request holds the lock |
| `SingleFlight.StepKeeps` | src/proxy/mod.rs:452-463 | every step keeps: a request whose flight is alive finds its own lock in the map, keys never share a lock, a mutex has one holder |
| `SingleFlight.RunKeeps` | src/proxy/mod.rs:976-996 | the same at every moment of every interleaving, cancelled waiters included |
| `SingleFlight.OneInsidePerKey` | src/proxy/mod.rs:452-463 | at most one request per key is inside the coalesced section, in every interleaving |
| `SingleFlight.RemovedOnlyUnshared` | src/proxy/mod.rs:991-996 | an entry goes only by the flight drop of a request that alone holds its lock |
| `SingleFlight.BlockedBySameKeyOnly` | src/proxy/mod.rs:452-463 | a waiter that cannot proceed waits for a request inside the section of its own key |
| `SingleFlight.StrandedExactly` | src/proxy/mod.rs:976-985 | an entry outlives its flights if and only if a last flight dropped beside another request's clone and no request for the key followed |
| `SingleFlight.QuietMapIsEmpty` | src/proxy/mod.rs:976-985 | a proxy with no request left has an empty map if and only if no key was left behind |
| `SingleFlight.LeakRun` | src/proxy/mod.rs:991-995 | for any key, two overlapping requests can finish and leave its entry |
| `SingleFlight.Requests.constructor` | src/proxy/mod.rs:326-371 | starts with an empty map |
| `SingleFlight.Requests.CloneLock` | src/proxy/mod.rs:452-459 | takes the entry's lock, creating it when missing, and the stored counts stay those of the machine |
| `SingleFlight.Requests.FlightDropped` | src/proxy/mod.rs:991-996 | removes the entry on a stored count of at most two, which is the machine's flight drop |
| `SingleFlight.Requests.CloneDropped` | src/proxy/mod.rs:979-981 | the last step of a request lowers one count |

## Left out

- HTTP handlers, routing tables, header and range handling, status mapping: plumbing or single-function claims.
- DNS resolution, refresh timing and jitter, the upstream client, retries and redirects: network I/O.
- HTML and JSON metadata rewriting, URL joining, content negotiation: they rest on libraries outside the repository or on `f32` parsing.
- Token verification, authentication and origin allowlists; every modelled request is authorized.
- Telemetry, logging, command line, configuration defaults, charts.
- Prefetch scheduling and session labels: mostly I/O.
- Registering a channel: one insert that fails on an ID that is already there; runs start from a registered channel.
- Power loss: the crashes here are process crashes, and a crash keeps a prefix of the metadata batches.
- Other writers on the cache's filesystem: in `Uploads` free space shrinks only by uploads and grows freely.
- The on-disk size of a zstd temporary while it is still streaming: it is reserved for only when the frame is finished, so the disk claims of `Uploads` are about identity bodies.
- Uploads.UploadsStayAboveHeadroom: the condition is sufficient and its failures are shown by runs; that every run violating it ends below the headroom is not true, since other space may have been freed.
- Staging.Reservation.Await: other tasks at an await are represented by steps of the `Uploads` machine. The file writes of this upload are not among its steps there, and the temporary file's path is not modelled.
- Maintenance.CacheService.RunMaintenanceOnce: the method runs a pass by itself (passes among other tasks are in `SharedPass`), the error return for a channel that vanishes in the middle of a pass is not modelled, and the cursor does not wrap.
- RecentUse.Filters.MarkUse: marks and rotations are whole steps; a mark that reads the active index before a concurrent rotation and writes after it is not modelled.
- Store.RocksMetadata.MoveDeadline: the read and the batch are one step here (`ChannelDeletion` has them apart); the record's content type, validators and schema version are not modelled.
- ChannelDeletion.RunKeeps: fenced mutations and requeues that hold a stripe run to completion or fail once started, also when the future that started them is dropped; evictions and self-heals are one step, since their batches only delete; a deleted channel ID is not registered again, and the credential check is taken as passed.
- Lookups.HitServesExactly: assumes that nothing expands to itself (`FramesDiffer`), which zstd does not promise; the direction that a hit in the right encoding is served does not need it.
- Publication.StepKeeps: artifacts of one channel; one stripe per artifact, where the program shares a fixed number of stripes and so excludes more; an eviction may start on any row, current deadline or not. The test for an existing file and the rename or removal that follows it, both under the stripe, are one step. Deleting the channel's directory leaves temporary files to `RemoveTemporary`, and requeues, which touch no file, are not steps. The limit of the orphan scan is not modelled.
- RingState.SharedRing.Rebuild: the ring's fingerprint, the refresh age and the last error are not modelled.
- SingleFlight.Requests.CloneLock: the work inside the coalesced section is not modelled.
