# Asset store: control plane and byte protocol

A Dafny 4.11 model of an asset store. The registry keeps assets (pending, available, expired, deleted,
purged), alias bindings, tombstones of freed names, two-tier quota counters and an audit log; the bytes
live in a separate object store. `dafny verify dfyconfig.toml` checks everything.

## What is modelled

**Registry.** `RegistrySpec` gives the state as a value without redundant copies: usage is a sum over
assets and an asset's aliases are read off the bindings. Each operation is a function from state to state
and outcome. The class in `Registry` keeps the counters and alias sets by hand, updating dictionaries in
place as the source does, and every method is proved to have the effect the function says and to keep the
copies right, on error paths too. `RegistryLaws`, `RegistryQuota` and `RegistryRuns` prove what single
operations and whole runs keep: the invariant, no overbooking, stability of names. `RegistryFigures` and
`RegistryEffects` state every operation once more without the helpers it is built from: in sums of columns,
numbers, refusals in order and the row left behind.

**Bytes.** `UploadProtocol` is a state machine of writers, cleaners, sweepers, administrators and readers
over committed rows, open transactions holding row locks, and an object map whose effects are immediate.
A crash is an abort at any point. `GuardFlow` is the same upload seen from one caller, as methods over the
registry class and the local store; `GuardAccess` says in segments and columns who gets through. `UploadProgress`
shows what can always still be done: finish an upload, read it, purge whatever was broken off.

**Concurrent quota.** `QuotaLocks` has database transactions that lock asset, partition and bucket rows in
that order, read what is committed, decide, stage absolute counters and publish or abort, while limits
change. `QuotaRefinement` and `ProtocolRefinement` show that whatever these two machines make visible is a
command of the registry, `QuotaProgress` that every permitted job can be carried to its end.

**Sweeps.** `SweepPlan` holds the planner's loops and their specification, `SweepLaws` what every plan
promises, `SweepRun` and `SweepWorker` the execution with its live re-checks, `SweepFixpoint` what a second
sweep finds. `SweepFigures` and `SweepTriggers` read the plan off the rows: whose time is up, what calls for an
eviction, who goes first, when it ends.

**Small algorithms.** `Limiter` (token bucket), `Ledger` (pruned single-use ledger and bearer store),
`Pagination` (keyset pages), `Paths` and `Guard` (alias paths and parsing), `Pilot` and
`PilotFigures` (image URL policy).

## Conventions

- Times are whole microseconds; each operation that reads the clock takes the reading as a parameter.
  Rates, ratios and ceilings (1.05, hard ceiling, triggers, targets) are exact rationals.
- Identifiers are fresh and slash-free. A reservation that would reuse one is declined by the
  specification; the original draws random ones.
- The digests of bytes and of filters are uninterpreted functions. What a store does when it fails, and
  whether a service may use a bucket, are parameters.
- The registry takes bucket, partition and names in normal form; `Paths` and `Guard` model the
  normalization in front of it.

## Where the code falls short of its documentation

Each is shown by a concrete input and by the exact condition under which the promise holds.

- Rebinding is meant to stay within a partition, but the check compares the first segment of the name only
  (`registry.py:478-488`, `995-998`): it holds exactly for single-segment partitions
  (`RegistryRuns.RebindStaysInPartition`, `RebindCrossesPartitions`).
- A written alias is not found when its name begins by repeating the partition, or when white space lies next
  to the slash between partition and name or is uncovered at the end (`Guard.KeysAgreeExactlyWhen` for every
  accepted alias, `RepeatedPartitionLosesItsName`, `LeadingSpaceLosesItsName`).
- For the same reason a write can bind a name outside the capability's scope (`Guard.WriteStaysInScope`,
  `PartitionScopeIsKept`, `WriteLeavesScope`).
- `retry_after` counts from the refused reading, the refill from the latest one: after the clock went back
  the reported delay may be too short (`Limiter.RetryAfterIsLeast`, `RetryAfterTooShort`).
- A guard takes one clock reading for expiry and another for the ledger, so a consumed capability that
  expires in between is granted again (`Ledger.AuthorizationsAgreeExcept`, `GrantedTwice`).
- Normalizing an alias is not idempotent (`Paths.NormalizeTwice`, `NormalizeMovesAgain`).
- The policy accepts legacy image URLs that preload then refuses, because the mapped URL is nine characters
  longer (`Pilot.OnlyLongLegacyUrlsAreRefused`).

## Model

| member | source | states |
|---|---|---|
| `Registry.InMemoryAssetRegistry.SumAssets` | src/asset_store_core/registry.py:692-702 | the figure computed by the scan is the sum of the measure over the stored rows, the excluded one left out |
| `Registry.InMemoryAssetRegistry.EnforceQuota` | src/asset_store_core/registry.py:680-731 | which refusal the stored counters and scans lead to: the one the sums over the assets call for, in the order partition bytes, partition count, capacity, bucket |
| `Registry.InMemoryAssetRegistry.AcquireQuota` | src/asset_store_core/registry.py:733-743 | exactly one partition counter and one bucket counter grow, by the given bytes and one asset |
| `Registry.InMemoryAssetRegistry.ReleaseQuota` | src/asset_store_core/registry.py:745-758 | an available asset takes exactly its own bytes and count off its two counters; any other asset takes nothing |
| `Registry.InMemoryAssetRegistry.AliasNameIsBlocked` | src/asset_store_core/registry.py:836-848 | blocked exactly by a live binding or an unexpired tombstone; the only change is dropping an elapsed tombstone |
| `Registry.InMemoryAssetRegistry.MarkForGcIfOrphaned` | src/asset_store_core/registry.py:868-893 | an asset without aliases is expired with one audit event and its quota released; otherwise nothing changes |
| `Registry.InMemoryAssetRegistry.ReserveAsset` | src/asset_store_core/registry.py:142-224 | refuses blocked names, then negative sizes, then what quota or capacity turns down, then bad lifetimes; otherwise adds one pending row, binds each alias under the partition and logs it; view and outcome as `ApplyReserve` says, counters and alias sets right in every case |
| `Registry.InMemoryAssetRegistry.AttachAlias` | src/asset_store_core/registry.py:226-265 | missing and deleted assets and blocked names are refused; otherwise the scoped name is bound, the row touched and the event logged, the stored alias set still being the query result |
| `Registry.InMemoryAssetRegistry.CommitAsset` | src/asset_store_core/registry.py:267-324 | refuses bad size or checksum, a checksum mismatch, a missing or non-pending asset, a size other than reserved, and what admission (its own reservation left out) turns down; otherwise the row becomes available and quota is acquired exactly once |
| `Registry.InMemoryAssetRegistry.UpdateAnnotations` | src/asset_store_core/registry.py:326-362 | annotations are merged or replaced on any asset not deleted; nothing else moves |
| `Registry.InMemoryAssetRegistry.ResolveAlias` | src/asset_store_core/registry.py:364-379 | answers the bound asset, or the error resolving calls for |
| `Registry.InMemoryAssetRegistry.DetachAlias` | src/asset_store_core/registry.py:381-418 | only a live immutable name is freed, with a tombstone for the grace period; an asset left without aliases is expired and its quota released |
| `Registry.InMemoryAssetRegistry.DetachMutableAlias` | src/asset_store_core/registry.py:420-457 | only a live mutable name is unbound and keeps its last asset on record; an asset left without aliases is expired and its quota released |
| `Registry.InMemoryAssetRegistry.RebindAlias` | src/asset_store_core/registry.py:459-505 | only an unbound mutable name is bound again, to an available asset of its bucket whose partition is the first segment of the name |
| `Registry.InMemoryAssetRegistry.ExpireAsset` | src/asset_store_core/registry.py:507-529 | only an available asset expires; its own bytes and count leave both counters once |
| `Registry.InMemoryAssetRegistry.DeleteAsset` | src/asset_store_core/registry.py:531-551 | an available or expired asset is deleted; quota is released exactly when it was available |
| `Registry.InMemoryAssetRegistry.SetEvictionPolicy` | src/asset_store_core/registry.py:553-578 | the policy of any asset not deleted is set and logged with old and new value |
| `Registry.InMemoryAssetRegistry.SetPartitionLimits` | src/asset_store_core/registry.py:580-625 | negative limits are refused; otherwise one partition's limits are replaced, an omitted sweep flag kept, and usage counters left alone |
| `Registry.InMemoryAssetRegistry.SetBucketLimits` | src/asset_store_core/registry.py:627-648 | a negative limit is refused; otherwise one bucket's limit, warning threshold and hard ceiling are replaced and its usage counter left alone |
| `Registry.InMemoryAssetRegistry.RecordSuccessfulRead` | src/asset_store_core/registry.py:777-783 | only an available asset gets a later read time and one more read; its `updated_at` stays |
| `Registry.InMemoryAssetRegistry.ListAssets` | src/asset_store_core/registry.py:768-770 | exactly the assets not marked purged, each with the alias set a query over the bindings gives |
| `Registry.InMemoryAssetRegistry.LifecycleUpdate` | src/asset_store_core/registry.py:785-821 | a stale snapshot or a transition maintenance may not make is refused; otherwise the row moves on, quota is released exactly when it was available, and the event fits the transition |
| `Registry.InMemoryAssetRegistry.SetAssetTtl` | src/asset_store_core/registry.py:943-974 | refuses assets neither available nor expired, without content, or with a bad lifetime; restoring an expired one passes admission and re-acquires quota, renewing an available one does not |
| `RegistrySpec.ClearNames` | src/asset_store_core/registry.py:173-190 | names are free exactly when none is bound or freshly buried; only elapsed tombstones of the listed names are dropped |
| `RegistrySpec.Resolve` | src/asset_store_core/retention.py:41-50 | a name resolves exactly when it is bound to an available asset whose deadline has not passed |
| `RegistryLaws.StepKeepsInv` | src/asset_store_core/registry.py:142-974 | every operation, successful or not, keeps the invariant (coherent rows, bindings under their asset, names and tombstones disjoint, audit log complete) and no row is lost, revived or re-sized; a size comes only to a pending row and is the one reserved |
| `RegistryLaws.FailureChangesNothing` | src/asset_store_core/registry.py:836-848 | a failed operation changes nothing but may drop tombstones that had elapsed |
| `RegistryLaws.BindMeans` | src/asset_store_core/registry.py:197-216 | binding a list of aliases points every listed key at the asset and leaves all other names alone |
| `RegistryLaws.LastListedDecides` | src/asset_store_core/registry.py:977-982 | when a key is listed more than once, the last mention decides whether it is mutable |
| `RegistryLaws.OneEventTold` | src/asset_store_core/registry.py:895-914 | one event appended to the log keeps it sufficient to replay every target and every lifecycle state |
| `RegistryLaws.ReservedKeepsInv` | src/asset_store_core/registry.py:191-224 | a reservation with any list of aliases keeps the whole invariant |
| `RegistryCopies.CountersFollow` | src/asset_store_core/registry.py:733-758 | counters moved by one row's change of weight still equal the sums over available assets |
| `RegistryCopies.CountersStay` | src/asset_store_core/registry.py:745-758 | a row that counts for nothing before and after moves no counter |
| `RegistryCopies.ReleaseNeverClamps` | src/asset_store_core/registry.py:745-758 | the counters of an available asset are at least its own bytes and count, so the clamps at zero never bind |
| `Registry.NewAliasSet` | src/asset_store_core/pg_registry.py:1387-1391 | the alias set stored with a new asset is the one a query over the new bindings computes |
| `RegistryQuota.NoOverbooking` | src/asset_store_core/registry.py:680-731 | while limits are left alone, an operation leaves every gauge (partition bytes and count, bucket bytes, physical capacity, each with reservations) below its ceiling or no fuller than before |
| `RegistryQuota.StepStaysUnder` | src/asset_store_core/registry.py:680-731 | a registry under all its ceilings stays under all of them |
| `RegistryQuota.ClaimFits` | src/asset_store_core/registry.py:698-731 | an admitted claim leaves every gauge it touches below its ceiling and every other gauge as it was |
| `RegistryQuota.MatchingCommitIsAdmitted` | src/asset_store_core/registry.py:296-303 | a commit of the reserved size is never refused for quota or capacity |
| `RegistryRuns.NothingIsInOrder` | src/asset_store_core/registry.py:93-112 | a new registry satisfies the invariant and all ceilings |
| `RegistryRuns.RunKeepsInv` | src/asset_store_core/registry.py:142-974 | the invariant holds after any sequence of commands |
| `RegistryRuns.RunStaysUnder` | src/asset_store_core/registry.py:680-731 | all ceilings hold after any sequence of commands that leaves limits alone |
| `RegistryRuns.RunNeverRevives` | src/asset_store_core/retention.py:53-63 | over whole runs deleted is never left, a purge never undone, committed content never changed, and what reserved a size and later has one has that size |
| `RegistryRuns.NameStep` | src/asset_store_core/registry.py:381-505 | what one command can do to one name: a live binding keeps its mutability; only a detach frees it, only a rebind retargets it |
| `RegistryRuns.MutableNameStays` | src/asset_store_core/registry.py:420-505 | a mutable name stays live and mutable for ever |
| `RegistryRuns.ImmutableNameHistory` | src/asset_store_core/registry.py:836-853 | an immutable name keeps its target, or was detached and is free, or was reused only after the grace period |
| `RegistryRuns.ImmutableNameIsStable` | src/asset_store_core/registry.py:381-418 | two different targets of an immutable name imply a detach between them and at least the grace period elapsed before reuse, on a clock that never goes back |
| `RegistryRuns.MutableNameHistory` | src/asset_store_core/registry.py:459-505 | a mutable name changes target only by a detach and then a rebind to an available asset of the name's bucket and first segment |
| `RegistryRuns.RebindStaysInPartition` | src/asset_store_core/registry.py:478-488 | a rebind stays in the partition the name came from if and only if that partition is a single segment |
| `RegistryRuns.CrossingRuns` | src/asset_store_core/registry.py:420-457 | four commands on an empty registry reach the state of the counterexample below |
| `RegistryRuns.RebindCrossesPartitions` | src/asset_store_core/registry.py:995-998 | counterexample: a name of partition "a/b" is rebound to an asset of partition "a" |
| `RegistryFigures.MeasuresInFigures` | src/asset_store_core/registry.py:692-702 | the measures are sums over the columns: state, size, reserved size and purge mark of each row, by bucket and partition |
| `RegistryFigures.AdmissionInFigures` | src/asset_store_core/registry.py:680-731 | admission in numbers: 105 hundredths of the partition quota, its asset count, the budget times its ratio, the bucket quota times its hard ceiling; the first that is reached refuses |
| `RegistryFigures.UnsetLimits` | src/asset_store_core/models.py:127-147 | what holds before any limits were set |
| `RegistryEffects.LifetimesInFigures` | src/asset_store_core/retention.py:20-38 | which lifetimes each bucket grants (a week at most for tmp, the configured one for results) and the deadline, by default a day in tmp, the longest in results, none elsewhere |
| `RegistryEffects.NamesInFigures` | src/asset_store_core/registry.py:985-992 | a bound name is unchanged if it is the partition or begins with it and a slash, and is put under it otherwise |
| `RegistryEffects.CommitInFigures` | src/asset_store_core/registry.py:267-324 | on the columns: refused in order for bad figures, checksum mismatch, a missing or settled row, a size other than the one reserved, or lack of room, and then nothing changes; otherwise the row has exactly this size and checksum |
| `RegistryEffects.SetTtlInFigures` | src/asset_store_core/registry.py:943-974 | on the columns: which assets and lifetimes are accepted, and the deadline stored is now plus the seconds asked for |
| `RegistryEffects.TtlDecidesResolution` | src/asset_store_core/retention.py:41-50 | after a lifetime was set, every name bound to the asset resolves at a time if and only if that time is before now plus the seconds, and answers gone from then on |
| `RegistryEffects.ResolveInFigures` | src/asset_store_core/registry.py:364-379 | what a name answers, by binding, state and deadline |
| `RegistryEffects.ReserveAnswers` | src/asset_store_core/registry.py:142-190 | the order of refusals of a reservation, in figures |
| `RegistryEffects.ReserveInFigures` | src/asset_store_core/registry.py:191-224 | the row added column by column; all other rows, names and limits stay and only elapsed tombstones of listed names go |
| `RegistryEffects.ReserveBinds` | src/asset_store_core/registry.py:197-216 | a key is bound to the new asset exactly when listed, the last mention deciding its mutability |
| `RegistryEffects.ReserveRecords` | src/asset_store_core/registry.py:197-224 | one event for each alias in order, then one for the reserved bytes |
| `RegistryEffects.AttachInFigures` | src/asset_store_core/registry.py:226-265 | on the columns: refusals, the bound name, the touched row and the event |
| `RegistryEffects.DetachInFigures` | src/asset_store_core/registry.py:381-418 | on the columns: refusals, the freed and buried name, and the asset expired if this was its last name |
| `RegistryEffects.DetachMutableInFigures` | src/asset_store_core/registry.py:420-457 | on the columns: refusals, the unbound name that remembers its asset, and the asset expired if this was its last name |
| `RegistryEffects.BuriedForItsGrace` | src/asset_store_core/registry.py:836-853 | a freed name can be bound again exactly from the end of its grace |
| `RegistryEffects.RebindInFigures` | src/asset_store_core/registry.py:459-505 | on the columns: refusals, among them any asset whose partition is not the part of the name before its first slash, and the new target |
| `RegistryEffects.AnnotateInFigures` | src/asset_store_core/registry.py:326-362 | on the columns: the patch replaces everything or only the keys it names |
| `RegistryEffects.ExpireInFigures` | src/asset_store_core/registry.py:507-529 | on the columns: only an available asset expires, at this time |
| `RegistryEffects.DeleteInFigures` | src/asset_store_core/registry.py:531-551 | on the columns: only an available or expired asset is deleted |
| `RegistryEffects.SetPolicyInFigures` | src/asset_store_core/registry.py:553-578 | on the columns: the policy and the time of change, nothing else |
| `RegistryEffects.RecordReadInFigures` | src/asset_store_core/registry.py:777-783 | on the columns: read time and count of an available asset, nothing else |
| `RegistryEffects.SetPartitionInFigures` | src/asset_store_core/registry.py:580-625 | on the columns: the new limits; the sweep flag is on by default exactly in cache and tmp |
| `RegistryEffects.SetBucketInFigures` | src/asset_store_core/registry.py:627-648 | on the columns: the new limit, warning threshold and hard ceiling |
| `RegistryEffects.LifecycleInFigures` | src/asset_store_core/retention.py:53-63 | on the columns: which maintenance moves are allowed and what each leaves |
| `RegistryEffects.StatesMoveOnlySo` | src/asset_store_core/registry.py:142-974 | every change of state of any asset under any command is one of six moves, each with its conditions on the columns |
| `Storage.StorageKeyIsInjective` | src/asset_store_core/storage.py:20-27 | two slash-free identifiers never share a storage key, whatever their partitions |
| `Storage.LocalObjectStore.Put` | src/asset_store_core/object_store.py:75-78 | one object is written, all others untouched; the size and checksum returned are those of what was stored |
| `Storage.LocalObjectStore.StatOf` | src/asset_store_core/object_store.py:86-90 | size and checksum of the stored bytes, or nothing when there are none |
| `Storage.LocalObjectStore.Get` | src/asset_store_core/object_store.py:80-84 | the stored bytes, or nothing when there are none |
| `Storage.LocalObjectStore.Delete` | src/asset_store_core/object_store.py:92-93 | one object is gone, all others untouched; absence is no error |
| `UploadProtocol.NextKeepsSafe` | src/asset_store_core/guard.py:233-295 | every step of a writer, cleaner, sweeper, administrator or reader, and every rollback, keeps rows, open transactions, objects, tickets and served reads in agreement |
| `UploadProtocol.AlwaysSafe` | src/asset_store_core/pg_registry.py:1311-1318 | the agreement holds after any interleaving from the empty system |
| `UploadProtocol.LiveAssetHasItsBytes` | src/asset_store_core/guard.py:244-259 | in every reachable state an available asset, and an expired one of known size, has its object with exactly the committed size and checksum |
| `UploadProtocol.ReadsReturnCommittedBytes` | src/asset_store_core/guard.py:140-150 | whatever a proxy read returned is the content its asset was committed with |
| `UploadProtocol.NoBytesLeak` | src/asset_store_core/guard.py:263-295 | every stored object belongs to a registered asset not yet marked purged |
| `UploadProtocol.RowsPersist` | src/asset_store_core/retention.py:53-63 | rows stay, keep their location and content, and never leave deleted or lose a purge mark |
| `UploadProtocol.PurgedStaysGone` | src/asset_store_core/lifecycle.py:253-276 | once marked purged, an asset's object is absent in every later state |
| `UploadProtocol.RecoveryWindow` | src/asset_store_core/lifecycle.py:135-146 | the bytes of a committed asset that no administrator deleted are missing only after a sweep fenced it at least the grace after its last expiry, by a clock that has passed it |
| `ProtocolRefinement.PublishIsCommand` | src/asset_store_core/pg_registry.py:1311-1371 | what an open transaction publishes is its row unchanged or the effect of one registry command |
| `ProtocolRefinement.StepIsCommandOrInvisible` | src/asset_store_core/guard.py:233-295 | every step of every party is, on the lifecycle columns, a registry command or invisible |
| `UploadProgress.UploadCanFinish` | src/asset_store_core/guard.py:233-261 | from every reachable state an upload of a fresh identifier can be carried to its end; then its row is available with size and checksum, its bytes are in place and nothing else has changed |
| `UploadProgress.ReadCanFinish` | src/asset_store_core/guard.py:140-150 | whatever is available can be read and the read returns the bytes in its place |
| `UploadProgress.EveryAssetCanBePurged` | src/asset_store_core/lifecycle.py:130-151 | from every reachable state, with uploads, clean-ups and sweeps broken off anywhere, every asset can be brought to a state where it is purged and its bytes are gone |
| `UploadProgress.CommitIsChecked` | src/asset_store_core/pg_registry.py:475-513 | a commit is staged exactly for a pending row whose put was answered, with the expected checksum and the reserved size |
| `UploadProgress.FenceIsChecked` | src/asset_store_core/guard.py:263-277 | a fence is staged exactly for a failed upload still pending or for an unchanged row whose time was up by the sweep's clock |
| `UploadProgress.PurgeIsChecked` | src/asset_store_core/lifecycle.py:258-276 | bytes are erased only under the lock of a deleted row, and the mark is set only after |
| `QuotaLocks.PublishConserves` | src/asset_store_core/pg_registry.py:1129-1167 | no update is lost: staged absolute counters are still the sums when they become visible, and limits are untouched |
| `QuotaLocks.PublishStaysUnder` | src/asset_store_core/pg_registry.py:1077-1127 | a claim is published only while it still fits, so every ceiling survives a publication |
| `QuotaLocks.OthersPublishLighter` | src/asset_store_core/pg_registry.py:1201-1222 | seen from the holder of a bucket row, any other publication leaves that bucket as it was or lighter |
| `QuotaLocks.NextKeeps` | src/asset_store_core/pg_registry.py:321-352 | each lock, read, decide, stage, publish or abort step, and each change of limits, keeps conservation and lock discipline; all but a change of limits keep the ceilings |
| `QuotaLocks.LimitsKeep` | src/asset_store_core/pg_registry.py:804-891 | limits change only while the counter row is free, so no decision under way is invalidated and no counter moves |
| `QuotaLocks.PublishNeverOverbooks` | src/asset_store_core/pg_registry.py:1087-1127 | even among changes of limits, each publication leaves every gauge below its ceiling of that moment or no fuller than before |
| `QuotaLocks.UnusedIsSound` | src/asset_store_core/pg_registry.py:1169-1222 | a database with limit rows at will and no assets satisfies the invariant and all ceilings |
| `QuotaLocks.CountersHoldConcurrently` | src/asset_store_core/pg_registry.py:1129-1167 | under every interleaving of reserve, commit, restore, release and changes of limits, counters equal the committed sums |
| `QuotaLocks.CeilingsHoldConcurrently` | src/asset_store_core/pg_registry.py:1087-1127 | from any moment at which every gauge is under its ceiling, under every interleaving all stay there while limits are left alone, whatever was under way |
| `QuotaRefinement.PublishIsCommand` | src/asset_store_core/pg_registry.py:462-535 | what a transaction makes visible is the effect of one registry command, admission included, on the committed tables |
| `QuotaRefinement.StepIsCommandOrInvisible` | src/asset_store_core/pg_registry.py:321-352 | every step of every transaction, and every change of limits, is a registry command on the committed tables or invisible |
| `QuotaLocks.RanksClimb` | src/asset_store_core/pg_registry.py:1169-1215 | along a chain of waiting transactions the wanted rows only go up: asset, partition, bucket |
| `QuotaLocks.NoDeadlock` | src/asset_store_core/pg_registry.py:1169-1215 | no chain of waiting transactions closes into a circle |
| `QuotaProgress.JobCanFinish` | src/asset_store_core/pg_registry.py:321-352 | every job the registry permits, with room for its bytes and its rows free, can be carried to its end; then its row is the new one, every counter is the sum of its rows, and limits, locks and other transactions are as before |
| `Order.Sort` | src/asset_store_core/lifecycle.py:130 | sorting yields the one increasing sequence with the given elements |
| `Order.SortedIsUnique` | src/asset_store_core/registry.py:934-941 | two increasing sequences with the same elements are equal |
| `SweepPlan.SweepPlanner.SelectDue` | src/asset_store_core/lifecycle.py:130-151 | the first loop selects the specified time-based actions in identifier order |
| `SweepPlan.SweepPlanner.Evict` | src/asset_store_core/lifecycle.py:156-170 | the eviction loop with its running remainder chooses what the specification with recomputed totals chooses, and marks exhaustion accordingly |
| `SweepPlan.SweepPlanner.EvictRanked` | src/asset_store_core/lifecycle.py:163-168 | the running remainder is the total of what is left after every eviction, and the loop stops at the first rank where it fits |
| `SweepPlan.SweepPlanner.RelieveQuotas` | src/asset_store_core/lifecycle.py:172-180 | the partition loop performs the quota steps of all partitions in order |
| `SweepPlan.SweepPlanner.RelievePressure` | src/asset_store_core/lifecycle.py:182-196 | the bucket loop performs the pressure steps of all budgeted buckets in order and records how full each is |
| `SweepPlan.PlanSweep` | src/asset_store_core/lifecycle.py:115-197 | the planner's loops compute the specified plan and the occupancy of every budgeted bucket |
| `SweepPlan.RankedOrder` | src/asset_store_core/lifecycle.py:110-112 | candidates are ranked by falling score and then identifier, each exactly once |
| `SweepLaws.EvictGroupLaws` | src/asset_store_core/lifecycle.py:156-170 | every eviction takes the highest-ranked candidate left while its group is above target; the group ends at or below target or has only exempt assets left; exhausted is marked exactly when it ends above target |
| `SweepLaws.ChosenOnce` | src/asset_store_core/lifecycle.py:123-124 | no asset gets two actions |
| `SweepLaws.TimedPlanLaws` | src/asset_store_core/lifecycle.py:130-151 | time-based actions are exactly the assets whose time is up, each justified |
| `SweepLaws.QuotaPassLaws` | src/asset_store_core/lifecycle.py:172-180 | after the quota pass every partition visited is settled and every added eviction has its reason |
| `SweepLaws.PressurePassLaws` | src/asset_store_core/lifecycle.py:182-196 | the same for buckets; only purges count against the physical budget |
| `SweepLaws.PlanLaws` | src/asset_store_core/lifecycle.py:115-197 | in every plan each action has its reason at its turn (exempt assets and the users and results buckets are never chosen for quota or pressure), everything due is chosen, every triggered group is settled |
| `SweepRun.LiveIsPlanned` | src/asset_store_core/lifecycle.py:241-255 | after carrying out part of a plan, a group's live usage equals the planner's remainder at that point |
| `SweepRun.StillNeeded` | src/asset_store_core/lifecycle.py:236-255 | so the quota or pressure re-check of the next action passes |
| `SweepRun.ActionWorks` | src/asset_store_core/lifecycle.py:233-276 | each planned action goes through: its row is rewritten as planned, a purge also removes its object, nothing else changes |
| `SweepRun.PlanIsExecuted` | src/asset_store_core/lifecycle.py:222-277 | all actions are applied, none skipped, none failed; rows, names, limits and objects are afterwards as planned |
| `SweepWorker.RecheckLive` | src/asset_store_core/lifecycle.py:236-255 | the check against live counters answers what the sums call for |
| `SweepWorker.PerformAction` | src/asset_store_core/lifecycle.py:232-277 | one loop body: a changed asset or an eviction no longer needed is skipped, a failing update is an error, a purge fences, deletes the bytes and records it; registry, store and verdict as `Perform` says |
| `SweepWorker.RunSweep` | src/asset_store_core/lifecycle.py:200-294 | a dry run changes nothing; an applied one applies as many actions as planned, with no skip and no error, and leaves registry and store as planned |
| `SweepFixpoint.SweepAppliesItsPlan` | src/asset_store_core/lifecycle.py:200-294 | plan and execution agree for every registry state that satisfies the invariant |
| `SweepFixpoint.SnapshotAfter` | src/asset_store_core/lifecycle.py:115-120 | what a second planner sees: purged rows gone, chosen rows expired now, all others as they were |
| `SweepFixpoint.SweepIsAFixpoint` | src/asset_store_core/lifecycle.py:115-197 | with positive grace, planning again at the same time after an applied sweep yields no action |
| `SweepFixpoint.DueMovesOn` | src/asset_store_core/lifecycle.py:130-151 | one sweep brings every asset whose time is up one step closer to purge |
| `SweepFixpoint.TwoSweepsPurge` | src/asset_store_core/lifecycle.py:130-151 | a second sweep at least the grace later purges everything the first one found due, whatever else happened in between to other rows |
| `SweepFigures.VictimsInFigures` | src/asset_store_core/lifecycle.py:110-112 | on the columns: of all assets of its group that could go at that turn, an eviction takes the one whose time since last read (or creation) times size is largest, of equals the greatest identifier |
| `SweepFigures.LongestUnusedGoesFirst` | src/asset_store_core/lifecycle.py:110-112 | so of two assets of equal positive size the one used longer ago goes first |
| `SweepFigures.TimelyInFigures` | src/asset_store_core/lifecycle.py:130-151 | an asset is acted on for its time if and only if its time is up on the columns (pending age, deadline, grace since expiry, deleted with bytes), with the remedy that calls for |
| `SweepFigures.LapsesAtItsDeadline` | src/asset_store_core/lifecycle.py:135-146 | after a lifetime was set, a sweep chooses the asset as lapsed exactly from now plus the seconds on |
| `SweepFigures.NeedInFigures` | src/asset_store_core/lifecycle.py:236-255 | the live check before an eviction, in sums over the columns |
| `SweepFigures.PerformInFigures` | src/asset_store_core/lifecycle.py:232-277 | one action on the columns: unknown assets and missing budgets fail, changed assets and evictions no longer called for are skipped, all without effect; otherwise the row is rewritten and a purge takes the bytes |
| `SweepFigures.PurgeInFigures` | src/asset_store_core/lifecycle.py:258-276 | bytes someone else purged meanwhile are skipped; an asset no longer deleted fails |
| `SweepFigures.TalliesAreCounts` | src/asset_store_core/lifecycle.py:222-294 | the report counts how often each verdict was given |
| `SweepTriggers.EvictionIsCalledFor` | src/asset_store_core/lifecycle.py:172-196 | on the columns: an eviction happens only from a group that had reached its trigger (once everything due had gone; for budgets, by the bytes that stay) and was above its low-water mark at that turn |
| `SweepTriggers.GroupsAreRelieved` | src/asset_store_core/lifecycle.py:156-196 | on the columns: every group that had reached its trigger ends at or below its low-water mark or has only exempt assets left, and a bucket is reported exhausted if and only if the former fails for it or one of its partitions |
| `SweepTriggers.RatiosInFigures` | src/asset_store_core/lifecycle.py:182-190 | the ratio reported of each budgeted bucket, times its budget, is the sum of what it stores |
| `SweepTriggers.PlanIsInOrder` | src/asset_store_core/lifecycle.py:130-196 | what is due comes first by identifier, then quota evictions, then pressure evictions |
| `Order.TextInFigures` | src/asset_store_core/lifecycle.py:130 | one text comes before another exactly when they part at some position where it ends or has the smaller character |
| `Limiter.IssuanceRateLimiter.Admit` | src/asset_store_core/issuance_rate.py:44-57 | credit is refilled and spent for one identity only; unknown identities change nothing |
| `Limiter.CreateLimiter` | src/asset_store_core/issuance_rate.py:27-42 | non-positive rate or burst is refused, otherwise every identity starts full |
| `Limiter.LaneCreditOk` | src/asset_store_core/issuance_rate.py:52-57 | credit stays between zero and the burst over any history |
| `Limiter.LaneClock` | src/asset_store_core/issuance_rate.py:55 | the stored time is the latest reading ever seen |
| `Limiter.AdmissionsAreBounded` | src/asset_store_core/issuance_rate.py:44-57 | between any two attempts at most burst plus rate times the growth of the latest reading are admitted, even when the clock goes back |
| `Limiter.RefusedExactlyWhenOverBudget` | src/asset_store_core/issuance_rate.py:52-57 | an attempt is refused if and only if, counted from some earlier attempt, one more admission would exceed that bound |
| `Limiter.IdentitiesAreIsolated` | src/asset_store_core/issuance_rate.py:47-50 | one identity's credit is a function of its own attempts, and unconfigured identities add no state |
| `Limiter.RetryAfterIsLeast` | src/asset_store_core/issuance_rate.py:56 | no shorter whole delay suffices, and the reported one suffices if and only if the reading was not behind the stored time, or behind it by no more than rounding up to whole seconds adds |
| `Limiter.RetryAfterTooShort` | src/asset_store_core/issuance_rate.py:53-56 | counterexample: after the clock went back ten seconds the reported second is not enough |
| `Limiter.FirstBurstIsAdmitted` | src/asset_store_core/issuance_rate.py:42-57 | an identity that starts full is admitted as many times as the burst, whatever the clock does |
| `Limiter.MinuteIsBounded` | src/asset_store_core/issuance_rate.py:40-57 | within any minute at most burst plus the configured number per minute are admitted, and a minute earns just that number |
| `Ledger.SingleUseLedger.Prune` | src/asset_store_core/capabilities.py:119-122 | the loop removes exactly the expired identifiers |
| `Ledger.SingleUseLedger.RecordSuccessfulUse` | src/asset_store_core/capabilities.py:124-133 | a use is recorded after pruning, a second live one refused |
| `Ledger.SingleUseLedger.Authorize` | src/asset_store_core/guard.py:127-130 | granted if and only if the capability is for the operation, unexpired at the first reading, in scope by segments, and not spent at the second |
| `Ledger.LedgersTrack` | src/asset_store_core/capabilities.py:97-141 | after any history the pruned ledger is the full record without identifiers that had expired by the last reading |
| `Ledger.AuthorizationsAgreeExcept` | src/asset_store_core/capabilities.py:65-79 | the pruned ledger and one that never forgets disagree on an authorization if and only if a consumed capability expires between that call's two readings |
| `Ledger.ForgettingIsUnnoticed` | src/asset_store_core/capabilities.py:97-141 | with one reading per authorization they always agree |
| `Ledger.RecordsAgreeExcept` | src/asset_store_core/capabilities.py:124-133 | they disagree on recording a use if and only if a consumed capability had expired by then |
| `Ledger.GrantedTwice` | src/asset_store_core/guard.py:127-130 | counterexample: consumed at 1, checked at 9 and looked up at 10, when it expires, the capability is granted again |
| `Ledger.CapabilityStore.Issue` | src/asset_store_core/capabilities.py:162-172 | a grant is published only when unexpired, within capacity and audited; the bound on entries is kept |
| `Ledger.CapabilityStore.Get` | src/asset_store_core/capabilities.py:174-178 | the unexpired grant, or nothing |
| `Ledger.CreateStore` | src/asset_store_core/capabilities.py:149-155 | a non-positive capacity is refused |
| `Ledger.StoreIsTheUnexpiredGrants` | src/asset_store_core/capabilities.py:144-183 | the pruned store always holds exactly the unexpired ones of all grants ever issued, so look-ups and the capacity bound are those of a store that never forgets |
| `GuardAccess.AuthorizeInFigures` | src/asset_store_core/capabilities.py:65-79 | an authorization is granted if and only if the capability is for the operation, unexpired, its scope's segments are the first segments of the alias, and it is not spent; a refusal for lack of title changes nothing |
| `GuardAccess.RecordInFigures` | src/asset_store_core/capabilities.py:124-133 | a use is refused exactly when spent already, otherwise recorded with the capability's own expiry |
| `GuardAccess.IssueInFigures` | src/asset_store_core/capabilities.py:162-172 | issued if and only if unexpired, with fewer than the maximum of unexpired grants held, and audited |
| `Pagination.QueryAssets` | src/asset_store_core/registry.py:934-941 | filtering the sorted table and cutting it gives the first rows of the sorted matching set past the cursor |
| `Pagination.ListAssets` | src/asset_store_core/api/admin.py:105-120 | a page and its next cursor, or a refusal when the cursor belongs to other filters |
| `Pagination.CursorIsBoundToFilters` | src/asset_store_core/admin_query.py:42-60 | a page's own cursor continues right after it and is refused under other filters exactly when their fingerprint differs |
| `Pagination.PageLaws` | src/asset_store_core/api/admin.py:108-118 | a page is increasing, matches, and leaves out only rows after its last |
| `Pagination.WalkIncreases` | src/asset_store_core/registry.py:934-941 | across pages of a changing registry keys strictly increase |
| `Pagination.WalkShowsMatches` | src/asset_store_core/admin_query.py:62-70 | what is shown matched when its page was made |
| `Pagination.WalkMissesNothing` | src/asset_store_core/registry.py:934-941 | an asset that matches throughout appears in every walk that reaches its end |
| `Pagination.NoAssetTwice` | src/asset_store_core/registry.py:934-941 | no asset appears twice, as creation times never change |
| `Pagination.WalkFinishes` | src/asset_store_core/api/admin.py:108-118 | the walk ends |
| `Pagination.WalkIsTheSortedList` | src/asset_store_core/api/admin.py:105-120 | for every page size, following cursors over an unchanged registry gives exactly the matching assets in (created, id) order, each once |
| `Pagination.MatchesInFigures` | src/asset_store_core/admin_query.py:62-74 | a row matches exactly when bucket, partition and state are those asked for, creation lies between the bounds and some alias begins with the prefix's segments |
| `Pagination.PageInFigures` | src/asset_store_core/api/admin.py:105-120 | on the columns: a page is ordered by creation and identifier, holds only rows that fit past the cursor, is full when a next one is announced, which happens exactly when rows that fit are left over, all after its last |
| `Pagination.WalkShowsWhatFits` | src/asset_store_core/admin_query.py:62-70 | whatever a walk shows fitted the filters when its page was made |
| `Pagination.WalkShowsAllThatFits` | src/asset_store_core/registry.py:934-941 | whatever fits the filters throughout is shown by every walk that reaches its end |
| `Paths.JoinSplit` | src/asset_store_core/paths.py:49-52 | splitting at slashes loses nothing |
| `Paths.SplitConcat` | src/asset_store_core/paths.py:49-52 | splitting goes through a slash |
| `Paths.CoversBySegments` | src/asset_store_core/admin_query.py:73-74 | "equal or starts with prefix and slash" holds exactly when the prefix's segments are the first segments, for all strings |
| `Paths.ScopedBySegments` | src/asset_store_core/registry.py:985-992 | a scoped name always has the partition's segments first, and which segments follow |
| `Paths.ScopedNamesCollide` | src/asset_store_core/registry.py:985-992 | two names of one partition share a key exactly when equal or when one spells out the partition |
| `Paths.FirstSegmentIsFirst` | src/asset_store_core/registry.py:995-998 | the partition taken from a scoped alias is its first segment |
| `Paths.CanonicalIsNormal` | src/asset_store_core/paths.py:43-53 | a path of sound, untrimmed segments is its own normal form |
| `Paths.NormalizeTwice` | src/asset_store_core/paths.py:43-53 | normalizing twice is normalizing once if and only if, white space at the ends aside, the input has none right behind its leading slashes or right before its trailing ones |
| `Paths.NormalizeMovesAgain` | src/asset_store_core/paths.py:43-53 | counterexample: "/ a /" becomes " a ", which becomes "a" |
| `Guard.KeysAgreeExactlyWhen` | src/asset_store_core/guard.py:51-67 | for every alias the guard accepts, write and read use the same key if and only if a read can look it up, the partition segment does not end and the name does not begin in white space, none is left at the end of the name, and the name does not begin by repeating the partition |
| `Guard.RepeatedPartitionLosesItsName` | src/asset_store_core/registry.py:990-991 | counterexample: writing cache/p/p/x binds p/x, reading it looks for p/p/x |
| `Guard.LeadingSpaceLosesItsName` | src/asset_store_core/guard.py:57-66 | counterexample: writing "cache/p/ x" binds p/x, reading it looks for "p/ x" |
| `Guard.LeadingSpaceOfPartitionIsHarmless` | src/asset_store_core/guard.py:57-66 | white space in front of the partition does no harm: "cache// p/x" is written and read as p/x |
| `Guard.ParseCanonical` | src/asset_store_core/guard.py:51-67 | a canonical alias parses into its own segments |
| `Guard.CanonicalKeysAgreeExactlyWhen` | src/asset_store_core/registry.py:985-992 | on canonical aliases the keys agree exactly when the third segment does not repeat the second |
| `Guard.BoundUnderPartition` | src/asset_store_core/registry.py:985-992 | whatever the alias, a write binds a name under the partition it was parsed with |
| `Guard.PartitionScopeIsKept` | src/asset_store_core/capabilities.py:186-193 | a write under a capability for one whole partition stays in it if and only if the partition segment of the alias does not end in white space |
| `Guard.WriteStaysInScope` | src/asset_store_core/capabilities.py:186-193 | on canonical aliases, under any scope, a write stays in it if and only if the name does not repeat the partition or the segments covered beyond the bucket all equal the next one |
| `Guard.WriteLeavesScope` | src/asset_store_core/guard.py:216-236 | counterexample: scoped to cache/p/p, a write to cache/p/p/x binds cache/p/x |
| `GuardFlow.UploadLaws` | src/asset_store_core/guard.py:200-261 | an upload succeeds exactly when its reservation is granted, the put succeeds and the checksum is the expected one; then one available row, its bytes and one binding are new; a refusal changes nothing; any other failure leaves a deleted row under the alias, purged and without bytes unless the deletion failed too |
| `GuardFlow.CommitFollowsReserve` | src/asset_store_core/guard.py:246-255 | after a granted reservation the commit is refused only for the checksum |
| `GuardFlow.FailedUploadFreesItsRoom` | src/asset_store_core/guard.py:263-295 | a failed upload leaves every sum behind quotas and ceilings as it was, but for the physical bytes when their deletion failed |
| `GuardFlow.StorageGuard.CleanupFailedUpload` | src/asset_store_core/guard.py:263-303 | fence, delete bytes, record: anything past pending is left alone, and a failed deletion leaves the fence and the bytes to the sweeper |
| `GuardFlow.StorageGuard.UploadNew` | src/asset_store_core/guard.py:217-259 | reserve, put, commit and cleanup have the specified effect on registry and store, also when the put fails before or after taking effect |
| `GuardFlow.StorageGuard.WriteObject` | src/asset_store_core/guard.py:200-261 | authorization, single use, bucket permission and upload in order, with every refusal |
| `GuardFlow.StorageGuard.ReadBytes` | src/asset_store_core/guard.py:121-150 | authorization, single use, bucket permission, resolution, bytes and read record in order, with every refusal |
| `GuardFlow.WrittenAliasResolves` | src/asset_store_core/guard.py:200-261 | after a successful write at any alias exactly one key is bound to the new asset, its bytes are in place, and it is the key the alias is read by under the condition of `Guard.KeysAgreeExactlyWhen`, and only then |
| `GuardFlow.ReadReturnsBound` | src/asset_store_core/guard.py:140-150 | in any state, a permitted read of an unexpired available asset whose bytes are there returns them if and only if the key it looks up is bound to that asset |
| `GuardFlow.WriteThenRead` | src/asset_store_core/guard.py:140-150 | a permitted read, single-use or not, of the alias just written, with no step in between and before its deadline, returns the bytes written if and only if that condition holds |
| `GuardFlow.WriteBindsInScope` | src/asset_store_core/guard.py:216-236 | after a successful write at a canonical alias every key bound to the new asset is in the capability's scope under the condition of `Guard.WriteStaysInScope`, and only then |
| `GuardAccess.TrimInFigures` | src/asset_store_core/paths.py:43-46 | trimming takes characters to be dropped off both ends and leaves none there |
| `GuardAccess.WhiteSpaceIs` | src/asset_store_core/paths.py:43-46 | the code points stripped as white space |
| `GuardAccess.BucketNames` | src/asset_store_core/paths.py:16-29 | the four bucket names and no others stand for buckets |
| `GuardAccess.NormalizeInFigures` | src/asset_store_core/paths.py:43-53 | a path is accepted exactly when, white space and slashes at its ends aside, no segment is empty, a dot or two dots |
| `GuardAccess.ParseInFigures` | src/asset_store_core/guard.py:51-67 | in segments: exactly which aliases parse and into what |
| `GuardAccess.KeysInFigures` | src/asset_store_core/guard.py:236-243 | in segments: the key a write binds and the key a read looks under |
| `GuardAccess.WriteIsGuarded` | src/asset_store_core/guard.py:216-236 | a write is refused without effect exactly when the alias does not parse or the capability is not entitled to write there, then when spent, then when its service may not; one that answers Written was entitled, unspent and is on record, one that does not spends nothing |
| `GuardAccess.RefusedWriteLeaves` | src/asset_store_core/guard.py:233-303 | a write that was turned down leaves every other row and object as it was, at most a deleted row of its own, and bytes of its own only where the store could not delete them |
| `GuardAccess.WriteInFigures` | src/asset_store_core/guard.py:216-261 | what a write that answers Written leaves, column by column: one available row with size, checksum and deadline of the call, its bytes under the partition, and one binding as mutable as asked for |
| `GuardAccess.ReadIsGuarded` | src/asset_store_core/guard.py:121-150 | a read returns bytes if and only if alias, title, single use and permission hold and its key is bound to an available unexpired asset whose bytes are there; then they are those, and the read is recorded; every refusal leaves rows and objects as they were |
| `GuardAccess.CleanUpInFigures` | src/asset_store_core/guard.py:263-303 | on the columns: what a clean-up leaves alone, marks deleted, and purges |
| `GuardAccess.BytesLieUnderAssets` | src/asset_store_core/storage.py:20-27 | the key of an object is the partition's segments, then assets, then the identifier |
| `Pilot.SecondDecodeIsIdentity` | src/fetcher_service/pilot_policy.py:70-76 | on every path that passes the encoding check, a second percent-decode is the identity (section 2.4 of RFC 3986) |
| `Pilot.AcceptedIsPlain` | src/fetcher_service/pilot_policy.py:17-31 | an accepted path has only plain characters, begins with one slash and ends with none |
| `Pilot.RequireAgain` | src/fetcher_service/pilot_policy.py:59-79 | the policy accepts the URL of every target it made, unless that is over the length limit |
| `Pilot.NormalizeKeeps` | src/fetcher_service/normalize.py:49-76 | the fetcher's normalization leaves the URL of an accepted target alone |
| `Pilot.FetchIsAccepted` | src/fetcher_service/pilot_policy.py:39-45 | the fetched URL is accepted, is not mapped again, and is nine characters longer for a mapped one |
| `Pilot.SharedAliasIsSharedFetch` | src/fetcher_service/pilot_policy.py:47-53 | two accepted targets share an alias exactly when they share a fetch URL |
| `Pilot.PreloadStoresWhereReadLooks` | src/fetcher_service/service.py:85-104 | preload stores under the alias read resolves if and only if the fetch URL fits the length limit; otherwise preload is refused |
| `Pilot.ReadPathOfTarget` | src/fetcher_service/pilot_policy.py:81-88 | a read path that names a target's host and path is judged to be that target |
| `Pilot.ReadFindsPreloaded` | src/fetcher_service/pilot.py:103-105 | a read finds what a preload stored exactly when the same URL is fetched for both |
| `Pilot.OnlyLongLegacyUrlsAreRefused` | src/fetcher_service/pilot.py:71-81 | that happens exactly for legacy full images whose URL is longer than 2039 characters |
| `Pilot.SomeAcceptedUrlCannotBePreloaded` | src/fetcher_service/pilot.py:71-81 | counterexample: an accepted URL of 2045 characters that preload refuses |
| `PilotFigures.PageNumbersAreNumerals` | src/fetcher_service/pilot_policy.py:17-31 | a page segment is f and a positive decimal number without leading zeros |
| `PilotFigures.MarkedShapes` | src/fetcher_service/pilot_policy.py:17-28 | with a mark in front: a mirrored rotation is a number, a size to fit into an extent, a percentage a number or a box |
| `PilotFigures.PlainShapes` | src/fetcher_service/pilot_policy.py:17-28 | with a digit in front: a rotation is a number, a size an extent, a region a box |
| `PilotFigures.FilesInFigures` | src/fetcher_service/pilot_policy.py:22-28 | the legacy host serves the files of the current one but for those ending in .webp |
| `PilotFigures.NoTrailingSlash` | src/fetcher_service/normalize.py:49-76 | a normalized URL ends in a slash only if its path is one slash |
| `PilotFigures.CaseIsIgnored` | src/fetcher_service/pilot_policy.py:59-66 | scheme and host are compared without regard to case |
| `PilotFigures.ReadInFigures` | src/fetcher_service/pilot_policy.py:81-88 | a read is judged as the https URL of its path, and only without a query and with one of the two hosts in front |
| `PilotFigures.FetchInFigures` | src/fetcher_service/pilot_policy.py:39-45 | the full legacy image is fetched from the v3 path spelled out, everything else as it stands |
| `PilotFigures.AliasInFigures` | src/fetcher_service/pilot_policy.py:47-53 | the alias is the pilot's partition, the fetched host unless it is the legacy one, and the fetched path |
| `PilotFigures.DecodingUndoesEncoding` | src/fetcher_service/pilot_policy.py:70-76 | percent-decoding undoes percent-encoding, whichever characters were encoded and in either case of the digits |

## Left out

- HTTP routing, schemas, metrics, logging and service credentials: plumbing. The bucket allowlist itself is a
  lookup; its answer is a parameter of reads and writes.
- Owner, MIME type and calling service of assets, binding timestamps, audit entries that record no state
  change and `recent_audit`: no checked rule depends on them.
- Raw reservation and commit with externally staged bytes, presigned URLs, an upload the store applies only
  after cleanup: only proxy writes under the row lock are modelled.
- SQL text, connection pooling, unique-violation races on alias names, migrations, multipart uploads.
- Overflow of date arithmetic when a lifetime is enormous; the original reports a validation error.
- Names and partitions that are not in normal form inside the registry: `Registry` takes normalized ones, so
  keys such as the two normal forms of "/ a /" are only treated in `Paths`.
- White space around identifiers and checksums, which the original strips.
- `RegistryQuota.StepStaysUnder`: a gauge without occupants counts as under; with a zero limit and no asset the
  strict comparison with the ceiling would be false of an empty registry too.
- `RegistryQuota.MatchingCommitIsAdmitted`: assumes a valid capacity ratio and positive budgets, as a commit
  is otherwise refused for the configuration.
- `QuotaLocks.CeilingsHoldConcurrently`: holds between two changes of limits, as a new limit may be below what
  is in use; `PublishNeverOverbooks` covers publications among such changes.
- `Guard.WriteStaysInScope`: canonical aliases only; for scopes of one whole partition
  `Guard.PartitionScopeIsKept` covers every alias.
- `QuotaRefinement.StepIsCommandOrInvisible`: names and audit log are not part of these tables, so a pending
  asset dropped for want of names is matched by a detach in a registry that has one name for it.
- `ProtocolRefinement.StepIsCommandOrInvisible`: deadlines are projected away and the registry it refines has
  no limits.
- The key of a binding is normalized once more than the name stored in it; the model keeps the key only.
- `UploadProtocol.AlwaysSafe`: alias, annotation, policy and read-count updates are one step that leaves the
  lifecycle columns alone; quota admission, treated in `QuotaLocks`, does not restrict steps here, so more
  interleavings are covered than can occur.
- `SweepFixpoint.SweepAppliesItsPlan`: nobody else writes during the sweep and the store does not fail;
  interference is covered by `SweepFigures.PerformInFigures`, for any state an action may find, and by
  `UploadProtocol`.
- `Pilot.NormalizeKeeps`: `NormalizeUrl` covers https URLs without port, user, query or fragment, which is
  what the policy lets through; percent-decoded bytes above 127 become one character each here, and both
  readings are rejected by the accepted shapes.
- `ensure_url` hit, miss and refetch outcomes, the pilot's size and MIME checks and its token cache: straight
  sequences of client calls.
- `validate_filters` of the admin query beyond normal forms, and page limits above 500.
- The optimistic `updated_at` precondition of admin edits: sweeps write their starting time, so it is not a
  revision order.
- Work-admission counters, the bulk loader, monitors and acceptance scripts.
