# Verified model of an AI gateway's stateful cores

The gateway forwards requests to many upstream providers ("channels"). This project models the parts of it whose
correctness depends on many steps fitting together, and proves what they promise:

- **Disk cache** (`DiskCacheLocal`, `DiskCacheShared`, `DiskCacheOverfill`, `SharedLifecycle`, `SharedLock`, `DiskCache`,
  `CacheFiles`, `BodyStorage`): bytes are reserved, extended, committed and released under one cap, by goroutines of one process through atomic
  counters and by several processes through a lock file and marker files. Request bodies are streamed into that
  cache or kept in memory.
- **Rate limiter** (`SlidingWindow`, `RateLimit`): a linked queue per key, a map, a least-recently-used list with
  early-stopping eviction and in-flight reservations, proved to decide as a limiter that remembers everything.
- **Upstream model synchronisation** (`Wrappers`, `Text`, `ModelNames`, `ChannelSettings`, `ChannelRow`,
  `UpstreamSync`, `UpstreamApply`, `SyncRuns`): detection in two locked phases, automatic addition, and applying selected changes.
- **Channel edit** (`ChannelKeys`, `ChannelEdit`, `EditOrder`, `EditSource`, `InnocentEdits`, `ChannelUpdate`, `KeyCounts`, `PluginKeys`): a three-way merge of the
  row the client loaded, the row now locked and the request, with a permission check for sensitive changes.
- **Worker pool, recharge badge, quota arithmetic** (`WorkerPool`, `RechargeBadge`, `QuotaMath`).

Protocols are step systems: a run is any sequence of states joined by steps, and the theorems quantify over all runs.
Objects that the source updates in place are classes whose methods are proved against functions of the old state;
the theorems are then about those functions. `dafny verify dfyconfig.toml` checks everything.

## Model

| member | source | states |
|---|---|---|
| `DiskCacheLocal.RunConserves` | common/disk_cache_config.go:216-258 | for every interleaving of loads, compare-and-swaps, extends, commits, releases and deletes by any number of goroutines, usage is the bytes the slots answer for, lies between zero and the cap, and no clamp to zero is ever reached |
| `DiskCacheLocal.StepHolds` | common/disk_cache_config.go:369-414 | every atomic step of any goroutine keeps usage and file count equal to what all slots account for, within the cap |
| `DiskCacheLocal.MoveIsSound` | common/disk_cache_config.go:437-490 | one step changes the counters by exactly the change in what its own slot accounts for |
| `DiskCacheLocal.RestConserves` | common/disk_cache_config.go:437-468 | whenever no call is under way, usage is the open reservations plus the live committed files |
| `DiskCacheLocal.NothingLeaks` | common/disk_cache_config.go:470-490 | once every reservation and file is gone both counters are zero |
| `DiskCacheLocal.ReserveAlone` | common/disk_cache_config.go:249-257 | undisturbed by others, a reservation is granted exactly if usage plus its size is within the cap, and charged in full |
| `DiskCacheLocal.ExtendAlone` | common/disk_cache_config.go:404-413 | so is an extension |
| `DiskCacheLocal.CommitAlone` | common/disk_cache_config.go:437-468 | a commit gives back what was reserved too much and counts the file |
| `DiskCacheLocal.UncappedGrants` | common/disk_cache_config.go:223-227 | without a cap reservations and extensions are granted at once |
| `DiskCacheLocal.CallsCanBeMade` | common/disk_cache_config.go:216-481 | every call can be made in every state that allows it |
| `DiskCacheShared.StepHolds` | common/disk_cache_config.go:228-248 | any step of any process, failing file operations included, keeps lock ownership, marker and file ownership and, for careful use, the running scan's bound and the cap |
| `DiskCacheShared.RunHolds` | common/disk_cache_config.go:268-314 | that invariant holds in every state of every run without stale locks or live stale markers |
| `DiskCacheShared.AtMostOneHolder` | common/disk_cache_config.go:316-367 | at most one slot of any process is inside the lock |
| `SharedLock.NoOrphanLockIff` | common/disk_cache_config.go:316-367 | in every state of a run the lock file is that of a slot still inside, exactly if every release read its own token there and every removal of a lock file succeeded |
| `SharedLock.OrphanedByNaming` | common/disk_cache_config.go:331-340 | a run in which a lock file is created, cannot be written and cannot be removed |
| `SharedLock.OrphanedByRelease` | common/disk_cache_config.go:358-367 | a run in which a successful reservation leaves its lock file behind because reading it failed |
| `SharedLock.MoveIsShutOut` | common/disk_cache_config.go:328-355 | while a lock file is there, whoever is outside stays outside: seeking the lock goes on or is given up |
| `SharedLock.OrphanShutsOut` | common/disk_cache_config.go:344-355 | until it is stale, a lock left behind stays, nobody is inside, and no reservation with a marker is gained or grows |
| `DiskCacheShared.OthersUnaffected` | common/disk_cache_config.go:382-403 | a step leaves the files, markers, lock and scan of every other slot valid, unlocked deletes included |
| `DiskCacheShared.CarefulIsSafe` | common/disk_cache_config.go:416-468 | finalized files plus markers stay within the cap in all runs of callers that extend no zero-byte reservation, write nothing after a Commit that lost its marker failed and keep no refused file, if no scan misses a file that is there |
| `DiskCacheOverfill.CapHoldsIff` | common/disk_cache_config.go:268-468 | and exactly then: each of the four liberties by itself breaks the cap |
| `DiskCacheOverfill.EmptyOverfills` | common/disk_cache_config.go:404-413 | two zero-byte reservations extended inside their processes reach twice the cap |
| `DiskCacheOverfill.LostOverfills` | common/disk_cache_config.go:425-453 | a Commit that removes the marker and then fails to scan, a reservation by another process, a write and a second Commit reach twice the cap |
| `DiskCacheOverfill.RefusedOverfills` | common/disk_cache_config.go:445-456 | a file refused as too large is accepted by a second Commit |
| `DiskCacheOverfill.MissedOverfills` | common/disk_cache_config.go:280-294 | a scan that cannot stat a marker does not count it, and the cap is reserved twice |
| `SharedLifecycle.WholeLife` | common/disk_cache_config.go:216-481 | a reservation that is extended, written, committed and deleted turns into its file and leaves nothing behind |
| `SharedLifecycle.ReserveDecision` | common/disk_cache_config.go:230-243 | a reservation is granted only if the scanned total plus its size is within the cap, and then it can be |
| `SharedLifecycle.ExtendDecision` | common/disk_cache_config.go:382-399 | so is an extension whose marker is there |
| `SharedLifecycle.ReleaseEnds` | common/disk_cache_config.go:416-435 | a release ends with nothing, whether or not the marker could be removed and the directories be read |
| `SharedLifecycle.HoldersMayGoOn` | common/disk_cache_config.go:369-481 | an open reservation may be extended, committed once it has a file and released once it has none |
| `SharedLifecycle.FilesMayBeDeleted` | common/disk_cache.go:341-349 | a finalized or refused file may be kept for a while and deleted |
| `SharedLifecycle.SeekersMayGiveUp` | common/disk_cache_config.go:328-355 | whoever seeks the lock may wait, give up, and take over a lock of more than ten minutes |
| `SharedLifecycle.MarkersAreCounted` | common/disk_cache_config.go:280-294 | a marker is counted for fifteen minutes and purged after that |
| `DiskCache.Counters.Reserve` | common/disk_cache_config.go:216-258 | with a cap, succeeds exactly if usage plus the size is within it; charges exactly the size and keeps usage within the cap |
| `DiskCache.Counters.DecrementFiles` | common/disk_cache_config.go:144-149 | one file and its bytes less, neither below zero |
| `DiskCache.Counters.ReleaseBytes` | common/disk_cache_config.go:483-490 | bytes given back, never below zero |
| `DiskCache.Reservation.Extend` | common/disk_cache_config.go:369-414 | grows reservation and usage together, exactly if usage plus the extra bytes is within the cap, and keeps usage within it |
| `DiskCache.Reservation.Commit` | common/disk_cache_config.go:437-468 | keeps the actual bytes and counts one file, or gives everything back if more was written than reserved; a finished reservation is left alone |
| `DiskCache.Reservation.Release` | common/disk_cache_config.go:470-481 | gives the bytes back once |
| `CacheFiles.WriteCacheFile` | common/disk_cache.go:94-133 | with the process-local allocator, succeeds exactly if the bytes fit and creating, writing and closing succeed; on every exit the counters account for exactly the files present |
| `CacheFiles.RemoveCacheFile` | common/disk_cache.go:341-349 | a removed file leaves the counters, exactly unless it could not be statted before; then its bytes stay counted |
| `CacheFiles.TotalSizeWithout` | common/disk_cache.go:341-350 | the bytes of a directory are those of any one file plus the rest |
| `BodyStorage.CopyReaderToReserved` | common/body_storage.go:223-290 | terminates; written ≤ reserved ≤ limit and usage stays within the cap; the file gets a prefix of the stream, all of it on success; a longer stream is too large; running out of capacity means that the next extension would pass the cap |
| `BodyStorage.CopyChunk` | common/body_storage.go:262-289 | one iteration: what is read is written, and the loop goes on only after progress |
| `BodyStorage.ProbeEnd` | common/body_storage.go:233-248 | at the limit one more read tells a finished stream from one that is too long |
| `BodyStorage.NewDiskStorage` | common/body_storage.go:119-169 | the file holds the data and is charged exactly, or nothing is |
| `BodyStorage.NewDiskStorageFromReader` | common/body_storage.go:171-221 | stores exactly the stream, only if acceptable, and always if there is room; with the process-local allocator the commit after a successful copy cannot fail; a failure leaves the counters as they were |
| `BodyStorage.AnswersAgreeIff` | common/body_storage.go:57-100 | memory and disk always go on alike, and answer a call alike exactly unless it reads zero bytes at the end of an open body |
| `BodyStorage.SessionsAgreeIff` | common/body_storage.go:292-374 | whole sessions of reads, seeks, `Bytes`, replays and closes get the same replies from both backends, exactly unless such a read is reached |
| `BodyStorage.ReadsAddUp` | common/body_storage.go:57-64 | however a body is read, the pieces add up to its bytes from the position on, as many as were asked for |
| `BodyStorage.BodyLaws` | common/body_storage.go:57-100 | where seeks go, that reads report the end exactly there, and that a closed body answers nothing |
| `BodyStorage.ExpectedMeans` | common/body_storage.go:223-290 | too long, cleanly ended and broken streams are told apart |
| `BodyStorage.MemoryStorage.Read` | common/body_storage.go:57-64 | replies as the reference body does |
| `BodyStorage.MemoryStorage.Seek` | common/body_storage.go:66-73 | moves the position as the reference body does |
| `BodyStorage.MemoryStorage.Close` | common/body_storage.go:75-82 | settles the memory counters once |
| `BodyStorage.DiskStorage.Read` | common/body_storage.go:292-299 | replies as the reference body does |
| `BodyStorage.DiskStorage.Seek` | common/body_storage.go:301-308 | moves the position as the reference body does |
| `BodyStorage.DiskStorage.Bytes` | common/body_storage.go:321-353 | returns the whole body and keeps the read position |
| `BodyStorage.DiskStorage.Close` | common/body_storage.go:310-319 | settles the disk counters once |
| `BodyStorage.CreateBodyStorage` | common/body_storage.go:377-395 | on disk exactly if enabled, large enough and within cap and disk, else in memory; the body is the data, at position zero, charged once to that backend's counters |
| `BodyStorage.CreateBodyStorageFromReader` | common/body_storage.go:398-452 | both backends accept the same streams and store them byte for byte; the stream is charged once to its backend, and a rejection charges nothing |
| `RateLimit.RequestQueue.Append` | common/rate-limit.go:23-33 | the linked queue grows by one request at its end and stays well formed |
| `RateLimit.RequestQueue.RemoveExpired` | common/rate-limit.go:36-53 | drops exactly the requests that left the window, never dereferencing nil |
| `RateLimit.RequestQueue.Clear` | common/rate-limit.go:56-60 | the queue is empty and well formed |
| `RateLimit.Limiter.TouchEntry` | common/rate-limit.go:135-149 | the key's entry exists, is the most recent one, and map, list and queues still agree |
| `RateLimit.Limiter.Request` | common/rate-limit.go:152-166 | decides and records as the reference limiter that keeps every request |
| `RateLimit.Limiter.Reserve` | common/rate-limit.go:178-190 | admits exactly if recorded plus in-flight requests are below the maximum, as the reference limiter does |
| `RateLimit.Reservation.Complete` | common/rate-limit.go:194-211 | frees the slot and records on success, as the reference limiter does; repeating it has no effect |
| `RateLimit.Limiter.DeleteExpiredEntries` | common/rate-limit.go:107-131 | stopping at the first active key, removes exactly the keys last active at least the expiration time ago, and forgets no request that still counts |
| `RateLimit.Limiter.Evict` | common/rate-limit.go:115-130 | removing the idlest key keeps the invariant: all its requests have left the window |
| `RateLimit.RecencyMoved` | common/rate-limit.go:135-149 | moving the entry just used to the front restores the order by last activity |
| `RateLimit.FaithfulForgotten` | common/rate-limit.go:107-131 | a key whose requests have all expired can be forgotten without changing any later count |
| `RateLimit.FaithfulPruned` | common/rate-limit.go:36-53 | pruning leaves the count of live requests equal to that over the full history |
| `RateLimit.CountedOpened` | common/rate-limit.go:178-190 | the reservation map stays the number of uncompleted reservations per key when one is opened |
| `RateLimit.CountedClosed` | common/rate-limit.go:194-211 | and when one is completed, dropping keys that reach zero |
| `SlidingWindow.RunIsSteady` | common/rate-limit.go:152-211 | over any run of Request-only or Reserve-only calls of a key no window holds more than the maximum, and recorded plus in-flight requests never exceed it |
| `SlidingWindow.RunRecordsAccepted` | common/rate-limit.go:152-211 | a key's history is exactly the moments of its accepted requests and of its completions with success, and its reservations are those granted and not completed, both read off the calls alone |
| `SlidingWindow.AdmitsIsGranted` | common/rate-limit.go:152-190 | every decision is the one counted afresh from the calls before it |
| `SlidingWindow.AcceptedAreBounded` | common/rate-limit.go:152-211 | the rate bound on those accepted moments themselves: any two with the maximum between them are a window apart, and the young ones plus those in flight never exceed the maximum |
| `SlidingWindow.RecordKeepsBound` | common/rate-limit.go:152-166 | recording a request while fewer than the maximum count keeps every window within the maximum |
| `SlidingWindow.KeysAreIndependent` | common/rate-limit.go:152-211 | a key's decisions depend on its own calls alone |
| `SlidingWindow.TracksPruned` | common/rate-limit.go:36-53 | a history shortened by its expired prefix still stands for the full history |
| `SlidingWindow.UnixIsSeconds` | common/rate-limit.go:152-166 | instants are counted in whole seconds |
| `SlidingWindow.MixedRequestIsSafeIff` | common/rate-limit.go:152-166 | on a key that also has reservations, an admitted Request keeps the bound exactly if recorded plus in-flight requests were below the maximum |
| `SlidingWindow.MixingBreaksTheBound` | common/rate-limit.go:152-190 | two concrete calls that exceed the maximum by mixing Request and Reserve |
| `ModelNames.NormalizeNameList` | common/normalize.go:5-20 | the one-pass loop computes the trimmed, non-empty names, each once, first occurrence first |
| `ModelNames.NormalizeFixed` | controller/channel_upstream_update.go:181-186 | normalizing is a projection: it fixes exactly the normal lists |
| `ModelNames.UniqKeepsFirst` | common/normalize.go:5-20 | of equal names the first one stays, and the order is that of the first places |
| `ModelNames.MergeModelNames` | controller/channel_upstream_update.go:196-210 | the loop appends exactly the names that are new |
| `ModelNames.SubtractLaws` | controller/channel_upstream_update.go:212-221 | members of a difference, without duplicates |
| `ModelNames.IntersectLaws` | controller/channel_upstream_update.go:223-232 | members of an intersection, without duplicates |
| `ModelNames.ApplySelectedLaw` | controller/channel_upstream_update.go:234-239 | survivors in their order, then additions in theirs; an addition wins over a removal |
| `ModelNames.StoredModels` | common/normalize.go:22-31 | a normal list of comma-free names survives being joined and split again |
| `ModelNames.PendingLaws` | controller/channel_upstream_update.go:286-342 | pending additions are the upstream names that are not local, redirected or ignored; pending removals the local ones that are not upstream, aliases or ignored |
| `ModelNames.PendingMeans` | controller/channel_upstream_update.go:268-342 | the same down to single entries: the local list, the values and keys of the mapping, and listed names or patterns that match |
| `ModelNames.NothingPendingIff` | controller/channel_upstream_update.go:286-342 | nothing is pending exactly if every upstream and every local name is accounted for |
| `ModelNames.ListedIsIgnored` | controller/channel_upstream_update.go:268-284 | a listed name that is no pattern is ignored |
| `ChannelSettings.PersistRoundTrip` | controller/channel_upstream_update.go:720-780 | persisted synchronisation settings read back normalized, other keys are untouched, and only text that is no JSON object is refused |
| `ChannelSettings.StoredKeys` | controller/channel_upstream_update.go:733-771 | each of the six keys is stored exactly if there is something to store |
| `ChannelSettings.MergeRuntimeLaws` | controller/channel.go:1122-1147 | the client's own keys, check switch and ignored list stay; automatic addition needs checks; pending lists and check time are the stored ones exactly if checks are on and the source did not change, and none otherwise |
| `ChannelSettings.ClearForSourceChangeLaws` | controller/channel.go:1188-1209 | a source change empties the pending lists and nothing outside the six keys |
| `ChannelSettings.WithoutSyncKeysLaws` | controller/channel.go:1211-1224 | cleaning removes exactly the six keys |
| `ChannelSettings.SameSourceIsSameOutsideSync` | controller/channel_upstream_update.go:877-900 | equal source settings mean equal settings outside the six keys when both texts parse |
| `UpstreamSync.Detection.Recheck` | controller/channel_upstream_update.go:1000-1055 | goes on to ask the upstream exactly if detection is still due for the locked row |
| `UpstreamSync.Detection.Relock` | controller/channel_upstream_update.go:1162-1242 | persists exactly if the re-locked row is still due and its source and stored state are unchanged, and then as one atomic detection of that row |
| `UpstreamSync.Detection.CheckAndPersist` | controller/channel_upstream_update.go:1078-1251 | the whole two-phase detection, whatever other writers make of the row in between: exact condition for persisting, exact row afterwards |
| `UpstreamSync.Detection.CleanUp` | controller/channel_upstream_update.go:902-956 | an unsupported row loses its synchronisation settings |
| `UpstreamSync.CleanedRowLaws` | controller/channel_upstream_update.go:902-956 | and nothing else |
| `UpstreamSync.DetectionResult` | controller/channel_upstream_update.go:1216-1242 | the models, settings and other columns after a detection, with and without automatic addition |
| `UpstreamApply.ApplySelection` | controller/channel_upstream_update.go:2040-2096 | applies exactly if the channel is enabled (when asked), supported and checked |
| `UpstreamApply.ApplyResult` | controller/channel_upstream_update.go:2112-2141 | stored models, ignored and pending lists after applying; nothing else changes |
| `UpstreamApply.ApplyConserves` | controller/channel_upstream_update.go:2097-2141 | both pending lists split without overlap into taken and remaining; survivors keep their order before additions; the ignored list changes by exactly what was ignored and added |
| `UpstreamApply.ReplayIsIdempotentIff` | controller/channel_upstream_update.go:2097-2141 | repeating a request changes no list, exactly if no name was asked to be both added and removed while pending in both lists |
| `UpstreamApply.DetectionConvergesIff` | controller/channel_upstream_update.go:286-342 | detecting, applying everything and detecting again finds nothing pending, exactly if every name held back only by being ignored is matched by an entry that is not one of the added names |
| `UpstreamApply.PlainNamesConverge` | controller/channel_upstream_update.go:268-284 | with automatic addition, or with upstream names that do not start with `regex:`, it always finds nothing |
| `UpstreamApply.PatternNameDoesNotConverge` | controller/channel_upstream_update.go:2128-2131 | a concrete model named like an ignored pattern: adding it takes the pattern off the list and another model becomes pending |
| `UpstreamApply.DetectKeepsFit` | controller/channel_upstream_update.go:1216-1242 | after a detection pending additions are outside the models and pending removals inside |
| `UpstreamApply.ApplyKeepsFit` | controller/channel_upstream_update.go:2097-2141 | applying any selection keeps that |
| `SyncRuns.CreationLaws` | controller/channel.go:709-747 | a new channel has nothing pending and keeps its other settings |
| `SyncRuns.PendingListsFitIff` | controller/channel_upstream_update.go:286-342 | up to any state of a run, pending additions are not models, pending removals are, and no name is pending twice, exactly if no edit by tag and no removal of models went past the pending lists |
| `SyncRuns.PendingListsAlwaysFit` | controller/channel_upstream_update.go:2097-2141 | in every state reachable by creation, interleaved detections, automatic addition, applying, editing and switching on and off the lists fit |
| `SyncRuns.TagEditFitsIff` | model/channel.go:1840-1890 | an edit by tag keeps them fitting exactly if its model list holds every name pending to be removed and none pending to be added |
| `SyncRuns.RemovalFitsIff` | model/model_meta.go:350-370 | removing models from all channels does exactly if none of them is pending to be removed |
| `SyncRuns.TagEditStrandsPending` | model/channel.go:1850-1853 | a concrete edit by tag that leaves a name pending to be removed that is no model any more |
| `SyncRuns.ReplayIsIdempotent` | controller/channel_upstream_update.go:2040-2141 | in every state reached by steps that respect the pending lists, sending the same selection twice changes no list the second time |
| `SyncRuns.DetectionsAreAtomic` | controller/channel_upstream_update.go:1139-1266 | in every run a persisted detection is one atomic detection of the row at that moment, whose source and stored state equal those its first phase saw; otherwise only an unsupported channel is cleaned |
| `SyncRuns.StaleDetectionIsDropped` | controller/channel_upstream_update.go:829-900 | in every run a fetched list is dropped if the row then differs from the row seen in id, type, key, base URL, other, mapping, setting, header override, key bookkeeping, any setting that is no runtime state or the stored state, or is disabled, unsupported, unchecked or not due, or if the fetch failed or was cancelled |
| `SyncRuns.UndisturbedDetectionPersists` | controller/channel_upstream_update.go:1216-1242 | and is persisted if at most the models differ |
| `SyncRuns.DueIff` | controller/channel_upstream_update.go:1174-1205 | besides an unchanged source, a detection is due exactly if the channel is enabled (when asked), supported, checked, and the interval has passed or is not to be waited for |
| `SyncRuns.CodexTokensAreNoSource` | controller/channel_upstream_update.go:845-875 | new tokens in a Codex key do not make another source |
| `SyncRuns.BlankUrlIsDefault` | model/channel.go:1238-1249 | a blank base URL stands for the default of the type |
| `SyncRuns.MappingMeans` | controller/channel_upstream_update.go:241-266 | only text that is neither blank nor an empty object nor unreadable is a mapping |
| `SyncRuns.AppliedWhen` | controller/channel_upstream_update.go:2061-2095 | a selection is applied to an enabled (if that is asked for), supported channel with checks on, and to no other |
| `SyncRuns.LookingRemembers` | controller/channel_upstream_update.go:1000-1055 | a detection under way compares against the row its own first phase locked |
| `ChannelUpdate.Patch.UseLocked` | controller/channel.go:1379-1395 | a column not sent, or sent back unchanged after somebody else changed it, takes the locked value |
| `ChannelUpdate.Patch.MergeLocked` | controller/channel.go:1397-1476 | column by column, patch and request end as the merge function says |
| `ChannelUpdate.Patch.Reconcile` | controller/channel.go:1586-1617 | the settings text is cleaned, merged or cleared as the rules for support and source changes say |
| `ChannelUpdate.Patch.ApplyKeyMode` | controller/channel.go:1478-1568 | invalid modes and unreadable keys are refused; keys are appended or replaced |
| `ChannelUpdate.DedupeKeys` | controller/channel.go:1522-1541 | the loops over seen keys leave exactly the submitted keys that are new, each once |
| `ChannelUpdate.Patch.UpdateColumns` | controller/channel.go:1064-1120 | exactly the columns named by the fields in effect, with the patch's values |
| `ChannelUpdate.Patch.Update` | controller/channel.go:1570-1646 | the stored row becomes the edited row, or stays as it was if the edit is rejected |
| `EditSource.SourceChangedIff` | controller/channel.go:1304-1361 | the source test of an edit, in terms of the request and the two rows: a new type, key, base URL, other, mapping, setting, header override, model list, key mode, custom route, proxy, check switch or ignored list |
| `EditSource.NewSourceClears` | controller/channel.go:1585-1617 | an edit of any of these, or one that leaves the channel unsupported, leaves nothing pending and no check time |
| `EditSource.SameSourceKeeps` | controller/channel.go:1122-1147 | any other edit of a channel with checks on keeps all three |
| `ChannelKeys.AppendedKeysLaws` | controller/channel.go:1493-1544 | appending keeps the existing keys as a prefix and adds each new key once |
| `ChannelEdit.SubmittedKeysMeans` | controller/channel.go:1499-1520 | which keys are submitted: the lines, or for a Vertex channel without API keys the whole text or the list it holds |
| `ChannelKeys.StoredKeysRereadIff` | model/channel.go:200-235 | a stored key list is read back as it was, exactly if it is empty, or its text is a JSON array of those keys, or the text is none and the keys are trimmed lines with no blank one at either end |
| `ChannelKeys.AppendKeepsPlaces` | controller/channel.go:1493-1544 | after appending such lines every existing key is read back at its old index |
| `ChannelEdit.EditIsThreeWayMerge` | controller/channel.go:1397-1476 | a plain column ends as the client's value if the client sent it and it differs from what was loaded, else as the locked value; model and group lists likewise as lists |
| `ChannelEdit.WrittenListsAreNormal` | model/channel.go:1276-1280 | model and group lists that an edit writes are stored in their normal form |
| `ChannelEdit.DisjointEditsCommute` | controller/channel.go:1379-1476 | two edits from the same loaded row with disjoint changes commute and both survive |
| `EditOrder.OrdinaryEditsCommute` | controller/channel.go:1570-1646 | two edits without settings and key mode that would each succeed alone succeed in both orders, leave the same columns and lists, and leave the settings alone outside the six keys |
| `EditOrder.SuccessIsOrderFree` | controller/channel.go:1618-1628 | an edit does not change whether a second one with disjoint changes succeeds |
| `EditOrder.OrdinarySucceedsIff` | controller/channel_authz.go:10-68 | such an edit succeeds exactly if its mode is valid and the caller has the permission or changes no sensitive column away from what is stored |
| `EditOrder.OrderMattersForSyncKeys` | controller/channel.go:1594-1617 | two concrete edits whose order decides about one of the six keys |
| `ChannelEdit.UnprivilegedEditKeepsSensitiveColumns` | controller/channel_authz.go:10-68 | an edit without the permission leaves type, key, base URL, organization, header and parameter overrides, setting and other as locked, key modes included |
| `ChannelEdit.UnprivilegedEditIsConfined` | controller/channel_authz.go:74-85 | the same, column by column |
| `ChannelEdit.FreeEditNeedsNoPermission` | controller/channel_authz.go:180-196 | an edit of the other columns alone never needs the permission |
| `ChannelEdit.KeyModeNeedsPermission` | controller/channel_authz.go:44-68 | a key mode, however spelled, needs the permission |
| `ChannelEdit.InnocentEditNeedsNoPermission` | controller/channel.go:1618-1628 | under the lock, a request that holds the sensitive columns and settings as they were loaded, no key mode and no unclassified field is never asked for the permission, whatever others changed meanwhile |
| `ChannelEdit.InnocentEditPassesBeforeLock` | controller/channel.go:1703-1707 | the check before the lock lets such a request pass, too |
| `InnocentEdits.InnocentRequestAskedIff` | controller/channel.go:1258-1293 | through both checks, such a request is asked for the permission exactly if the handler took some of the six keys out of its settings and somebody changed other settings or the support of the channel meanwhile |
| `InnocentEdits.InnocentRequestIsAsked` | controller/channel.go:1276-1287 | a concrete request that sends back what was loaded and is asked |
| `KeyCounts.KeyCountMatchesIff` | model/channel.go:1276-1316 | after an edit with any key mode the stored key count of a multi-key channel is the number of keys read from its stored text, exactly unless the edit empties a key list, or appends to a key text it does not store and the lines gained are not as many as the blank ones lost; disabled keys stay within the count |
| `KeyCounts.DisabledKeysStay` | controller/channel.go:1478-1568 | a disabled key stays disabled as long as it is counted, unless the keys are replaced, which enables all; the mode is the one asked for or stays |
| `KeyCounts.LinesMiscountIff` | controller/channel.go:1512-1541 | for keys stored one a line, an append that stores nothing miscounts exactly if the list begins or ends with a blank key |
| `ChannelKeys.LinesChangeCountIff` | controller/channel.go:1522-1544 | where all keys are lines, appending changes the count exactly if some submitted key is not one of the keys read, as for the text of a JSON array |
| `ChannelKeys.ReadCount` | model/channel.go:230-234 | how many keys are read back from any trimmed keys: newlines inside keys add to them, blank keys at the ends are lost |
| `KeyCounts.EmptiedKeyKeepsCount` | model/channel.go:1280-1293 | a concrete edit that empties the key column and leaves a count of one |
| `KeyCounts.UnsentAppendMiscounts` | controller/channel.go:1493-1544 | a concrete append without a key that counts the text of a JSON array as one more key |
| `ChannelEdit.UnprivilegedEditKeepsSettingsIff` | controller/channel.go:1618-1640 | such an edit leaves the settings equal outside the six synchronisation keys, exactly if not just one of the stored and the sent text is a JSON object |
| `ChannelEdit.MixedUpTextGetsThrough` | controller/channel_upstream_update.go:884-892 | a concrete edit that replaces unreadable settings by an object quoting them under `__raw` without the permission |
| `ChannelEdit.SettleLaws` | controller/channel.go:1585-1617 | reconciling changes nothing outside the six keys of the text it starts from |
| `ChannelEdit.EditKeepsFit` | controller/channel.go:1304-1361 | an edit keeps the pending lists only together with the models they were computed for |
| `PluginKeys.SameStringSet` | controller/channel_authz.go:156-172 | true exactly if the trimmed keys are equal as multisets |
| `WorkerPool.UncancelledRunIsComplete` | controller/channel-test.go:986-1074 | a run that stopped without cancellation ran every eligible channel exactly once and no other, reported 0 to total, and counted every result |
| `WorkerPool.CancelledRunKeepsItsBooks` | controller/channel-test.go:1012-1040 | whenever the pool was cancelled, every started run is counted once, nothing else contributes, and reports have no gap |
| `WorkerPool.CancelStopsStarting` | controller/channel-test.go:1012-1024 | from the moment of a cancellation on no test is started and no progress is reported |
| `WorkerPool.ConcurrencyIsBounded` | controller/channel-test.go:983-1010 | never more tests run at once than there are workers |
| `WorkerPool.UnpausedNeverSleeps` | controller/channel-test.go:1030-1038 | without a pause between tests no worker ever sleeps |
| `WorkerPool.SummaryIsTheSumOfRuns` | controller/channel-test.go:1060-1074 | the returned summary is the sum of what the test runs of the schedule returned |
| `WorkerPool.NeverStuck` | controller/channel-test.go:1010-1058 | until all goroutines have stopped some goroutine can take a step, without waiting for a cancellation |
| `WorkerPool.EveryScheduleEnds` | controller/channel-test.go:986-1074 | no schedule of n channels and w workers is longer than 9n + 2w + 4 steps, and one that cannot go on has stopped completely |
| `WorkerPool.RunHolds` | controller/channel-test.go:986-1074 | workers and jobs agree about each other, and summary, progress and reports match the jobs, in every state of every run |
| `RechargeBadge.BadgeSummary` | controller/admin_finance.go:540-564 | without a keyword, latest cursor and count are those of the union, and the count is positive exactly if the latest order is later than the cursor |
| `RechargeBadge.LatestBadgeCursor` | controller/admin_finance.go:566-627 | the larger per-table maximum is the union's latest cursor, the zero cursor if there is none |
| `RechargeBadge.CountBadgeOrders` | controller/admin_finance.go:630-686 | the per-table counts add up to the union's count; an unreadable cursor counts nothing |
| `RechargeBadge.ConditionIsLexicographic` | controller/admin_finance.go:688-704 | the per-table condition and the union's condition both say "after the cursor" in the order of the cursor comparison |
| `RechargeBadge.NewOrderMeans` | controller/admin_finance.go:742-747 | new orders are the completed ones after the cursor by time, then rank, then number |
| `RechargeBadge.CountIsNumber` | controller/admin_finance.go:736-768 | the count is the number of places in the union with a new order |
| `RechargeBadge.CompareIsTotalOrder` | controller/admin_finance.go:706-726 | the cursor comparison is a strict total order |
| `RechargeBadge.UnionMembers` | controller/admin_finance.go:379-433 | the union holds every order of the wanted kind, user, status, provider and time as often as its table does, a top-up only if no subscription has its trade number |
| `RechargeBadge.LatestIsGreatest` | controller/admin_finance.go:770-789 | the latest cursor is the greatest among completed orders |
| `RechargeBadge.NewOrdersIffLatestIsLater` | controller/admin_finance.go:736-789 | there are new orders exactly if the latest one is later than the cursor |
| `RechargeBadge.CursorRoundTrip` | controller/admin_finance.go:501-534 | parsing a formatted cursor gives the cursor; one with a negative part is written as nothing |
| `RechargeBadge.CursorText` | controller/admin_finance.go:529-534 | a cursor is written as its three numbers with colons between them |
| `Text.ParseUnsigned` | controller/admin_finance.go:510-521 | digits are read as their number, and refused beyond 64 bits |
| `Text.ParseSigned` | controller/admin_finance.go:510-521 | a sign before them is read as one |
| `Text.JoinUndoesSplit` | controller/admin_finance.go:506-509 | splitting a text loses nothing |
| `Text.TrimIsMiddle` | controller/admin_finance.go:502-505 | trimming takes off the space on both sides and nothing else |
| `Text.SpaceExamples` | controller/admin_finance.go:502-505 | blanks, tabs and line ends are space, printable characters are not |
| `RechargeBadge.LatestCursorIsQuiet` | controller/admin_finance.go:501-564 | asking again with the latest cursor as text finds no new order |
| `QuotaMath.FromFloatClampsIff` | common/quota_math.go:108-169 | truncating conversions report a clamp exactly for NaN and values out of range |
| `QuotaMath.RoundClampsIff` | common/quota_math.go:175-213 | rounding conversions do so exactly for NaN, infinities and values half a unit or more out of range |
| `QuotaMath.ConversionValues` | common/quota_math.go:108-126 | the value of a conversion: toward zero or to the nearest number, the bound that was passed, or zero for NaN |
| `QuotaMath.PositiveFloor` | common/quota_math.go:151-157 | a positive amount costs at least one, and otherwise the positive forms are the plain ones |
| `QuotaMath.ConversionsMonotone` | common/quota_math.go:138-201 | all four conversions preserve order |
| `QuotaMath.StrictFailsIff` | common/quota_math.go:128-213 | strict conversions refuse a value exactly if it is NaN or out of range (for rounding, half a unit further out), and otherwise convert alike |
| `QuotaMath.SettlementError` | controller/channel-test.go:561-567 | without a clamp the charge differs from the exact price by at most (modelRatio + 1) / 2 |
| `QuotaMath.SettlementFloor` | controller/channel-test.go:561-573 | a priced test costs at least one quota, a free one nothing |
| `QuotaMath.FixedPrice` | controller/channel-test.go:572-572 | a test at a fixed price costs that price in whole quota, within the range |

## Left out

- Disk cache: `SyncDiskCacheStats`, `ResetDiskCacheUsage` and age-based cleanup, which reset or re-subtract usage outside the allocator; hit statistics; a cap that changes while reservations are open.
- DiskCacheLocal.RunConserves: one reservation is used by one goroutine at a time.
- DiskCacheShared.RunHolds: assumes that no lock reaches ten and no live marker fifteen minutes, on one clock; the takeover and purge steps are modelled but can then not hit a live owner. Creating a marker and giving it its length is one step inside the lock. Directories are changed by the cache alone.
- DiskCacheOverfill.CapHoldsIff: a reservation is not used after its Release or its successful Commit, Commit is told the size of the file, and a finalized file is not written to. The process-local counter of an extension without a marker is modelled as "fits the cap by itself". A marker past its age that could not be removed counts as gone, since no scan counts it again.
- CacheFiles.WriteCacheFile: the process-local allocator; in shared mode the Commit can fail, and then the caller removes the file and releases. The image-task variants differ in their directory only.
- BodyStorage.NewDiskStorageFromReader: the process-local allocator; in shared mode the Commit can fail (`DiskCacheShared`).
- BodyStorage.CopyReaderToReserved: the overflow of the limit plus one at the largest 64-bit integer is not modelled.
- RateLimit.Limiter.Request: assumes a clock that never goes back, one window per key, and windows within the expiration time when eviction is on; the list of the Go library is a sequence. Request and Reserve are not mixed on one key where the bound is claimed.
- Text.ParseInt: numbers of a 64-bit machine.
- ModelNames.PendingLaws: which patterns compile and match is a parameter.
- ChannelSettings.PersistRoundTrip: JSON text is represented by the value it parses to, a number for its spelling and one for the space around it; an array that mixes strings with other values and keys in another letter case are not modelled.
- ChannelRow.SameSource: default base URLs, the lasting part of Codex credentials and parsed model mappings are parameters; refreshing a Codex credential during the fetch is another writer.
- UpstreamSync.DetectionResult: upstream names hold no comma, since the stored list is joined by commas; clocks are positive. The abilities table, the lease of a background run and database errors are left out.
- ChannelEdit.EditIsThreeWayMerge: the status column, and the note on it that replacing keys may leave, are parameters; reasons and times of disabled keys and the polling cursor are left out; the merge goes through the columns in a loop where the source has one call per column.
- ChannelEdit.DisjointEditsCommute: both edits succeed in both orders, which `EditOrder.SuccessIsOrderFree` shows for edits without settings and key mode.
- ChannelEdit.UnprivilegedEditKeepsSensitiveColumns: a key mode in the decoded request comes from a field of the request. The validation before the lock is left out.
- ChannelUpdate.Patch.ApplyKeyMode: parsing JSON key lists is a parameter.
- WorkerPool.EveryScheduleEnds: every test run returns; an empty channel list, which returns at once, is not a run.
- RechargeBadge.BadgeSummary: searches by keyword, which always use the union; SQL text and column types.
- RechargeBadge.LatestCursorIsQuiet: stored numbers fit 64 bits.
- QuotaMath.SettlementError: floats are reals with NaN and infinities, without rounding of float operations; tiered billing and decimal conversions are left out.
- HTTP handlers, authentication, audit logs, provider clients, Midjourney polling and refunds.
