# qBitrr: a verified model of its stateful core

qBitrr supervises torrent clients (qBittorrent) and media managers (Sonarr,
Radarr, Lidarr, Readarr). Most of it is network glue, but seven parts carry
hard claims about state, failure and time. This Dafny project models those
parts and proves the claims. Foreign calls appear as outcomes chosen by an
arbitrary environment, so every theorem holds for every pattern of failures.

`dafny verify dfyconfig.toml` checks the whole project.

| part | files |
|---|---|
| category paths and ownership | `PythonStrings`, `CategoryPaths`, `CategoryOwnership`, `TorrentPartition`, `ArrManager` |
| queue sorting by move-to-top | `StableSort`, `QueueSort`, `QueuePriority` |
| locks, single flight, retries | `FileLock`, `FileLockSafety`, `FileLockFailure`, `FileLockRuns`, `SingleFlight`, `SingleFlightRuns`, `Retry` |
| process supervision | `RestartWindow`, `ProcessTable`, `WorkerTable`, `Supervisor` |
| schema migration and counts | `Tables`, `TableRebuild`, `CatalogCounts`, `Migrations`, `MigrationSafety`, `MigrationData`, `Rollups`, `RollupSafety`, `RollupRows` |
| pending actions, timed sets | `PendingActions`, `ExpiringSets`, `ExpiringTraces` |
| temporary profiles, brace matching | `TempProfiles`, `BraceMatcher` |

`Wrappers` and `Sequences` are shared helpers.

How the parts are modelled:

* Objects that update their fields in place are classes (`ArrManager`,
  `Client`, `QbitManager`, `Database`, `Store`, `Worker`, `ExpiringSet`). Each
  method's contract equates the new state with a function of the old one;
  the theorems are lemmas about those functions.
* The file lock and the thumbnail lock are state machines with a program
  counter per thread; theorems quantify over every interleaving.
* The supervisor's environment fixes, by number, the outcome of every spawn,
  every start, every liveness observation, every answer to whether a restart
  is asked for, and every clock reading.
* A start of the application is a sequence of migration actions cut off after
  any number of them.

## What the proofs found

Some promises hold only under a condition; each is stated with a concrete
failing case and the exact condition.

* **A failed unlock breaks the process lock for good.** If `flock(LOCK_UN)`
  raises, the handle is closed and the gate released, but the assignment that
  resets the depth is skipped. The thread's next acquire then looks nested and
  takes no lock. `FileLockFailure.CanBreakIff` shows for every reachable state
  that exclusion can be lost without a further failure exactly when some unlock
  has failed before; `FileLockFailure.UnlockCanFail` and
  `FileLockFailure.FailedUnlockBreaksExclusion` lead from the start to two threads inside.
* **A coordinated restart with pending spawns doubles a worker.** The restart
  starts every managed worker but keeps the pending list, so a retry starts
  the pending one again. `WorkerTable.RestartSafeIff`: a restart is safe
  whatever comes next exactly when nothing is pending.
  `Supervisor.QbitManager.RestartThenRetry`: in an undisturbed future the round after
  the restart doubles a worker exactly when something was pending.
  `Supervisor.DoubledWorker` runs this from the constructor, through startup
  with one failed start and two rounds.
* **The duration rewrite of migration 3 can be replayed only below 36001000.**
  A crash between the rewrite and the marker makes the next start divide a
  larger value again (`MigrationSafety.DividedTwice`). `MigrationSafety.StartsConvergeIff`
  gives the exact condition on the stored database, at any version, under which
  a later start makes up for all interruptions: at versions 1 and 2 all stored
  durations are below the bound, at version 0 all those in rows that survive
  the deduplication, unless some table cannot be rebuilt at all.
* **Even one uninterrupted start leaves such a duration above the threshold**
  that the migration is to establish (`MigrationSafety.MarkerStaysHonestIff`,
  the same condition).
* **Moving an album to another artist leaves the old artist's counts behind**
  (`RollupSafety.ProcessMatchesIff`, `RollupSafety.MovedAlbumLeavesArtist`) until
  an album that names the artist, or the artist itself, is processed
  (`RollupSafety.CountsExactIff`).
* **A spawn that raises during startup drops its workers**: they are neither
  running nor queued for retry, until a coordinated restart. A search worker created before the error
  is started all the same, but unregistered (`Supervisor.QbitManager.Startup`).
* **A switch to a temporary profile made while the movie's row is first
  inserted is never tracked**, so no timeout undoes it, over any run
  (`TempProfiles.InsertedSwitchNeverTimesOut`, `TempProfiles.SwitchTimesOutIffRowExists`).
* **A thumbnail write that fails halfway leaves a file that counts as cached**,
  and later requests are served from it (`SingleFlightRuns.PartialWriteIsServed`).
* **Queue sorting with queuing switched off repeats its calls on every pass**
  unless the client happens to list the torrents in desired order
  (`QueueSort.RerunSkippedIff`, `QueueSort.UnqueuedNeverSkipped`).
* **Equality of timed sets reads the clock twice**: two sets holding the same
  value compare unequal when it expires in between
  (`ExpiringSets.AgreeingSetsEqualIff`, `ExpiringSets.TwinsCompareUnequal`).
* **A delete report carries no instance**, so a hash batched for two instances
  is reported deleted when only one delete succeeded
  (`PendingActions.ReportExactIffDisjoint`, `PendingActions.SharedHashMisreported`).
* **A torrent whose raw category is not in canonical form is missed** by an
  owner that fetches by exact category (`CategoryOwnership.MissedIff`,
  `CategoryOwnership.TrailingSeparatorMissed`).
* The retry loop's comment promises indefinite retries, but the supervising
  loop ends as soon as no child is left, pending spawns or not
  (`Supervisor.QbitManager.Round`).

## Model

| member | source | states |
|---|---|---|
| PythonStrings.StripShape | qBitrr/category_paths.py:20-38 | trimming cuts one blank prefix and one blank suffix and leaves no blank at either end |
| PythonStrings.BlanksAre | qBitrr/category_paths.py:20-38 | the usual blanks are trimmed and no printable ASCII character is |
| CategoryPaths.NormalizeIdempotent | qBitrr/category_paths.py:20-38 | normalising a category twice is normalising it once, for every string |
| CategoryPaths.CanonicalRoundTrip | qBitrr/category_paths.py:20-46 | joining clean segments and splitting again gives the segments back, and the joined string is in normal form |
| CategoryPaths.SplitCategoryCanonical | qBitrr/category_paths.py:40-46 | every string splits into clean segments whose join is its normal form |
| CategoryPaths.SegmentsAddUp | qBitrr/category_paths.py:20-46 | splitting any string at any separator, the segments of the whole are those of the two parts in order: none is lost, none invented |
| CategoryPaths.OneSegment | qBitrr/category_paths.py:20-46 | a string without separator has its trimmed text as only segment, or none if it is blank |
| CategoryPaths.SameSegmentsSameCategory | qBitrr/category_paths.py:20-46 | two strings have the same normal form exactly when their segments agree |
| CategoryPaths.TrailingSeparatorIsDropped | qBitrr/category_paths.py:20-38 | a trailing separator names the same category but is not in normal form |
| CategoryPaths.SubcategoryIsProperPrefix | qBitrr/category_paths.py:60-70 | the string prefix test holds exactly when the parent's segments are a non-empty proper prefix of the child's |
| CategoryPaths.ParentsAreProperAncestors | qBitrr/category_paths.py:48-58 | the parents are exactly the proper ancestors in normal form, outermost first |
| CategoryPaths.DepthCountsSegments | qBitrr/category_paths.py:94-115 | counting separators orders categories by number of segments |
| CategoryPaths.CollectNames | qBitrr/category_paths.py:94-104 | the collected names are the non-empty normal forms of the configured strings |
| CategoryPaths.LongestPrefix | qBitrr/category_paths.py:106-115 | the loop's best candidate is the reference owner among the names seen |
| CategoryPaths.OwnerIsUniqueDeepest | qBitrr/category_paths.py:78-115 | the reference owner is the exact name if configured, else the one configured proper ancestor deeper than all others, and none only if there is none |
| CategoryPaths.ExactOwner | qBitrr/category_paths.py:78-104 | without prefix matching the owner is the configured name with the very segments of the category |
| CategoryPaths.MatchesConfigured | qBitrr/category_paths.py:78-115 | the loops return the reference owner, which depends only on the set of configured names: order and repetition cannot matter |
| CategoryPaths.FindOverlapConflicts | qBitrr/category_paths.py:118-137 | the reported pairs are exactly the ancestor and descendant pairs of configured names, each once |
| CategoryPaths.NoOverlapIffUniqueOwner | qBitrr/category_paths.py:118-137 | no pair is reported exactly when no category has two configured ancestors-or-self |
| CategoryOwnership.RulesAgree | qBitrr/arss/manager.py:77-133 | for a managed Arr on a named section, the scan's prefix rule and the owner's prefix rule give the same answer |
| CategoryOwnership.ResolveOwningCategory | qBitrr/arss/manager.py:135-186 | the resolver returns the deepest root eligible for the section that is the category itself or an ancestor |
| CategoryOwnership.OwnerIff | qBitrr/arss/manager.py:135-186 | a key owns a category exactly if it is that managed category, or, when the category is not managed itself, a managed key that is the deepest eligible root above it |
| CategoryOwnership.RootOwns | qBitrr/arss/manager.py:135-186 | a category below a single root belongs to the root exactly if that is managed and may claim descendants, and else to nobody |
| CategoryOwnership.ManagedRootOwns | qBitrr/arss/manager.py:108-120 | a root that qBit manages owns what is below it exactly where the instance, or any instance if none is named, matches subcategories |
| CategoryOwnership.ArrRootOwns | qBitrr/arss/manager.py:121-133 | the root of an Arr does so exactly where the Arr says so, or says nothing and the instance does |
| CategoryOwnership.SectionNames | qBitrr/arss/manager.py:355-360 | names of the four Arrs in any case are Arr sections, and names after the prefix of qBit are qBit sections |
| CategoryOwnership.SectionsApart | qBitrr/arss/manager.py:108-133 | no section is both |
| CategoryOwnership.OwnerIsAncestor | qBitrr/arss/arr_base.py:2243-2256 | a resolved owner always passes the scan's own prefix test, so that test never drops an owned torrent |
| CategoryOwnership.ScanInstance | qBitrr/arss/arr_base.py:2226-2261 | the scan of one live instance returns exactly the torrents the worker takes, in listing order |
| CategoryOwnership.GetTorrentsFromAllInstances | qBitrr/arss/arr_base.py:2189-2289 | the scan returns what each live instance yields, and raises exactly when some fetch failed and nothing was found |
| CategoryOwnership.TakenFromAllMembers | qBitrr/arss/arr_base.py:2189-2289 | what the scan returns are the torrents that the worker takes on the instances that are reachable, connected and can be listed, each with its instance |
| CategoryOwnership.TakesIff | qBitrr/arss/arr_base.py:2214-2259 | a worker takes exactly the torrents it owns and its fetch lists: all of them with prefix matching, else those whose raw category is its own |
| CategoryOwnership.TakenAtMostOnce | qBitrr/arss/arr_base.py:2214-2259 | no torrent is taken by two Arr workers |
| CategoryOwnership.NormalTorrentNotMissed | qBitrr/arss/arr_base.py:2214-2259 | with canonical roots and torrent category, a worker takes a torrent exactly when it is its owner |
| CategoryOwnership.MissedIff | qBitrr/arss/arr_base.py:2214-2259 | an owned torrent is missed exactly when its raw category is not canonical and the owner fetches by exact string |
| CategoryOwnership.TrailingSeparatorMissed | qBitrr/arss/arr_base.py:2226-2259 | every owner that fetches by exact string misses a torrent whose category is its own plus a trailing separator |
| TorrentPartition.BuildPartitions | qBitrr/arss/manager.py:355-428 | every successful build from Arr categories that are not blank yields a registry whose scans partition the owned torrents of every live instance |
| TorrentPartition.ScansPartitionOwnedTorrents | qBitrr/arss/arr_base.py:2214-2259 | on a live instance, over torrents with normal categories, the multisets the Arr workers take add up to exactly the torrents that resolve to an Arr owner: none missed, none taken twice |
| ArrManagers.ArrManager.ValidateCategoryAssignments | qBitrr/arss/manager.py:228-341 | fails exactly when a category is claimed by an Arr and by a qBit section; else the prefix owners are the union |
| ArrManagers.ArrManager.RegisterPlaceHolders | qBitrr/arss/manager.py:412-428 | special categories displace what is registered, managed categories only fill gaps |
| ArrManagers.ArrManager.BuildArrInstances | qBitrr/arss/manager.py:355-428 | after a successful build the keys, owners and Arr workers are exactly the expected ones, each filed under its own category |
| ArrManagers.RootsAreNormal | qBitrr/arss/arr_base.py:178-184 | Arr categories that are not blank after trimming only yield canonical roots |
| ArrManagers.ArrCategoryMeans | qBitrr/arss/arr_base.py:178-184 | the category of an Arr has the segments of the configured text, or of the section name if none is configured; text of separators alone is kept trimmed, blank text gives way to the section name |
| ArrManagers.LastIsRegistered | qBitrr/arss/manager.py:355-411 | of several built sections with one category the last one is registered |
| QueueSort.DesiredOrderShape | qBitrr/arss/arr_base.py:2347-2390 | the desired order of a queue lists exactly its monitored torrents, each once |
| QueueSort.DesiredOrderIgnoresListing | qBitrr/arss/arr_base.py:2351-2359 | the desired order does not depend on the order in which the client lists the torrents |
| QueueSort.DesiredOrderRanks | qBitrr/arss/arr_base.py:2351-2359 | of two torrents of a queue, the one wanted first has the higher priority (missing ones count as -100), on equal priority the later addition, then the name and the hash that come first by code point |
| QueueSort.MonitoredMeans | qBitrr/arss/arr_base.py:2330-2350 | with monitored categories, only torrents owned by one of them and without the label `qBitrr-ignored` are sorted; with none, all |
| QueueSort.Client.TopPriority | qBitrr/arss/arr_base.py:2430-2432 | one call moves the torrent to the front of its queue, keeping the order of the rest, or changes nothing |
| QueueSort.PromoteQueue | qBitrr/arss/arr_base.py:2401-2445 | for any set of calls that take effect, the queue becomes its promoted torrents in desired order, then all others in their old order; calls for torrents in no queue change nothing; the other queue is untouched; calls go lowest first |
| QueueSort.PromoteNext | qBitrr/arss/arr_base.py:2430-2432 | promoting the next higher torrent extends the promoted prefix by exactly that torrent, or leaves it if the call fails |
| QueueSort.PromotedKeepsMembers | qBitrr/arss/arr_base.py:2401-2445 | whatever fails, the queue is a permutation of the old one |
| QueueSort.AllMovedLead | qBitrr/arss/arr_base.py:2401-2445 | with no failure the queued monitored torrents lead in desired order and the rest follow in old order |
| QueueSort.SortInstance | qBitrr/arss/arr_base.py:2310-2454 | one instance's run yields the promoted queues, and makes no call exactly when at most one torrent is monitored or the order is already right; otherwise the calls are the seeding and then the downloading torrents, lowest first; if every call takes effect, no monitored torrent is left standing in its queue before one of higher rank |
| QueueSort.RunRanks | qBitrr/arss/arr_base.py:2351-2445 | after a failure-free or skipped run, no monitored torrent stands in its queue before one of higher priority, or of equal priority and later addition, and so on |
| QueueSort.CurrentOrderIsQueueOrder | qBitrr/arss/arr_base.py:2367-2380 | with faithful positions, the order the program reads back is the queue restricted to monitored torrents, then those in no queue as the client lists them |
| QueueSort.SkipIffSettled | qBitrr/arss/arr_base.py:2391-2395 | the job is skipped exactly when both queues hold their monitored torrents in desired relative order and the torrents in no queue are wanted last, as listed |
| QueueSort.RunSettles | qBitrr/arss/arr_base.py:2351-2445 | skipped or not, a failure-free run leaves each queue in desired relative order |
| QueueSort.RerunSkippedIff | qBitrr/arss/arr_base.py:2351-2445 | after a failure-free run, a rerun with the same priorities makes no call exactly when the torrents in no queue are wanted last, as listed then |
| QueueSort.RerunIsSkipped | qBitrr/arss/arr_base.py:2351-2445 | if every monitored torrent is queued, such a rerun makes no call, in whatever order the client lists them |
| QueueSort.UnqueuedNeverSkipped | qBitrr/arss/torrent_inspect.py:141-144 | two torrents in no queue, listed against their desired order, are never found in order |
| QueuePriority.MergeTagToPriorityMax | qBitrr/arss/arr_base.py:955-977 | the table maps each added label to the highest priority among its rows, and nothing else |
| QueuePriority.QueueSortPriority | qBitrr/arss/arr_base.py:2940-2960 | the priority is the maximum of the announce tier and the table entries of the labels present |
| QueuePriority.QueuePriorityIsBestRow | qBitrr/arss/arr_base.py:955-977 | in terms of tracker rows: it is at least every matching row above -100 and is reached by one of them or by the announce tier; a row without an integer priority never counts |
| FileLock.RunKeepsInv | qBitrr/db_lock.py:28-70 | the lock invariant holds in every state of every interleaving of threads and processes |
| FileLockSafety.MutualExclusion | qBitrr/db_lock.py:28-70 | in every interleaving at most one thread none of whose unlocks failed is inside |
| FileLockSafety.AtMostOneInside | qBitrr/db_lock.py:28-70 | while no unlock fails, at most one thread anywhere is inside |
| FileLockSafety.InsideHoldsIff | qBitrr/db_lock.py:28-63 | a thread inside holds gate, handle and file lock exactly when none of its unlocks has failed |
| FileLockSafety.NestedAcquireIsLocal | qBitrr/db_lock.py:28-31 | the holder's nested acquire is always possible and touches no gate, handle or file lock |
| FileLockSafety.OneHandlePerThread | qBitrr/db_lock.py:32-44 | no thread ever has two handles open |
| FileLockSafety.OutsideOwnsNothing | qBitrr/db_lock.py:36-63 | after matched releases or a failed flock a thread owns no gate, no handle and no file lock |
| FileLockSafety.QuiescentIsFree | qBitrr/db_lock.py:46-63 | when every thread is outside, gates, handles and the file lock are all free |
| FileLockSafety.NoDeadlock | qBitrr/db_lock.py:28-70 | whenever a thread is in a call, some thread has a step that neither fails nor starts a new call |
| FileLockFailure.CanBreakIff | qBitrr/db_lock.py:28-70 | from any reachable state, a run in which no unlock fails can put two threads inside exactly when some unlock has failed before |
| FileLockFailure.FailedUnlockBreaksExclusion | qBitrr/db_lock.py:46-63 | right after any failing unlock, a run without further failures puts two threads inside |
| FileLockFailure.UnlockCanFail | qBitrr/db_lock.py:28-63 | a thread that finds gate and file lock free, as every thread does at the start, gets to where its unlock can fail |
| FileLockRuns.AcquireReleaseRoundTrip | qBitrr/db_lock.py:28-63 | in every reachable state with gate and file lock free, an acquire is possible and gets both, and the release after it restores everything but the handle number |
| FileLockRuns.FailedAcquireRestores | qBitrr/db_lock.py:32-43 | an acquire whose `flock` fails leaves gate, handles and file lock as they were and the thread outside |
| FileLockRuns.FailedReleaseFrees | qBitrr/db_lock.py:46-63 | if the unlock raises, gate, handle and file lock are freed all the same, and the depth stays at one |
| FileLockRuns.NestedRoundTrip | qBitrr/db_lock.py:28-63 | a thread inside can nest at any depth, and a nested release undoes a nested acquire |
| SingleFlight.SamePathSameLock | qBitrr/webui_thumbnails.py:114-121 | in every interleaving two threads have the same lock object exactly when they asked for the same path |
| SingleFlight.LockIsForever | qBitrr/webui_thumbnails.py:114-121 | a path's lock, once created, stays that path's lock |
| SingleFlight.OneFlightPerPath | qBitrr/webui_thumbnails.py:738-753 | at most one thread at a time fetches or writes a path |
| SingleFlight.StoreSettles | qBitrr/webui_thumbnails.py:697-735 | a completed non-empty store leaves the path cached with nobody fetching or rewriting it |
| SingleFlight.SettledStays | qBitrr/webui_thumbnails.py:674-753 | a step starts a fetch of a cached path exactly if it is a failed stat by a request of this path; every other step leaves the path cached |
| SingleFlight.NoFetchAfterStore | qBitrr/webui_thumbnails.py:674-753 | once a non-empty store completes, a later request of that path starts a fetch exactly if the second check of a request of that path cannot read the file |
| SingleFlight.NoDeadlock | qBitrr/webui_thumbnails.py:738-753 | an unfinished request can step, or waits for one that can |
| SingleFlightRuns.LockIsObtained | qBitrr/webui_thumbnails.py:114-121 | a thread that finds the guard free gets the path's lock object, old or newly made, and leaves everything else as it was |
| SingleFlightRuns.CachedIsServed | qBitrr/webui_thumbnails.py:738-745 | a request whose first check finds the file ends at once and touches nothing |
| SingleFlightRuns.FetchEnds | qBitrr/webui_thumbnails.py:697-735 | from the fetch on, the request can end with the fetch failing, the open failing, part of the data written, or exactly the fetched data stored, and gives its lock back in each case |
| SingleFlightRuns.StoredSettles | qBitrr/webui_thumbnails.py:697-735 | from every state with a thread fetching, a successful fetch of some data and its store leave the path cached with nobody fetching it |
| SingleFlightRuns.RequestCompletes | qBitrr/webui_thumbnails.py:738-753 | a whole undisturbed request leaves behind nothing but the path's lock object and the file that its ending says |
| SingleFlightRuns.RunFillsEmpty | qBitrr/webui_thumbnails.py:729-735 | in every run, while a file is being filled it is empty, so no other request is served from it |
| SingleFlightRuns.PartialWriteIsServed | qBitrr/webui_thumbnails.py:674-735 | a write that fails after part of the data leaves a file that the next request is served from |
| SingleFlightRuns.FinishedRequest | qBitrr/webui_thumbnails.py:674-753 | in every run, a finished request saw a cached file, or its fetch, its open or its write failed, or it wrote exactly as much as it had fetched |
| Retry.WithDatabaseRetry | qBitrr/db_lock.py:96-239 | at most 2*max(1, retries) calls although the counter resets, and one recovery exactly if some call met a corruption; the total pause is the sum of the backoffs made before and after the reset, plus one second for it, and so at most the number of pauses times (max backoff + jitter) plus one second; the outcome is that of the last call |
| Retry.WithRetry | qBitrr/utils.py:52-78 | returns exactly when some call succeeds before an uncaught error, a pause below zero or the last permitted call; every earlier call was a caught failure with a pause that can be slept, and the total pause is their sum |
| Retry.DelayDoubles | qBitrr/utils.py:52-78 | the first pause is the configured one, capped, plus its jitter; each further one is what the previous would be with twice the configured pause |
| Retry.SucceedsWithinBudget | qBitrr/utils.py:52-78 | with settings that are not negative only uncaught errors and the budget end the retries |
| RestartWindow.PrunedIsSuffix | qBitrr/process_lifecycle.py:45-57 | pruning a non-decreasing history keeps a suffix: every dropped timestamp is a window old and no kept one is |
| RestartWindow.PruneCounts | qBitrr/process_lifecycle.py:45-57 | although old timestamps are forgotten, as many are kept as the whole history has within the window |
| RestartWindow.CountSkipsOld | qBitrr/process_lifecycle.py:45-57 | a window that starts after the dropped prefix counts at most what was kept |
| RestartWindow.CountInMeans | qBitrr/process_lifecycle.py:45-57 | the count of a window is the number of restarts at or after its start and before its end |
| RestartWindow.RestartStaysWithin | qBitrr/process_lifecycle.py:45-68 | a restart made while fewer than the limit are kept leaves every half-open window, over the whole history, within the limit |
| ProcessTable.CreateUnique | qBitrr/arss/arr_base.py:3692-3707 | workers created for new, distinct keys stay uniquely targeted |
| ProcessTable.ReplaceKeeps | qBitrr/process_lifecycle.py:133-146 | putting a started process in the place of a dead child with the same target keeps the running keys and keeps workers single |
| ProcessTable.ExclusiveMeans | qBitrr/process_lifecycle.py:12-29 | consistent tracking lists with single workers mean at most one live process per key and none for a pending key |
| WorkerTable.RestartFacts | qBitrr/main.py:1081-1185 | after a coordinated restart every managed worker is running or pending, and a key is pending exactly when it was before or is managed and not running |
| WorkerTable.RestartExclusive | qBitrr/main.py:1081-1185 | the workers are exclusive afterwards exactly when no key that was pending is running; if every spawn and start from now on works, exactly when nothing was pending |
| WorkerTable.RestartSafeIff | qBitrr/main.py:1081-1185 | a restart leaves the workers exclusive in every possible future exactly when nothing is pending |
| WorkerTable.RetryFacts | qBitrr/main.py:1243-1312 | retrying one pending worker starts it or leaves the running set alone, and starts no other role; the attempt count is dropped or raised by one |
| WorkerTable.RetryPendingFacts | qBitrr/main.py:1237-1315 | with exclusive workers no pending worker is lost: running and pending keys together stay the same, and exclusiveness is kept |
| WorkerTable.RetryPendingWorks | qBitrr/main.py:1237-1315 | if every spawn and start from now on works, a retry of the pending list empties it, and everything that was pending runs |
| WorkerTable.ReplaceFacts | qBitrr/process_lifecycle.py:99-146 | a crash restart keeps the running keys, and with single workers starts none beside a live one |
| Supervisor.QbitManager.EnqueueFailedSpawn | qBitrr/process_lifecycle.py:12-23 | the attempt count rises by one and the key is pending once |
| Supervisor.QbitManager.DiscardSpawn | qBitrr/process_lifecycle.py:25-29 | exactly this process leaves registry and child list |
| Supervisor.QbitManager.SpawnChildProcesses | qBitrr/arss/arr_base.py:3692-3707 | the new processes are listed as children at once, even if the call then raises, and their roles can be told apart |
| Supervisor.QbitManager.PrepareAll | qBitrr/main.py:366-423 | no worker is prepared twice; the children are exactly the workers the spawns created, and the registered ones exactly those whose category's spawn did not raise |
| Supervisor.QbitManager.SpawnQbitCategoryWorker | qBitrr/main.py:842-876 | a category worker is started first and tracked only if that did not raise |
| Supervisor.QbitManager.StartAll | qBitrr/main.py:1003-1078 | after the start loop the workers are exclusive, and every worker not started before is running if its start works and queued for retry if not, provided it is registered |
| Supervisor.QbitManager.CoordinatedRestart | qBitrr/main.py:1081-1185 | as RestartFacts and RestartExclusive, for the method itself |
| Supervisor.QbitManager.ShouldRestartProcess | qBitrr/process_lifecycle.py:31-68 | the answer is yes exactly when fewer than the limit of all restarts ever made of this worker are less than a window old, although old timestamps are pruned; the history limit is kept |
| Supervisor.QbitManager.RestartProcess | qBitrr/process_lifecycle.py:70-162 | succeeds exactly for a registered search or torrent worker of a managed category whose start does not raise, and then replaces the failed process by one of the same role; the limit is kept |
| Supervisor.QbitManager.TryRestart | qBitrr/main.py:1206-1229 | a child is restarted only outside a coordinated restart, after a non-zero exit, with restarts enabled and fewer than the limit of recent restarts; when all that holds and its start works, it is |
| Supervisor.QbitManager.HandleExit | qBitrr/main.py:1188-1234 | a live or unstarted child is left alone; an exited one is replaced or dropped, and a restartable one is dropped only after a regular exit, with restarts off, a coordinated one due, or its limit of recent restarts reached |
| Supervisor.QbitManager.HandleExits | qBitrr/main.py:1187-1234 | after a pass every child that was there and still is was found alive or never started; no worker is added and workers stay single; if starts work and no coordinated restart is due, no crash costs a registered worker whose limit is not reached |
| Supervisor.QbitManager.RetryPendingSpawns | qBitrr/main.py:1237-1315 | the new state is the pending list retried in order, and the new list is what did not come up |
| Supervisor.QbitManager.StopQbitCategoryWorker | qBitrr/main.py:727-759 | exactly the instance's category worker is killed and forgotten |
| Supervisor.QbitManager.WorkRound | qBitrr/main.py:1187-1315 | a round forgets no pending worker; if everything works and no restart is due, all pending workers and all registered ones below their limit run afterwards, whatever crashed; in an undisturbed future it doubles a pending worker that is up |
| Supervisor.QbitManager.Round | qBitrr/main.py:1079-1324 | every round keeps the supervisor's invariant and is a coordinated restart exactly when one was asked for; any other round ends the run exactly when no child is left, pending spawns or not, and repairs crashes and failed spawns as a work round does |
| Supervisor.QbitManager.Startup | qBitrr/main.py:366-464 | startup ends with exclusive workers; per category, a spawn that works leaves its workers running or queued, one that raises leaves them neither, except a search worker created before the error; if all works, exactly the configured search and torrent workers run; a failed first start leaves something queued |
| Supervisor.QbitManager.Run | qBitrr/main.py:998-1324 | over any run whose coordinated restarts begin with no pending spawns: at most one live worker per category and role, none for a pending key, none ever started beside a live one; in every run the restart limit holds in every window |
| Supervisor.QbitManager.RestartThenRetry | qBitrr/main.py:1081-1315 | if everything works from now on and nothing else happens, a coordinated restart and the round after it start a worker beside a live one exactly when a spawn was pending before |
| Supervisor.QbitManager.FailedStartDoubles | qBitrr/main.py:998-1315 | for every configuration with restarts enabled and at least one worker: if the very first start fails and a restart is asked for once, startup and two rounds start a worker beside a live one |
| Supervisor.DoubledWorker | qBitrr/main.py:998-1315 | such a run from the constructor, with a single configured worker |
| TableRebuild.DedupeMembers | qBitrr/database.py:387-422 | a row survives exactly if some occurrence of it has the largest rowid of its key |
| TableRebuild.DedupeDistinct | qBitrr/database.py:387-422 | exactly one row per (EntryId, ArrInstance) key remains |
| TableRebuild.DedupeKeepsKeys | qBitrr/database.py:387-422 | no key is lost and none invented |
| TableRebuild.DedupeCount | qBitrr/database.py:408-422 | the row count drops by exactly the number of superseded duplicates |
| TableRebuild.NothingDroppedIff | qBitrr/database.py:387-422 | deduplication drops nothing and changes nothing exactly when the keys were distinct already |
| TableRebuild.LatestMembers | qBitrr/database.py:387-422 | the listed positions are, in order, exactly those whose row is the latest of its key |
| TableRebuild.RebuiltIsCopy | qBitrr/database.py:394-422 | each row of the rebuilt table comes from the surviving source row at its position, agrees with it on every column that both tables have, and has no other cell |
| TableRebuild.RebuildArrFileTable | qBitrr/database.py:425-478 | the rebuild fails, changing nothing, exactly when the staging table is left over, no column can be copied or a copied row violates a constraint; else the new rows are, in order, the latest source row of each key with exactly its cells in the columns both tables have, and the reported drop is exact |
| CatalogCounts.BackfillMatches | qBitrr/database.py:582-651 | after the v2 backfill every count equals its full recomputation |
| CatalogCounts.MatchIffBackfillFixed | qBitrr/database.py:582-651 | counts match exactly when the backfill changes nothing |
| CatalogCounts.OneMoreEpisode | qBitrr/database.py:606-629 | one more episode adds one to its own series on its own instance only, and one season only if none of the series' episodes has it |
| Migrations.Database.Stage | qBitrr/database.py:753-836 | a stage behind the marker performs its actions and then the marker, stopping where the environment stops it |
| Migrations.Database.ApplyDbSchemaMigrations | qBitrr/database.py:753-836 | the four guarded stages run the program of the stored version up to the interruption |
| MigrationSafety.NormaliseReplayableIff | qBitrr/database.py:667-711 | repeating the duration rewrite changes nothing exactly when every stored duration is below 36001000 |
| MigrationSafety.BoundIsSharp | qBitrr/database.py:667-711 | 36000999 survives a second rewrite, 36001000 does not |
| MigrationSafety.InterruptedEndsAlike | qBitrr/database.py:753-836 | interrupting a start anywhere and starting again ends as finishing it would have, with no version decrease |
| MigrationSafety.RecoverableMeans | qBitrr/database.py:481-751 | the durations that the rewrite meets after the first two migrations are bounded exactly when the stored ones that survive them are |
| MigrationSafety.StartsConverge | qBitrr/database.py:753-836 | if the stored durations that the rewrite will meet are below 36001000: over any sequence of interrupted starts the version never decreases and a later uninterrupted start reaches the same database as one uninterrupted start |
| MigrationSafety.StartsConvergeIff | qBitrr/database.py:667-836 | every sequence of interrupted starts is made up for by a later uninterrupted one exactly when the stored durations that the rewrite will meet are below 36001000 |
| MigrationSafety.BoundedStartsConverge | qBitrr/database.py:753-836 | at any version, with all stored durations below 36001000, interrupted starts converge and keep the marker honest |
| MigrationSafety.DividedTwice | qBitrr/database.py:667-836 | a start cut off between the rewrite and the marker, followed by a full one, divides a duration twice where a full start divides it once |
| MigrationSafety.FinishedHasEffect | qBitrr/database.py:481-751 | once a migration's actions are done its schema effect holds |
| MigrationSafety.CountsInPlaceMeans | qBitrr/database.py:582-651 | the effect of migration 2 in terms of stored rows: the count columns exist, and wherever there is a table to count over they hold the numbers of referring rows on the same instance |
| MigrationSafety.StartsKeepMarkerHonest | qBitrr/database.py:753-836 | under the same condition on the stored durations, after any sequence of interrupted starts version >= k implies migration k's effect |
| MigrationSafety.MarkerStaysHonestIff | qBitrr/database.py:667-836 | an honest marker stays honest through every sequence of starts, and already through one full start, exactly under that condition |
| MigrationData.StartsCarryRows | qBitrr/database.py:425-836 | over any sequence of interrupted starts, at any version, every table keeps all its rows and cells, or has been rebuilt and keeps the latest row of each key with its cells in the columns it still has; only counts, switch records and durations are written |
| MigrationData.SwitchColumnsStartEmpty | qBitrr/database.py:714-750 | no switch record is invented: artists without one have none after any sequence of starts |
| MigrationData.UncountedStartAtZero | qBitrr/database.py:520-580 | a count column added while there is no table to count over holds zeros after any sequence of starts |
| Rollups.MatchesIffBackfillFixed | qBitrr/database.py:582-651 | the catalog's counts match exactly when the album and artist parts of the v2 backfill change nothing |
| Rollups.Store.UpdateAlbumTotalTracks | qBitrr/catalog_rollups.py:347-368 | the album's total becomes the recounted number of its tracks and nothing else changes |
| Rollups.Store.UpdateArtistAlbumTrackTotals | qBitrr/catalog_rollups.py:395-425 | the artist's two counts become the recounted ones and nothing else changes |
| Rollups.Store.ProcessAlbum | qBitrr/arss/db_update_handlers.py:896-970 | writing the album, replacing its tracks and refreshing both rollups is the specified update |
| Rollups.Store.ProcessOneArtist | qBitrr/arss/db_update_handlers.py:973-1107 | writing or deleting the artist row and refreshing its counts is the specified update |
| RollupSafety.ProcessMatchesIff | qBitrr/catalog_rollups.py:446-487 | from matching counts, processing one album leaves all album and artist counts equal to full recomputation exactly when no artist row is left behind |
| RollupSafety.MovedAlbumLeavesArtist | qBitrr/catalog_rollups.py:446-487 | a catalog with matching counts in which moving one album to another artist leaves counts that do not match |
| RollupSafety.InsertOrSameArtistMatches | qBitrr/arss/db_update_handlers.py:896-970 | in particular after inserting a monitored album, or updating it with its artist unchanged |
| RollupRows.TracksAfter | qBitrr/arss/db_update_handlers.py:920-960 | after an album update all other tracks are kept, and the album has the fetched ones up to the first id that is taken or the first failure; nothing changes if the album is not wanted or nothing was fetched |
| RollupRows.CompleteFetch | qBitrr/arss/db_update_handlers.py:920-960 | with distinct unused ids and no failure the album ends with exactly the fetched tracks, and every other track with as many copies as before |
| RollupRows.AlbumRowAfter | qBitrr/arss/db_update_handlers.py:896-970 | the album row keeps its other columns and gets the reported artist and the true number of its tracks; the row of an album that is not wanted is gone |
| RollupRows.OtherAlbumsAfter | qBitrr/arss/db_update_handlers.py:896-970 | the rows of all other albums are as before |
| RollupRows.OtherArtistsAfter | qBitrr/catalog_rollups.py:395-425 | of the artist rows at most the two counts of the refreshed one change |
| RollupRows.ArtistRowAfter | qBitrr/arss/db_update_handlers.py:973-1107 | after an artist update there is a row exactly if the artist is wanted; it keeps its other columns and has both counts true, and all other rows are as before |
| RollupSafety.ProcessKeepsValid | qBitrr/arss/db_update_handlers.py:896-970 | keys stay unique and present through the update |
| RollupSafety.CountsExactIff | qBitrr/catalog_rollups.py:446-487 | through any sequence of album and artist updates the counts are exact exactly when every artist row that an album has left has been refreshed since |
| RollupSafety.CountsStayExact | qBitrr/catalog_rollups.py:446-487 | in particular through any sequence of album and artist updates in which no album leaves an artist that has a row |
| RollupSafety.CountsAddUp | qBitrr/catalog_rollups.py:181-196 | with matching counts the instance's album totals sum to the joined track total, and each artist's total is the sum over its albums |
| RollupSafety.MissingCountsMonitoredWithoutFile | qBitrr/catalog_rollups.py:284-290 | available, monitored and missing count the monitored tracks with a file, all monitored ones, and those without a file; available and missing add up to monitored |
| PendingActions.Worker.MutateHashesByInstance | qBitrr/arss/qbit_side_effects.py:18-77 | what stays queued, what was delivered and what enters the timed set are exactly the unserved and served parts of the bucket |
| PendingActions.RoundConserves | qBitrr/arss/qbit_side_effects.py:29-77 | each queued pair is afterwards still queued for its instance or covered by a successful call there, never both, and nothing is added |
| PendingActions.StaysUntilFirstSuccess | qBitrr/arss/qbit_side_effects.py:29-77 | over any rounds a pair stays exactly until the first success on its instance |
| PendingActions.ServedIff | qBitrr/arss/qbit_side_effects.py:29-77 | an instance is served exactly if its client is connected and one of at most three calls succeeds after caught failures only |
| PendingActions.DeleteHashesPerInstance | qBitrr/arss/qbit_side_effects.py:165-208 | the report is the union of the batches whose delete succeeded, unless an uncaught error escapes |
| PendingActions.ReportExactIffDisjoint | qBitrr/arss/qbit_side_effects.py:165-208 | the report can be trusted for every pattern of failures exactly when no hash is batched for two instances |
| PendingActions.SharedHashMisreported | qBitrr/arss/qbit_side_effects.py:165-208 | with one hash batched for two instances and one delete successful, the report names a hash of which a copy remains |
| ExpiringSets.ExpiringSet.Add | qBitrr/utils.py:217-219 | the value's age restarts and the set stays a refinement of the eager one |
| ExpiringSets.ExpiringSet.Contains | qBitrr/utils.py:225-234 | the answer is whether the value's last add is at most the age old |
| ExpiringSets.ExpiringSet.Equals | qBitrr/utils.py:265-276 | the comparison is of the two live sets, each at its own clock reading |
| ExpiringSets.PurgeRefines | qBitrr/utils.py:258-263 | purging keeps the refinement and exposes exactly the live values |
| ExpiringSets.EqualityIsEagerIff | qBitrr/utils.py:265-276 | for any two sets, the verdict is the eager one at the first reading exactly when no right-hand value expires between the two readings or the left-hand set differs from both states of the right-hand one |
| ExpiringSets.AgreeingSetsEqualIff | qBitrr/utils.py:265-276 | two sets that agree at both readings compare equal exactly when none of their values expires in between |
| ExpiringSets.TwinsCompareUnequal | qBitrr/utils.py:217-276 | two sets given the same value at the same time compare unequal when read on either side of its expiry |
| ExpiringSets.LazyIsEager | qBitrr/utils.py:195-276 | over any number of sets, made, filled, queried, counted, copied and compared in any order with a non-decreasing clock, lazy and eager purging answer alike |
| ExpiringTraces.ContainsMeansRecentAdd | qBitrr/utils.py:217-234 | in any trace with a non-decreasing clock, a set says it contains a value exactly if the value was added to it, since it was made, at most its age ago |
| TempProfiles.RoundTripIffOneToOne | qBitrr/arss/arr_base.py:535-539 | going to the temporary profile and back is the identity exactly when no two main profiles share one |
| TempProfiles.PairIsClosed | qBitrr/quality_profile_helpers.py:159-187 | with a valid mapping and a home that is no temporary profile, both maps move within the pair |
| TempProfiles.StepKeepsPair | qBitrr/quality_profile_helpers.py:159-187 | every update, timeout and forced reset, successful or not, keeps a movie on its pair and its tracking columns truthful |
| TempProfiles.UpdateOnMain | qBitrr/arss/db_update_handlers.py:582-697 | a listed movie on its main profile moves to the paired temporary one exactly if the feature is on, it has no file, is not searched for and the PUT is applied; time, original and current profile are recorded exactly if the PUT succeeds and the row existed |
| TempProfiles.UpdateOnTemp | qBitrr/arss/db_update_handlers.py:582-697 | on its temporary profile it moves back exactly if it has been searched for, temporary profiles are not kept and the PUT is applied; original and current profile are then emptied and the time is stamped, if the PUT succeeds |
| TempProfiles.UpdateElsewhere | qBitrr/arss/db_update_handlers.py:582-697 | a movie outside the mapping keeps profile and record; one that is no longer wanted loses its row and keeps its profile |
| TempProfiles.TimeoutOfSwitch | qBitrr/arss/arr_base.py:3181-3245 | a recorded switch is undone exactly if the timeout is on and past and the PUT is applied, and forgotten exactly if it also succeeds and can be cleared |
| TempProfiles.ResetOfMovie | qBitrr/arss/arr_base.py:3140-3167 | a forced reset puts a movie on a temporary profile back exactly if the PUT is applied, and leaves one on a main profile alone |
| TempProfiles.RunKeepsPair | qBitrr/arss/db_update_handlers.py:582-613 | a movie that starts on a main profile m is always on m or temp(m), and a tracked row records exactly these |
| TempProfiles.TimeoutRestoresHome | qBitrr/arss/arr_base.py:3181-3245 | a successful timeout of a tracked movie restores the profile it started on and stops tracking it |
| TempProfiles.ChainLeavesPair | qBitrr/quality_profile_helpers.py:159-187 | with a chained mapping two updates leave the pair, so disjointness is needed |
| TempProfiles.UntrackedChangesIff | qBitrr/arss/db_update_handlers.py:582-697 | an untracked movie on its temporary profile is changed by exactly the releasing events: a search without keep-temp, an ineligible update, a forced reset; by no timeout |
| TempProfiles.InsertedSwitchNeverTimesOut | qBitrr/arss/arr_base.py:3181-3245 | a movie switched together with the insert of its row stays on the temporary profile, untracked, through any sequence of timeouts and other events until a releasing one |
| TempProfiles.SwitchTimesOutIffRowExists | qBitrr/arss/db_update_handlers.py:657-697 | after a switch, any idle events and a timeout check past its time, the movie is back on its main profile exactly if it had a row when it was switched |
| TempProfiles.Worker.UpdateEntry | qBitrr/arss/db_update_handlers.py:582-697 | one update performs the specified step on this movie, also when the PUT raises, and leaves all others alone |
| TempProfiles.Worker.CheckTimeouts | qBitrr/arss/arr_base.py:3181-3245 | the sweep performs the specified timeout step on every row up to the first one out of the mapping that cannot be cleared |
| TempProfiles.Worker.ResetAll | qBitrr/arss/arr_base.py:3140-3167 | the sweep resets the listed items up to the first unhandled error and touches no other; with every call successful no listed item is left on a temporary profile |
| BraceMatcher.EnclosingObject | scripts/config_fields_check.py:328-354 | the two scans return the innermost balanced block around the index, and nothing exactly when there is none |

## Left out

- Foreign calls (HTTP, qBittorrent, Arr services, Overseerr, Ombi, GitHub), ffprobe, Pillow, TOML, logging, Flask and React: a call is an outcome the environment chooses.
- SQL text and Peewee: tables are sequences of rows in rowid order, `db.atomic()` is all-or-nothing, and NOT NULL violations during a rebuild count as environment failures.
- Category values that are not strings, and `None` as distinct from the empty string where the code treats them alike; blanks are a fixed list of code points rather than Python's Unicode tables.
- PlaceHolderArr scans: that class filters again by exact category, so the partition is claimed for Arr owners.
- TorrentPolicyManager and the batch, dispatch and limits mixins: not part of this model; the policy worker appears only as a registry entry.
- The outer loop of the queue sort over instances, and the fallback listing request: each instance is independent, and the two requests count as one that may fail.
- QueueSort.RunSettles: assumes that the positions the client reports follow its queues, and are -1 for torrents in no queue; only the client can promise that.
- QueueSort.SortInstance: which calls take effect is a set of torrents, so two calls for one torrent would share an outcome; the program makes at most one per torrent. No torrent is taken to sit in the queue that its reported state excludes.
- Failures of `mkdir` and `open` inside the lock's acquire, and a lock file deleted while held.
- Classification of database errors by message text: an attempt's class is the environment's choice.
- `check_database_health`, integrity repair and fresh-start handling in `database.py`.
- ETag sidecar files and MIME sniffing of thumbnails: not part of this model.
- Caches of other processes and an unreadable cache file at the unlocked first check: both only lead to the locked second check.
- Startup threads that time out after creating workers, and failures between a successful start and its bookkeeping.
- Supervisor.QbitManager.KillAll: assumes that a kill signal ends the process; a process that survives it would be untracked.
- Supervisor.QbitManager.StopQbitCategoryWorker: runs on another thread in the program; here it is a separate operation that keeps the invariants, not interleaved within a round.
- Supervisor.QbitManager.Startup: the background startup thread is taken to have finished before the start loop.
- The hot reload of the web interface, which adds and removes managed instances at run time.
- `_database_restart_in_progress`: it is set and cleared within one round, so it is always false where it is read.
- Series, season, author and book totals refreshed incrementally; the backfill of series counts is modelled, the incremental form is the same recount.
- Database errors swallowed while rollups are refreshed, the rollup TTL cache, and album identifiers of zero.
- ExpiringSet.remove and indexing: they raise or reorder depending on when purging last happened.
- Hooks run after a successful pause or resume, and the legacy buckets without instances.
- Temporary profiles of Sonarr, Lidarr and Readarr: the same plan with other entities; Radarr's is modelled.
- `should_mark_searched`, `compute_search_reason`, `minimum_availability_check`, URL and version helpers, duration parsing and the configuration key tables: decisions without state, read off directly from their branches.
- Search loops and request searches: timing and I/O dominate.
