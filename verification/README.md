# Tardigrade: verified models of its stateful cores

A Dafny model of the parts of the repository that keep state, run loops or follow a protocol, with
proofs over every input or every run. `dafny verify dfyconfig.toml` checks the project.

Each module follows one component. Code that changes fields or tables step by step is a class whose
methods are proved against a function of the old state; code made of expressions is functions; and
whatever interleaves with other callers or can crash is a transition system whose steps are the
stretches of code between two awaits. Main results are statements about all runs of those systems.

| file | component |
|---|---|
| `CycleGroups.dfy` | strongly connected components of the import graph (Tarjan's algorithm) |
| `EntryRules.dfy` | breadth-first search for forbidden modules reachable from an entry |
| `Alarms.dfy`, `AlarmScheduler.dfy`, `AlarmHistory.dfy` | alarm arithmetic; admissions, passes, waiters and the durable alarm slot; the same over the events of a run alone |
| `ObjectStore.dfy` | staged streaming uploads, commit, abort, manifest-checked reassembly |
| `ObjectCache.dfy`, `CacheRecency.dfy`, `CachedStorage.dfy` | the byte-accounted LRU cache, and its recency over whole sequences of operations; concurrent clients of a cached store against its backing store |
| `EventLog.dfy`, `EventStores.dfy` | the keyed append-only log and paged query; the Cloudflare and Bun stores that refine it |
| `ModelPolicies.dfy` | selectors, intersection, canonical scopes, attenuation |
| `ThreadTree.dfy` | the bounded thread tree |
| `Catalog.dfy`, `CatalogReads.dfy`, `CatalogWrites.dfy`, `CatalogTidy.dfy` | catalog generations with concurrent writers, reading them back, and what writers leave behind |
| `InstancePool.dfy` | single-flight opening and shutdown of actor instances |
| `Ordering.dfy`, `Digraph.dfy`, `Objects.dfy`, `Runs.dfy` | options, orders and sorted listings; graphs; byte strings; runs of a transition system |

## What is assumed

- The runtime does not overlap calls of `alarm()` on one object, and calls it again when a crash or a
  failure came before the pass had armed its recovery alarm. `OverlapLosesWake` shows that the first
  assumption is needed: `run` hands back the running pass.
- A SQL statement, transaction or D1 batch is one atomic step. A D1 statement or alarm write that
  reports an error may or may not have taken effect; an object-store statement that reports one has not.
- SHA-256 (section 6.2 of FIPS 180-4) is an injective function, upload ids, UUIDs and openings are
  unused before, and `localeCompare` is a total order. `JSON.stringify` of a canonical allow list is
  injective, and parsing undoes stringifying for catalog values.
- `OtherCallers` and `OtherWriters` stand for arbitrary steps of other callers between two statements:
  a method knows only their contracts, which `OthersKeepUpload`, `OthersKeepWriter` and
  `RunKeepsPublished` justify.
- Entries of the object cache that have the right digest are in the backing store when its clients
  start; from then on that is proved.
- `execute`, `resting`, `nextAlarmDeadline`, clocks, failures, the decay of cached bytes and other
  callers' steps are arbitrary.

## Findings

- An unbounded tree read never reports "contains a cycle": a cycle is unreachable from the roots, so
  it surfaces as "orphan or cycle". The cycle error belongs to reads that start from a thread on a
  cycle; bounded by `maxDepth` alone they report it exactly when the cycle is no longer than that
  (`DepthRead`). The "is missing" error cannot occur.
- Two catalog writers that overlap can leave the rows of the generation that was active in between, in
  every continuation, even when nothing fails (`OverlapLeavesRows`). Failure-free writers leave only
  active rows exactly when every switch displaces the generation its writer read, provided every
  snapshot has a provider; without one there are no rows to leave (`TidyIff`). Writes that do not
  overlap always do.
- If a switch of the source row takes effect but reports an error, the clean-up removes the rows of the
  active generation (`LostSwitchEmptiesActive`). An active generation is complete exactly when its own
  writer has not removed it (`ActiveCompleteIff`).
- An upload leaves staging rows exactly when it staged something and its release failed or was cut off
  (`RowsRemain`).
- A catalog snapshot that repeats a provider id, or a model id within a provider, can never be stored.
- A public thread id is ambiguous exactly for a name and the same name behind one `ag.` prefix.

## Model

| member | source | states |
|---|---|---|
| `CycleGroups.GroupTargets` | tools/code-graph/analyze.ts:73-76 | The adjacency map lists, for each module, exactly the targets of the imports it keeps. |
| `CycleGroups.Search.Visit` | tools/code-graph/analyze.ts:80-92 | A visit from an unvisited module leaves it numbered, keeps the search invariant (stack order, low links, finished components) and leaves as its low link the index of a reachable stacked module, no higher than that of any earlier stacked module imported during the visit. |
| `CycleGroups.Search.Finish` | tools/code-graph/analyze.ts:87-91 | When every target has been examined, the module either stays on the stack or closes its component; both re-establish what a visit promises. |
| `CycleGroups.Search.PopGroup` | tools/code-graph/analyze.ts:88-90 | The members popped are exactly the stack from the module up, in reverse, and the stack is cut there. |
| `CycleGroups.PoppedComponent` | tools/code-graph/analyze.ts:87-91 | When a module's low link is its own index, the stack from it upwards is exactly its strongly connected component. |
| `CycleGroups.StayKeeps` | tools/code-graph/analyze.ts:87 | When the low link is smaller, something below the module on the stack is reachable, so the component stays open and the invariant holds. |
| `CycleGroups.ChildReturns` | tools/code-graph/analyze.ts:84 | Taking the minimum with a returned child's low link keeps the low link a reachable index and a bound for the targets examined so far. |
| `CycleGroups.VisitedTarget` | tools/code-graph/analyze.ts:85 | A target already on the stack lowers the link to its index; one already finished is ignored; both keep the low link a reachable index and a bound. |
| `CycleGroups.CycleGroups` | tools/code-graph/analyze.ts:71-95 | For every list of nodes and edges, two modules are reported in one group if and only if a cycle of value imports between nodes that are not tests goes through both; groups come by size and then by first member, each ascending by code units. |
| `CycleGroups.TogetherIff` | tools/code-graph/analyze.ts:70-95 | Over nodes and edges alone: `x` and `y` are reported together if and only if a closed path of at least one import that is not erased, between nodes that are not tests, passes through both; with `x` and `y` equal, when a module is reported at all. |
| `CycleGroups.ReportOrdered` | tools/code-graph/analyze.ts:89-94 | A report lists larger groups first, equally large ones by their first module, and each group strictly ascending by code units. |
| `CycleGroups.ReportExact` | tools/code-graph/analyze.ts:70-95 | A set of modules is reported if and only if it is a strongly connected component with more than one member or a self-import; reported groups are pairwise disjoint. |
| `CycleGroups.EmptyReportIffAcyclic` | tools/code-graph/analyze.ts:70-95 | Nothing is reported if and only if no module lies on an import cycle. |
| `CycleGroups.ReportUnique` | tools/code-graph/analyze.ts:88-94 | A graph has one report: the components are unique and both sorts are total on disjoint groups. |
| `CycleGroups.ReportDependsOnGraph` | tools/code-graph/analyze.ts:72-76 | Node order, edge order, repeated edges, and erased, test or dangling edges never change the report. |
| `EntryRules.Search` | tools/code-graph/analyze.ts:153-165 | The breadth-first search reports each forbidden module other than the entry exactly once if it is reachable through permitted modules, and not otherwise, each with a shortest such path. |
| `EntryRules.EntryViolations` | tools/code-graph/analyze.ts:141-165 | Both rules are searched, one after the other; in terms of nodes and edges alone, each forbidden module is reported if and only if followed imports lead to it through modules that are not forbidden, with such a path and none shorter. |
| `EntryRules.FlaggedByRules` | tools/code-graph/analyze.ts:141-165 | Which modules each of the two rules reports, from which entry and with which paths, over nodes and edges alone; nothing is reported under another name. |
| `EntryRules.RuntimeGraphIs` | tools/code-graph/analyze.ts:141 | An import is followed if and only if it is not erased and the last node listed under its target, if any, is not a test. |
| `EntryRules.SilentIffUnreachable` | tools/code-graph/analyze.ts:153-165 | A rule is silent if and only if no forbidden module other than the entry is reachable at all, through permitted modules or not. |
| `EntryRules.FirstForbidden` | tools/code-graph/analyze.ts:153-165 | Every path to a forbidden module contains a path whose inner modules are all permitted and which ends in a forbidden one. |
| `EntryRules.Covers` | tools/code-graph/analyze.ts:155-163 | Once the queue is empty, every permitted path ends in a module already seen, at a recorded distance no longer than the path. |
| `Alarms.AlarmPolicyOf` | platform/cloudflare/src/alarm.ts:12-19 | Accepted if and only if absent or a non-negative safe integer, and then kept. |
| `Alarms.Armed` | platform/cloudflare/src/alarm.ts:21-25 | After arming, an alarm stands no later than the recovery delay; a future one that is early enough is left alone; otherwise it is exactly the recovery time. |
| `Alarms.ScheduledBounds` | platform/cloudflare/src/alarm.ts:27-40 | Unfinished work is woken no later than the recovery delay and no later than its own deadline; resting work keeps exactly its deadline. |
| `AlarmScheduler.OwedHasWake` | platform/cloudflare/src/alarm-scheduler.ts:30-70 | In every reachable state of admissions, deliveries, passes, failures and crashes, owed work has a delivery on its way or a standing alarm, in the durable slot too: at the latest admission or a later attempt; for captured work, and for a pass that armed and is running or ended without synchronizing, whatever started it, within the recovery delay of the arming; for a recorded deadline no later than that deadline or the delay. |
| `AlarmScheduler.PassPreservesLaterAlarm` | platform/cloudflare/src/alarm-scheduler.ts:61-70 | No step of a pass touches the alarm while an admission it did not capture is acknowledged. |
| `AlarmScheduler.StepKeepsWake` | platform/cloudflare/src/alarm-scheduler.ts:30-70 | Every step keeps the wake invariant. |
| `AlarmScheduler.SettledOnce` | platform/cloudflare/src/alarm-scheduler.ts:41-80 | A waiter's settlement never changes, a settled waiter no longer waits, and a registered one is settled, waiting, or lost in a crash. |
| `AlarmScheduler.SettlementJustified` | platform/cloudflare/src/alarm-scheduler.ts:58-79 | A waiter is settled only by a pass that captured its admission, and resolved only if an execution begun after the admission was acknowledged has finished. |
| `AlarmScheduler.PassLeavesNoDueWaiter` | platform/cloudflare/src/alarm-scheduler.ts:71-77 | When a pass ends no waiter at or below its captured version is left, later ones stay, and they are resolved if and only if the pass completed. |
| `AlarmScheduler.RunKeepsInv` | platform/cloudflare/src/alarm-scheduler.ts:24-81 | The invariant holds along every run of the protocol. |
| `AlarmScheduler.EventuallyCovered` | platform/cloudflare/tla/AlarmScheduler.tla:33-40 | From every reachable state, any run of deliveries, passes and settlements without failures, crashes or new admissions covers every acknowledged admission within a bounded number of steps. |
| `AlarmScheduler.AnythingMayFail` | platform/cloudflare/src/alarm-scheduler.ts:24-36 | In every state a crash, a failing await of an admission, its alarm write made or not, and a due delivery are among the steps, with the slot they leave. |
| `AlarmScheduler.PassMayFail` | platform/cloudflare/src/alarm-scheduler.ts:61-70 | The same for the awaits of a pass. |
| `AlarmScheduler.ArmingKeepsEarlier` | platform/cloudflare/src/alarm-scheduler.ts:63-64 | Arming leaves an alarm alone that is still ahead and no later than the recovery delay, and otherwise sets one exactly that far away; a failing arming that wrote does the same. |
| `AlarmHistory.FieldsAreHistory` | platform/cloudflare/src/alarm-scheduler.ts:24-80 | In every run the counts, clock readings and flags the guarantees speak of are those of the events: admissions, captures, finished executions, armings, the latest synchronization, and who holds the serialized section. |
| `AlarmHistory.SettledPassSynchronized` | platform/cloudflare/src/alarm-scheduler.ts:58-70 | A pass that completes has one capture and one last section, and between that section and its end it synchronizes if and only if nothing was acknowledged between the capture and the section. |
| `AlarmHistory.SectionsExclude` | platform/cloudflare/src/alarm-scheduler.ts:24-28 | Over the events of a run: admissions and the sections of a pass are entered only when nobody holds the serialized section, and continue only while they hold it. |
| `AlarmHistory.OwedOverEvents` | platform/cloudflare/src/alarm-scheduler.ts:30-70 | While no delivery is on its way, both slots hold an alarm: at a time an admission wrote if one is uncaptured; within the delay of the latest arming if a captured one is not yet executed or a pass armed and none synchronized since; and as the latest synchronization requires. |
| `AlarmHistory.ResolvedAfterExecute` | platform/cloudflare/src/alarm-scheduler.ts:41-80 | A resolved completion belongs to an admission of `wakeAndWait`, and a pass armed and then finished its execution after that admission was acknowledged. |
| `AlarmHistory.WaiterAccounted` | platform/cloudflare/src/alarm-scheduler.ts:41-51 | Every acknowledged admission of `wakeAndWait` is settled or waiting unless some crash happened. |
| `AlarmScheduler.CoverPossible` | platform/cloudflare/tla/AlarmScheduler.tla:33-40 | From every reachable state such a run exists: no reachable state is stuck with uncovered admissions. |
| `AlarmScheduler.OverlapLosesWake` | platform/cloudflare/src/alarm-scheduler.ts:52-56 | If calls of `alarm()` could overlap, a concrete run ends with an acknowledged admission, no alarm and no delivery: joining the running pass relies on the runtime. |
| `AlarmScheduler.Scheduler.StampAdmission` | platform/cloudflare/src/alarm-scheduler.ts:30-33 | Setting the alarm is the admission's stamping step. |
| `AlarmScheduler.Scheduler.PublishAdmission` | platform/cloudflare/src/alarm-scheduler.ts:35-36 | The version rises and, for `wakeAndWait`, the completion is registered under it. |
| `AlarmScheduler.Scheduler.Run` | platform/cloudflare/src/alarm-scheduler.ts:52-56 | A call joins if and only if a pass is running, and changes nothing but the slot the runtime consumed; otherwise it starts a pass. |
| `AlarmScheduler.Scheduler.NoneJoins` | platform/cloudflare/src/alarm-scheduler.ts:52-56 | With deliveries that do not overlap, a delivered call never finds a pass running. |
| `AlarmScheduler.Scheduler.CaptureVersion` | platform/cloudflare/src/alarm-scheduler.ts:61-62 | The first section captures the version. |
| `AlarmScheduler.Scheduler.ArmRecovery` | platform/cloudflare/src/alarm-scheduler.ts:63-64 | The slot holds the armed time before anything executes, or the step fails, with the write made or not. |
| `AlarmScheduler.Scheduler.MaySynchronize` | platform/cloudflare/src/alarm-scheduler.ts:68-70 | It answers that the pass is current if and only if the captured version is the present one, and the pass goes on to synchronize exactly then. |
| `AlarmScheduler.Scheduler.SynchronizeAlarm` | platform/cloudflare/src/thread.ts:228-242 | Writes the alarm the remaining work needs, or deletes it, or fails with the write made or not; it throws whenever the recovery deadline is not a safe integer. |
| `AlarmScheduler.Scheduler.SettleCaptured` | platform/cloudflare/src/alarm-scheduler.ts:71-77 | The loop settles exactly the waiters at or below the captured version, all in the same way, and removes them. |
| `AlarmScheduler.Scheduler.EndPass` | platform/cloudflare/src/alarm-scheduler.ts:71-80 | A pass that returns, or throws at any step, with its last alarm write made or not, settles its waiters and frees `running`. |
| `ObjectStore.ObjectStreamConfig` | packages/store/src/stream.ts:31-38 | Accepted if and only if both bounds are safe integers in range, with the documented defaults. |
| `ObjectStore.ReachableStore` | packages/store/src/sql-storage.ts:37-73 | In every interleaving of uploads, puts, failures and crashes: every manifest has exactly chunks 0..n-1 whose concatenation has the recorded size and digest; staging rows belong to uploads that are open, whose release failed, or that a crash cut off; and a read is exact or says the object is missing. |
| `ObjectStore.ReadIs` | packages/store/src/sql-storage.ts:51-73 | On arbitrary tables: with a manifest, the chunks 0..n-1 one after another if exactly those are there and their sizes add up, else an integrity error; without one the plain row, if any. |
| `ObjectStore.ManifestsStay` | packages/store/src/sql-storage.ts:41-45 | No step changes the manifest or the chunks of a key that has one. |
| `ObjectStore.UploadEndsOnce` | packages/store/src/stream.ts:47-61 | After a failed write, a commit that was tried, or a release, an upload never writes or commits again. |
| `ObjectStore.AnythingMayHappen` | packages/store/src/sql-storage.ts:37-90 | Anyone may store bytes or crash at any time, a crash losing every open upload and no row; an upload that may write may fail to, or commit, or fail to commit; every open upload may be released or fail to be; what fails changes no row. |
| `ObjectStore.RowsRemain` | packages/store/src/stream.ts:47-61 | Once an upload is over its staging rows remain if and only if it staged something and its release failed or was cut off by a crash. |
| `ObjectStore.StepChangesOnlyPublished` | packages/store/src/sql-storage.ts:37-48 | A step changes what readers see only by making its own bytes readable under their digest; failed, aborted and unfinished uploads change nothing. |
| `ObjectStore.ReadableForever` | packages/store/src/sql-storage.ts:49-73 | Once readable, an object stays readable with the same bytes whatever happens next. |
| `ObjectStore.OthersKeepUpload` | packages/store/src/sql-storage.ts:37-48 | Steps of other callers never touch an upload's staged rows. |
| `ObjectStore.StreamResultMeaning` | packages/store/src/stream.ts:49-57 | A stream is too large if and only if its total exceeds the bound, at the first source chunk that passes it. |
| `ObjectStore.SqlObjectStorage.InsertChunk` | packages/store/src/sql-storage.ts:38-40 | One staging row under the next ordinal, or a failed write. |
| `ObjectStore.SqlObjectStorage.CommitUpload` | packages/store/src/sql-storage.ts:41-45 | One transaction publishes the manifest and its chunks unless the key is taken; afterwards the digest reads back the uploaded bytes. |
| `ObjectStore.SqlObjectStorage.AbortUpload` | packages/store/src/sql-storage.ts:46 | The upload's staging rows are gone, or the statement failed and they stay; nothing else changes. |
| `ObjectStore.SqlObjectStorage.StageInput` | packages/store/src/stream.ts:51-56 | One source chunk is staged in pieces of at most the chunk size, none empty; hash and staged bytes advance together. |
| `ObjectStore.SqlObjectStorage.StageSource` | packages/store/src/stream.ts:49-57 | The whole source is staged in order, or the loop stops at the chunk that exceeds the bound or at a failed write. |
| `ObjectStore.SqlObjectStorage.PutStream` | packages/store/src/stream.ts:40-63 | On success the result is the digest and size of the concatenated source and reads back exactly, however it was cut; a failure other than of the release committed nothing; staging rows are left if and only if something was staged and the release failed. |
| `ObjectStore.SqlObjectStorage.StageAndCommit` | packages/store/src/stream.ts:49-61 | Between acquisition and release: pieces of at most the chunk size are staged; a returned reference is the digest of the whole source and reads it back; a failure committed nothing. |
| `ObjectStore.SqlObjectStorage.Release` | packages/store/src/stream.ts:47 | Aborting after every exit, success included, makes no difference to readers, whether it fails or not. |
| `ObjectStore.SqlObjectStorage.Read` | packages/store/src/sql-storage.ts:51-70 | The manifest, chunk and plain-row paths together compute the read function, integrity errors included. |
| `ObjectStore.SqlObjectStorage.Reassemble` | packages/store/src/sql-storage.ts:58-69 | The copying loop succeeds if and only if the ordinals are 0..n-1 and the sizes add up, and then returns the concatenation. |
| `ObjectStore.SqlObjectStorage.Get` | packages/store/src/storage.ts:39-52 | A verified read: exact bytes whose digest is the reference, or missing, or an integrity error. |
| `ObjectStore.SqlObjectStorage.PutBytes` | packages/store/src/sql-storage.ts:77-88 | A stored value reads back under its digest; a value over the bound is refused without touching the store; staging rows are left only by a release that failed. |
| `ObjectCache.SqlObjectCache.constructor` | packages/store/src/sql-cache.ts:13-43 | Opening over arbitrary old rows drops inadmissible ones, recomputes the usage and trims; other namespaces are untouched. |
| `ObjectCache.SqlObjectCache.SumSizes` | packages/store/src/sql-cache.ts:39-41 | The sum of the row sizes. |
| `ObjectCache.SqlObjectCache.LeastRecent` | packages/store/src/sql-cache.ts:27-28 | The least recently used key, ties by key. |
| `ObjectCache.SqlObjectCache.Prune` | packages/store/src/sql-cache.ts:23-33 | Ends with usage equal to the sum of row sizes and within the bound, having done exactly what trimming the recency list does. |
| `ObjectCache.SqlObjectCache.NextUse` | packages/store/src/sql-cache.ts:34-36 | One more than every counter in use, or 1. |
| `ObjectCache.SqlObjectCache.Get` | packages/store/src/sql-cache.ts:46-55 | Returns the stored bytes; a hit makes the key the last in the order and leaves contents, size and the order of the others as they were; a miss changes nothing. |
| `ObjectCache.SqlObjectCache.Put` | packages/store/src/sql-cache.ts:56-66 | An admissible object is stored at the recent end and the list is trimmed; anything else changes nothing. |
| `ObjectCache.SqlObjectCache.Remove` | packages/store/src/sql-cache.ts:67-70 | Drops the key and its size. |
| `ObjectCache.TrimShortest` | packages/store/src/sql-cache.ts:26-31 | Trimming evicts the shortest least-recent prefix that restores the bound. |
| `ObjectCache.PutSurvives` | packages/store/src/sql-cache.ts:56-66 | An admitted object survives the pruning its own write triggers, unchanged and most recent. |
| `ObjectCache.Perform` | packages/store/src/sql-cache.ts:44-71 | Any sequence of operations does to the tables exactly what it does to the recency list. |
| `ObjectCache.AlwaysWithinBounds` | packages/store/src/sql-cache.ts:37-66 | After opening on any rows and any operations, the retained bytes fit the bound and every retained object is admissible. |
| `CacheRecency.OrderIsRecency` | packages/store/src/sql-cache.ts:44-71 | After any operations, of two retained keys the less recent is the one whose latest use, by get or put, came earlier, and every retained key holds the bytes last put under it. |
| `CacheRecency.EvictedUsedEarlier` | packages/store/src/sql-cache.ts:26-31 | After any operations, a key a put evicts was last used before every other key that stays. |
| `CacheRecency.PutThatFits` | packages/store/src/sql-cache.ts:56-66 | A put that fits beside what is retained evicts nothing. |
| `CacheRecency.OpeningKeeps` | packages/store/src/sql-cache.ts:37-43 | Opening keeps bytes and order, drops what is empty or too large, and beyond that only keys less recent than all that stay; if the rest fits, nothing else. |
| `CachedStorage.ObjectCachePolicy` | packages/store/src/cache.ts:26-36 | Accepted if and only if all limits are safe non-negative integers and the object limit fits the host's. |
| `CachedStorage.CacheIsTransparent` | packages/store/src/cache.ts:38-69 | Whatever the cache loses, corrupts or fails to do and however clients interleave: a get that succeeds returns what the backing store holds; one that found the object readable at its start returns those bytes or says the backing store failed to answer, which `CacheFailuresAreHidden` traces to a failed call of that store; one that fails otherwise says the object is missing. |
| `CachedStorage.CacheFailuresAreHidden` | packages/store/src/cache.ts:40-67 | In every run, a get that found the object readable returns those bytes unless a backing-store call made for it failed, whatever its cache calls did; it reports a read failure or a missing object only after asking the backing store; a put reports what the backing store reported. |
| `CachedStorage.KnownAtStart` | packages/store/src/cache.ts:55-56 | What a get is said to have found readable is what the backing store held at the call that began it. |
| `CachedStorage.ClientsFinish` | packages/store/src/cache.ts:49-67 | No client is ever stuck, and every call of its own brings it closer to its answer. |
| `CachedStorage.WrongBytesAreDropped` | packages/store/src/cache.ts:57-63 | A cached entry of another digest is not served: it is dropped and the backing store asked. |
| `CachedStorage.HitIsUse` | packages/store/src/cache.ts:55-60 | A look-up that finds the key makes it the most recently used one. |
| `CachedStorage.BackingFillsCache` | packages/store/src/cache.ts:49-66 | Bytes the backing store read or confirmed are offered to the cache, and if admissible serve the next look-up of their key. |
| `CachedStorage.OffersAreHeld` | packages/store/src/cache.ts:49-67 | In every reachable state a successful write is readable, the cache is only offered bytes the backing store holds, and only entries that answered wrong bytes are dropped. |
| `CachedStorage.CallKeepsInv` | packages/store/src/cache.ts:44-67 | Every call of any client, every step of the backing store and every decay of a cached entry keeps: cached bytes with the right digest are what the backing store holds. |
| `CachedStorage.AdmittedIsServed` | packages/store/src/cache.ts:47-60 | Bytes the cache admits are served by the next look-up without asking the backing store. |
| `EventLog.AddAllKeeps` | platform/cloudflare/src/storage.ts:209-227 | Appending keeps the log as a prefix and every key unique. |
| `EventLog.AddAllCovers` | platform/cloudflare/src/storage.ts:211-227 | Every event of a batch, or an event of the same key, is in the log afterwards, and nothing comes from elsewhere. |
| `EventLog.AppendIs` | platform/cloudflare/src/storage.ts:202-230 | With no expected head or the right one an append adds exactly those events of its batch whose key is neither in the log nor earlier in the batch, in order; with another head nothing. |
| `EventLog.AppendConcat` | platform/cloudflare/src/storage.ts:202-230 | Without an expected head, appending a concatenation equals appending its parts in order. |
| `EventLog.AppendTwice` | platform/cloudflare/src/storage.ts:213-220 | Repeating a batch of keyed events appends nothing. |
| `EventLog.RunGrows` | platform/cloudflare/src/storage.ts:202-230 | Over every run of appends earlier rows never change and each key occurs at most once. |
| `EventLog.OneWinner` | platform/cloudflare/src/storage.ts:207-208 | Of any number of appends racing on one expected head at most one adds anything. |
| `EventLog.FirstRecordKept` | platform/cloudflare/src/thread.ts:78-90 | However often a creation is provisioned at head 0, among whatever other appends, the first recorded event stays the first. |
| `EventLog.QueryEvents` | platform/cloudflare/src/thread.ts:323-349 | The result equals "keep wanted types after the mark, then take the limit" on the log as of the last page read, even if events arrive between pages; bad bounds are refused; it terminates. |
| `EventLog.QueryAnswers` | platform/cloudflare/src/thread.ts:323-349 | Every row of the answer has a wanted type, a number above the mark and the event of that number; numbers ascend; no wanted row before the last one returned is missing, and none at all if fewer than the limit are returned. |
| `EventLog.PageHolds` | platform/cloudflare/src/storage.ts:153-168 | A page holds the rows after the mark with their numbers, as many as there are and fit. |
| `EventLog.SelectRows` | platform/cloudflare/src/thread.ts:341-344 | The inner loop selects the wanted rows of one page until the limit. |
| `EventStores.KeyedRows` | platform/cloudflare/src/storage.ts:213-219 | Looking up the indexed key finds a row if and only if the log holds an event of that key. |
| `EventStores.CloudflareInserts` | platform/cloudflare/src/storage.ts:209-228 | The insert loop adds exactly the events the abstract append adds, numbered from the head. |
| `EventStores.CloudflareEventStore.Append` | platform/cloudflare/src/storage.ts:187-232 | Refines the abstract append: numbers are exactly 1..head, old rows are kept, head and count are exact; it dies if and only if the codec changed the batch length. |
| `EventStores.CloudflareEventStore.ReadPage` | platform/cloudflare/src/storage.ts:153-168 | Returns the page of the abstract log after the mark. |
| `EventStores.BunInserts` | platform/bun/src/host.ts:433-445 | The same loop with a counting lookup. |
| `EventStores.BunEventStore.Append` | platform/bun/src/host.ts:427-455 | Refines the same abstract append, and publishes the new head if and only if something was added. |
| `EventStores.ActorInserts` | platform/bun/src/host.ts:320-330 | The loop that advances the number before inserting adds the same events. |
| `EventStores.BunEventStore.AppendActorEvents` | platform/bun/src/host.ts:316-336 | Refines the abstract append without an expected head, and publishes if and only if the head moved. |
| `EventStores.BunEventStore.ReadPage` | platform/bun/src/host.ts:413-418 | Returns the page of the abstract log after the mark. |
| `EventStores.CloudflareAppends` | platform/cloudflare/src/storage.ts:187-232 | Over every run of appends the Cloudflare store holds the abstract log of that run. |
| `EventStores.BunAppends` | platform/bun/src/host.ts:427-455 | Over every run of appends the Bun store holds the same abstract log. |
| `EventStores.MaxSeq` | platform/cloudflare/src/storage.ts:178-185 | The largest sequence number is the length of the log. |
| `ModelPolicies.SelectorMapOf` | packages/model/src/access.ts:79-90 | The loop builds the map whose authority is that of the selector list. |
| `ModelPolicies.SelectorMapAllows` | packages/model/src/access.ts:79-109 | A selector list and its map allow the same references. |
| `ModelPolicies.SortedSelectors` | packages/model/src/access.ts:92-95 | Providers in collation order with their ids in code-unit order: the one listing of the map. |
| `ModelPolicies.SelectorsOrdered` | packages/model/src/access.ts:92-95 | A canonical listing names its providers strictly ascending by collation and each provider's ids strictly ascending by code units. |
| `ModelPolicies.SelectorsOfAllows` | packages/model/src/access.ts:92-109 | The listed selectors allow exactly what the map allows. |
| `ModelPolicies.IntersectLoop` | packages/model/src/access.ts:185-192 | Keeps the providers both sides name, with the shared ids, unless nothing is shared. |
| `ModelPolicies.IntersectModelPolicies` | packages/model/src/access.ts:178-195 | Computes the canonical intersection of the restrictive policies, or the default policy when there is none. |
| `ModelPolicies.IntersectionIsConjunction` | packages/model/src/access.ts:105-109 | A reference is allowed by the intersection if and only if every policy in the list allows it. |
| `ModelPolicies.NormalMapsEqual` | packages/model/src/access.ts:172-193 | Over the infinite set of references, two normal maps with the same authority are the same map: no finite selector set equals a wildcard. |
| `ModelPolicies.ScopeIsCanonical` | packages/model/src/access.ts:210-212 | For validated policies the scopes of two lists are equal if and only if the lists authorise the same references. |
| `ModelPolicies.ScopeIgnoresOrder` | packages/model/src/access.ts:210-212 | Order and repetition of policies never change the scope. |
| `ModelPolicies.ScopeIgnoresGrouping` | packages/model/src/access.ts:178-212 | Intersecting some policies first never changes the scope. |
| `ModelPolicies.NormalizingKeepsAuthority` | packages/model/src/access.ts:97-102 | Rewriting a selector list into canonical form keeps its authority. |
| `ModelPolicies.ApplyNarrows` | packages/model/src/access.ts:197-208 | One application allows exactly what the incoming policy and the override both allow; it fails if and only if the effective default or a fallback would not be allowed. |
| `ModelPolicies.ChainNeverWidens` | packages/model/src/access.ts:197-208 | Along any chain of applications the allowed set never grows, and the resulting default and fallbacks are allowed. |
| `ThreadTree.PublicIdCollision` | packages/deprecated/host/src/thread-compat.ts:3-7 | Two different stored names share a public id if and only if one is the other behind one legacy prefix and the shorter carries none. |
| `ThreadTree.Builder.Index` | platform/cloudflare/src/actor.ts:53-68 | The rows are indexed by public id, with children by parent and the roots, or two rows share a public id. |
| `ThreadTree.Builder.BuildNode` | platform/cloudflare/src/actor.ts:73-85 | Stops when the node budget is spent, fails only where a thread stands below itself, and otherwise builds the planned tree and marks exactly its threads. |
| `ThreadTree.Builder.BuildNodes` | platform/cloudflare/src/actor.ts:86-94 | Builds a list of trees, in preorder up to the budget, or fails where a thread repeats. |
| `ThreadTree.ThreadTreeOf` | platform/cloudflare/src/actor.ts:48-101 | For all rows and bounds the answer is: ambiguous, unknown root, cycle, orphan, or the trees from the starts, cut at the depth bound and taken up to the node bound. |
| `ThreadTree.NodesShowRows` | platform/cloudflare/src/actor.ts:56-85 | Every node returned carries the id, parent, depth and placement of one row, and stands below the node it names as its parent. |
| `ThreadTree.KidsAscend` | platform/cloudflare/src/actor.ts:82-95 | Roots and children are listed strictly ascending by code units. |
| `ThreadTree.RefusedReads` | platform/cloudflare/src/actor.ts:56-98 | A read is ambiguous if and only if two rows are shown under one id; otherwise its start is unknown if and only if no row is shown under it; only unbounded reads report orphans. |
| `ThreadTree.UnboundedRead` | platform/cloudflare/src/actor.ts:95-100 | Without bounds it succeeds if and only if public ids are distinct, every parent is present and no thread is its own ancestor; then every thread occurs exactly once, below its parent, in order. It never reports a cycle: that case is reported as an orphan. |
| `ThreadTree.BoundedRead` | platform/cloudflare/src/actor.ts:69-100 | On a forest, from the roots or any thread, the answer is the whole tree cut below `maxDepth`, and its preorder is the first `maxNodes` ids of that tree's preorder. |
| `ThreadTree.SubtreeRead` | platform/cloudflare/src/actor.ts:69-100 | A read of one thread's subtree reports a cycle if and only if that thread is its own ancestor, and otherwise returns its whole subtree. |
| `ThreadTree.DepthRead` | platform/cloudflare/src/actor.ts:69-94 | Bounded only by `maxDepth`, it reports a cycle if and only if that many parents, or fewer, lead from the thread back to it. |
| `ThreadTree.CycleAtRoot` | platform/cloudflare/src/actor.ts:69-94 | Under any bounds a reported cycle goes through the thread the read starts from and is no longer than `maxDepth`. |
| `ThreadTree.ForestIffAcyclic` | platform/cloudflare/src/actor.ts:95-99 | Every thread's parents lead to a root if and only if all parents are present and there is no cycle of parents. |
| `ThreadTree.WholeUnique` | platform/cloudflare/src/actor.ts:81-84 | A roster determines its whole trees. |
| `Catalog.Statements` | platform/cloudflare/src/catalog.ts:134-162 | The nested loops produce the insert statements of every provider and model with their positions. |
| `Catalog.BatchesOf` | platform/cloudflare/src/catalog.ts:51-55 | The batches concatenate to the statements, none is empty, and all but the last have the requested size. |
| `Catalog.RunKeepsInv` | platform/cloudflare/src/catalog.ts:126-180 | In every run of concurrent writers, failed statements, hidden effects and crashes: every source row names a published generation of its url, and that generation holds exactly the rows of the snapshot it was written for unless its own writer removed them. |
| `Catalog.AnythingMayFail` | platform/cloudflare/src/catalog.ts:126-180 | A writer may crash anywhere, and every statement may report an error with its effect or without. |
| `Catalog.SwitchKeepsInv` | platform/cloudflare/src/catalog.ts:165-179 | The switch activates a complete generation and leaves other writers' predecessors inactive. |
| `Catalog.RemovalKeepsInv` | platform/cloudflare/src/catalog.ts:57-61 | Removing a failed or a replaced generation never removes an active row. |
| `CatalogReads.SnapshotOf` | platform/cloudflare/src/catalog.ts:65-94 | Grouping the model rows by provider keeps query order and assembles the snapshot. |
| `CatalogReads.ReadStored` | platform/cloudflare/src/catalog.ts:101-124 | Absent if and only if there is no source row; otherwise an answer to the two ordered queries for the row's generation. |
| `CatalogReads.AnswerIsSnapshot` | platform/cloudflare/src/catalog.ts:65-124 | Any answer over a complete generation is the snapshot it was written from, restricted to the wanted providers, with provider and model order intact. |
| `CatalogReads.VisibleIs` | platform/cloudflare/src/catalog.ts:101-124 | A reader sees the fields of the snapshot and, in the same order, all its providers or exactly the wanted ones. |
| `CatalogWrites.ReadReturnsWritten` | platform/cloudflare/src/catalog.ts:101-180 | In every run, a read with no switch of its url between its two queries returns the whole of one snapshot some writer was given, for every batch size; or that snapshot without providers if its own writer has removed its rows. |
| `CatalogWrites.ActiveCompleteIff` | platform/cloudflare/src/catalog.ts:163-179 | In every run an active generation holds its whole snapshot if and only if that has no providers or no applied clean-up by its own writer occurred. |
| `CatalogWrites.GoneIffRemoved` | platform/cloudflare/src/catalog.ts:169-176 | The generations recorded as removed are exactly those some applied clean-up of their own writer names. |
| `CatalogWrites.HonestKeepsPublished` | platform/cloudflare/src/catalog.ts:165-176 | If no applied switch reports an error, no published generation is ever removed by its own writer. |
| `CatalogWrites.WriteGoesThroughIff` | platform/cloudflare/src/catalog-migration.ts:10-34 | Under an unused generation all statements go through if and only if provider ids, and model ids within a provider, are unique. |
| `CatalogWrites.WriteAlone` | platform/cloudflare/src/catalog.ts:126-180 | With no other writer and no failure, a write of a snapshot with unique ids can always be carried to its end, and that end has only active rows. |
| `CatalogWrites.LostSwitchEmptiesActive` | platform/cloudflare/src/catalog.ts:165-176 | If a switch that was applied reports an error, the cleanup empties the active generation: a concrete run. |
| `CatalogWrites.OverlapLeavesRows` | platform/cloudflare/src/catalog.ts:132-179 | Two overlapping writers without any failure leave the first one's rows behind: a concrete run, in every continuation of which they are still there. |
| `CatalogWrites.AbandonedForever` | platform/cloudflare/src/catalog.ts:57-61 | Rows of a generation that is neither active nor any writer's own or predecessor stay unchanged in every continuation, whatever fails. |
| `CatalogTidy.TidyIff` | platform/cloudflare/src/catalog.ts:132-179 | For every failure-free run that ends with no writer: each switch displaced its own predecessor if and only if every displaced generation is some writer's predecessor; only active rows are left if and only if the displaced generations that are not have no rows; so the first implies the second, and is equivalent to it when every snapshot has a provider. |
| `CatalogTidy.NonOverlappingIsTidy` | platform/cloudflare/src/catalog.ts:126-180 | Failure-free writes of one url that do not overlap always leave only active rows. |
| `CatalogTidy.ChainedIff` | platform/cloudflare/src/catalog.ts:132-179 | A list of switches that can only look back accounts for every displaced generation if and only if each accounts for the one just before it. |
| `CatalogWrites.RunKeepsPublished` | platform/cloudflare/src/catalog.ts:126-180 | In every run, what a generation was published for never changes, and no other writer publishes a writer's generation. |
| `CatalogWrites.CatalogDatabase.Batch` | platform/cloudflare/src/catalog.ts:164 | One transaction: applied, or an error reported whether or not it was applied. |
| `CatalogWrites.CatalogDatabase.SwitchSource` | platform/cloudflare/src/catalog.ts:165-168 | Publishes the generation, or reports an error with the row written or not; touches no other row. |
| `CatalogWrites.CatalogDatabase.Remove` | platform/cloudflare/src/catalog.ts:57-61 | Removes exactly one generation of one url. |
| `CatalogWrites.CatalogDatabase.Write` | platform/cloudflare/src/catalog.ts:126-180 | Among arbitrary steps of other writers: published with its predecessor removed, published with that removal failed, or refused and, unless the cleanup failed, without rows left; a refused generation is published if and only if its switch was applied but reported an error. |
| `InstancePool.SingleFlight` | platform/bun/src/instances.ts:17-30 | In every run no two openings of one id are in flight and at most one succeeds. |
| `InstancePool.SameRuntime` | platform/bun/src/instances.ts:17-30 | Whatever two calls for one id deliver, at any points of a run, is the same runtime. |
| `InstancePool.ClosedPool` | platform/bun/src/instances.ts:31-38 | Once `close` has settled nothing is in flight, every runtime has been closed exactly as often as openings were answered with it, and the reported errors are at listed ids. |
| `InstancePool.CloseWaits` | platform/bun/src/instances.ts:33-37 | In every run, once runtimes are being closed every task there was when the openings had settled has ended; once `close` has settled, every listed runtime has answered, and the errors are exactly the ids whose close failed. |
| `InstancePool.CloseCanSettle` | platform/bun/src/instances.ts:31-38 | Once called, `close` can settle from any point of any run without new calls, whether what it waits for succeeds or fails: nothing it waits for waits for it. |
| `InstancePool.TasksAre` | platform/bun/src/instances.ts:13-27 | The running tasks are exactly those begun and not ended; a recovery is begun for every runtime opened before the pool was aborted, if there is a recovery function, and for no other. |
| `InstancePool.AbortedIff` | platform/bun/src/instances.ts:13-32 | The pool is aborted if and only if `close` was called or a task has failed. |
| `InstancePool.ClosedOnce` | platform/bun/src/instances.ts:35-37 | Every runtime that was opened has then been closed, and exactly once if and only if no other opening was answered with the same runtime. |
| `InstancePool.CallsPerOpening` | platform/bun/src/instances.ts:35-36 | One close call per listed id is one per successful opening. |
| `InstancePool.ClosedForever` | platform/bun/src/instances.ts:17-38 | After that every call throws, nothing is opened and nothing is closed again. |
| `InstancePool.NoOpenAfterClose` | platform/bun/src/instances.ts:17-32 | From the call of `close` on, every call of `open` throws and no opening is added. |
| `InstancePool.RunKeepsInv` | platform/bun/src/instances.ts:8-38 | `opening` lists exactly the openings in flight and `instances` the runtime of exactly the successful ones, one per id, along every run. |
| `InstancePool.Pool.CallOpen` | platform/bun/src/instances.ts:17-30 | Throws after an abort; otherwise answers the runtime, the pending opening, or a new one. |
| `InstancePool.Pool.Opened` | platform/bun/src/instances.ts:23-27 | Lists the runtime and tracks its recovery unless aborted. |
| `InstancePool.Pool.ForgetOpening` | platform/bun/src/instances.ts:27 | Unlists the opening once it is answered. |
| `InstancePool.Pool.TaskEnded` | platform/bun/src/instances.ts:13-16 | A failing task aborts the pool. |
| `InstancePool.Pool.CallClose` | platform/bun/src/instances.ts:31-33 | The first call aborts and waits for the openings of that moment; later calls join it. |
| `InstancePool.Pool.ContinueClose` | platform/bun/src/instances.ts:33-37 | Goes on only when the openings it waits for have settled, then only when none of the tasks it waits for is left, then closes every listed runtime, and settles only when all have answered. |
| `InstancePool.Pool.CloseAll` | platform/bun/src/instances.ts:35 | The loop calls `close` once for every listed id, on the runtime listed for it. |

## Left out

- HTTP, RPC, server-sent events, Durable Object stubs, retry wrappers and SQL text.
- The Effect library: fibres, scopes and layers appear only as steps that succeed or fail.
- `importsOf`, `analyzeGraph`, the component-purity walker, and the edge, layer and manifest rules of
  `boundaryViolations`; of its last part, the messages' text.
- The text and payload of error messages; errors are constructors, and a cycle, an ambiguous id or a
  refused fallback is not named in them.
- Validation of untyped JSON (`modelPolicyOf`, `selectorOf`, the catalog schema): policies and
  snapshots start as typed values, names already trimmed.
- Scheduler admissions whose staging took effect but whose alarm could not be set: the caller gets an
  error and nothing is published, so coverage is claimed only for admissions that returned.
- What staged work does: `accept`, `reserveThread` and `reconcile` are the scheduler's abstract
  admission and execution.
- Byte isolation (defensive copies of byte arrays): byte strings are values.
- Other namespaces of the object store; the cache's other namespaces are modelled and proved untouched.
- Presigned object URLs.
- Decoding that changes a batch's length: the decoder is elementwise.
- `read`, `first` and `readFrom` of the event stores, which only map query results.
- Catalog reads that overlap a switch of their url, for which nothing is claimed.
- `readScope`'s further narrowing of a snapshot, and the batch-size check.
- `restore`, which opens the instances found in a directory one after the other.
- The microtask between the settling of a task and its removal from `tasks`.
- ObjectStore.SqlObjectStorage.PutStream: does not model a crash inside the call; the transition system has that case (`Crash`).
