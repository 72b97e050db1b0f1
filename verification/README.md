# TaskLite: a verified model of its engine

TaskLite is a single-machine job pipeline: jobs with dependencies and resources wait in a queue that
lives on disk, are dispatched to worker processes, and end in a success table, a failure archive, or
are skipped. This project models the parts on which its guarantees rest and proves them.

* **Standstills.** `CycleSearch` (the explicit-stack cycle search and what it lists), `State` (in-memory
  state, cascade, cycle detector), `Kahn` and `Standstill` (the reduction and the selection partition),
  `Scheduler` (the queue scan), `Diagnosis` (scan, partition and detector together always explain a
  standstill), `GraceWindow` and `Governor` (the arbiter), `Skips` (terminal skips). `Graphs` holds the
  walks, cycles and the pigeonhole argument.
* **Durability.** `Disk` (the persistence contract), `Contract` (what each of its calls means, row by row
  and key by key), `MemoryBackend` and `SqliteBackend` (its two implementations, proved bisimilar in
  `Bisimulation`), `Mirror` and `Store` (commit first, memory second, and the three ways a commit ends),
  `Memory` (what each change of memory and each exit means on both sides), `Recovery` (crash-safe merge,
  reload, strikes across restarts), `Completion` (settling finished jobs) and `Lifecycle` (whole runs with
  crashes anywhere).
* **Names.** `Encoding` (percent encoding over UTF-8, identifiers, file names) and `Discovery`
  (namespaces, the group filter, the page scan).
* **Resources.** `Resources` (capacities, rate limits, evaluation, reservation), `Leases` (whole runs),
  `Spacing` (distance between claims of a rate limit), `Manager` (the mutable objects), `Fates` (where a
  popped job can end up) and `Dispatch` (from popping a job to registering it in flight).

Code that changes things step by step is modelled by classes, methods and loops, each proved against
a function of the old state; the theorems about runs are about those functions. What such a function
means is stated apart from it: lemmas named `…Means` or `…Does` say, on positions, keys and conditions
alone, which row is chosen, who is blamed, at which end a row joins, and which characters stay. Commits
that may fail, clocks, page fetches and digests are parameters. Reals stand for times and amounts.

Where the code and its own text disagree, the code is modelled:

* The detector's docstring (tasklite/models/state.py:186-194) promises all members of all cycles. A
  search can miss some (`CycleSearch.ListingMissesMembers`). What it lists is exact in terms of the moment
  a node turns gray: the node is listed if and only if a walk from it through nodes still white ends in a
  node that depends on the gray path (`CycleSearch.ListedIffClosesBack`). Every member is listed when no
  job has two dependencies inside the graph (`CycleSearch.SingleDependenciesListAll`), and the listing is
  empty exactly for an acyclic graph.
* The governor's text (tasklite/engine/governor.py:107-111) promises every waiter a whole grace window.
  Ending a stale episode also clears the remembered missing set, and the deadline granted next has no
  set attached, so a different set seen later inherits it (`GraceWindow.InheritedDeadlineCondemnsAtOnce`).
  `GraceWindow.PollIsFair` says exactly which polls keep the promise, and `GraceWindow.AskedOftenIsFair`
  that it holds whenever the governor is asked at least once per window.
* A failed skip commit puts back a row that may still be queued (`Mirror.SkipDuplicates`); the merge
  removes the copy.
* An exception between a commit and its memory update leaves memory behind the disk. If the job is then put
  back and the queue saved, even a finished job is queued again (`Lifecycle.TornRunsAgain`); the reload
  repairs everything else.
* A failure of a job that has no disk row, if it cannot be committed, puts a row into memory that the disk
  does not have (`Mirror.UnqueuedStrike`); the next merge writes it, and without one the job is gone
  (`Lifecycle.RejectedIsKept`).
* A malformed row can be answered for by a cached well-formed twin with the same scheduling fields; the
  theorems about scans name this (`Unmasked`), and `Scheduler.JobScheduler.ScanNextRunnable` says when it
  cannot happen (`Scheduler.JobScheduler.TwinMasks` shows that it can).

## Model

| member | source | states |
|---|---|---|
| State.PipelineState.PopJob | tasklite/models/state.py:80-87 | the row at the index leaves the queue, the others keep their order, and the uid index loses exactly its uid |
| State.PipelineState.SpawnJobs | tasklite/models/state.py:89-98 | rows join at the chosen end, their uids join the index and lose their trigger exemption |
| State.PipelineState.RemoveQueuedUid | tasklite/models/state.py:100-110 | every row of the uid goes, the order of the rest stays, and an absent uid changes nothing |
| State.PipelineState.RegisterInFlight | tasklite/models/state.py:118-122 | only the in-flight set grows, and the queue stays apart from it |
| State.PipelineState.UnregisterInFlight | tasklite/models/state.py:124-128 | only the in-flight set shrinks |
| State.PipelineState.ReplaceQueue | tasklite/models/state.py:136-142 | the queue is replaced and its index rebuilt from it |
| State.PipelineState.MarkSuccess | tasklite/models/state.py:245-253 | the uid ends in successes and in no other terminal index |
| State.PipelineState.MarkFailed | tasklite/models/state.py:255-263 | the uid ends in the failure archive and in no other terminal index |
| State.PipelineState.UpdateCursors | tasklite/models/state.py:265-273 | a value overwrites, no value deletes, other keys stay, whatever the order of the keys |
| State.PipelineState.BuildDependents | tasklite/models/state.py:146-157 | the reverse index holds v under d if and only if some parseable row of v lists d |
| State.PipelineState.CascadeFail | tasklite/models/state.py:159-184 | the result lists, each once, exactly the jobs reachable from the failed one through rows that are not excluded and have no terminal record |
| State.PipelineState.VisitDependants | tasklite/models/state.py:175-183 | one node of the cascade: its open dependants, and no others, join the cascade and the stack |
| State.PipelineState.FindDependencyCycles | tasklite/models/state.py:186-241 | it terminates; the answer is a chain of closed walks of the restricted graph; every listed uid lies on a cycle; it is empty if and only if the graph is acyclic; it is the listing of a whole search, which `CycleSearch.ListedIffClosesBack` determines node by node; and it names every node on a cycle when no node has two dependencies inside the graph |
| State.PipelineState.Explore | tasklite/models/state.py:217-240 | the inner loop from one root: the root turns black, black nodes stay black, and the search invariant is kept |
| State.PipelineState.Advance | tasklite/models/state.py:221-240 | one turn keeps the search invariant and lowers a lexicographic measure |
| State.PipelineState.BuildEdges | tasklite/models/state.py:199-207 | edges of parseable rows in the node set, a later row of a uid winning |
| CycleSearch.LookKeeps | tasklite/models/state.py:227-240 | whichever colour the next dependency has, the search invariant survives the look, with one more closed walk when it is gray |
| CycleSearch.FinishKeeps | tasklite/models/state.py:221-226 | leaving an exhausted node extends the topological order of finished nodes |
| CycleSearch.ExploredIsExact | tasklite/models/state.py:186-241 | with every node finished: listed uids are on cycles, and none is listed exactly when there is no cycle |
| CycleSearch.ListedIffClosesBack | tasklite/models/state.py:211-241 | the exact listing: a node is listed if and only if, at the moment it turns gray, a walk from it through nodes still white ends in a node that depends on the gray path, the node itself included |
| CycleSearch.EveryNodeTurnsGray | tasklite/models/state.py:211-241 | that moment exists for every node, and the node is then the end of the gray path |
| CycleSearch.SingleDependenciesListAll | tasklite/models/state.py:186-241 | when every node has at most one dependency inside the graph, every node on a cycle is listed, whatever the order of the search |
| CycleSearch.LeavingIsExact | tasklite/models/state.py:221-226 | a node that is left is listed if and only if it closes back, so later turns cannot change what the listing says of it |
| CycleSearch.LookBackExplained | tasklite/models/state.py:230-236 | a back edge lists exactly the path from its end on, and each of these nodes closes back |
| CycleSearch.WhiteWalkIsSeen | tasklite/models/state.py:221-240 | when a node is exhausted, every node a white walk from it reaches is finished and was looked along |
| CycleSearch.TraceExplained | tasklite/models/state.py:211-241 | at every turn of every search each gray node is listed only if it closes back, and as soon as a node found after it is seen to depend on its path |
| State.PipelineState.MarkTriggerSkipped | tasklite/models/state.py:312-314 | the uid counts as a met dependency until it is queued or recorded again |
| CycleSearch.ListingMissesMembers | tasklite/models/state.py:189-240 | a whole search of a three-node graph whose listing lacks a node that is on a cycle, so the promise of all members of all cycles does not hold |
| State.GraphRestricts | tasklite/models/state.py:205-207 | restricting the rows to a node set is restricting the graph of all rows |
| Graphs.NoSinkMeansCycle | tasklite/models/state.py:186-241 | a finite set in which every node depends on another member contains a cycle reachable from any of its nodes |
| Graphs.TopologicalMeansAcyclic | tasklite/models/state.py:186-241 | a full topological order rules out every cycle |
| Graphs.ClosedWalkMembersOnCycle | tasklite/models/state.py:230-236 | every node of a closed walk lies on a cycle, so a whole back-edge segment may be listed |
| Kahn.Reduce | tasklite/engine/selection.py:190-209 | the counter-and-stack reduction computes the least set closed under "all pending dependencies reduced" |
| Kahn.CountPending | tasklite/engine/selection.py:191-200 | counters and reverse index count a dependency once per time it is listed, so repeats are consistent |
| Kahn.Release | tasklite/engine/selection.py:204-209 | taking one job off the ready list keeps every counter equal to its unreduced dependencies, and readies exactly those that reach zero |
| Kahn.LeastFixpointUnique | tasklite/engine/selection.py:201-210 | the result does not depend on the order in which the ready list is popped |
| Kahn.LeftoverIsHopeless | tasklite/engine/selection.py:210-213 | a candidate is left over if and only if it can follow pending dependencies to a uid that is no candidate, or into a cycle |
| Kahn.LeftoverHasCycle | tasklite/engine/selection.py:210-213 | a non-empty leftover with known dependencies contains a cycle of leftovers |
| Kahn.ReducedHasNoTrap | tasklite/engine/selection.py:201-210 | no set of reduced jobs can wait only for itself |
| Standstill.Partition | tasklite/engine/selection.py:155-241 | no answer exactly for an inactive selection or a malformed row; otherwise sets, roots and cycles that explain the queue |
| Standstill.ReadFacts | tasklite/engine/selection.py:167-178 | the facts of all rows, or nothing as soon as one row is malformed |
| Standstill.BackwardClosure | tasklite/engine/selection.py:215-231 | exactly the allowed jobs that transitively depend on a deferred one, each with such a deferred job as its root |
| Standstill.ExplanationUnique | tasklite/engine/selection.py:25-55 | two explanations of the same queue agree on all four sets and on whether a cycle is reported |
| Standstill.PartitionCovers | tasklite/engine/selection.py:29-42 | deferred, blocked, unblocked and stuck are disjoint and make up the queue |
| Standstill.UnblockedIsOwnFixpoint | tasklite/engine/selection.py:38-42 | unblocked is the least fixpoint with the deferred jobs taken out of the wavefront |
| Standstill.StuckIsHopeless | tasklite/engine/selection.py:34-35 | stuck means: can follow pending dependencies to an unknown uid or into a cycle |
| Standstill.StuckReportsCycle | tasklite/engine/selection.py:36-37 | stuck jobs whose dependencies are all known always show up as a reported cycle |
| Scheduler.JobScheduler.ScanNextRunnable | tasklite/engine/scheduler.py:261-442 | from rules, queue, records and resource answers alone: the chosen row is the first in visit order that no rule names, whose dependencies are all met and whose resources are available; a row with all but the resources is passed over, and lowers the wait or is listed under exactly its cause; a failed dependency is reported only if no row is runnable, with the first row that has one |
| Scheduler.JobScheduler.CachedJob | tasklite/engine/scheduler.py:197-251 | for a row that parses the cached answer is the fresh parse; a malformed row is answered for only by a remembered twin |
| Scheduler.JobScheduler.Inspect | tasklite/engine/scheduler.py:303-391 | what each verdict says of the row, its rules, its dependencies' records and the resource answer, in the order of precedence |
| Scheduler.JobScheduler.Barrier | tasklite/engine/scheduler.py:331-354 | the first failed dependency if there is one, else whether any is missing and whether any is still to come |
| Scheduler.JobScheduler.Turn | tasklite/engine/scheduler.py:303-391 | one row: its verdict joins the visits and the tallies keep meaning what the visits say |
| Scheduler.TallyMeans | tasklite/engine/scheduler.py:393-442 | the final projection turns correct tallies into the dispatch choice and the standstill facts |
| Scheduler.MinimalWaitAppend | tasklite/engine/scheduler.py:375-385 | the running minimum of waits stays the minimum |
| Diagnosis.FruitlessMeansAllWait | tasklite/engine/scheduler.py:261-442 | after a fruitless scan with infinite wait and no cause, every admitted row waits for a queued uid and for no missing or failed one |
| Diagnosis.PlainStandstillIsCycle | tasklite/engine/governor.py:457-501 | without selection such a standstill is a wait, and the detector's graph has a cycle |
| Diagnosis.AllWaitMeansKnown | tasklite/engine/selection.py:180-213 | with selection every dependency of an allowed job is then queued or ready |
| Diagnosis.NothingUnblocked | tasklite/engine/selection.py:235-241 | and when nothing is stuck, nothing is unblocked either |
| Diagnosis.SelectiveStandstillIsExplained | tasklite/engine/governor.py:324-372 | with selection: either only exclusions stand in the way, or a cycle is reported |
| GraceWindow.PollIsFair | tasklite/engine/governor.py:178-232 | a poll leaves the waiters their whole window if and only if it does not inherit the deadline of another missing set after a stale episode was renewed |
| GraceWindow.WaitHasStart | tasklite/engine/governor.py:107-117 | in every run the current wait is an uninterrupted stretch of polls of one missing set with a spawner |
| GraceWindow.CondemnedAfterFullWindow | tasklite/engine/governor.py:107-117 | over every run without inherited deadlines: condemnation despite a spawner comes only after a full uninterrupted window for that very set |
| GraceWindow.InheritedDeadlineCondemnsAtOnce | tasklite/engine/governor.py:210-232 | a three-poll run in which a set is condemned at first sight, because ending a stale episode also forgets its missing set |
| Governor.PlainScanLeavesNoGap | tasklite/engine/governor.py:457-501 | facts of a complete fruitless scan never lead to a gap cause (no selection) |
| Governor.SelectiveScanLeavesNoGap | tasklite/engine/governor.py:457-501 | nor with a selection |
| Governor.MalformedScanBlamesRows | tasklite/engine/governor.py:422-426 | if some row is malformed, the malformed rows are blamed |
| Governor.ReportsAreGrounded | tasklite/engine/scheduler.py:55-68 | every attributed uid is a queued uid |
| Governor.SplitUids | tasklite/engine/governor.py:279-294 | the condemned uids are the queued ones among the target, or all |
| Governor.SomebodyIsBlamed | tasklite/engine/governor.py:416-501 | a blamed cause always names somebody in a non-empty queue |
| Governor.BulkMeans | tasklite/engine/store.py:663-721 | only named jobs the selection lets run are archived; on a normal return all of them are, the queue lost exactly them and is shorter if there was one |
| Governor.CondemningMakesProgress | tasklite/engine/governor.py:503-559 | "resolved" means a shorter queue or the end of the run |
| Governor.CondemningSparesExcluded | tasklite/engine/store.py:669-680 | no job the selection excludes is archived by arbitration, fallback included |
| Governor.GapStreakIsBounded | tasklite/engine/governor.py:251-276 | at most one less than the maximum of gap retries happen in a row, for every sequence of calls that count as `Arbitrate`, `RecordDispatchProgress` and `Reset` do |
| Governor.DeadlockGovernor.Arbitrate | tasklite/engine/governor.py:296-377 | blaming is due exactly when nothing is to wait for or the wait is a cycle, unless all is held back; otherwise nothing is touched; condemned are exactly those of the first non-empty list of malformed, unknown, missing and impossible, else the cycle, else, only after the maximum of rounds, the whole queue, under the record of that list; resolved makes progress; memory keeps mirroring the disk |
| Governor.DeadlockGovernor.ResolveDeadlock | tasklite/engine/governor.py:401-505 | who is blamed and under which record, from the lists and the cycle alone; a missing set is waited for while its window lasts, an unexplained standstill is retried below the maximum, and everybody else stays queued and unarchived |
| Governor.DeadlockGovernor.Withhold | tasklite/engine/governor.py:432-498 | condemnation is withheld exactly while the grace check says wait or a gap is younger than the maximum |
| Governor.DeadlockGovernor.Condemn | tasklite/engine/governor.py:503-559 | the batch is failed once; if a selection let nothing of it through, the converging fallback decides |
| Governor.DeadlockGovernor.Converge | tasklite/engine/governor.py:507-550 | block report, fallback condemnation of what is stuck, or termination |
| Governor.DeadlockGovernor.CheckDependencyGrace | tasklite/engine/governor.py:178-249 | the episode and the answer after one poll, including the fallback over the queue |
| Governor.DeadlockGovernor.FindReady | tasklite/engine/governor.py:234-249 | true if and only if some other parseable queued job has all its dependencies |
| Governor.DeadlockGovernor.GrantOrExpire | tasklite/engine/governor.py:148-176 | a first deadline is a whole window away; past it the episode ends |
| Governor.DeadlockGovernor.RecordDispatchProgress | tasklite/engine/governor.py:135-146 | a dispatch ends a live episode and the gap streak |
| Governor.DeadlockGovernor.CheckGapOrEscalate | tasklite/engine/governor.py:251-276 | one more round, escalating from the maximum on |
| Governor.DeadlockGovernor.SplitDeadlockByUids | tasklite/engine/governor.py:278-294 | the rows of the target with the error, in queue order |
| Skips.Close | tasklite/engine/selection.py:104-126 | exactly the jobs downstream of the seeds; every root is a seed that its job reaches; every depth steps down to a seed |
| Skips.ClosureIsExact | tasklite/engine/selection.py:104-126 | a job is in the closure if and only if it is a seed or transitively depends on one |
| Skips.SortByDepth | tasklite/engine/selection.py:128-128 | each job once, deeper ones first, and on one level by uid |
| Skips.PrefixLeavesRest | tasklite/engine/selection.py:81-84 | after any prefix of the removals a fresh run condemns exactly the rest, if and only if every remaining job that was a seed only through a remembered skip reaches, through remaining jobs, one that a rule names |
| Skips.FreshPrefixLeavesRest | tasklite/engine/selection.py:81-84 | a run that had skipped nothing before always meets that condition |
| Skips.SkipsResumeAfterCrash | tasklite/engine/selection.py:81-84 | crash, merge and reload included: the next run condemns exactly the jobs not removed yet |
| Skips.SelectionMachine.ApplySkips | tasklite/engine/selection.py:78-153 | removals in depth order with one commit each, an audit reason per removal, the remembered uids, and the state left by the first failed commit; memory mirrors the disk at the end |
| Skips.SelectionMachine.RemoveOne | tasklite/engine/selection.py:132-150 | one removal: both queues lose the job, or the commit failed and its row is back at the head of memory |
| Disk.ApplyKeepsWellFormed | tasklite/backend/sqlite_backend.py:375-817 | every call keeps uids unique, payloads attached to failed rows and attempt ids fresh |
| Disk.ApplyKeepsDisjoint | tasklite/backend/memory.py:290-292 | every call keeps successes and failures apart, if and only if it is no bare append of a uid that has a success |
| Disk.RunKeepsWellFormed | tasklite/backend/sqlite_backend.py:375-817 | so does every sequence of calls, with one reply each |
| Disk.KeepFirstMeans | tasklite/backend/memory.py:72-91 | first rows only: distinct, nothing foreign, and every uid kept |
| Disk.KeepFirstFixed | tasklite/backend/sqlite_backend.py:441-465 | a spawn batch is stored whole if and only if it collides neither with the queue nor within itself; the row count tells |
| MemoryBackend.InMemoryStateBackend.CommitJobSuccess | tasklite/backend/memory.py:108-207 | validate, then write: refused leaves every table alone, accepted moves attempt, success, queue, failure and cursors together |
| MemoryBackend.InMemoryStateBackend.CommitJobFailure | tasklite/backend/memory.py:209-233 | archive, queue and success rows change together; a missing payload keeps the stored one |
| MemoryBackend.InMemoryStateBackend.CommitRetry | tasklite/backend/memory.py:235-263 | the row of the job goes, the retried row is the first of the queue, or the last, and the others are the old queue read off in order at exactly the rows of other jobs; a collision changes nothing |
| MemoryBackend.InMemoryStateBackend.CommitJobFailures | tasklite/backend/memory.py:265-283 | batch archive with exact queue deletion |
| MemoryBackend.InMemoryStateBackend.EnqueueJobs | tasklite/backend/memory.py:296-317 | only new uids are added, in order, at the chosen end, and reported |
| MemoryBackend.InMemoryStateBackend.ReplaceQueueAtomic | tasklite/backend/memory.py:97-104 | the computed queue, without repeats, replaces the stored one |
| MemoryBackend.InMemoryStateBackend.SeedSuccesses | tasklite/backend/memory.py:353-371 | all seeded, or none when one of them is in the failure archive |
| MemoryBackend.InMemoryStateBackend.UpdateAttempt | tasklite/backend/memory.py:398-424 | a running attempt is finished once; anything else is refused and changes nothing |
| MemoryBackend.InMemoryStateBackend.Execute | tasklite/backend/memory.py:72-424 | every call has the effect and reply the shared contract gives it |
| SqliteBackend.StoredUnique | tasklite/backend/sqlite_backend.py:295-307 | a table with strictly increasing positions has one reading in position order |
| SqliteBackend.StoredBatch | tasklite/backend/sqlite_backend.py:225-242 | a batch at consecutive positions outside the stored range goes to that end, in its own order |
| SqliteBackend.StoredDelete | tasklite/backend/sqlite_backend.py:659-671 | deleting rows keeps the order of the others |
| SqliteBackend.SqliteStateBackend.PositionRange | tasklite/backend/sqlite_backend.py:225-242 | the base lies a whole batch before, or right after, every stored position |
| SqliteBackend.SqliteStateBackend.LoadQueue | tasklite/backend/sqlite_backend.py:295-307 | reading by lowest position yields the abstract queue order |
| SqliteBackend.SqliteStateBackend.RewriteQueueRows | tasklite/backend/sqlite_backend.py:309-336 | delete everything, write first rows at positions from zero |
| SqliteBackend.SqliteStateBackend.SaveQueue | tasklite/backend/sqlite_backend.py:338-350 | a failed save changes nothing |
| SqliteBackend.SqliteStateBackend.ReplaceQueueAtomic | tasklite/backend/sqlite_backend.py:352-373 | read, compute and write back as one step, or nothing |
| SqliteBackend.SqliteStateBackend.CommitJobSuccess | tasklite/backend/sqlite_backend.py:375-479 | all six effects or, on any refusal, collision or fault, a full rollback |
| SqliteBackend.SqliteStateBackend.InsertOrIgnore | tasklite/backend/sqlite_backend.py:441-465 | the row count equals the batch size exactly when the whole batch went in, at the head and in order |
| SqliteBackend.SqliteStateBackend.CommitJobFailure | tasklite/backend/sqlite_backend.py:517-537 | archive with kept payload, queue and success row deletion, or nothing |
| SqliteBackend.SqliteStateBackend.CommitRetry | tasklite/backend/sqlite_backend.py:549-574 | the row of the job goes, the retried row is the first of the queue, or the last, and the others are the old queue read off in order at exactly the rows of other jobs; a collision changes nothing |
| SqliteBackend.SqliteStateBackend.CommitJobFailures | tasklite/backend/sqlite_backend.py:576-600 | the batch as one transaction; a later entry of a uid wins |
| SqliteBackend.SqliteStateBackend.CommitSkip | tasklite/backend/sqlite_backend.py:539-547 | the queue row goes, no archive is touched |
| SqliteBackend.SqliteStateBackend.AppendFailed | tasklite/backend/sqlite_backend.py:602-612 | only the failure row is written |
| SqliteBackend.SqliteStateBackend.EnqueueJobs | tasklite/backend/sqlite_backend.py:616-655 | only new uids are inserted, at the chosen end and in order, and reported |
| SqliteBackend.SqliteStateBackend.DeleteQueueUids | tasklite/backend/sqlite_backend.py:659-671 | named rows go and the reply counts them |
| SqliteBackend.SqliteStateBackend.DeleteFailed | tasklite/backend/sqlite_backend.py:673-685 | named failure rows go with their payloads and the reply counts them |
| SqliteBackend.SqliteStateBackend.SeedSuccesses | tasklite/backend/sqlite_backend.py:701-735 | all seeded or none |
| SqliteBackend.SqliteStateBackend.UpdateAttempt | tasklite/backend/sqlite_backend.py:777-817 | a running attempt is finished once; anything else is refused and changes nothing |
| SqliteBackend.SqliteStateBackend.Execute | tasklite/backend/sqlite_backend.py:309-817 | every call has the effect and reply the shared contract gives it |
| Bisimulation.Bisimulate | tasklite/backend/sqlite_backend.py:225-817 | for every sequence of calls the two backends give the same replies and the same tables, with positions strictly increasing along the shared order |
| Mirror.SuccessMirrors | tasklite/engine/store.py:484-554 | every exit of a success commit leaves memory mirroring the disk |
| Mirror.StrikeMirrors | tasklite/engine/store.py:785-839 | so does every exit of the strike handler: archived and terminated, or put back and crashing |
| Mirror.FailureMirrors | tasklite/engine/store.py:556-591 | so does a permanent failure |
| Mirror.RetryMirrors | tasklite/engine/store.py:614-639 | so does a retry |
| Mirror.SkipMirrors | tasklite/engine/store.py:641-661 | a skip mirrors if and only if, when its commit fails, the row is put back or was still queued |
| Mirror.SkipDuplicates | tasklite/engine/store.py:916-931 | after a failed skip the memory queue lists the job twice exactly when it was still queued and its row is put back |
| Mirror.SpawnedAreNew | tasklite/engine/store.py:484-554 | a committed success spawns only uids that are new to both queues |
| Mirror.BatchMirrors | tasklite/engine/store.py:681-721 | a failed batch keeps the mirror, whether it commits, ends by strikes or crashes part-way |
| Mirror.SweepMirrors | tasklite/engine/store.py:851-914 | striking the uids of a batch one by one keeps disk and kept rows in agreement |
| Store.StateStore.ApplySuccess | tasklite/engine/store.py:484-554 | disk first, then memory: the exact world after each of the three exits, mirrored |
| Store.StateStore.ApplyFailure | tasklite/engine/store.py:556-591 | archive and exact cascade, or the strike handler; mirrored, except exactly when a job without a disk row is put back into memory |
| Store.StateStore.ApplyRetry | tasklite/engine/store.py:614-639 | the exact world after each exit, mirrored |
| Store.StateStore.ApplySkip | tasklite/engine/store.py:641-661 | the exact world after each exit, and precisely when it is mirrored |
| Store.StateStore.ApplyBulkFailure | tasklite/engine/store.py:663-721 | excluded jobs are left out of the batch; the exact world after each exit, mirrored, for queued jobs and for jobs no queue knows |
| Store.StateStore.CascadeFail | tasklite/engine/store.py:723-770 | exactly the open downstream jobs, each once, are failed as one batch |
| Store.StateStore.HandleCommitFailureStrike | tasklite/engine/store.py:785-839 | one more strike, then archive and terminate at the threshold, else requeue at the head and crash |
| Store.StateStore.HandleBulkFailureStrike | tasklite/engine/store.py:851-882 | the strike sweep over the whole batch, and whether any job stayed |
| Store.CascadeLeavesNoOrphan | tasklite/engine/store.py:723-770 | after a committed cascade every remaining dependant of a failed or cascaded job is excluded or has a terminal record |
| Store.DownstreamIsQueued | tasklite/models/state.py:159-184 | a cascade names queued, not excluded jobs only |
| Recovery.MergedUids | tasklite/engine/recovery.py:262-284 | the merge holds exactly the union of disk and memory uids, each once |
| Recovery.MergedRows | tasklite/engine/recovery.py:262-284 | disk-only rows are kept as they are, and for every other uid memory's first row counts |
| Recovery.MergeIdempotent | tasklite/engine/recovery.py:242-292 | merging the same memory again changes nothing |
| Recovery.EnqueueSurvivesMerge | tasklite/engine/recovery.py:242-261 | an enqueue committed before or after the merge survives, and both orders queue the same jobs |
| Recovery.MergeRevivesNothing | tasklite/engine/recovery.py:242-261 | under the mirror the merge queues no uid the disk had not queued, so no finished job comes back |
| Recovery.RepairUids | tasklite/engine/recovery.py:122-185 | repair keeps every uid of snapshot and re-read disk, once, with the disk order first |
| Recovery.RepairRebuilds | tasklite/engine/recovery.py:122-185 | reloading a stored queue gives that queue |
| Recovery.RestartMirrors | tasklite/engine/recovery.py:99-185 | save and reload after any mirrored crash: mirrored again, nothing in flight, memory is the disk queue |
| Recovery.StrikesSurviveRestarts | tasklite/engine/store.py:774-783 | after n crashing runs the reloaded row carries n more strikes and is below the threshold |
| Recovery.ArchivedAtThreshold | tasklite/engine/store.py:806-839 | the failing commit that reaches the threshold, and no earlier one, archives the job |
| Recovery.CrashRunCounts | tasklite/engine/recovery.py:242-292 | one crashing run, saved and reloaded, adds exactly one strike |
| Recovery.Merge | tasklite/engine/recovery.py:262-284 | the loops compute the merge: disk-only rows first, both orders kept |
| Recovery.RepairQueueOnLoad | tasklite/engine/recovery.py:144-185 | the loops compute the repaired queue |
| Recovery.ConvergeTerminalOverlap | tasklite/engine/recovery.py:187-213 | exactly the successes that are also failed are dropped |
| Recovery.LoadAndRepair | tasklite/engine/recovery.py:99-120 | the disk loses only overlapping successes, and memory is the loaded image of what is left |
| Recovery.SaveQueueCrashSafe | tasklite/engine/recovery.py:242-292 | one atomic merge into the disk queue, or nothing |
| Lifecycle.EveryRunMirrors | tasklite/engine/store.py:484-770 | over every run of pops, launches, settlements, batches, skips, rejected spawned jobs, foreign enqueues, crashes, restarts, and settlements torn between disk and memory: equal records and cursors, and disk queue = memory queue + in flight + foreign + popped, pairwise apart |
| Lifecycle.NoJobIsLost | tasklite/engine/recovery.py:242-292 | over every such run a job queued on disk stays queued, or is archived as success or failure, or was skipped; archived stays archived |
| Lifecycle.StepIsSound | tasklite/engine/dispatch.py:178-289 | every single step keeps the invariant |
| Lifecycle.SettleMirrors | tasklite/engine/completion.py:124-192 | settling a popped or in-flight job ends mirrored and out of flight, and duplicates nothing |
| Lifecycle.RestartIsSound | tasklite/engine/recovery.py:99-120 | a restart with or without a save is sound from every reachable state |
| Lifecycle.ForeignIsSound | tasklite/engine/store.py:298-323 | an enqueue that bypasses memory keeps the invariant |
| Completion.BudgetIsExact | tasklite/engine/completion.py:196-249 | archived exactly when more than the allowed business retries were asked for, however many transient ones came between |
| Completion.CollectSpawned | tasklite/engine/completion.py:311-348 | first spawns of uids that are neither queued nor in flight, in order |
| Completion.OnlyForeignCollides | tasklite/engine/completion.py:311-348 | after that filter a success commit can be refused over its spawns only because another process enqueued one of them |
| Completion.CompletionMachine.CompleteJob | tasklite/engine/completion.py:67-116 | each result has exactly the effect of its transactional exit, an exception before the commit has none, and one after it changes only the report |
| Completion.CompletionMachine.SettleOne | tasklite/engine/completion.py:414-421 | whatever happens, the job is out of flight and forgotten, memory mirrors the disk, and only an uncommitted row is put back |
| Completion.CompletionMachine.RequeueUncommitted | tasklite/engine/completion.py:463-468 | only a job still in flight is put back |
| Completion.CompletionMachine.SettleReaped | tasklite/engine/completion.py:396-424 | every job still tracked at its turn is settled as it should be out of the world its predecessor left, although others fail, before or after their commits; any other entry is passed over; those that went well are counted, and the failure flag is raised exactly if one did not |
| Encoding.Utf8RoundTrip | tasklite/utils/encoding.py:84-103 | the byte sequence of section 3 of RFC 3629 has the width its lead byte says and reads back |
| Encoding.ReadTriplet | tasklite/utils/encoding.py:84-103 | an uppercase triplet of section 2.1 of RFC 3986 reads back as its byte |
| Encoding.PercentEncode | tasklite/utils/encoding.py:65-103 | with an allowlist the output holds allowed characters and escapes only, with a forbidden set no forbidden or unprintable character outside an escape, an empty set meaning slash, backslash, colon and percent sign; a text of kept characters without the escape character comes out as it is |
| Encoding.DecodeEncode | tasklite/utils/encoding.py:65-103 | one decoder undoes the encoding for every choice of kept characters |
| Encoding.EncodeInjective | tasklite/utils/encoding.py:65-103 | hence the encoding is injective |
| Encoding.PrefixCode | tasklite/utils/encoding.py:65-103 | the encoding of a starts that of b if and only if a starts b |
| Encoding.EncodeWellEscaped | tasklite/utils/encoding.py:9-11 | every escape character of an output starts a triplet |
| Encoding.TrimLeavesWholeEscapes | tasklite/utils/encoding.py:153-157 | trimming a cut encoding leaves whole escapes, and as much of the cut as that allows |
| Encoding.IdentifierFits | tasklite/utils/encoding.py:143-158 | an identifier is non-empty and within the limit; none is given exactly when shortening is needed and the limit is below 18 |
| Encoding.ShortenedShape | tasklite/utils/encoding.py:146-158 | a shortened identifier is the longest prefix with whole escapes that leaves room for them, then the marker and the digest, and no well-formed encoding |
| Encoding.DomainsAreDisjoint | tasklite/utils/encoding.py:116-124 | sentinel, passed-through and shortened identifiers never meet |
| Encoding.CollisionsAreDigestCollisions | tasklite/utils/encoding.py:119-124 | two texts share an identifier if and only if both are shortened, to the same head with the same digest |
| Encoding.ContentIdIsIdentifier | tasklite/utils/encoding.py:170-190 | the fast path of the content id changes nothing |
| Encoding.EncodeJobUidFilename | tasklite/utils/encoding.py:240-248 | the successive replacements are one pass of percent encoding |
| Encoding.ReplaceStep | tasklite/utils/encoding.py:246-247 | a replacement hits its own character and none of an earlier escape |
| Encoding.FilenameIsSafe | tasklite/utils/encoding.py:52-62 | file names hold none of the characters a path or a pattern could be made of, decode back, and a name without them comes out as it is |
| Discovery.NamespaceInjective | tasklite/wrappers/discovery.py:271-288 | different (key, id) pairs never give the same namespaced id |
| Discovery.PrefixesDoNotNest | tasklite/wrappers/discovery.py:271-288 | a group prefix starts a namespaced id only if it is that id's group |
| Discovery.OwnIdsAccepted | tasklite/wrappers/discovery.py:188-200 | the filter accepts every id of its own group, shortened or not |
| Discovery.ForeignIdsRejected | tasklite/wrappers/discovery.py:188-200 | and rejects every unshortened id of another group |
| Discovery.DiscoveryHandler.CollectPageEntries | tasklite/wrappers/discovery.py:316-358 | the ids of the usable items in order, whether all were usable, and, in a full scan, the ids seen |
| Discovery.DiscoveryHandler.ScanPages | tasklite/wrappers/discovery.py:373-437 | where the scan stops; in a full scan the ids seen are those of all pages read, and it is complete if and only if it ended at an empty page with every item usable |
| Discovery.DiscoveryHandler.ReportMissing | tasklite/wrappers/discovery.py:463-498 | exactly the archived ids of the group that were not seen |
| Discovery.DiscoveryHandler.Run | tasklite/wrappers/discovery.py:502-513 | nothing is reported unless the scan was full and complete; then exactly the archived ids of the group that no page produced |
| Discovery.ArchivedItemIsReported | tasklite/wrappers/discovery.py:463-498 | an item the group archived earlier is reported exactly when no page produced its id |
| Resources.MergeMeans | tasklite/engine/resource.py:449-467 | the declared amount wins, else the default |
| Resources.MergeIdempotent | tasklite/engine/admission.py:81-104 | normalising a job's resources beforehand changes neither effective amounts nor their order |
| Resources.EvaluateMeans | tasklite/engine/resource.py:469-507 | available means every item is; a hopeless item is reported; a wait is the longest of the waits |
| Resources.ReleaseIsExact | tasklite/engine/resource.py:549-569 | releasing what is held takes exactly that off, with nothing clamped and no overrun counted |
| Resources.RefusalRestores | tasklite/engine/resource.py:545-547 | a refused reservation leaves every resource exactly as it was |
| Resources.GrantAddsAcquired | tasklite/engine/resource.py:509-544 | a granted one adds exactly the acquired amounts |
| Leases.GrantFitsIff | tasklite/engine/resource.py:272-284 | reservation by itself overcommits exactly when the amounts do not fit |
| Leases.DispatchKeeps | tasklite/engine/dispatch.py:155-176 | scan, signals, then reserve: use stays the sum of the leases and within capacity |
| Leases.RunKeepsCapacity | tasklite/engine/dispatch.py:399-467 | over every run of dispatching, claiming, releasing and suspending: use is the sum of unreleased leases and never exceeds a capacity |
| Leases.AllReleasedMeansFree | tasklite/engine/in_flight.py:179-185 | with every lease released nothing is in use |
| Spacing.ClaimsKeepDistance | tasklite/engine/resource.py:197-216 | for one limit, and claims that passed their checks: two are at least the interval times everything claimed from the first on apart, the later one not counted, whatever suspensions come between |
| Spacing.AdjacentClaimsKeepDistance | tasklite/engine/resource.py:203-208 | in particular consecutive claims are at least the interval times the earlier amount apart |
| Manager.ResourceManager.EvaluateJob | tasklite/engine/resource.py:469-507 | the loop computes the evaluation of the effective resources |
| Manager.ResourceManager.ReserveJob | tasklite/engine/resource.py:509-547 | the loop with its roll-back computes the reservation; a lease is handed out exactly when it is granted |
| Manager.ResourceManager.ReleaseAllOf | tasklite/engine/resource.py:549-569 | unknown resources and refused amounts are passed over, the others released in order |
| Manager.ResourceManager.NormalisingKeepsEffective | tasklite/engine/admission.py:81-104 | effective resources of normalised resources are the effective resources |
| Manager.ResourceLease.ClaimIt | tasklite/engine/resource.py:351-362 | rate limits move on once, only out of the reserved state |
| Manager.ResourceLease.ReleaseIt | tasklite/engine/resource.py:364-372 | the acquired amounts go back once |
| Manager.InFlightJob.ReleaseResources | tasklite/engine/in_flight.py:73-81 | list emptied and lease released, without effect when done already |
| Manager.InFlightJob.ReleaseOnAbort | tasklite/engine/recovery.py:321-342 | the abort path's second release changes nothing |
| Disk.RefusalChangesNothing | tasklite/backend/sqlite_backend.py:375-817 | a call that reports refusal leaves every table as it was |
| Governor.DeadlockGovernor.ExplainedIsNotRetried | tasklite/engine/governor.py:416-505 | with an explained cause there is no gap retry: a window is waited out or jobs are condemned |
| Governor.DeadlockGovernor.Reset | tasklite/engine/governor.py:119-123 | no grace episode and no gap streak survive |
| Skips.SelectionMachine.ResetRun | tasklite/engine/selection.py:74-76 | no remembered skips survive into the next run |
| Scheduler.JobScheduler.BeginRound | tasklite/engine/scheduler.py:185-195 | the job cache is empty afterwards |
| Manager.ResourceManager.SuspendResource | tasklite/engine/resource.py:571-578 | a known resource is suspended, an unknown one is reported and nothing changes |
| MemoryBackend.InMemoryStateBackend.SaveQueue | tasklite/backend/memory.py:93-95 | the queue becomes the first rows of the given one |
| MemoryBackend.InMemoryStateBackend.CommitSkip | tasklite/backend/memory.py:285-288 | every row of the uid leaves the queue and nothing else changes |
| MemoryBackend.InMemoryStateBackend.AppendFailed | tasklite/backend/memory.py:290-294 | the failure row is written; queue and successes stay |
| MemoryBackend.InMemoryStateBackend.DeleteQueueUids | tasklite/backend/memory.py:321-330 | exactly the named rows go, and their number is reported |
| MemoryBackend.InMemoryStateBackend.DeleteFailed | tasklite/backend/memory.py:332-341 | exactly the named failure rows go with their payloads, and their number is reported |
| MemoryBackend.InMemoryStateBackend.DeleteSuccesses | tasklite/backend/memory.py:343-351 | exactly the named success rows go, and their number is reported |
| MemoryBackend.InMemoryStateBackend.SeedCursor | tasklite/backend/memory.py:373-387 | one cursor is set, the others stay |
| MemoryBackend.InMemoryStateBackend.AppendAttempt | tasklite/backend/memory.py:389-396 | a new row under the next id, which is reported |
| SqliteBackend.SqliteStateBackend.DeleteSuccesses | tasklite/backend/sqlite_backend.py:687-699 | exactly the named success rows go, and their number is reported |
| SqliteBackend.SqliteStateBackend.SeedCursor | tasklite/backend/sqlite_backend.py:737-753 | one cursor is set, the others stay |
| SqliteBackend.SqliteStateBackend.AppendAttempt | tasklite/backend/sqlite_backend.py:755-775 | a new row under the next id, which is reported |
| Recovery.LoadMirrors | tasklite/engine/recovery.py:99-120 | what a load builds from a well-formed disk mirrors it, with the same queue |
| Dispatch.DispatchMachine.DispatchJob | tasklite/engine/dispatch.py:178-289 | which check failed decides: a failed dependency or an unknown task archives the job with its cascade, an undue first activation is skipped and counts as met, an unopened attempt puts the row back at the head and the exception goes on, an orphan puts it back at the asked end with nothing else changed; if none failed, the reservation, the start, the claim and an interrupt decide in this order; a job that is not launched leaves every resource use as it was, and memory mirrors the disk |
| Dispatch.DispatchMachine.SpawnEntry | tasklite/engine/dispatch.py:399-467 | the same from the reservation on; a rate limit that closed since the scan puts the job back and raises nothing |
| Dispatch.DispatchMachine.TryLaunch | tasklite/engine/dispatch.py:416-447 | reserve, start, claim as one move: the exact pool in every case; only a launch that gets through all three keeps its lease, any other leaves every use as it was |
| Dispatch.DispatchMachine.TurnAway | tasklite/engine/dispatch.py:191-260 | each failing check and its fate: settled for good, back at the head with the exception, or back at the asked end |
| Dispatch.DispatchMachine.HandleDispatchFailure | tasklite/engine/dispatch.py:571-605 | archived at exactly the threshold of dispatch failures, else back at the head of memory and the exception goes on |
| Dispatch.DispatchMachine.Reject | tasklite/engine/dispatch.py:501-532 | archived, out of queue and flight, with its cascade; or one strike if that cannot be committed |
| Dispatch.ArchivedStaysOut | tasklite/engine/store.py:723-770 | a cascade that fails, wholly or in part, brings nothing back and un-archives nothing |
| Dispatch.LaunchFits | tasklite/engine/dispatch.py:155-176 | a launch after a scan that found its resources available overcommits nothing, whatever signals were applied in between |
| Dispatch.FailedClaimRestores | tasklite/engine/resource.py:378-383 | a reservation given back restores the pool exactly, and every use even when its claim failed part-way |
| Governor.DeadlockGovernor.Govern | tasklite/engine/runtime.py:365-390 | the governor over a run loop of arbitrations, dispatches and new runs, up to the first crash: the counts follow its calls, no more than one less than the maximum of gap retries come in a row, and its grace episode is the one `GraceWindow` computes for the polls, dispatches and new runs those calls amount to, its grace waits being exactly the polls that run answers with waiting; and each arbitration decides as it should out of the world, the count and the episode its predecessors left, the other calls touching neither side |
| Governor.DeadlockGovernor.Serve | tasklite/engine/runtime.py:466-476 | each single call counts one more gap, below the maximum, or ends the streak, and moves the grace episode by the one event it amounts to; an arbitration decides as it should on the state it finds |
| Governor.DeadlockGovernor.BlamingCounts | tasklite/engine/governor.py:416-505 | carrying out a blame either is a gap retry that counts, or ends the streak |
| GraceWindow.FreshNeverInherits | tasklite/engine/governor.py:178-232 | a run in which no poll finds a stale episode inherits no deadline |
| GraceWindow.AskedOftenIsFair | tasklite/engine/governor.py:107-117 | a governor that is asked at least once per window while nothing is dispatched never condemns a missing set, a spawner given, before a whole uninterrupted window of waiting for that very set |
| Spacing.MoveIsTick | tasklite/engine/resource.py:509-547 | one launch, signal or release moves a limit by one tick, and what it claims passed its check in the state it found |
| Spacing.RunIsChecked | tasklite/engine/dispatch.py:416-447 | so the claims of every run of launches, signals and releases are checked claims |
| Spacing.LaunchClaims | tasklite/engine/resource.py:351-362 | a job that is launched claims of a limit exactly what it asked for, at the moment of its claim |
| Spacing.LaunchesKeepDistance | tasklite/engine/resource.py:197-216 | over every such run: from one claim of a limit to a later one pass at least the interval times all that was claimed from the first on, the later one not counted |
| Spacing.LaunchedJobsKeepDistance | tasklite/engine/resource.py:203-216 | two launched jobs that ask for the same limit claim at least the interval times the first amount apart, whatever happened in between |
| Skips.SeedsDecide | tasklite/engine/selection.py:81-84 | after any prefix of the removals a fresh run condemns exactly the rest, if and only if it still condemns every remaining seed |
| Discovery.ForeignShortenedPasses | tasklite/wrappers/discovery.py:188-200 | and accepts a shortened id of another group if and only if what was kept of it starts the group prefix |
| Recovery.RestartLoads | tasklite/engine/recovery.py:242-292 | save and reload leave memory mirroring a well-formed disk whatever memory held before, with the union of both queues |
| Lifecycle.TornIsSound | tasklite/engine/recovery.py:242-292 | an exception between a commit and its memory update, then save and restart: the invariant holds again |
| Lifecycle.TornRunsAgain | tasklite/engine/recovery.py:242-292 | after it the job is queued again if and only if it was put back and saved, or its settlement left it queued, so even a finished job may run again; no record is lost |
| Completion.CompletionMachine.SettleAborted | tasklite/engine/completion.py:426-461 | cancelled jobs go back to the head of the queue one after the other, then finished ones are settled in turn; with all of them named nothing stays in flight; cleanup and settlement failures are only remembered |
| Completion.CompletionMachine.Cancel | tasklite/engine/completion.py:441-449 | a cancelled job leaves the flight and its untouched row is at the head of memory |
| Mirror.UnqueuedArchives | tasklite/engine/store.py:556-591 | the failure of a job without a disk row is archived on both sides |
| Mirror.UnqueuedStrike | tasklite/engine/store.py:785-839 | if it cannot be committed, memory leads the disk unless the strike archives the job |
| Scheduler.JobScheduler.TwinMasks | tasklite/engine/scheduler.py:197-251 | a malformed row with the key and scheduling fields of a remembered well-formed one is answered for by it |
| Governor.FruitlessLeavesNoGap | tasklite/engine/governor.py:457-501 | from what the arbiter knows after a complete fruitless scan of the same state, with a selection or without, its course never blames a gap |
| Governor.DeadlockGovernor.ScanAndArbitrate | tasklite/engine/runtime.py:365-390 | a complete scan and then the arbiter on the same state: if the scan finds nothing to dispatch the answer is never a gap retry, and when resolved the queue is shorter or the run ends |
| Governor.CondemnsAfterFullWindow | tasklite/engine/governor.py:107-117 | in a run loop that asks at least once per window while nothing is dispatched, a missing set with a spawner given is condemned only after a whole uninterrupted window in which every poll was answered with waiting for that very set |
| SqliteBackend.SqliteStateBackend.SwapQueueRows | tasklite/backend/sqlite_backend.py:434-465 | the finished job's row leaves and the spawned rows join the head in order, or, if one of them collides, the queue is as it was |
| Recovery.MergedOrder | tasklite/engine/recovery.py:262-284 | the merged queue is the disk read from front to back at exactly the rows memory does not have, then memory read from front to back at exactly the first row of every uid |
| Lifecycle.RejectMirrors | tasklite/engine/completion.py:350-371 | failing a job that memory neither queues nor runs ends mirrored, unless it is neither archived nor on disk |
| Lifecycle.RejectedIsKept | tasklite/engine/completion.py:350-371 | a rejected job ends archived and off the queue; if neither commit succeeds it is queued in the next run if and only if the disk had it or the queue was saved |
| Contract.ApplyDoes | tasklite/backend/sqlite_backend.py:309-817 | every call, whatever the state: at which end and in which order rows join, which rows go, what each table, cursor and attempt row holds afterwards, and the reply, stated row by row and key by key |
| Contract.AcceptedMeans | tasklite/backend/sqlite_backend.py:400-465 | a success is accepted if and only if it names a running attempt of its job and execution and its spawned uids are new to the queue and named once |
| Contract.AcceptedSucceeds | tasklite/backend/sqlite_backend.py:400-479 | the spawned rows head the queue in order, the finished job's row is gone, its only record is the success, the attempt is finished with its time, and every cursor named has its new value or none |
| Contract.RetryDoes | tasklite/backend/memory.py:235-263 | the retried row is the first, or the last; the others are the old queue read off at exactly the rows of other jobs |
| Contract.EnqueueDoes | tasklite/backend/sqlite_backend.py:616-657 | exactly the first row of every new uid joins, in order, at the asked end; the reply names them in order |
| Contract.FailAllRecords | tasklite/backend/sqlite_backend.py:576-600 | a uid that a batch names has the metadata of its last entry, any other uid what it had |
| Contract.RecordDoes | tasklite/backend/sqlite_backend.py:755-817 | an attempt opens as running under the next id, and only a running one is finished, with outcome, time and error |
| Scheduler.StatusMeans | tasklite/engine/scheduler.py:331-354 | what counts as still to run, failed, met and nowhere, from queue, flight and records |
| Scheduler.FirstBrokenIsFirst | tasklite/engine/scheduler.py:331-347 | the reported dependency is the first one that failed |
| Scheduler.JudgeMeans | tasklite/engine/scheduler.py:303-391 | each verdict, if and only if: the row parses, a rule names it, a dependency failed, one is nowhere, one is still to run, or all are met and the resources answered so |
| Scheduler.ScanMeans | tasklite/engine/scheduler.py:261-442 | choice and report of a scan in these terms alone |
| Governor.CausesMean | tasklite/engine/governor.py:421-501 | a gap is blamed exactly if no list names anybody and no cycle explains a wait |
| Governor.BatchIsBlamed | tasklite/engine/governor.py:421-501 | the batch holds exactly the queued ones of those blamed, all under the record of their list |
| Governor.SplitReadsOff | tasklite/engine/governor.py:278-294 | the batch is the queue read off, from front to back, at exactly the rows of the target |
| Governor.BulkRecords | tasklite/engine/store.py:663-721 | a committed bulk failure writes the batch's record, normalised, for each job that the selection does not exclude |
| Governor.CondemnedCarries | tasklite/engine/governor.py:503-559 | those blamed are archived under their record, and the others stay queued and unarchived |
| Governor.FallbackCarries | tasklite/engine/governor.py:507-550 | the fallback archives exactly the stuck jobs that no rule keeps back, as a gap; with nobody stuck it touches nothing and ends the run |
| Governor.DeadlockGovernor.BlameIsDue | tasklite/engine/governor.py:324-399 | blaming is due exactly when nothing is to wait for, or the wait is a cycle, unless exclusions hold everything back |
| Governor.DeadlockGovernor.BlamingIsRight | tasklite/engine/governor.py:416-505 | who is blamed and when, from the lists, the cycle, the grace answer and the count of rounds alone |
| Store.ExcludedMeans | tasklite/engine/store.py:170-187 | a queued job is left out exactly if it parses and a rule names its task type |
| Store.NotInReadsOff | tasklite/engine/store.py:669-680 | the batch without the excluded jobs keeps its order |
| Fates.PlacedMeans | tasklite/engine/dispatch.py:293-379 | where a popped job is afterwards in both queues, in the records and in flight, without the exits of the store |
| Fates.TurnedDownMeans | tasklite/engine/dispatch.py:501-532 | a rejected job is archived on both sides and then cascaded, or has one more strike |
| Dispatch.DispatchMachine.TurnAwayDue | tasklite/engine/dispatch.py:205-260 | a due job is turned away at the head with the exception, for good, or back at the asked end, by the first of the checks that fails |
| Memory.SpawnMeans | tasklite/models/state.py:89-98 | the rows join at the asked end in their order and count no longer as skipped; nothing else changes |
| Memory.ReadyMeans | tasklite/models/state.py:316-322 | a dependency is met exactly if nothing of it is queued or in flight and it succeeded or counts as skipped |
| Memory.CursorsMean | tasklite/models/state.py:265-273 | a value overwrites, no value deletes, any other cursor stays |
| Memory.SuccessMeans | tasklite/engine/store.py:484-554 | all of a success on both sides: rows at the head, records, cursors, flight; or a strike |
| Memory.FailureMeans | tasklite/engine/store.py:556-591 | archived on both sides and out of flight |
| Memory.RetryMeans | tasklite/engine/store.py:614-639 | the row at the asked end of both queues, unless another job has its uid or the commit fails: then a strike |
| Memory.SkipMeans | tasklite/engine/store.py:641-661 | off both queues without a record; or back at the head of memory, the disk as it was |
| Memory.StrikeMeans | tasklite/engine/store.py:785-839 | one more strike, and archived at exactly the threshold |
| Memory.BumpMeans | tasklite/engine/store.py:851-882 | the first row of the job has one more strike, every other row is as it was |
| Memory.SweepOneMeansStrike | tasklite/engine/store.py:884-914 | archived with its row's payload at exactly the threshold, otherwise still queued with its strike |
| Memory.BatchFailedMeans | tasklite/engine/store.py:663-721 | a committed batch: exactly the named jobs leave the queue, and each has the record of its last entry |
| Encoding.EncodeMeans | tasklite/utils/encoding.py:65-103 | what the output holds for either charset form, without the function that decides what is kept |
| Encoding.EncodeSpells | tasklite/utils/encoding.py:65-103 | the output spells the text: each character as itself or as the triplets of its bytes, and as itself exactly if it is kept |
| Encoding.KeptStays | tasklite/utils/encoding.py:65-103 | a text of kept characters without the escape character comes out as it is |
| Encoding.CleanSpells | tasklite/utils/encoding.py:170-190 | content ids spell their text in letters, digits, hyphen, underscore, dot and escapes |
| Encoding.Utf8IsWellFormed | tasklite/utils/encoding.py:84-103 | the widths and byte ranges of section 4 of RFC 3629 |
| Resources.CapacityAnswers | tasklite/engine/resource.py:257-270 | a capacity answers never, yes, or the wait that remains of its suspension |
| Resources.SuspensionHolds | tasklite/engine/resource.py:101-160 | a suspended resource is not to be had until its deadline, a day away at most, and from then on the suspension has changed no answer |
| Resources.AcquireMeans | tasklite/engine/resource.py:203-284 | what an acquisition accepts and leaves |
| Resources.ReleaseMeans | tasklite/engine/resource.py:286-299 | a release takes back exactly what was given; more than that leaves nothing in use and is counted |
| Resources.FirstHopelessDecides | tasklite/engine/resource.py:469-507 | the first item no wait can help decides between unknown and impossible |
| Resources.ReserveDecides | tasklite/engine/resource.py:509-547 | granted if and only if every item passes, otherwise refused for the first that does not |
| Resources.GrantSplits | tasklite/engine/resource.py:509-547 | a grant holds exactly the capacities among the items, in order, and claims exactly the rate limits |
| Leases.SignalsShut | tasklite/engine/resource.py:52-76 | after the signals every signalled resource is shut until each of their deadlines, the others are as they were |
| Leases.DispatchTakes | tasklite/engine/dispatch.py:399-447 | one reserved lease more, and exactly what it holds on the capacities, if the scan found the resources available and every item passes; otherwise neither leases nor use change |
| Leases.ClaimMarks | tasklite/engine/resource.py:351-362 | a lease is claimed if every rate limit of it accepts its amount |
| Leases.ReleaseFrees | tasklite/engine/resource.py:364-372 | the lease is released, and exactly what it held comes off each capacity |
| Manager.ResourceManager.EffectiveMeans | tasklite/engine/resource.py:449-467 | a declared amount counts, a default counts for what is not declared |
| Completion.KnownCounts | tasklite/engine/completion.py:396-424 | what the failure flag is measured against is the number of tracked jobs among those reaped |
| Completion.RetryRowMeans | tasklite/engine/completion.py:252-276 | the retried row is the row with the next attempt number, which a transient retry does not raise |
| GraceWindow.WaitsUnlessDue | tasklite/engine/governor.py:178-232 | a poll with a spawner is answered with waiting unless the deadline of this very set has come, at most a window ago |
| GraceWindow.DeadlineStands | tasklite/engine/governor.py:148-176 | a first wait is given a whole window; while it lasts its deadline stands |
| GraceWindow.ProgressEnds | tasklite/engine/governor.py:135-146 | a dispatch ends a live episode, and only a live one |
| Standstill.RulesDecide | tasklite/selection.py:72-116 | a skip outranks an exclusion, and a task type runs exactly if no rule names it |
| Standstill.DeferredMeans | tasklite/engine/selection.py:180-189 | deferred are exactly the parseable jobs that a rule names |
| Standstill.HeldMeans | tasklite/engine/selection.py:215-231 | a job is held by a deferred one exactly if a chain of allowed jobs leads from it there |
| Skips.SeedsMean | tasklite/engine/selection.py:106-111 | a seed is named by a skip rule or depends on a job already skipped |
| Skips.AuditMeans | tasklite/engine/selection.py:132-150 | a removal is put down to its own rule, or else to a seed it transitively depends on |
| Discovery.PageIdsMean | tasklite/wrappers/discovery.py:316-358 | a page gives the namespaced ids of its usable items, in their order |
| Recovery.LoadMeans | tasklite/engine/recovery.py:99-120 | a load takes the stored order, each uid once, and drops the successes of failed jobs |
| Recovery.RepairOrder | tasklite/engine/recovery.py:122-185 | first the re-read rows in order, each uid once, then the snapshot's rows of the uids the re-read lost |
| Lifecycle.ReturnsMean | tasklite/engine/completion.py:426-461 | a job that comes back into memory has its row at the asked end, the disk is as it was |

## Left out

- Processes, pipes, signals, file locks and the watchdog: a reaped or aborted worker is an outcome given from outside.
- SQL text, WAL, schema checks and connections: a transaction is one step that happens or, on a fault, does not; two processes interleave between transactions only.
- Contents of metadata and timestamps: disk and memory copies of failure metadata differ by normalisation, so key sets are compared.
- Finalising attempt rows on the failure, retry and skip paths, which is done beside the transaction and may fail silently; opening and finishing rows is in the contract of the backends, and success finalisation in the commit.
- Statistics, hooks, logging, engine metadata (including persisted suspensions) and artifact deletion.
- Cascade order and the order of cycle listings: sets are iterated in any order.
- Skips.SelectionMachine.ApplySkips: the attempt rows it writes are returned as the audit list instead.
- MemoryBackend.InMemoryStateBackend.CommitSkip: has no failing path in the program and none here; faults are modelled for the SQLite backend, which is the one the store uses here.
- Completion.CompletionMachine.SettleAborted: the release of the leases of cancelled entries is left out like that of settled ones.
- Completion.CompletionMachine.SettleOne: the release of the lease, which is `Manager.InFlightJob.ReleaseResources`, is not repeated here.
- Spacing.LaunchesKeepDistance: a claim is not earlier than its check, and effective resources name each resource once; nothing else is asked of clock or jobs.
- Store.StateStore.ApplyBulkFailure: the batch names no job that is in flight or that another process enqueued since the load; the arbiter, its only caller, names queued jobs.
- Discovery: ids written without any group key are outside the namespaces.
- Lifecycle.EveryRunMirrors: a torn settlement, and a rejected job that neither commit takes, end the run at once; settlements of other jobs in the same batch are taken before it. Memory ahead of the disk by such a job while others are still settled is left out. Cascades and arbitration appear as batches over queued jobs; which jobs they name is proved in `Store` and `Governor`.
- Leases.RunKeepsCapacity: resources are neither registered nor removed during the run.
- Manager.ResourceManager.ReserveJob: resource objects are values in the manager's map, so one resource object shared by two managers is not modelled.
- Scheduler.JobScheduler.ScanNextRunnable: the visit order is given; completeness results ask that it names every index. The resource answers are given per row as they are during the scan.
- GraceWindow.CondemnedAfterFullWindow: integer queue positions as missing identifiers, which the engine does not use, are left out.
- Governor.DeadlockGovernor.Arbitrate: the cycle listing is computed once and passed on, where the program may compute the same listing again.
- Encoding.CollisionsAreDigestCollisions: says nothing about how likely equal digests are; SHA-256 is a function to sixteen characters.
- Encoding.PercentEncode: lone surrogates, which make the program raise, are not characters here; which characters are printable is a parameter; values that are no strings are refused by types.
- Discovery.DiscoveryHandler.ScanPages: user callbacks on items are left out; an exception in one is caught by the program.
- Dispatch.DispatchMachine.DispatchJob: what each check finds is given from outside; of the attempt row it opens, only a failure to open it is modelled; the activation number and the dispatch-failure counter written into the row are not fields of it here, the counter's value being a parameter; an assertion failure during the launch, which leaves the popped row to the disk alone, is a crash of `Lifecycle`.
- Recovery.LoadAndRepair: a re-read or a deletion that fails, and an enqueue between the two reads, are left out of the method; `Recovery.RepairUids` covers every re-read.
- How triggers, payload schemas and orphan locks are evaluated, worker slots, the waiting decision, configuration checks, content fingerprints and the HTTP wrappers.
