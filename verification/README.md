# wayneblacktea, modelled and verified in Dafny

wayneblacktea is a Go server that keeps a personal getting-things-done store (tasks, projects, goals,
decisions, knowledge, memory atoms) in Postgres or SQLite and serves it to language-model clients. This
project models the parts of it whose correctness is not visible from reading one function, and proves
what they promise.

- **Deleting a project** (`ProjectTables`, `DeleteProject`, `DeleteProjectResults`, `TaskSetDigest`): one
  transaction over tables without foreign keys, with row locks, other connections committing between any
  two calls, and any call failing. A schedule (`nat -> Slot`) names what the others write and which call
  fails, so a statement about every schedule is one about every interleaving.
- **Beginning a task** (`BeginTask`, `BeginTaskOrchestration`): any number of concurrent callers and other
  writers as a step machine, plus the control flow of one caller, proved to be a run of that machine.
- **Traversing the atom graph** (`AtomGraph`, `Traverse`, `AtomPrune`): the capped breadth-first search.
- **Assembling a context pack** (`PackItems`, `Retrieval`, `TypeCaps`, `BudgetTrim`, `PackAssembler`):
  gather, deduplicate, score, cap per type, sort, trim.
- **Two small protocols** (`BotStart`, `CostRecorder`): start, timeout and stop of the chat bot; the
  bounded fire-and-forget cost ledger.
- **Table maintenance** (`CandidateTable`, `CandidateStores`, `CandidateResults`, `Reembed`,
  `ReembedResults`, `Paging`, `ListQueries`): the completion-candidate detectors in their two loop shapes,
  the embedding backfill, LIMIT/OFFSET paging.
- **Text kernels** (`BoundaryMarkers`, `Utf8`, `DraftCaps`): the boundary-marker printer and UTF-8-safe
  truncation (section 3 of RFC 3629).

`Ids`, `Whitespace`, `Ordering`, `Seqs` and `StableSort` are shared vocabulary. Code that changes things
step by step is a class or a method with loops, tied by its `ensures` to functions on values; what the
source promises is proved about those functions.

## What does not hold as stated, and exactly when it does

- **A late task is not always refused.** The delete compares digests when it locks and when it deletes the
  task rows. `DeleteProjectOrchestration` says for every schedule when it commits: exactly when the project
  is visible at the second call, the preview digest names the tasks of the third, and no other task is the
  project's at the call that deletes the rows (the 24th on Postgres, the 20th on SQLite). So a task that
  arrives is deleted with the others before the lock, refused up to that call, and after it, before the
  commit, is not noticed and keeps naming a deleted project (`ArrivalIsRefusedIff`). `WhoIsLeftBehind` gives
  the exact set of tasks left naming the project; alone on the store these are exactly the project's tasks
  of other workspaces (`AloneLeavesForeignTasks`).
- **A late reference stays.** Nothing looks at a reference table again after its cleanup. For every schedule
  and every row, `WhichReferencesStay` says when a reference to the project or to a deleted task survives:
  exactly when no prelock and no cleanup up to the one that clears it caught the row, and the row carries a
  reference at the end; a task reference can also be frozen by the project cleanup of its table. So whatever
  stays was written after its table was cleared (`StayingMeansLate`; one such run for every moment in
  `ReferenceStaysIff`), and on SQLite nothing stays (`SqliteLeavesNoReference`).
- **Three causes, not two, for a blocked guard.** The comment of `ResolveGuardBlocked` names a vanished row
  and a concurrent start; the SQL guard also refuses a blank assignee. The model follows the SQL. A Postgres
  store without a workspace compares with the all-zero id and so never starts anything
  (`UnscopedPostgresNeverStarts`).
- **SQLite can log a stale title and lose an answer.** The note carries the title read before the
  transaction (`SqliteMayLogStaleTitle`); it is the flipped row's title exactly when the title at that read
  is the title at the flip (`SqliteTitleIsFreshIff`). A committed start is answered with anything but
  "started" exactly when the read after the commit fails, does not get the connection or finds no visible row
  (`BeginTaskOrchestration`, by `Settled` and `Answered`); `SqliteCanLoseTheAnswer` is such a run.
- **`startReturned` can be closed twice.** If `bot.Stop` panics on the half-open-session branch, the deferred
  recover closes the closed channel and the process dies; `ClosedTwiceIff`, `ClosedAtMostOnce` and
  `HalfOpenStopPanicKills` say exactly when.
- **The two candidate stores part** when a query breaks after its first hit (`BrokenAgreesIff`), when a row
  was resolved in the very second of the prune cutoff, at or after it (`PruneAgreesIff`), and when a task was
  last updated between 1176 hours and a longer stale window (`DetectionsAgreeIff`, for whole detections).
- **The backfill loop need not end, or finish.** It ends if and only if fewer failing rows than the batch size
  are selected ahead of the first blank one (`EndsIff`). Every batch selects the rows it could not write
  again and moves on by what is left of its size (`RunIsFront`); an ended run has written every row it can
  exactly when all of those come before the place it stopped at, the first one past a blank row or the end
  (`EndWritesAllIff`, in closed form without failing rows in `BlankRunEnds`). One blank row in front of a
  batch of good ones leaves the last of them unwritten (`BlankRowEndsEarly`). A row with an embedding and a
  NULL provider is never selected (`EveryRowCarriesTargetIff`).
- **Paging.** With an offset it is safe exactly when no two different rows tie (`SafeIffNoTies`). The query by
  task orders by creation time alone and has no offset: which rows it returns is fixed exactly when the last
  one shown and the first one left out were created at different times (`TaskQueryIsDeterminedIff`).
- **Links without their target.** The documentation of `Traverse` speaks of the links that were followed. Every
  returned link leads to a returned atom if and only if at most fifty nodes are in reach and every linked one of
  them can be fetched. A caller can tell the first from the result: the nodes in reach are at most fifty exactly
  when the start and the targets of the returned links are (both in `Traverse`).
- **The prune and a link written meanwhile.** A link inserted between the two statements of the prune is left
  dangling if it touches an old atom, and only then (`PruneStaysClosedIff`).

## Model

| member | source | states |
|---|---|---|
| `TaskSetDigest.DigestIffPermutation` | internal/gtd/deleteproject_orchestration.go:238-248 | Two digests are equal exactly when the id lists are permutations of each other (SHA-256 as an injective tag) |
| `TaskSetDigest.DigestIffSameSet` | internal/gtd/deleteproject_orchestration.go:238-248 | For lists without repeats the digest identifies the set of ids |
| `TaskSetDigest.TaskSetDigest` | internal/gtd/deleteproject_orchestration.go:240-248 | The loop that formats, sorts and joins the ids computes that digest, which differs from "do not check" also for the empty set |
| `ProjectTables.CleanupsAreScrub` | internal/gtd/deleteproject_orchestration.go:187-199 | The thirteen ordered cleanups together do one simple thing to every row: drop it or clear its references |
| `ProjectTables.ScrubClearsAndKeeps` | internal/gtd/deleteproject_orchestration.go:63-98 | What is left refers neither to a deleted task nor to the project, and a row that referred to neither is unchanged |
| `DeleteProject.DeleteProjectAdapter.Call` | internal/gtd/deleteproject_orchestration.go:16-126 | Between two calls other connections commit exactly the writes of the schedule the row locks permit, none on SQLite inside the transaction; rows that are not locked stay as the others alone make them |
| `DeleteProject.DeleteProjectAdapter.BeginTx` | internal/gtd/store.go:1836-1847 | The transaction starts from the committed store and holds no lock |
| `DeleteProject.DeleteProjectAdapter.WorkspacePrecheck` | internal/gtd/store.go:1849-1873 | Answers whether the project is visible in the workspace |
| `DeleteProject.DeleteProjectAdapter.SelectTaskRows` | internal/gtd/store.go:1875-1890 | The SELECT ... FOR UPDATE itself: all tasks of the project as the others have left them by this call, locked in the same statement |
| `DeleteProject.DeleteProjectAdapter.LockTaskRows` | internal/gtd/store.go:1875-1905 | The ids returned are all tasks of the project at the first of its calls, without repeats, and stay locked; five calls on Postgres, one on SQLite |
| `DeleteProject.DeleteProjectAdapter.PrelockRefRows` | internal/gtd/store.go:1898-1905 | Locks exactly the rows of the shared reference tables that name a locked task or the project at that call, without changing what the transaction sees of unwritten rows |
| `DeleteProject.PrelockIsUnion` | internal/gtd/store.go:1779-1797 | What each of the four prelocks takes is the union of what the task and project cleanups of its table change |
| `DeleteProject.DeleteProjectAdapter.Cleanup` | internal/gtd/store.go:1907-1965 | One cleanup statement over the locked set; the locked tasks stay as they are, and every reference row is touched as this call of the schedule should touch it |
| `DeleteProject.DeleteProjectAdapter.SnapshotProjectAndTasks` | internal/gtd/store.go:1988-2034 | Of the other deletions' tombstones exactly those older than thirty days go, the rest stays as it was; the project row and every locked task are copied under one deletion id, author and time |
| `DeleteProject.DeleteProjectAdapter.SnapshotProject` | internal/gtd/store.go:1988-2034 | One tombstone for the project row as it is seen, none if it is not visible; nothing else changes |
| `DeleteProject.DeleteProjectAdapter.SnapshotTasks` | internal/gtd/store.go:1988-2034 | One tombstone for each locked task, holding the row as it was |
| `DeleteProject.DeleteProjectAdapter.DeleteTaskRows` | internal/gtd/store.go:2049-2057 | Removes exactly the tasks there now, the locked ones and whatever the others have added by this call, and returns their ids |
| `DeleteProject.DeleteProjectAdapter.DeleteProjectRow` | internal/gtd/store.go:2059-2061 | Removes the project row if it is visible, and nothing else |
| `DeleteProject.DeleteProjectAdapter.WriteDeletionAuditLog` | internal/gtd/store.go:2036-2047 | Adds the one audit row with the task count |
| `DeleteProject.DeleteProjectAdapter.Commit` | internal/gtd/store.go:2063-2068 | The committed store becomes the transaction's view; a failed commit publishes nothing |
| `DeleteProject.RunCleanups` | internal/gtd/deleteproject_orchestration.go:183-218 | Runs the cleanups in order, stopping at the first failure; rows nobody else wrote have been through exactly these statements |
| `DeleteProject.ExpectedRow` | internal/gtd/deleteproject_orchestration.go:183-218 | Snapshot, cleanups and deletes together give each row the state the summary `Expected` describes |
| `DeleteProject.DeleteRowsAndCommit` | internal/gtd/deleteproject_orchestration.go:200-230 | Commits exactly when, at the call that deletes the rows, no task outside the locked set is the project's; a commit comes three calls later |
| `DeleteProject.SnapshotCleanDelete` | internal/gtd/deleteproject_orchestration.go:171-231 | From the digest check on: one and the same task set is snapshotted, cleaned, deleted and counted, or nothing is committed; refused exactly when another task is the project's at the delete call |
| `DeleteProject.DeleteLocked` | internal/gtd/deleteproject_orchestration.go:163-231 | The caller's preview digest is checked first, before anything is written; then the above, as one condition both ways |
| `DeleteProject.OpenAndLock` | internal/gtd/deleteproject_orchestration.go:147-166 | Opens the transaction, looks the project up at the second call and locks its tasks at the third, whatever the other connections do meanwhile |
| `DeleteProject.DeleteProjectOrchestration` | internal/gtd/deleteproject_orchestration.go:144-231 | For every schedule, against the store the others alone make: fails exactly when a call it made fails, else finds nothing exactly when no project row of the workspace has the id, else commits exactly when the preview digest matches the locked tasks, which are those whose project column names it, in that workspace, and no other task is there at the delete call, which lies three calls before the end; a commit locked, tombstoned, cleaned, deleted and counted one task set, kept every tombstone of another deletion that is at most thirty days old and removed the older ones, and left every row of the reference tables as the schedule and the calls that catch it say; any other outcome leaves the store as the others made it |
| `DeleteProjectResults.NothingDangles` | internal/gtd/deleteproject_orchestration.go:63-98 | After a committed delete no row nobody else wrote refers to the project or a deleted task, and rows that referred to neither are unchanged |
| `DeleteProjectResults.WhoIsLeftBehind` | internal/gtd/deleteproject_orchestration.go:163-211 | Exactly which tasks still name the project after a committed delete: those outside the locked set that the schedule puts there by the last call |
| `DeleteProjectResults.AloneLeavesForeignTasks` | internal/gtd/deleteproject_orchestration.go:163-211 | Without other writers, exactly the project's tasks of other workspaces are left |
| `DeleteProjectResults.WhichReferencesStay` | internal/gtd/deleteproject_orchestration.go:63-98 | For every schedule and every row: a reference to the project or a deleted task survives the commit exactly when no call up to the one that clears it caught the row and the others leave one there at the end, or where the project cleanup froze it |
| `DeleteProjectResults.StayingMeansLate` | internal/gtd/deleteproject_orchestration.go:187-199 | A reference that stays was not there when its table was cleared |
| `DeleteProjectResults.SqliteLeavesNoReference` | internal/storage/sqlite/gtd.go:2522-2820 | On SQLite no reference stays in any run |
| `DeleteProjectResults.ReferenceStaysIff` | internal/gtd/deleteproject_orchestration.go:187-218 | A run with one new row naming the project at any moment: the delete commits, and the row keeps naming the project exactly when it came after the call that clears its table |
| `DeleteProjectResults.ArrivalIsRefusedIff` | internal/gtd/deleteproject_orchestration.go:200-230 | A run with one task arriving at any moment: deleted with the others before the lock, refused from there up to the delete call, left behind after it, both ways |
| `DeleteProjectResults.SqliteRefusesOnlyThePreview` | internal/storage/sqlite/gtd.go:2522-2820 | On SQLite, in every run, a refusal comes only from the caller's own digest |
| `DeleteProjectResults.DeleteUndisturbed` | internal/gtd/deleteproject_orchestration.go:144-231 | Without other writers and failures the outcome is decided by visibility and the preview digest, and a refusal changes nothing |
| `DeleteProjectResults.DeleteTwice` | internal/gtd/deleteproject_orchestration.go:131-158 | A second delete of the same project finds nothing and leaves the store exactly as the first one left it (the silent result 0) |
| `DeleteProjectResults.BackendsAgree` | internal/storage/sqlite/gtd.go:2522-2820 | Postgres and SQLite give the same answer and leave the same store |
| `DeleteProjectResults.TaskCleanupAfterDeleteDoesNothing` | internal/gtd/deleteproject_orchestration.go:91-95 | Why task cleanups precede `DeleteTaskRows`: afterwards they match nothing |
| `BeginTask.StepKeepsInv` | internal/db/gtd.sql.go:15-22 | Every step of every caller and writer keeps: flips and log rows match one to one, locks belong to callers in mid-flight, locked rows do not move |
| `BeginTask.RunKeepsInv` | internal/gtd/begintask_orchestration.go:71-128 | The same over whole runs, for any number of callers on any tasks |
| `BeginTask.BlankIff` | internal/gtd/actor.go:95-104 | Trimming leaves nothing of an assignee exactly when it is absent or holds only the twenty-five listed characters |
| `BeginTask.CommitIsFlip` | internal/db/gtd.sql.go:15-22 | A commit flips a row whose status was another, whose assignee has a character that is not trimmed, and which is of the workspace the guard asks for, and adds one log row |
| `BeginTask.EveryStartIsOneFlip` | internal/gtd/begintask_orchestration.go:75-128 | Committed work_session_started rows and committed flips match one to one, by task and call, and no call writes two |
| `BeginTask.FlipMoment` | internal/gtd/begintask_orchestration.go:75-128 | For any log row the step at which it and the table change were committed together, on a row that stood there with another status, of the guard's workspace and with an assignee that has a character outside the twenty-five trimmed ones |
| `BeginTask.StartsAreCounted` | internal/gtd/begintask_orchestration.go:32-38 | The number of starts of a task is the number of log rows that name it |
| `BeginTask.StartsAreBoundedByLeaves` | internal/gtd/begintask_orchestration.go:32-38 | A task's starts exceed the times it left in_progress by at most one |
| `BeginTask.AtMostOneStart` | internal/gtd/begintask_orchestration.go:32-38 | With no other status writer no two log rows name the same task, however many callers race |
| `BeginTask.PostgresLogsFreshTitle` | internal/gtd/begintask_orchestration.go:49-58 | On Postgres the log carries the title of the row at the flip |
| `BeginTask.SqliteMayLogStaleTitle` | internal/gtd/begintask_orchestration.go:49-58 | On SQLite it can carry an older one: a concrete run for any titles |
| `BeginTask.SqliteTitleIsFreshIff` | internal/gtd/begintask_orchestration.go:49-58 | In every SQLite run the note carries the title its call read, at a step before the flip: fresh exactly when the titles at the two steps are equal |
| `BeginTask.CarriedWasRead` | internal/storage/sqlite/gtd.go:1814-1821 | Every title a call carries on SQLite was read by that call, of that task, earlier in the run |
| `BeginTask.UnscopedPostgresNeverStarts` | internal/gtd/store.go:931-951 | A Postgres store without a workspace flips no row in any run |
| `BeginTaskOrchestration.BeginTaskAdapter.Interfere` | internal/gtd/begintask_orchestration.go:18-22 | Before each step everyone else moves as the schedule says; the caller's own phase, log rows and connection stay |
| `BeginTaskOrchestration.BeginTaskAdapter.ReadExisting` | internal/storage/sqlite/gtd.go:1814-1821 | The read outside the transaction decides how the call goes on |
| `BeginTaskOrchestration.BeginTaskAdapter.BeginTx` | internal/storage/sqlite/gtd.go:1823-1830 | Opens the transaction or leaves the call where it was |
| `BeginTaskOrchestration.BeginTaskAdapter.GuardedUpdate` | internal/gtd/store.go:931-951 | After the others have moved, a wait for the row included: blocked, or flipped with the row locked; a row still locked then is a wait without end and fails the call |
| `BeginTaskOrchestration.BeginTaskAdapter.ResolveGuardBlocked` | internal/storage/sqlite/gtd.go:1871-1898 | Never a start; "already" only for a row seen in progress during the call; undisturbed, the refusal the row calls for |
| `BeginTaskOrchestration.BeginTaskAdapter.CreateActivityLog` | internal/gtd/store.go:984-995 | The log row is written inside the open transaction and is not yet visible |
| `BeginTaskOrchestration.BeginTaskAdapter.CommitTx` | internal/storage/sqlite/gtd.go:1913-1918 | A failed commit writes nothing; otherwise one log row for the task is committed and the answer is Started on Postgres, and on SQLite unless the read that follows fails, lacks the connection or finds no visible row |
| `BeginTaskOrchestration.BeginTaskAdapter.Rollback` | internal/gtd/begintask_orchestration.go:63-68 | Closes what is open and changes neither the log nor what the answer rests on |
| `BeginTaskOrchestration.BeginTaskOrchestration` | internal/gtd/begintask_orchestration.go:75-128 | One call is a run of the machine, leaves no lock or connection behind and answers "in progress" only if it was so at some moment of the call; it writes no log row and does not answer Started, or writes one for its task and answers Started exactly unless SQLite lost the answer; undisturbed on a task that can be started it starts it, and on any other it writes nothing. Alone, the columns decide: "not found" without a row of the workspace, the row itself if it is in progress, "assignee required" exactly when the assignee is absent or only trimmed characters, one log row exactly when the guard's columns hold |
| `BeginTaskOrchestration.SqliteCanLoseTheAnswer` | internal/storage/sqlite/gtd.go:1913-1918 | The run that shows it: only the read after the commit fails, the log row stays and the answer is a failure |
| `AtomGraph.WithinIsWalkable` | internal/atom/store.go:217-219 | The level sets are true link distance: a node is within n links exactly when a walk of at most n links leads to it |
| `AtomGraph.WithinFixpoint` | internal/atom/store.go:237-243 | Once a level adds nothing, no later level does |
| `Traverse.TraverseResult.AddAtom` | internal/atom/store.go:272-276 | The head of the queue joins the result, still without repeats and nearest first |
| `Traverse.TraverseResult.FollowLink` | internal/atom/store.go:282-288 | One link is recorded; its target is queued if it is new and fits under the cap |
| `Traverse.TraverseResult.FollowLinks` | internal/atom/store.go:278-288 | Appends the links of an added atom and queues exactly their new targets |
| `Traverse.TraverseResult.Visit` | internal/atom/store.go:268-289 | One queue entry: fetched, added and expanded, or skipped |
| `Traverse.TraverseResult.TraverseHop` | internal/atom/store.go:260-291 | One level; when the caps do not bind the returned queue is exactly the next level |
| `Traverse.SearchLevels` | internal/atom/store.go:237-243 | The level loop, ended by depth, queue or cap |
| `Traverse.FetchRemaining` | internal/atom/store.go:245-255 | Adds the last level without its links |
| `Traverse.Traverse` | internal/atom/store.go:220-258 | On every graph: at most 50 different atoms, each a readable row of the table and of the store's workspace, within at least one and at most five links; the links are exactly those of the table out of a leading part of them into the workspace; at most 50 nodes are in reach exactly when the start and the link targets are at most 50. If so: exactly the readable ones, nearest first, with exactly the links of those nearer than the depth, failing exactly on a failing link query. Every link leads to a returned atom if and only if at most 50 nodes are in reach and every linked one can be fetched |
| `Traverse.TargetsReturnedIff` | internal/atom/store.go:282-288 | Below the cap: all link targets are returned exactly when every linked node within the depth is fetchable |
| `Traverse.CapLosesTargets` | internal/atom/store.go:284-288 | Above the cap some recorded link has no returned target: with the start returned, more than fifty nodes met cannot all be |
| `Traverse.MetIsReach` | internal/atom/store.go:284-288 | The start and the link targets fit under the cap exactly when the nodes in reach do |
| `Traverse.TargetsIff` | internal/atom/store.go:268-291 | On every graph, whatever the cap does: all link targets are returned exactly when the nodes in reach fit under it and all linked ones can be fetched |
| `AtomPrune.PruneKeepsClosed` | internal/atom/store.go:375-404 | Deleting links before atoms leaves no link to a missing atom |
| `AtomPrune.AtomsFirstLeavesDanglingLinks` | internal/atom/store.go:386-392 | In the other order links to the pruned atoms stay |
| `AtomPrune.PruneStaysClosedIff` | internal/atom/store.go:386-398 | With inserts between the statements the graph stays closed exactly when no inserted link touches an old atom |
| `AtomPrune.AtomStore.PruneAtoms` | internal/atom/store.go:379-404 | Exactly the young atoms and the links that touched no old one remain, with other connections inserting between the statements; a failure undoes only its own deletes; closed afterwards exactly when no link inserted meanwhile touches an old atom |
| `PackItems.Score` | internal/contextpack/scorer.go:23-56 | The score is 30 for the same repository, project or task, 20 for a shared file, 20 for a keyword, 10 for a recent and 10 for a proven row, 15 for a failed outcome and 15 for a decision, and the reasons name exactly those that apply |
| `PackItems.WeightIsScore` | internal/contextpack/scorer.go:23-56 | The weights of the reasons add up to that sum |
| `PackItems.RankIsTotalWithinType` | internal/contextpack/scorer.go:166-171 | Score and id leave no ties among different items of one type |
| `PackItems.SameByType` | internal/contextpack/scorer.go:155-162 | Grouping by type loses and invents nothing |
| `TypeCaps.CapPerType` | internal/contextpack/scorer.go:154-184 | The grouping and ranking loops compute the per-type best, types in first-seen order |
| `TypeCaps.CappedOfType` | internal/contextpack/scorer.go:164-183 | Of every type exactly the best min(cap, n), in rank order |
| `TypeCaps.KeptOutrankDropped` | internal/contextpack/scorer.go:164-183 | Of every type at most 10 tasks or projects, 3 procedures, skills or outcomes, 2 reflections or sessions and 5 of the others are kept, as many as there are up to that; every dropped one has a smaller score than every kept one, or the same and the larger id |
| `TypeCaps.CapIgnoresInputOrder` | internal/contextpack/scorer.go:151-154 | The kept multiset is the same for every permutation of the candidates |
| `TypeCaps.CapKeepsDistinctKeys` | internal/contextpack/scorer.go:154-184 | No repeated (type, id) appears and nothing is invented |
| `BudgetTrim.CutIsCut` | internal/contextpack/scorer.go:211-230 | Non-pinned inclusion stops at the first non-pinned item that passes the budget |
| `BudgetTrim.CutIsUnique` | internal/contextpack/scorer.go:211-230 | That description fits only one position |
| `BudgetTrim.Walk` | internal/contextpack/scorer.go:205-230 | The walk with its running total computes the kept and the dropped items |
| `BudgetTrim.CountDropped` | internal/contextpack/scorer.go:232-239 | Exact counts per dropped type, types in first-dropped order |
| `BudgetTrim.TrimToBudget` | internal/contextpack/scorer.go:205-246 | Keeps everything before the cut and every pinned item after it; reports the rest per type |
| `BudgetTrim.PinnedAllOthersPrefix` | internal/contextpack/scorer.go:193-204 | All pinned items survive in order, the other survivors are a prefix of the others, and the rest is what was dropped |
| `BudgetTrim.OthersFit` | internal/contextpack/scorer.go:224-229 | The surviving non-pinned items fit the budget |
| `BudgetTrim.FirstDroppedDoesNotFit` | internal/contextpack/scorer.go:224-229 | The first dropped item does not fit behind what is kept above it |
| `BudgetTrim.KeptCost` | internal/contextpack/scorer.go:205-246 | What is kept costs at most the budget plus the pinned items |
| `BudgetTrim.KeptAndDropped` | internal/contextpack/scorer.go:205-246 | Kept and dropped items together are the input |
| `BudgetTrim.OmissionsAreExact` | internal/contextpack/scorer.go:232-245 | Distinct types, exact positive counts, adding up to the dropped items |
| `BudgetTrim.BudgetIsMonotone` | internal/contextpack/scorer.go:193-204 | Raising the budget never removes a kept item |
| `Retrieval.ResolveIncludeTypes` | internal/contextpack/retrieval.go:60-78 | The loop computes the set the names stand for, and no restriction when nothing was asked for |
| `Retrieval.IncludeSetMembers` | internal/contextpack/retrieval.go:46-59 | A type is wanted exactly when some requested name stands for it; unknown names stand for none |
| `Retrieval.KeyIsInjective` | internal/contextpack/retrieval.go:431 | The text key separates exactly the items of different type or id |
| `Retrieval.DedupeItems` | internal/contextpack/retrieval.go:424-439 | The loop over a set of text keys keeps the first item of every (type, id) |
| `Retrieval.DedupeFacts` | internal/contextpack/retrieval.go:424-439 | No repeats survive, nothing is invented and every key is still there |
| `Retrieval.DedupeKeepsFirst` | internal/contextpack/retrieval.go:424-439 | The survivor of a key is its first occurrence |
| `Retrieval.FailureIsContained` | internal/contextpack/retrieval.go:84-89 | A failing store costs exactly its own items and adds exactly one warning naming it |
| `Retrieval.RunCalls` | internal/contextpack/retrieval.go:149-203 | Asks one store after another, appending its items or its warning |
| `Retrieval.RunSources` | internal/contextpack/retrieval.go:103-112 | Asks exactly the sources the request wants |
| `Retrieval.CallsBring` | internal/contextpack/retrieval.go:90-300 | The calls of a retrieval bring a row exactly when a store that is to be asked for the request answers with it: by task, project, repository and session lookups, the decisions of each scope, and each source the include list names |
| `Retrieval.CallsReport` | internal/contextpack/retrieval.go:90-340 | A source is reported exactly when it is to be asked for the request and fails |
| `Retrieval.RetrievedIsAnswered` | internal/contextpack/retrieval.go:90-115 | Every usable row those stores answer has its item, once, cut to 500 characters, and there is no other item; the warnings name exactly the failing stores |
| `Retrieval.Retrieve` | internal/contextpack/retrieval.go:90-115 | The methods that ask the sources one after another and deduplicate deliver exactly that, read off the ports without naming the calls |
| `PackAssembler.OrderedFacts` | internal/contextpack/contextpack.go:189-193 | The final sort orders by score and keeps exactly the capped items |
| `PackAssembler.TypesStayRanked` | internal/contextpack/contextpack.go:191-193 | The final sort is stable: items of one type keep their rank order, ties by id |
| `PackAssembler.ScoreInPlace` | internal/contextpack/contextpack.go:185-187 | Writes score and reasons into every candidate and nothing else |
| `PackAssembler.RankAndCap` | internal/contextpack/contextpack.go:185-193 | Score, cap and stable sort compute the ordered list |
| `PackAssembler.KeptSorted` | internal/contextpack/contextpack.go:191-195 | Trimming keeps the ranking although pinned items are taken from behind the cut |
| `PackAssembler.AloneOfItsType` | internal/contextpack/retrieval.go:149-173 | A row looked up by id is the only retrieved item of its type, and is retrieved |
| `PackAssembler.LonePinnedSurvives` | internal/contextpack/scorer.go:186-193 | A pinned item alone of its type survives cap, sort and trim at every budget |
| `PackAssembler.BestAreKept` | internal/contextpack/contextpack.go:185-195 | An item that is left out, by cap or budget, ranks below every item of its type in the pack |
| `PackAssembler.PackAddsUp` | internal/contextpack/scorer.go:154-246 | Of every type the items in the pack and the reported omissions make up its limit, or all candidates there are; tasks and projects are never omitted |
| `PackAssembler.NextHasNoRoom` | internal/contextpack/scorer.go:211-230 | If anything is omitted, some candidate that is left out does not fit behind the items that score no less |
| `PackAssembler.PackIsGood` | internal/contextpack/contextpack.go:169-219 | Descending scores, no repeated (type, id), only scored candidates, the best of each type, limits and omissions adding up, budget 12000 unless given and kept by all but tasks and projects, used = sum of runes, warnings exactly for the failing stores, current task and project present |
| `PackAssembler.Assemble` | internal/contextpack/contextpack.go:174-219 | The whole pipeline delivers such a pack, and its candidates are exactly the items of the usable rows that the stores to be asked for the request answer with, each with the score of its columns |
| `BotStart.RunKeepsInv` | cmd/server/main.go:542-633 | The protocol invariant over every interleaving of start goroutine, watcher and stop calls |
| `BotStart.AlwaysSafe` | cmd/server/main.go:529-541 | `bot.Stop` never runs before Start has ended, health leaves "starting" at most once, "ok" implies Start returned nil |
| `BotStart.HealthIsFinal` | cmd/server/main.go:545-546 | Once health has left "starting" it never changes |
| `BotStart.ClosedTwiceIff` | cmd/server/main.go:548-592 | When the start goroutine is through or the process is dead: closed twice exactly when Start found the session unavailable and `bot.Stop` panicked on that branch |
| `BotStart.ClosedAtMostOnce` | cmd/server/main.go:548-592 | If the goroutine's own `bot.Stop` does not panic, the channel is closed at most once and nothing crashes |
| `BotStart.HalfOpenStopPanicKills` | cmd/server/main.go:586-592 | From any run that reached the half-open branch, a panicking `bot.Stop` leads to the second close |
| `BotStart.HalfOpenIsReachable` | cmd/server/main.go:586-592 | Such runs exist |
| `BotStart.StopNeverWaits` | cmd/server/main.go:624-632 | A stop call decides in one step: it goes on to `bot.Stop` exactly when the channel is closed, and so only when Start has ended; its next step then makes that call |
| `BotStart.EveryStopIsMade` | cmd/server/main.go:564-628 | In every run a stop call that found the channel closed, the half-open branch and the recover block each make one `bot.Stop` when it is their turn |
| `BotStart.StopsAreCounted` | cmd/server/main.go:564-628 | In every run `bot.Stop` has been made once for each stopped call, and once by the goroutine exactly when Start panicked or found the session unavailable and that branch is through |
| `BotStart.NeverEndsStarting` | cmd/server/main.go:604-622 | No run ends with health still "starting", a hanging Start included |
| `BotStart.InTimeIsVerdict` | cmd/server/main.go:571-601 | Without a timeout the final health is Start's own verdict |
| `BotStart.StepsRunOut` | cmd/server/main.go:542-633 | Every effective step of goroutines and timer brings the end nearer |
| `CostRecorder.SlotsAreLiveWriters` | internal/aicost/cost.go:166-213 | Slots taken equal writers alive, never more than 50; each slot is given back at most once; records = dropped + finished + alive |
| `CostRecorder.DroppedExactlyWhenFull` | internal/aicost/cost.go:170-184 | A record is dropped exactly when 50 earlier writes are unfinished, and never waits |
| `CostRecorder.NoSlotLeaks` | internal/aicost/cost.go:172-176 | When the writes are over all slots are free |
| `CostRecorder.EveryPathReleases` | internal/aicost/cost.go:172-200 | In every interleaving and for every outcome a live writer's next step is enabled and brings it nearer to the end, nobody else moves it, it keeps its slot up to its last step and gives it back in that one; after a panic only the recover leads there |
| `CandidateResults.RunKeepsInv` | internal/completioncandidate/store_sqlite.go:160-332 | Over any sequence of upserts, automatic completions, prunes and whole detections of either store, failing ones included, (task, reason) is unique and a row is pending exactly when unresolved |
| `CandidateTable.UpsertEffect` | internal/completioncandidate/store_sqlite.go:186-194 | An upsert changes no other row; an existing row takes the new moment, confidence, evidence and artifact if one is given and keeps key, workspace, repository, status and resolution; otherwise a pending row with the given columns is added |
| `CandidateTable.AutoApplyEffect` | internal/completioncandidate/store_postgres.go:175-204 | An automatic completion turns an existing artifact row, pending or not, to auto-applied and resolved now, keeping confidence, workspace and repository, or adds one |
| `CandidateTable.PruneEffect` | internal/completioncandidate/store_postgres.go:206-216 | A prune removes exactly the resolved rows before the cutoff, on SQLite up to the end of its second; pending rows stay |
| `CandidateTable.StoredTextIsOrder` | internal/completioncandidate/store_sqlite.go:162-213 | The texts SQLite stores are ordered as the instants are |
| `CandidateResults.ArtifactNeverLost` | internal/completioncandidate/store_sqlite.go:190-194 | A suggested artifact once set is never lost while the row lives, over any such sequence |
| `CandidateTable.SqliteExpiresBySecond` | internal/completioncandidate/store_sqlite.go:260-271 | The text comparison takes everything resolved up to the end of the cutoff's second |
| `CandidateTable.PruneAgreesIff` | internal/completioncandidate/store_sqlite.go:260-271 | The two prunes agree exactly when no row was resolved in that second at or after the cutoff |
| `CandidateStores.Store.UpsertCandidate` | internal/completioncandidate/store_sqlite.go:162-213 | Fails exactly on the nil task, an unknown reason or confidence, or a failing statement, and then changes nothing; otherwise hands back a row of the table with the given columns; on SQLite it needs the connection free |
| `CandidateStores.Store.Drain` | internal/completioncandidate/store_sqlite.go:358-380 | Succeeds exactly when query, scans and iteration do; skips ids that do not parse; always gives the connection back |
| `CandidateStores.Store.WriteFetched` | internal/completioncandidate/store_postgres.go:290-308 | One fetched row is written at once |
| `CandidateStores.Store.DetectDrained` | internal/completioncandidate/store_sqlite.go:335-401 | Reads the whole query, gives the connection back, then upserts; the connection is never requested while held |
| `CandidateStores.Store.DetectStreaming` | internal/completioncandidate/store_postgres.go:276-314 | Upserts while iterating |
| `CandidateStores.Store.DetectAndUpsert` | internal/completioncandidate/store_sqlite.go:273-332 | The four rules in order, the first failing one ending the detection |
| `CandidateResults.DetectorsAgree` | internal/completioncandidate/store_postgres.go:276-314 | On a query read without errors both loop shapes give the same table and list, repeats and failing upserts included |
| `CandidateResults.StoresAgree` | internal/completioncandidate/store_postgres.go:218-273 | So do the whole detections up to a stale window of 1176 hours |
| `CandidateResults.DetectionsAgreeIff` | internal/completioncandidate/store_sqlite.go:342-349 | On one table of tasks whole detections of the two stores leave the same candidates exactly when no task was last updated past 1176 hours ago but not past the hours asked for |
| `CandidateResults.BrokenQuery` | internal/completioncandidate/store_sqlite.go:365-379 | A query that breaks leaves SQLite's table untouched and Postgres with the hits already written |
| `CandidateResults.BrokenAgreesIff` | internal/completioncandidate/store_postgres.go:290-313 | On a broken query the tables agree exactly when it broke before its first hit |
| `CandidateResults.DetectionKeepsTable` | internal/completioncandidate/store_sqlite.go:273-332 | However a detection ends the invariant holds, no status changes and no row or artifact is lost |
| `CandidateResults.DetectionRecords` | internal/completioncandidate/store_sqlite.go:273-332 | A detection that ends well has recorded every hit of the four queries, asked with a stale window of 24 hours and a look-back of 7 days unless given, capped at 1176 hours on SQLite and at 30 days, and returns their rows in order |
| `Reembed.Table.ReembedRows` | internal/cli/reembed_cmd.go:313-346 | Writes exactly the selected rows that have text, embed and write; blank ones are not counted |
| `Reembed.Table.ReembedBatch` | internal/cli/reembed_cmd.go:234-264 | One batch as a function of the table |
| `Reembed.Table.ReembedTable` | internal/cli/reembed_cmd.go:204-228 | The loop, interruptible after any batch, is the iterated batch function and ends at the first short one |
| `Reembed.BatchWritesSelected` | internal/cli/reembed_cmd.go:269-286 | The recursive batch touches exactly the rows the SELECT returns |
| `ReembedResults.OthersUntouched` | internal/cli/reembed_cmd.go:269-286 | Rows that already carry the target, and rows nothing can be done for, are never touched |
| `ReembedResults.AllWrittenIsComplete` | internal/cli/reembed_cmd.go:269-286 | The wanted table is the only one in which, by the columns, every row that can be written is and no other changes |
| `ReembedResults.GoodRunEnds` | internal/cli/reembed_cmd.go:204-228 | With only good pending rows the loop ends after exactly floor(pending/batch)+1 batches with all of them written |
| `ReembedResults.RestartIsSafe` | internal/cli/reembed_cmd.go:55-59 | Stopping after any batch and starting again leads to the same table, with any batch size |
| `ReembedResults.EveryRowCarriesTargetIff` | internal/cli/reembed_cmd.go:271-275 | All rows carry the target provider at the end exactly when none came with an embedding but a NULL provider |
| `ReembedResults.EndsIff` | internal/cli/reembed_cmd.go:219-223 | For every table the loop ends if and only if fewer failing rows than the batch size precede the first blank one |
| `ReembedResults.BatchAfterBatch` | internal/cli/reembed_cmd.go:234-264 | Two batches in a row are one batch over more rows: the second selects the rows the first could not write again |
| `ReembedResults.RunIsFront` | internal/cli/reembed_cmd.go:204-228 | After n batches exactly the pending rows before a computed place have been handled, and the loop has ended exactly when that place is past the first blank row or the end |
| `ReembedResults.EndWritesAllIff` | internal/cli/reembed_cmd.go:204-228 | For every table: an ended loop has written every row it can exactly when all of them come before that place |
| `ReembedResults.BlankRunEnds` | internal/cli/reembed_cmd.go:322-326 | When only blank rows are in the way: ended after floor(limit/batch)+1 batches, everything written exactly when no good row is selected after that many batches |
| `ReembedResults.EndWithoutBlanks` | internal/cli/reembed_cmd.go:204-228 | Without blank rows an ended loop has written every row that can be written: the case of `EndWritesAllIff` in which nothing can be missed |
| `ReembedResults.BlankRowEndsEarly` | internal/cli/reembed_cmd.go:322-326 | One blank row in front of a batch of good ones ends the loop with the last good row unwritten |
| `BoundaryMarkers.NothingIsCreated` | internal/cli/context_render.go:90-95 | A replacing pass creates no occurrence of any text free of zero-width spaces |
| `BoundaryMarkers.MarkerIsGone` | internal/cli/context_render.go:101-111 | A pass leaves no occurrence of its own marker |
| `BoundaryMarkers.SanitizeRemovesMarkers` | internal/cli/context_render.go:79-95 | After the three passes none of the markers is left in any text |
| `BoundaryMarkers.SanitizeIsReversible` | internal/cli/context_render.go:85-88 | Removing zero-width spaces gives the body back when it had none |
| `BoundaryMarkers.WrapUntrustedLocalDB` | internal/cli/context_render.go:117-136 | For every body, token and notices the opening tag occurs only at the start, the closing tag only at the end, the label at exactly two known places, the second right before the closing tag |
| `Utf8.DecodeEncode` | internal/ai/decision_drafter.go:260-271 | Decoding undoes encoding, for all texts |
| `Utf8.EncodeDecode` | internal/ai/decision_drafter.go:260-271 | The valid byte strings are exactly the encodings |
| `Utf8.FitIsLongest` | internal/ai/decision_drafter.go:260-271 | The fitting prefix is the longest one |
| `Utf8.TruncateToBytes` | internal/ai/decision_drafter.go:262-271 | For every byte string the cut is the last character start within the limit; for valid text it is the encoding of the longest fitting prefix, at most 3 bytes short |
| `DraftCaps.StripIsValid` | internal/ai/decision_drafter.go:289-314 | Cleaning leaves valid text made of the characters that are neither format characters nor, but for the tab, below the space, in order |
| `DraftCaps.DecisionDraft.FirstInjectionField` | internal/ai/decision_drafter.go:273-292 | Names a field exactly when some field is flagged |
| `DraftCaps.DecisionDraft.ShortenAlternatives` | internal/ai/decision_drafter.go:247-256 | At most three alternatives, each cut to a hundred bytes at the start of a character, the longest fitting prefix of what it was |
| `DraftCaps.DecisionDraft.EnforceDraftCaps` | internal/ai/decision_drafter.go:205-258 | Cleans, scans the whole of every field in order and names the first flagged one, then names the first of title, decision and rationale over 80, 200 and 400 characters; an accepted draft has the first 3 alternatives, each valid and cut to 100 bytes from the cleaned text |
| `DraftCaps.CuttingFirstHidesIff` | internal/ai/decision_drafter.go:250-253 | A scan after the cut misses a marker exactly when every occurrence of it ends past the cut |
| `DraftCaps.PaddingHidesMarker` | internal/ai/decision_drafter.go:250-253 | Behind a hundred bytes any marker is found in the whole text and missed after the cut |
| `Paging.PagesMakeTheList` | internal/db/decision.sql.go:308-317 | Without ties the pages at offsets 0, L, 2L, … put together are the whole ordered list, for every page size and tie-breaking of each query |
| `Paging.SafeIffNoTies` | internal/db/gtd.sql.go:612-616 | Offset paging loses and repeats nothing if and only if no two different rows tie |
| `Paging.TieBreaksPaging` | internal/db/gtd.sql.go:612-616 | Any tie admits answers that show one row twice |
| `Paging.TopIsDeterminedIff` | internal/db/decision.sql.go:254-260 | Under a limit without offset every answer holds the same rows exactly when the last row shown ranks before the first one left out |
| `ListQueries.DecisionPages` | internal/db/decision.sql.go:308-317 | For every filter the pages hold each matching decision as often as the table, in descending creation time, of one moment the larger id first |
| `ListQueries.GoalPages` | internal/db/gtd.sql.go:539-545 | The same for the active goals of the workspace: dated before undated, by due date, then by id |
| `ListQueries.ProjectPages` | internal/db/gtd.sql.go:588-594 | The same for the active projects of the workspace: by priority, then latest update, then id |
| `ListQueries.TaskQueryIsDeterminedIff` | internal/db/decision.sql.go:254-260 | The query by task, ordered by creation time alone under a limit, returns a fixed set of rows exactly when the last shown and the first left out differ in creation time |
| `StableSort.SortKeepsOrderedPart` | internal/contextpack/contextpack.go:191-193 | Stability of the library sort: a part already in order keeps its order |
| `StableSort.SortedUnique` | internal/gtd/deleteproject_orchestration.go:245 | Without ties a sorted arrangement is unique |
| `StableSort.SortInPlace` | internal/contextpack/scorer.go:166-171 | The in-place sort computes the stable sort of the array |
| `Ordering.LexLessIff` | internal/contextpack/scorer.go:166-171 | One text is less than another exactly when at their first difference it ends or has the smaller character |

## Left out

- Traverse.Traverse: the graph is fixed for the length of one call; another connection writing between two of its queries is not modelled.
- PackItems.Score: scores are whole hundredths; the rounding of the original's floating-point sums is not modelled, and keyword, file, recency and track-record matching are given as flags.
- Retrieval.Retrieve: what each store's query matches is taken as its answer; the item builders are reduced to type, id, cut text and provenance.
- TaskSetDigest.DigestOf: SHA-256 is taken to be free of collisions.
- DeleteProject.DeleteProjectAdapter.Commit: a commit whose outcome the client never learns is not modelled; a failed commit publishes nothing.
- BeginTaskOrchestration.BeginTaskAdapter.GuardedUpdate: a wait for a row lock ends with what the others do before the call or never, and then the call fails; so does a wait for SQLite's one connection. Lock timeouts and deadlock detection of the engines are left out.
- AtomPrune.AtomStore.PruneAtoms: other connections only insert between the statements; their other writes are left out.
- BotStart.StopNeverWaits: a select with a default case does not block in Go, so a stop call is one step of the model; the lemma is about where that step may lead.
- BotStart.AlwaysSafe: `err.Error()` and logging are taken not to panic; the process-wide signal handling around the stop function is left out.
- CostRecorder.EveryPathReleases: every write is taken to end, as its five-second context makes it; cost arithmetic is left out.
- CandidateStores.Store.UpsertCandidate: an upsert is one statement that works or fails; SQLite's second statement failing after the first is left out, and so are generated row ids.
- CandidateStores.Store.DetectAndUpsert: the detection queries are given by their rows; the text comparison of dates inside them is left out.
- CandidateTable.PruneEffect: instants have milliseconds, where Postgres keeps microseconds; the text of a second stands for its place in time.
- Reembed.Table.ReembedTable: embedding a text and writing a row come out the same way each time within one backfill; errors of the SELECT itself, which end the command, are left out; the model stops after a given number of batches where the original loops on.
- BoundaryMarkers.WrapUntrustedLocalDB: text is a sequence of code points; byte strings that are not valid UTF-8 are left out, and so is the wording of the two fixed sentences, which are any texts without `<` and `:`.
- DraftCaps.DecisionDraft.EnforceDraftCaps: the injection pattern and the Unicode format category are parameters.
- ListQueries.DecisionPages: int32 limits and offsets and row scanning are left out; each query is one atomic answer.
- HTTP routing, handlers, middleware, CLI prompts, process supervision, LLM, Discord, Notion and GitHub clients: plumbing and foreign calls.
- Exponential decay, cosine similarity and costs in floating point; random tokens and ids, which are parameters.
- Fixed tables (tool sets, actor registry, enum validators), evaluation stubs, the web UI and seeds: finite or easy.
- Restoring a deleted project from its tombstones, and the SQLite twin of the atom store.
