# Task board verification

A Dafny 4.11 model of the board server's write paths, with proofs. It covers the task board
engine (`src/modules/tasks/tasks.service.ts`), its two row-lock protocols, the ERP user
synchronisation and the board import scripts, the activity log, the idempotent-operation
record and the personal project order.

Verify everything with `dafny verify dfyconfig.toml`.

## How the model is laid out

- **Rows and listings.** `SortedListing` gives the result of a query with an `ORDER BY`,
  which is unique because the row id breaks ties; `Numbering` the highest number of a selection
  and the first one above it. `TaskRows` holds the task row, the forest of
  parent links, the root list of a column and the numbers of a project. `Hierarchy` is
  the breadth-first collection below a task, `ColumnOrder` the two renumbering passes.
- **Operations.** `BoardSpec` says what create, createSubtask, update, move, delete and restore
  do to the tables, with the checks in the source's order and the same kinds of error. `Site` is
  what a call finds around the tasks (live columns, boards and projects, column rules, members,
  bans); it may be different at every call of a run. Which board a column belongs to and which
  project a board belongs to (`Places`) never changes. `TaskBoard` is the service as a class
  whose methods update the tables in place; each is proved to do exactly what `BoardSpec` says,
  or nothing when it reports an error.
- **Theorems about runs.** `BoardTree` (forest, archive closure), `BoardNumbers` (boards and task
  numbers, call by call), `BoardPlacement` (which runs keep both, restores included),
  `BoardDense` and `BoardGaps` (column orders), `BoardArchive` (delete and restore),
  `BoardRights` (who may do what), `BoardEvents` (who is told), `BoardFrame` (what stays
  unchanged, and how a task gets into another project), `BoardPermissions` (when each operation
  is done and with which error it is refused) and `BoardResults` (what each leaves in every field);
  these two speak of requests, rows and `Site` only and mention none of the functions of
  `BoardSpec` they are about. `Invariants` turns a condition per call
  into one per run. `BoardLeftBehind` and the end of
  `BoardGaps` hold the runs that break a property.
- **Interleavings.** `NumberLock` and `BanLock` are state machines over the steps of concurrent
  transactions: reads see committed rows and the reader's own writes, row locks last until the
  transaction ends, and a locked row is read again after waiting. A run is any sequence of
  steps; a step that would have to wait changes nothing. `LockRuns` runs one transaction of
  `NumberLock` alone, `BoardAllocation` shows that the board's creations and moves are such runs,
  and `ImportStrays` holds the runs in which an import gets in the way. `BoardOverlap` lets other
  calls commit between the reading and the inserting of a subtask's creation, `BoardRaces`
  between the reading and the writing of a restore and of a delete.
- **Worklists.** `FilterSearch`, `UserSync`, `HulyImport`.
- **Log and lists.** `ActivityPages`, `ReadMarks`, `McpOperations`, `ProjectOrder`.

Integers are unbounded; ids, dates and opaque values are integers. User ids are positive row
ids. Whether custom attribute values are well formed is an input (`customValid`).

## What the proofs found

- `restore` can put an active child on another board than its parent: a cross-board move carries
  active descendants only, and a child archived before the move comes back where it was left
  (`BoardLeftBehind.RestoreCanSplitBoards`). A run keeps children on their parents' boards
  exactly as long as each restore revives only rows that are there already
  (`BoardPlacement.RunPlaced`).
- Such a child can then be detached, which takes it to its parent's project with the number it
  has, and two tasks of one project may end up with the same number
  (`BoardLeftBehind.DetachCanRepeatNumbers`). A call keeps numbers distinct exactly when no row
  it carries along from another project has a number in use there
  (`BoardPlacement.StepNumbersIff`).
- An imported subtask is numbered in the project of the import and written into the column its
  parent is in by then. If the parent has been moved to another project, the subtask can repeat a
  number there (`ImportStrays.ImportRepeatsANumber`) or come in above a range that is held there
  (`ImportStrays.ImportOvertakesARange`). Ranges of one project stay disjoint and increasing in
  every interleaving (`NumberLock.RangesAlwaysIncrease`); numbers stay distinct and held ranges
  above them exactly as long as no such subtask has a number that is taken, or not below a held
  range, in its parent's project (`NumberLock.InterleavingSafeIff`).
- `delete` leaves a gap in a dense column unless the task is a subtask or the last root, and
  `restore` repeats or skips an order unless the task is a subtask or its order is the next one
  (`BoardGaps.DeleteDenseIff`, `BoardGaps.RestoreDenseIff`).
- Deleting and then restoring a task gives back the same rows if and only if nothing below it
  was in the archive already (`BoardArchive.DeleteThenRestore`).
- `createSubtask` reads the parent without a lock. If another call commits before the insert, the
  subtask ends up below an archived task exactly when that call deletes the parent's hierarchy,
  and on another board than its parent exactly when it moves the parent to another board
  (`BoardOverlap.OneOverlap`).
- `restore` reads the parent, and `delete` its task, without a lock. A delete of the parent that
  commits in between leaves restored tasks below an archived one, and a task that is attached,
  created or restored below the rows a delete has collected stays active
  (`BoardRaces.LateRestore`, `BoardRaces.LateDelete`; both exact).
- Archiving a board flags the tasks of its live columns only, so an active task in a deleted
  column can be left below an archived one (`BoardArchive.ShelvingCanLeaveAChild`;
  `BoardArchive.ShelvingIff` and `BoardArchive.UnshelvingIff` are exact).
- Cursor pages list a record exactly if it is there at the one request that passes over its id
  (`ActivityPages.PagesAreWindows`). Going forward, a record added after that request is missed
  (`ActivityPages.ForwardPages`), be it because the log ended there
  (`ActivityPages.ForwardPagesMissLater`) or because its id was drawn early and committed late
  (`ActivityPages.LateCommitIsMissed`).
- Without the share lock in the member check a banned user could end up assigned
  (`BanLock.LockIsNeeded`).

## Model

| member | source | states |
|---|---|---|
| `Hierarchy.HierarchyIsDescendants` | src/modules/tasks/tasks.service.ts:2411-2437 | on a forest the collection is the task first, then exactly the descendants reachable through the chosen rows, each once |
| `Hierarchy.HierarchyParentsFirst` | src/modules/tasks/tasks.service.ts:2411-2437 | every collected task comes after its parent |
| `Hierarchy.LevelIsOrdered` | src/modules/tasks/tasks.service.ts:2422-2427 | tasks at one depth come by parent, then by order, then by id |
| `Hierarchy.HierarchyReached` | src/modules/tasks/tasks.service.ts:2416-2436 | an empty level means the whole hierarchy has been collected, so the loop may stop |
| `Hierarchy.DepthIsBounded` | src/modules/tasks/tasks.service.ts:2416-2436 | no descendant of a forest lies deeper than there are rows, which is why the loop ends |
| `ColumnOrder.MoveIsRemoveThenInsert` | src/modules/tasks/tasks.service.ts:2439-2501 | for any prior orders, relocating a root removes it from its list and inserts it at the clamped position; both columns end numbered from 0 and all others show what they showed |
| `ColumnOrder.OthersIsRemoval` | src/modules/tasks/tasks.service.ts:2444-2455 | the rows read by a renumbering pass are the column's list with the task taken out |
| `ColumnOrder.CloseGapHolds` | src/modules/tasks/tasks.service.ts:2439-2465 | closing a gap numbers the remaining rows 0, 1, 2, ... and touches nothing but their orders |
| `ColumnOrder.PlaceHolds` | src/modules/tasks/tasks.service.ts:2467-2501 | placing numbers the new list, changes the task's column and order, and nothing else |
| `TaskRows.MaxNumberIsHighest` | src/modules/tasks/tasks.service.ts:378-394 | the queried maximum bounds the numbers of all tasks of the project, archived ones included, and is one of them, or 0 if it has none |
| `BoardTree.AttachToRoot` | src/modules/tasks/tasks.service.ts:2364-2390 | giving a task another root as parent keeps the rows a forest, even if the task has archived children |
| `BoardTree.UpdateSound` | src/modules/tasks/tasks.service.ts:2041-2409 | an update keeps the forest and leaves no active task under an archived one |
| `BoardTree.DeleteSound` | src/modules/tasks/tasks.service.ts:2799-2816 | a delete leaves no active task under an archived one |
| `BoardTree.RestoreSound` | src/modules/tasks/tasks.service.ts:2849-2886 | a restore leaves no active task under an archived one, because an archived parent refuses it |
| `BoardTree.RunSound` | src/modules/tasks/tasks.service.ts:1548-2907 | in every run of the six operations the rows, archived ones included, stay a forest and no active task hangs below an archived one |
| `BoardTree.HierarchyInEveryRun` | src/modules/tasks/tasks.service.ts:2411-2437 | after any run, collecting below any task yields it first, each descendant once, parents before children |
| `BoardNumbers.AddRowPlaced` | src/modules/tasks/tasks.service.ts:1752-1775 | a new task numbered by the allocation and put on its parent's column keeps numbers distinct and boards shared |
| `BoardNumbers.UpdatePlaced` | src/modules/tasks/tasks.service.ts:2332-2408 | re-parenting and detaching keep active children on their parent's board and numbers distinct |
| `BoardNumbers.MovedSameBoard` | src/modules/tasks/tasks.service.ts:2584-2594 | a move keeps active children on their parent's board, since no edge joins moved and unmoved active rows |
| `BoardPlacement.RunPlaced` | src/modules/tasks/tasks.service.ts:1548-2907 | in every run of the six operations, active children stay on their parent's board and numbers stay distinct for as long as each restore revives only rows that are on their parent's board, and no longer |
| `BoardPlacement.RunWithoutRestore` | src/modules/tasks/tasks.service.ts:1548-2846 | in every run without restore, active children stay on their parent's board and task numbers stay distinct within a project, archived tasks included |
| `BoardPlacement.StepNumbersIff` | src/modules/tasks/tasks.service.ts:2332-2362 | a call keeps task numbers distinct if and only if no row that it carries in from another project, by a detach or a move that does not number, has a number in use there |
| `BoardPlacement.RunNumbers` | src/modules/tasks/tasks.service.ts:1548-2907 | in every run of the six operations numbers stay distinct for as long as no call carries in a number that is in use, and no longer |
| `BoardLeftBehind.MoveIsAllowed` | src/modules/tasks/tasks.service.ts:2570-2640 | a move into another project that passes all checks |
| `BoardLeftBehind.RestoreCanSplitBoards` | src/modules/tasks/tasks.service.ts:2591-2594 | a move followed by a restore that leaves an active child on another board than its parent |
| `BoardLeftBehind.DetachCanRepeatNumbers` | src/modules/tasks/tasks.service.ts:2332-2362 | the same two calls and a detach, all successful, that leave two tasks of a project with one number |
| `BoardNumbers.CrossProjectNumbers` | src/modules/tasks/tasks.service.ts:2673-2692 | a move into another project numbers the hierarchy consecutively, above the counter and every number in the target, and leaves other numbers alone |
| `BoardNumbers.ParentsNumberedLower` | src/modules/tasks/tasks.service.ts:2680-2684 | in the new range every parent has a lower number than its children |
| `BoardDense.CreateComesFirst` | src/modules/tasks/tasks.service.ts:1598-1632 | from dense columns, a new task is first in its column, the rest keep their order, and columns stay dense |
| `BoardDense.MoveLists` | src/modules/tasks/tasks.service.ts:2649-2671 | a whole move of a root shows as removal and insertion in the lists, descendants and numbering not disturbing them |
| `BoardDense.AttachingARoot` | src/modules/tasks/tasks.service.ts:2400-2408 | a root given a parent leaves its column's list, which closes up; other lists are unchanged |
| `BoardDense.DetachingFromARoot` | src/modules/tasks/tasks.service.ts:2332-2362 | a subtask detached from a root in a dense column comes right after that root |
| `BoardGaps.DeleteDenseIff` | src/modules/tasks/tasks.service.ts:2799-2816 | from dense columns, a delete keeps them dense if and only if the task is a subtask or the last of its column |
| `BoardGaps.RestoreDenseIff` | src/modules/tasks/tasks.service.ts:2869-2885 | from dense columns, restoring an archived task keeps them dense if and only if it is a subtask or its order is the length of its column's list |
| `BoardGaps.RunDense` | src/modules/tasks/tasks.service.ts:1548-2907 | in every run from dense columns, every column's orders are 0, ..., n-1 for as long as no delete or restore breaks that condition, and no longer |
| `BoardGaps.RunWithoutGaps` | src/modules/tasks/tasks.service.ts:1548-2794 | starting from dense columns, runs of create, createSubtask, update and move keep every column's orders at 0, ..., n-1 |
| `BoardGaps.DeleteCanLeaveAGap` | src/modules/tasks/tasks.service.ts:2808-2814 | deleting the first of two roots leaves a gap |
| `BoardGaps.RestoreCanRepeatAnOrder` | src/modules/tasks/tasks.service.ts:2881-2885 | a restored root can come back with an order that is taken |
| `BoardArchive.DeleteArchivesDescendants` | src/modules/tasks/tasks.service.ts:2808-2814 | delete archives exactly the task's descendants that were active, and changes nothing else |
| `BoardArchive.RestoreRevivesDescendants` | src/modules/tasks/tasks.service.ts:2881-2885 | restore revives exactly the task and everything below it, and changes nothing else |
| `BoardArchive.DeleteThenRestore` | src/modules/tasks/tasks.service.ts:2799-2907 | delete then restore is the identity on rows if and only if nothing below the task was archived before |
| `BoardArchive.RestoreTwice` | src/modules/tasks/tasks.service.ts:2869 | restoring a restored task changes nothing, events included |
| `BoardArchive.RestoreKeepsBoardsIff` | src/modules/tasks/tasks.service.ts:2871-2885 | restore keeps children on their parents' boards if and only if each revived row is on its parent's board already |
| `BoardArchive.ShelvingIff` | src/modules/boards/boards.service.ts:354-389 | archiving a board leaves active tasks off archived ones if and only if no active task outside its live columns is below a task inside |
| `BoardArchive.UnshelvingIff` | src/modules/boards/boards.service.ts:391-425 | restoring a board does if and only if every task in its live columns is a root or has a parent that is inside or active |
| `BoardArchive.ShelvingCanLeaveAChild` | src/modules/boards/boards.service.ts:367-376 | an active child in a deleted column stays active while its parent is archived with the board |
| `BoardRights.ColumnChangesAreAuthorised` | src/modules/tasks/tasks.service.ts:2504-2564 | whoever changes a task's column was its controller if the old column is creators-only, and its controller or responsible if the new one is an archive; only moves and detaching updates do it |
| `BoardPermissions.CreateAllowedIff` | src/modules/tasks/tasks.service.ts:1548-1597 | a creation is done exactly if the column is live on a live board of a project that the user owns or belongs to, and dates, staff lists and custom values are good; else it is refused with the stated error |
| `BoardPermissions.CreateSubtaskAllowedIff` | src/modules/tasks/tasks.service.ts:1692-1750 | the same in the column of an active parent |
| `BoardPermissions.UpdateAllowedIff` | src/modules/tasks/tasks.service.ts:2041-2124 | an update is done exactly if the task is open to the user, they may edit each requested field, dates, lists and values are good, and a requested change of parent is possible; else it is refused with the first error in the engine's order |
| `BoardPermissions.MoveAllowedIff` | src/modules/tasks/tasks.service.ts:2570-2647 | a move is done exactly if the task and the target column are open to the user, a subtask stays on its board, every row taken along may leave for the target, and in another project everybody named can take over |
| `BoardPermissions.MoveErrors` | src/modules/tasks/tasks.service.ts:2570-2647 | the error of a refused move is the first in the engine's order |
| `BoardPermissions.DeleteAllowedIff` | src/modules/tasks/tasks.service.ts:2799-2807 | a delete is done exactly if the active task is open to the user, else it is not found |
| `BoardPermissions.RestoreAllowedIff` | src/modules/tasks/tasks.service.ts:2849-2880 | a restore is done exactly if the task is in a live column of a board that the user reads and that is not archived, and its parent is not archived |
| `BoardPermissions.OutsidersAreRefused` | src/modules/tasks/tasks.service.ts:306-328 | no call is done for a user who neither owns the project nor belongs to it, be it the project acted in or that of a move's target |
| `BoardRights.StaffChangesAreAuthorised` | src/modules/tasks/tasks.service.ts:1955-1978 | only a controller changes controllers or responsibles, and only a controller or responsible changes assignees |
| `BoardRights.EditAllowedMeans` | src/modules/tasks/tasks.service.ts:1955-2036 | the staged checks accept a request exactly from a controller, or if each of its fields may be edited: assignees by a responsible, attributes if the project opens them, the start date by an assignee, the description by anybody |
| `BoardEvents.StepAnnounced` | src/modules/activity-events/activity-events.service.ts:27-75 | in every call, each new event reaches exactly the assignees before it together with those after it, and each change of assignees has an event |
| `BoardEvents.RemovedAssignee` | src/modules/activity-events/activity-events.service.ts:59-75 | the call that takes a user off a task tells them, and no later event of the task reaches them until they are assigned again |
| `BoardFrame.BystandersKeepAll` | src/modules/tasks/tasks.service.ts:1598-2886 | rows a call is not about keep every field, except that an active root may get a new order |
| `BoardResults.NumberIsNext` | src/modules/tasks/tasks.service.ts:378-405 | an allocated number is the first above the counter and all numbers of the project |
| `BoardResults.CreateResult` | src/modules/tasks/tasks.service.ts:1598-1687 | a created task has every requested field, its creator among the controllers and the default dates; active roots of the column make room, and its assignees are told |
| `BoardResults.CreateSubtaskResult` | src/modules/tasks/tasks.service.ts:1752-1830 | a created subtask has every requested field and sits in its parent's column; no other row changes, and both tasks' assignees are told |
| `BoardResults.UpdateResult` | src/modules/tasks/tasks.service.ts:2126-2261 | an updated task has each requested value, and what it had otherwise; those assigned before and after are told exactly if the row has changed |
| `BoardResults.MoveResultRows` | src/modules/tasks/tasks.service.ts:2649-2693 | rows taken along get the target column, in another project without tags and custom values, and keep everything else; other rows keep all but the order |
| `BoardResults.MoveTells` | src/modules/tasks/tasks.service.ts:2694-2747 | a move tells the assignees of each row whose board, column, order or number has changed, once in the project it has come to and once in the one it has left |
| `BoardResults.DeleteResult` | src/modules/tasks/tasks.service.ts:2808-2830 | a delete archives the task and everything below it and tells its assignees |
| `BoardResults.RestoreResult` | src/modules/tasks/tasks.service.ts:2869-2902 | a restore of an archived task revives it and everything below it and tells its assignees; of an active one it does nothing |
| `BoardFrame.EnteringAProject` | src/modules/tasks/tasks.service.ts:2615-2692 | a task gets into another project only with a hierarchy moved there, in the target column, without tags and custom values and with active members only, or by being carried along as it is |
| `BoardFrame.EnteringFromPlaced` | src/modules/tasks/tasks.service.ts:2615-2692 | while active children are on their parents' boards, only the first of the two happens |
| `BoardFrame.RunKeepsControllers` | src/modules/tasks/tasks.service.ts:1892-1919 | in every run each task keeps at least one controller |
| `TaskBoard.TasksService.GetTaskHierarchy` | src/modules/tasks/tasks.service.ts:2411-2437 | the loop without a visited set ends on a forest and returns the specified hierarchy |
| `TaskBoard.TasksService.NormalizeColumnWithoutTask` | src/modules/tasks/tasks.service.ts:2439-2465 | the renumbering loop closes the gap as specified |
| `TaskBoard.TasksService.PlaceTaskInColumn` | src/modules/tasks/tasks.service.ts:2467-2501 | the renumbering loop inserts the task as specified |
| `TaskBoard.TasksService.AllocateTaskNumbers` | src/modules/tasks/tasks.service.ts:363-405 | returns the first number above the counter and all numbers in use, and moves the counter to the end of the range |
| `TaskBoard.TasksService.AssertTasksCanLeaveColumns` | src/modules/tasks/tasks.service.ts:2504-2564 | the loop over the tasks gives the specified verdict, error kind included |
| `TaskBoard.TasksService.CreateTask` | src/modules/tasks/tasks.service.ts:1548-1687 | the whole new state, or the same error and no change |
| `TaskBoard.TasksService.CreateSubtaskOf` | src/modules/tasks/tasks.service.ts:1692-1850 | the whole new state, or the same error and no change |
| `TaskBoard.TasksService.PrepareParentTaskChange` | src/modules/tasks/tasks.service.ts:2313-2409 | the checks of a parent change in order, and the lists put in order only if they pass |
| `TaskBoard.TasksService.UpdateTask` | src/modules/tasks/tasks.service.ts:2041-2307 | the whole new state, or the same error and no change |
| `TaskBoard.TasksService.MoveTask` | src/modules/tasks/tasks.service.ts:2570-2794 | the whole new state, or the same error and no change |
| `TaskBoard.TasksService.DeleteTask` | src/modules/tasks/tasks.service.ts:2799-2846 | the whole new state, or the same error and no change |
| `TaskBoard.TasksService.RestoreTask` | src/modules/tasks/tasks.service.ts:2849-2907 | the whole new state, or the same error and no change |
| `TaskBoard.TasksService.HandleAll` | src/modules/tasks/tasks.service.ts:1548-2907 | a sequence of requests carried out by the methods is a run of the specification and keeps the tables sound |
| `FilterSearch.FindRootTaskId` | src/modules/tasks/tasks.service.ts:1114-1129 | on any parent links the climb ends; it returns the top of the chain, or the task itself exactly when there is no top |
| `FilterSearch.CollectBelow` | src/modules/tasks/tasks.service.ts:1167-1190 | on any parent links the layered queries collect exactly the active rows below the roots, roots included |
| `FilterSearch.FindFilterCandidates` | src/modules/tasks/tasks.service.ts:1135-1190 | the rows looked at: the listed rows, filtered by priority in the query only when subtasks are not, with everything below them in grouped mode |
| `FilterSearch.MatchingTaskIds` | src/modules/tasks/tasks.service.ts:1205-1259 | the staged filters keep exactly the candidates that satisfy every filter group by themselves |
| `FilterSearch.FoundMeans` | src/modules/tasks/tasks.service.ts:1135-1272 | the definition of the filtered list, spelled out on the fields of the rows and of the query |
| `FilterSearch.FindFilteredRootTaskIds` | src/modules/tasks/tasks.service.ts:1196-1272 | grouped: exactly the column's roots with a descendant or self that satisfies every group; flat or without subtasks: exactly the matching rows |
| `NumberLock.AllocateIsAbove` | src/modules/tasks/tasks.service.ts:363-405 | a range starts above the counter and above every number the transaction sees in the project, the moved root's old number included |
| `NumberLock.RollbackLeavesNothing` | src/modules/tasks/tasks.service.ts:363-405 | a rollback takes back all but the range handed out and frees exactly its own locks |
| `NumberLock.AllocateHandsOut` | src/modules/tasks/tasks.service.ts:399-404 | an allocation puts one range on record, as long as there are rows to be numbered |
| `NumberLock.CommitWrites` | src/modules/tasks/tasks.service.ts:2673-2693 | a commit numbers the transaction's rows in order from the start of its range and changes no other row |
| `NumberLock.CommitTakesEffect` | src/modules/tasks/tasks.service.ts:396-404 | it raises the counter to the end of the range, counts the range as committed and frees exactly its own locks |
| `NumberLock.RunGranted` | src/modules/tasks/tasks.service.ts:363-405 | in every interleaving each committed transaction has its range on record |
| `NumberLock.CommitUniqueIff` | src/modules/tasks/tasks.service.ts:2673-2693 | a commit keeps committed numbers distinct if and only if its numbers are free in the project it writes to |
| `NumberLock.CommitAboveIff` | src/scripts/import-huly-board.script.ts:578-612 | a commit keeps held ranges above committed numbers if and only if it overtakes no range held for the project it writes to |
| `NumberLock.RangesAlwaysIncrease` | src/modules/tasks/tasks.service.ts:363-405 | in every interleaving, imported subtasks included, committed ranges of a project are disjoint and increase in lock order, and held ranges are above the counter |
| `NumberLock.InterleavingSafeIff` | src/scripts/import-huly-board.script.ts:578-612 | in every interleaving numbers stay distinct and held ranges above them for as long as no imported subtask is committed in the way of its parent's project, and no longer |
| `ImportStrays.ImportRepeatsANumber` | src/scripts/import-huly-board.script.ts:578-612 | a subtask imported below a moved parent repeats a number of the parent's project |
| `ImportStrays.ImportOvertakesARange` | src/scripts/import-huly-board.script.ts:578-612 | such a subtask is committed above a range held in the parent's project |
| `NumberLock.EveryInterleavingIsSafe` | src/modules/tasks/tasks.service.ts:363-405 | in every interleaving of creations, imports of top-level tasks and moves, some rolled back, committed numbers are distinct per project and committed ranges are disjoint and increase in lock order |
| `NumberLock.RangeStaysAbove` | src/scripts/import-huly-board.script.ts:621-661 | from allocation to the end of its transaction a range lies above the counter in every interleaving, and above every committed number of the project in those whose steps are harmless |
| `BoardAllocation.CreateIsARun` | src/modules/tasks/tasks.service.ts:1586-1632 | creating a task leaves the numbers and counters of one transaction's run of the locking protocol |
| `BoardAllocation.CreateSubtaskIsARun` | src/modules/tasks/tasks.service.ts:1746-1775 | so does creating a subtask |
| `BoardAllocation.MoveIsARun` | src/modules/tasks/tasks.service.ts:2649-2693 | so does a move into another project, which locks the hierarchy row by row, saves the root and then numbers |
| `BoardAllocation.SameUniqueness` | src/modules/tasks/tasks.service.ts:363-405 | distinct numbers mean the same for the board and for the protocol |
| `BoardAllocation.BoardInterleavings` | src/modules/tasks/tasks.service.ts:363-405 | from any board state with distinct numbers, every interleaving gives out increasing ranges, and numbers stay distinct all along it exactly if its steps are harmless |
| `BoardOverlap.Overlap` | src/modules/tasks/tasks.service.ts:1699-1775 | a permitted creation that inserts after any calls have committed keeps the forest and distinct numbers; it keeps active tasks off archived ones and children on their parents' boards if and only if the parent is still active and still on the board that was read; with no calls in between it is the call as specified |
| `BoardOverlap.OneOverlap` | src/modules/tasks/tasks.service.ts:1699-1775 | with one call in between, the first fails exactly if that call deletes a hierarchy with the parent in it, the second exactly if it moves one to another board |
| `BoardOverlap.DeleteInBetween` | src/modules/tasks/tasks.service.ts:1699-1703 | a permitted creation with a delete of the parent in between leaves an active subtask below an archived task |
| `BoardOverlap.MoveInBetween` | src/modules/tasks/tasks.service.ts:1699-1703 | a permitted creation with a move of the parent in between leaves the subtask on the board its parent has left |
| `BoardRaces.LateRestore` | src/modules/tasks/tasks.service.ts:2871-2885 | a restore that overlaps with one call keeps active tasks off archived ones if and only if the call does not delete the parent's hierarchy |
| `BoardRaces.RestoreBelowDeleted` | src/modules/tasks/tasks.service.ts:2871-2885 | a permitted restore with a delete of the parent in between leaves an active task below an archived one |
| `BoardRaces.LateDelete` | src/modules/tasks/tasks.service.ts:2799-2814 | a delete that overlaps with one call keeps active tasks off archived ones if and only if the call attaches, creates or restores nothing below the collected rows |
| `BoardRaces.DeleteAboveRestored` | src/modules/tasks/tasks.service.ts:2799-2814 | a permitted delete with a restore of a child in between leaves an active task below an archived one |
| `BanLock.CommitAssignSafe` | src/modules/projects/project-access.service.ts:117-137 | committing checked assignments never gives one to a banned user |
| `BanLock.CheckRemembers` | src/modules/projects/project-access.service.ts:117-137 | the member check of an active user that no ban holds takes the share lock and remembers the user; otherwise it waits or refuses |
| `BanLock.AssignmentReplaces` | src/modules/tasks/tasks.service.ts:2149-2161 | writing and committing checked users makes them exactly the assignees of the task, and changes no other task |
| `BanLock.BanTakesEffect` | src/modules/users/users.service.ts:429-440 | a committed ban sets the flag and takes every assignment from that user and from nobody else |
| `BanLock.LiftingTakesEffect` | src/modules/users/users.service.ts:429-440 | lifting a ban clears the flag and gives back no assignment |
| `BanLock.RollbackLeavesNothing` | src/modules/users/users.service.ts:429-445 | a rollback leaves flags and assignments alone and frees exactly its own locks |
| `BanLock.BannedUsersHoldNothing` | src/modules/users/users.service.ts:429-440 | in every interleaving of assignments and bans, with stale user rows and rollbacks, no committed state has a banned user assigned |
| `BanLock.LockIsNeeded` | src/modules/projects/project-access.service.ts:128 | if the member check did not lock, a ban could slip in and leave a banned user assigned |
| `UserSync.AmbiguousServiceNumbers` | src/scripts/sync-users.script.ts:101-110 | the first pass marks exactly the service numbers that two ERP ids share |
| `UserSync.Synchronizer.UpdateUser` | src/scripts/sync-users.script.ts:143-193 | the matched user gets each value the entry gives and keeps the others, the ban flag included; both indexes follow, a banned user loses all assignments, and the entry is skipped exactly if nothing changes and the user is not banned |
| `UserSync.Synchronizer.Process` | src/scripts/sync-users.script.ts:117-213 | one entry conflicts exactly when its number is ambiguous or its two keys belong to different users; otherwise it gives the one match its values or creates a user with them, and changes no other row |
| `UserSync.SettledOwnerIsSafe` | src/scripts/sync-users.script.ts:121-141 | an unambiguous entry for another ERP id never matches a user settled earlier |
| `UserSync.Synchronizer.Synchronize` | src/scripts/sync-users.script.ts:93-214 | at the end every ERP id processed without conflict has exactly one owner, who has the values of its last entry processed without conflict, and no assignments if banned; indexes agree, keys are unique; a dry run writes nothing |
| `HulyImport.FixpointIsComplete` | src/scripts/import-huly-board.script.ts:148-185 | when a round finds no pending task with an imported parent, everything whose chain reaches a top-level task is there |
| `HulyImport.PhaseTwoStep` | src/scripts/import-huly-board.script.ts:151-183 | handling one pending subtask and splicing it out keeps what is created importable and the counts in balance |
| `HulyImport.ImportRunner.CreateTopLevel` | src/scripts/import-huly-board.script.ts:107-143 | the top-level tasks of a column are created or counted as failed, one each, from the last to the first |
| `HulyImport.ImportRunner.Round` | src/scripts/import-huly-board.script.ts:151-184 | one backwards walk; without progress no pending task has an imported parent |
| `HulyImport.ImportRunner.SubtaskPass` | src/scripts/import-huly-board.script.ts:148-193 | the fixpoint ends and creates exactly the importable tasks, whatever the list order |
| `HulyImport.ImportRunner.Import` | src/scripts/import-huly-board.script.ts:100-199 | created tasks are exactly those whose chain reaches a top-level task without failures, each with a row of its own and the next free ids; the report depends on the source alone, all counts add up, and a dry run writes nothing and reports what a run without failures reports |
| `ActivityPages.PagesAreWindows` | src/modules/activity-events/activity-events.service.ts:133-169 | whatever is added or taken away between requests, in either direction: the pages end, list nothing twice, and list a record exactly if it is there at the one request that passes over its id |
| `ActivityPages.WhatStaysIsListed` | src/modules/tasks/tasks.service.ts:1429-1474 | a record that is there throughout is listed |
| `ActivityPages.BackwardPages` | src/modules/activity-events/activity-events.service.ts:133-169 | when records are only added, with larger ids, following the cursor back lists every record present at the first request once, descending, and no other |
| `ActivityPages.PageSizeIsClamped` | src/modules/tasks/tasks.service.ts:1379-1435 | the page sizes of task history, time entries and time reports: a limit in range is granted, others are moved to the nearer end, absent ones get the default |
| `ActivityPages.HistoryPages` | src/modules/tasks/tasks.service.ts:1429-1474 | the same for any requested page size |
| `ActivityPages.ForwardPages` | src/modules/activity-events/task-activity.service.ts:51-105 | when records are only added, with any ids, a record that is there in the end is missed if and only if it was added after the request that passed over its id |
| `ActivityPages.ForwardPagesInOrder` | src/modules/activity-events/task-activity.service.ts:51-105 | when they are added in the order of their ids, the pages are exactly the records present at the last request, ascending |
| `ActivityPages.ForwardPagesMissLater` | src/modules/activity-events/task-activity.service.ts:81-103 | a log of two records of which the pages list only the first |
| `ActivityPages.LateCommitIsMissed` | src/modules/activity-events/task-activity.service.ts:81-103 | a record whose id is drawn before and committed after a page is missed, although further pages follow |
| `ReadMarks.GetCounts` | src/modules/activity-events/task-activity.service.ts:108-130 | the total is the number of unread events in the personal feed, and each project's count is that of its own |
| `ReadMarks.AddedEvent` | src/modules/activity-events/activity-events.service.ts:57-79 | recording an event adds it with exactly its recipients, unread, and changes nothing else |
| `ReadMarks.UnreadMeans` | src/modules/activity-events/task-activity.service.ts:108-130 | unread are the events addressed to the user, from and about projects they may read, that are not marked |
| `ReadMarks.ReadIffMarked` | src/modules/activity-events/task-activity.service.ts:138-158 | over any run an event is read for a user exactly if it was, or some mark of theirs covered it while it was in their feed |
| `ReadMarks.UnreadBalance` | src/modules/activity-events/task-activity.service.ts:108-174 | over any run the unread count goes up by one for each unread event added or shown, down by one for each marked or hidden, and changes by nothing else |
| `McpOperations.BodyRunsOnce` | src/modules/projects-mcp/projects-mcp-operations.service.ts:20-89 | in every interleaving the body runs at most once, and all returned values are that run's, under one request hash |
| `McpOperations.FirstCallGoesThrough` | src/modules/projects-mcp/projects-mcp-operations.service.ts:20-89 | the first call of a key can go all the way: its body runs once and it returns what that gives |
| `McpOperations.StartMeans` | src/modules/projects-mcp/projects-mcp-operations.service.ts:20-66 | in any run the first call of a key runs the body; later ones return the stored value, or throw the stored error, or for another request or a running operation a conflict |
| `McpOperations.OwnerReturns` | src/modules/projects-mcp/projects-mcp-operations.service.ts:67-88 | the call that runs the body returns its value once stored; if the body or the storing fails it throws that error, which the record keeps if it can be stored |
| `McpOperations.RepeatReturnsSame` | src/modules/projects-mcp/projects-mcp-operations.service.ts:48-66 | after a returned value, the same request returns it again and any other request throws |
| `ProjectOrder.ProjectsService.GetNextMemberOrders` | src/modules/projects/projects.service.ts:404-425 | per user the next order is one above the highest of all membership rows, or 0 |
| `ProjectOrder.ProjectsService.Create` | src/modules/projects/projects.service.ts:130-190 | refuses a prefix that a visible project has, fails on one that a deleted project has; otherwise the project comes last for each of its members, and visible orders stay distinct |
| `ProjectOrder.UpperMeans` | src/modules/projects/projects.service.ts:136-150 | prefixes are compared and stored without small letters |
| `ProjectOrder.GetAllMeans` | src/modules/projects/projects.service.ts:28-76 | a user's list holds each visible own or joined project once, memberships by their order, then the rest newest first |
| `ProjectOrder.ProjectsService.UpdateMembers` | src/modules/projects/projects.service.ts:214-259 | members who stay keep their order, newcomers get the project last, visible orders stay distinct |
| `ProjectOrder.ProjectsService.Delete` | src/modules/projects/projects.service.ts:277-289 | a soft delete by the owner keeps the membership rows |
| `ProjectOrder.ProjectsService.Reorder` | src/modules/projects/projects.service.ts:294-337 | accepts exactly the permutations of the visible memberships, after which the list is that permutation; other users' orders are unchanged |
| `ProjectOrder.AcceptsIff` | src/modules/projects/projects.service.ts:303-318 | the three comparisons of a reorder request together say that it is a permutation |

## Left out

- Controllers, validation of request bodies, logging, web socket delivery, object storage, token checks: plumbing or foreign calls.
- Text search and paging of column lists: the search is a database pattern match, and paging there is an offset into one sorted list.
- Board archive and restore write the archive flag of task rows; `BoardArchive` says what that does, but they stand outside the runs, and so outside what every run keeps.
- Board and column create, update, column delete and reorder, tags, favourites and attachments: single assignments that write no task row; they appear only as a changing `Site`.
- Custom attribute type checks and description normalising: values are opaque, and whether they are valid is an input.
- Task columns that `move` and the other operations only store (creation and update times): not modelled.
- The repair of an empty controller list when a task is saved: never needed, as `BoardFrame.RunKeepsControllers` shows.
- Interleavings of whole board operations: runs of the six operations are serial; concurrency is modelled for numbering and for bans, where the source relies on row locks, and for creating a subtask, restoring and deleting, which read a row without one.
- Numbers under concurrency when a call carries a row into another project without numbering it: `BoardPlacement` treats that in serial runs only.
- Deadlock and lock wait timeouts: the database ends them by rolling a transaction back, which any interleaving may do.
- The retry of `synchronizeUser` after a unique key collision, and the other handlers of the user event queue: only their ban writes are modelled, in `BanLock`.
- Column mapping and text conversion of the import, and the rows it writes: the import model keeps ids, parents, statuses and counts.
- How project prefixes are checked for length and letters: done before the service is called.
- Ties in the personal order: equal orders of one user are listed by id, where the source keeps the creation order; visible orders are proved distinct.
