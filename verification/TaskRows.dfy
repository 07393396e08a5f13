/**
 The task table of a board and what the rest of the model reads from it.

 Row ids, user ids, column ids and dates are integers. Values that the engine
 only stores (titles, descriptions, custom attributes) are opaque integers kept
 per field.
 */
module TaskRows {
  import opened Wrappers
  import opened SortedListing
  import opened Numbering

  datatype Field = Title | Description | Priority | ApprovalStatus | StartDate
                 | DueDate | TimeNorm | LinkedEntity | CustomValues

  datatype Task = Task(
    columnId: int,
    parent: Option<int>,
    order: int,
    number: int,
    archived: bool,
    createdBy: int,
    controllers: set<int>,
    responsibles: set<int>,
    assignees: set<int>,
    tags: set<int>,
    details: map<Field, Option<int>>)

  type Tasks = map<int, Task>

  /** Where things are: a column belongs to one board, a board to one project, for good. */
  datatype Places = Places(boards: map<int, int>, projects: map<int, int>) {
    function BoardOf(column: int): int { if column in boards then boards[column] else 0 }

    function ProjectOf(board: int): int { if board in projects then projects[board] else 0 }

    function ProjectOfColumn(column: int): int { ProjectOf(BoardOf(column)) }
  }

  predicate ActiveTask(tasks: Tasks, id: int) {
    id in tasks && !tasks[id].archived
  }

  predicate HasActiveChild(tasks: Tasks, id: int) {
    exists c :: c in tasks && !tasks[c].archived && tasks[c].parent == Some(id)
  }

  // ---------------------------------------------------------------- forest

  /** `rank` grows from parent to child, so no chain of parents can come back to its start. */
  ghost predicate Ranked(tasks: Tasks, rank: map<int, nat>) {
    forall x :: x in tasks ==>
      && x in rank
      && (tasks[x].parent.Some? ==>
            tasks[x].parent.value in tasks && tasks[x].parent.value in rank &&
            rank[tasks[x].parent.value] < rank[x])
  }

  /** All rows, archived ones included, form a forest. */
  ghost predicate Forest(tasks: Tasks) {
    exists rank :: Ranked(tasks, rank)
  }

  /** No active task hangs below an archived one. */
  ghost predicate ArchiveClosed(tasks: Tasks) {
    forall x :: x in tasks && !tasks[x].archived && tasks[x].parent.Some? ==>
      ActiveTask(tasks, tasks[x].parent.value)
  }

  // ---------------------------------------------------------------- root lists

  /** Selects the active roots of a column, except those skipped, by `(order, id)`. */
  function RootKeys(tasks: Tasks, column: int, skip: set<int>): map<int, Key>
  {
    map x | x in tasks && !tasks[x].archived && tasks[x].columnId == column
            && tasks[x].parent.None? && x !in skip
      :: Key(tasks[x].order, 0)
  }

  /** A column as its users see it. */
  function ColumnList(tasks: Tasks, column: int): seq<int> {
    Sorted(RootKeys(tasks, column, {}))
  }

  /** The same list without one task. */
  function Others(tasks: Tasks, column: int, id: int): seq<int> {
    Sorted(RootKeys(tasks, column, {id}))
  }

  /** Orders are exactly 0, 1, ..., n-1 down the list. */
  ghost predicate DenseColumn(tasks: Tasks, column: int) {
    var list := ColumnList(tasks, column);
    forall i :: 0 <= i < |list| ==> list[i] in tasks && tasks[list[i]].order == i
  }

  ghost predicate Dense(tasks: Tasks) {
    forall column :: DenseColumn(tasks, column)
  }

  // ---------------------------------------------------------------- numbers

  function NumberKeys(places: Places, tasks: Tasks, project: int): map<int, Key>
  {
    map x | x in tasks && places.ProjectOfColumn(tasks[x].columnId) == project
      :: Key(tasks[x].number, 0)
  }

  /** The highest number in a project, archived tasks included; 0 when it has none. */
  function MaxNumber(places: Places, tasks: Tasks, project: int): int {
    Highest(NumberKeys(places, tasks, project))
  }

  lemma MaxNumberBounds(places: Places, tasks: Tasks, project: int, x: int)
    requires x in tasks && places.ProjectOfColumn(tasks[x].columnId) == project
    ensures tasks[x].number <= MaxNumber(places, tasks, project)
  {
    HighestBounds(NumberKeys(places, tasks, project), x);
  }

  /** The maximum bounds every number of the project and is one of them, or 0 if there is none. */
  lemma MaxNumberIsHighest(places: Places, tasks: Tasks, project: int)
    ensures forall x :: x in tasks && places.ProjectOfColumn(tasks[x].columnId) == project ==>
      tasks[x].number <= MaxNumber(places, tasks, project)
    ensures if forall x :: x in tasks ==> places.ProjectOfColumn(tasks[x].columnId) != project
            then MaxNumber(places, tasks, project) == 0
            else exists x :: x in tasks && places.ProjectOfColumn(tasks[x].columnId) == project
                             && tasks[x].number == MaxNumber(places, tasks, project)
  {
    forall x | x in tasks && places.ProjectOfColumn(tasks[x].columnId) == project
      ensures tasks[x].number <= MaxNumber(places, tasks, project)
    {
      MaxNumberBounds(places, tasks, project, x);
    }
    var keys := NumberKeys(places, tasks, project);
    HighestIsAttained(keys);
    if keys != map[] {
      var x :| x in keys && keys[x].major == Highest(keys);
      assert x in tasks && tasks[x].number == MaxNumber(places, tasks, project);
    } else {
      assert forall x :: x in tasks && places.ProjectOfColumn(tasks[x].columnId) == project ==> x in keys;
    }
  }

  /** No two tasks of a project share a number, archived tasks included. */
  ghost predicate UniqueNumbers(places: Places, tasks: Tasks) {
    forall x, y ::
      (x in tasks && y in tasks && x != y &&
       places.ProjectOfColumn(tasks[x].columnId) == places.ProjectOfColumn(tasks[y].columnId)) ==>
      tasks[x].number != tasks[y].number
  }

  /** Every active child sits on its parent's board. */
  ghost predicate SameBoard(places: Places, tasks: Tasks) {
    forall x :: x in tasks && !tasks[x].archived && tasks[x].parent.Some? ==>
      var p := tasks[x].parent.value;
      p in tasks && places.BoardOf(tasks[x].columnId) == places.BoardOf(tasks[p].columnId)
  }
}
