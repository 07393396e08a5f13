/**
 The board's own operations are runs of the locking protocol. Carried out alone, a creation and
 a move into another project take the steps of one transaction each and leave the same numbers
 and counters, so what `NumberLock` proves of all interleavings is about these operations
 (`BoardInterleavings`).
 */
module BoardAllocation {
  import opened SortedListing
  import opened Numbering
  import opened TaskRows
  import opened Hierarchy
  import opened ColumnOrder
  import opened BoardSpec
  import opened BoardTree
  import opened BoardNumbers
  import opened LockRuns
  import L = NumberLock

  /** The task table as the protocol sees it. */
  function TableOf(places: Places, tasks: Tasks): L.Table {
    map x | x in tasks :: L.Row(places.ProjectOfColumn(tasks[x].columnId), tasks[x].number)
  }

  /** No transaction is running; the next one is number 0. */
  function StateOf(places: Places, db: Db): L.State {
    L.State(TableOf(places, db.tasks), db.counters, map[], map[], map[], [], {}, db.nextId, 0)
  }

  lemma SameUniqueness(places: Places, tasks: Tasks)
    ensures L.UniqueNumbers(TableOf(places, tasks)) <==> UniqueNumbers(places, tasks)
  {
    var table := TableOf(places, tasks);
    if L.UniqueNumbers(table) {
      forall x, y |
        x in tasks && y in tasks && x != y
        && places.ProjectOfColumn(tasks[x].columnId) == places.ProjectOfColumn(tasks[y].columnId)
        ensures tasks[x].number != tasks[y].number
      {
        assert table[x].number != table[y].number;
      }
    }
  }

  lemma SameSelection(places: Places, tasks: Tasks, project: int)
    ensures L.NumbersIn(TableOf(places, tasks), project) == NumberKeys(places, tasks, project)
  {
    var a, b := L.NumbersIn(TableOf(places, tasks), project), NumberKeys(places, tasks, project);
    assert forall x :: x in a <==> x in b;
    assert forall x :: x in a ==> a[x] == b[x];
  }

  /** Every state with distinct numbers is one the protocol may start from. */
  lemma StartsTheProtocol(places: Places, db: Db)
    requires Sound(db) && UniqueNumbers(places, db.tasks)
    ensures L.Initial(StateOf(places, db))
  {
    SameUniqueness(places, db.tasks);
  }

  /**
   So from any such board state, every interleaving gives out disjoint, increasing ranges per
   project; and numbers stay distinct all along it exactly if its steps are harmless.
   */
  lemma BoardInterleavings(places: Places, db: Db, actions: seq<L.Action>)
    requires Sound(db) && UniqueNumbers(places, db.tasks)
    ensures L.RangesIncrease(L.Run(StateOf(places, db), actions))
    ensures (forall k :: 0 <= k <= |actions| ==> L.Safe(L.Run(StateOf(places, db), actions[..k])))
      <==> (forall k :: 0 <= k < |actions| ==> L.Harmless(L.Run(StateOf(places, db), actions[..k]), actions[k]))
    ensures (forall a :: a in actions ==> !a.BeginImportSubtask?) ==>
      L.UniqueNumbers(L.Run(StateOf(places, db), actions).table)
  {
    var s := StateOf(places, db);
    StartsTheProtocol(places, db);
    L.RangesAlwaysIncrease(s, actions);
    L.InterleavingSafeIff(s, actions);
    if forall a :: a in actions ==> !a.BeginImportSubtask? { L.EveryInterleavingIsSafe(s, actions); }
  }

  /** The tables and counters a run ends with, and no transaction left over. */
  ghost predicate EndsAs(places: Places, s: L.State, db: Db) {
    Idle(s) && s.table == TableOf(places, db.tasks) && s.counters == db.counters
  }

  // ---------------------------------------------------------------- creation

  lemma OneRow(target: int, id: int, first: int)
    ensures L.Numbers(target, [id], first) == map[id := L.Row(target, first)]
  {
    assert IndexOf([id], id) == 0;
    assert forall x :: x in [id] <==> x == id;
  }

  lemma CreationBegins(places: Places, db: Db, project: int)
    ensures var begun := L.Step(StateOf(places, db), L.BeginCreate(project));
      && Alone(begun, L.Txn(project, project, true, L.Collecting, [db.nextId], 0, map[]))
      && begun.table == TableOf(places, db.tasks) && begun.counters == db.counters
      && L.FirstFree(begun, 0) == FirstNumber(places, db.counters, db.tasks, project)
  {
    var begun := L.Step(StateOf(places, db), L.BeginCreate(project));
    assert L.Visible(begun, 0) == TableOf(places, db.tasks);
    SameSelection(places, db.tasks, project);
  }

  lemma CreationRun(places: Places, db: Db, project: int)
    ensures var end := L.Run(StateOf(places, db), [L.BeginCreate(project)] + ENDING);
      var first := FirstNumber(places, db.counters, db.tasks, project);
      && Idle(end)
      && end.table == TableOf(places, db.tasks)[db.nextId := L.Row(project, first)]
      && end.counters == db.counters[project := first]
  {
    var s := StateOf(places, db);
    RunInParts(s, [L.BeginCreate(project)], ENDING);
    RunOneStep(s, L.BeginCreate(project));
    CreationBegins(places, db, project);
    LoneEnding(L.Step(s, L.BeginCreate(project)), L.Txn(project, project, true, L.Collecting, [db.nextId], 0, map[]));
    OneRow(project, db.nextId, FirstNumber(places, db.counters, db.tasks, project));
  }

  lemma AddedRow(places: Places, tasks: Tasks, shifted: Tasks, id: int, task: Task)
    requires shifted.Keys == tasks.Keys && id !in tasks
    requires forall x :: x in tasks ==>
      shifted[x].number == tasks[x].number && shifted[x].columnId == tasks[x].columnId
    ensures TableOf(places, shifted[id := task])
         == TableOf(places, tasks)[id := L.Row(places.ProjectOfColumn(task.columnId), task.number)]
  {
    var a := TableOf(places, shifted[id := task]);
    var b := TableOf(places, tasks)[id := L.Row(places.ProjectOfColumn(task.columnId), task.number)];
    assert a.Keys == b.Keys;
    assert forall x :: x in a ==> a[x] == b[x];
  }

  /** Creating a task is a run of one transaction. */
  lemma CreateIsARun(places: Places, site: Site, db: Db, column: int, dto: CreateDto, user: int)
    requires Sound(db) && PerformCreate(places, site, db, column, dto, user).Done?
    ensures EndsAs(places, L.Run(StateOf(places, db), [L.BeginCreate(places.ProjectOfColumn(column))] + ENDING),
                   PerformCreate(places, site, db, column, dto, user).db)
  {
    CreationRun(places, db, places.ProjectOfColumn(column));
    var next := PerformCreate(places, site, db, column, dto, user).db.tasks;
    ShiftKeepsNumbers(places, db.tasks, column, places.ProjectOfColumn(column));
    AddedRow(places, db.tasks, ShiftRoots(db.tasks, column), db.nextId, next[db.nextId]);
  }

  /** So is creating a subtask. */
  lemma CreateSubtaskIsARun(places: Places, site: Site, db: Db, above: int, dto: CreateDto, user: int)
    requires Sound(db) && PerformCreateSubtask(places, site, db, above, dto, user).Done? && above in db.tasks
    ensures EndsAs(places, L.Run(StateOf(places, db),
                                 [L.BeginCreate(places.ProjectOfColumn(db.tasks[above].columnId))] + ENDING),
                   PerformCreateSubtask(places, site, db, above, dto, user).db)
  {
    CreationRun(places, db, places.ProjectOfColumn(db.tasks[above].columnId));
    var next := PerformCreateSubtask(places, site, db, above, dto, user).db.tasks;
    AddedRow(places, db.tasks, db.tasks, db.nextId, next[db.nextId]);
  }

  // ---------------------------------------------------------------- move

  function LockAll(rows: seq<int>): seq<L.Action> {
    seq(|rows|, i requires 0 <= i < |rows| => L.LockRow(0, rows[i]))
  }

  function Locked(rows: seq<int>): map<int, int> {
    map x | x in rows :: 0
  }

  lemma LockAllMore(rows: seq<int>, n: nat)
    requires n < |rows|
    ensures LockAll(rows[..n + 1]) == LockAll(rows[..n]) + [L.LockRow(0, rows[n])]
  {}

  /** One row lock after the other, in the order of the list. */
  lemma {:induction false} LockingRun(s: L.State, target: int, rows: seq<int>, n: nat)
    requires s.txns == map[0 := L.Txn(target, target, false, L.Collecting, [], 0, map[])] && s.rowLocks == map[]
    requires NoDuplicates(rows) && (forall x :: x in rows ==> x in s.table) && n <= |rows|
    ensures L.Run(s, LockAll(rows[..n]))
         == s.(txns := map[0 := L.Txn(target, target, false, L.Collecting, rows[..n], 0, map[])],
               rowLocks := Locked(rows[..n]))
    decreases n
  {
    if n == 0 {
      assert rows[..0] == [] && LockAll(rows[..0]) == [];
      assert L.Run(s, []) == s;
    } else {
      LockingRun(s, target, rows, n - 1);
      LockedMore(s, target, rows, n - 1);
      LockAllMore(rows, n - 1);
      RunInParts(s, LockAll(rows[..n - 1]), [L.LockRow(0, rows[n - 1])]);
      RunOneStep(L.Run(s, LockAll(rows[..n - 1])), L.LockRow(0, rows[n - 1]));
    }
  }

  lemma LockedMore(s: L.State, target: int, rows: seq<int>, n: nat)
    requires NoDuplicates(rows) && (forall x :: x in rows ==> x in s.table) && n < |rows|
    ensures var before := s.(txns := map[0 := L.Txn(target, target, false, L.Collecting, rows[..n], 0, map[])],
                             rowLocks := Locked(rows[..n]));
      L.Step(before, L.LockRow(0, rows[n]))
        == s.(txns := map[0 := L.Txn(target, target, false, L.Collecting, rows[..n + 1], 0, map[])],
              rowLocks := Locked(rows[..n + 1]))
  {
    var row, some, more := rows[n], rows[..n], rows[..n + 1];
    assert row in rows && row !in some;
    assert more == some + [row];
    OneMoreLock(some, row);
    var txn := L.Txn(target, target, false, L.Collecting, some, 0, map[]);
    assert map[0 := txn][0 := txn.(rows := more)] == map[0 := txn.(rows := more)];
  }

  lemma OneMoreLock(rows: seq<int>, row: int)
    ensures Locked(rows)[row := 0] == Locked(rows + [row])
  {
    assert forall x :: x in rows + [row] <==> x in rows || x == row;
  }

  /** A move's own steps: lock the hierarchy row by row, save the root into the target, and end. */
  function MoveSteps(target: int, rows: seq<int>): seq<L.Action> {
    [L.BeginMove(target)] + LockAll(rows) + [L.PlaceRoot(0)] + ENDING
  }

  /** The table with the root saved into the target, its number still the old one. */
  function RootSaved(table: L.Table, root: int, target: int): L.Table
    requires root in table
  {
    table[root := table[root].(project := target)]
  }

  lemma PlaceStep(s: L.State, target: int, rows: seq<int>)
    requires Alone(s, L.Txn(target, target, false, L.Collecting, rows, 0, map[])) && rows != [] && rows[0] in s.table
    ensures var placed := L.Step(s, L.PlaceRoot(0));
      var seen := RootSaved(s.table, rows[0], target);
      && Alone(placed, L.Txn(target, target, false, L.Placed, rows, 0, map[rows[0] := seen[rows[0]]]))
      && placed.table == s.table && placed.counters == s.counters
      && L.FirstFree(placed, 0) == FirstAbove(Counter(s.counters, target), Highest(L.NumbersIn(seen, target)))
  {
    var placed := L.Step(s, L.PlaceRoot(0));
    var seen := RootSaved(s.table, rows[0], target);
    assert placed.txns == map[0 := L.Txn(target, target, false, L.Placed, rows, 0, map[rows[0] := seen[rows[0]]])];
    assert L.Visible(placed, 0) == seen;
  }

  /** The state once all rows are locked. */
  lemma CollectingRun(s: L.State, target: int, rows: seq<int>)
    requires Idle(s) && s.nextTxn == 0 && NoDuplicates(rows) && forall x :: x in rows ==> x in s.table
    ensures var held := L.Run(s, [L.BeginMove(target)] + LockAll(rows));
      && Alone(held, L.Txn(target, target, false, L.Collecting, rows, 0, map[]))
      && held.table == s.table && held.counters == s.counters
  {
    RunInParts(s, [L.BeginMove(target)], LockAll(rows));
    RunOneStep(s, L.BeginMove(target));
    LockingRun(L.Step(s, L.BeginMove(target)), target, rows, |rows|);
    assert rows[..|rows|] == rows;
  }

  /** The first number a move gets: above the counter and all that its query sees. */
  function FirstForMove(table: L.Table, counters: map<int, int>, root: int, target: int): int
    requires root in table
  {
    FirstAbove(Counter(counters, target), Highest(L.NumbersIn(RootSaved(table, root, target), target)))
  }

  lemma PlacingRun(s: L.State, target: int, rows: seq<int>) returns (txn: L.Txn)
    requires Idle(s) && s.nextTxn == 0
    requires NoDuplicates(rows) && rows != [] && (forall x :: x in rows ==> x in s.table) && rows[0] in s.table
    ensures var placed := L.Run(s, [L.BeginMove(target)] + LockAll(rows) + [L.PlaceRoot(0)]);
      && Alone(placed, txn) && txn.phase == L.Placed && !txn.creates
      && txn.target == target && txn.home == target && txn.rows == rows
      && placed.table == s.table && placed.counters == s.counters
      && L.FirstFree(placed, 0) == FirstForMove(s.table, s.counters, rows[0], target)
  {
    var collecting := [L.BeginMove(target)] + LockAll(rows);
    RunInParts(s, collecting, [L.PlaceRoot(0)]);
    CollectingRun(s, target, rows);
    var held := L.Run(s, collecting);
    RunOneStep(held, L.PlaceRoot(0));
    PlaceStep(held, target, rows);
    txn := L.Txn(target, target, false, L.Placed, rows, 0,
                 map[rows[0] := RootSaved(s.table, rows[0], target)[rows[0]]]);
  }

  lemma MovingRun(s: L.State, target: int, rows: seq<int>)
    requires Idle(s) && s.nextTxn == 0
    requires NoDuplicates(rows) && rows != [] && (forall x :: x in rows ==> x in s.table) && rows[0] in s.table
    ensures Renumbered(L.Run(s, MoveSteps(target, rows)), s.table, s.counters, target, target, rows,
                       FirstForMove(s.table, s.counters, rows[0], target))
  {
    var placing := [L.BeginMove(target)] + LockAll(rows) + [L.PlaceRoot(0)];
    var txn := PlacingRun(s, target, rows);
    var placed := L.Run(s, placing);
    LoneEnding(placed, txn);
    RunInParts(s, placing, ENDING);
  }

  lemma SameTables(places: Places, tasks: Tasks, table: L.Table)
    requires table.Keys == tasks.Keys
    requires forall x :: x in tasks ==>
      table[x].project == places.ProjectOfColumn(tasks[x].columnId) && table[x].number == tasks[x].number
    ensures TableOf(places, tasks) == table
  {
    assert TableOf(places, tasks).Keys == table.Keys;
    assert forall x :: x in tasks ==> TableOf(places, tasks)[x] == table[x];
  }

  lemma RootMovedFrame(tasks: Tasks, id: int, column: int, order: int, x: int)
    requires id in tasks && x in tasks
    ensures var seen := MoveRoot(tasks, id, column, order);
      seen[x].number == tasks[x].number && seen[x].columnId == if x == id then column else tasks[x].columnId
  {
    MoveRootFrame(tasks, id, column, order);
    assert x != id ==> MoveRoot(tasks, id, column, order)[x].(order := tasks[x].order) == tasks[x];
  }

  /** What the numbering query of a move sees: the root in the target, with its old number. */
  lemma RootIsSeen(places: Places, tasks: Tasks, id: int, column: int, order: int)
    requires id in tasks
    ensures TableOf(places, MoveRoot(tasks, id, column, order))
         == RootSaved(TableOf(places, tasks), id, places.ProjectOfColumn(column))
  {
    var seen := MoveRoot(tasks, id, column, order);
    forall x | x in tasks
      ensures seen[x].number == tasks[x].number
              && seen[x].columnId == (if x == id then column else tasks[x].columnId)
    {
      RootMovedFrame(tasks, id, column, order, x);
    }
    SameTables(places, seen, RootSaved(TableOf(places, tasks), id, places.ProjectOfColumn(column)));
  }

  lemma NumberedRows(places: Places, tasks: Tasks, moved: Tasks, h: seq<int>, column: int, first: int)
    requires moved.Keys == tasks.Keys && forall x :: x in h ==> x in tasks
    requires forall x :: x in tasks ==>
      && moved[x].number == tasks[x].number
      && moved[x].columnId == (if x in h then column else tasks[x].columnId)
    ensures TableOf(places, WithNumbers(moved, h, first))
         == TableOf(places, tasks) + L.Numbers(places.ProjectOfColumn(column), h, first)
  {
    var table := TableOf(places, tasks) + L.Numbers(places.ProjectOfColumn(column), h, first);
    assert forall x :: x in table.Keys <==> x in tasks;
    SameTables(places, WithNumbers(moved, h, first), table);
  }

  lemma MovedNumbers(places: Places, tasks: Tasks, id: int, column: int, order: int, first: int)
    requires Forest(tasks) && id in tasks && MoveItems(places, tasks, id, column) == HierarchyOf(tasks, false, id)
    ensures var h := HierarchyOf(tasks, false, id);
      TableOf(places, WithNumbers(MovedRows(places, tasks, id, column, order), h, first))
        == TableOf(places, tasks) + L.Numbers(places.ProjectOfColumn(column), h, first)
  {
    var h := HierarchyOf(tasks, false, id);
    var moved := MovedRows(places, tasks, id, column, order);
    MovedRowsFrame(places, tasks, id, column, order);
    forall x | x in h ensures x in tasks { HierarchyInTable(tasks, false, id, x); }
    MovedRowsNumbers(places, tasks, id, column, order);
    NumberedRows(places, tasks, moved, h, column, first);
  }

  lemma FirstForHierarchy(places: Places, db: Db, id: int, column: int, order: int)
    requires id in db.tasks && db.tasks[id].parent.None?
    ensures FirstForMove(TableOf(places, db.tasks), db.counters, id, places.ProjectOfColumn(column))
         == FirstMoved(places, db, id, column, order)
  {
    RootIsSeen(places, db.tasks, id, column, order);
    SameSelection(places, MoveRoot(db.tasks, id, column, order), places.ProjectOfColumn(column));
  }

  /** The list is one a transaction can lock row by row. */
  ghost predicate Lockable(tasks: Tasks, rows: seq<int>) {
    NoDuplicates(rows) && rows != [] && (forall x :: x in rows ==> x in tasks) && rows[0] in tasks
  }

  lemma HierarchyIsLockable(tasks: Tasks, id: int)
    requires Forest(tasks) && id in tasks
    ensures Lockable(tasks, HierarchyOf(tasks, false, id)) && HierarchyOf(tasks, false, id)[0] == id
  {
    HierarchyIsDescendants(tasks, false, id);
    forall x | x in HierarchyOf(tasks, false, id) ensures x in tasks { HierarchyInTable(tasks, false, id, x); }
  }

  /** A hierarchy numbered by the board is the table the protocol's run leaves. */
  lemma HierarchyRun(places: Places, db: Db, id: int, column: int, order: int, next: Db, end: L.State)
    requires Forest(db.tasks) && id in db.tasks
    requires MoveItems(places, db.tasks, id, column) == HierarchyOf(db.tasks, false, id)
    requires var h, target := HierarchyOf(db.tasks, false, id), places.ProjectOfColumn(column);
      var first := FirstMoved(places, db, id, column, order);
      && next.tasks == WithNumbers(MovedRows(places, db.tasks, id, column, order), h, first)
      && next.counters == db.counters[target := first + |h| - 1]
      && Renumbered(end, TableOf(places, db.tasks), db.counters, target, target, h, first)
    ensures EndsAs(places, end, next)
  {
    MovedNumbers(places, db.tasks, id, column, order, FirstMoved(places, db, id, column, order));
  }

  /** Moving a root into another project is a run of one transaction. */
  lemma MoveIsARun(places: Places, site: Site, db: Db, id: int, column: int, order: int, user: int)
    requires Sound(db) && PerformMove(places, site, db, id, column, order, user).Done?
    requires places.ProjectOfColumn(db.tasks[id].columnId) != places.ProjectOfColumn(column)
    ensures var steps := MoveSteps(places.ProjectOfColumn(column), HierarchyOf(db.tasks, false, id));
      EndsAs(places, L.Run(StateOf(places, db), steps), PerformMove(places, site, db, id, column, order, user).db)
  {
    AcrossProjects(places, site, db, id, column, order, user);
    HierarchyIsLockable(db.tasks, id);
    FirstForHierarchy(places, db, id, column, order);
    var s, target, h := StateOf(places, db), places.ProjectOfColumn(column), HierarchyOf(db.tasks, false, id);
    MovingRun(s, target, h);
    HierarchyRun(places, db, id, column, order,
                 PerformMove(places, site, db, id, column, order, user).db, L.Run(s, MoveSteps(target, h)));
  }
}
