/**
 Boards and task numbers, call by call. Every call but restore keeps active children on their
 parent's board and task numbers distinct within a project, archived tasks included; a move
 into another project numbers what it carries. `BoardPlacement` says what restore does to this.
 */
module BoardNumbers {
  import opened Wrappers
  import opened SortedListing
  import opened Numbering
  import opened TaskRows
  import opened Hierarchy
  import opened ColumnOrder
  import opened BoardSpec
  import opened BoardTree

  ghost predicate Placed(places: Places, db: Db) {
    && Sound(db)
    && SameBoard(places, db.tasks)
    && UniqueNumbers(places, db.tasks)
  }

  lemma FirstNumberIsFresh(places: Places, db: Db, tasks: Tasks, project: int, x: int)
    requires x in tasks && places.ProjectOfColumn(tasks[x].columnId) == project
    ensures tasks[x].number < FirstNumber(places, db.counters, tasks, project)
  {
    MaxNumberBounds(places, tasks, project, x);
  }

  /** A new task, numbered above everything in its project. */
  lemma AddRowUnique(places: Places, counters: map<int, int>, tasks: Tasks, id: int, task: Task)
    requires UniqueNumbers(places, tasks) && id !in tasks
    requires task.number == FirstNumber(places, counters, tasks, places.ProjectOfColumn(task.columnId))
    ensures UniqueNumbers(places, tasks[id := task])
  {
    var project := places.ProjectOfColumn(task.columnId);
    forall x | x in tasks && places.ProjectOfColumn(tasks[x].columnId) == project
      ensures tasks[x].number < task.number
    {
      MaxNumberBounds(places, tasks, project, x);
    }
  }

  /** A new task on its parent's column. */
  lemma AddRowPlaced(places: Places, counters: map<int, int>, tasks: Tasks, id: int, task: Task)
    requires SameBoard(places, tasks) && UniqueNumbers(places, tasks) && id !in tasks
    requires forall x :: x in tasks && tasks[x].parent.Some? ==> tasks[x].parent.value in tasks
    requires task.parent.Some? ==>
      task.parent.value in tasks && tasks[task.parent.value].columnId == task.columnId
    requires task.number == FirstNumber(places, counters, tasks, places.ProjectOfColumn(task.columnId))
    ensures SameBoard(places, tasks[id := task]) && UniqueNumbers(places, tasks[id := task])
  {
    AddRowUnique(places, counters, tasks, id, task);
  }

  lemma ParentsPresent(tasks: Tasks, x: int)
    requires Forest(tasks) && x in tasks && tasks[x].parent.Some?
    ensures tasks[x].parent.value in tasks
  {
    var rank :| Ranked(tasks, rank);
  }

  /** The shift that makes room for a new task changes no number and no column. */
  lemma ShiftKeepsNumbers(places: Places, tasks: Tasks, column: int, project: int)
    ensures var shifted := ShiftRoots(tasks, column);
      && SameTree(tasks, shifted)
      && (forall x :: x in tasks ==>
            shifted[x].number == tasks[x].number && shifted[x].columnId == tasks[x].columnId)
      && MaxNumber(places, shifted, project) == MaxNumber(places, tasks, project)
  {
    SameNumberKeys(places, tasks, ShiftRoots(tasks, column), project);
  }

  lemma CreateUnique(places: Places, site: Site, db: Db, column: int, dto: CreateDto, user: int)
    requires Sound(db) && UniqueNumbers(places, db.tasks)
    requires PerformCreate(places, site, db, column, dto, user).Done?
    ensures UniqueNumbers(places, PerformCreate(places, site, db, column, dto, user).db.tasks)
  {
    var shifted := ShiftRoots(db.tasks, column);
    var result := PerformCreate(places, site, db, column, dto, user).db.tasks;
    ShiftKeepsNumbers(places, db.tasks, column, places.ProjectOfColumn(column));
    SameProjectsUnique(places, db.tasks, shifted);
    AddRowUnique(places, db.counters, shifted, db.nextId, result[db.nextId]);
  }

  lemma CreatePlaced(places: Places, site: Site, db: Db, column: int, dto: CreateDto, user: int)
    requires Placed(places, db) && PerformCreate(places, site, db, column, dto, user).Done?
    ensures Placed(places, PerformCreate(places, site, db, column, dto, user).db)
  {
    CreateSound(places, site, db, column, dto, user);
    CreateUnique(places, site, db, column, dto, user);
    ShiftKeepsNumbers(places, db.tasks, column, places.ProjectOfColumn(column));
    var result := PerformCreate(places, site, db, column, dto, user).db.tasks;
    forall x | x in result && !result[x].archived && result[x].parent.Some?
      ensures result[x].parent.value in result
              && places.BoardOf(result[x].columnId) == places.BoardOf(result[result[x].parent.value].columnId)
    {
      assert x in db.tasks;
      ParentsPresent(db.tasks, x);
    }
  }

  lemma SameNumberKeys(places: Places, tasks: Tasks, result: Tasks, project: int)
    requires result.Keys == tasks.Keys
    requires forall x :: x in tasks ==>
      result[x].number == tasks[x].number && result[x].columnId == tasks[x].columnId
    ensures NumberKeys(places, tasks, project) == NumberKeys(places, result, project)
  {
    var keys, keys' := NumberKeys(places, tasks, project), NumberKeys(places, result, project);
    assert forall x :: x in keys <==> x in keys';
    assert forall x :: x in keys ==> keys[x] == keys'[x];
  }

  lemma SubtaskPlaced(places: Places, site: Site, db: Db, above: int, dto: CreateDto, user: int)
    requires Placed(places, db) && PerformCreateSubtask(places, site, db, above, dto, user).Done?
    ensures Placed(places, PerformCreateSubtask(places, site, db, above, dto, user).db)
  {
    StepSound(places, db, Call(site, user, CreateSubtask(above, dto)));
    var result := PerformCreateSubtask(places, site, db, above, dto, user).db.tasks;
    forall x | x in db.tasks && db.tasks[x].parent.Some? ensures db.tasks[x].parent.value in db.tasks {
      ParentsPresent(db.tasks, x);
    }
    AddRowPlaced(places, db.counters, db.tasks, db.nextId, result[db.nextId]);
  }

  /** A new parent is on the task's board, and a task that leaves its parent stays there. */
  lemma ReparentedBoards(places: Places, site: Site, tasks: Tasks, id: int, parent: Option<int>, user: int,
                         result: Tasks, after: Task)
    requires Forest(tasks) && ArchiveClosed(tasks) && SameBoard(places, tasks) && ActiveTask(tasks, id)
    requires parent != tasks[id].parent
    requires ParentCheck(places, site, tasks, id, parent, user).Pass?
    requires var row := Reorder(tasks, id, parent)[id];
      after.parent == parent && after.columnId == row.columnId && after.archived == row.archived
    requires result == Reorder(tasks, id, parent)[id := after]
    ensures SameBoard(places, result)
    ensures places.BoardOf(after.columnId) == places.BoardOf(tasks[id].columnId)
  {
    ReorderFrame(tasks, id, parent);
    if parent.None? {
      var above := tasks[id].parent.value;
      PlaceHolds(tasks, id, tasks[above].columnId, tasks[above].order + 1);
    } else {
      CloseGapHolds(tasks, tasks[id].columnId, id);
    }
    forall x | x in tasks && x != id
      ensures result[x].parent == tasks[x].parent && result[x].columnId == tasks[x].columnId
              && result[x].archived == tasks[x].archived
    {}
  }

  lemma SameProjectsUnique(places: Places, tasks: Tasks, result: Tasks)
    requires UniqueNumbers(places, tasks) && result.Keys == tasks.Keys
    requires forall x :: x in tasks ==>
      && result[x].number == tasks[x].number
      && places.ProjectOfColumn(result[x].columnId) == places.ProjectOfColumn(tasks[x].columnId)
    ensures UniqueNumbers(places, result)
  {}

  lemma UpdatePlaced(places: Places, site: Site, db: Db, id: int, dto: UpdateDto, user: int)
    requires Placed(places, db) && PerformUpdate(places, site, db, id, dto, user).Done?
    ensures Placed(places, PerformUpdate(places, site, db, id, dto, user).db)
  {
    UpdateSound(places, site, db, id, dto, user);
    var tasks := db.tasks;
    var result := PerformUpdate(places, site, db, id, dto, user).db.tasks;
    if Reparents(tasks[id], dto) {
      var parent := dto.parent.value;
      ReorderFrame(tasks, id, parent);
      ReparentedBoards(places, site, tasks, id, parent, user, result, result[id]);
      forall x | x in tasks
        ensures result[x].number == tasks[x].number
                && places.ProjectOfColumn(result[x].columnId) == places.ProjectOfColumn(tasks[x].columnId)
      {
        assert x != id ==> result[x].(order := tasks[x].order) == tasks[x];
      }
      SameProjectsUnique(places, tasks, result);
    }
  }

  /** Through active rows, everything below a task is on its board. */
  lemma {:induction false} DescendantsOnBoard(places: Places, tasks: Tasks, root: int, x: int, n: nat)
    requires SameBoard(places, tasks) && root in tasks && Under(tasks, false, root, x, n)
    ensures x in tasks && places.BoardOf(tasks[x].columnId) == places.BoardOf(tasks[root].columnId)
    decreases n
  {
    if n > 0 {
      DescendantsOnBoard(places, tasks, root, tasks[x].parent.value, n - 1);
    }
  }

  lemma ItemsOnBoard(places: Places, tasks: Tasks, id: int, column: int, x: int)
    requires Forest(tasks) && SameBoard(places, tasks) && id in tasks
    requires x in MoveItems(places, tasks, id, column)
    ensures x in tasks && places.BoardOf(tasks[x].columnId) == places.BoardOf(tasks[id].columnId)
  {
    if MoveItems(places, tasks, id, column) == [id] {
      assert x == id;
    } else {
      HierarchyHolds(tasks, false, id, x);
      var n: nat :| Under(tasks, false, id, x, n);
      DescendantsOnBoard(places, tasks, id, x, n);
    }
  }

  /** The moved rows share the target column, the rest keep theirs, and no edge joins the two. */
  lemma MovedSameBoard(places: Places, tasks: Tasks, id: int, column: int, order: int)
    requires Forest(tasks) && SameBoard(places, tasks) && ActiveTask(tasks, id)
    requires tasks[id].parent.Some? ==> places.BoardOf(tasks[id].columnId) == places.BoardOf(column)
    ensures SameBoard(places, MovedRows(places, tasks, id, column, order))
  {
    var r := MovedRows(places, tasks, id, column, order);
    var items := MoveItems(places, tasks, id, column);
    MovedRowsFrame(places, tasks, id, column, order);
    forall x | x in r && !r[x].archived && r[x].parent.Some?
      ensures r[x].parent.value in r
              && places.BoardOf(r[x].columnId) == places.BoardOf(r[r[x].parent.value].columnId)
    {
      var p := tasks[x].parent.value;
      if places.BoardOf(tasks[id].columnId) != places.BoardOf(column) {
        HierarchyHolds(tasks, false, id, x);
        HierarchyHolds(tasks, false, id, p);
        if x in items {
          DescendsFromParent(tasks, false, id, x);
        } else if p in items {
          DescendsToChildren(tasks, false, id, p, x);
        }
      }
    }
  }

  /** A range of fresh numbers, handed out down the moved list. */
  lemma NumberedMoveIsUnique(places: Places, db: Db, tasks: Tasks, id: int, column: int, order: int)
    requires Forest(tasks) && UniqueNumbers(places, tasks) && ActiveTask(tasks, id)
    requires tasks[id].parent.None?
    requires places.ProjectOfColumn(tasks[id].columnId) != places.ProjectOfColumn(column)
    ensures var seen := MoveRoot(tasks, id, column, order);
      var items := MoveItems(places, tasks, id, column);
      var first := FirstNumber(places, db.counters, seen, places.ProjectOfColumn(column));
      UniqueNumbers(places, WithNumbers(MovedRows(places, tasks, id, column, order), items, first))
  {
    var seen := MoveRoot(tasks, id, column, order);
    var items := MoveItems(places, tasks, id, column);
    var project := places.ProjectOfColumn(column);
    var first := FirstNumber(places, db.counters, seen, project);
    var moved := MovedRows(places, tasks, id, column, order);
    var r := WithNumbers(moved, items, first);
    MovedRowsFrame(places, tasks, id, column, order);
    MoveRootFrame(tasks, id, column, order);
    ItemsHoldTask(places, tasks, id, column);
    forall x | x in r && x !in items && places.ProjectOfColumn(r[x].columnId) == project
      ensures r[x].number < first
    {
      assert seen[x].(order := tasks[x].order) == tasks[x];
      FirstNumberIsFresh(places, db, seen, project, x);
    }
    forall x, y | x in r && y in r && x != y
      && places.ProjectOfColumn(r[x].columnId) == places.ProjectOfColumn(r[y].columnId)
      ensures r[x].number != r[y].number
    {
      if x in items && y in items {
        assert IndexOf(items, x) != IndexOf(items, y);
      }
    }
  }

  lemma WithNumbersFrame(places: Places, tasks: Tasks, items: seq<int>, first: int)
    requires SameBoard(places, tasks)
    ensures SameBoard(places, WithNumbers(tasks, items, first))
  {}

  lemma MoveWithinProject(places: Places, tasks: Tasks, id: int, column: int, order: int)
    requires Forest(tasks) && SameBoard(places, tasks) && UniqueNumbers(places, tasks) && id in tasks
    requires places.ProjectOfColumn(tasks[id].columnId) == places.ProjectOfColumn(column)
    ensures UniqueNumbers(places, MovedRows(places, tasks, id, column, order))
  {
    var moved := MovedRows(places, tasks, id, column, order);
    MovedRowsFrame(places, tasks, id, column, order);
    MovedRowsNumbers(places, tasks, id, column, order);
    forall x | x in tasks
      ensures places.ProjectOfColumn(moved[x].columnId) == places.ProjectOfColumn(tasks[x].columnId)
    {
      if x in MoveItems(places, tasks, id, column) {
        ItemsOnBoard(places, tasks, id, column, x);
      }
    }
  }

  lemma MovePlaced(places: Places, site: Site, db: Db, id: int, column: int, order: int, user: int)
    requires Placed(places, db) && PerformMove(places, site, db, id, column, order, user).Done?
    ensures Placed(places, PerformMove(places, site, db, id, column, order, user).db)
  {
    MoveSound(places, site, db, id, column, order, user);
    var tasks := db.tasks;
    var moved := MovedRows(places, tasks, id, column, order);
    MovedSameBoard(places, tasks, id, column, order);
    if places.ProjectOfColumn(tasks[id].columnId) != places.ProjectOfColumn(column) {
      NumberedMoveIsUnique(places, db, tasks, id, column, order);
      var first := FirstNumber(places, db.counters, MoveRoot(tasks, id, column, order), places.ProjectOfColumn(column));
      WithNumbersFrame(places, moved, MoveItems(places, tasks, id, column), first);
    } else {
      MoveWithinProject(places, tasks, id, column, order);
    }
  }

  lemma DeletePlaced(places: Places, site: Site, db: Db, id: int, user: int)
    requires Placed(places, db) && PerformDelete(places, site, db, id, user).Done?
    ensures Placed(places, PerformDelete(places, site, db, id, user).db)
  {
    DeleteSound(places, site, db, id, user);
  }

  lemma StepPlaced(places: Places, db: Db, call: Call)
    requires Placed(places, db) && !call.op.Restore?
    ensures Placed(places, After(places, db, call))
  {
    if Perform(places, db, call).Done? {
      match call.op
      case Create(column, dto) => CreatePlaced(places, call.site, db, column, dto, call.user);
      case CreateSubtask(above, dto) => SubtaskPlaced(places, call.site, db, above, dto, call.user);
      case Update(id, dto) => UpdatePlaced(places, call.site, db, id, dto, call.user);
      case Move(id, column, order) => MovePlaced(places, call.site, db, id, column, order, call.user);
      case Delete(id) => DeletePlaced(places, call.site, db, id, call.user);
    }
  }

  lemma NumberedDown(tasks: Tasks, items: seq<int>, first: int)
    requires NoDuplicates(items) && forall x :: x in items ==> x in tasks
    ensures forall i :: 0 <= i < |items| ==>
      items[i] in tasks && WithNumbers(tasks, items, first)[items[i]].number == first + i
  {
    forall i | 0 <= i < |items|
      ensures items[i] in tasks && WithNumbers(tasks, items, first)[items[i]].number == first + i
    {
      var x := items[i];
      assert x in items && IndexOf(items, x) == i;
    }
  }

  lemma HierarchyInTable(tasks: Tasks, all: bool, id: int, x: int)
    requires Forest(tasks) && id in tasks && x in HierarchyOf(tasks, all, id)
    ensures x in tasks
  {
    HierarchyHolds(tasks, all, id, x);
    if x != id { DescendsFromParent(tasks, all, id, x); }
  }

  /** Only roots move between projects, and they take their hierarchy along. */
  lemma AcrossProjectsItems(places: Places, site: Site, db: Db, id: int, column: int, user: int)
    requires MoveCheck(places, site, db, id, column, user).Pass?
    requires id in db.tasks && places.ProjectOfColumn(db.tasks[id].columnId) != places.ProjectOfColumn(column)
    ensures db.tasks[id].parent.None?
    ensures MoveItems(places, db.tasks, id, column) == HierarchyOf(db.tasks, false, id)
  {}

  lemma AcrossProjectsRows(places: Places, db: Db, id: int, column: int, order: int)
    requires id in db.tasks
    requires places.ProjectOfColumn(db.tasks[id].columnId) != places.ProjectOfColumn(column)
    ensures AfterMove(places, db, id, column, order)
         == WithNumbers(MovedRows(places, db.tasks, id, column, order), MoveItems(places, db.tasks, id, column),
                        FirstMoved(places, db, id, column, order))
  {}

  lemma AcrossProjectsCounter(places: Places, db: Db, id: int, column: int, order: int, user: int)
    requires id in db.tasks
    requires places.ProjectOfColumn(db.tasks[id].columnId) != places.ProjectOfColumn(column)
    ensures MoveResult(places, db, id, column, order, user).counters
         == db.counters[places.ProjectOfColumn(column) :=
              FirstMoved(places, db, id, column, order) + |MoveItems(places, db.tasks, id, column)| - 1]
  {}

  /** The first number is above the counter and all that the query sees with the root in its new place. */
  lemma FirstOfRoot(places: Places, db: Db, id: int, column: int, order: int)
    requires id in db.tasks && db.tasks[id].parent.None?
    ensures FirstMoved(places, db, id, column, order)
         == FirstNumber(places, db.counters, MoveRoot(db.tasks, id, column, order), places.ProjectOfColumn(column))
         > Counter(db.counters, places.ProjectOfColumn(column))
  {}

  /** What a move between projects leaves in the task table and the counters. */
  lemma AcrossProjects(places: Places, site: Site, db: Db, id: int, column: int, order: int, user: int)
    requires PerformMove(places, site, db, id, column, order, user).Done?
    requires places.ProjectOfColumn(db.tasks[id].columnId) != places.ProjectOfColumn(column)
    ensures db.tasks[id].parent.None?
    ensures MoveItems(places, db.tasks, id, column) == HierarchyOf(db.tasks, false, id)
    ensures var next := PerformMove(places, site, db, id, column, order, user).db;
      var h := HierarchyOf(db.tasks, false, id);
      var target := places.ProjectOfColumn(column);
      var first := FirstMoved(places, db, id, column, order);
      && next.tasks == WithNumbers(MovedRows(places, db.tasks, id, column, order), h, first)
      && next.counters == db.counters[target := first + |h| - 1]
  {
    MoveGivesResult(places, site, db, id, column, order, user);
    AcrossProjectsItems(places, site, db, id, column, user);
    AcrossProjectsRows(places, db, id, column, order);
    AcrossProjectsCounter(places, db, id, column, order, user);
  }

  lemma RangeIsAboveTarget(places: Places, db: Db, tasks: Tasks, id: int, column: int, order: int, x: int)
    requires id in tasks && x in tasks && x != id
    requires places.ProjectOfColumn(tasks[x].columnId) == places.ProjectOfColumn(column)
    ensures tasks[x].number
         < FirstNumber(places, db.counters, MoveRoot(tasks, id, column, order), places.ProjectOfColumn(column))
  {
    var seen := MoveRoot(tasks, id, column, order);
    MoveRootFrame(tasks, id, column, order);
    assert seen[x].(order := tasks[x].order) == tasks[x];
    FirstNumberIsFresh(places, db, seen, places.ProjectOfColumn(column), x);
  }

  /** The list is numbered `first`, `first + 1`, ..., above all of the target; the rest keeps its numbers. */
  ghost predicate NumberedAbove(places: Places, tasks: Tasks, next: Tasks, list: seq<int>, target: int, first: int) {
    && next.Keys == tasks.Keys
    && (forall i :: 0 <= i < |list| ==> list[i] in next && next[list[i]].number == first + i)
    && (forall x :: x in tasks && places.ProjectOfColumn(tasks[x].columnId) == target && x !in list ==>
          tasks[x].number < first)
    && (forall x :: x in tasks && x !in list ==> next[x].number == tasks[x].number)
  }

  lemma TargetIsBelow(places: Places, db: Db, id: int, column: int, order: int)
    requires id in db.tasks && db.tasks[id].parent.None?
    ensures forall x ::
      (x in db.tasks && x != id
       && places.ProjectOfColumn(db.tasks[x].columnId) == places.ProjectOfColumn(column)) ==>
      db.tasks[x].number < FirstMoved(places, db, id, column, order)
  {
    FirstOfRoot(places, db, id, column, order);
    forall x | x in db.tasks && x != id
      && places.ProjectOfColumn(db.tasks[x].columnId) == places.ProjectOfColumn(column)
      ensures db.tasks[x].number < FirstMoved(places, db, id, column, order)
    {
      RangeIsAboveTarget(places, db, db.tasks, id, column, order, x);
    }
  }

  lemma HierarchyNumbers(places: Places, db: Db, id: int, column: int, order: int)
    requires Forest(db.tasks) && id in db.tasks && db.tasks[id].parent.None?
    requires MoveItems(places, db.tasks, id, column) == HierarchyOf(db.tasks, false, id)
    ensures var h := HierarchyOf(db.tasks, false, id);
      var first := FirstMoved(places, db, id, column, order);
      NumberedAbove(places, db.tasks, WithNumbers(MovedRows(places, db.tasks, id, column, order), h, first),
                    h, places.ProjectOfColumn(column), first)
  {
    var tasks, h := db.tasks, HierarchyOf(db.tasks, false, id);
    var moved := MovedRows(places, tasks, id, column, order);
    var first := FirstMoved(places, db, id, column, order);
    HierarchyIsDescendants(tasks, false, id);
    MovedRowsFrame(places, tasks, id, column, order);
    forall x | x in h ensures x in moved { HierarchyInTable(tasks, false, id, x); }
    NumberedDown(moved, h, first);
    assert h[0] == id && id in h;
    TargetIsBelow(places, db, id, column, order);
    MovedRowsNumbers(places, tasks, id, column, order);
  }

  /**
   A move between projects numbers the hierarchy consecutively from above everything in the
   target, each parent below its children, and leaves all other numbers alone.
   */
  lemma CrossProjectNumbers(places: Places, site: Site, db: Db, id: int, column: int, order: int, user: int)
    requires Sound(db) && PerformMove(places, site, db, id, column, order, user).Done?
    requires places.ProjectOfColumn(db.tasks[id].columnId) != places.ProjectOfColumn(column)
    ensures var h := HierarchyOf(db.tasks, false, id);
      var next := PerformMove(places, site, db, id, column, order, user).db;
      var target := places.ProjectOfColumn(column);
      && NumberedAbove(places, db.tasks, next.tasks, h, target, Counter(next.counters, target) - |h| + 1)
      && Counter(next.counters, target) - |h| >= Counter(db.counters, target)
  {
    AcrossProjects(places, site, db, id, column, order, user);
    HierarchyNumbers(places, db, id, column, order);
    FirstOfRoot(places, db, id, column, order);
  }

  /** Numbers that rise down the hierarchy are lower on parents than on their children. */
  lemma RisingNumbers(places: Places, tasks: Tasks, next: Tasks, id: int, target: int, first: int, x: int)
    requires Forest(tasks) && id in tasks && SameParents(tasks, next)
    requires NumberedAbove(places, tasks, next, HierarchyOf(tasks, false, id), target, first)
    requires x in HierarchyOf(tasks, false, id) && x != id
    ensures x in next && next[x].parent.Some? && next[x].parent.value in next
    ensures next[next[x].parent.value].number < next[x].number
  {
    var h := HierarchyOf(tasks, false, id);
    RootFirst(tasks, false, id, |tasks|);
    var i :| 0 <= i < |h| && h[i] == x;
    HierarchyParentsFirst(tasks, false, id, i);
    var j :| 0 <= j < i && h[j] == tasks[h[i]].parent.value;
    assert next[h[j]].number < next[h[i]].number;
  }

  lemma ParentsNumberedLower(places: Places, site: Site, db: Db, id: int, column: int, order: int, user: int, x: int)
    requires Sound(db) && PerformMove(places, site, db, id, column, order, user).Done?
    requires places.ProjectOfColumn(db.tasks[id].columnId) != places.ProjectOfColumn(column)
    requires x in HierarchyOf(db.tasks, false, id) && x != id
    ensures var next := PerformMove(places, site, db, id, column, order, user).db.tasks;
      && x in next && next[x].parent.Some? && next[x].parent.value in next
      && next[next[x].parent.value].number < next[x].number
  {
    var next := PerformMove(places, site, db, id, column, order, user).db;
    var target := places.ProjectOfColumn(column);
    CrossProjectNumbers(places, site, db, id, column, order, user);
    MoveGivesResult(places, site, db, id, column, order, user);
    AfterMoveFrame(places, db, id, column, order);
    RisingNumbers(places, db.tasks, next.tasks, id, target,
                  Counter(next.counters, target) - |HierarchyOf(db.tasks, false, id)| + 1, x);
  }
}
