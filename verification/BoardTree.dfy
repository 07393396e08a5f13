/**
 What every run of the six operations keeps: the rows stay a forest, and no active task
 hangs below an archived one. The traversal without a visited set relies on the first,
 delete and restore on the second.
 */
module BoardTree {
  import opened Wrappers
  import opened SortedListing
  import opened TaskRows
  import opened Hierarchy
  import opened ColumnOrder
  import opened BoardSpec

  ghost predicate Sound(db: Db) {
    && Forest(db.tasks)
    && ArchiveClosed(db.tasks)
    && forall x :: x in db.tasks ==> x < db.nextId
  }

  /** Same rows, same parents. */
  ghost predicate SameParents(tasks: Tasks, result: Tasks) {
    && result.Keys == tasks.Keys
    && forall x :: x in tasks ==> result[x].parent == tasks[x].parent
  }

  ghost predicate SameTree(tasks: Tasks, result: Tasks) {
    && SameParents(tasks, result)
    && forall x :: x in tasks ==> result[x].archived == tasks[x].archived
  }

  lemma SameParentsForest(tasks: Tasks, result: Tasks)
    requires Forest(tasks) && SameParents(tasks, result)
    ensures Forest(result)
  {
    var rank :| Ranked(tasks, rank);
    assert Ranked(result, rank);
  }

  lemma SameTreeSound(tasks: Tasks, result: Tasks)
    requires Forest(tasks) && ArchiveClosed(tasks) && SameTree(tasks, result)
    ensures Forest(result) && ArchiveClosed(result)
  {
    SameParentsForest(tasks, result);
  }

  /** A new row below an existing one, or a new root. */
  lemma AddRow(tasks: Tasks, id: int, task: Task)
    requires Forest(tasks) && ArchiveClosed(tasks) && id !in tasks && !task.archived
    requires task.parent.Some? ==> ActiveTask(tasks, task.parent.value)
    ensures Forest(tasks[id := task]) && ArchiveClosed(tasks[id := task])
  {
    var rank :| Ranked(tasks, rank);
    var depth := if task.parent.Some? then rank[task.parent.value] + 1 else 0;
    assert Ranked(tasks[id := task], rank[id := depth]);
  }

  /** Giving a task a root as parent: the root sinks to rank 0, all others rise. */
  lemma AttachToRoot(tasks: Tasks, result: Tasks, id: int, above: int)
    requires Forest(tasks)
    requires id in tasks && above in tasks && id != above && tasks[above].parent.None?
    requires result.Keys == tasks.Keys && result[id].parent == Some(above)
    requires forall x :: x in tasks && x != id ==> result[x].parent == tasks[x].parent
    ensures Forest(result)
  {
    var rank :| Ranked(tasks, rank);
    var lifted: map<int, nat> := map x | x in rank :: if x == above then 0 else rank[x] + 1;
    assert Ranked(result, lifted);
  }

  lemma DetachKeepsForest(tasks: Tasks, result: Tasks, id: int)
    requires Forest(tasks) && id in tasks
    requires result.Keys == tasks.Keys && result[id].parent.None?
    requires forall x :: x in tasks && x != id ==> result[x].parent == tasks[x].parent
    ensures Forest(result)
  {
    var rank :| Ranked(tasks, rank);
    assert Ranked(result, rank);
  }

  /** Rows keep all but their order; `id` may also get another column. */
  ghost predicate OnlyPlaced(tasks: Tasks, result: Tasks, id: int) {
    && SameTree(tasks, result)
    && (forall x :: x in tasks && x != id ==> result[x].(order := tasks[x].order) == tasks[x])
    && id in tasks
    && result[id].(order := tasks[id].order, columnId := tasks[id].columnId) == tasks[id]
  }

  lemma PlaceFrame(tasks: Tasks, id: int, column: int, requested: int)
    requires id in tasks
    ensures OnlyPlaced(tasks, Place(tasks, id, column, requested), id)
  {
    PlaceHolds(tasks, id, column, requested);
    var r := Place(tasks, id, column, requested);
    forall x | x in tasks ensures r[x].parent == tasks[x].parent && r[x].archived == tasks[x].archived {
      assert x != id ==> r[x].(order := tasks[x].order) == tasks[x];
    }
  }

  lemma AttachFrame(tasks: Tasks, id: int, above: int)
    requires id in tasks
    ensures OnlyPlaced(tasks, Reorder(tasks, id, Some(above)), id)
  {
    CloseGapHolds(tasks, tasks[id].columnId, id);
    var r := Reorder(tasks, id, Some(above));
    forall x | x in tasks ensures r[x].parent == tasks[x].parent && r[x].archived == tasks[x].archived {
      assert x != id ==> r[x].(order := tasks[x].order) == tasks[x];
    }
  }

  lemma ReorderFrame(tasks: Tasks, id: int, parent: Option<int>)
    requires id in tasks
    ensures OnlyPlaced(tasks, Reorder(tasks, id, parent), id)
  {
    match parent
    case Some(above) => AttachFrame(tasks, id, above);
    case None =>
      if tasks[id].parent.Some? && tasks[id].parent.value in tasks {
        var above := tasks[tasks[id].parent.value];
        PlaceFrame(tasks, id, above.columnId, above.order + 1);
      }
  }

  lemma UpdateSound(places: Places, site: Site, db: Db, id: int, dto: UpdateDto, user: int)
    requires Sound(db) && PerformUpdate(places, site, db, id, dto, user).Done?
    ensures Sound(PerformUpdate(places, site, db, id, dto, user).db)
  {
    var tasks := db.tasks;
    var result := PerformUpdate(places, site, db, id, dto, user).db.tasks;
    if Reparents(tasks[id], dto) {
      var parent := dto.parent.value;
      ReorderFrame(tasks, id, parent);
      assert ParentCheck(places, site, tasks, id, parent, user).Pass?;
      if parent.Some? {
        AttachToRoot(tasks, result, id, parent.value);
      } else {
        DetachKeepsForest(tasks, result, id);
      }
    } else {
      SameTreeSound(tasks, result);
    }
  }

  lemma WithColumnFrame(tasks: Tasks, placed: Tasks, items: seq<int>, id: int, column: int)
    requires id in items && placed.Keys == tasks.Keys
    requires forall x :: x in tasks ==>
      placed[x].(order := tasks[x].order, columnId := tasks[x].columnId) == tasks[x]
    requires forall x :: x in tasks && x != id ==> placed[x].columnId == tasks[x].columnId
    ensures var r := WithColumn(placed, items, column);
      && SameTree(tasks, r)
      && (forall x :: x in tasks ==>
            r[x].(order := tasks[x].order, columnId := tasks[x].columnId) == tasks[x])
      && (forall x :: x in tasks ==>
            r[x].columnId == (if x in items then column else tasks[x].columnId))
  {}

  /** A move sets the column of the moved rows and the order of roots, nothing else. */
  lemma MovedRowsFrame(places: Places, tasks: Tasks, id: int, column: int, order: int)
    requires id in tasks
    ensures var r := MovedRows(places, tasks, id, column, order);
      && SameTree(tasks, r)
      && (forall x :: x in tasks ==>
            r[x].(order := tasks[x].order, columnId := tasks[x].columnId) == tasks[x])
      && (forall x :: x in tasks ==>
            r[x].columnId == (if x in MoveItems(places, tasks, id, column) then column else tasks[x].columnId))
  {
    MoveRootFrame(tasks, id, column, order);
    ItemsHoldTask(places, tasks, id, column);
    var placed := if tasks[id].parent.Some? then tasks else MoveRoot(tasks, id, column, order);
    forall x | x in tasks
      ensures placed[x].(order := tasks[x].order, columnId := tasks[x].columnId) == tasks[x]
    {
      assert x != id ==> placed[x].(order := tasks[x].order) == tasks[x];
    }
    WithColumnFrame(tasks, placed, MoveItems(places, tasks, id, column), id, column);
  }

  lemma MovedRowsNumbers(places: Places, tasks: Tasks, id: int, column: int, order: int)
    requires id in tasks
    ensures forall x :: x in tasks ==> MovedRows(places, tasks, id, column, order)[x].number == tasks[x].number
  {
    var moved := MovedRows(places, tasks, id, column, order);
    MovedRowsFrame(places, tasks, id, column, order);
    forall x | x in tasks ensures moved[x].number == tasks[x].number {
      assert moved[x].(order := tasks[x].order, columnId := tasks[x].columnId) == tasks[x];
    }
  }

  /** Numbering changes neither parents nor archive flags. */
  lemma AfterMoveFrame(places: Places, db: Db, id: int, column: int, order: int)
    requires id in db.tasks
    ensures SameTree(db.tasks, AfterMove(places, db, id, column, order))
  {
    MovedRowsFrame(places, db.tasks, id, column, order);
  }

  /** What a permitted move leaves is the computed result. */
  lemma MoveGivesResult(places: Places, site: Site, db: Db, id: int, column: int, order: int, user: int)
    requires PerformMove(places, site, db, id, column, order, user).Done?
    ensures id in db.tasks && MoveCheck(places, site, db, id, column, user).Pass?
    ensures PerformMove(places, site, db, id, column, order, user).db == MoveResult(places, db, id, column, order, user)
  {}

  lemma ItemsHoldTask(places: Places, tasks: Tasks, id: int, column: int)
    requires id in tasks
    ensures id in MoveItems(places, tasks, id, column)
  {
    RootFirst(tasks, false, id, |tasks|);
  }

  lemma MoveSound(places: Places, site: Site, db: Db, id: int, column: int, order: int, user: int)
    requires Sound(db) && PerformMove(places, site, db, id, column, order, user).Done?
    ensures Sound(PerformMove(places, site, db, id, column, order, user).db)
  {
    MoveGivesResult(places, site, db, id, column, order, user);
    AfterMoveFrame(places, db, id, column, order);
    SameTreeSound(db.tasks, AfterMove(places, db, id, column, order));
  }

  lemma DeleteSound(places: Places, site: Site, db: Db, id: int, user: int)
    requires Sound(db) && PerformDelete(places, site, db, id, user).Done?
    ensures Sound(PerformDelete(places, site, db, id, user).db)
  {
    var tasks := db.tasks;
    var result := PerformDelete(places, site, db, id, user).db.tasks;
    SameParentsForest(tasks, result);
    forall x | x in result && !result[x].archived && result[x].parent.Some?
      ensures ActiveTask(result, result[x].parent.value)
    {
      var p := tasks[x].parent.value;
      if p in HierarchyOf(tasks, false, id) {
        HierarchyHolds(tasks, false, id, p);
        HierarchyHolds(tasks, false, id, x);
        DescendsToChildren(tasks, false, id, p, x);
      }
    }
  }

  /**
   Reviving the hierarchy of an archived task keeps active tasks off archived ones if and only
   if the task is a root or its parent is active.
   */
  lemma RevivalIff(tasks: Tasks, id: int)
    requires Forest(tasks) && ArchiveClosed(tasks) && id in tasks && tasks[id].archived
    ensures var next := WithArchived(tasks, HierarchyOf(tasks, true, id), false);
      && Forest(next)
      && (ArchiveClosed(next) <==> (tasks[id].parent.Some? ==> ActiveTask(tasks, tasks[id].parent.value)))
  {
    var next := WithArchived(tasks, HierarchyOf(tasks, true, id), false);
    SameParentsForest(tasks, next);
    RootFirst(tasks, true, id, |tasks|);
    assert next[id] == tasks[id].(archived := false);
    if tasks[id].parent.Some? { ParentIsNotBelow(tasks, id); }
    forall x | x in next && x != id && !next[x].archived && next[x].parent.Some?
      ensures ActiveTask(next, next[x].parent.value)
    {
      var p := tasks[x].parent.value;
      assert p in tasks by { var rank :| Ranked(tasks, rank); }
      if x in HierarchyOf(tasks, true, id) {
        HierarchyHolds(tasks, true, id, x);
        DescendsFromParent(tasks, true, id, x);
        HierarchyHolds(tasks, true, id, p);
      }
    }
  }

  lemma ParentIsNotBelow(tasks: Tasks, id: int)
    requires Forest(tasks) && id in tasks && tasks[id].parent.Some?
    ensures tasks[id].parent.value in tasks
    ensures tasks[id].parent.value !in HierarchyOf(tasks, true, id)
  {
    var rank :| Ranked(tasks, rank);
    var p := tasks[id].parent.value;
    HierarchyHolds(tasks, true, id, p);
    if Descends(tasks, true, id, p) {
      var n: nat :| Under(tasks, true, id, p, n);
      UnderRaisesRank(tasks, rank, true, id, p, n);
      assert false;
    }
  }

  lemma RestoreSound(places: Places, site: Site, db: Db, id: int, user: int)
    requires Sound(db) && PerformRestore(places, site, db, id, user).Done?
    ensures Sound(PerformRestore(places, site, db, id, user).db)
  {
    if db.tasks[id].archived {
      assert db.tasks[id].parent.Some? ==> db.tasks[id].parent.value in db.tasks by {
        var rank :| Ranked(db.tasks, rank);
      }
      RevivalIff(db.tasks, id);
    }
  }

  lemma CreateSound(places: Places, site: Site, db: Db, column: int, dto: CreateDto, user: int)
    requires Sound(db) && PerformCreate(places, site, db, column, dto, user).Done?
    ensures Sound(PerformCreate(places, site, db, column, dto, user).db)
  {
    var shifted := ShiftRoots(db.tasks, column);
    SameTreeSound(db.tasks, shifted);
    var result := PerformCreate(places, site, db, column, dto, user).db.tasks;
    AddRow(shifted, db.nextId, result[db.nextId]);
  }

  lemma StepSound(places: Places, db: Db, call: Call)
    requires Sound(db)
    ensures Sound(After(places, db, call))
  {
    if Perform(places, db, call).Done? {
      match call.op
      case Create(column, dto) => CreateSound(places, call.site, db, column, dto, call.user);
      case CreateSubtask(above, dto) =>
        var result := PerformCreateSubtask(places, call.site, db, above, dto, call.user).db.tasks;
        AddRow(db.tasks, db.nextId, result[db.nextId]);
      case Update(id, dto) => UpdateSound(places, call.site, db, id, dto, call.user);
      case Move(id, column, order) => MoveSound(places, call.site, db, id, column, order, call.user);
      case Delete(id) => DeleteSound(places, call.site, db, id, call.user);
      case Restore(id) => RestoreSound(places, call.site, db, id, call.user);
    }
  }

  lemma RunNothing(places: Places, db: Db, calls: seq<Call>)
    ensures Run(places, db, calls[..0]) == db
  {
    assert calls[..0] == [];
  }

  /** A run goes on where its first calls leave off. */
  lemma {:induction false} RunOneMore(places: Places, db: Db, calls: seq<Call>, k: nat)
    requires k < |calls|
    ensures Run(places, db, calls[..k + 1]) == After(places, Run(places, db, calls[..k]), calls[k])
    decreases k
  {
    var first := calls[..k + 1];
    if k == 0 {
      assert first == [calls[0]] && first[1..] == [] && calls[..0] == [];
      var next := After(places, db, calls[0]);
      assert Run(places, next, []) == next;
    } else {
      RunOneMore(places, After(places, db, calls[0]), calls[1..], k - 1);
      assert first[1..] == calls[1..][..k] && calls[..k][1..] == calls[1..][..k - 1];
    }
  }

  /**
   In every run of the six operations, whatever `Site` becomes between calls, the rows stay a
   forest and no active task hangs below an archived one.
   */
  lemma {:induction false} RunSound(places: Places, db: Db, calls: seq<Call>)
    requires Sound(db)
    ensures Sound(Run(places, db, calls))
    decreases |calls|
  {
    if calls != [] {
      StepSound(places, db, calls[0]);
      RunSound(places, After(places, db, calls[0]), calls[1..]);
    }
  }

  /**
   After any run, collecting below any task yields that task first, then each of its
   descendants once, every one after its parent.
   */
  lemma HierarchyInEveryRun(places: Places, db: Db, calls: seq<Call>, all: bool, root: int)
    requires Sound(db) && root in Run(places, db, calls).tasks
    ensures var tasks := Run(places, db, calls).tasks;
      var h := HierarchyOf(tasks, all, root);
      && |h| > 0 && h[0] == root
      && NoDuplicates(h)
      && (forall x :: x in h <==> Descends(tasks, all, root, x))
      && (forall i :: 0 < i < |h| ==>
            && h[i] in tasks && tasks[h[i]].parent.Some?
            && exists j :: 0 <= j < i && h[j] == tasks[h[i]].parent.value)
  {
    RunSound(places, db, calls);
    var tasks := Run(places, db, calls).tasks;
    var h := HierarchyOf(tasks, all, root);
    HierarchyIsDescendants(tasks, all, root);
    forall i | 0 < i < |h|
      ensures && h[i] in tasks && tasks[h[i]].parent.Some?
              && exists j :: 0 <= j < i && h[j] == tasks[h[i]].parent.value
    {
      HierarchyParentsFirst(tasks, all, root, i);
    }
  }
}
