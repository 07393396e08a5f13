/**
 What create, createSubtask, update and move do to the column lists. Each keeps every column's
 orders at exactly 0, 1, ..., n-1; `BoardGaps` says when delete and restore do.
 */
module BoardDense {
  import opened Wrappers
  import opened SortedListing
  import opened TaskRows
  import opened Hierarchy
  import opened ColumnOrder
  import opened BoardSpec
  import opened BoardTree

  lemma ShiftedColumn(tasks: Tasks, id: int, task: Task, column: int)
    requires id !in tasks && DenseColumn(tasks, column)
    requires task.columnId == column && task.parent.None? && task.order == 0 && !task.archived
    ensures var next := ShiftRoots(tasks, column)[id := task];
      ColumnList(next, column) == [id] + ColumnList(tasks, column) && DenseColumn(next, column)
  {
    var next := ShiftRoots(tasks, column)[id := task];
    var list := ColumnList(tasks, column);
    var keys := RootKeys(tasks, column, {});
    SortedLists(keys);
    var longer := [id] + list;
    forall x ensures x in longer <==> x in RootKeys(next, column, {}) {
      assert x in longer <==> x == id || x in list;
      assert x in list <==> x in keys;
    }
    forall i | 0 <= i < |longer| ensures longer[i] in next && next[longer[i]].order == i {
      if i > 0 { assert longer[i] == list[i - 1] && list[i - 1] in keys; }
    }
    NumberedListIsColumn(next, column, longer);
  }

  /** A new task comes first in its column; the rest follow in their old order. */
  lemma CreateComesFirst(places: Places, site: Site, db: Db, column: int, dto: CreateDto, user: int)
    requires db.nextId !in db.tasks && Dense(db.tasks)
    requires PerformCreate(places, site, db, column, dto, user).Done?
    ensures var next := PerformCreate(places, site, db, column, dto, user).db.tasks;
      ColumnList(next, column) == [db.nextId] + ColumnList(db.tasks, column) && Dense(next)
  {
    var next := PerformCreate(places, site, db, column, dto, user).db.tasks;
    var task := next[db.nextId];
    assert DenseColumn(db.tasks, column);
    assert next == ShiftRoots(db.tasks, column)[db.nextId := task];
    ShiftedColumn(db.tasks, db.nextId, task, column);
    forall c ensures DenseColumn(next, c) {
      if c != column { ShiftElsewhere(db.tasks, db.nextId, task, column, c); }
    }
  }

  lemma ShiftElsewhere(tasks: Tasks, id: int, task: Task, column: int, c: int)
    requires id !in tasks && Dense(tasks) && task.columnId == column && c != column
    ensures DenseColumn(ShiftRoots(tasks, column)[id := task], c)
  {
    var next := ShiftRoots(tasks, column)[id := task];
    assert DenseColumn(tasks, c);
    UntouchedColumn(tasks, next, c);
  }

  /** Tables whose active roots agree row by row show the same columns. */
  lemma SameRootsDense(tasks: Tasks, result: Tasks)
    requires Dense(tasks)
    requires forall c :: RootKeys(tasks, c, {}) == RootKeys(result, c, {})
    ensures Dense(result)
  {
    forall c ensures DenseColumn(result, c) {
      assert DenseColumn(tasks, c);
      SameKeysSameList(tasks, result, c);
    }
  }

  lemma SameKeys(tasks: Tasks, result: Tasks, c: int)
    requires forall x :: x in RootKeys(tasks, c, {}) <==> x in RootKeys(result, c, {})
    requires forall x :: x in RootKeys(tasks, c, {}) && x in result ==> x in tasks && result[x].order == tasks[x].order
    ensures RootKeys(result, c, {}) == RootKeys(tasks, c, {})
  {
    var keys, keys' := RootKeys(tasks, c, {}), RootKeys(result, c, {});
    assert forall x :: x in keys <==> x in keys';
    assert forall x :: x in keys ==> keys[x] == keys'[x];
  }

  lemma SameRootRows(tasks: Tasks, result: Tasks, c: int)
    requires result.Keys == tasks.Keys
    requires forall x :: x in tasks ==> result[x].parent == tasks[x].parent
    requires forall x :: x in tasks && tasks[x].parent.None? ==> result[x] == tasks[x]
    ensures RootKeys(result, c, {}) == RootKeys(tasks, c, {})
  {
    SameKeys(tasks, result, c);
  }

  lemma SamePlaces(tasks: Tasks, result: Tasks, c: int)
    requires result.Keys == tasks.Keys
    requires forall x :: x in tasks ==>
      && result[x].parent == tasks[x].parent && result[x].archived == tasks[x].archived
      && result[x].columnId == tasks[x].columnId && result[x].order == tasks[x].order
    ensures RootKeys(result, c, {}) == RootKeys(tasks, c, {})
  {
    SameKeys(tasks, result, c);
  }

  /** Carrying the descendants along does not disturb the root lists. */
  lemma CarryingKeepsRootKeys(tasks: Tasks, placed: Tasks, items: seq<int>, id: int, column: int, c: int)
    requires placed.Keys == tasks.Keys && id in tasks
    requires forall x :: x in tasks ==> placed[x].parent == tasks[x].parent
    requires placed[id].parent.Some? || placed[id].columnId == column
    requires forall x :: x in items && x != id ==> x in tasks && tasks[x].parent.Some?
    ensures RootKeys(WithColumn(placed, items, column), c, {}) == RootKeys(placed, c, {})
  {
    SameRootRows(placed, WithColumn(placed, items, column), c);
  }

  lemma ItemsAreChildren(places: Places, tasks: Tasks, id: int, column: int)
    requires Forest(tasks) && id in tasks
    ensures forall x :: x in MoveItems(places, tasks, id, column) && x != id ==>
      x in tasks && tasks[x].parent.Some?
  {
    forall x | x in MoveItems(places, tasks, id, column) && x != id
      ensures x in tasks && tasks[x].parent.Some?
    {
      HierarchyHolds(tasks, false, id, x);
      DescendsFromParent(tasks, false, id, x);
    }
  }

  lemma NumberingKeepsKeys(moved: Tasks, items: seq<int>, first: int, c: int)
    ensures RootKeys(WithNumbers(moved, items, first), c, {}) == RootKeys(moved, c, {})
  {
    SamePlaces(moved, WithNumbers(moved, items, first), c);
  }

  lemma MoveKeepsKeys(places: Places, db: Db, id: int, column: int, order: int, c: int)
    requires id in db.tasks
    ensures RootKeys(AfterMove(places, db, id, column, order), c, {})
         == RootKeys(MovedRows(places, db.tasks, id, column, order), c, {})
  {
    NumberingKeepsKeys(MovedRows(places, db.tasks, id, column, order), MoveItems(places, db.tasks, id, column),
                       FirstMoved(places, db, id, column, order), c);
  }

  lemma MoveKeepsRootKeys(places: Places, db: Db, call: Call, c: int)
    requires Sound(db) && call.op.Move? && Perform(places, db, call).Done?
    ensures var id := call.op.id;
      var placed := if db.tasks[id].parent.Some? then db.tasks
                    else MoveRoot(db.tasks, id, call.op.column, call.op.order);
      RootKeys(After(places, db, call).tasks, c, {}) == RootKeys(placed, c, {})
  {
    var tasks, id, column := db.tasks, call.op.id, call.op.column;
    var placed := if tasks[id].parent.Some? then tasks else MoveRoot(tasks, id, column, call.op.order);
    MoveRootFrame(tasks, id, column, call.op.order);
    forall x | x in tasks ensures placed[x].parent == tasks[x].parent {
      assert x != id ==> placed[x].(order := tasks[x].order) == tasks[x];
    }
    ItemsAreChildren(places, tasks, id, column);
    CarryingKeepsRootKeys(tasks, placed, MoveItems(places, tasks, id, column), id, column, c);
    MoveKeepsKeys(places, db, id, column, call.op.order, c);
  }

  lemma MoveDense(places: Places, db: Db, call: Call)
    requires Sound(db) && Dense(db.tasks) && call.op.Move? && Perform(places, db, call).Done?
    ensures Dense(After(places, db, call).tasks)
  {
    var tasks, id, column := db.tasks, call.op.id, call.op.column;
    var placed := if tasks[id].parent.Some? then tasks else MoveRoot(tasks, id, column, call.op.order);
    if tasks[id].parent.None? {
      MoveIsRemoveThenInsert(tasks, id, column, call.op.order);
      forall c ensures DenseColumn(placed, c) { assert DenseColumn(tasks, c); }
    }
    forall c ensures RootKeys(placed, c, {}) == RootKeys(After(places, db, call).tasks, c, {}) {
      MoveKeepsRootKeys(places, db, call, c);
    }
    SameRootsDense(placed, After(places, db, call).tasks);
  }

  /** The columns users see after a move, straight from those before it. */
  lemma MoveLists(places: Places, db: Db, call: Call)
    requires Sound(db) && call.op.Move? && Perform(places, db, call).Done?
    requires db.tasks[call.op.id].parent.None?
    ensures var from, column, id := db.tasks[call.op.id].columnId, call.op.column, call.op.id;
      var next := After(places, db, call).tasks;
      var rest := Remove(ColumnList(db.tasks, column), id);
      && ColumnList(next, column) == InsertAt(rest, Clamp(call.op.order, |rest|), id)
      && DenseColumn(next, column)
      && (from != column ==>
            ColumnList(next, from) == Remove(ColumnList(db.tasks, from), id) && DenseColumn(next, from))
      && (forall c :: c != from && c != column ==> ColumnList(next, c) == ColumnList(db.tasks, c))
  {
    var placed := MoveRoot(db.tasks, call.op.id, call.op.column, call.op.order);
    MoveIsRemoveThenInsert(db.tasks, call.op.id, call.op.column, call.op.order);
    var next := After(places, db, call).tasks;
    forall c
      ensures ColumnList(next, c) == ColumnList(placed, c) && (DenseColumn(placed, c) <==> DenseColumn(next, c))
    {
      MoveKeepsRootKeys(places, db, call, c);
      SameKeysSameList(placed, next, c);
    }
  }

  // ---------------------------------------------------------------- re-parenting

  lemma AttachClosesGap(tasks: Tasks, next: Tasks, id: int, dto: UpdateDto, above: int)
    requires ActiveTask(tasks, id) && tasks[id].parent.None? && dto.parent == Some(Some(above))
    requires var rows := Reorder(tasks, id, Some(above)); next == rows[id := Patch(rows[id], dto)]
    ensures var column := tasks[id].columnId;
      && ColumnList(next, column) == Remove(ColumnList(tasks, column), id)
      && DenseColumn(next, column)
      && forall c :: c != column ==> ColumnList(next, c) == ColumnList(tasks, c)
                                     && (DenseColumn(tasks, c) <==> DenseColumn(next, c))
  {
    var column := tasks[id].columnId;
    var list := Others(tasks, column, id);
    CloseGapHolds(tasks, column, id);
    OthersHold(tasks, column, id);
    OthersIsRemoval(tasks, column, id);
    forall x ensures x in list <==> x in RootKeys(next, column, {}) {
      assert x in list <==> x in RootKeys(tasks, column, {id});
    }
    forall i | 0 <= i < |list| ensures list[i] in next && next[list[i]].order == i {
      assert list[i] in RootKeys(tasks, column, {id});
    }
    NumberedListIsColumn(next, column, list);
    forall c | c != column
      ensures ColumnList(next, c) == ColumnList(tasks, c) && (DenseColumn(tasks, c) <==> DenseColumn(next, c))
    {
      UntouchedColumn(tasks, next, c);
    }
  }

  /** A subtask that changes parent, or keeps none, is in no root list before or after. */
  lemma ReattachKeepsLists(tasks: Tasks, next: Tasks, id: int, dto: UpdateDto, above: int)
    requires ActiveTask(tasks, id) && tasks[id].parent.Some? && dto.parent == Some(Some(above))
    requires var rows := Reorder(tasks, id, Some(above)); next == rows[id := Patch(rows[id], dto)]
    ensures forall c :: RootKeys(tasks, c, {}) == RootKeys(next, c, {})
  {
    forall c ensures RootKeys(tasks, c, {}) == RootKeys(next, c, {}) {
      assert forall x :: x in RootKeys(tasks, c, {}) <==> x in RootKeys(next, c, {});
    }
  }

  lemma DetachInserts(tasks: Tasks, next: Tasks, id: int, dto: UpdateDto, above: int)
    requires ActiveTask(tasks, id) && tasks[id].parent == Some(above) && above in tasks
    requires dto.parent == Some(None)
    requires var rows := Reorder(tasks, id, None); next == rows[id := Patch(rows[id], dto)]
    ensures var column := tasks[above].columnId;
      && ColumnList(next, column) == PlacedList(tasks, column, id, tasks[above].order + 1)
      && DenseColumn(next, column)
      && forall c :: c != column ==> ColumnList(next, c) == ColumnList(tasks, c)
                                     && (DenseColumn(tasks, c) <==> DenseColumn(next, c))
  {
    var column := tasks[above].columnId;
    DetachTarget(tasks, next, id, dto, above);
    forall c | c != column
      ensures ColumnList(next, c) == ColumnList(tasks, c) && (DenseColumn(tasks, c) <==> DenseColumn(next, c))
    {
      DetachElsewhere(tasks, next, id, dto, above, c);
    }
  }

  lemma DetachTarget(tasks: Tasks, next: Tasks, id: int, dto: UpdateDto, above: int)
    requires ActiveTask(tasks, id) && tasks[id].parent == Some(above) && above in tasks
    requires dto.parent == Some(None)
    requires var rows := Reorder(tasks, id, None); next == rows[id := Patch(rows[id], dto)]
    ensures var column := tasks[above].columnId;
      && ColumnList(next, column) == PlacedList(tasks, column, id, tasks[above].order + 1)
      && DenseColumn(next, column)
  {
    var column, order := tasks[above].columnId, tasks[above].order + 1;
    var list := PlacedList(tasks, column, id, order);
    PlaceHolds(tasks, id, column, order);
    PlacedListHolds(tasks, column, id, order);
    forall x ensures x in list <==> x in RootKeys(next, column, {}) {
      assert x in list <==> x == id || x in RootKeys(tasks, column, {id});
    }
    NumberedListIsColumn(next, column, list);
  }

  lemma DetachElsewhere(tasks: Tasks, next: Tasks, id: int, dto: UpdateDto, above: int, c: int)
    requires ActiveTask(tasks, id) && tasks[id].parent == Some(above) && above in tasks
    requires dto.parent == Some(None) && c != tasks[above].columnId
    requires var rows := Reorder(tasks, id, None); next == rows[id := Patch(rows[id], dto)]
    ensures ColumnList(next, c) == ColumnList(tasks, c) && (DenseColumn(tasks, c) <==> DenseColumn(next, c))
  {
    PlaceHolds(tasks, id, tasks[above].columnId, tasks[above].order + 1);
    UntouchedColumn(tasks, next, c);
  }

  lemma RemoveAbsent(list: seq<int>, x: int)
    requires x !in list
    ensures Remove(list, x) == list
  {}

  lemma DensePosition(tasks: Tasks, column: int, x: int)
    requires DenseColumn(tasks, column) && x in RootKeys(tasks, column, {})
    ensures x in ColumnList(tasks, column)
    ensures tasks[x].order == IndexOf(ColumnList(tasks, column), x)
  {
    SortedLists(RootKeys(tasks, column, {}));
    var list := ColumnList(tasks, column);
    assert x in list;
    assert list[IndexOf(list, x)] == x;
  }

  /** From a dense column, a task detached from a root comes right after it. */
  lemma DetachComesAfterParent(tasks: Tasks, id: int, above: int)
    requires ActiveTask(tasks, id) && tasks[id].parent == Some(above)
    requires ActiveTask(tasks, above) && tasks[above].parent.None?
    requires DenseColumn(tasks, tasks[above].columnId)
    ensures var list := ColumnList(tasks, tasks[above].columnId);
      && above in list
      && PlacedList(tasks, tasks[above].columnId, id, tasks[above].order + 1)
         == InsertAt(list, IndexOf(list, above) + 1, id)
  {
    var column := tasks[above].columnId;
    DensePosition(tasks, column, above);
    SortedLists(RootKeys(tasks, column, {}));
    OthersIsRemoval(tasks, column, id);
    RemoveAbsent(ColumnList(tasks, column), id);
  }

  lemma PatchKeepsLists(tasks: Tasks, id: int, dto: UpdateDto, c: int)
    requires id in tasks && !Reparents(tasks[id], dto)
    ensures RootKeys(tasks, c, {}) == RootKeys(tasks[id := Patch(tasks[id], dto)], c, {})
  {
    SamePlaces(tasks, tasks[id := Patch(tasks[id], dto)], c);
  }

  lemma UpdateDense(places: Places, db: Db, call: Call)
    requires Sound(db) && Dense(db.tasks) && call.op.Update? && Perform(places, db, call).Done?
    ensures Dense(After(places, db, call).tasks)
  {
    var tasks, id, dto := db.tasks, call.op.id, call.op.change;
    var next := After(places, db, call).tasks;
    assert forall c :: DenseColumn(tasks, c);
    if !Reparents(tasks[id], dto) {
      forall c ensures RootKeys(tasks, c, {}) == RootKeys(next, c, {}) { PatchKeepsLists(tasks, id, dto, c); }
      SameRootsDense(tasks, next);
    } else {
      assert ParentCheck(places, call.site, tasks, id, dto.parent.value, call.user).Pass?;
      match dto.parent.value
      case None => DetachInserts(tasks, next, id, dto, tasks[id].parent.value);
      case Some(above) =>
        if tasks[id].parent.None? {
          AttachClosesGap(tasks, next, id, dto, above);
        } else {
          ReattachKeepsLists(tasks, next, id, dto, above);
          SameRootsDense(tasks, next);
        }
    }
  }

  /** The rows after an update that changes the parent, and what it checked. */
  lemma ReparentResult(places: Places, site: Site, db: Db, id: int, dto: UpdateDto, user: int)
    requires PerformUpdate(places, site, db, id, dto, user).Done? && Reparents(db.tasks[id], dto)
    ensures var rows := Reorder(db.tasks, id, dto.parent.value);
      && ActiveTask(db.tasks, id)
      && (dto.parent == Some(None) ==> ActiveTask(db.tasks, db.tasks[id].parent.value))
      && PerformUpdate(places, site, db, id, dto, user).db.tasks == rows[id := Patch(rows[id], dto)]
  {}

  /** A root given a parent leaves its column's list, which closes up; no other list changes. */
  lemma AttachingARoot(places: Places, site: Site, db: Db, id: int, dto: UpdateDto, user: int, above: int)
    requires PerformUpdate(places, site, db, id, dto, user).Done?
    requires db.tasks[id].parent.None? && dto.parent == Some(Some(above))
    ensures var column := db.tasks[id].columnId;
      var next := PerformUpdate(places, site, db, id, dto, user).db.tasks;
      && ColumnList(next, column) == Remove(ColumnList(db.tasks, column), id)
      && DenseColumn(next, column)
      && forall c :: c != column ==> ColumnList(next, c) == ColumnList(db.tasks, c)
  {
    ReparentResult(places, site, db, id, dto, user);
    AttachClosesGap(db.tasks, PerformUpdate(places, site, db, id, dto, user).db.tasks, id, dto, above);
  }

  ghost predicate InsertedAfter(tasks: Tasks, next: Tasks, id: int, above: int)
    requires above in tasks
  {
    var column := tasks[above].columnId;
    var list := ColumnList(tasks, column);
    && above in list
    && ColumnList(next, column) == InsertAt(list, IndexOf(list, above) + 1, id)
    && DenseColumn(next, column)
    && forall c :: c != column ==> ColumnList(next, c) == ColumnList(tasks, c)
  }

  lemma DetachedRows(tasks: Tasks, next: Tasks, id: int, dto: UpdateDto, above: int)
    requires ActiveTask(tasks, id) && tasks[id].parent == Some(above) && dto.parent == Some(None)
    requires ActiveTask(tasks, above) && tasks[above].parent.None?
    requires DenseColumn(tasks, tasks[above].columnId)
    requires var rows := Reorder(tasks, id, None); next == rows[id := Patch(rows[id], dto)]
    ensures InsertedAfter(tasks, next, id, above)
  {
    DetachComesAfterParent(tasks, id, above);
    DetachInserts(tasks, next, id, dto, above);
  }

  /** A subtask detached from a root in a dense column comes right after that root. */
  lemma DetachingFromARoot(places: Places, site: Site, db: Db, id: int, dto: UpdateDto, user: int, above: int)
    requires Forest(db.tasks) && PerformUpdate(places, site, db, id, dto, user).Done?
    requires db.tasks[id].parent == Some(above) && dto.parent == Some(None)
    requires above in db.tasks && db.tasks[above].parent.None? && DenseColumn(db.tasks, db.tasks[above].columnId)
    ensures InsertedAfter(db.tasks, PerformUpdate(places, site, db, id, dto, user).db.tasks, id, above)
  {
    ReparentResult(places, site, db, id, dto, user);
    DetachedRows(db.tasks, PerformUpdate(places, site, db, id, dto, user).db.tasks, id, dto, above);
  }

  lemma AddedChildKeys(tasks: Tasks, id: int, task: Task, c: int)
    requires id !in tasks && task.parent.Some?
    ensures RootKeys(tasks[id := task], c, {}) == RootKeys(tasks, c, {})
  {
    SameKeys(tasks, tasks[id := task], c);
  }

  lemma SubtaskDense(places: Places, db: Db, call: Call)
    requires Sound(db) && Dense(db.tasks) && call.op.CreateSubtask? && Perform(places, db, call).Done?
    ensures Dense(After(places, db, call).tasks)
  {
    var next := After(places, db, call).tasks;
    var task := next[db.nextId];
    assert next == db.tasks[db.nextId := task];
    forall c ensures RootKeys(db.tasks, c, {}) == RootKeys(next, c, {}) {
      AddedChildKeys(db.tasks, db.nextId, task, c);
    }
    SameRootsDense(db.tasks, next);
  }

  /** Every call but delete and restore keeps columns dense. */
  lemma StepDense(places: Places, db: Db, call: Call)
    requires Sound(db) && Dense(db.tasks) && !call.op.Delete? && !call.op.Restore?
    ensures Dense(After(places, db, call).tasks)
  {
    if Perform(places, db, call).Done? {
      match call.op
      case Create(column, dto) => CreateComesFirst(places, call.site, db, column, dto, call.user);
      case CreateSubtask(above, dto) => SubtaskDense(places, db, call);
      case Update(id, dto) => UpdateDense(places, db, call);
      case Move(id, column, order) => MoveDense(places, db, call);
    }
  }
}
