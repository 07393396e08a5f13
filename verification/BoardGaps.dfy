/**
 When delete and restore keep columns dense. A deleted root leaves a gap unless it was the last
 of its column; a restored root brings back its old order, which may be taken or too high.
 */
module BoardGaps {
  import opened Wrappers
  import opened SortedListing
  import opened TaskRows
  import opened Hierarchy
  import opened ColumnOrder
  import opened BoardSpec
  import opened Invariants
  import opened BoardTree
  import opened BoardDense

  lemma {:induction false} RemoveCuts(list: seq<int>, p: nat)
    requires NoDuplicates(list) && p < |list|
    ensures Remove(list, list[p]) == list[..p] + list[p + 1..]
    decreases p
  {
    var rest := list[1..];
    assert NoDuplicates(rest);
    if p == 0 {
      assert list[0] !in rest;
      RemoveAbsent(rest, list[0]);
    } else {
      assert list[p] == rest[p - 1] && list[0] != list[p];
      RemoveCuts(rest, p - 1);
      assert rest[..p - 1] == list[1..p] && rest[p..] == list[p + 1..];
      assert list[..p] == [list[0]] + list[1..p];
    }
  }

  /** `id` is an active root of the column in `tasks`; `less` shows the same column without it. */
  ghost predicate LessOne(tasks: Tasks, less: Tasks, column: int, id: int) {
    && id in RootKeys(tasks, column, {})
    && RootKeys(less, column, {}) == RootKeys(tasks, column, {id})
  }

  lemma LessOneLists(tasks: Tasks, less: Tasks, column: int, id: int) returns (p: nat)
    requires LessOne(tasks, less, column, id)
    ensures var list := ColumnList(tasks, column);
      && p < |list| && list[p] == id && NoDuplicates(list)
      && ColumnList(less, column) == list[..p] + list[p + 1..]
    ensures forall x :: x in ColumnList(less, column) ==> x in tasks && x in less && less[x].order == tasks[x].order
  {
    var keys, rest := RootKeys(tasks, column, {}), RootKeys(tasks, column, {id});
    SortedLists(keys);
    SortedLists(rest);
    var list := ColumnList(tasks, column);
    assert id in list;
    p :| 0 <= p < |list| && list[p] == id;
    OthersIsRemoval(tasks, column, id);
    RemoveCuts(list, p);
    forall x | x in ColumnList(less, column) ensures x in tasks && x in less && less[x].order == tasks[x].order {
      assert x in rest && rest[x] == RootKeys(less, column, {})[x];
    }
  }

  /** Taking a root out of a dense column keeps it dense if and only if the root was last. */
  lemma TakeOutIff(tasks: Tasks, less: Tasks, column: int, id: int)
    requires LessOne(tasks, less, column, id) && DenseColumn(tasks, column)
    ensures DenseColumn(less, column) <==> IsLast(ColumnList(tasks, column), id)
  {
    var p := LessOneLists(tasks, less, column, id);
    var list, cut := ColumnList(tasks, column), ColumnList(less, column);
    if p == |list| - 1 {
      assert cut == list[..p];
      forall i | 0 <= i < |cut| ensures cut[i] in less && less[cut[i]].order == i {
        assert cut[i] in cut && cut[i] == list[i];
      }
    } else {
      assert cut[p] == list[p + 1] && cut[p] in cut;
      assert less[cut[p]].order == p + 1;
    }
  }

  /** Putting a root into a dense column keeps it dense if and only if its order is the next one. */
  lemma PutInIff(tasks: Tasks, less: Tasks, column: int, id: int)
    requires LessOne(tasks, less, column, id) && DenseColumn(less, column)
    ensures DenseColumn(tasks, column) <==> tasks[id].order == |ColumnList(less, column)|
  {
    var p := LessOneLists(tasks, less, column, id);
    var list, cut := ColumnList(tasks, column), ColumnList(less, column);
    if p < |cut| {
      assert cut[p] == list[p + 1] && cut[p] in cut;
      assert tasks[list[p + 1]].order == p;
    }
    if tasks[id].order == |cut| {
      NextOneIsLast(tasks, less, column, id);
    }
  }

  lemma NextOneIsLast(tasks: Tasks, less: Tasks, column: int, id: int)
    requires LessOne(tasks, less, column, id) && DenseColumn(less, column)
    requires tasks[id].order == |ColumnList(less, column)|
    ensures DenseColumn(tasks, column)
  {
    var cut := ColumnList(less, column);
    var p := LessOneLists(tasks, less, column, id);
    var keys, rest := RootKeys(tasks, column, {}), RootKeys(tasks, column, {id});
    SortedLists(rest);
    var list := cut + [id];
    forall x ensures x in list <==> x in keys {
      assert x in list <==> x in cut || x == id;
      assert x in cut <==> x in rest;
    }
    forall i | 0 <= i < |list| ensures list[i] in tasks && tasks[list[i]].order == i {
      if i < |cut| { assert list[i] == cut[i] && cut[i] in cut; }
    }
    NumberedListIsColumn(tasks, column, list);
  }

  // ---------------------------------------------------------------- flags

  /** Below the task itself a hierarchy holds no roots. */
  lemma OneRootAtMost(tasks: Tasks, all: bool, id: int, x: int)
    requires Forest(tasks) && id in tasks && x in HierarchyOf(tasks, all, id) && x != id
    ensures x in tasks && tasks[x].parent.Some?
  {
    HierarchyHolds(tasks, all, id, x);
    DescendsFromParent(tasks, all, id, x);
  }

  /** Flagging a hierarchy changes no list but that of its root, and that one only by the root. */
  lemma FlaggedKeys(tasks: Tasks, all: bool, id: int, archived: bool, c: int)
    requires Forest(tasks) && id in tasks
    ensures var next := WithArchived(tasks, HierarchyOf(tasks, all, id), archived);
      && RootKeys(next, c, {id}) == RootKeys(tasks, c, {id})
      && (tasks[id].parent.Some? || tasks[id].columnId != c ==> RootKeys(next, c, {}) == RootKeys(tasks, c, {}))
  {
    var h := HierarchyOf(tasks, all, id);
    var next := WithArchived(tasks, h, archived);
    forall x | x in tasks && x != id && tasks[x].parent.None? ensures next[x] == tasks[x] {
      if x in h { OneRootAtMost(tasks, all, id, x); }
    }
    SameWithout(tasks, next, id, c);
  }

  lemma SameWithout(tasks: Tasks, next: Tasks, id: int, c: int)
    requires id in tasks && next.Keys == tasks.Keys
    requires forall x :: x in tasks ==> next[x].parent == tasks[x].parent && next[x].columnId == tasks[x].columnId
    requires forall x :: x in tasks && x != id && tasks[x].parent.None? ==> next[x] == tasks[x]
    ensures RootKeys(next, c, {id}) == RootKeys(tasks, c, {id})
    ensures tasks[id].parent.Some? || tasks[id].columnId != c ==> RootKeys(next, c, {}) == RootKeys(tasks, c, {})
  {
    var a, b := RootKeys(next, c, {id}), RootKeys(tasks, c, {id});
    assert forall x :: x in a <==> x in b;
    assert forall x :: x in a ==> a[x] == b[x];
    if tasks[id].parent.Some? || tasks[id].columnId != c {
      SameKeys(tasks, next, c);
    }
  }

  lemma InactiveIsUnlisted(tasks: Tasks, id: int, c: int)
    requires id in tasks && tasks[id].archived
    ensures RootKeys(tasks, c, {}) == RootKeys(tasks, c, {id})
  {
    var a, b := RootKeys(tasks, c, {}), RootKeys(tasks, c, {id});
    assert forall x :: x in a <==> x in b;
  }

  /** With every other column as it was, density hangs on one column. */
  lemma OneColumn(tasks: Tasks, next: Tasks, column: int)
    requires Dense(tasks)
    requires forall c :: c != column ==> RootKeys(next, c, {}) == RootKeys(tasks, c, {})
    ensures Dense(next) <==> DenseColumn(next, column)
  {
    if DenseColumn(next, column) {
      forall c ensures DenseColumn(next, c) {
        if c != column {
          assert DenseColumn(tasks, c);
          SameKeysSameList(tasks, next, c);
        }
      }
    }
  }

  lemma FlaggedSubtask(tasks: Tasks, all: bool, id: int, archived: bool)
    requires Forest(tasks) && id in tasks && Dense(tasks) && tasks[id].parent.Some?
    ensures Dense(WithArchived(tasks, HierarchyOf(tasks, all, id), archived))
  {
    var next := WithArchived(tasks, HierarchyOf(tasks, all, id), archived);
    forall c ensures RootKeys(tasks, c, {}) == RootKeys(next, c, {}) { FlaggedKeys(tasks, all, id, archived, c); }
    SameRootsDense(tasks, next);
  }

  /** Archiving the hierarchy of an active task: dense columns stay dense for a subtask or the last root. */
  lemma ArchivedDenseIff(tasks: Tasks, id: int)
    requires Forest(tasks) && ActiveTask(tasks, id) && Dense(tasks)
    ensures Dense(WithArchived(tasks, HierarchyOf(tasks, false, id), true))
      <==> tasks[id].parent.Some? || IsLast(ColumnList(tasks, tasks[id].columnId), id)
  {
    if tasks[id].parent.Some? {
      FlaggedSubtask(tasks, false, id, true);
    } else {
      var column, next := tasks[id].columnId, WithArchived(tasks, HierarchyOf(tasks, false, id), true);
      forall c ensures c != column ==> RootKeys(next, c, {}) == RootKeys(tasks, c, {}) {
        FlaggedKeys(tasks, false, id, true, c);
      }
      FlaggedKeys(tasks, false, id, true, column);
      RootFirst(tasks, false, id, |tasks|);
      InactiveIsUnlisted(next, id, column);
      OneColumn(tasks, next, column);
      assert DenseColumn(tasks, column);
      TakeOutIff(tasks, next, column, id);
    }
  }

  /** Reviving the hierarchy of an archived task: for a subtask, or a root whose order is the next one. */
  lemma RevivedDenseIff(tasks: Tasks, id: int)
    requires Forest(tasks) && id in tasks && tasks[id].archived && Dense(tasks)
    ensures Dense(WithArchived(tasks, HierarchyOf(tasks, true, id), false))
      <==> tasks[id].parent.Some? || tasks[id].order == |ColumnList(tasks, tasks[id].columnId)|
  {
    if tasks[id].parent.Some? {
      FlaggedSubtask(tasks, true, id, false);
    } else {
      var column, next := tasks[id].columnId, WithArchived(tasks, HierarchyOf(tasks, true, id), false);
      forall c ensures c != column ==> RootKeys(next, c, {}) == RootKeys(tasks, c, {}) {
        FlaggedKeys(tasks, true, id, false, c);
      }
      FlaggedKeys(tasks, true, id, false, column);
      RootFirst(tasks, true, id, |tasks|);
      InactiveIsUnlisted(tasks, id, column);
      OneColumn(tasks, next, column);
      assert DenseColumn(tasks, column);
      PutInIff(next, tasks, column, id);
    }
  }

  // ---------------------------------------------------------------- calls and runs

  /** From dense columns: delete keeps them dense if and only if the task is a subtask or the last of its column. */
  lemma DeleteDenseIff(places: Places, site: Site, db: Db, id: int, user: int)
    requires Sound(db) && Dense(db.tasks) && PerformDelete(places, site, db, id, user).Done?
    ensures Dense(PerformDelete(places, site, db, id, user).db.tasks)
      <==> db.tasks[id].parent.Some? || IsLast(ColumnList(db.tasks, db.tasks[id].columnId), id)
  {
    ArchivedDenseIff(db.tasks, id);
  }

  /**
   From dense columns: restoring an archived task keeps them dense if and only if it is a
   subtask or its order is the length of its column's list.
   */
  lemma RestoreDenseIff(places: Places, site: Site, db: Db, id: int, user: int)
    requires Sound(db) && Dense(db.tasks) && PerformRestore(places, site, db, id, user).Done?
    requires db.tasks[id].archived
    ensures Dense(PerformRestore(places, site, db, id, user).db.tasks)
      <==> db.tasks[id].parent.Some? || db.tasks[id].order == |ColumnList(db.tasks, db.tasks[id].columnId)|
  {
    RevivedDenseIff(db.tasks, id);
  }

  /** The call deletes no root but the last of a column, and restores none but at the end of one. */
  predicate LeavesNoGap(places: Places, db: Db, call: Call) {
    Perform(places, db, call).Done? ==>
      match call.op
      case Delete(id) =>
        id in db.tasks ==>
          db.tasks[id].parent.Some? || IsLast(ColumnList(db.tasks, db.tasks[id].columnId), id)
      case Restore(id) =>
        id in db.tasks && db.tasks[id].archived ==>
          db.tasks[id].parent.Some? || db.tasks[id].order == |ColumnList(db.tasks, db.tasks[id].columnId)|
      case _ => true
  }

  lemma StepDenseIff(places: Places, db: Db, call: Call)
    requires Sound(db) && Dense(db.tasks)
    ensures Dense(After(places, db, call).tasks) <==> LeavesNoGap(places, db, call)
  {
    if call.op.Delete? {
      if Perform(places, db, call).Done? { DeleteDenseIff(places, call.site, db, call.op.id, call.user); }
    } else if call.op.Restore? {
      if Perform(places, db, call).Done? && db.tasks[call.op.id].archived {
        RestoreDenseIff(places, call.site, db, call.op.id, call.user);
      }
    } else {
      StepDense(places, db, call);
    }
  }

  lemma DenseAtStep(places: Places, db: Db, calls: seq<Call>, k: nat)
    requires Sound(db) && k < |calls| && Dense(Run(places, db, calls[..k]).tasks)
    ensures Dense(Run(places, db, calls[..k + 1]).tasks)
      <==> LeavesNoGap(places, Run(places, db, calls[..k]), calls[k])
  {
    RunSound(places, db, calls[..k]);
    RunOneMore(places, db, calls, k);
    StepDenseIff(places, Run(places, db, calls[..k]), calls[k]);
  }

  /**
   In every run of the six operations that starts from dense columns, every column's orders
   are exactly 0, ..., n-1 for as long as no delete takes a root from the middle and no restore
   puts one back elsewhere than at the end; the first call that does breaks it.
   */
  lemma RunDense(places: Places, db: Db, calls: seq<Call>)
    requires Sound(db) && Dense(db.tasks)
    ensures (forall k :: 0 <= k <= |calls| ==> Dense(Run(places, db, calls[..k]).tasks))
      <==> (forall k :: 0 <= k < |calls| ==> LeavesNoGap(places, Run(places, db, calls[..k]), calls[k]))
  {
    var n := |calls|;
    var good := seq(n + 1, k requires 0 <= k <= n => Dense(Run(places, db, calls[..k]).tasks));
    var harmless := seq(n, k requires 0 <= k < n => LeavesNoGap(places, Run(places, db, calls[..k]), calls[k]));
    RunNothing(places, db, calls);
    forall k | 0 <= k < n && good[k] ensures good[k + 1] <==> harmless[k] {
      DenseAtStep(places, db, calls, k);
    }
    GoodWhileHarmless(good, harmless);
    assert forall k :: 0 <= k <= n ==> good[k] == Dense(Run(places, db, calls[..k]).tasks);
    assert forall k :: 0 <= k < n ==> harmless[k] == LeavesNoGap(places, Run(places, db, calls[..k]), calls[k]);
  }

  /** Create, createSubtask, update and move never break it. */
  lemma RunWithoutGaps(places: Places, db: Db, calls: seq<Call>)
    requires Sound(db) && Dense(db.tasks)
    requires forall i :: 0 <= i < |calls| ==> !calls[i].op.Delete? && !calls[i].op.Restore?
    ensures Dense(Run(places, db, calls).tasks)
  {
    RunDense(places, db, calls);
    assert calls[..|calls|] == calls;
  }

  // ---------------------------------------------------------------- both failures

  const ONE_COLUMN := Places(map[10 := 1], map[1 := 1])

  const OPEN_SITE := Site(map[10 := Column(false, false)], {1}, {}, map[1 := Project(7, true)], {}, {})

  const FIRST_TASK := Task(10, None, 0, 1, false, 7, {7}, {}, {}, {}, map[])

  /** Roots 1 and 2 of column 10, in this order. */
  const TWO_ROOTS := Db(map[1 := FIRST_TASK, 2 := FIRST_TASK.(order := 1, number := 2)], map[], 3, [])

  /** The same with root 1 in the archive and root 2 moved up. */
  const ONE_ROOT := Db(map[1 := FIRST_TASK.(archived := true), 2 := FIRST_TASK.(number := 2)], map[], 3, [])

  lemma SmallDense(tasks: Tasks, list: seq<int>)
    requires forall x :: x in tasks ==> tasks[x].columnId == 10 && tasks[x].parent.None?
    requires forall x :: x in list <==> ActiveTask(tasks, x)
    requires forall i :: 0 <= i < |list| ==> list[i] in tasks && tasks[list[i]].order == i
    ensures Forest(tasks) && Dense(tasks) && ColumnList(tasks, 10) == list
  {
    assert Ranked(tasks, map x | x in tasks :: 0);
    NumberedListIsColumn(tasks, 10, list);
    forall c ensures DenseColumn(tasks, c) {
      if c != 10 { NumberedListIsColumn(tasks, c, []); }
    }
  }

  lemma TwoRoots()
    ensures Sound(TWO_ROOTS) && Dense(TWO_ROOTS.tasks) && ColumnList(TWO_ROOTS.tasks, 10) == [1, 2]
  {
    SmallDense(TWO_ROOTS.tasks, [1, 2]);
  }

  lemma OneRoot()
    ensures Sound(ONE_ROOT) && Dense(ONE_ROOT.tasks) && ColumnList(ONE_ROOT.tasks, 10) == [2]
  {
    SmallDense(ONE_ROOT.tasks, [2]);
  }

  /** Deleting the first of two roots leaves a gap. */
  lemma DeleteCanLeaveAGap()
    ensures Sound(TWO_ROOTS) && Dense(TWO_ROOTS.tasks)
    ensures !Dense(After(ONE_COLUMN, TWO_ROOTS, Call(OPEN_SITE, 7, Delete(1))).tasks)
  {
    TwoRoots();
    assert PerformDelete(ONE_COLUMN, OPEN_SITE, TWO_ROOTS, 1, 7).Done?;
    DeleteDenseIff(ONE_COLUMN, OPEN_SITE, TWO_ROOTS, 1, 7);
  }

  /** A restored root can come back with an order that is taken. */
  lemma RestoreCanRepeatAnOrder()
    ensures Sound(ONE_ROOT) && Dense(ONE_ROOT.tasks)
    ensures !Dense(After(ONE_COLUMN, ONE_ROOT, Call(OPEN_SITE, 7, Restore(1))).tasks)
  {
    OneRoot();
    assert PerformRestore(ONE_COLUMN, OPEN_SITE, ONE_ROOT, 1, 7).Done?;
    RestoreDenseIff(ONE_COLUMN, OPEN_SITE, ONE_ROOT, 1, 7);
  }
}
