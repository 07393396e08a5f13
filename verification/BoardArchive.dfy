/**
 Delete and restore. Which rows each of them flags, when one undoes the other, and when a
 restore keeps children on their parents' boards. At the end, what archiving a whole board does
 to the rows: it stands outside the runs of the six operations.
 */
module BoardArchive {
  import opened Wrappers
  import opened TaskRows
  import opened Hierarchy
  import opened BoardSpec
  import opened BoardTree
  import opened BoardNumbers

  /** Rows differ in nothing but the archive flag, which is `flag` exactly where asked. */
  ghost predicate OnlyFlags(tasks: Tasks, result: Tasks, flag: int -> bool) {
    && result.Keys == tasks.Keys
    && forall x :: x in tasks ==> result[x] == tasks[x].(archived := flag(x))
  }

  /** With no active task under an archived one, an active descendant is reached through active rows. */
  lemma {:induction false} ActiveDescendant(tasks: Tasks, root: int, x: int, n: nat)
    requires ArchiveClosed(tasks) && Under(tasks, true, root, x, n)
    requires n > 0 ==> ActiveTask(tasks, x)
    ensures Under(tasks, false, root, x, n)
    decreases n
  {
    if n > 0 {
      ActiveDescendant(tasks, root, tasks[x].parent.value, n - 1);
    }
  }

  lemma {:induction false} SeenMeansBelow(tasks: Tasks, root: int, x: int, n: nat)
    requires Under(tasks, false, root, x, n)
    ensures Under(tasks, true, root, x, n)
    decreases n
  {
    if n > 0 { SeenMeansBelow(tasks, root, tasks[x].parent.value, n - 1); }
  }

  /** The rows below a task do not depend on the archive flags. */
  lemma {:induction false} FlagsDoNotMove(tasks: Tasks, result: Tasks, root: int, x: int, n: nat)
    requires SameParents(tasks, result)
    ensures Under(tasks, true, root, x, n) <==> Under(result, true, root, x, n)
    decreases n
  {
    if n > 0 && x in tasks && tasks[x].parent.Some? {
      FlagsDoNotMove(tasks, result, root, tasks[x].parent.value, n - 1);
    }
  }

  lemma SameBelow(tasks: Tasks, result: Tasks, root: int, x: int)
    requires SameParents(tasks, result)
    ensures Descends(tasks, true, root, x) <==> Descends(result, true, root, x)
  {
    if Descends(tasks, true, root, x) {
      var n: nat :| Under(tasks, true, root, x, n);
      FlagsDoNotMove(tasks, result, root, x, n);
    } else if Descends(result, true, root, x) {
      var n: nat :| Under(result, true, root, x, n);
      FlagsDoNotMove(tasks, result, root, x, n);
    }
  }

  /** After a delete, exactly the task's own descendants have joined the archive. */
  lemma DeleteArchivesDescendants(places: Places, site: Site, db: Db, id: int, user: int)
    requires Sound(db) && PerformDelete(places, site, db, id, user).Done?
    ensures OnlyFlags(db.tasks, PerformDelete(places, site, db, id, user).db.tasks,
                      x => x in db.tasks && (db.tasks[x].archived || Descends(db.tasks, true, id, x)))
  {
    var tasks := db.tasks;
    forall x | x in tasks
      ensures x in HierarchyOf(tasks, false, id) || tasks[x].archived
          <==> tasks[x].archived || Descends(tasks, true, id, x)
    {
      HierarchyHolds(tasks, false, id, x);
      if Descends(tasks, false, id, x) {
        var n: nat :| Under(tasks, false, id, x, n);
        SeenMeansBelow(tasks, id, x, n);
      } else if !tasks[x].archived && Descends(tasks, true, id, x) {
        var n: nat :| Under(tasks, true, id, x, n);
        ActiveDescendant(tasks, id, x, n);
        assert false;
      }
    }
  }

  /** Restoring an archived task revives everything below it. */
  lemma RestoreRevivesDescendants(places: Places, site: Site, db: Db, id: int, user: int)
    requires Sound(db) && PerformRestore(places, site, db, id, user).Done? && db.tasks[id].archived
    ensures OnlyFlags(db.tasks, PerformRestore(places, site, db, id, user).db.tasks,
                      x => x in db.tasks && db.tasks[x].archived && !Descends(db.tasks, true, id, x))
  {
    forall x | x in db.tasks
      ensures x in HierarchyOf(db.tasks, true, id) <==> Descends(db.tasks, true, id, x)
    {
      HierarchyHolds(db.tasks, true, id, x);
    }
  }

  lemma FlagsThereAndBack(tasks: Tasks, mid: Tasks, end: Tasks, id: int)
    requires OnlyFlags(tasks, mid, x => x in tasks && (tasks[x].archived || Descends(tasks, true, id, x)))
    requires OnlyFlags(mid, end, x => x in mid && mid[x].archived && !Descends(mid, true, id, x))
    ensures end == tasks <==> forall x :: x in tasks && Descends(tasks, true, id, x) ==> !tasks[x].archived
  {
    forall x | x in tasks
      ensures end[x] == tasks[x].(archived := tasks[x].archived && !Descends(tasks, true, id, x))
    {
      SameBelow(tasks, mid, id, x);
      assert mid[x].archived == (tasks[x].archived || Descends(tasks, true, id, x));
    }
    if end == tasks {
      forall x | x in tasks && Descends(tasks, true, id, x) ensures !tasks[x].archived {
        assert end[x].archived == (tasks[x].archived && !Descends(tasks, true, id, x));
      }
    }
    if forall x :: x in tasks && Descends(tasks, true, id, x) ==> !tasks[x].archived {
      forall x | x in tasks ensures end[x] == tasks[x] {
        assert tasks[x].archived && !Descends(tasks, true, id, x) <==> tasks[x].archived;
      }
      assert end == tasks;
    }
  }

  /**
   Deleting and then restoring a task gives back the very same rows if and only if nothing
   below it was in the archive before. The two calls may come from different users, with
   other changes to members and rules in between.
   */
  lemma DeleteThenRestore(places: Places, db: Db, id: int, deleted: Call, restored: Call)
    requires Sound(db) && deleted.op == Delete(id) && restored.op == Restore(id)
    requires Perform(places, db, deleted).Done?
    requires Perform(places, After(places, db, deleted), restored).Done?
    ensures After(places, After(places, db, deleted), restored).tasks == db.tasks
        <==> forall x :: x in db.tasks && Descends(db.tasks, true, id, x) ==> !db.tasks[x].archived
  {
    var mid := After(places, db, deleted);
    StepSound(places, db, deleted);
    DeleteArchivesDescendants(places, deleted.site, db, id, deleted.user);
    assert mid.tasks[id].archived by { assert Under(db.tasks, true, id, id, 0); }
    RestoreRevivesDescendants(places, restored.site, mid, id, restored.user);
    FlagsThereAndBack(db.tasks, mid.tasks, After(places, mid, restored).tasks, id);
  }

  /** Restoring again, by anyone, changes nothing. */
  lemma RestoreTwice(places: Places, db: Db, id: int, first: Call, second: Call)
    requires Sound(db) && first.op == Restore(id) && second.op == Restore(id)
    requires Perform(places, db, first).Done?
    ensures After(places, After(places, db, first), second) == After(places, db, first)
  {
    if db.tasks[id].archived {
      RestoreRevivesDescendants(places, first.site, db, id, first.user);
      assert Under(db.tasks, true, id, id, 0);
    }
  }

  // ---------------------------------------------------------------- boards

  /** The row is a root, or is on the board of its parent. */
  predicate OnParentsBoard(places: Places, tasks: Tasks, x: int)
    requires x in tasks
  {
    tasks[x].parent.Some? ==>
      && tasks[x].parent.value in tasks
      && places.BoardOf(tasks[x].columnId) == places.BoardOf(tasks[tasks[x].parent.value].columnId)
  }

  /**
   Restore keeps active children on their parents' boards if and only if every row it revives
   is on the board of the parent it comes back to.
   */
  lemma RestoreKeepsBoardsIff(places: Places, site: Site, db: Db, id: int, user: int)
    requires Sound(db) && SameBoard(places, db.tasks)
    requires PerformRestore(places, site, db, id, user).Done? && db.tasks[id].archived
    ensures SameBoard(places, PerformRestore(places, site, db, id, user).db.tasks)
      <==> forall x :: x in HierarchyOf(db.tasks, true, id) && x in db.tasks ==>
             OnParentsBoard(places, db.tasks, x)
  {
    var tasks := db.tasks;
    var h := HierarchyOf(tasks, true, id);
    var result := PerformRestore(places, site, db, id, user).db.tasks;
    forall x | x in tasks && tasks[x].parent.Some? ensures tasks[x].parent.value in tasks {
      ParentsPresent(tasks, x);
    }
    if SameBoard(places, result) {
      forall x | x in h && x in tasks ensures OnParentsBoard(places, tasks, x) {
        assert !result[x].archived;
        assert result[x].columnId == tasks[x].columnId;
      }
    }
  }

  // ---------------------------------------------------------------- whole boards

  /** Archiving or restoring a board flags every task in its live columns, and no other. */
  function WithColumnsArchived(tasks: Tasks, columns: set<int>, archived: bool): Tasks {
    map x | x in tasks :: if tasks[x].columnId in columns then tasks[x].(archived := archived) else tasks[x]
  }

  /**
   Archiving a board leaves active tasks off archived ones if and only if no active task outside
   its live columns, in a deleted column say, is below a task inside.
   */
  lemma ShelvingIff(tasks: Tasks, columns: set<int>)
    requires ArchiveClosed(tasks)
    ensures ArchiveClosed(WithColumnsArchived(tasks, columns, true)) <==>
      forall x :: ActiveTask(tasks, x) && tasks[x].columnId !in columns && tasks[x].parent.Some? ==>
        tasks[x].parent.value in tasks && tasks[tasks[x].parent.value].columnId !in columns
  {
    var next := WithColumnsArchived(tasks, columns, true);
    forall x | ActiveTask(tasks, x) && tasks[x].columnId !in columns && tasks[x].parent.Some?
      ensures ActiveTask(next, tasks[x].parent.value) <==> tasks[tasks[x].parent.value].columnId !in columns
    {}
    assert forall x :: ActiveTask(next, x) <==> ActiveTask(tasks, x) && tasks[x].columnId !in columns;
  }

  /**
   Restoring a board does if and only if every task in its live columns is a root, or its parent
   is inside as well or active already.
   */
  lemma UnshelvingIff(tasks: Tasks, columns: set<int>)
    requires ArchiveClosed(tasks)
    ensures ArchiveClosed(WithColumnsArchived(tasks, columns, false)) <==>
      forall x :: x in tasks && tasks[x].columnId in columns && tasks[x].parent.Some? ==>
        var p := tasks[x].parent.value;
        p in tasks && (tasks[p].columnId in columns || !tasks[p].archived)
  {
    var next := WithColumnsArchived(tasks, columns, false);
    forall p ensures ActiveTask(next, p) <==> p in tasks && (tasks[p].columnId in columns || !tasks[p].archived) {}
    if ArchiveClosed(next) {
      forall x | x in tasks && tasks[x].columnId in columns && tasks[x].parent.Some?
        ensures ActiveTask(next, tasks[x].parent.value)
      {
        assert !next[x].archived;
      }
    }
  }

  const ROOT_TASK := Task(10, None, 0, 1, false, 7, {7}, {}, {}, {}, map[])

  /** Root 1 in column 10; its child 2 in column 11, which has been deleted since. */
  const CHILD_IN_DELETED_COLUMN: Tasks :=
    map[1 := ROOT_TASK, 2 := ROOT_TASK.(columnId := 11, parent := Some(1), number := 2)]

  /** Archiving the board archives task 1 and leaves task 2 active. */
  lemma ShelvingCanLeaveAChild()
    ensures ArchiveClosed(CHILD_IN_DELETED_COLUMN)
    ensures !ArchiveClosed(WithColumnsArchived(CHILD_IN_DELETED_COLUMN, {10}, true))
  {
    ShelvingIff(CHILD_IN_DELETED_COLUMN, {10});
    assert ActiveTask(CHILD_IN_DELETED_COLUMN, 2);
  }
}
