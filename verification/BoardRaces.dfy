/**
 Restore and delete while another call commits.

 A restore reads the parent of its task without a lock and revives the hierarchy later. A
 delete reads its task without a lock, collects the hierarchy and archives it later. What
 commits in between decides whether an active task ends up below an archived one.
 */
module BoardRaces {
  import opened Wrappers
  import opened TaskRows
  import opened Hierarchy
  import opened BoardSpec
  import opened BoardTree
  import opened BoardFrame
  import opened BoardLeftBehind
  import opened BoardOverlap

  // ---------------------------------------------------------------- restore

  /** With nothing in between, reviving the hierarchy is the whole restore. */
  lemma RestoreAtOnce(places: Places, site: Site, db: Db, id: int, user: int)
    requires PerformRestore(places, site, db, id, user).Done? && db.tasks[id].archived
    ensures PerformRestore(places, site, db, id, user).db.tasks
         == WithArchived(db.tasks, HierarchyOf(db.tasks, true, id), false)
  {}

  /**
   A restore that overlaps with one other call, which cannot touch the restored row itself, for
   that is locked. Active tasks stay off archived ones if and only if the call does not delete
   the parent, alone or with a task above. If the call changes no task, this is the plain restore.
   */
  lemma LateRestore(places: Places, site: Site, db: Db, call: Call, id: int, user: int)
    requires Sound(db) && PerformRestore(places, site, db, id, user).Done? && db.tasks[id].archived
    requires id in After(places, db, call).tasks
    requires After(places, db, call).tasks[id].parent == db.tasks[id].parent
    requires After(places, db, call).tasks[id].archived
    ensures var between := After(places, db, call).tasks;
      var next := WithArchived(between, HierarchyOf(between, true, id), false);
      && Forest(next)
      && (ArchiveClosed(next) <==>
            !(db.tasks[id].parent.Some? && Archives(places, db, call, db.tasks[id].parent.value)))
      && (between == db.tasks ==> next == PerformRestore(places, site, db, id, user).db.tasks)
  {
    RestoreAtOnce(places, site, db, id, user);
    StepSound(places, db, call);
    RevivalIff(After(places, db, call).tasks, id);
    if db.tasks[id].parent.Some? {
      var p := db.tasks[id].parent.value;
      ParentIsNotBelow(db.tasks, id);
      assert ActiveTask(db.tasks, p);
      StaysActiveIff(places, db, call, p);
    }
  }

  lemma RestoreIsAllowed()
    ensures Perform(TWO_PROJECTS, BEFORE_MOVE, RESTORING).Done?
    ensures BEFORE_MOVE.tasks[2].archived && BEFORE_MOVE.tasks[2].parent == Some(1)
  {
    assert RestoreCheck(TWO_PROJECTS, OPEN_SITE, BEFORE_MOVE, 2, 7).Pass?;
  }

  /** A delete leaves the parents of all rows as they are, and archived rows archived. */
  lemma DeletedRows(places: Places, site: Site, db: Db, id: int, user: int, x: int)
    requires PerformDelete(places, site, db, id, user).Done? && x in db.tasks
    ensures var between := PerformDelete(places, site, db, id, user).db.tasks;
      x in between && between[x].parent == db.tasks[x].parent && (db.tasks[x].archived ==> between[x].archived)
  {}

  lemma RestoreOverlapsDelete(db: Db)
    requires Sound(db) && Perform(TWO_PROJECTS, db, RESTORING).Done? && Perform(TWO_PROJECTS, db, DELETING).Done?
    requires 2 in db.tasks && db.tasks[2].archived && db.tasks[2].parent == Some(1)
    requires Archives(TWO_PROJECTS, db, DELETING, 1)
    ensures var between := After(TWO_PROJECTS, db, DELETING).tasks;
      !ArchiveClosed(WithArchived(between, HierarchyOf(between, true, 2), false))
  {
    DeletedRows(TWO_PROJECTS, OPEN_SITE, db, 1, 7, 2);
    LateRestore(TWO_PROJECTS, OPEN_SITE, db, DELETING, 2, 7);
  }

  /** The restore of task 2 with a delete of its parent in between. */
  lemma RestoreBelowDeleted()
    ensures Perform(TWO_PROJECTS, BEFORE_MOVE, RESTORING).Done?
    ensures var between := After(TWO_PROJECTS, BEFORE_MOVE, DELETING).tasks;
      !ArchiveClosed(WithArchived(between, HierarchyOf(between, true, 2), false))
  {
    StartIsPlaced();
    DeleteIsAllowed();
    RestoreIsAllowed();
    RestoreOverlapsDelete(BEFORE_MOVE);
  }

  // ---------------------------------------------------------------- delete

  /** The task is active, below one of the rows and not one of them. */
  ghost predicate LeftOut(tasks: Tasks, items: seq<int>, x: int) {
    ActiveTask(tasks, x) && x !in items && tasks[x].parent.Some? && tasks[x].parent.value in items
  }

  /** Archiving rows collected earlier is safe if and only if no other active task is below one of them. */
  lemma ArchivalIff(tasks: Tasks, items: seq<int>)
    requires ArchiveClosed(tasks)
    ensures ArchiveClosed(WithArchived(tasks, items, true)) <==> forall x :: !LeftOut(tasks, items, x)
  {
    var next := WithArchived(tasks, items, true);
    if exists x :: LeftOut(tasks, items, x) {
      var x :| LeftOut(tasks, items, x);
      assert x in next && !next[x].archived && next[x].parent.Some? && !ActiveTask(next, next[x].parent.value);
    }
    if forall x :: !LeftOut(tasks, items, x) {
      forall x | x in next && !next[x].archived && next[x].parent.Some?
        ensures ActiveTask(next, next[x].parent.value)
      {
        assert !LeftOut(tasks, items, x);
      }
    }
  }

  /** The call attaches, creates or restores a task below one of the rows. */
  ghost predicate BringsBelow(places: Places, db: Db, call: Call, items: seq<int>) {
    Perform(places, db, call).Done? &&
    match call.op
    case CreateSubtask(above, _) => above in items
    case Update(id, dto) =>
      id in db.tasks && id !in items && Reparents(db.tasks[id], dto)
      && dto.parent.value.Some? && dto.parent.value.value in items
    case Restore(id) =>
      id in db.tasks && db.tasks[id].archived && db.tasks[id].parent.Some? && db.tasks[id].parent.value in items
    case _ => false
  }

  lemma {:induction false} AboveActive(tasks: Tasks, root: int, x: int, n: nat)
    requires ArchiveClosed(tasks) && ActiveTask(tasks, x) && Under(tasks, true, root, x, n)
    ensures ActiveTask(tasks, root)
    decreases n
  {
    if n > 0 { AboveActive(tasks, root, tasks[x].parent.value, n - 1); }
  }

  lemma CollectedIsActive(tasks: Tasks, id: int, x: int)
    requires Forest(tasks) && ActiveTask(tasks, id) && x in HierarchyOf(tasks, false, id)
    ensures ActiveTask(tasks, x)
  {
    HierarchyHolds(tasks, false, id, x);
    if x != id { DescendsFromParent(tasks, false, id, x); }
  }

  /** A task that was active before is left out only if the call has attached it. */
  lemma NothingLeftOut(tasks: Tasks, id: int, x: int)
    requires Forest(tasks) && ActiveTask(tasks, id)
    ensures !LeftOut(tasks, HierarchyOf(tasks, false, id), x)
  {
    if LeftOut(tasks, HierarchyOf(tasks, false, id), x) {
      var p := tasks[x].parent.value;
      HierarchyHolds(tasks, false, id, p);
      DescendsToChildren(tasks, false, id, p, x);
      HierarchyHolds(tasks, false, id, x);
      assert false;
    }
  }

  lemma RestoredLeftOut(places: Places, db: Db, call: Call, id: int, x: int)
    requires Sound(db) && ActiveTask(db.tasks, id) && call.op.Restore? && Perform(places, db, call).Done?
    requires x in db.tasks && x in After(places, db, call).tasks
    requires LeftOut(After(places, db, call).tasks, HierarchyOf(db.tasks, false, id), x)
    ensures BringsBelow(places, db, call, HierarchyOf(db.tasks, false, id))
  {
    var tasks, c := db.tasks, call.op.id;
    NothingLeftOut(tasks, id, x);
    assert tasks[x].archived && x in HierarchyOf(tasks, true, c);
    var p := tasks[x].parent.value;
    CollectedIsActive(tasks, id, p);
    HierarchyHolds(tasks, true, c, x);
    if x != c {
      DescendsFromParent(tasks, true, c, x);
      var n: nat :| Under(tasks, true, c, p, n);
      AboveActive(tasks, c, p, n);
      assert false;
    }
  }

  lemma UpdatedLeftOut(places: Places, site: Site, db: Db, id: int, c: int, dto: UpdateDto, user: int)
    requires Sound(db) && ActiveTask(db.tasks, id) && PerformUpdate(places, site, db, c, dto, user).Done?
    requires var next := PerformUpdate(places, site, db, c, dto, user).db.tasks;
      LeftOut(next, HierarchyOf(db.tasks, false, id), c)
    ensures c !in HierarchyOf(db.tasks, false, id) && Reparents(db.tasks[c], dto) && dto.parent.value.Some?
    ensures dto.parent.value.value in HierarchyOf(db.tasks, false, id)
  {
    NothingLeftOut(db.tasks, id, c);
    if Reparents(db.tasks[c], dto) { ReorderFrame(db.tasks, c, dto.parent.value); }
  }

  lemma LeftOutWasBrought(places: Places, db: Db, call: Call, id: int, x: int)
    requires Sound(db) && ActiveTask(db.tasks, id)
    requires LeftOut(After(places, db, call).tasks, HierarchyOf(db.tasks, false, id), x)
    ensures BringsBelow(places, db, call, HierarchyOf(db.tasks, false, id))
  {
    var items := HierarchyOf(db.tasks, false, id);
    NothingLeftOut(db.tasks, id, x);
    if x in db.tasks && x !in Subjects(places, db, call.op) {
      BystandersKeepAll(places, db, call, x);
      assert false;
    } else if Perform(places, db, call).Done? {
      match call.op
      case Update(c, dto) => UpdatedLeftOut(places, call.site, db, id, c, dto, call.user);
      case Move(c, column, order) => AfterMoveFrame(places, db, c, column, order);
      case Restore(c) => RestoredLeftOut(places, db, call, id, x);
      case Delete(c) =>
      case Create(_, _) =>
      case CreateSubtask(_, _) =>
    }
  }

  lemma BroughtIsLeftOut(places: Places, db: Db, call: Call, id: int) returns (x: int)
    requires Sound(db) && ActiveTask(db.tasks, id)
    requires BringsBelow(places, db, call, HierarchyOf(db.tasks, false, id))
    ensures LeftOut(After(places, db, call).tasks, HierarchyOf(db.tasks, false, id), x)
  {
    var items := HierarchyOf(db.tasks, false, id);
    match call.op
    case CreateSubtask(above, _) =>
      x := db.nextId;
      if x in items { CollectedIsActive(db.tasks, id, x); }
    case Update(c, dto) =>
      x := c;
      ReorderFrame(db.tasks, c, dto.parent.value);
    case Restore(c) =>
      x := c;
      RootFirst(db.tasks, true, c, |db.tasks|);
      if x in items { CollectedIsActive(db.tasks, id, x); }
  }

  lemma DeleteAtOnce(places: Places, site: Site, db: Db, id: int, user: int)
    requires PerformDelete(places, site, db, id, user).Done?
    ensures PerformDelete(places, site, db, id, user).db.tasks
         == WithArchived(db.tasks, HierarchyOf(db.tasks, false, id), true)
  {}

  /**
   A delete that overlaps with one other call. Active tasks stay off archived ones if and only if
   the call brings no task below one of the collected rows: by attaching it, by creating it, or by
   restoring it.
   */
  lemma LateDelete(places: Places, site: Site, db: Db, call: Call, id: int, user: int)
    requires Sound(db) && PerformDelete(places, site, db, id, user).Done?
    ensures var next := WithArchived(After(places, db, call).tasks, HierarchyOf(db.tasks, false, id), true);
      && Forest(next)
      && (ArchiveClosed(next) <==> !BringsBelow(places, db, call, HierarchyOf(db.tasks, false, id)))
      && (After(places, db, call).tasks == db.tasks ==>
            next == PerformDelete(places, site, db, id, user).db.tasks)
  {
    DeleteAtOnce(places, site, db, id, user);
    var items, between := HierarchyOf(db.tasks, false, id), After(places, db, call).tasks;
    StepSound(places, db, call);
    SameParentsForest(between, WithArchived(between, items, true));
    ArchivalIff(between, items);
    if BringsBelow(places, db, call, items) {
      var x := BroughtIsLeftOut(places, db, call, id);
    } else {
      forall x ensures !LeftOut(between, items, x) {
        if LeftOut(between, items, x) { LeftOutWasBrought(places, db, call, id, x); }
      }
    }
  }

  lemma DeleteOverlapsRestore(db: Db)
    requires Sound(db) && Perform(TWO_PROJECTS, db, RESTORING).Done? && Perform(TWO_PROJECTS, db, DELETING).Done?
    requires 2 in db.tasks && db.tasks[2].archived && db.tasks[2].parent == Some(1)
    ensures !ArchiveClosed(WithArchived(After(TWO_PROJECTS, db, RESTORING).tasks,
                                        HierarchyOf(db.tasks, false, 1), true))
  {
    RootFirst(db.tasks, false, 1, |db.tasks|);
    assert 1 in HierarchyOf(db.tasks, false, 1);
    LateDelete(TWO_PROJECTS, OPEN_SITE, db, RESTORING, 1, 7);
  }

  /** The delete of task 1 with a restore of its child in between. */
  lemma DeleteAboveRestored()
    ensures Perform(TWO_PROJECTS, BEFORE_MOVE, DELETING).Done?
    ensures !ArchiveClosed(WithArchived(After(TWO_PROJECTS, BEFORE_MOVE, RESTORING).tasks,
                                        HierarchyOf(BEFORE_MOVE.tasks, false, 1), true))
  {
    StartIsPlaced();
    DeleteIsAllowed();
    RestoreIsAllowed();
    DeleteOverlapsRestore(BEFORE_MOVE);
  }
}
