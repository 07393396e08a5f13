/**
 A run of successful calls that breaks what holds without restore. A root moves to another
 project while its child is in the archive; the child is restored, which puts it on another
 board than its parent; then it is detached, which carries it into the parent's project with a
 number that is in use there.
 */
module BoardLeftBehind {
  import opened Wrappers
  import opened TaskRows
  import opened Hierarchy
  import opened BoardSpec
  import opened BoardTree
  import opened BoardNumbers
  import opened BoardPlacement
  import opened BoardFrame

  /** Column 10 on board 1 of project 1, column 20 on board 2 of project 2. */
  const TWO_PROJECTS := Places(map[10 := 1, 20 := 2], map[1 := 1, 2 := 2])

  /** User 7 owns both projects and is a member of both. */
  const OPEN_SITE := Site(map[10 := Column(false, false), 20 := Column(false, false)],
                          {1, 2}, {}, map[1 := Project(7, true), 2 := Project(7, true)],
                          {(1, 7), (2, 7)}, {})

  const ANY_TASK := Task(10, None, 0, 1, false, 7, {7}, {}, {}, {}, map[])

  /** Root 1 with an archived child 2 in project 1; root 3 in project 2 has the child's number. */
  const BEFORE_MOVE := Db(map[1 := ANY_TASK,
                              2 := ANY_TASK.(parent := Some(1), number := 2, archived := true),
                              3 := ANY_TASK.(columnId := 20, number := 2)],
                          map[], 4, [])

  const MOVING := Call(OPEN_SITE, 7, Move(1, 20, 0))
  const RESTORING := Call(OPEN_SITE, 7, Restore(2))
  const DETACH := UpdateDto(map[], None, None, None, None, Some(None), true)
  const DETACHING := Call(OPEN_SITE, 7, Update(2, DETACH))

  /** The three rows, with the child still archived or revived, once root 1 is in column 20. */
  ghost predicate LeftBehind(tasks: Tasks, archived: bool) {
    && tasks.Keys == {1, 2, 3}
    && tasks[1].columnId == 20 && tasks[1].parent.None? && !tasks[1].archived
    && tasks[2] == BEFORE_MOVE.tasks[2].(archived := archived)
    && tasks[3].(order := 0) == BEFORE_MOVE.tasks[3]
  }

  lemma StartIsPlaced()
    ensures Placed(TWO_PROJECTS, BEFORE_MOVE)
  {
    assert Ranked(BEFORE_MOVE.tasks, map[1 := 0, 2 := 1, 3 := 0]);
  }

  /** The archived child is not below the root as far as the move can see. */
  lemma ChildIsNotCarried(x: int)
    ensures x in MoveItems(TWO_PROJECTS, BEFORE_MOVE.tasks, 1, 20) <==> x == 1
  {
    var tasks := BEFORE_MOVE.tasks;
    StartIsPlaced();
    HierarchyHolds(tasks, false, 1, x);
    if Descends(tasks, false, 1, x) {
      var n: nat :| Under(tasks, false, 1, x, n);
    } else if x == 1 {
      assert Under(tasks, false, 1, 1, 0);
    }
  }

  /** A move between projects that is allowed: the user is a member of both. */
  lemma MoveIsAllowed()
    ensures MoveCheck(TWO_PROJECTS, OPEN_SITE, BEFORE_MOVE, 1, 20, 7).Pass?
  {
    var tasks := BEFORE_MOVE.tasks;
    var items := MoveItems(TWO_PROJECTS, tasks, 1, 20);
    forall x ensures x in items <==> x == 1 { ChildIsNotCarried(x); }
    assert ToSet(items) * tasks.Keys == {1};
    assert LeaveCheck(OPEN_SITE, tasks, {1}, 20, 7).Pass?;
    StaffIsAllowed(tasks);
  }

  lemma StaffIsAllowed(tasks: Tasks)
    requires 1 in tasks && tasks[1] == ANY_TASK
    ensures MoveStaffCheck(OPEN_SITE, tasks, {1}, 2).Pass?
  {
    var items := {1};
    var controllers := set x, u | x in items && u in tasks[x].controllers :: u;
    var responsibles := set x, u | x in items && u in tasks[x].responsibles :: u;
    var assignees := set x, u | x in items && u in tasks[x].assignees :: u;
    assert forall u :: u in tasks[1].controllers <==> u == 7;
    assert 1 in items && controllers == {7} && responsibles == {} && assignees == {};
  }

  lemma MoveResultRows(places: Places, db: Db, call: Call)
    requires call.op.Move? && call.op.id in db.tasks
    requires MoveCheck(places, call.site, db, call.op.id, call.op.column, call.user).Pass?
    ensures Perform(places, db, call).Done?
    ensures After(places, db, call).tasks == AfterMove(places, db, call.op.id, call.op.column, call.op.order)
  {}

  lemma MovedRootRow(places: Places, db: Db, id: int, column: int, order: int)
    requires id in db.tasks
    ensures var r := AfterMove(places, db, id, column, order)[id];
      r.columnId == column && r.parent == db.tasks[id].parent && r.archived == db.tasks[id].archived
  {
    MovedRowsFrame(places, db.tasks, id, column, order);
    ItemsHoldTask(places, db.tasks, id, column);
  }

  lemma RowsLeftBehind()
    ensures LeftBehind(AfterMove(TWO_PROJECTS, BEFORE_MOVE, 1, 20, 0), true)
  {
    ChildIsNotCarried(2);
    ChildIsNotCarried(3);
    MoveBystander(TWO_PROJECTS, BEFORE_MOVE, 1, 20, 0, 2);
    MoveBystander(TWO_PROJECTS, BEFORE_MOVE, 1, 20, 0, 3);
    MovedRootRow(TWO_PROJECTS, BEFORE_MOVE, 1, 20, 0);
  }

  lemma ChildIsLeftBehind()
    ensures Perform(TWO_PROJECTS, BEFORE_MOVE, MOVING).Done?
    ensures LeftBehind(After(TWO_PROJECTS, BEFORE_MOVE, MOVING).tasks, true)
  {
    MoveIsAllowed();
    MoveResultRows(TWO_PROJECTS, BEFORE_MOVE, MOVING);
    RowsLeftBehind();
  }

  lemma ChildComesBack(db: Db)
    requires Sound(db) && LeftBehind(db.tasks, true)
    ensures Perform(TWO_PROJECTS, db, RESTORING).Done?
    ensures LeftBehind(After(TWO_PROJECTS, db, RESTORING).tasks, false)
    ensures !SameBoard(TWO_PROJECTS, After(TWO_PROJECTS, db, RESTORING).tasks)
  {
    assert RestoreCheck(TWO_PROJECTS, OPEN_SITE, db, 2, 7).Pass?;
    HierarchyHolds(db.tasks, true, 2, 2);
    assert Under(db.tasks, true, 2, 2, 0);
    var next := After(TWO_PROJECTS, db, RESTORING).tasks;
    assert !next[2].archived && next[2].parent == Some(1);
  }

  lemma DetachIsAllowed(db: Db)
    requires LeftBehind(db.tasks, false)
    ensures UpdateCheck(TWO_PROJECTS, OPEN_SITE, db, 2, DETACH, 7).Pass?
  {
    assert LeaveCheck(OPEN_SITE, db.tasks, {2}, 20, 7).Pass?;
    assert ParentCheck(TWO_PROJECTS, OPEN_SITE, db.tasks, 2, None, 7).Pass?;
  }

  /** Whatever keeps task numbers distinct up to here, the detached child breaks it. */
  lemma NumberIsTaken(db: Db)
    requires Sound(db) && LeftBehind(db.tasks, false)
    ensures Perform(TWO_PROJECTS, db, DETACHING).Done?
    ensures !UniqueNumbers(TWO_PROJECTS, After(TWO_PROJECTS, db, DETACHING).tasks)
  {
    DetachIsAllowed(db);
    var next := After(TWO_PROJECTS, db, DETACHING).tasks;
    UpdatedColumns(db.tasks, 2, DETACH, next);
    assert next[2].number == next[3].number && 2 in next && 3 in next;
  }

  lemma RunTwo(places: Places, db: Db, first: Call, second: Call)
    ensures Run(places, db, [first, second]) == After(places, After(places, db, first), second)
  {
    var both := [first, second];
    RunNothing(places, db, both);
    RunOneMore(places, db, both, 0);
    RunOneMore(places, db, both, 1);
    assert both[..2] == both;
  }

  lemma RunThree(places: Places, db: Db, first: Call, second: Call, third: Call)
    ensures Run(places, db, [first, second, third])
         == After(places, After(places, After(places, db, first), second), third)
  {
    var all := [first, second, third];
    RunOneMore(places, db, all, 2);
    assert all[..3] == all && all[..2] == [first, second];
    RunTwo(places, db, first, second);
  }

  lemma ThreeCalls()
    ensures var moved := After(TWO_PROJECTS, BEFORE_MOVE, MOVING);
      var revived := After(TWO_PROJECTS, moved, RESTORING);
      && !SameBoard(TWO_PROJECTS, revived.tasks)
      && !UniqueNumbers(TWO_PROJECTS, After(TWO_PROJECTS, revived, DETACHING).tasks)
  {
    StartIsPlaced();
    ChildIsLeftBehind();
    var moved := After(TWO_PROJECTS, BEFORE_MOVE, MOVING);
    StepSound(TWO_PROJECTS, BEFORE_MOVE, MOVING);
    ChildComesBack(moved);
    StepSound(TWO_PROJECTS, moved, RESTORING);
    NumberIsTaken(After(TWO_PROJECTS, moved, RESTORING));
  }

  /** After the restore, an active child is on another board than its parent. */
  lemma RestoreCanSplitBoards()
    ensures Placed(TWO_PROJECTS, BEFORE_MOVE)
    ensures !SameBoard(TWO_PROJECTS, Run(TWO_PROJECTS, BEFORE_MOVE, [MOVING, RESTORING]).tasks)
  {
    StartIsPlaced();
    ThreeCalls();
    RunTwo(TWO_PROJECTS, BEFORE_MOVE, MOVING, RESTORING);
  }

  /** After the detachment, two tasks of one project have the same number. */
  lemma DetachCanRepeatNumbers()
    ensures Placed(TWO_PROJECTS, BEFORE_MOVE)
    ensures !UniqueNumbers(TWO_PROJECTS, Run(TWO_PROJECTS, BEFORE_MOVE, [MOVING, RESTORING, DETACHING]).tasks)
  {
    StartIsPlaced();
    ThreeCalls();
    RunThree(TWO_PROJECTS, BEFORE_MOVE, MOVING, RESTORING, DETACHING);
  }
}
