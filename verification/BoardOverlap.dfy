/**
 Creating a subtask while another call commits.

 The parent is read without a lock and the subtask is inserted later, with the column read then.
 What commits in between decides whether the subtask ends up below an archived task or on
 another board than its parent. Its number is safe: the project row is locked before the
 numbers are read, and stays locked until the insert has committed.
 */
module BoardOverlap {
  import opened Wrappers
  import opened TaskRows
  import opened Hierarchy
  import opened BoardSpec
  import opened BoardTree
  import opened BoardNumbers
  import opened BoardPlacement
  import opened BoardFrame
  import opened BoardLeftBehind

  /** The late insert: below the parent and in the column that were read, under a given number. */
  function Insert(places: Places, db: Db, above: int, column: int, dto: CreateDto, number: int, user: int): Db {
    var task := NewTask(dto, column, Some(above), number, user);
    var project := places.ProjectOfColumn(column);
    Db(db.tasks[db.nextId := task],
       db.counters[project := number],
       db.nextId + 1,
       db.events + [Event(db.nextId, Created, project, user, task.assignees),
                    Event(above, SubtaskCreated, project, user,
                          if above in db.tasks then db.tasks[above].assignees else {})])
  }

  /** With nothing in between, reading and inserting are the whole call. */
  lemma InsertAtOnce(places: Places, site: Site, db: Db, above: int, dto: CreateDto, user: int)
    requires PerformCreateSubtask(places, site, db, above, dto, user).Done? && above in db.tasks
    ensures var column := db.tasks[above].columnId;
      var number := FirstNumber(places, db.counters, db.tasks, places.ProjectOfColumn(column));
      PerformCreateSubtask(places, site, db, above, dto, user).db
        == Insert(places, db, above, column, dto, number, user)
  {}

  lemma InsertedRow(places: Places, db: Db, above: int, column: int, dto: CreateDto, number: int, user: int)
    requires Placed(places, db) && above in db.tasks
    requires number >= FirstNumber(places, db.counters, db.tasks, places.ProjectOfColumn(column))
    ensures var next := Insert(places, db, above, column, dto, number, user).tasks;
      Forest(next) && UniqueNumbers(places, next)
  {
    var next := Insert(places, db, above, column, dto, number, user).tasks;
    var rank :| Ranked(db.tasks, rank);
    assert Ranked(next, rank[db.nextId := rank[above] + 1]);
    var project := places.ProjectOfColumn(column);
    forall x | x in db.tasks && places.ProjectOfColumn(db.tasks[x].columnId) == project
      ensures db.tasks[x].number < number
    {
      MaxNumberBounds(places, db.tasks, project, x);
    }
  }

  /**
   From a state in good order, the late insert keeps the forest and distinct numbers in any
   case; it keeps active tasks off archived ones if and only if the parent is still active, and
   children on their parents' boards if and only if the parent is still on the board read.
   */
  lemma LateInsert(places: Places, db: Db, above: int, column: int, dto: CreateDto, number: int, user: int)
    requires Placed(places, db) && above in db.tasks
    requires number >= FirstNumber(places, db.counters, db.tasks, places.ProjectOfColumn(column))
    ensures var next := Insert(places, db, above, column, dto, number, user).tasks;
      && Forest(next) && UniqueNumbers(places, next)
      && (ArchiveClosed(next) <==> ActiveTask(db.tasks, above))
      && (SameBoard(places, next) <==> places.BoardOf(db.tasks[above].columnId) == places.BoardOf(column))
  {
    InsertedRow(places, db, above, column, dto, number, user);
    var next := Insert(places, db, above, column, dto, number, user).tasks;
    var id := db.nextId;
    assert next[id].parent == Some(above) && !next[id].archived && next[id].columnId == column;
    forall x | x in db.tasks && db.tasks[x].parent.Some? ensures db.tasks[x].parent.value in db.tasks {
      ParentsPresent(db.tasks, x);
    }
    assert forall x :: x in db.tasks ==> next[x] == db.tasks[x];
  }

  lemma StaysInTable(places: Places, db: Db, call: Call, x: int)
    requires Sound(db) && x in db.tasks
    ensures x in After(places, db, call).tasks
  {
    if x !in Subjects(places, db, call.op) { BystandersKeepAll(places, db, call, x); }
  }

  lemma {:induction false} RunKeepsRows(places: Places, db: Db, calls: seq<Call>, x: int)
    requires Sound(db) && x in db.tasks
    ensures x in Run(places, db, calls).tasks
    decreases |calls|
  {
    if calls != [] {
      StepSound(places, db, calls[0]);
      StaysInTable(places, db, calls[0], x);
      RunKeepsRows(places, After(places, db, calls[0]), calls[1..], x);
    }
  }

  /**
   A creation that passes its checks, inserts after any calls have committed and finds a state
   in good order. What the parent has become decides; with no calls in between, the insert is
   the call as a whole.
   */
  lemma Overlap(places: Places, site: Site, db: Db, calls: seq<Call>, above: int,
                dto: CreateDto, number: int, user: int)
    requires Sound(db) && PerformCreateSubtask(places, site, db, above, dto, user).Done? && above in db.tasks
    requires Placed(places, Run(places, db, calls))
    requires var between := Run(places, db, calls);
      number >= FirstNumber(places, between.counters, between.tasks,
                            places.ProjectOfColumn(db.tasks[above].columnId))
    ensures var between, column := Run(places, db, calls), db.tasks[above].columnId;
      var next := Insert(places, between, above, column, dto, number, user);
      && above in between.tasks
      && Forest(next.tasks) && UniqueNumbers(places, next.tasks)
      && (ArchiveClosed(next.tasks) <==> ActiveTask(between.tasks, above))
      && (SameBoard(places, next.tasks) <==>
            places.BoardOf(between.tasks[above].columnId) == places.BoardOf(column))
      && (calls == [] && number == FirstNumber(places, db.counters, db.tasks, places.ProjectOfColumn(column)) ==>
            next == PerformCreateSubtask(places, site, db, above, dto, user).db)
  {
    RunKeepsRows(places, db, calls, above);
    LateInsert(places, Run(places, db, calls), above, db.tasks[above].columnId, dto, number, user);
    InsertAtOnce(places, site, db, above, dto, user);
  }

  // ---------------------------------------------------------------- one call in between

  /** The call archives the task, with a task above it or itself. */
  ghost predicate Archives(places: Places, db: Db, call: Call, x: int) {
    call.op.Delete? && Perform(places, db, call).Done? && Descends(db.tasks, false, call.op.id, x)
  }

  /** The call takes the task to another board, along with a task above it or itself. */
  ghost predicate TakesAway(places: Places, db: Db, call: Call, x: int) {
    && call.op.Move? && Perform(places, db, call).Done? && call.op.id in db.tasks
    && places.BoardOf(db.tasks[call.op.id].columnId) != places.BoardOf(call.op.column)
    && x in MoveItems(places, db.tasks, call.op.id, call.op.column)
  }

  /** An active task stays active unless it is archived with a task above it. */
  lemma StaysActiveIff(places: Places, db: Db, call: Call, x: int)
    requires Sound(db) && ActiveTask(db.tasks, x)
    ensures ActiveTask(After(places, db, call).tasks, x) <==> !Archives(places, db, call, x)
  {
    if x !in Subjects(places, db, call.op) {
      BystandersKeepAll(places, db, call, x);
      if call.op.Delete? && call.op.id in db.tasks { HierarchyHolds(db.tasks, false, call.op.id, x); }
    } else if Perform(places, db, call).Done? {
      match call.op
      case Update(id, dto) =>
        if Reparents(db.tasks[id], dto) { ReorderFrame(db.tasks, id, dto.parent.value); }
      case Move(id, column, order) => MovedRowsFrame(places, db.tasks, id, column, order);
      case Delete(id) => HierarchyHolds(db.tasks, false, id, x);
      case Restore(_) =>
    }
  }

  /** A task changes boards only by a move of a task above it, or itself, to another board. */
  lemma StaysOnBoardIff(places: Places, db: Db, call: Call, x: int)
    requires Placed(places, db) && x in db.tasks
    ensures x in After(places, db, call).tasks
    ensures places.BoardOf(After(places, db, call).tasks[x].columnId) == places.BoardOf(db.tasks[x].columnId)
      <==> !TakesAway(places, db, call, x)
  {
    StaysInTable(places, db, call, x);
    if x !in Subjects(places, db, call.op) {
      BystandersKeepAll(places, db, call, x);
    } else if Perform(places, db, call).Done? {
      match call.op
      case Update(id, dto) => UpdateStaysOnBoard(places, call.site, db, id, dto, call.user);
      case Move(id, column, order) => MovedBoard(places, db, id, column, order, x);
      case Delete(_) =>
      case Restore(_) =>
    }
  }

  lemma UpdateStaysOnBoard(places: Places, site: Site, db: Db, id: int, dto: UpdateDto, user: int)
    requires Placed(places, db) && PerformUpdate(places, site, db, id, dto, user).Done?
    ensures places.BoardOf(PerformUpdate(places, site, db, id, dto, user).db.tasks[id].columnId)
         == places.BoardOf(db.tasks[id].columnId)
  {
    var next := PerformUpdate(places, site, db, id, dto, user).db.tasks;
    if Reparents(db.tasks[id], dto) {
      ReorderFrame(db.tasks, id, dto.parent.value);
      ReparentedBoards(places, site, db.tasks, id, dto.parent.value, user, next, next[id]);
    }
  }

  lemma MovedBoard(places: Places, db: Db, id: int, column: int, order: int, x: int)
    requires Placed(places, db) && id in db.tasks && x in MoveItems(places, db.tasks, id, column) && x in db.tasks
    ensures AfterMove(places, db, id, column, order)[x].columnId == column
    ensures places.BoardOf(db.tasks[x].columnId) == places.BoardOf(db.tasks[id].columnId)
  {
    MovedRowsFrame(places, db.tasks, id, column, order);
    ItemsOnBoard(places, db.tasks, id, column, x);
  }

  /** One other call, as a run. */
  lemma RunOne(places: Places, db: Db, call: Call)
    ensures Run(places, db, [call]) == After(places, db, call)
  {
    RunNothing(places, db, [call]);
    RunOneMore(places, db, [call], 0);
    assert [call][..1] == [call];
  }

  /**
   A subtask whose creation overlaps with one other call. It ends up below an archived task if
   and only if that call deletes its parent, alone or with a task above; it ends up on another
   board than its parent if and only if that call moves the parent to another board.
   */
  lemma OneOverlap(places: Places, site: Site, db: Db, call: Call, above: int,
                   dto: CreateDto, number: int, user: int)
    requires Placed(places, db) && RevivedFit(places, db, call)
    requires PerformCreateSubtask(places, site, db, above, dto, user).Done? && above in db.tasks
    requires var between := After(places, db, call);
      number >= FirstNumber(places, between.counters, between.tasks,
                            places.ProjectOfColumn(db.tasks[above].columnId))
    ensures var next := Insert(places, After(places, db, call), above, db.tasks[above].columnId,
                               dto, number, user).tasks;
      && Forest(next) && UniqueNumbers(places, next)
      && (ArchiveClosed(next) <==> !Archives(places, db, call, above))
      && (SameBoard(places, next) <==> !TakesAway(places, db, call, above))
  {
    RunOne(places, db, call);
    StepPlacedIff(places, db, call);
    assert ActiveTask(db.tasks, above);
    StaysActiveIff(places, db, call, above);
    StaysOnBoardIff(places, db, call, above);
    Overlap(places, site, db, [call], above, dto, number, user);
  }

  // ---------------------------------------------------------------- both overlaps happen

  const DELETING := Call(OPEN_SITE, 7, Delete(1))

  const PLAIN_SUBTASK := CreateDto(map[], [], None, None, [], true, 0)

  lemma DeleteIsAllowed()
    ensures Perform(TWO_PROJECTS, BEFORE_MOVE, DELETING).Done?
    ensures Archives(TWO_PROJECTS, BEFORE_MOVE, DELETING, 1)
  {
    assert TaskAccess(TWO_PROJECTS, OPEN_SITE, BEFORE_MOVE.tasks, 1, 7).Pass?;
    assert Under(BEFORE_MOVE.tasks, false, 1, 1, 0);
  }

  lemma CreationIsAllowed()
    ensures PerformCreateSubtask(TWO_PROJECTS, OPEN_SITE, BEFORE_MOVE, 1, PLAIN_SUBTASK, 7).Done?
  {}

  /**
   A permitted creation with a delete of the parent in between, whatever number it draws, leaves
   an active subtask below an archived task.
   */
  lemma DeleteInBetween(number: int)
    requires var between := After(TWO_PROJECTS, BEFORE_MOVE, DELETING);
      number >= FirstNumber(TWO_PROJECTS, between.counters, between.tasks, 1)
    ensures PerformCreateSubtask(TWO_PROJECTS, OPEN_SITE, BEFORE_MOVE, 1, PLAIN_SUBTASK, 7).Done?
    ensures !ArchiveClosed(Insert(TWO_PROJECTS, After(TWO_PROJECTS, BEFORE_MOVE, DELETING), 1, 10,
                                  PLAIN_SUBTASK, number, 7).tasks)
  {
    StartIsPlaced();
    CreationIsAllowed();
    DeleteIsAllowed();
    OneOverlap(TWO_PROJECTS, OPEN_SITE, BEFORE_MOVE, DELETING, 1, PLAIN_SUBTASK, number, 7);
  }

  /** With a move of the parent in between, the subtask is left on the board its parent was on. */
  lemma MoveInBetween(number: int)
    requires var between := After(TWO_PROJECTS, BEFORE_MOVE, MOVING);
      number >= FirstNumber(TWO_PROJECTS, between.counters, between.tasks, 1)
    ensures PerformCreateSubtask(TWO_PROJECTS, OPEN_SITE, BEFORE_MOVE, 1, PLAIN_SUBTASK, 7).Done?
    ensures !SameBoard(TWO_PROJECTS, Insert(TWO_PROJECTS, After(TWO_PROJECTS, BEFORE_MOVE, MOVING), 1, 10,
                                            PLAIN_SUBTASK, number, 7).tasks)
  {
    StartIsPlaced();
    CreationIsAllowed();
    ChildIsLeftBehind();
    ChildIsNotCarried(1);
    OneOverlap(TWO_PROJECTS, OPEN_SITE, BEFORE_MOVE, MOVING, 1, PLAIN_SUBTASK, number, 7);
  }
}
