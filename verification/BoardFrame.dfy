/**
 What a call leaves alone, how a task gets into another project, and what that demands and strips.
 */
module BoardFrame {
  import opened Wrappers
  import opened TaskRows
  import opened Hierarchy
  import opened ColumnOrder
  import opened BoardSpec
  import opened BoardTree
  import opened BoardNumbers
  import opened BoardPlacement

  /** The rows a call is about. */
  ghost function Subjects(places: Places, db: Db, op: Op): seq<int> {
    match op
    case Create(_, _) => []
    case CreateSubtask(_, _) => []
    case Update(id, _) => [id]
    case Move(id, column, _) => if id in db.tasks then MoveItems(places, db.tasks, id, column) else []
    case Delete(id) => HierarchyOf(db.tasks, false, id)
    case Restore(id) => HierarchyOf(db.tasks, true, id)
  }

  /** Any other row keeps every field, except that an active root may get a new order. */
  lemma BystandersKeepAll(places: Places, db: Db, call: Call, x: int)
    requires Sound(db) && x in db.tasks && x !in Subjects(places, db, call.op)
    ensures var before, next := db.tasks[x], After(places, db, call).tasks;
      && x in next
      && next[x].(order := before.order) == before
      && (before.parent.Some? || before.archived ==> next[x] == before)
  {
    if Perform(places, db, call).Done? {
      match call.op
      case Create(column, dto) =>
      case CreateSubtask(above, dto) =>
      case Update(id, dto) =>
        if Reparents(db.tasks[id], dto) { ReorderBystander(db.tasks, id, dto.parent.value, x); }
      case Move(id, column, order) => MoveBystander(places, db, id, column, order, x);
      case Delete(id) =>
      case Restore(id) =>
    }
  }

  lemma ReorderBystander(tasks: Tasks, id: int, parent: Option<int>, x: int)
    requires id in tasks && x in tasks && x != id
    ensures var r := Reorder(tasks, id, parent);
      && r[x].(order := tasks[x].order) == tasks[x]
      && (tasks[x].parent.Some? || tasks[x].archived ==> r[x] == tasks[x])
  {
    ReorderFrame(tasks, id, parent);
    if parent.None? {
      if tasks[id].parent.Some? && tasks[id].parent.value in tasks {
        var above := tasks[tasks[id].parent.value];
        PlaceHolds(tasks, id, above.columnId, above.order + 1);
      }
    } else {
      CloseGapHolds(tasks, tasks[id].columnId, id);
    }
  }

  lemma MoveBystander(places: Places, db: Db, id: int, column: int, order: int, x: int)
    requires id in db.tasks && x in db.tasks && x !in MoveItems(places, db.tasks, id, column)
    ensures var r := AfterMove(places, db, id, column, order);
      && r[x].(order := db.tasks[x].order) == db.tasks[x]
      && (db.tasks[x].parent.Some? || db.tasks[x].archived ==> r[x] == db.tasks[x])
  {
    ItemsHoldTask(places, db.tasks, id, column);
    MoveRootFrame(db.tasks, id, column, order);
    var placed := PlacedRows(db.tasks, id, column, order);
    assert placed[x].(order := db.tasks[x].order) == db.tasks[x];
    assert MovedRows(places, db.tasks, id, column, order)[x] == placed[x];
  }

  /** `project` takes the task in at `column`: with active members only, without tags and custom values. */
  ghost predicate Entered(site: Site, project: int, column: int, task: Task) {
    && task.columnId == column
    && task.tags == {} && CustomValues in task.details && task.details[CustomValues] == NO_CUSTOM_VALUES
    && forall u :: u in task.controllers + task.responsibles + task.assignees ==> ActiveMember(site, project, u)
  }

  lemma EnteredRows(places: Places, db: Db, id: int, column: int, order: int, x: int)
    requires id in db.tasks && x in db.tasks && x in MoveItems(places, db.tasks, id, column)
    requires places.ProjectOfColumn(db.tasks[id].columnId) != places.ProjectOfColumn(column)
    ensures var r := AfterMove(places, db, id, column, order)[x];
      && r.columnId == column
      && r.tags == {} && CustomValues in r.details && r.details[CustomValues] == NO_CUSTOM_VALUES
      && r.controllers == db.tasks[x].controllers
      && r.responsibles == db.tasks[x].responsibles
      && r.assignees == db.tasks[x].assignees
  {
    MovedRowsFrame(places, db.tasks, id, column, order);
    var moved := MovedRows(places, db.tasks, id, column, order);
    assert moved[x].(order := db.tasks[x].order, columnId := db.tasks[x].columnId) == db.tasks[x];
  }

  lemma CheckedStaff(places: Places, site: Site, db: Db, id: int, column: int, order: int, user: int)
    requires PerformMove(places, site, db, id, column, order, user).Done?
    requires places.ProjectOfColumn(db.tasks[id].columnId) != places.ProjectOfColumn(column)
    ensures MoveStaffCheck(site, db.tasks, ToSet(MoveItems(places, db.tasks, id, column)) * db.tasks.Keys,
                           places.ProjectOfColumn(column)).Pass?
  {}

  lemma StaffBelongs(site: Site, tasks: Tasks, items: set<int>, target: int, x: int)
    requires items <= tasks.Keys && x in items && MoveStaffCheck(site, tasks, items, target).Pass?
    ensures forall u :: u in tasks[x].controllers + tasks[x].responsibles + tasks[x].assignees ==>
      ActiveMember(site, target, u)
  {
    var controllers := set y, u | y in items && u in tasks[y].controllers :: u;
    var responsibles := set y, u | y in items && u in tasks[y].responsibles :: u;
    var assignees := set y, u | y in items && u in tasks[y].assignees :: u;
    assert forall u :: u in tasks[x].controllers ==> u in controllers;
    assert forall u :: u in tasks[x].responsibles ==> u in responsibles;
    assert forall u :: u in tasks[x].assignees ==> u in assignees;
  }

  /** Whoever is named on a hierarchy that a move brings to another project is an active member there. */
  lemma EnteredByMove(places: Places, site: Site, db: Db, id: int, column: int, order: int, user: int, x: int)
    requires Sound(db) && PerformMove(places, site, db, id, column, order, user).Done?
    requires places.ProjectOfColumn(db.tasks[id].columnId) != places.ProjectOfColumn(column)
    requires x in HierarchyOf(db.tasks, false, id)
    ensures x in db.tasks
    ensures Entered(site, places.ProjectOfColumn(column), column,
                    PerformMove(places, site, db, id, column, order, user).db.tasks[x])
  {
    AcrossProjects(places, site, db, id, column, order, user);
    HierarchyInTable(db.tasks, false, id, x);
    EnteredRows(places, db, id, column, order, x);
    var items := ToSet(MoveItems(places, db.tasks, id, column)) * db.tasks.Keys;
    assert x in items;
    CheckedStaff(places, site, db, id, column, order, user);
    StaffBelongs(site, db.tasks, items, places.ProjectOfColumn(column), x);
  }

  /** The call moved the hierarchy of `x` into another project. */
  ghost predicate MovedIn(places: Places, db: Db, call: Call, x: int) {
    && call.op.Move? && call.op.id in db.tasks && x in HierarchyOf(db.tasks, false, call.op.id)
    && places.ProjectOfColumn(db.tasks[call.op.id].columnId) != places.ProjectOfColumn(call.op.column)
    && x in After(places, db, call).tasks
    && Entered(call.site, places.ProjectOfColumn(call.op.column), call.op.column, After(places, db, call).tasks[x])
  }

  ghost predicate ChangesProject(places: Places, db: Db, call: Call, x: int) {
    && x in db.tasks && x in After(places, db, call).tasks
    && places.ProjectOfColumn(After(places, db, call).tasks[x].columnId)
       != places.ProjectOfColumn(db.tasks[x].columnId)
  }

  /**
   A task gets into another project in one of two ways: a move brings its hierarchy there, with
   everything that demands; or a call carries it along as it is.
   */
  lemma EnteringAProject(places: Places, db: Db, call: Call, x: int)
    requires Sound(db) && ChangesProject(places, db, call, x)
    ensures MovedIn(places, db, call, x) || x in Carried(places, db, call.op)
  {
    if x !in Subjects(places, db, call.op) {
      BystandersKeepAll(places, db, call, x);
      assert false;
    }
    match call.op
    case Update(id, dto) =>
      if Reparents(db.tasks[id], dto) && dto.parent.value.Some? {
        UpdatedColumns(db.tasks, id, dto, After(places, db, call).tasks);
        assert false;
      }
    case Move(id, column, order) =>
      if places.ProjectOfColumn(db.tasks[id].columnId) != places.ProjectOfColumn(column) {
        AcrossProjects(places, call.site, db, id, column, order, call.user);
        EnteredByMove(places, call.site, db, id, column, order, call.user, x);
      }
    case Delete(_) =>
    case Restore(_) =>
  }

  /** While active children are on their parents' boards, what a call carries along stays in its project. */
  lemma CarriedStay(places: Places, db: Db, call: Call, x: int)
    requires Placed(places, db) && Perform(places, db, call).Done? && x in Carried(places, db, call.op)
    ensures x in db.tasks && places.ProjectOfColumn(db.tasks[x].columnId) == CarriedTo(places, db, call.op)
  {
    match call.op
    case Update(id, dto) => ParentsPresent(db.tasks, id);
    case Move(id, column, _) => ItemsOnBoard(places, db.tasks, id, column, x);
  }

  /** So then only a move between projects takes a task into another one. */
  lemma EnteringFromPlaced(places: Places, db: Db, call: Call, x: int)
    requires Placed(places, db) && ChangesProject(places, db, call, x)
    ensures MovedIn(places, db, call, x)
  {
    EnteringAProject(places, db, call, x);
    if x in Carried(places, db, call.op) {
      CarriedStay(places, db, call, x);
      CarriedArrive(places, db, call, x);
      assert false;
    }
  }

  lemma MovedArrive(places: Places, db: Db, id: int, column: int, order: int, x: int)
    requires id in db.tasks && x in db.tasks && x in MoveItems(places, db.tasks, id, column)
    requires places.ProjectOfColumn(db.tasks[id].columnId) == places.ProjectOfColumn(column)
    ensures AfterMove(places, db, id, column, order)[x].columnId == column
  {
    WithinProjectRows(places, db, id, column, order);
    MovedRowsFrame(places, db.tasks, id, column, order);
  }

  lemma DetachedArrives(places: Places, site: Site, db: Db, id: int, dto: UpdateDto, user: int)
    requires Sound(db) && PerformUpdate(places, site, db, id, dto, user).Done?
    requires Reparents(db.tasks[id], dto) && dto.parent.value.None?
    ensures db.tasks[id].parent.value in db.tasks
    ensures PerformUpdate(places, site, db, id, dto, user).db.tasks[id].columnId
         == db.tasks[db.tasks[id].parent.value].columnId
  {
    UpdatedColumns(db.tasks, id, dto, PerformUpdate(places, site, db, id, dto, user).db.tasks);
  }

  lemma CarriedArrive(places: Places, db: Db, call: Call, x: int)
    requires Sound(db) && Perform(places, db, call).Done? && x in Carried(places, db, call.op) && x in db.tasks
    ensures x in After(places, db, call).tasks
    ensures places.ProjectOfColumn(After(places, db, call).tasks[x].columnId) == CarriedTo(places, db, call.op)
  {
    match call.op
    case Update(id, dto) => DetachedArrives(places, call.site, db, id, dto, call.user);
    case Move(id, column, order) => MovedArrive(places, db, id, column, order, x);
  }

  // ---------------------------------------------------------------- controllers

  ghost predicate Controlled(db: Db) {
    forall x :: x in db.tasks ==> db.tasks[x].controllers != {}
  }

  lemma StepKeepsControllers(places: Places, db: Db, call: Call)
    requires Sound(db) && Controlled(db)
    ensures Controlled(After(places, db, call))
  {
    var next := After(places, db, call).tasks;
    forall x | x in next ensures next[x].controllers != {} {
      if x in db.tasks {
        if x !in Subjects(places, db, call.op) {
          BystandersKeepAll(places, db, call, x);
        } else {
          SubjectKeepsControllers(places, db, call, x);
        }
      } else {
        NewcomerIsControlled(places, db, call, x);
      }
    }
  }

  lemma NewcomerIsControlled(places: Places, db: Db, call: Call, x: int)
    requires Sound(db) && x !in db.tasks && x in After(places, db, call).tasks
    ensures call.user in After(places, db, call).tasks[x].controllers
  {}

  lemma MoveKeepsControllers(places: Places, db: Db, id: int, column: int, order: int, x: int)
    requires id in db.tasks && x in db.tasks
    ensures AfterMove(places, db, id, column, order)[x].controllers == db.tasks[x].controllers
  {
    MovedRowsFrame(places, db.tasks, id, column, order);
    var moved := MovedRows(places, db.tasks, id, column, order);
    assert moved[x].(order := db.tasks[x].order, columnId := db.tasks[x].columnId) == db.tasks[x];
  }

  lemma UpdateKeepsControllers(places: Places, site: Site, db: Db, id: int, dto: UpdateDto, user: int)
    requires PerformUpdate(places, site, db, id, dto, user).Done? && db.tasks[id].controllers != {}
    ensures PerformUpdate(places, site, db, id, dto, user).db.tasks[id].controllers != {}
  {
    if Reparents(db.tasks[id], dto) { ReorderFrame(db.tasks, id, dto.parent.value); }
  }

  lemma SubjectKeepsControllers(places: Places, db: Db, call: Call, x: int)
    requires Sound(db) && x in db.tasks && x in After(places, db, call).tasks
    requires db.tasks[x].controllers != {} && x in Subjects(places, db, call.op)
    ensures After(places, db, call).tasks[x].controllers != {}
  {
    if Perform(places, db, call).Done? {
      match call.op
      case Update(id, dto) => UpdateKeepsControllers(places, call.site, db, id, dto, call.user);
      case Move(id, column, order) => MoveKeepsControllers(places, db, id, column, order, x);
      case Delete(id) =>
      case Restore(id) =>
      case Create(_, _) =>
      case CreateSubtask(_, _) =>
    }
  }

  /** In every run each task keeps at least one controller. */
  lemma {:induction false} RunKeepsControllers(places: Places, db: Db, calls: seq<Call>)
    requires Sound(db) && Controlled(db)
    ensures Controlled(Run(places, db, calls))
    decreases |calls|
  {
    if calls != [] {
      StepSound(places, db, calls[0]);
      StepKeepsControllers(places, db, calls[0]);
      RunKeepsControllers(places, After(places, db, calls[0]), calls[1..]);
    }
  }
}
