/**
 Who may change what. Every statement judges the acting user on the state before the call.
 */
module BoardRights {
  import opened Wrappers
  import opened TaskRows
  import opened ColumnOrder
  import opened BoardSpec
  import opened BoardTree

  /** `user` may take `task` out of its column into `target`. */
  ghost predicate MayLeave(site: Site, task: Task, target: int, user: int) {
    && task.columnId in site.columns && target in site.columns
    && (site.columns[task.columnId].creatorsOnly ==> user in task.controllers)
    && (site.columns[target].archive ==> user in task.controllers || user in task.responsibles)
  }

  lemma LeaveCheckMeans(site: Site, tasks: Tasks, items: set<int>, target: int, user: int)
    requires items <= tasks.Keys
    ensures LeaveCheck(site, tasks, items, target, user).Pass? <==>
      target in site.columns
      && forall x :: x in items && tasks[x].columnId != target ==> MayLeave(site, tasks[x], target, user)
  {
    var leaving := set x | x in items && tasks[x].columnId != target;
    assert forall x :: x in items && tasks[x].columnId != target <==> x in leaving;
  }

  /**
   In every call, each task that ends up in another column was one the user might take out of
   its old column and into the new one. Only moves and detaching updates do it at all.
   */
  lemma ColumnChangesAreAuthorised(places: Places, db: Db, call: Call, x: int)
    requires x in db.tasks && db.nextId !in db.tasks
    ensures var next := After(places, db, call).tasks;
      x in next && (next[x].columnId != db.tasks[x].columnId ==>
        && (call.op.Move? || (call.op.Update? && call.op.change.parent == Some(None)))
        && MayLeave(call.site, db.tasks[x], next[x].columnId, call.user))
  {
    if Perform(places, db, call).Done? {
      match call.op
      case Update(id, dto) =>
        if Reparents(db.tasks[id], dto) {
          var parent := dto.parent.value;
          assert ParentCheck(places, call.site, db.tasks, id, parent, call.user).Pass?;
          ReorderFrame(db.tasks, id, parent);
          if parent.None? {
            var above := db.tasks[db.tasks[id].parent.value];
            PlaceHolds(db.tasks, id, above.columnId, above.order + 1);
            LeaveCheckMeans(call.site, db.tasks, {id}, above.columnId, call.user);
            assert id in {id};
          } else {
            CloseGapHolds(db.tasks, db.tasks[id].columnId, id);
          }
        }
      case Move(id, column, order) => MoveIsAuthorised(places, db, call, x);
      case Create(column, dto) =>
      case CreateSubtask(above, dto) =>
      case Delete(id) =>
      case Restore(id) =>
    }
  }

  lemma MoveIsAuthorised(places: Places, db: Db, call: Call, x: int)
    requires x in db.tasks && call.op.Move? && Perform(places, db, call).Done?
    ensures var next := After(places, db, call).tasks;
      x in next && (next[x].columnId != db.tasks[x].columnId ==>
        MayLeave(call.site, db.tasks[x], next[x].columnId, call.user))
  {
    var id, column := call.op.id, call.op.column;
    var items := MoveItems(places, db.tasks, id, column);
    assert MoveCheck(places, call.site, db, id, column, call.user).Pass?;
    LeaveCheckMeans(call.site, db.tasks, ToSet(items) * db.tasks.Keys, column, call.user);
    MovedRowsFrame(places, db.tasks, id, column, call.op.order);
    if x in items {
      assert x in ToSet(items) * db.tasks.Keys;
    }
  }

  /** Whether somebody who is not a controller may have the field in a request. */
  predicate MayEdit(places: Places, site: Site, task: Task, field: DtoField, user: int) {
    var project := places.ProjectOfColumn(task.columnId);
    || (field == Assignees && user in task.responsibles)
    || (field in ATTRIBUTE_FIELDS && project in site.projects && !site.projects[project].attributesOwnerOnly)
    || field == Detail(Description)
    || (field == Detail(StartDate) && user in task.assignees)
  }

  /** The staged checks let a request through if and only if each of its fields may be edited. */
  lemma EditAllowedMeans(places: Places, site: Site, task: Task, fields: set<DtoField>, user: int)
    ensures EditAllowed(places, site, task, fields, user) <==>
      user in task.controllers || forall f :: f in fields ==> MayEdit(places, site, task, f, user)
  {
    var project := places.ProjectOfColumn(task.columnId);
    var open := project in site.projects && !site.projects[project].attributesOwnerOnly;
    var rest := fields - {Assignees} - (if open then ATTRIBUTE_FIELDS else {});
    assert forall f :: f in rest <==> f in fields && f != Assignees && !(open && f in ATTRIBUTE_FIELDS);
    if forall f :: f in fields ==> MayEdit(places, site, task, f, user) {
      assert forall f :: f in rest ==> f == Detail(Description) || (f == Detail(StartDate) && user in task.assignees);
    }
  }

  ghost predicate StaffRespected(before: Task, after: Task, user: int) {
    && (after.controllers != before.controllers || after.responsibles != before.responsibles ==>
          user in before.controllers)
    && (after.assignees != before.assignees ==> user in before.controllers || user in before.responsibles)
  }

  /** What an accepted request says about the user who names staff in it. */
  lemma StaffFields(places: Places, site: Site, task: Task, dto: UpdateDto, user: int)
    requires EditAllowed(places, site, task, PresentFields(dto), user)
    ensures dto.controllers.Some? || dto.responsibles.Some? ==> user in task.controllers
    ensures dto.assignees.Some? ==> user in task.controllers || user in task.responsibles
  {
    var fields := PresentFields(dto);
    EditAllowedMeans(places, site, task, fields, user);
    assert dto.controllers.Some? ==> Controllers in fields;
    assert dto.responsibles.Some? ==> Responsibles in fields;
    assert dto.assignees.Some? ==> Assignees in fields;
  }

  lemma AcceptedUpdate(places: Places, site: Site, db: Db, id: int, dto: UpdateDto, user: int)
    requires PerformUpdate(places, site, db, id, dto, user).Done?
    ensures id in db.tasks && EditAllowed(places, site, db.tasks[id], PresentFields(dto), user)
  {}

  lemma UpdateRespectsStaff(places: Places, site: Site, db: Db, id: int, dto: UpdateDto, user: int, x: int)
    requires PerformUpdate(places, site, db, id, dto, user).Done? && x in db.tasks
    ensures var next := PerformUpdate(places, site, db, id, dto, user).db.tasks;
      x in next && StaffRespected(db.tasks[x], next[x], user)
  {
    AcceptedUpdate(places, site, db, id, dto, user);
    StaffFields(places, site, db.tasks[id], dto, user);
    if Reparents(db.tasks[id], dto) { ReorderFrame(db.tasks, id, dto.parent.value); }
  }

  lemma MoveRespectsStaff(places: Places, db: Db, id: int, column: int, order: int, user: int, x: int)
    requires id in db.tasks && x in db.tasks
    ensures StaffRespected(db.tasks[x], AfterMove(places, db, id, column, order)[x], user)
  {
    MovedRowsFrame(places, db.tasks, id, column, order);
    var moved := MovedRows(places, db.tasks, id, column, order);
    assert moved[x].(order := db.tasks[x].order, columnId := db.tasks[x].columnId) == db.tasks[x];
  }

  /** Only a controller replaces controllers or responsibles; only one of those two replaces assignees. */
  lemma StaffChangesAreAuthorised(places: Places, db: Db, call: Call, x: int)
    requires x in db.tasks && db.nextId !in db.tasks
    ensures x in After(places, db, call).tasks
    ensures StaffRespected(db.tasks[x], After(places, db, call).tasks[x], call.user)
  {
    if Perform(places, db, call).Done? {
      match call.op
      case Update(id, dto) => UpdateRespectsStaff(places, call.site, db, id, dto, call.user, x);
      case Move(id, column, order) => MoveRespectsStaff(places, db, id, column, order, call.user, x);
      case Create(column, dto) =>
      case CreateSubtask(above, dto) =>
      case Delete(id) =>
      case Restore(id) =>
    }
  }
}
