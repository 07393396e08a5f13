/**
 What each write operation of the task board does to the database.

 `Site` is what an operation finds around the tasks: which columns, boards and projects
 are live, who is a member, who is banned. It may differ from one call to the next.
 An operation that throws is rolled back, so it is refused with the state unchanged.
 */
module BoardSpec {
  import opened Wrappers
  import opened SortedListing
  import opened Numbering
  import opened TaskRows
  import opened Hierarchy
  import opened ColumnOrder

  datatype Column = Column(archive: bool, creatorsOnly: bool)
  datatype Project = Project(owner: int, attributesOwnerOnly: bool)

  datatype Site = Site(
    columns: map<int, Column>,
    boards: set<int>,
    archivedBoards: set<int>,
    projects: map<int, Project>,
    members: set<(int, int)>,
    banned: set<int>)

  datatype Kind = Created | SubtaskCreated | Updated | MovedOut | Moved | Deleted | Restored
  datatype Event = Event(task: int, kind: Kind, project: int, actor: int, recipients: set<int>)

  datatype Db = Db(tasks: Tasks, counters: map<int, int>, nextId: int, events: seq<Event>)

  datatype Error = NotFound | BadRequest | Forbidden | ServerError

  datatype Outcome = Done(db: Db) | Refused(error: Error)

  /** The result of a check, for use with `:-`. */
  datatype Check = Pass | Fail(error: Error) {
    predicate IsFailure() { Fail? }
    function PropagateFailure(): Outcome requires Fail? { Refused(error) }
  }

  function Require(condition: bool, error: Error): Check {
    if condition then Pass else Fail(error)
  }

  /** Runs the second check only if the first passes. */
  function Then(first: Check, second: Check): Check {
    if first.Fail? then first else second
  }

  // ---------------------------------------------------------------- requests

  datatype CreateDto = CreateDto(
    details: map<Field, Option<int>>,
    assignees: seq<int>,
    controllers: Option<seq<int>>,
    responsibles: Option<seq<int>>,
    tags: seq<int>,
    customValid: bool,
    now: int)

  datatype UpdateDto = UpdateDto(
    details: map<Field, Option<int>>,
    assignees: Option<seq<int>>,
    controllers: Option<seq<int>>,
    responsibles: Option<seq<int>>,
    tags: Option<seq<int>>,
    parent: Option<Option<int>>,
    customValid: bool)

  datatype Op =
    | Create(column: int, newTask: CreateDto)
    | CreateSubtask(above: int, newTask: CreateDto)
    | Update(id: int, change: UpdateDto)
    | Move(id: int, column: int, order: int)
    | Delete(id: int)
    | Restore(id: int)

  datatype Call = Call(site: Site, user: int, op: Op)

  function ToSet(ids: seq<int>): set<int> { set x | x in ids }

  // ---------------------------------------------------------------- checks

  predicate CanRead(site: Site, project: int, user: int) {
    project in site.projects
    && (site.projects[project].owner == user || (project, user) in site.members)
  }

  predicate ActiveMember(site: Site, project: int, user: int) {
    (project, user) in site.members && user !in site.banned
  }

  function ColumnAccess(places: Places, site: Site, column: int, user: int): Check {
    Require(column in site.columns && places.BoardOf(column) in site.boards
            && CanRead(site, places.ProjectOfColumn(column), user), NotFound)
  }

  function TaskAccess(places: Places, site: Site, tasks: Tasks, id: int, user: int): Check {
    if !ActiveTask(tasks, id) then Fail(NotFound)
    else ColumnAccess(places, site, tasks[id].columnId, user)
  }

  /** Creating looks the project up through a join, which yields nothing on an archived board. */
  function CreateAccess(places: Places, site: Site, column: int, user: int): Check {
    if column !in site.columns then Fail(NotFound)
    else if places.BoardOf(column) !in site.boards then Fail(ServerError)
    else Require(CanRead(site, places.ProjectOfColumn(column), user), NotFound)
  }

  function AssigneesCheck(site: Site, project: int, ids: set<int>): Check {
    Require(forall u :: u in ids ==> ActiveMember(site, project, u), BadRequest)
  }

  const LIST_LIMIT := 500

  predicate ValidIds(ids: set<int>) {
    |ids| <= LIST_LIMIT && forall u :: u in ids ==> u >= 1
  }

  function ControllersCheck(site: Site, project: int, ids: set<int>): Check {
    Then(Require(ids != {} && ValidIds(ids), BadRequest), AssigneesCheck(site, project, ids))
  }

  function ResponsiblesCheck(site: Site, project: int, ids: set<int>): Check {
    Then(Require(ValidIds(ids), BadRequest), AssigneesCheck(site, project, ids))
  }

  /** Lists in a request must also be free of repeats. */
  predicate Repeats(ids: seq<int>) { |ToSet(ids)| != |ids| }

  function ControllerListCheck(site: Site, project: int, ids: Option<seq<int>>): Check {
    if ids.None? then Pass
    else if Repeats(ids.value) then Fail(BadRequest)
    else ControllersCheck(site, project, ToSet(ids.value))
  }

  function ResponsibleListCheck(site: Site, project: int, ids: Option<seq<int>>): Check {
    if ids.None? then Pass
    else if Repeats(ids.value) then Fail(BadRequest)
    else ResponsiblesCheck(site, project, ToSet(ids.value))
  }

  function DateOrderCheck(details: map<Field, Option<int>>): Check {
    Require(
      StartDate in details && DueDate in details && details[StartDate].Some? && details[DueDate].Some?
      ==> details[StartDate].value <= details[DueDate].value, BadRequest)
  }

  /** Start defaults to now and due to start; null counts as absent. */
  function DefaultDates(dto: CreateDto): map<Field, Option<int>> {
    var start := if StartDate in dto.details && dto.details[StartDate].Some?
      then dto.details[StartDate] else Some(dto.now);
    var due := if DueDate in dto.details && dto.details[DueDate].Some? then dto.details[DueDate] else start;
    dto.details[StartDate := start][DueDate := due]
  }

  function NewTaskCheck(site: Site, project: int, dto: CreateDto): Check {
    Then(DateOrderCheck(DefaultDates(dto)),
    Then(AssigneesCheck(site, project, ToSet(dto.assignees)),
    Then(ControllerListCheck(site, project, dto.controllers),
    Then(ResponsibleListCheck(site, project, dto.responsibles),
         Require(dto.customValid, BadRequest)))))
  }

  datatype DtoField = Detail(field: Field) | Controllers | Responsibles | Assignees | Tags | Parent

  function PresentFields(dto: UpdateDto): set<DtoField> {
    (set f | f in dto.details :: Detail(f))
    + (if dto.assignees.Some? then {Assignees} else {})
    + (if dto.controllers.Some? then {Controllers} else {})
    + (if dto.responsibles.Some? then {Responsibles} else {})
    + (if dto.tags.Some? then {Tags} else {})
    + (if dto.parent.Some? then {Parent} else {})
  }

  const ATTRIBUTE_FIELDS: set<DtoField> := {
    Detail(LinkedEntity), Detail(DueDate), Detail(StartDate), Detail(Priority), Detail(ApprovalStatus),
    Detail(TimeNorm), Tags, Parent, Detail(CustomValues) }

  predicate EditAllowed(places: Places, site: Site, task: Task, fields: set<DtoField>, user: int) {
    || user in task.controllers
    || (&& (Assignees in fields ==> user in task.responsibles)
        && (var project := places.ProjectOfColumn(task.columnId);
            var open := project in site.projects && !site.projects[project].attributesOwnerOnly;
            var rest := fields - {Assignees} - (if open then ATTRIBUTE_FIELDS else {});
            || rest <= {Detail(Description)}
            || (rest <= {Detail(StartDate), Detail(Description)} && user in task.assignees)))
  }

  /** Whether `user` may take the listed tasks out of their columns into `target`. */
  function LeaveCheck(site: Site, tasks: Tasks, items: set<int>, target: int, user: int): Check
    requires items <= tasks.Keys
  {
    var leaving := set x | x in items && tasks[x].columnId != target;
    if target !in site.columns then Fail(NotFound)
    else if site.columns[target].archive
      && exists x :: x in leaving && user !in tasks[x].controllers && user !in tasks[x].responsibles
    then Fail(Forbidden)
    else if exists x :: x in leaving && tasks[x].columnId !in site.columns then Fail(NotFound)
    else Require(forall x :: x in leaving && site.columns[tasks[x].columnId].creatorsOnly ==>
                   user in tasks[x].controllers, Forbidden)
  }

  // ---------------------------------------------------------------- numbers

  /** The first number of a new range: above the counter and above every number in use. */
  function FirstNumber(places: Places, counters: map<int, int>, tasks: Tasks, project: int): int {
    FirstAbove(Counter(counters, project), MaxNumber(places, tasks, project))
  }

  // ---------------------------------------------------------------- create

  function NewTask(dto: CreateDto, column: int, parent: Option<int>, number: int, user: int): Task {
    Task(column, parent, 0, number, false, user,
         {user} + (if dto.controllers.Some? then ToSet(dto.controllers.value) else {}),
         if dto.responsibles.Some? then ToSet(dto.responsibles.value) else {},
         ToSet(dto.assignees), ToSet(dto.tags), DefaultDates(dto))
  }

  /** Makes room at the top of a column. */
  function ShiftRoots(tasks: Tasks, column: int): Tasks {
    map x | x in tasks ::
      if x in RootKeys(tasks, column, {}) then tasks[x].(order := tasks[x].order + 1) else tasks[x]
  }

  function PerformCreate(places: Places, site: Site, db: Db, column: int, dto: CreateDto, user: int): Outcome {
    var project := places.ProjectOfColumn(column);
    :- CreateAccess(places, site, column, user);
    :- NewTaskCheck(site, project, dto);
    var number := FirstNumber(places, db.counters, db.tasks, project);
    var task := NewTask(dto, column, None, number, user);
    Done(Db(
      ShiftRoots(db.tasks, column)[db.nextId := task],
      db.counters[project := number],
      db.nextId + 1,
      db.events + [Event(db.nextId, Created, project, user, task.assignees)]))
  }

  function PerformCreateSubtask(places: Places, site: Site, db: Db, above: int, dto: CreateDto, user: int): Outcome {
    var found := Require(ActiveTask(db.tasks, above), NotFound);
    :- found;
    var column := db.tasks[above].columnId;
    var project := places.ProjectOfColumn(column);
    :- CreateAccess(places, site, column, user);
    :- NewTaskCheck(site, project, dto);
    var number := FirstNumber(places, db.counters, db.tasks, project);
    var task := NewTask(dto, column, Some(above), number, user);
    Done(Db(
      db.tasks[db.nextId := task],
      db.counters[project := number],
      db.nextId + 1,
      db.events + [Event(db.nextId, Created, project, user, task.assignees),
                   Event(above, SubtaskCreated, project, user, db.tasks[above].assignees)]))
  }

  // ---------------------------------------------------------------- update

  /** Whether the task may change parent, and to what column it then belongs. */
  function ParentCheck(places: Places, site: Site, tasks: Tasks, id: int, parent: Option<int>, user: int): Check
    requires id in tasks
  {
    if HasActiveChild(tasks, id) then Fail(BadRequest)
    else if parent.None? then
      if tasks[id].parent.None? then Pass
      else
        var above := tasks[id].parent.value;
        if !ActiveTask(tasks, above) then Fail(NotFound)
        else LeaveCheck(site, tasks, {id}, tasks[above].columnId, user)
    else
      var above := parent.value;
      if above == id then Fail(BadRequest)
      else if !ActiveTask(tasks, above) then Fail(NotFound)
      else if tasks[above].parent.Some? then Fail(BadRequest)
      else Require(tasks[id].columnId in site.columns && tasks[above].columnId in site.columns
          && places.BoardOf(tasks[id].columnId) == places.BoardOf(tasks[above].columnId), BadRequest)
  }

  /** Detaching puts the task after its parent; attaching a root closes the gap it leaves. */
  function Reorder(tasks: Tasks, id: int, parent: Option<int>): (r: Tasks)
    requires id in tasks
    ensures r.Keys == tasks.Keys
  {
    if parent.None? then
      if tasks[id].parent.None? || tasks[id].parent.value !in tasks then tasks
      else
        var above := tasks[tasks[id].parent.value];
        Place(tasks, id, above.columnId, above.order + 1)
    else
      var t := if tasks[id].parent.None? then CloseGap(tasks, tasks[id].columnId, id) else tasks;
      t[id := t[id].(order := 0)]
  }

  function Patch(task: Task, dto: UpdateDto): Task {
    task.(parent := if dto.parent.Some? then dto.parent.value else task.parent,
          controllers := if dto.controllers.Some? then ToSet(dto.controllers.value) else task.controllers,
          responsibles := if dto.responsibles.Some? then ToSet(dto.responsibles.value) else task.responsibles,
          assignees := if dto.assignees.Some? then ToSet(dto.assignees.value) else task.assignees,
          tags := if dto.tags.Some? then ToSet(dto.tags.value) else task.tags,
          details := task.details + dto.details)
  }

  /** A request that names the current parent does not re-parent. */
  predicate Reparents(task: Task, dto: UpdateDto) {
    dto.parent.Some? && dto.parent.value != task.parent
  }

  function UpdateCheck(places: Places, site: Site, db: Db, id: int, dto: UpdateDto, user: int): Check {
    if TaskAccess(places, site, db.tasks, id, user).Fail? then TaskAccess(places, site, db.tasks, id, user)
    else
      var task := db.tasks[id];
      var project := places.ProjectOfColumn(task.columnId);
      Then(Require(EditAllowed(places, site, task, PresentFields(dto), user), Forbidden),
      Then(ControllerListCheck(site, project, dto.controllers),
      Then(ResponsibleListCheck(site, project, dto.responsibles),
      Then(if StartDate in dto.details || DueDate in dto.details
           then DateOrderCheck(task.details + dto.details) else Pass,
      Then(AssigneesCheck(site, project, if dto.assignees.Some? then ToSet(dto.assignees.value) else {}),
      Then(Require(dto.customValid, BadRequest),
           if Reparents(task, dto) then ParentCheck(places, site, db.tasks, id, dto.parent.value, user)
           else Pass))))))
  }

  /** The stored assignees, and, if the request changed them, those before and after. */
  function UpdateRecipients(before: Task, after: Task): set<int> {
    after.assignees + (if before.assignees != after.assignees then before.assignees else {})
  }

  function PerformUpdate(places: Places, site: Site, db: Db, id: int, dto: UpdateDto, user: int): Outcome {
    var allowed := UpdateCheck(places, site, db, id, dto, user);
    :- allowed;
    var project := places.ProjectOfColumn(db.tasks[id].columnId);
    var rows := if Reparents(db.tasks[id], dto) then Reorder(db.tasks, id, dto.parent.value) else db.tasks;
    var after := Patch(rows[id], dto);
    Done(db.(
      tasks := rows[id := after],
      events := db.events +
        (if after == db.tasks[id] then []
         else [Event(id, Updated, project, user, UpdateRecipients(db.tasks[id], after))])))
  }

  // ---------------------------------------------------------------- move

  function WithColumn(tasks: Tasks, items: seq<int>, column: int): Tasks {
    map x | x in tasks :: if x in items then tasks[x].(columnId := column) else tasks[x]
  }

  /** The empty set of custom attribute values. */
  const NO_CUSTOM_VALUES := Some(0)

  /** Consecutive numbers down the list; tags and custom values stay with the old project. */
  function WithNumbers(tasks: Tasks, items: seq<int>, first: int): Tasks {
    map x | x in tasks ::
      if x in items
      then tasks[x].(number := first + IndexOf(items, x), tags := {},
                     details := tasks[x].details[CustomValues := NO_CUSTOM_VALUES])
      else tasks[x]
  }

  /** A root crosses boards with its active hierarchy; otherwise the task moves alone. */
  function MoveItems(places: Places, tasks: Tasks, id: int, column: int): seq<int>
    requires id in tasks
  {
    if tasks[id].parent.None? && places.BoardOf(tasks[id].columnId) != places.BoardOf(column)
    then HierarchyOf(tasks, false, id) else [id]
  }

  /** Everybody named on the moved tasks must be an active member of the target project. */
  function MoveStaffCheck(site: Site, tasks: Tasks, items: set<int>, target: int): Check
    requires items <= tasks.Keys
  {
    Then(ControllersCheck(site, target, set x, u | x in items && u in tasks[x].controllers :: u),
    Then(ResponsiblesCheck(site, target, set x, u | x in items && u in tasks[x].responsibles :: u),
         AssigneesCheck(site, target, set x, u | x in items && u in tasks[x].assignees :: u)))
  }

  function MoveCheck(places: Places, site: Site, db: Db, id: int, column: int, user: int): Check {
    if TaskAccess(places, site, db.tasks, id, user).Fail? then TaskAccess(places, site, db.tasks, id, user)
    else
      var tasks, from := db.tasks, db.tasks[id].columnId;
      var source, target := places.ProjectOfColumn(from), places.ProjectOfColumn(column);
      var items := ToSet(MoveItems(places, tasks, id, column)) * tasks.Keys;
      Then(ColumnAccess(places, site, column, user),
      Then(Require(tasks[id].parent.Some? ==> places.BoardOf(from) == places.BoardOf(column), BadRequest),
      Then(LeaveCheck(site, tasks, items, column, user),
           if source == target then Pass else
           MoveStaffCheck(site, tasks, items, target))))
  }

  /** Rows once the moved task is in its new list; its descendants are not carried along yet. */
  function PlacedRows(tasks: Tasks, id: int, column: int, order: int): (r: Tasks)
    requires id in tasks
    ensures r.Keys == tasks.Keys
  {
    if tasks[id].parent.Some? then tasks else MoveRoot(tasks, id, column, order)
  }

  /** Rows after all columns and orders are set, before numbering. */
  function MovedRows(places: Places, tasks: Tasks, id: int, column: int, order: int): (r: Tasks)
    requires id in tasks
    ensures r.Keys == tasks.Keys
  {
    WithColumn(PlacedRows(tasks, id, column, order), MoveItems(places, tasks, id, column), column)
  }

  /**
   The first number of a move into another project. The root already sits in the target when
   the highest number there is read; its descendants do not.
   */
  function FirstMoved(places: Places, db: Db, id: int, column: int, order: int): int
    requires id in db.tasks
  {
    FirstNumber(places, db.counters, PlacedRows(db.tasks, id, column, order), places.ProjectOfColumn(column))
  }

  function AfterMove(places: Places, db: Db, id: int, column: int, order: int): (r: Tasks)
    requires id in db.tasks
    ensures r.Keys == db.tasks.Keys
  {
    var moved := MovedRows(places, db.tasks, id, column, order);
    if places.ProjectOfColumn(db.tasks[id].columnId) == places.ProjectOfColumn(column) then moved
    else WithNumbers(moved, MoveItems(places, db.tasks, id, column), FirstMoved(places, db, id, column, order))
  }

  /** A row that changed is announced in its new project, and in the old one if it left it. */
  function ItemEvents(before: Tasks, after: Tasks, x: int, crossBoard: bool,
                      source: int, target: int, user: int): seq<Event>
    requires before.Keys == after.Keys
  {
    if x in before
       && (crossBoard || before[x].columnId != after[x].columnId
           || before[x].order != after[x].order || before[x].number != after[x].number)
    then (if source != target then [Event(x, MovedOut, source, user, after[x].assignees)] else [])
         + [Event(x, Moved, target, user, after[x].assignees)]
    else []
  }

  function MoveEvents(before: Tasks, after: Tasks, items: seq<int>, crossBoard: bool,
                      source: int, target: int, user: int): seq<Event>
    requires before.Keys == after.Keys
  {
    if items == [] then []
    else ItemEvents(before, after, items[0], crossBoard, source, target, user)
         + MoveEvents(before, after, items[1..], crossBoard, source, target, user)
  }

  /** The counter of the target ends at the last number of the range. */
  function MovedCounters(counters: map<int, int>, source: int, target: int, first: int, count: nat): map<int, int> {
    if source == target then counters else counters[target := first + count - 1]
  }

  function MovedEvents(places: Places, before: Tasks, after: Tasks, id: int, column: int, user: int): seq<Event>
    requires id in before && after.Keys == before.Keys
  {
    var from := before[id].columnId;
    MoveEvents(before, after, MoveItems(places, before, id, column),
               places.BoardOf(from) != places.BoardOf(column),
               places.ProjectOfColumn(from), places.ProjectOfColumn(column), user)
  }

  function MoveResult(places: Places, db: Db, id: int, column: int, order: int, user: int): Db
    requires id in db.tasks
  {
    var after := AfterMove(places, db, id, column, order);
    Db(after,
       MovedCounters(db.counters, places.ProjectOfColumn(db.tasks[id].columnId), places.ProjectOfColumn(column),
                     FirstMoved(places, db, id, column, order), |MoveItems(places, db.tasks, id, column)|),
       db.nextId,
       db.events + MovedEvents(places, db.tasks, after, id, column, user))
  }

  function PerformMove(places: Places, site: Site, db: Db, id: int, column: int, order: int, user: int): Outcome {
    var allowed := MoveCheck(places, site, db, id, column, user);
    :- allowed;
    Done(MoveResult(places, db, id, column, order, user))
  }

  // ---------------------------------------------------------------- delete and restore

  function WithArchived(tasks: Tasks, items: seq<int>, archived: bool): Tasks {
    map x | x in tasks :: if x in items then tasks[x].(archived := archived) else tasks[x]
  }

  function PerformDelete(places: Places, site: Site, db: Db, id: int, user: int): Outcome {
    var allowed := TaskAccess(places, site, db.tasks, id, user);
    :- allowed;
    Done(db.(
      tasks := WithArchived(db.tasks, HierarchyOf(db.tasks, false, id), true),
      events := db.events + [Event(id, Deleted, places.ProjectOfColumn(db.tasks[id].columnId), user,
                                   db.tasks[id].assignees)]))
  }

  function RestoreCheck(places: Places, site: Site, db: Db, id: int, user: int): Check {
    if id !in db.tasks then Fail(NotFound)
    else
      var column := db.tasks[id].columnId;
      var board := places.BoardOf(column);
      if !(column in site.columns && board in site.boards + site.archivedBoards
           && CanRead(site, places.ProjectOf(board), user)) then Fail(NotFound)
      else Require(board !in site.archivedBoards, BadRequest)
  }

  function PerformRestore(places: Places, site: Site, db: Db, id: int, user: int): Outcome {
    var allowed := RestoreCheck(places, site, db, id, user);
    :- allowed;
    var task := db.tasks[id];
    if !task.archived then Done(db)
    else
      :- Require(task.parent.Some? && task.parent.value in db.tasks ==>
                   !db.tasks[task.parent.value].archived, BadRequest);
      Done(db.(
        tasks := WithArchived(db.tasks, HierarchyOf(db.tasks, true, id), false),
        events := db.events + [Event(id, Restored, places.ProjectOfColumn(task.columnId), user,
                                     task.assignees)]))
  }

  // ---------------------------------------------------------------- runs

  function Perform(places: Places, db: Db, call: Call): Outcome {
    match call.op
    case Create(column, dto) => PerformCreate(places, call.site, db, column, dto, call.user)
    case CreateSubtask(above, dto) => PerformCreateSubtask(places, call.site, db, above, dto, call.user)
    case Update(id, dto) => PerformUpdate(places, call.site, db, id, dto, call.user)
    case Move(id, column, order) => PerformMove(places, call.site, db, id, column, order, call.user)
    case Delete(id) => PerformDelete(places, call.site, db, id, call.user)
    case Restore(id) => PerformRestore(places, call.site, db, id, call.user)
  }

  /** The state after a call; a refused call leaves it as it was. */
  function After(places: Places, db: Db, call: Call): Db {
    match Perform(places, db, call)
    case Done(next) => next
    case Refused(_) => db
  }

  function Run(places: Places, db: Db, calls: seq<Call>): Db
    decreases |calls|
  {
    if calls == [] then db else Run(places, After(places, db, calls[0]), calls[1..])
  }
}
