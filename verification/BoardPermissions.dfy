/**
 When each operation is allowed, and with which error it is refused otherwise.

 Everything here is said of the request, the task rows and the fields of `Site`, in the order in
 which the engine looks at it; none of the engine's own checks is mentioned.
 */
module BoardPermissions {
  import opened Wrappers
  import opened SortedListing
  import opened TaskRows
  import opened Hierarchy
  import opened BoardSpec
  import opened BoardTree
  import opened BoardRights

  // ---------------------------------------------------------------- what a user may reach

  ghost predicate Reads(site: Site, project: int, user: int) {
    project in site.projects && (site.projects[project].owner == user || (project, user) in site.members)
  }

  /** The user reads the project of a live column on a live board. */
  ghost predicate Opens(places: Places, site: Site, column: int, user: int) {
    && column in site.columns && places.BoardOf(column) in site.boards
    && Reads(site, places.ProjectOf(places.BoardOf(column)), user)
  }

  ghost predicate OpensTask(places: Places, site: Site, tasks: Tasks, id: int, user: int) {
    id in tasks && !tasks[id].archived && Opens(places, site, tasks[id].columnId, user)
  }

  ghost predicate AllMembers(site: Site, project: int, ids: set<int>) {
    forall u :: u in ids ==> (project, u) in site.members && u !in site.banned
  }

  /** At most 500 proper user ids, all of active members. */
  ghost predicate StaffSet(site: Site, project: int, ids: set<int>) {
    |ids| <= 500 && (forall u :: u in ids ==> u > 0) && AllMembers(site, project, ids)
  }

  /** A list of staff in a request; an absent one is fine. */
  ghost predicate StaffList(site: Site, project: int, list: Option<seq<int>>) {
    list.Some? ==>
      && NoDuplicates(list.value) && |list.value| <= 500
      && forall u :: u in list.value ==> u > 0 && (project, u) in site.members && u !in site.banned
  }

  lemma ListIsStaff(site: Site, project: int, ids: seq<int>)
    ensures StaffList(site, project, Some(ids)) <==> |ToSet(ids)| == |ids| && StaffSet(site, project, ToSet(ids))
  {
    SetOfList(ids);
    assert forall u :: u in ids <==> u in ToSet(ids);
  }

  lemma ControllerLists(site: Site, project: int, ids: Option<seq<int>>)
    ensures ControllerListCheck(site, project, ids)
      == if StaffList(site, project, ids) && ids != Some([]) then Pass else Fail(BadRequest)
  {
    if ids.Some? {
      ListIsStaff(site, project, ids.value);
      if ids.value != [] { assert ids.value[0] in ToSet(ids.value); }
    }
  }

  lemma ResponsibleLists(site: Site, project: int, ids: Option<seq<int>>)
    ensures ResponsibleListCheck(site, project, ids)
      == if StaffList(site, project, ids) then Pass else Fail(BadRequest)
  {
    if ids.Some? { ListIsStaff(site, project, ids.value); }
  }

  // ---------------------------------------------------------------- create

  /** A date that is given and not null. */
  function GivenDate(details: map<Field, Option<int>>, field: Field, otherwise: int): int {
    if field in details && details[field].Some? then details[field].value else otherwise
  }

  function StartOf(dto: CreateDto): int { GivenDate(dto.details, StartDate, dto.now) }

  function DueOf(dto: CreateDto): int { GivenDate(dto.details, DueDate, StartOf(dto)) }

  ghost predicate GoodTask(site: Site, project: int, dto: CreateDto) {
    && StartOf(dto) <= DueOf(dto)
    && (forall u :: u in dto.assignees ==> (project, u) in site.members && u !in site.banned)
    && StaffList(site, project, dto.controllers) && dto.controllers != Some([])
    && StaffList(site, project, dto.responsibles)
    && dto.customValid
  }

  lemma NewTaskAllowed(site: Site, project: int, dto: CreateDto)
    ensures NewTaskCheck(site, project, dto) == if GoodTask(site, project, dto) then Pass else Fail(BadRequest)
  {
    ControllerLists(site, project, dto.controllers);
    ResponsibleLists(site, project, dto.responsibles);
    assert forall u :: u in dto.assignees <==> u in ToSet(dto.assignees);
  }

  /** Why a creation in a column is refused, if it is. */
  ghost function CreationError(places: Places, site: Site, column: int, dto: CreateDto, user: int): Option<Error> {
    var project := places.ProjectOf(places.BoardOf(column));
    if column !in site.columns then Some(NotFound)
    else if places.BoardOf(column) !in site.boards then Some(ServerError)
    else if !Reads(site, project, user) then Some(NotFound)
    else if !GoodTask(site, project, dto) then Some(BadRequest)
    else None
  }

  /** The outcome is an error, that error, or success. */
  ghost predicate RefusedFor(outcome: Outcome, error: Option<Error>) {
    if error.Some? then outcome == Refused(error.value) else outcome.Done?
  }

  /** A task is created if and only if its column is open to the user and the request is good. */
  lemma CreateAllowedIff(places: Places, site: Site, db: Db, column: int, dto: CreateDto, user: int)
    ensures RefusedFor(PerformCreate(places, site, db, column, dto, user),
                       CreationError(places, site, column, dto, user))
    ensures PerformCreate(places, site, db, column, dto, user).Done? <==>
      Opens(places, site, column, user) && GoodTask(site, places.ProjectOf(places.BoardOf(column)), dto)
  {
    NewTaskAllowed(site, places.ProjectOfColumn(column), dto);
  }

  /** A subtask is, if and only if besides its parent is active. */
  lemma CreateSubtaskAllowedIff(places: Places, site: Site, db: Db, above: int, dto: CreateDto, user: int)
    ensures RefusedFor(PerformCreateSubtask(places, site, db, above, dto, user),
                       if above !in db.tasks || db.tasks[above].archived then Some(NotFound)
                       else CreationError(places, site, db.tasks[above].columnId, dto, user))
    ensures PerformCreateSubtask(places, site, db, above, dto, user).Done? <==>
      && OpensTask(places, site, db.tasks, above, user)
      && GoodTask(site, places.ProjectOf(places.BoardOf(db.tasks[above].columnId)), dto)
  {
    if above in db.tasks { NewTaskAllowed(site, places.ProjectOfColumn(db.tasks[above].columnId), dto); }
  }

  // ---------------------------------------------------------------- update

  /** The request names only fields that the user may edit. */
  ghost predicate MayRequest(places: Places, site: Site, task: Task, dto: UpdateDto, user: int) {
    var project := places.ProjectOf(places.BoardOf(task.columnId));
    var open := project in site.projects && !site.projects[project].attributesOwnerOnly;
    user in task.controllers || (
      && dto.controllers.None? && dto.responsibles.None?
      && (dto.assignees.Some? ==> user in task.responsibles)
      && (dto.tags.Some? || dto.parent.Some? ==> open)
      && forall f :: f in dto.details ==>
           match f
           case Title => false
           case Description => true
           case StartDate => open || user in task.assignees
           case _ => open)
  }

  lemma DetailAllowed(places: Places, site: Site, task: Task, f: Field, user: int)
    ensures var project := places.ProjectOf(places.BoardOf(task.columnId));
      var open := project in site.projects && !site.projects[project].attributesOwnerOnly;
      MayEdit(places, site, task, Detail(f), user) <==>
        match f
        case Title => false
        case Description => true
        case StartDate => open || user in task.assignees
        case _ => open
  {}

  lemma OthersAllowed(places: Places, site: Site, task: Task, user: int)
    ensures var project := places.ProjectOf(places.BoardOf(task.columnId));
      var open := project in site.projects && !site.projects[project].attributesOwnerOnly;
      && !MayEdit(places, site, task, Controllers, user) && !MayEdit(places, site, task, Responsibles, user)
      && (MayEdit(places, site, task, Assignees, user) <==> user in task.responsibles)
      && (MayEdit(places, site, task, Tags, user) <==> open)
      && (MayEdit(places, site, task, Parent, user) <==> open)
  {}

  lemma FieldsOfRequest(dto: UpdateDto, f: DtoField)
    ensures f in PresentFields(dto) <==>
      match f
      case Detail(field) => field in dto.details
      case Controllers => dto.controllers.Some?
      case Responsibles => dto.responsibles.Some?
      case Assignees => dto.assignees.Some?
      case Tags => dto.tags.Some?
      case Parent => dto.parent.Some?
  {}

  lemma RequestAllowed(places: Places, site: Site, task: Task, dto: UpdateDto, user: int)
    ensures EditAllowed(places, site, task, PresentFields(dto), user) <==> MayRequest(places, site, task, dto, user)
  {
    var fields := PresentFields(dto);
    EditAllowedMeans(places, site, task, fields, user);
    OthersAllowed(places, site, task, user);
    forall f ensures f in fields <==> (match f
      case Detail(field) => field in dto.details
      case Controllers => dto.controllers.Some?
      case Responsibles => dto.responsibles.Some?
      case Assignees => dto.assignees.Some?
      case Tags => dto.tags.Some?
      case Parent => dto.parent.Some?)
    {
      FieldsOfRequest(dto, f);
    }
    if forall f :: f in fields ==> MayEdit(places, site, task, f, user) {
      forall f | f in dto.details ensures MayEdit(places, site, task, Detail(f), user) {
        assert Detail(f) in fields;
      }
      forall f | f in dto.details { DetailAllowed(places, site, task, f, user); }
      assert dto.controllers.Some? ==> Controllers in fields;
      assert dto.responsibles.Some? ==> Responsibles in fields;
      assert dto.assignees.Some? ==> Assignees in fields;
      assert dto.tags.Some? ==> Tags in fields;
      assert dto.parent.Some? ==> Parent in fields;
    } else {
      var f :| f in fields && !MayEdit(places, site, task, f, user);
      if f.Detail? { DetailAllowed(places, site, task, f.field, user); }
    }
  }

  /** What a date field will be: as requested, or as it is. */
  function DateAfter(task: Task, dto: UpdateDto, field: Field): Option<int> {
    if field in dto.details then dto.details[field]
    else if field in task.details then task.details[field] else None
  }

  ghost predicate GoodDates(task: Task, dto: UpdateDto) {
    (StartDate in dto.details || DueDate in dto.details)
      && DateAfter(task, dto, StartDate).Some? && DateAfter(task, dto, DueDate).Some? ==>
    DateAfter(task, dto, StartDate).value <= DateAfter(task, dto, DueDate).value
  }

  ghost predicate GoodUpdate(places: Places, site: Site, task: Task, dto: UpdateDto) {
    var project := places.ProjectOf(places.BoardOf(task.columnId));
    && StaffList(site, project, dto.controllers) && dto.controllers != Some([])
    && StaffList(site, project, dto.responsibles)
    && GoodDates(task, dto)
    && (dto.assignees.Some? ==>
          forall u :: u in dto.assignees.value ==> (project, u) in site.members && u !in site.banned)
    && dto.customValid
  }

  /** Why a task may not get another parent, or none. */
  ghost function ParentError(places: Places, site: Site, tasks: Tasks, id: int, parent: Option<int>, user: int)
    : Option<Error>
    requires id in tasks
  {
    if exists c :: c in tasks && !tasks[c].archived && tasks[c].parent == Some(id) then Some(BadRequest)
    else if parent.None? then
      if tasks[id].parent.None? then None
      else
        var above := tasks[id].parent.value;
        if above !in tasks || tasks[above].archived then Some(NotFound)
        else LeavingError(site, tasks, {id}, tasks[above].columnId, user)
    else
      var above := parent.value;
      if above == id then Some(BadRequest)
      else if above !in tasks || tasks[above].archived then Some(NotFound)
      else if tasks[above].parent.Some? then Some(BadRequest)
      else if tasks[id].columnId in site.columns && tasks[above].columnId in site.columns
        && places.BoardOf(tasks[id].columnId) == places.BoardOf(tasks[above].columnId) then None
      else Some(BadRequest)
  }

  /** Why tasks may not be taken out of their columns into `target`. */
  ghost function LeavingError(site: Site, tasks: Tasks, items: set<int>, target: int, user: int): Option<Error>
    requires items <= tasks.Keys
  {
    if target !in site.columns then Some(NotFound)
    else if site.columns[target].archive
      && exists x :: x in items && tasks[x].columnId != target
                     && user !in tasks[x].controllers + tasks[x].responsibles then Some(Forbidden)
    else if exists x :: x in items && tasks[x].columnId != target && tasks[x].columnId !in site.columns
    then Some(NotFound)
    else if exists x :: x in items && tasks[x].columnId != target && site.columns[tasks[x].columnId].creatorsOnly
                        && user !in tasks[x].controllers then Some(Forbidden)
    else None
  }

  /** The verdict of a check, as an error or none. */
  ghost predicate Gives(check: Check, error: Option<Error>) {
    check == if error.Some? then Fail(error.value) else Pass
  }

  lemma LeavingErrors(site: Site, tasks: Tasks, items: set<int>, target: int, user: int)
    requires items <= tasks.Keys
    ensures Gives(LeaveCheck(site, tasks, items, target, user), LeavingError(site, tasks, items, target, user))
    ensures LeavingError(site, tasks, items, target, user).None? <==>
      target in site.columns
      && forall x :: x in items && tasks[x].columnId != target ==> MayLeave(site, tasks[x], target, user)
  {
    var leaving := set x | x in items && tasks[x].columnId != target;
    assert forall x :: x in items && tasks[x].columnId != target <==> x in leaving;
    LeaveCheckMeans(site, tasks, items, target, user);
  }

  lemma ParentErrors(places: Places, site: Site, tasks: Tasks, id: int, parent: Option<int>, user: int)
    requires id in tasks
    ensures Gives(ParentCheck(places, site, tasks, id, parent, user),
                  ParentError(places, site, tasks, id, parent, user))
  {
    if parent.None? && tasks[id].parent.Some? && ActiveTask(tasks, tasks[id].parent.value) {
      LeavingErrors(site, tasks, {id}, tasks[tasks[id].parent.value].columnId, user);
    }
  }

  ghost function UpdateError(places: Places, site: Site, tasks: Tasks, id: int, dto: UpdateDto, user: int)
    : Option<Error>
  {
    if !OpensTask(places, site, tasks, id, user) then Some(NotFound)
    else if !MayRequest(places, site, tasks[id], dto, user) then Some(Forbidden)
    else if !GoodUpdate(places, site, tasks[id], dto) then Some(BadRequest)
    else if dto.parent.Some? && dto.parent.value != tasks[id].parent
    then ParentError(places, site, tasks, id, dto.parent.value, user)
    else None
  }

  lemma UpdateVerdict(places: Places, site: Site, db: Db, id: int, dto: UpdateDto, user: int)
    requires OpensTask(places, site, db.tasks, id, user)
    ensures var task := db.tasks[id];
      UpdateCheck(places, site, db, id, dto, user)
        == if !EditAllowed(places, site, task, PresentFields(dto), user) then Fail(Forbidden)
           else if !GoodUpdate(places, site, task, dto) then Fail(BadRequest)
           else if dto.parent.Some? && dto.parent.value != task.parent
           then ParentCheck(places, site, db.tasks, id, dto.parent.value, user)
           else Pass
  {
    var project := places.ProjectOfColumn(db.tasks[id].columnId);
    ControllerLists(site, project, dto.controllers);
    ResponsibleLists(site, project, dto.responsibles);
    if dto.assignees.Some? {
      assert forall u :: u in dto.assignees.value <==> u in ToSet(dto.assignees.value);
    }
  }

  /**
   An update is done if and only if the task is open to the user, the request names fields they
   may edit and is good, and a change of parent is possible.
   */
  lemma UpdateAllowedIff(places: Places, site: Site, db: Db, id: int, dto: UpdateDto, user: int)
    ensures RefusedFor(PerformUpdate(places, site, db, id, dto, user),
                       UpdateError(places, site, db.tasks, id, dto, user))
  {
    if OpensTask(places, site, db.tasks, id, user) {
      UpdateVerdict(places, site, db, id, dto, user);
      RequestAllowed(places, site, db.tasks[id], dto, user);
      if dto.parent.Some? { ParentErrors(places, site, db.tasks, id, dto.parent.value, user); }
    }
  }

  // ---------------------------------------------------------------- move

  /** The move takes `x` along: the task itself, and across boards the active rows below a root. */
  ghost predicate Takes(places: Places, tasks: Tasks, id: int, column: int, x: int)
    requires id in tasks
  {
    x == id || (&& tasks[id].parent.None? && places.BoardOf(tasks[id].columnId) != places.BoardOf(column)
                && x in tasks && Descends(tasks, false, id, x))
  }

  lemma TakesItems(places: Places, tasks: Tasks, id: int, column: int, x: int)
    requires Forest(tasks) && id in tasks
    ensures Takes(places, tasks, id, column, x) <==> x in MoveItems(places, tasks, id, column)
  {
    HierarchyHolds(tasks, false, id, x);
    ItemsHoldTask(places, tasks, id, column);
    if x != id && Descends(tasks, false, id, x) { DescendsFromParent(tasks, false, id, x); }
  }

  /** Everybody named on the rows can take over in the project, and somebody controls them. */
  ghost predicate StaffFits(site: Site, tasks: Tasks, items: set<int>, project: int)
    requires items <= tasks.Keys
  {
    var controllers := set x, u | x in items && u in tasks[x].controllers :: u;
    var responsibles := set x, u | x in items && u in tasks[x].responsibles :: u;
    && controllers != {} && StaffSet(site, project, controllers)
    && StaffSet(site, project, responsibles)
    && forall x, u :: x in items && u in tasks[x].assignees ==> (project, u) in site.members && u !in site.banned
  }

  lemma AssigneesVerdict(site: Site, tasks: Tasks, items: set<int>, project: int)
    requires items <= tasks.Keys
    ensures (forall u :: u in (set x, u | x in items && u in tasks[x].assignees :: u) ==>
               ActiveMember(site, project, u)) <==>
      forall x, u :: x in items && u in tasks[x].assignees ==> (project, u) in site.members && u !in site.banned
  {
    var assignees := set x, u | x in items && u in tasks[x].assignees :: u;
    if forall u :: u in assignees ==> ActiveMember(site, project, u) {
      forall x, u | x in items && u in tasks[x].assignees
        ensures (project, u) in site.members && u !in site.banned
      {
        assert u in assignees;
      }
    }
  }

  lemma StaffVerdict(site: Site, tasks: Tasks, items: set<int>, project: int)
    requires items <= tasks.Keys
    ensures MoveStaffCheck(site, tasks, items, project)
      == if StaffFits(site, tasks, items, project) then Pass else Fail(BadRequest)
  {
    var controllers := set x, u | x in items && u in tasks[x].controllers :: u;
    var responsibles := set x, u | x in items && u in tasks[x].responsibles :: u;
    StaffSetVerdict(site, project, controllers);
    StaffSetVerdict(site, project, responsibles);
    AssigneesVerdict(site, tasks, items, project);
  }

  lemma StaffSetVerdict(site: Site, project: int, ids: set<int>)
    ensures ControllersCheck(site, project, ids)
      == if ids != {} && StaffSet(site, project, ids) then Pass else Fail(BadRequest)
    ensures ResponsiblesCheck(site, project, ids) == if StaffSet(site, project, ids) then Pass else Fail(BadRequest)
  {}

  ghost function MoveError(places: Places, site: Site, tasks: Tasks, id: int, column: int, user: int): Option<Error> {
    if !OpensTask(places, site, tasks, id, user) || !Opens(places, site, column, user) then Some(NotFound)
    else
      var from, to := places.BoardOf(tasks[id].columnId), places.BoardOf(column);
      var items := set x | x in tasks && Takes(places, tasks, id, column, x);
      if tasks[id].parent.Some? && from != to then Some(BadRequest)
      else if LeavingError(site, tasks, items, column, user).Some?
      then LeavingError(site, tasks, items, column, user)
      else if places.ProjectOf(from) != places.ProjectOf(to) && !StaffFits(site, tasks, items, places.ProjectOf(to))
      then Some(BadRequest)
      else None
  }

  lemma TakenItems(places: Places, tasks: Tasks, id: int, column: int)
    requires Forest(tasks) && id in tasks
    ensures ToSet(MoveItems(places, tasks, id, column)) * tasks.Keys
         == set x | x in tasks && Takes(places, tasks, id, column, x)
  {
    var items := set x | x in tasks && Takes(places, tasks, id, column, x);
    forall x ensures x in items <==> x in ToSet(MoveItems(places, tasks, id, column)) * tasks.Keys {
      TakesItems(places, tasks, id, column, x);
    }
  }

  lemma MoveVerdict(places: Places, site: Site, db: Db, id: int, column: int, user: int, items: set<int>)
    requires OpensTask(places, site, db.tasks, id, user) && Opens(places, site, column, user)
    requires items == ToSet(MoveItems(places, db.tasks, id, column)) * db.tasks.Keys
    ensures var from, to := places.BoardOf(db.tasks[id].columnId), places.BoardOf(column);
      MoveCheck(places, site, db, id, column, user)
        == if db.tasks[id].parent.Some? && from != to then Fail(BadRequest)
           else if LeaveCheck(site, db.tasks, items, column, user).Fail?
           then LeaveCheck(site, db.tasks, items, column, user)
           else if places.ProjectOf(from) == places.ProjectOf(to) then Pass
           else MoveStaffCheck(site, db.tasks, items, places.ProjectOf(to))
  {}

  lemma MoveClosed(places: Places, site: Site, db: Db, id: int, column: int, user: int)
    requires !OpensTask(places, site, db.tasks, id, user) || !Opens(places, site, column, user)
    ensures MoveCheck(places, site, db, id, column, user) == Fail(NotFound)
  {}

  lemma CheckedMove(places: Places, site: Site, db: Db, id: int, column: int, order: int, user: int)
    ensures var check := MoveCheck(places, site, db, id, column, user);
      var outcome := PerformMove(places, site, db, id, column, order, user);
      if check.Fail? then outcome == Refused(check.error) else outcome.Done?
  {}

  /** The errors of a move, in the order in which they are found. */
  lemma MoveErrors(places: Places, site: Site, db: Db, id: int, column: int, order: int, user: int)
    requires Sound(db)
    ensures RefusedFor(PerformMove(places, site, db, id, column, order, user),
                       MoveError(places, site, db.tasks, id, column, user))
  {
    CheckedMove(places, site, db, id, column, order, user);
    if OpensTask(places, site, db.tasks, id, user) && Opens(places, site, column, user) {
      var items := set x | x in db.tasks && Takes(places, db.tasks, id, column, x);
      TakenItems(places, db.tasks, id, column);
      MoveVerdict(places, site, db, id, column, user, items);
      LeavingErrors(site, db.tasks, items, column, user);
      StaffVerdict(site, db.tasks, items, places.ProjectOf(places.BoardOf(column)));
    } else {
      MoveClosed(places, site, db, id, column, user);
    }
  }

  /**
   A move is done if and only if the task and the target column are open to the user, a subtask
   stays on its board, every row taken along may leave its column for the target, and in another
   project everybody named on those rows can take over.
   */
  lemma MoveAllowedIff(places: Places, site: Site, db: Db, id: int, column: int, order: int, user: int)
    requires Sound(db)
    ensures PerformMove(places, site, db, id, column, order, user).Done? <==>
      && OpensTask(places, site, db.tasks, id, user) && Opens(places, site, column, user)
      && var from, to := places.BoardOf(db.tasks[id].columnId), places.BoardOf(column);
         var items := set x | x in db.tasks && Takes(places, db.tasks, id, column, x);
         && (db.tasks[id].parent.Some? ==> from == to)
         && (forall x :: x in items && db.tasks[x].columnId != column ==>
               MayLeave(site, db.tasks[x], column, user))
         && (places.ProjectOf(from) != places.ProjectOf(to) ==>
               StaffFits(site, db.tasks, items, places.ProjectOf(to)))
  {
    MoveErrors(places, site, db, id, column, order, user);
    if OpensTask(places, site, db.tasks, id, user) {
      var items := set x | x in db.tasks && Takes(places, db.tasks, id, column, x);
      LeavingErrors(site, db.tasks, items, column, user);
    }
  }

  // ---------------------------------------------------------------- delete and restore

  lemma DeleteAllowedIff(places: Places, site: Site, db: Db, id: int, user: int)
    ensures RefusedFor(PerformDelete(places, site, db, id, user),
                       if OpensTask(places, site, db.tasks, id, user) then None else Some(NotFound))
  {}

  /** Archived tasks and boards are found as well; the board must be taken out of the archive first, then the parent. */
  ghost function RestoreError(places: Places, site: Site, tasks: Tasks, id: int, user: int): Option<Error> {
    if id !in tasks then Some(NotFound)
    else
      var board := places.BoardOf(tasks[id].columnId);
      if tasks[id].columnId !in site.columns || board !in site.boards + site.archivedBoards
         || !Reads(site, places.ProjectOf(board), user) then Some(NotFound)
      else if board in site.archivedBoards then Some(BadRequest)
      else if tasks[id].archived && tasks[id].parent.Some? && tasks[id].parent.value in tasks
         && tasks[tasks[id].parent.value].archived then Some(BadRequest)
      else None
  }

  lemma RestoreAllowedIff(places: Places, site: Site, db: Db, id: int, user: int)
    ensures RefusedFor(PerformRestore(places, site, db, id, user), RestoreError(places, site, db.tasks, id, user))
  {}

  // ---------------------------------------------------------------- all of them

  /** The column a call acts in before it changes anything. */
  function ActsIn(db: Db, op: Op): Option<int> {
    match op
    case Create(column, _) => Some(column)
    case CreateSubtask(above, _) => if above in db.tasks then Some(db.tasks[above].columnId) else None
    case Update(id, _) => if id in db.tasks then Some(db.tasks[id].columnId) else None
    case Move(id, _, _) => if id in db.tasks then Some(db.tasks[id].columnId) else None
    case Delete(id) => if id in db.tasks then Some(db.tasks[id].columnId) else None
    case Restore(id) => if id in db.tasks then Some(db.tasks[id].columnId) else None
  }

  /**
   No call is done for a user who does not own the project or belong to it: the project of the
   column it acts in, and for a move that of the column it goes to.
   */
  lemma OutsidersAreRefused(places: Places, db: Db, call: Call)
    requires Sound(db) && Perform(places, db, call).Done?
    ensures ActsIn(db, call.op).Some? && Opens(places, call.site, ActsIn(db, call.op).value, call.user)
    ensures call.op.Move? ==> Opens(places, call.site, call.op.column, call.user)
  {
    match call.op
    case Create(column, dto) => CreateAllowedIff(places, call.site, db, column, dto, call.user);
    case CreateSubtask(above, dto) => CreateSubtaskAllowedIff(places, call.site, db, above, dto, call.user);
    case Update(id, dto) => UpdateAllowedIff(places, call.site, db, id, dto, call.user);
    case Move(id, column, order) => MoveAllowedIff(places, call.site, db, id, column, order, call.user);
    case Delete(id) => DeleteAllowedIff(places, call.site, db, id, call.user);
    case Restore(id) => RestoreAllowedIff(places, call.site, db, id, call.user);
  }
}
