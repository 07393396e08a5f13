/**
 What each operation leaves behind, field by field: the rows it writes, the counters, the next id
 and the events. Everything is said of the request and the state before the call; none of the
 functions that compute the result is mentioned.
 */
module BoardResults {
  import opened Wrappers
  import opened SortedListing
  import opened TaskRows
  import opened Hierarchy
  import opened ColumnOrder
  import opened BoardSpec
  import opened BoardTree
  import opened BoardArchive
  import opened BoardEvents
  import opened BoardFrame
  import opened BoardPermissions

  // ---------------------------------------------------------------- numbers

  ghost predicate InProject(places: Places, tasks: Tasks, project: int, x: int) {
    x in tasks && places.ProjectOf(places.BoardOf(tasks[x].columnId)) == project
  }

  /**
   The number is the first above the counter, which is 0 unless stored, and above all numbers of
   the project, archived tasks included; an empty project starts at 1.
   */
  ghost predicate NextNumber(places: Places, counters: map<int, int>, tasks: Tasks, project: int, n: int) {
    var counter := if project in counters then counters[project] else 0;
    var empty := forall x :: !InProject(places, tasks, project, x);
    && counter < n && (forall x :: InProject(places, tasks, project, x) ==> tasks[x].number < n)
    && (empty ==> 0 < n)
    && (|| n == counter + 1
        || (exists x :: InProject(places, tasks, project, x) && n == tasks[x].number + 1)
        || (empty && n == 1))
  }

  lemma NumberIsNext(places: Places, counters: map<int, int>, tasks: Tasks, project: int)
    ensures NextNumber(places, counters, tasks, project, FirstNumber(places, counters, tasks, project))
  {
    MaxNumberIsHighest(places, tasks, project);
    if exists x :: InProject(places, tasks, project, x) {
      var y :| y in tasks && places.ProjectOfColumn(tasks[y].columnId) == project
               && tasks[y].number == MaxNumber(places, tasks, project);
      assert InProject(places, tasks, project, y);
    } else {
      forall x | x in tasks ensures places.ProjectOfColumn(tasks[x].columnId) != project {
        assert !InProject(places, tasks, project, x);
      }
    }
  }

  // ---------------------------------------------------------------- create

  /** A set of users or tags is the one listed. */
  ghost predicate IsSetOf(ids: set<int>, list: seq<int>) {
    forall u :: u in ids <==> u in list
  }

  /** The list of a request, if there is one. */
  function Listed(list: Option<seq<int>>): seq<int> {
    if list.Some? then list.value else []
  }

  /** The row is what the request asks for. */
  ghost predicate AsRequested(task: Task, dto: CreateDto, user: int) {
    && task.createdBy == user && !task.archived && task.order == 0
    && (forall u :: u in task.controllers <==> u == user || u in Listed(dto.controllers))
    && IsSetOf(task.responsibles, Listed(dto.responsibles))
    && IsSetOf(task.assignees, dto.assignees)
    && IsSetOf(task.tags, dto.tags)
    && (forall f :: f != StartDate && f != DueDate ==>
          if f in dto.details then f in task.details && task.details[f] == dto.details[f] else f !in task.details)
    && StartDate in task.details && task.details[StartDate] == Some(StartOf(dto))
    && DueDate in task.details && task.details[DueDate] == Some(DueOf(dto))
  }

  lemma RowAsRequested(dto: CreateDto, column: int, parent: Option<int>, number: int, user: int)
    ensures var task := NewTask(dto, column, parent, number, user);
      AsRequested(task, dto, user) && task.columnId == column && task.parent == parent && task.number == number
  {}

  /**
   A created task is a root of its column, as requested, with the next number; active roots of the
   column make room, and nothing else changes. Its assignees are told.
   */
  lemma CreateResult(places: Places, site: Site, db: Db, column: int, dto: CreateDto, user: int)
    requires db.nextId !in db.tasks && PerformCreate(places, site, db, column, dto, user).Done?
    ensures var next := PerformCreate(places, site, db, column, dto, user).db;
      var project := places.ProjectOf(places.BoardOf(column));
      && next.tasks.Keys == db.tasks.Keys + {db.nextId} && next.nextId == db.nextId + 1
      && var task := next.tasks[db.nextId];
         && AsRequested(task, dto, user) && task.columnId == column && task.parent.None?
         && NextNumber(places, db.counters, db.tasks, project, task.number)
         && next.counters == db.counters[project := task.number]
         && next.events == db.events + [Event(db.nextId, Created, project, user, task.assignees)]
    ensures var next := PerformCreate(places, site, db, column, dto, user).db;
      forall x :: x in db.tasks ==>
        var makesRoom := !db.tasks[x].archived && db.tasks[x].columnId == column && db.tasks[x].parent.None?;
        next.tasks[x] == db.tasks[x].(order := db.tasks[x].order + if makesRoom then 1 else 0)
  {
    var project := places.ProjectOfColumn(column);
    NumberIsNext(places, db.counters, db.tasks, project);
    RowAsRequested(dto, column, None, FirstNumber(places, db.counters, db.tasks, project), user);
  }

  /** A created subtask sits in its parent's column; no other row changes, and both tasks' assignees are told. */
  lemma CreateSubtaskResult(places: Places, site: Site, db: Db, above: int, dto: CreateDto, user: int)
    requires db.nextId !in db.tasks && PerformCreateSubtask(places, site, db, above, dto, user).Done?
    ensures above in db.tasks
    ensures var next := PerformCreateSubtask(places, site, db, above, dto, user).db;
      var column := db.tasks[above].columnId;
      var project := places.ProjectOf(places.BoardOf(column));
      && next.tasks.Keys == db.tasks.Keys + {db.nextId} && next.nextId == db.nextId + 1
      && (forall x :: x in db.tasks ==> next.tasks[x] == db.tasks[x])
      && var task := next.tasks[db.nextId];
         && AsRequested(task, dto, user) && task.columnId == column && task.parent == Some(above)
         && NextNumber(places, db.counters, db.tasks, project, task.number)
         && next.counters == db.counters[project := task.number]
         && next.events == db.events + [Event(db.nextId, Created, project, user, task.assignees),
                                        Event(above, SubtaskCreated, project, user, db.tasks[above].assignees)]
  {
    var column := db.tasks[above].columnId;
    var project := places.ProjectOfColumn(column);
    NumberIsNext(places, db.counters, db.tasks, project);
    RowAsRequested(dto, column, Some(above), FirstNumber(places, db.counters, db.tasks, project), user);
  }

  // ---------------------------------------------------------------- update

  /** Requested lists and values are taken over, everything else stays. */
  ghost predicate Updated(before: Task, after: Task, dto: UpdateDto) {
    && after.number == before.number && after.createdBy == before.createdBy && after.archived == before.archived
    && after.parent == (if dto.parent.Some? then dto.parent.value else before.parent)
    && (if dto.controllers.Some? then IsSetOf(after.controllers, dto.controllers.value)
        else after.controllers == before.controllers)
    && (if dto.responsibles.Some? then IsSetOf(after.responsibles, dto.responsibles.value)
        else after.responsibles == before.responsibles)
    && (if dto.assignees.Some? then IsSetOf(after.assignees, dto.assignees.value)
        else after.assignees == before.assignees)
    && (if dto.tags.Some? then IsSetOf(after.tags, dto.tags.value) else after.tags == before.tags)
    && (forall f ::
          if f in dto.details then f in after.details && after.details[f] == dto.details[f]
          else if f in before.details then f in after.details && after.details[f] == before.details[f]
          else f !in after.details)
  }

  /** Where the row is after the update: only a change of parent moves it. */
  ghost predicate UpdatedPlace(tasks: Tasks, id: int, after: Task, dto: UpdateDto)
    requires id in tasks
  {
    var before := tasks[id];
    if dto.parent.None? || dto.parent.value == before.parent
    then after.columnId == before.columnId && after.order == before.order
    else if dto.parent.value.Some? then after.columnId == before.columnId && after.order == 0
    else before.parent.Some? && before.parent.value in tasks
         && after.columnId == tasks[before.parent.value].columnId
  }

  lemma ReorderedRow(tasks: Tasks, id: int, parent: Option<int>)
    requires id in tasks
    requires parent.None? ==> tasks[id].parent.Some? && tasks[id].parent.value in tasks
    ensures var row := Reorder(tasks, id, parent)[id];
      && row.(order := tasks[id].order, columnId := tasks[id].columnId) == tasks[id]
      && (parent.Some? ==> row.columnId == tasks[id].columnId && row.order == 0)
      && (parent.None? ==> row.columnId == tasks[tasks[id].parent.value].columnId)
  {
    ReorderFrame(tasks, id, parent);
    if parent.None? {
      var above := tasks[tasks[id].parent.value];
      PlaceHolds(tasks, id, above.columnId, above.order + 1);
    } else {
      CloseGapHolds(tasks, tasks[id].columnId, id);
    }
  }

  lemma PatchedRow(task: Task, dto: UpdateDto)
    ensures Updated(task, Patch(task, dto), dto)
    ensures Patch(task, dto).columnId == task.columnId && Patch(task, dto).order == task.order
  {}

  /** The row as stored, and the event, in terms of the row that the change of parent left. */
  lemma UpdateGivesRow(places: Places, site: Site, db: Db, id: int, dto: UpdateDto, user: int)
    requires PerformUpdate(places, site, db, id, dto, user).Done?
    ensures ActiveTask(db.tasks, id)
    ensures Reparents(db.tasks[id], dto) ==> ParentCheck(places, site, db.tasks, id, dto.parent.value, user).Pass?
    ensures var next := PerformUpdate(places, site, db, id, dto, user).db;
      var rows := if Reparents(db.tasks[id], dto) then Reorder(db.tasks, id, dto.parent.value) else db.tasks;
      var project := places.ProjectOf(places.BoardOf(db.tasks[id].columnId));
      && next.tasks == rows[id := Patch(rows[id], dto)]
      && next.counters == db.counters && next.nextId == db.nextId
      && next.events == db.events + if next.tasks[id] == db.tasks[id] then []
           else [Event(id, Kind.Updated, project, user, UpdateRecipients(db.tasks[id], next.tasks[id]))]
  {}

  lemma BothAreTold(before: Task, after: Task)
    ensures UpdateRecipients(before, after) == before.assignees + after.assignees
  {}

  lemma StoredRow(tasks: Tasks, id: int, dto: UpdateDto)
    requires id in tasks
    requires Reparents(tasks[id], dto) && dto.parent.value.None? ==>
      tasks[id].parent.Some? && tasks[id].parent.value in tasks
    ensures var rows := if Reparents(tasks[id], dto) then Reorder(tasks, id, dto.parent.value) else tasks;
      Updated(tasks[id], Patch(rows[id], dto), dto) && UpdatedPlace(tasks, id, Patch(rows[id], dto), dto)
  {
    if Reparents(tasks[id], dto) {
      ReorderedRow(tasks, id, dto.parent.value);
      PatchedRow(Reorder(tasks, id, dto.parent.value)[id], dto);
    } else {
      PatchedRow(tasks[id], dto);
    }
  }

  /**
   An updated task has exactly the requested changes, wherever it is now. Counters and ids stay; if
   the row has changed, those assigned before and after are told.
   */
  lemma UpdateResult(places: Places, site: Site, db: Db, id: int, dto: UpdateDto, user: int)
    requires Sound(db) && PerformUpdate(places, site, db, id, dto, user).Done?
    ensures id in db.tasks
    ensures var next := PerformUpdate(places, site, db, id, dto, user).db;
      && next.tasks.Keys == db.tasks.Keys && next.counters == db.counters && next.nextId == db.nextId
      && var before, after := db.tasks[id], next.tasks[id];
         && Updated(before, after, dto) && UpdatedPlace(db.tasks, id, after, dto)
         && var project := places.ProjectOf(places.BoardOf(before.columnId));
            next.events == db.events + if after == before then []
              else [Event(id, Kind.Updated, project, user, before.assignees + after.assignees)]
  {
    UpdateGivesRow(places, site, db, id, dto, user);
    StoredRow(db.tasks, id, dto);
    BothAreTold(db.tasks[id], PerformUpdate(places, site, db, id, dto, user).db.tasks[id]);
  }

  // ---------------------------------------------------------------- move

  /** A row taken along: in the target column; in another project renumbered, without tags and custom values. */
  ghost predicate MovedRow(before: Task, after: Task, column: int, across: bool) {
    && after.columnId == column && after.parent == before.parent && after.archived == before.archived
    && after.createdBy == before.createdBy && after.controllers == before.controllers
    && after.responsibles == before.responsibles && after.assignees == before.assignees
    && (before.parent.Some? ==> after.order == before.order)
    && (if across
        then && after.tags == {} && CustomValues in after.details && after.details[CustomValues] == Some(0)
             && forall f :: f != CustomValues ==>
                  if f in before.details then f in after.details && after.details[f] == before.details[f]
                  else f !in after.details
        else after.number == before.number && after.tags == before.tags && after.details == before.details)
  }

  lemma TakenRow(places: Places, db: Db, id: int, column: int, order: int, x: int)
    requires Sound(db) && id in db.tasks && x in db.tasks && x in MoveItems(places, db.tasks, id, column)
    ensures MovedRow(db.tasks[x], AfterMove(places, db, id, column, order)[x], column,
                     places.ProjectOfColumn(db.tasks[id].columnId) != places.ProjectOfColumn(column))
  {
    var tasks := db.tasks;
    MovedRowsFrame(places, tasks, id, column, order);
    var moved := MovedRows(places, tasks, id, column, order);
    assert moved[x].(order := tasks[x].order, columnId := tasks[x].columnId) == tasks[x];
    if tasks[x].parent.Some? {
      MoveRootFrame(tasks, id, column, order);
      assert PlacedRows(tasks, id, column, order)[x].order == tasks[x].order;
    }
  }

  /** Within a project counters stay; the target of a move between projects gets the last number given. */
  lemma MoveCounters(places: Places, db: Db, id: int, column: int, order: int, user: int)
    requires id in db.tasks
    ensures var next := MoveResult(places, db, id, column, order, user);
      var source, target := places.ProjectOfColumn(db.tasks[id].columnId), places.ProjectOfColumn(column);
      && next.nextId == db.nextId
      && (source == target ==> next.counters == db.counters)
      && (source != target ==> forall p :: p != target ==>
            (p in next.counters <==> p in db.counters) && (p in db.counters ==> next.counters[p] == db.counters[p]))
  {}

  /**
   A move changes the rows it takes as said, and of others at most the order; numbers, lists and
   the position are said elsewhere.
   */
  lemma MoveResultRows(places: Places, site: Site, db: Db, id: int, column: int, order: int, user: int, x: int)
    requires Sound(db) && PerformMove(places, site, db, id, column, order, user).Done? && x in db.tasks
    ensures id in db.tasks
    ensures var next := PerformMove(places, site, db, id, column, order, user).db;
      var source := places.ProjectOf(places.BoardOf(db.tasks[id].columnId));
      var target := places.ProjectOf(places.BoardOf(column));
      && next.tasks.Keys == db.tasks.Keys && next.nextId == db.nextId
      && (source == target ==> next.counters == db.counters)
      && (source != target ==> forall p :: p != target ==>
            (p in next.counters <==> p in db.counters) && (p in db.counters ==> next.counters[p] == db.counters[p]))
      && (if Takes(places, db.tasks, id, column, x)
          then MovedRow(db.tasks[x], next.tasks[x], column, source != target)
          else next.tasks[x].(order := db.tasks[x].order) == db.tasks[x])
  {
    MoveGivesResult(places, site, db, id, column, order, user);
    MoveCounters(places, db, id, column, order, user);
    TakesItems(places, db.tasks, id, column, x);
    if x in MoveItems(places, db.tasks, id, column) {
      TakenRow(places, db, id, column, order, x);
    } else {
      MoveBystander(places, db, id, column, order, x);
    }
  }

  /** The events about one task of a move: to the new project, and to the old one if it has left it. */
  ghost predicate ToldOf(before: Task, after: Task, x: int, e: Event, crossBoard: bool,
                         source: int, target: int, user: int) {
    && (crossBoard || before.columnId != after.columnId || before.order != after.order || before.number != after.number)
    && (|| e == Event(x, Moved, target, user, before.assignees)
        || (source != target && e == Event(x, MovedOut, source, user, before.assignees)))
  }

  lemma {:induction false} ToldOfItems(before: Tasks, after: Tasks, items: seq<int>, crossBoard: bool,
                                       source: int, target: int, user: int, e: Event)
    requires before.Keys == after.Keys && forall x :: x in before ==> after[x].assignees == before[x].assignees
    ensures e in MoveEvents(before, after, items, crossBoard, source, target, user) <==>
      e.task in items && e.task in before
      && ToldOf(before[e.task], after[e.task], e.task, e, crossBoard, source, target, user)
    decreases |items|
  {
    if items != [] {
      ToldOfItems(before, after, items[1..], crossBoard, source, target, user, e);
      assert e.task in items <==> e.task == items[0] || e.task in items[1..];
    }
  }

  lemma {:induction false} ToldOnce(before: Tasks, after: Tasks, items: seq<int>, crossBoard: bool,
                                    source: int, target: int, user: int)
    requires before.Keys == after.Keys && forall x :: x in before ==> after[x].assignees == before[x].assignees
    requires NoDuplicates(items)
    ensures NoDuplicates(MoveEvents(before, after, items, crossBoard, source, target, user))
    decreases |items|
  {
    if items != [] {
      var head := ItemEvents(before, after, items[0], crossBoard, source, target, user);
      var rest := MoveEvents(before, after, items[1..], crossBoard, source, target, user);
      ToldOnce(before, after, items[1..], crossBoard, source, target, user);
      forall k | 0 <= k < |items[1..]| ensures items[1..][k] != items[0] {
        assert items[k + 1] != items[0];
      }
      forall i, j | 0 <= i < |head| && 0 <= j < |rest| ensures head[i] != rest[j] {
        var e := rest[j];
        assert e in rest;
        ToldOfItems(before, after, items[1..], crossBoard, source, target, user, e);
        assert head[i].task == items[0] && e.task in items[1..];
      }
      NoDuplicatesJoin(head, rest);
    }
  }

  lemma NoDuplicatesJoin<T>(s: seq<T>, t: seq<T>)
    requires NoDuplicates(s) && NoDuplicates(t)
    requires forall i, j :: 0 <= i < |s| && 0 <= j < |t| ==> s[i] != t[j]
    ensures NoDuplicates(s + t)
  {}

  /** The events that a move adds. */
  ghost function Added(places: Places, db: Db, call: Call): seq<Event>
    requires db.events <= After(places, db, call).events
  {
    After(places, db, call).events[|db.events|..]
  }

  /**
   A move tells the assignees of every row it takes whose board, column, order or number has
   changed: once in the project it has come to, and once in the one it has left, if it has.
   */
  lemma MoveTells(places: Places, db: Db, call: Call)
    requires Sound(db) && call.op.Move? && Perform(places, db, call).Done?
    ensures call.op.id in db.tasks && db.events <= After(places, db, call).events
    ensures NoDuplicates(Added(places, db, call))
    ensures var next := After(places, db, call).tasks;
      var from, to := places.BoardOf(db.tasks[call.op.id].columnId), places.BoardOf(call.op.column);
      && next.Keys == db.tasks.Keys
      && forall e :: e in Added(places, db, call) <==>
           && e.task in db.tasks && Takes(places, db.tasks, call.op.id, call.op.column, e.task)
           && ToldOf(db.tasks[e.task], next[e.task], e.task, e, from != to,
                     places.ProjectOf(from), places.ProjectOf(to), call.user)
  {
    var tasks, id, column := db.tasks, call.op.id, call.op.column;
    MoveGivesResult(places, call.site, db, id, column, call.op.order, call.user);
    var items := MoveItems(places, tasks, id, column);
    var next := After(places, db, call).tasks;
    HierarchyIsDescendants(tasks, false, id);
    MoveKeepsAssignees(places, db, call);
    MoveAdds(places, db, call);
    var from, to := places.BoardOf(tasks[id].columnId), places.BoardOf(column);
    ToldOnce(tasks, next, items, from != to, places.ProjectOf(from), places.ProjectOf(to), call.user);
    forall e ensures e in Added(places, db, call) <==>
      && e.task in tasks && Takes(places, tasks, id, column, e.task)
      && ToldOf(tasks[e.task], next[e.task], e.task, e, from != to,
                places.ProjectOf(from), places.ProjectOf(to), call.user)
    {
      ToldOfItems(tasks, next, items, from != to, places.ProjectOf(from), places.ProjectOf(to), call.user, e);
      TakesItems(places, tasks, id, column, e.task);
    }
  }

  // ---------------------------------------------------------------- delete and restore

  /** A delete archives the task and everything below it, and tells the task's assignees. */
  lemma DeleteResult(places: Places, site: Site, db: Db, id: int, user: int)
    requires Sound(db) && PerformDelete(places, site, db, id, user).Done?
    ensures id in db.tasks
    ensures var next := PerformDelete(places, site, db, id, user).db;
      var project := places.ProjectOf(places.BoardOf(db.tasks[id].columnId));
      && next.counters == db.counters && next.nextId == db.nextId && next.tasks.Keys == db.tasks.Keys
      && next.events == db.events + [Event(id, Deleted, project, user, db.tasks[id].assignees)]
      && forall x :: x in db.tasks ==>
           next.tasks[x] == db.tasks[x].(archived := db.tasks[x].archived || Descends(db.tasks, true, id, x))
  {
    DeleteArchivesDescendants(places, site, db, id, user);
  }

  /**
   A restore of an archived task revives it and everything below it, and tells the task's
   assignees; of an active task it does nothing.
   */
  lemma RestoreResult(places: Places, site: Site, db: Db, id: int, user: int)
    requires Sound(db) && PerformRestore(places, site, db, id, user).Done?
    ensures id in db.tasks
    ensures !db.tasks[id].archived ==> PerformRestore(places, site, db, id, user).db == db
    ensures db.tasks[id].archived ==>
      var next := PerformRestore(places, site, db, id, user).db;
      var project := places.ProjectOf(places.BoardOf(db.tasks[id].columnId));
      && next.counters == db.counters && next.nextId == db.nextId && next.tasks.Keys == db.tasks.Keys
      && next.events == db.events + [Event(id, Restored, project, user, db.tasks[id].assignees)]
      && forall x :: x in db.tasks ==>
           next.tasks[x] == db.tasks[x].(archived := db.tasks[x].archived && !Descends(db.tasks, true, id, x))
  {
    if db.tasks[id].archived { RestoreRevivesDescendants(places, site, db, id, user); }
  }
}
