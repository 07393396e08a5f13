/**
 The task service: a class that updates its tables in place, one method per operation.

 Each method is proved to do exactly what `BoardSpec.Perform` says, so everything proved of
 runs of `Perform` holds of runs of these methods.
 */
module TaskBoard {
  import opened Wrappers
  import opened SortedListing
  import opened Numbering
  import opened TaskRows
  import opened Hierarchy
  import opened ColumnOrder
  import opened BoardSpec
  import opened BoardTree
  import opened BoardDense

  class TasksService {
    const places: Places
    var tasks: Tasks
    var counters: map<int, int>
    var nextId: int
    var events: seq<Event>

    function State(): Db
      reads this
    {
      Db(tasks, counters, nextId, events)
    }

    /** The call did what the specification says: all of it, or nothing and the same error. */
    ghost predicate Did(expected: Outcome, before: Db, check: Check)
      reads this
    {
      && expected == (if check.Pass? then Done(State()) else Refused(check.error))
      && (check.Fail? ==> State() == before)
    }

    constructor (places: Places)
      ensures Sound(State()) && Dense(State().tasks)
      ensures this.places == places && tasks == map[] && events == []
    {
      this.places := places;
      tasks, counters, nextId, events := map[], map[], 1, [];
      new;
      assert Ranked(tasks, map[]);
      forall column ensures DenseColumn(tasks, column) {
        assert RootKeys(tasks, column, {}) == map[];
      }
    }

    // -------------------------------------------------------------- traversal

    /** Collects a task and its descendants level by level, with no set of visited rows. */
    method GetTaskHierarchy(root: int, includeArchived: bool) returns (hierarchy: seq<int>)
      requires Forest(tasks) && root in tasks
      ensures hierarchy == HierarchyOf(tasks, includeArchived, root)
    {
      hierarchy := [root];
      var parentIds := [root];
      ghost var depth: nat := 0;
      UpToFits(tasks, includeArchived, root, depth);
      while parentIds != []
        invariant hierarchy == UpTo(tasks, includeArchived, root, depth)
        invariant parentIds == Level(tasks, includeArchived, root, depth)
        decreases |tasks| - |hierarchy|
      {
        UpToFits(tasks, includeArchived, root, depth);
        var children := Children(tasks, includeArchived, parentIds);
        assert children == Level(tasks, includeArchived, root, depth + 1);
        if children == [] {
          HierarchyReached(tasks, includeArchived, root, depth + 1);
          return;
        }
        hierarchy := hierarchy + children;
        parentIds := children;
        depth := depth + 1;
        UpToFits(tasks, includeArchived, root, depth);
      }
      HierarchyReached(tasks, includeArchived, root, depth);
    }

    // -------------------------------------------------------------- column order

    /** Writes each position that differs. */
    method NumberList(list: seq<int>)
      requires NoDuplicates(list) && forall x :: x in list ==> x in tasks
      modifies this`tasks
      ensures tasks == Renumber(old(tasks), list)
    {
      var index := 0;
      while index < |list|
        invariant 0 <= index <= |list|
        invariant tasks == SavedUpTo(old(tasks), Renumber(old(tasks), list), list, index)
      {
        var x := list[index];
        SaveOne(old(tasks), Renumber(old(tasks), list), list, index);
        if tasks[x].order != index {
          tasks := tasks[x := tasks[x].(order := index)];
        }
        index := index + 1;
      }
      SavedAll(old(tasks), Renumber(old(tasks), list), list);
    }

    /** Renumbers a column as if the task were not there. */
    method NormalizeColumnWithoutTask(column: int, id: int)
      modifies this`tasks
      ensures tasks == CloseGap(old(tasks), column, id)
    {
      OthersHold(tasks, column, id);
      NumberList(Others(tasks, column, id));
    }

    /** Renumbers a list, leaving the order `place` free. */
    method MakeRoom(list: seq<int>, place: nat)
      requires NoDuplicates(list) && forall x :: x in list ==> x in tasks
      modifies this`tasks
      ensures tasks == WithRoom(old(tasks), list, place)
    {
      var index := 0;
      while index < |list|
        invariant 0 <= index <= |list|
        invariant tasks == SavedUpTo(old(tasks), WithRoom(old(tasks), list, place), list, index)
      {
        var x := list[index];
        var nextOrder := if index < place then index else index + 1;
        SaveOne(old(tasks), WithRoom(old(tasks), list, place), list, index);
        if tasks[x].order != nextOrder {
          tasks := tasks[x := tasks[x].(order := nextOrder)];
        }
        index := index + 1;
      }
      SavedAll(old(tasks), WithRoom(old(tasks), list, place), list);
    }

    /** Puts the task at the requested position of a column, clamped to the list, and renumbers. */
    method PlaceTaskInColumn(id: int, column: int, requestedOrder: int) returns (order: int)
      requires id in tasks
      modifies this`tasks
      ensures tasks == Place(old(tasks), id, column, requestedOrder)
      ensures order == tasks[id].order
    {
      var list := Others(tasks, column, id);
      OthersHold(tasks, column, id);
      order := Clamp(requestedOrder, |list|);
      RoomIsPlace(tasks, id, column, requestedOrder);
      MakeRoom(list, order);
      tasks := tasks[id := tasks[id].(columnId := column, order := order)];
    }

    // -------------------------------------------------------------- numbers

    /** Reserves `count` consecutive numbers above the counter and above every number in use. */
    method AllocateTaskNumbers(project: int, count: nat) returns (first: int)
      modifies this`counters
      ensures first == FirstNumber(places, old(counters), tasks, project)
      ensures counters == old(counters)[project := first + count - 1]
    {
      var highest := MaxNumber(places, tasks, project);
      var counter := Counter(counters, project);
      var currentMaximum := if counter > highest then counter else highest;
      first := currentMaximum + 1;
      counters := counters[project := currentMaximum + count];
    }

    // -------------------------------------------------------------- rights

    /** Walks the tasks that change column and looks up the rules they leave under. */
    method AssertTasksCanLeaveColumns(site: Site, items: seq<int>, target: int, user: int) returns (check: Check)
      requires forall x :: x in items ==> x in tasks
      ensures ToSet(items) <= tasks.Keys && check == LeaveCheck(site, tasks, ToSet(items), target, user)
    {
      assert forall x :: x in ToSet(items) ==> x in tasks;
      if target !in site.columns { return Fail(NotFound); }
      ghost var leaving := set x | x in ToSet(items) && tasks[x].columnId != target;
      assert forall x :: x in leaving ==> x in tasks;
      var missing, held := false, false;
      var i := 0;
      while i < |items|
        invariant 0 <= i <= |items|
        invariant site.columns[target].archive ==>
          forall x :: x in leaving && x in items[..i] ==> user in tasks[x].controllers || user in tasks[x].responsibles
        invariant missing <==>
          exists x :: x in leaving && x in items[..i] && tasks[x].columnId !in site.columns
        invariant held <==>
          exists x :: x in leaving && x in items[..i] && tasks[x].columnId in site.columns
                      && site.columns[tasks[x].columnId].creatorsOnly && user !in tasks[x].controllers
      {
        var x := items[i];
        assert x in items && x in ToSet(items);
        assert items[..i + 1] == items[..i] + [x];
        var task := tasks[x];
        if task.columnId != target {
          assert x in leaving;
          if site.columns[target].archive && user !in task.controllers && user !in task.responsibles {
            return Fail(Forbidden);
          }
          if task.columnId !in site.columns {
            missing := true;
          } else if site.columns[task.columnId].creatorsOnly && user !in task.controllers {
            held := true;
          }
        }
        i := i + 1;
      }
      assert items[..i] == items;
      if missing { return Fail(NotFound); }
      return if held then Fail(Forbidden) else Pass;
    }

    // -------------------------------------------------------------- create

    method CreateTask(site: Site, user: int, column: int, dto: CreateDto) returns (check: Check)
      modifies this
      ensures Did(PerformCreate(places, site, old(State()), column, dto, user), old(State()), check)
    {
      check := CreateAccess(places, site, column, user);
      if check.Fail? { return; }
      var project := places.ProjectOfColumn(column);
      check := NewTaskCheck(site, project, dto);
      if check.Fail? { return; }
      var number := AllocateTaskNumbers(project, 1);
      tasks := ShiftRoots(tasks, column);
      var id := nextId;
      tasks := tasks[id := NewTask(dto, column, None, number, user)];
      nextId := nextId + 1;
      events := events + [Event(id, Created, project, user, tasks[id].assignees)];
    }

    method CreateSubtaskOf(site: Site, user: int, above: int, dto: CreateDto) returns (check: Check)
      requires nextId !in tasks
      modifies this
      ensures Did(PerformCreateSubtask(places, site, old(State()), above, dto, user), old(State()), check)
    {
      if !ActiveTask(tasks, above) { return Fail(NotFound); }
      var column := tasks[above].columnId;
      check := CreateAccess(places, site, column, user);
      if check.Fail? { return; }
      var project := places.ProjectOfColumn(column);
      check := NewTaskCheck(site, project, dto);
      if check.Fail? { return; }
      var number := AllocateTaskNumbers(project, 1);
      var id := nextId;
      tasks := tasks[id := NewTask(dto, column, Some(above), number, user)];
      nextId := nextId + 1;
      events := events + [Event(id, Created, project, user, tasks[id].assignees)];
      events := events + [Event(above, SubtaskCreated, project, user, tasks[above].assignees)];
    }

    // -------------------------------------------------------------- update

    /** Checks a change of parent and puts the root lists in order for it. */
    method PrepareParentTaskChange(site: Site, user: int, id: int, parent: Option<int>) returns (check: Check)
      requires id in tasks
      modifies this`tasks
      ensures check == ParentCheck(places, site, old(tasks), id, parent, user)
      ensures tasks == if check.Pass? then Reorder(old(tasks), id, parent) else old(tasks)
    {
      if HasActiveChild(tasks, id) { return Fail(BadRequest); }
      if parent.None? {
        if tasks[id].parent.None? { return Pass; }
        var above := tasks[id].parent.value;
        if !ActiveTask(tasks, above) { return Fail(NotFound); }
        check := AssertTasksCanLeaveColumns(site, [id], tasks[above].columnId, user);
        assert ToSet([id]) == {id};
        if check.Fail? { return; }
        var order := PlaceTaskInColumn(id, tasks[above].columnId, tasks[above].order + 1);
        return Pass;
      }
      var above := parent.value;
      if above == id { return Fail(BadRequest); }
      if !ActiveTask(tasks, above) { return Fail(NotFound); }
      if tasks[above].parent.Some? { return Fail(BadRequest); }
      if tasks[id].columnId !in site.columns || tasks[above].columnId !in site.columns
         || places.BoardOf(tasks[id].columnId) != places.BoardOf(tasks[above].columnId) {
        return Fail(BadRequest);
      }
      if tasks[id].parent.None? {
        NormalizeColumnWithoutTask(tasks[id].columnId, id);
      }
      tasks := tasks[id := tasks[id].(order := 0)];
      return Pass;
    }

    method UpdateTask(site: Site, user: int, id: int, dto: UpdateDto) returns (check: Check)
      modifies this
      ensures Did(PerformUpdate(places, site, old(State()), id, dto, user), old(State()), check)
    {
      check := TaskAccess(places, site, tasks, id, user);
      if check.Fail? { return; }
      var task := tasks[id];
      var project := places.ProjectOfColumn(task.columnId);
      if !EditAllowed(places, site, task, PresentFields(dto), user) { return Fail(Forbidden); }
      check := ControllerListCheck(site, project, dto.controllers);
      if check.Fail? { return; }
      check := ResponsibleListCheck(site, project, dto.responsibles);
      if check.Fail? { return; }
      if StartDate in dto.details || DueDate in dto.details {
        check := DateOrderCheck(task.details + dto.details);
        if check.Fail? { return; }
      }
      if dto.assignees.Some? {
        check := AssigneesCheck(site, project, ToSet(dto.assignees.value));
        if check.Fail? { return; }
      }
      if !dto.customValid { return Fail(BadRequest); }
      if Reparents(task, dto) {
        check := PrepareParentTaskChange(site, user, id, dto.parent.value);
        if check.Fail? { return; }
      }
      assert id in tasks;
      var updated := Patch(tasks[id], dto);
      tasks := tasks[id := updated];
      if updated != task {
        events := events + [Event(id, Updated, project, user, UpdateRecipients(task, updated))];
      }
      check := Pass;
    }

    // -------------------------------------------------------------- move

    /** Saves the moved rows one by one: column, and, in a new project, number, tags and custom values. */
    method SaveMoved(items: seq<int>, column: int, renumber: bool, first: int)
      requires forall x :: x in items ==> x in tasks
      requires NoDuplicates(items)
      modifies this`tasks
      ensures tasks == var moved := WithColumn(old(tasks), items, column);
                       if renumber then WithNumbers(moved, items, first) else moved
    {
      ghost var moved := WithColumn(tasks, items, column);
      ghost var saved := if renumber then WithNumbers(moved, items, first) else moved;
      var i := 0;
      while i < |items|
        invariant 0 <= i <= |items|
        invariant tasks == SavedUpTo(old(tasks), saved, items, i)
      {
        var x := items[i];
        SaveOne(old(tasks), saved, items, i);
        var row := tasks[x].(columnId := column);
        if renumber {
          row := row.(number := first + i, tags := {}, details := row.details[CustomValues := NO_CUSTOM_VALUES]);
        }
        tasks := tasks[x := row];
        i := i + 1;
      }
      SavedAll(old(tasks), saved, items);
    }

    /** Records one event per moved row that changed, two if it left its project. */
    method RecordEvents(before: Tasks, items: seq<int>, crossBoard: bool, source: int, target: int, user: int)
      requires before.Keys == tasks.Keys
      modifies this`events
      ensures events == old(events) + MoveEvents(before, tasks, items, crossBoard, source, target, user)
    {
      var i := 0;
      while i < |items|
        invariant 0 <= i <= |items|
        invariant events + MoveEvents(before, tasks, items[i..], crossBoard, source, target, user)
               == old(events) + MoveEvents(before, tasks, items, crossBoard, source, target, user)
      {
        assert items[i..][1..] == items[i + 1..];
        events := events + ItemEvents(before, tasks, items[i], crossBoard, source, target, user);
        i := i + 1;
      }
    }

    method RecordMove(before: Tasks, items: seq<int>, id: int, column: int, user: int)
      requires id in before && before.Keys == tasks.Keys
      requires items == MoveItems(places, before, id, column)
      modifies this`events
      ensures events == old(events) + MovedEvents(places, before, tasks, id, column, user)
    {
      var from := before[id].columnId;
      RecordEvents(before, items, places.BoardOf(from) != places.BoardOf(column),
                   places.ProjectOfColumn(from), places.ProjectOfColumn(column), user);
    }

    /** The checks of a move, in order, and the tasks it carries along. */
    method CheckMove(site: Site, user: int, id: int, column: int) returns (check: Check, items: seq<int>)
      requires Forest(tasks)
      ensures check == MoveCheck(places, site, State(), id, column, user)
      ensures check.Pass? ==> id in tasks && items == MoveItems(places, tasks, id, column)
    {
      items := [id];
      check := TaskAccess(places, site, tasks, id, user);
      if check.Fail? { return; }
      check := ColumnAccess(places, site, column, user);
      if check.Fail? { return; }
      var isSubtask, from := tasks[id].parent.Some?, tasks[id].columnId;
      var source, target := places.ProjectOfColumn(from), places.ProjectOfColumn(column);
      var crossBoard := places.BoardOf(from) != places.BoardOf(column);
      if isSubtask && crossBoard { return Fail(BadRequest), items; }
      if !isSubtask && crossBoard {
        items := GetTaskHierarchy(id, false);
      }
      ItemsInTable(places, tasks, id, column);
      check := AssertTasksCanLeaveColumns(site, items, column, user);
      assert ToSet(items) * tasks.Keys == ToSet(items);
      if check.Fail? { return; }
      if source != target {
        check := MoveStaffCheck(site, tasks, ToSet(items), target);
      }
    }

    /** Takes a root out of its list and puts it into the target list; a subtask is in no list. */
    method Relocate(id: int, column: int, requestedOrder: int)
      requires id in tasks
      modifies this`tasks
      ensures tasks == PlacedRows(old(tasks), id, column, requestedOrder)
    {
      if tasks[id].parent.Some? { return; }
      var from := tasks[id].columnId;
      if from != column { NormalizeColumnWithoutTask(from, id); }
      var order := PlaceTaskInColumn(id, column, requestedOrder);
    }

    /** Draws a range of the target project and saves the rows with it. */
    method NumberMoved(items: seq<int>, column: int, target: int) returns (first: int)
      requires NoDuplicates(items) && forall x :: x in items ==> x in tasks
      modifies this`tasks, this`counters
      ensures first == FirstNumber(places, old(counters), old(tasks), target)
      ensures tasks == WithNumbers(WithColumn(old(tasks), items, column), items, first)
      ensures counters == old(counters)[target := first + |items| - 1]
    {
      first := AllocateTaskNumbers(target, |items|);
      SaveMoved(items, column, true, first);
    }

    /** Writes the rows of a permitted move; in another project, with numbers drawn there. */
    method WriteMove(items: seq<int>, id: int, column: int, requestedOrder: int, source: int, target: int)
      returns (first: int)
      requires id in tasks && NoDuplicates(items) && forall x :: x in items ==> x in tasks
      modifies this`tasks, this`counters
      ensures source != target ==>
        first == FirstNumber(places, old(counters), PlacedRows(old(tasks), id, column, requestedOrder), target)
      ensures tasks ==
        var moved := WithColumn(PlacedRows(old(tasks), id, column, requestedOrder), items, column);
        if source == target then moved else WithNumbers(moved, items, first)
      ensures counters == MovedCounters(old(counters), source, target, first, |items|)
    {
      Relocate(id, column, requestedOrder);
      if source == target {
        first := 0;
        SaveMoved(items, column, false, first);
      } else {
        first := NumberMoved(items, column, target);
      }
    }

    method CarryOutMove(user: int, items: seq<int>, id: int, column: int, requestedOrder: int)
      requires id in tasks && items == MoveItems(places, tasks, id, column)
      requires NoDuplicates(items) && forall x :: x in items ==> x in tasks
      modifies this
      ensures State() == MoveResult(places, old(State()), id, column, requestedOrder, user)
    {
      var before := tasks;
      var source, target := places.ProjectOfColumn(tasks[id].columnId), places.ProjectOfColumn(column);
      var first := WriteMove(items, id, column, requestedOrder, source, target);
      assert tasks == AfterMove(places, old(State()), id, column, requestedOrder);
      RecordMove(before, items, id, column, user);
    }

    method MoveTask(site: Site, user: int, id: int, column: int, requestedOrder: int) returns (check: Check)
      requires Forest(tasks)
      modifies this
      ensures Did(PerformMove(places, site, old(State()), id, column, requestedOrder, user), old(State()), check)
    {
      var items;
      check, items := CheckMove(site, user, id, column);
      if check.Fail? { return; }
      ItemsInTable(places, tasks, id, column);
      CarryOutMove(user, items, id, column, requestedOrder);
    }

    // -------------------------------------------------------------- delete and restore

    method DeleteTask(site: Site, user: int, id: int) returns (check: Check)
      requires Forest(tasks)
      modifies this
      ensures Did(PerformDelete(places, site, old(State()), id, user), old(State()), check)
    {
      check := TaskAccess(places, site, tasks, id, user);
      if check.Fail? { return; }
      var project := places.ProjectOfColumn(tasks[id].columnId);
      var hierarchy := GetTaskHierarchy(id, false);
      tasks := WithArchived(tasks, hierarchy, true);
      events := events + [Event(id, Deleted, project, user, tasks[id].assignees)];
    }

    method RestoreTask(site: Site, user: int, id: int) returns (check: Check)
      requires Forest(tasks)
      modifies this
      ensures Did(PerformRestore(places, site, old(State()), id, user), old(State()), check)
    {
      check := RestoreCheck(places, site, State(), id, user);
      if check.Fail? { return; }
      var task := tasks[id];
      if !task.archived { return; }
      if task.parent.Some? && task.parent.value in tasks && tasks[task.parent.value].archived {
        return Fail(BadRequest);
      }
      var hierarchy := GetTaskHierarchy(id, true);
      tasks := WithArchived(tasks, hierarchy, false);
      events := events + [Event(id, Restored, places.ProjectOfColumn(task.columnId), user, task.assignees)];
    }

    // -------------------------------------------------------------- runs

    /** Any one request, carried out by its method: a step of `Run`, which keeps the tables sound. */
    method Handle(call: Call) returns (check: Check)
      requires Sound(State())
      modifies this
      ensures State() == After(places, old(State()), call)
      ensures check.Fail? ==> State() == old(State())
      ensures Sound(State())
    {
      StepSound(places, State(), call);
      match call.op
      case Create(column, dto) => check := CreateTask(call.site, call.user, column, dto);
      case CreateSubtask(above, dto) => check := CreateSubtaskOf(call.site, call.user, above, dto);
      case Update(id, dto) => check := UpdateTask(call.site, call.user, id, dto);
      case Move(id, column, order) => check := MoveTask(call.site, call.user, id, column, order);
      case Delete(id) => check := DeleteTask(call.site, call.user, id);
      case Restore(id) => check := RestoreTask(call.site, call.user, id);
    }

    /** A whole run of requests. */
    method HandleAll(calls: seq<Call>)
      requires Sound(State())
      modifies this
      ensures State() == Run(places, old(State()), calls) && Sound(State())
    {
      var i := 0;
      while i < |calls|
        invariant 0 <= i <= |calls|
        invariant Sound(State())
        invariant Run(places, State(), calls[i..]) == Run(places, old(State()), calls)
      {
        assert calls[i..][1..] == calls[i + 1..];
        var check := Handle(calls[i]);
        i := i + 1;
      }
    }
  }

  /** The rows once the first `n` of the list are saved as they will be in the end. */
  ghost function SavedUpTo(before: Tasks, end: Tasks, list: seq<int>, n: nat): Tasks
    requires end.Keys == before.Keys
  {
    map x | x in before :: if x in list && IndexOf(list, x) < n then end[x] else before[x]
  }

  lemma SaveOne(before: Tasks, end: Tasks, list: seq<int>, n: nat)
    requires end.Keys == before.Keys && NoDuplicates(list) && n < |list| && list[n] in before
    ensures list[n] in list && IndexOf(list, list[n]) == n
    ensures SavedUpTo(before, end, list, n)[list[n]] == before[list[n]]
    ensures SavedUpTo(before, end, list, n + 1) == SavedUpTo(before, end, list, n)[list[n] := end[list[n]]]
  {
    forall x | x in list ensures IndexOf(list, x) == n <==> x == list[n] {
      assert list[IndexOf(list, x)] == x;
    }
    var now, next := SavedUpTo(before, end, list, n), SavedUpTo(before, end, list, n + 1);
    assert forall x :: x in before ==> next[x] == now[list[n] := end[list[n]]][x];
  }

  lemma SavedAll(before: Tasks, end: Tasks, list: seq<int>)
    requires end.Keys == before.Keys && forall x :: x in before && x !in list ==> end[x] == before[x]
    ensures SavedUpTo(before, end, list, |list|) == end
  {
    assert forall x :: x in before ==> SavedUpTo(before, end, list, |list|)[x] == end[x];
  }

  /** The list renumbered around a free place. */
  function WithRoom(tasks: Tasks, list: seq<int>, place: nat): Tasks {
    map x | x in tasks ::
      if x in list
      then tasks[x].(order := if IndexOf(list, x) < place then IndexOf(list, x) else IndexOf(list, x) + 1)
      else tasks[x]
  }

  lemma {:induction false} FirstIndex(list: seq<int>, j: nat)
    requires j < |list| && forall k :: 0 <= k < j ==> list[k] != list[j]
    ensures IndexOf(list, list[j]) == j
  {
    assert list[j] in list;
  }

  lemma InsertedIndex(list: seq<int>, place: nat, id: int, x: int)
    requires NoDuplicates(list) && place <= |list| && id !in list && (x == id || x in list)
    ensures x in InsertAt(list, place, id)
    ensures IndexOf(InsertAt(list, place, id), x)
         == if x == id then place
            else if IndexOf(list, x) < place then IndexOf(list, x) else IndexOf(list, x) + 1
  {
    var longer := InsertAt(list, place, id);
    var i := if x == id then 0 else IndexOf(list, x);
    var j := if x == id then place else if i < place then i else i + 1;
    InsertKeepsDistinct(list, place, id);
    assert longer[j] == x;
    FirstIndex(longer, j);
  }

  /** The order a row gets when room is made is its index in the new list. */
  lemma RoomOrder(tasks: Tasks, list: seq<int>, place: nat, id: int, x: int)
    requires NoDuplicates(list) && place <= |list| && id !in list && x in tasks && x != id
    ensures WithRoom(tasks, list, place)[x] == Renumber(tasks, InsertAt(list, place, id))[x]
  {
    InsertMembers(list, place, id, x);
    if x in list { InsertedIndex(list, place, id, x); }
  }

  /** Making room and then dropping the task in is what `Place` does. */
  lemma RoomIsPlace(tasks: Tasks, id: int, column: int, requested: int)
    requires id in tasks
    ensures var list := Others(tasks, column, id);
      var place := Clamp(requested, |list|);
      var room := WithRoom(tasks, list, place);
      room[id := room[id].(columnId := column, order := place)] == Place(tasks, id, column, requested)
  {
    var list := Others(tasks, column, id);
    var place := Clamp(requested, |list|);
    var room, placed := WithRoom(tasks, list, place), Renumber(tasks, InsertAt(list, place, id));
    OthersHold(tasks, column, id);
    assert id !in list;
    InsertedIndex(list, place, id, id);
    assert placed[id] == tasks[id].(order := place) && room[id] == tasks[id];
    forall x | x in tasks && x != id ensures room[x] == placed[x] {
      RoomOrder(tasks, list, place, id, x);
    }
    assert forall x :: x in tasks ==>
      room[id := room[id].(columnId := column, order := place)][x] == placed[id := placed[id].(columnId := column)][x];
  }

  lemma ItemsInTable(places: Places, tasks: Tasks, id: int, column: int)
    requires Forest(tasks) && id in tasks
    ensures NoDuplicates(MoveItems(places, tasks, id, column))
    ensures forall x :: x in MoveItems(places, tasks, id, column) ==> x in tasks
  {
    HierarchyIsDescendants(tasks, false, id);
    ItemsAreChildren(places, tasks, id, column);
  }
}
