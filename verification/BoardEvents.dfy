/**
 Who hears of a change: the assignees before the call together with those after it.
 */
module BoardEvents {
  import opened TaskRows
  import opened BoardSpec
  import opened BoardTree

  ghost function Assigned(db: Db, task: int): set<int> {
    if task in db.tasks then db.tasks[task].assignees else {}
  }

  /** `added` holds an event about every task whose assignees differ, and each event reaches exactly both groups. */
  ghost predicate Announced(db: Db, next: Db, actor: int, added: seq<Event>) {
    && (forall i :: 0 <= i < |added| ==>
          && added[i].actor == actor
          && added[i].recipients == Assigned(db, added[i].task) + Assigned(next, added[i].task))
    && (forall x :: Assigned(db, x) != Assigned(next, x) ==>
          exists i :: 0 <= i < |added| && added[i].task == x)
  }

  ghost predicate Reaches(tasks: Tasks, actor: int, e: Event) {
    e.actor == actor && e.task in tasks && e.recipients == tasks[e.task].assignees
  }

  lemma {:induction false} MoveEventsReach(before: Tasks, after: Tasks, items: seq<int>, crossBoard: bool,
                                           source: int, target: int, user: int)
    requires before.Keys == after.Keys
    requires forall x :: x in before ==> after[x].assignees == before[x].assignees
    ensures forall e :: e in MoveEvents(before, after, items, crossBoard, source, target, user) ==>
      Reaches(before, user, e)
    decreases |items|
  {
    if items != [] {
      var head := ItemEvents(before, after, items[0], crossBoard, source, target, user);
      assert forall e :: e in head ==> Reaches(before, user, e);
      MoveEventsReach(before, after, items[1..], crossBoard, source, target, user);
    }
  }

  lemma MoveKeepsAssignees(places: Places, db: Db, call: Call)
    requires call.op.Move? && Perform(places, db, call).Done?
    ensures var next := After(places, db, call);
      && next.tasks.Keys == db.tasks.Keys
      && forall x :: x in db.tasks ==> next.tasks[x].assignees == db.tasks[x].assignees
  {
    forall x | x in db.tasks
      ensures AfterMove(places, db, call.op.id, call.op.column, call.op.order)[x].assignees == db.tasks[x].assignees
    {
      RowKeepsAssignees(places, db, call.op.id, call.op.column, call.op.order, x);
    }
  }

  lemma RowKeepsAssignees(places: Places, db: Db, id: int, column: int, order: int, x: int)
    requires id in db.tasks && x in db.tasks
    ensures AfterMove(places, db, id, column, order)[x].assignees == db.tasks[x].assignees
  {
    MovedRowsFrame(places, db.tasks, id, column, order);
    var moved := MovedRows(places, db.tasks, id, column, order);
    assert moved[x].(order := db.tasks[x].order, columnId := db.tasks[x].columnId) == db.tasks[x];
  }

  lemma MoveAdds(places: Places, db: Db, call: Call)
    requires call.op.Move? && Perform(places, db, call).Done?
    ensures var next := After(places, db, call);
      var id, column := call.op.id, call.op.column;
      var from := db.tasks[id].columnId;
      && next.tasks.Keys == db.tasks.Keys
      && next.events == db.events + MoveEvents(db.tasks, next.tasks, MoveItems(places, db.tasks, id, column),
           places.BoardOf(from) != places.BoardOf(column),
           places.ProjectOfColumn(from), places.ProjectOfColumn(column), call.user)
  {}

  lemma MoveAnnounced(places: Places, db: Db, call: Call)
    requires call.op.Move? && Perform(places, db, call).Done?
    ensures var next := After(places, db, call);
      db.events <= next.events && Announced(db, next, call.user, next.events[|db.events|..])
  {
    var id, column := call.op.id, call.op.column;
    MoveKeepsAssignees(places, db, call);
    MoveAdds(places, db, call);
    var next := After(places, db, call);
    var from := db.tasks[id].columnId;
    var items := MoveItems(places, db.tasks, id, column);
    var crossBoard := places.BoardOf(from) != places.BoardOf(column);
    var source, target := places.ProjectOfColumn(from), places.ProjectOfColumn(column);
    MoveEventsReach(db.tasks, next.tasks, items, crossBoard, source, target, call.user);
    var added := next.events[|db.events|..];
    assert added == MoveEvents(db.tasks, next.tasks, items, crossBoard, source, target, call.user);
    forall i | 0 <= i < |added| ensures Reaches(db.tasks, call.user, added[i]) {
      var e := added[i];
      assert e in added;
    }
  }

  lemma UpdateAnnounced(places: Places, db: Db, call: Call)
    requires call.op.Update? && Perform(places, db, call).Done?
    ensures var next := After(places, db, call);
      db.events <= next.events && Announced(db, next, call.user, next.events[|db.events|..])
  {
    var id, dto := call.op.id, call.op.change;
    if Reparents(db.tasks[id], dto) { ReorderFrame(db.tasks, id, dto.parent.value); }
    var next := After(places, db, call);
    var added := next.events[|db.events|..];
    if next.tasks[id] != db.tasks[id] {
      assert added == [Event(id, Updated, places.ProjectOfColumn(db.tasks[id].columnId), call.user,
                             UpdateRecipients(db.tasks[id], next.tasks[id]))];
      assert added[0].task == id;
    }
  }

  lemma CreateAnnounced(places: Places, db: Db, call: Call)
    requires db.nextId !in db.tasks
    requires call.op.Create? || call.op.CreateSubtask?
    requires Perform(places, db, call).Done?
    ensures var next := After(places, db, call);
      db.events <= next.events && Announced(db, next, call.user, next.events[|db.events|..])
  {
    var next := After(places, db, call);
    var added := next.events[|db.events|..];
    assert added[0] == Event(db.nextId, Created, added[0].project, call.user, next.tasks[db.nextId].assignees);
    forall x | x in db.tasks ensures Assigned(db, x) == Assigned(next, x) {}
    if call.op.CreateSubtask? {
      assert added[1].task == call.op.above;
    }
  }

  /**
   In every call the new events reach exactly the assignees before the call together with
   those after it, and no change of assignees goes unannounced.
   */
  lemma StepAnnounced(places: Places, db: Db, call: Call)
    requires db.nextId !in db.tasks
    ensures var next := After(places, db, call);
      db.events <= next.events && Announced(db, next, call.user, next.events[|db.events|..])
  {
    if Perform(places, db, call).Done? {
      match call.op
      case Create(column, dto) => CreateAnnounced(places, db, call);
      case CreateSubtask(above, dto) => CreateAnnounced(places, db, call);
      case Update(id, dto) => UpdateAnnounced(places, db, call);
      case Move(id, column, order) => MoveAnnounced(places, db, call);
      case Delete(id) =>
        var next := After(places, db, call);
        assert next.events[|db.events|..] == [next.events[|db.events|]];
      case Restore(id) =>
        if db.tasks[id].archived {
          var next := After(places, db, call);
          assert next.events[|db.events|..] == [next.events[|db.events|]];
        }
    }
  }

  /** `user` is never assigned to `task`, from `db` to the end of the run. */
  ghost predicate NeverAssigned(places: Places, db: Db, calls: seq<Call>, task: int, user: int)
    decreases |calls|
  {
    && user !in Assigned(db, task)
    && (calls == [] || NeverAssigned(places, After(places, db, calls[0]), calls[1..], task, user))
  }

  /**
   The call that takes a user off a task tells that user; after it, for as long as the user is
   not assigned again, nothing about the task reaches them.
   */
  lemma RemovedAssignee(places: Places, db: Db, call: Call, later: seq<Call>, task: int, user: int)
    requires Sound(db)
    requires user in Assigned(db, task)
    requires NeverAssigned(places, After(places, db, call), later, task, user)
    ensures var mid := After(places, db, call);
      var end := Run(places, mid, later);
      && (exists i :: |db.events| <= i < |mid.events| && mid.events[i].task == task
                      && user in mid.events[i].recipients)
      && mid.events <= end.events
      && (forall i :: |mid.events| <= i < |end.events| && end.events[i].task == task ==>
            user !in end.events[i].recipients)
  {
    var mid := After(places, db, call);
    StepAnnounced(places, db, call);
    StepSound(places, db, call);
    var added := mid.events[|db.events|..];
    assert Assigned(db, task) != Assigned(mid, task);
    var i :| 0 <= i < |added| && added[i].task == task;
    assert mid.events[|db.events| + i] == added[i];
    NothingReaches(places, mid, later, task, user);
  }

  lemma {:induction false} NothingReaches(places: Places, db: Db, calls: seq<Call>, task: int, user: int)
    requires Sound(db) && NeverAssigned(places, db, calls, task, user)
    ensures var end := Run(places, db, calls);
      && db.events <= end.events
      && (forall i :: |db.events| <= i < |end.events| && end.events[i].task == task ==>
            user !in end.events[i].recipients)
    decreases |calls|
  {
    if calls != [] {
      var next := After(places, db, calls[0]);
      StepAnnounced(places, db, calls[0]);
      StepSound(places, db, calls[0]);
      NothingReaches(places, next, calls[1..], task, user);
      var end := Run(places, db, calls);
      assert user !in Assigned(next, task);
      forall i | |db.events| <= i < |end.events| && end.events[i].task == task
        ensures user !in end.events[i].recipients
      {
        if i < |next.events| {
          assert end.events[i] == next.events[|db.events|..][i - |db.events|];
        }
      }
    }
  }
}
