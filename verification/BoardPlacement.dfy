/**
 Which runs keep active children on their parent's board, and which keep task numbers distinct
 within a project. Restores are included: one may revive a child that a move left behind, and a
 later call may carry that child into another project with the number it has.
 */
module BoardPlacement {
  import opened TaskRows
  import opened Hierarchy
  import opened BoardSpec
  import opened Invariants
  import opened BoardTree
  import opened BoardNumbers
  import opened BoardArchive

  // ---------------------------------------------------------------- boards

  /** The rows a call brings back from the archive. */
  function Revived(places: Places, db: Db, call: Call): seq<int> {
    if call.op.Restore? && Perform(places, db, call).Done? && call.op.id in db.tasks && db.tasks[call.op.id].archived
    then HierarchyOf(db.tasks, true, call.op.id)
    else []
  }

  /** Every row the call revives is on its parent's board already. */
  predicate RevivedFit(places: Places, db: Db, call: Call) {
    forall x :: x in Revived(places, db, call) && x in db.tasks ==> OnParentsBoard(places, db.tasks, x)
  }

  lemma RestorePlacedIff(places: Places, db: Db, call: Call)
    requires Placed(places, db) && call.op.Restore?
    ensures Placed(places, After(places, db, call)) <==> RevivedFit(places, db, call)
  {
    var id := call.op.id;
    StepSound(places, db, call);
    if Perform(places, db, call).Done? && db.tasks[id].archived {
      RestoreKeepsBoardsIff(places, call.site, db, id, call.user);
      SameProjectsUnique(places, db.tasks, After(places, db, call).tasks);
    }
  }

  lemma StepPlacedIff(places: Places, db: Db, call: Call)
    requires Placed(places, db)
    ensures Placed(places, After(places, db, call)) <==> RevivedFit(places, db, call)
  {
    if call.op.Restore? { RestorePlacedIff(places, db, call); } else { StepPlaced(places, db, call); }
  }

  lemma PlacedAtStep(places: Places, db: Db, calls: seq<Call>, k: nat)
    requires k < |calls| && Placed(places, Run(places, db, calls[..k]))
    ensures Placed(places, Run(places, db, calls[..k + 1]))
      <==> RevivedFit(places, Run(places, db, calls[..k]), calls[k])
  {
    StepPlacedIff(places, Run(places, db, calls[..k]), calls[k]);
    RunOneMore(places, db, calls, k);
  }

  /**
   In every run, restores included: active children stay on their parent's board and task
   numbers stay distinct, archived tasks included, for as long as each restore revives only
   rows that are on their parent's board; the first restore that does not breaks it.
   */
  lemma RunPlaced(places: Places, db: Db, calls: seq<Call>)
    requires Placed(places, db)
    ensures (forall k :: 0 <= k <= |calls| ==> Placed(places, Run(places, db, calls[..k])))
      <==> (forall k :: 0 <= k < |calls| ==> RevivedFit(places, Run(places, db, calls[..k]), calls[k]))
  {
    var n := |calls|;
    var good := seq(n + 1, k requires 0 <= k <= n => Placed(places, Run(places, db, calls[..k])));
    var harmless := seq(n, k requires 0 <= k < n => RevivedFit(places, Run(places, db, calls[..k]), calls[k]));
    RunNothing(places, db, calls);
    forall k | 0 <= k < n && good[k] ensures good[k + 1] <==> harmless[k] {
      PlacedAtStep(places, db, calls, k);
    }
    GoodWhileHarmless(good, harmless);
    assert forall k :: 0 <= k <= n ==> good[k] == Placed(places, Run(places, db, calls[..k]));
    assert forall k :: 0 <= k < n ==> harmless[k] == RevivedFit(places, Run(places, db, calls[..k]), calls[k]);
  }

  /** Create, createSubtask, update, move and delete never break it. */
  lemma RunWithoutRestore(places: Places, db: Db, calls: seq<Call>)
    requires Placed(places, db)
    requires forall i :: 0 <= i < |calls| ==> !calls[i].op.Restore?
    ensures Placed(places, Run(places, db, calls))
  {
    RunPlaced(places, db, calls);
    assert calls[..|calls|] == calls;
  }

  // ---------------------------------------------------------------- numbers

  /** The rows a call takes into a column with the numbers they have. */
  function Carried(places: Places, db: Db, op: Op): seq<int> {
    match op
    case Update(id, dto) =>
      if id in db.tasks && Reparents(db.tasks[id], dto) && dto.parent.value.None? then [id] else []
    case Move(id, column, _) =>
      if id in db.tasks && places.ProjectOfColumn(db.tasks[id].columnId) == places.ProjectOfColumn(column)
      then MoveItems(places, db.tasks, id, column) else []
    case _ => []
  }

  /** The project they are taken to. */
  function CarriedTo(places: Places, db: Db, op: Op): int {
    match op
    case Update(id, _) =>
      if id in db.tasks && db.tasks[id].parent.Some? && db.tasks[id].parent.value in db.tasks
      then places.ProjectOfColumn(db.tasks[db.tasks[id].parent.value].columnId) else 0
    case Move(_, column, _) => places.ProjectOfColumn(column)
    case _ => 0
  }

  /** No row that comes from another project has a number that is in use in `target` or comes along. */
  predicate NumbersFit(places: Places, tasks: Tasks, rows: seq<int>, target: int) {
    forall x, y ::
      (x in rows && x in tasks && places.ProjectOfColumn(tasks[x].columnId) != target
       && y in tasks && y != x && (y in rows || places.ProjectOfColumn(tasks[y].columnId) == target)) ==>
      tasks[x].number != tasks[y].number
  }

  lemma CarryIff(places: Places, tasks: Tasks, result: Tasks, rows: seq<int>, target: int)
    requires UniqueNumbers(places, tasks) && result.Keys == tasks.Keys
    requires forall x :: x in tasks ==> result[x].number == tasks[x].number
    requires forall x :: x in tasks ==>
      places.ProjectOfColumn(result[x].columnId)
        == if x in rows then target else places.ProjectOfColumn(tasks[x].columnId)
    ensures UniqueNumbers(places, result) <==> NumbersFit(places, tasks, rows, target)
  {
    if UniqueNumbers(places, result) {
      forall x, y |
        x in rows && x in tasks && places.ProjectOfColumn(tasks[x].columnId) != target
        && y in tasks && y != x && (y in rows || places.ProjectOfColumn(tasks[y].columnId) == target)
        ensures tasks[x].number != tasks[y].number
      {
        assert result[x].number != result[y].number;
      }
    }
    if NumbersFit(places, tasks, rows, target) {
      forall x, y |
        x in result && y in result && x != y
        && places.ProjectOfColumn(result[x].columnId) == places.ProjectOfColumn(result[y].columnId)
        ensures result[x].number != result[y].number
      {
        if places.ProjectOfColumn(tasks[x].columnId) != places.ProjectOfColumn(tasks[y].columnId) {
          assert x in rows || y in rows;
        }
      }
    }
  }

  /** An update that detaches takes the task to its parent's project; no other update leaves its project. */
  lemma UpdateNumbersIff(places: Places, site: Site, db: Db, id: int, dto: UpdateDto, user: int)
    requires Sound(db) && UniqueNumbers(places, db.tasks) && PerformUpdate(places, site, db, id, dto, user).Done?
    ensures UniqueNumbers(places, PerformUpdate(places, site, db, id, dto, user).db.tasks)
      <==> NumbersFit(places, db.tasks, Carried(places, db, Update(id, dto)), CarriedTo(places, db, Update(id, dto)))
  {
    var tasks, op := db.tasks, Update(id, dto);
    var result := PerformUpdate(places, site, db, id, dto, user).db.tasks;
    if Reparents(tasks[id], dto) {
      var parent := dto.parent.value;
      UpdatedColumns(tasks, id, dto, result);
      if parent.None? { ParentsPresent(tasks, id); }
    }
    CarryIff(places, tasks, result, Carried(places, db, op), CarriedTo(places, db, op));
  }

  lemma UpdatedColumns(tasks: Tasks, id: int, dto: UpdateDto, result: Tasks)
    requires Forest(tasks) && id in tasks && Reparents(tasks[id], dto)
    requires var rows := Reorder(tasks, id, dto.parent.value); result == rows[id := Patch(rows[id], dto)]
    ensures result.Keys == tasks.Keys && forall x :: x in tasks ==> result[x].number == tasks[x].number
    ensures forall x :: x in tasks && x != id ==> result[x].columnId == tasks[x].columnId
    ensures dto.parent.value.Some? ==> result[id].columnId == tasks[id].columnId
    ensures dto.parent.value.None? ==>
      tasks[id].parent.value in tasks && result[id].columnId == tasks[tasks[id].parent.value].columnId
  {
    ReorderFrame(tasks, id, dto.parent.value);
    forall x | x in tasks && x != id
      ensures result[x].number == tasks[x].number && result[x].columnId == tasks[x].columnId
    {
      assert result[x].(order := tasks[x].order) == tasks[x];
    }
    if dto.parent.value.None? { ParentsPresent(tasks, id); }
  }

  lemma WithinProjectIff(places: Places, tasks: Tasks, id: int, column: int, order: int)
    requires UniqueNumbers(places, tasks) && id in tasks
    ensures UniqueNumbers(places, MovedRows(places, tasks, id, column, order))
      <==> NumbersFit(places, tasks, MoveItems(places, tasks, id, column), places.ProjectOfColumn(column))
  {
    var moved := MovedRows(places, tasks, id, column, order);
    MovedRowsFrame(places, tasks, id, column, order);
    MovedRowsNumbers(places, tasks, id, column, order);
    CarryIff(places, tasks, moved, MoveItems(places, tasks, id, column), places.ProjectOfColumn(column));
  }

  lemma AcrossProjectsUnique(places: Places, db: Db, id: int, column: int, order: int)
    requires Sound(db) && UniqueNumbers(places, db.tasks) && ActiveTask(db.tasks, id)
    requires places.ProjectOfColumn(db.tasks[id].columnId) != places.ProjectOfColumn(column)
    requires db.tasks[id].parent.None?
    ensures UniqueNumbers(places, AfterMove(places, db, id, column, order))
  {
    NumberedMoveIsUnique(places, db, db.tasks, id, column, order);
  }

  /** A move checked to be allowed is of an active task, which is a root if it crosses boards. */
  lemma MovedTask(places: Places, site: Site, db: Db, id: int, column: int, user: int)
    requires MoveCheck(places, site, db, id, column, user).Pass?
    ensures ActiveTask(db.tasks, id)
    ensures places.ProjectOfColumn(db.tasks[id].columnId) != places.ProjectOfColumn(column) ==>
      db.tasks[id].parent.None?
  {}

  lemma WithinProjectRows(places: Places, db: Db, id: int, column: int, order: int)
    requires id in db.tasks
    requires places.ProjectOfColumn(db.tasks[id].columnId) == places.ProjectOfColumn(column)
    ensures AfterMove(places, db, id, column, order) == MovedRows(places, db.tasks, id, column, order)
    ensures Carried(places, db, Move(id, column, order)) == MoveItems(places, db.tasks, id, column)
  {}

  lemma NothingCarried(places: Places, tasks: Tasks, target: int)
    ensures NumbersFit(places, tasks, [], target)
  {}

  /** A move within a project takes its rows along as they are; one between projects numbers them. */
  lemma MoveNumbersIff(places: Places, db: Db, id: int, column: int, order: int)
    requires Sound(db) && UniqueNumbers(places, db.tasks) && ActiveTask(db.tasks, id)
    requires places.ProjectOfColumn(db.tasks[id].columnId) != places.ProjectOfColumn(column) ==>
      db.tasks[id].parent.None?
    ensures UniqueNumbers(places, AfterMove(places, db, id, column, order))
      <==> NumbersFit(places, db.tasks, Carried(places, db, Move(id, column, order)), places.ProjectOfColumn(column))
  {
    if places.ProjectOfColumn(db.tasks[id].columnId) != places.ProjectOfColumn(column) {
      AcrossProjectsUnique(places, db, id, column, order);
      NothingCarried(places, db.tasks, places.ProjectOfColumn(column));
    } else {
      WithinProjectRows(places, db, id, column, order);
      WithinProjectIff(places, db.tasks, id, column, order);
    }
  }

  /**
   A call keeps task numbers distinct if and only if no row that it carries in from another
   project without renumbering has a number in use there.
   */
  lemma StepNumbersIff(places: Places, db: Db, call: Call)
    requires Sound(db) && UniqueNumbers(places, db.tasks) && Perform(places, db, call).Done?
    ensures UniqueNumbers(places, After(places, db, call).tasks)
      <==> NumbersFit(places, db.tasks, Carried(places, db, call.op), CarriedTo(places, db, call.op))
  {
    match call.op
    case Create(column, dto) => CreateUnique(places, call.site, db, column, dto, call.user);
    case CreateSubtask(above, dto) =>
      AddRowUnique(places, db.counters, db.tasks, db.nextId, After(places, db, call).tasks[db.nextId]);
    case Update(id, dto) => UpdateNumbersIff(places, call.site, db, id, dto, call.user);
    case Move(id, column, order) =>
      MovedTask(places, call.site, db, id, column, call.user);
      MoveNumbersIff(places, db, id, column, order);
    case Delete(_) => SameProjectsUnique(places, db.tasks, After(places, db, call).tasks);
    case Restore(_) => SameProjectsUnique(places, db.tasks, After(places, db, call).tasks);
  }

  /** A refused call carries nothing. */
  predicate CallFits(places: Places, db: Db, call: Call) {
    Perform(places, db, call).Done? ==>
      NumbersFit(places, db.tasks, Carried(places, db, call.op), CarriedTo(places, db, call.op))
  }

  lemma NumbersAtStep(places: Places, db: Db, calls: seq<Call>, k: nat)
    requires Sound(db) && k < |calls| && UniqueNumbers(places, Run(places, db, calls[..k]).tasks)
    ensures UniqueNumbers(places, Run(places, db, calls[..k + 1]).tasks)
      <==> CallFits(places, Run(places, db, calls[..k]), calls[k])
  {
    var now := Run(places, db, calls[..k]);
    RunSound(places, db, calls[..k]);
    RunOneMore(places, db, calls, k);
    if Perform(places, now, calls[k]).Done? { StepNumbersIff(places, now, calls[k]); }
  }

  /**
   In every run, restores included, task numbers stay distinct for as long as no call carries
   in a number that is in use; the first that does breaks it.
   */
  lemma RunNumbers(places: Places, db: Db, calls: seq<Call>)
    requires Sound(db) && UniqueNumbers(places, db.tasks)
    ensures (forall k :: 0 <= k <= |calls| ==> UniqueNumbers(places, Run(places, db, calls[..k]).tasks))
      <==> (forall k :: 0 <= k < |calls| ==> CallFits(places, Run(places, db, calls[..k]), calls[k]))
  {
    var n := |calls|;
    var good := seq(n + 1, k requires 0 <= k <= n => UniqueNumbers(places, Run(places, db, calls[..k]).tasks));
    var harmless := seq(n, k requires 0 <= k < n => CallFits(places, Run(places, db, calls[..k]), calls[k]));
    RunNothing(places, db, calls);
    forall k | 0 <= k < n && good[k] ensures good[k + 1] <==> harmless[k] {
      NumbersAtStep(places, db, calls, k);
    }
    GoodWhileHarmless(good, harmless);
    assert forall k :: 0 <= k <= n ==> good[k] == UniqueNumbers(places, Run(places, db, calls[..k]).tasks);
    assert forall k :: 0 <= k < n ==> harmless[k] == CallFits(places, Run(places, db, calls[..k]), calls[k]);
  }
}
