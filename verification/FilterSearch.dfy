/**
 The filtered task list of a column.

 The engine collects candidates level by level, filters them in memory and climbs from each
 match to its root. The result is what a one-line definition says, on any parent links,
 cyclic ones included.
 */
module FilterSearch {
  import opened Wrappers
  import opened SortedListing
  import opened TaskRows
  import opened Hierarchy

  /** Empty lists and absent bounds do not filter. */
  datatype Query = Query(
    includeSubtasks: bool,
    flatSubtasks: bool,
    archivedOnly: bool,
    creators: seq<int>,
    priorities: seq<int>,
    assignees: seq<int>,
    tags: seq<int>,
    startFrom: Option<int>,
    startTo: Option<int>,
    dueFrom: Option<int>,
    dueTo: Option<int>)

  // ---------------------------------------------------------------- meaning

  function FieldOf(task: Task, field: Field): Option<int> {
    if field in task.details then task.details[field] else None
  }

  /** A bounded range asks for a date; bounds are inclusive. */
  predicate InRange(date: Option<int>, from: Option<int>, to: Option<int>) {
    || (from.None? && to.None?)
    || (&& date.Some?
        && (from.Some? ==> from.value <= date.value)
        && (to.Some? ==> date.value <= to.value))
  }

  predicate InPriorities(task: Task, priorities: seq<int>) {
    var p := FieldOf(task, Priority);
    priorities == [] || (p.Some? && p.value in priorities)
  }

  /** The filters that look at the task's own fields, apart from priority. */
  predicate OwnFields(task: Task, query: Query) {
    && (query.creators == [] || task.createdBy in query.creators)
    && InRange(FieldOf(task, StartDate), query.startFrom, query.startTo)
    && InRange(FieldOf(task, DueDate), query.dueFrom, query.dueTo)
  }

  predicate Meets(wanted: seq<int>, given: set<int>) {
    wanted == [] || exists u :: u in wanted && u in given
  }

  /** One task satisfies every filter group by itself. */
  predicate Matches(task: Task, query: Query) {
    && OwnFields(task, query)
    && InPriorities(task, query.priorities)
    && Meets(query.assignees, task.assignees)
    && Meets(query.tags, task.tags)
  }

  /** Rows the column query returns: those of an archived board in full, else archived or active ones. */
  predicate Shown(task: Task, query: Query, archivedBoard: bool) {
    archivedBoard || task.archived == query.archivedOnly
  }

  predicate Listed(tasks: Tasks, column: int, query: Query, archivedBoard: bool, x: int) {
    && x in tasks && Shown(tasks[x], query, archivedBoard) && tasks[x].columnId == column
    && (query.flatSubtasks || tasks[x].parent.None?)
  }

  /** Grouped lists look below the roots; flat lists and lists without subtasks do not. */
  predicate Grouped(query: Query) {
    query.includeSubtasks && !query.flatSubtasks
  }

  /** The one-line definition of the filtered list. */
  ghost predicate Found(tasks: Tasks, column: int, query: Query, archivedBoard: bool, x: int) {
    && Listed(tasks, column, query, archivedBoard, x)
    && if Grouped(query)
       then exists y :: y in tasks && Descends(tasks, false, x, y) && Matches(tasks[y], query)
       else Matches(tasks[x], query)
  }

  // ---------------------------------------------------------------- the meaning spelled out

  /** The date is there and within the bounds, as far as there are any. */
  ghost predicate Within(task: Task, field: Field, from: Option<int>, to: Option<int>) {
    from.Some? || to.Some? ==>
      && field in task.details && task.details[field].Some?
      && (from.Some? ==> task.details[field].value >= from.value)
      && (to.Some? ==> task.details[field].value <= to.value)
  }

  /** Each filter group asks for one of its entries, and an empty one asks for nothing. */
  ghost predicate MeetsAll(task: Task, query: Query) {
    && (query.creators != [] ==> task.createdBy in query.creators)
    && (query.priorities != [] ==>
          Priority in task.details && task.details[Priority].Some?
          && task.details[Priority].value in query.priorities)
    && (query.assignees != [] ==> exists u :: u in query.assignees && u in task.assignees)
    && (query.tags != [] ==> exists t :: t in query.tags && t in task.tags)
    && Within(task, StartDate, query.startFrom, query.startTo)
    && Within(task, DueDate, query.dueFrom, query.dueTo)
  }

  lemma MatchesMeans(task: Task, query: Query)
    ensures Matches(task, query) <==> MeetsAll(task, query)
  {}

  /**
   The filtered list, spelled out: rows of the column, roots unless the list is flat, archived or
   not as asked unless the board is; with subtasks below their roots, some active row below or the
   root itself has to match, else the row itself.
   */
  lemma FoundMeans(tasks: Tasks, column: int, query: Query, archivedBoard: bool, x: int)
    ensures Found(tasks, column, query, archivedBoard, x) <==>
      && x in tasks && tasks[x].columnId == column
      && (!archivedBoard ==> (tasks[x].archived <==> query.archivedOnly))
      && (!query.flatSubtasks ==> tasks[x].parent.None?)
      && (if query.includeSubtasks && !query.flatSubtasks
          then exists y :: y in tasks && Descends(tasks, false, x, y) && MeetsAll(tasks[y], query)
          else MeetsAll(tasks[x], query))
  {
    forall y | y in tasks ensures Matches(tasks[y], query) <==> MeetsAll(tasks[y], query) {
      MatchesMeans(tasks[y], query);
    }
  }

  // ---------------------------------------------------------------- queries

  /** A query without an order: its rows come back in any order, each once. */
  method FindAll(selected: set<int>) returns (rows: seq<int>)
    ensures forall x :: x in rows <==> x in selected
    ensures NoDuplicates(rows)
  {
    rows := [];
    var left := selected;
    while left != {}
      invariant left <= selected
      invariant forall x :: x in rows <==> x in selected && x !in left
      invariant NoDuplicates(rows)
      decreases left
    {
      assert exists x :: x in left by {
        assert (forall x :: x !in left) ==> left == {};
      }
      var x :| x in left;
      assert x !in rows;
      rows := rows + [x];
      left := left - {x};
    }
  }

  // ---------------------------------------------------------------- climbing

  function Link(parents: map<int, Option<int>>, x: int): Option<int> {
    if x in parents then parents[x] else None
  }

  /** `n` links up from `x` is `y`. */
  ghost predicate Climbs(parents: map<int, Option<int>>, x: int, n: nat, y: int)
    decreases n
  {
    if n == 0 then x == y
    else Link(parents, x).Some? && Climbs(parents, Link(parents, x).value, n - 1, y)
  }

  lemma {:induction false} ClimbOneMore(parents: map<int, Option<int>>, x: int, n: nat, y: int)
    requires Climbs(parents, x, n, y) && Link(parents, y).Some?
    ensures Climbs(parents, x, n + 1, Link(parents, y).value)
    decreases n
  {
    if n > 0 { ClimbOneMore(parents, Link(parents, x).value, n - 1, y); }
  }

  /** A set of nodes closed under links, none of them an end, traps every climb that starts in it. */
  lemma {:induction false} Trapped(parents: map<int, Option<int>>, visited: set<int>, x: int, n: nat, y: int)
    requires forall v :: v in visited ==> Link(parents, v).Some? && Link(parents, v).value in visited
    requires x in visited && Climbs(parents, x, n, y)
    ensures y in visited
    decreases n
  {
    if n > 0 { Trapped(parents, visited, Link(parents, x).value, n - 1, y); }
  }

  lemma {:induction false} OneTop(parents: map<int, Option<int>>, x: int, m: nat, y: int, n: nat, z: int)
    requires Climbs(parents, x, m, y) && Link(parents, y).None?
    requires Climbs(parents, x, n, z) && Link(parents, z).None?
    ensures y == z
    decreases n
  {
    if m > 0 && n > 0 { OneTop(parents, Link(parents, x).value, m - 1, y, n - 1, z); }
  }

  ghost predicate IsTop(parents: map<int, Option<int>>, x: int, top: int) {
    Link(parents, top).None? && exists n: nat :: Climbs(parents, x, n, top)
  }

  /**
   Climbs to the top of the parent chain. On a cycle there is no top, and the task itself is
   returned.
   */
  method FindRootTaskId(taskId: int, parents: map<int, Option<int>>) returns (root: int)
    ensures IsTop(parents, taskId, root) || (root == taskId && forall top :: !IsTop(parents, taskId, top))
  {
    var visited: set<int> := {};
    var current := taskId;
    ghost var steps: nat := 0;
    while current !in visited
      invariant Climbs(parents, taskId, steps, current)
      invariant visited <= parents.Keys
      invariant taskId in visited || current == taskId
      invariant forall v :: v in visited ==>
        Link(parents, v).Some? && (Link(parents, v).value in visited || Link(parents, v).value == current)
      decreases parents.Keys - visited
    {
      if Link(parents, current).None? { return current; }
      visited := visited + {current};
      ClimbOneMore(parents, taskId, steps, current);
      current := Link(parents, current).value;
      steps := steps + 1;
    }
    forall top | IsTop(parents, taskId, top) ensures false {
      var n: nat :| Climbs(parents, taskId, n, top);
      Trapped(parents, visited, taskId, n, top);
    }
    return taskId;
  }

  // ---------------------------------------------------------------- candidates

  ghost predicate BelowSome(tasks: Tasks, roots: seq<int>, x: int) {
    exists r :: r in roots && Descends(tasks, false, r, x)
  }

  /** An active row whose parent is among `above`. */
  predicate ChildOf(tasks: Tasks, above: set<int>, c: int) {
    c in tasks && !tasks[c].archived && tasks[c].parent.Some? && tasks[c].parent.value in above
  }

  /** A set that holds the roots and every active child of a member holds everything below the roots. */
  lemma {:induction false} ClosureHolds(tasks: Tasks, held: set<int>, root: int, x: int, n: nat)
    requires root in held && Under(tasks, false, root, x, n)
    requires forall c :: ChildOf(tasks, held, c) ==> c in held
    ensures x in held
    decreases n
  {
    if n > 0 { ClosureHolds(tasks, held, root, tasks[x].parent.value, n - 1); }
  }

  ghost predicate AllBelow(tasks: Tasks, roots: seq<int>, held: set<int>) {
    forall x :: x in held ==> x in tasks && BelowSome(tasks, roots, x)
  }

  lemma RootsAreBelow(tasks: Tasks, roots: seq<int>)
    requires forall r :: r in roots ==> r in tasks
    ensures AllBelow(tasks, roots, set x | x in roots)
  {
    forall r | r in roots ensures BelowSome(tasks, roots, r) {
      assert Under(tasks, false, r, r, 0);
    }
  }

  lemma ChildrenAreBelow(tasks: Tasks, roots: seq<int>, held: set<int>, added: set<int>)
    requires AllBelow(tasks, roots, held)
    requires forall c :: c in added ==> ChildOf(tasks, held, c)
    ensures AllBelow(tasks, roots, held + added)
  {
    forall c | c in added ensures BelowSome(tasks, roots, c) {
      var p := tasks[c].parent.value;
      var r :| r in roots && Descends(tasks, false, r, p);
      DescendsToChildren(tasks, false, r, p, c);
    }
  }

  lemma ClosedIsComplete(tasks: Tasks, roots: seq<int>, held: set<int>, x: int)
    requires forall r :: r in roots ==> r in held
    requires forall c :: ChildOf(tasks, held, c) ==> c in held
    requires BelowSome(tasks, roots, x)
    ensures x in held
  {
    var r :| r in roots && Descends(tasks, false, r, x);
    var n: nat :| Under(tasks, false, r, x, n);
    ClosureHolds(tasks, held, r, x, n);
  }

  /** One query of the collection: active children not seen before. */
  method NewChildren(tasks: Tasks, parentIds: set<int>, visited: set<int>) returns (children: seq<int>)
    ensures forall c :: c in children <==> ChildOf(tasks, parentIds, c) && c !in visited
  {
    children := FindAll(set c | c in tasks && ChildOf(tasks, parentIds, c) && c !in visited);
  }

  /** The layered collection below the roots; the visited set makes it end on any links. */
  method CollectBelow(tasks: Tasks, roots: seq<int>) returns (candidates: seq<int>)
    requires forall r :: r in roots ==> r in tasks
    ensures forall x :: x in candidates <==> BelowSome(tasks, roots, x)
    ensures forall x :: x in candidates ==> x in tasks
  {
    candidates := roots;
    var visited := set x | x in roots;
    var parentIds := visited;
    RootsAreBelow(tasks, roots);
    while parentIds != {}
      invariant forall x :: x in candidates <==> x in visited
      invariant visited <= tasks.Keys && parentIds <= visited
      invariant forall r :: r in roots ==> r in visited
      invariant AllBelow(tasks, roots, visited)
      invariant forall c :: ChildOf(tasks, visited - parentIds, c) ==> c in visited
      decreases tasks.Keys - visited, parentIds
    {
      var newChildren := NewChildren(tasks, parentIds, visited);
      forall c | ChildOf(tasks, visited, c) ensures c in visited || c in newChildren {
        assert ChildOf(tasks, parentIds, c) || ChildOf(tasks, visited - parentIds, c);
      }
      if newChildren == [] { break; }
      parentIds := set c | c in newChildren;
      assert forall c :: c in parentIds ==> c in newChildren && c in tasks.Keys;
      var c := newChildren[0];
      assert c in newChildren && c !in visited;
      assert c in parentIds;
      ChildrenAreBelow(tasks, roots, visited, parentIds);
      candidates := candidates + newChildren;
      visited := visited + parentIds;
    }
    forall x | BelowSome(tasks, roots, x) ensures x in candidates {
      ClosedIsComplete(tasks, roots, visited, x);
    }
  }

  /** Priorities are filtered by the query itself unless subtasks are looked at below their roots. */
  predicate PriorityInQuery(query: Query) {
    (!query.includeSubtasks || query.flatSubtasks) && query.priorities != []
  }

  method FindFilterCandidates(tasks: Tasks, column: int, query: Query, archivedBoard: bool)
    returns (roots: seq<int>, candidates: seq<int>)
    ensures NoDuplicates(roots)
    ensures forall x :: x in roots <==>
      Listed(tasks, column, query, archivedBoard, x)
      && (PriorityInQuery(query) ==> InPriorities(tasks[x], query.priorities))
    ensures forall x :: x in candidates ==> x in tasks
    ensures !Grouped(query) ==> candidates == roots
    ensures Grouped(query) ==> forall x :: x in candidates <==> BelowSome(tasks, roots, x)
  {
    roots := FindAll(set x | x in tasks && Listed(tasks, column, query, archivedBoard, x)
                             && (PriorityInQuery(query) ==> InPriorities(tasks[x], query.priorities)));
    candidates := roots;
    if Grouped(query) && roots != [] {
      candidates := CollectBelow(tasks, roots);
    }
  }

  // ---------------------------------------------------------------- the filtered list

  function Parents(tasks: Tasks, candidates: seq<int>): map<int, Option<int>>
    requires forall x :: x in candidates ==> x in tasks
  {
    map x | x in candidates :: tasks[x].parent
  }

  /** From a candidate, the climb reaches the root it was found under. */
  lemma {:induction false} ClimbsToRoot(tasks: Tasks, roots: seq<int>, candidates: seq<int>, root: int, x: int, n: nat)
    requires forall y :: y in candidates ==> y in tasks
    requires forall y :: y in candidates <==> BelowSome(tasks, roots, y)
    requires root in roots && root in tasks && tasks[root].parent.None?
    requires Under(tasks, false, root, x, n)
    ensures Climbs(Parents(tasks, candidates), x, n, root)
    ensures Link(Parents(tasks, candidates), root).None?
    decreases n
  {
    if n > 0 {
      assert Descends(tasks, false, root, x);
      assert x in candidates;
      ClimbsToRoot(tasks, roots, candidates, root, tasks[x].parent.value, n - 1);
    }
  }

  /** Keeps the matching ids that appear among the ids a join returned. */
  function Intersect(current: set<int>, next: set<int>): set<int> {
    set x | x in current && x in next
  }

  method MatchingTaskIds(tasks: Tasks, query: Query, candidates: seq<int>) returns (matching: set<int>)
    requires forall x :: x in candidates ==> x in tasks
    requires PriorityInQuery(query) ==> forall x :: x in candidates ==> InPriorities(tasks[x], query.priorities)
    ensures forall x :: x in matching <==> x in candidates && Matches(tasks[x], query)
  {
    matching := set x | x in candidates && OwnFields(tasks[x], query)
                        && (query.includeSubtasks ==> InPriorities(tasks[x], query.priorities));
    if query.assignees != [] && matching != {} {
      var withAssignee := set x | x in matching && Meets(query.assignees, tasks[x].assignees);
      matching := Intersect(matching, withAssignee);
    }
    if query.tags != [] && matching != {} {
      var withTag := set x | x in matching && Meets(query.tags, tasks[x].tags);
      matching := Intersect(matching, withTag);
    }
  }

  /**
   The ids the list keeps. Grouped: exactly the roots of the column with some descendant or
   self, in any column, that satisfies every filter group by itself. Flat or without
   subtasks: exactly the matching rows.
   */
  method FindFilteredRootTaskIds(tasks: Tasks, column: int, query: Query, archivedBoard: bool)
    returns (found: seq<int>)
    ensures NoDuplicates(found)
    ensures forall x :: x in found <==> Found(tasks, column, query, archivedBoard, x)
  {
    var roots, candidates := FindFilterCandidates(tasks, column, query, archivedBoard);
    var parents := Parents(tasks, candidates);
    var matching := MatchingTaskIds(tasks, query, candidates);
    var ids := FindAll(matching);
    if query.flatSubtasks { return ids; }

    found := [];
    var i := 0;
    while i < |ids|
      invariant 0 <= i <= |ids|
      invariant NoDuplicates(found)
      invariant forall r :: r in found <==> exists j :: 0 <= j < i && IsTop(parents, ids[j], r)
    {
      assert ids[i] in ids;
      ghost var top := TopOfCandidate(tasks, query, roots, candidates, ids[i]);
      var root := FindRootTaskId(ids[i], parents);
      assert IsTop(parents, ids[i], root);
      forall r | IsTop(parents, ids[i], r) ensures r == root { SameTop(parents, ids[i], r, root); }
      if root !in found { found := found + [root]; }
      i := i + 1;
    }
    forall x | x in found ensures Found(tasks, column, query, archivedBoard, x) {
      var j :| 0 <= j < |ids| && IsTop(parents, ids[j], x);
      assert ids[j] in ids;
      var top := TopOfCandidate(tasks, query, roots, candidates, ids[j]);
      SameTop(parents, ids[j], x, top);
    }
    forall x | Found(tasks, column, query, archivedBoard, x) ensures x in found {
      var y := x;
      if Grouped(query) {
        y :| y in tasks && Descends(tasks, false, x, y) && Matches(tasks[y], query);
        var n: nat :| Under(tasks, false, x, y, n);
        assert x in roots;
        ClimbsToRoot(tasks, roots, candidates, x, y, n);
      } else {
        assert Climbs(parents, x, 0, x);
      }
      assert y in ids;
      assert exists j :: 0 <= j < |ids| && IsTop(parents, ids[j], x);
    }
  }

  lemma SameTop(parents: map<int, Option<int>>, x: int, y: int, z: int)
    requires IsTop(parents, x, y) && IsTop(parents, x, z)
    ensures y == z
  {
    var m: nat :| Climbs(parents, x, m, y);
    var n: nat :| Climbs(parents, x, n, z);
    OneTop(parents, x, m, y, n, z);
  }

  /** The root a candidate was found under is the top of its climb. */
  lemma TopOfCandidate(tasks: Tasks, query: Query, roots: seq<int>, candidates: seq<int>, x: int)
    returns (top: int)
    requires forall y :: y in candidates ==> y in tasks
    requires forall r :: r in roots ==> r in tasks && tasks[r].parent.None?
    requires !Grouped(query) ==> candidates == roots
    requires Grouped(query) ==> forall y :: y in candidates <==> BelowSome(tasks, roots, y)
    requires x in candidates
    ensures top in roots && Descends(tasks, false, top, x)
    ensures IsTop(Parents(tasks, candidates), x, top)
    ensures !Grouped(query) ==> top == x
  {
    if Grouped(query) {
      top :| top in roots && Descends(tasks, false, top, x);
      var n: nat :| Under(tasks, false, top, x, n);
      ClimbsToRoot(tasks, roots, candidates, top, x, n);
    } else {
      top := x;
      assert Under(tasks, false, x, x, 0);
      assert Climbs(Parents(tasks, candidates), x, 0, x);
    }
  }
}
