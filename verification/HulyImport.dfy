/**
 The board import: top-level tasks first, then rounds over the pending subtasks until a round
 creates nothing. Each round walks the pending list backwards and splices out what it handled.
 */
module HulyImport {
  import opened Wrappers
  import opened SortedListing

  /** Source ids are only ever compared. */
  type SourceId = int

  datatype SourceTask = SourceTask(id: SourceId, statusId: SourceId, parentId: Option<SourceId>)

  datatype Summary = Summary(
    topLevelCreated: nat,
    subtasksCreated: nat,
    skippedSubtasks: nat,
    failures: nat)

  /** The import gives every source task its own id, and every column its own. */
  ghost predicate DistinctTasks(tasks: seq<SourceTask>) {
    forall i, j :: 0 <= i < j < |tasks| ==> tasks[i].id != tasks[j].id
  }

  /** Source tasks whose creation the database refuses; nobody in a dry run. */
  type Failures = set<SourceId>

  function TopLevel(tasks: seq<SourceTask>, statusId: SourceId): seq<SourceTask> {
    if tasks == [] then []
    else if tasks[0].statusId == statusId && tasks[0].parentId.None? then [tasks[0]] + TopLevel(tasks[1..], statusId)
    else TopLevel(tasks[1..], statusId)
  }

  function Subtasks(tasks: seq<SourceTask>): seq<SourceTask> {
    if tasks == [] then []
    else if tasks[0].parentId.Some? then [tasks[0]] + Subtasks(tasks[1..])
    else Subtasks(tasks[1..])
  }

  // ---------------------------------------------------------------- which tasks can be imported

  /** The chain of parents of `id` reaches a top-level task of a known column in `n` links, without failures. */
  ghost predicate ReachesTop(tasks: seq<SourceTask>, columns: seq<SourceId>, failing: Failures, id: SourceId, n: nat)
    decreases n
  {
    exists i :: 0 <= i < |tasks| && tasks[i].id == id && id !in failing &&
      if n == 0 then tasks[i].parentId.None? && tasks[i].statusId in columns
      else tasks[i].parentId.Some? && ReachesTop(tasks, columns, failing, tasks[i].parentId.value, n - 1)
  }

  ghost predicate Importable(tasks: seq<SourceTask>, columns: seq<SourceId>, failing: Failures, id: SourceId) {
    exists n: nat :: ReachesTop(tasks, columns, failing, id, n)
  }

  lemma SubtasksHold(tasks: seq<SourceTask>, t: SourceTask)
    ensures t in Subtasks(tasks) <==> t in tasks && t.parentId.Some?
  {}

  lemma TopLevelHold(tasks: seq<SourceTask>, statusId: SourceId, t: SourceTask)
    ensures t in TopLevel(tasks, statusId) <==> t in tasks && t.parentId.None? && t.statusId == statusId
  {}

  /** Filtering keeps ids apart. */
  lemma {:induction false} FilterIsDistinct(tasks: seq<SourceTask>, statusId: SourceId)
    requires DistinctTasks(tasks)
    ensures DistinctTasks(Subtasks(tasks)) && DistinctTasks(TopLevel(tasks, statusId))
    decreases |tasks|
  {
    if tasks != [] {
      FilterIsDistinct(tasks[1..], statusId);
      forall t | t in tasks[1..] ensures t.id != tasks[0].id {
        var i :| 0 <= i < |tasks[1..]| && tasks[1..][i] == t;
        assert tasks[i + 1] == t;
      }
      forall t | t in Subtasks(tasks[1..]) ensures t in tasks[1..] { SubtasksHold(tasks[1..], t); }
      forall t | t in TopLevel(tasks[1..], statusId) ensures t in tasks[1..] { TopLevelHold(tasks[1..], statusId, t); }
      PrependDistinct(tasks[0], Subtasks(tasks[1..]));
      PrependDistinct(tasks[0], TopLevel(tasks[1..], statusId));
    }
  }

  lemma PrependDistinct(t: SourceTask, rest: seq<SourceTask>)
    requires DistinctTasks(rest)
    requires forall u :: u in rest ==> u.id != t.id
    ensures DistinctTasks([t] + rest)
  {
    var s := [t] + rest;
    forall i, j | 0 <= i < j < |s| ensures s[i].id != s[j].id {
      assert s[j] == rest[j - 1] && rest[j - 1] in rest;
      if i > 0 { assert s[i] == rest[i - 1]; }
    }
  }

  // ---------------------------------------------------------------- sets of ids

  function Ids(tasks: seq<SourceTask>): set<SourceId> {
    if tasks == [] then {} else {tasks[0].id} + Ids(tasks[1..])
  }

  lemma {:induction false} IdsHold(tasks: seq<SourceTask>, id: SourceId)
    ensures id in Ids(tasks) <==> exists t :: t in tasks && t.id == id
    decreases |tasks|
  {
    if tasks != [] {
      IdsHold(tasks[1..], id);
      assert forall t :: t in tasks <==> t == tasks[0] || t in tasks[1..];
    }
  }

  lemma {:induction false} IdsCount(tasks: seq<SourceTask>)
    requires DistinctTasks(tasks)
    ensures |Ids(tasks)| == |tasks|
    decreases |tasks|
  {
    if tasks != [] {
      IdsCount(tasks[1..]);
      IdsHold(tasks[1..], tasks[0].id);
      forall t | t in tasks[1..] ensures t.id != tasks[0].id {
        var i :| 0 <= i < |tasks[1..]| && tasks[1..][i] == t;
        assert tasks[i + 1] == t;
      }
    }
  }

  lemma SameTask(tasks: seq<SourceTask>, t: SourceTask, u: SourceTask)
    requires DistinctTasks(tasks) && t in tasks && u in tasks && t.id == u.id
    ensures t == u
  {
    var i :| 0 <= i < |tasks| && tasks[i] == t;
    var j :| 0 <= j < |tasks| && tasks[j] == u;
  }

  /** The ids an import must create. */
  ghost function ImportableIds(tasks: seq<SourceTask>, columns: seq<SourceId>, failing: Failures): set<SourceId> {
    set t | t in tasks && Importable(tasks, columns, failing, t.id) :: t.id
  }

  function TopIds(tasks: seq<SourceTask>, columns: seq<SourceId>): set<SourceId> {
    set t | t in tasks && t.parentId.None? && t.statusId in columns :: t.id
  }

  /** The subtasks left over: those whose parent is not imported. */
  ghost function OrphanIds(tasks: seq<SourceTask>, columns: seq<SourceId>, failing: Failures): set<SourceId> {
    set t | t in tasks && t.parentId.Some? && !Importable(tasks, columns, failing, t.parentId.value) :: t.id
  }

  function TopTotal(tasks: seq<SourceTask>, columns: seq<SourceId>): nat {
    if columns == [] then 0
    else TopTotal(tasks, columns[..|columns| - 1]) + |TopLevel(tasks, columns[|columns| - 1])|
  }

  /** The report of an import, from the source alone. */
  ghost function Report(tasks: seq<SourceTask>, columns: seq<SourceId>, failing: Failures): Summary {
    var top := |TopIds(tasks, columns) - failing|;
    var all := |ImportableIds(tasks, columns, failing)|;
    var orphans := |OrphanIds(tasks, columns, failing)|;
    Summary(top,
            if all >= top then all - top else 0,
            orphans,
            if TopTotal(tasks, columns) + |Subtasks(tasks)| >= all + orphans
            then TopTotal(tasks, columns) + |Subtasks(tasks)| - all - orphans else 0)
  }

  lemma {:induction false} ReachesIsInTasks(tasks: seq<SourceTask>, columns: seq<SourceId>, failing: Failures,
                                            id: SourceId, n: nat)
    requires ReachesTop(tasks, columns, failing, id, n)
    ensures id in Ids(tasks) && id !in failing
  {
    var i :| 0 <= i < |tasks| && tasks[i].id == id && id !in failing &&
      if n == 0 then tasks[i].parentId.None? && tasks[i].statusId in columns
      else tasks[i].parentId.Some? && ReachesTop(tasks, columns, failing, tasks[i].parentId.value, n - 1);
    assert tasks[i] in tasks;
    IdsHold(tasks, id);
  }

  lemma TopIsImportable(tasks: seq<SourceTask>, columns: seq<SourceId>, failing: Failures, t: SourceTask)
    requires t in tasks && t.parentId.None? && t.statusId in columns && t.id !in failing
    ensures Importable(tasks, columns, failing, t.id)
  {
    var i :| 0 <= i < |tasks| && tasks[i] == t;
    assert ReachesTop(tasks, columns, failing, t.id, 0);
  }

  lemma ChildIsImportable(tasks: seq<SourceTask>, columns: seq<SourceId>, failing: Failures, t: SourceTask)
    requires t in tasks && t.parentId.Some? && t.id !in failing
    requires Importable(tasks, columns, failing, t.parentId.value)
    ensures Importable(tasks, columns, failing, t.id)
  {
    var n: nat :| ReachesTop(tasks, columns, failing, t.parentId.value, n);
    var i :| 0 <= i < |tasks| && tasks[i] == t;
    assert ReachesTop(tasks, columns, failing, t.id, n + 1);
  }

  // ---------------------------------------------------------------- the two phases, on sets of ids

  /** After the fixpoint nothing importable is missing. */
  lemma {:induction false} FixpointIsComplete(tasks: seq<SourceTask>, columns: seq<SourceId>, failing: Failures,
                                              created: set<SourceId>, pending: seq<SourceTask>, id: SourceId, n: nat)
    requires DistinctTasks(tasks)
    requires forall x :: x in TopIds(tasks, columns) - failing ==> x in created
    requires forall t :: t in Subtasks(tasks) && t !in pending ==> t.id in created || t.id in failing
    requires forall t :: t in pending ==> t.parentId.Some? && t.parentId.value !in created
    requires ReachesTop(tasks, columns, failing, id, n)
    ensures id in created
    decreases n
  {
    var i :| 0 <= i < |tasks| && tasks[i].id == id && id !in failing &&
      if n == 0 then tasks[i].parentId.None? && tasks[i].statusId in columns
      else tasks[i].parentId.Some? && ReachesTop(tasks, columns, failing, tasks[i].parentId.value, n - 1);
    var t := tasks[i];
    assert t in tasks;
    if n == 0 {
      assert id in TopIds(tasks, columns);
    } else {
      FixpointIsComplete(tasks, columns, failing, created, pending, t.parentId.value, n - 1);
      SubtasksHold(tasks, t);
    }
  }

  /** The id of the task created when `n` is next; a dry run counts down below zero. */
  function IdFor(n: int, dryRun: bool): int {
    if dryRun then -n - 1 else n
  }

  function MadeAt(id: int, dryRun: bool): int {
    if dryRun then -id - 1 else id
  }

  ghost predicate HasId(ids: map<SourceId, int>, id: int) {
    exists x :: x in ids && ids[x] == id
  }

  /** The created tasks have the ids from `first` up to `next`, each its own. */
  ghost predicate NumberedFrom(ids: map<SourceId, int>, first: int, next: int, dryRun: bool) {
    && |ids| == next - first
    && (forall x, y :: x in ids && y in ids && x != y ==> ids[x] != ids[y])
    && (forall id :: HasId(ids, id) <==> first <= MadeAt(id, dryRun) < next)
  }

  lemma NumberedOneMore(ids: map<SourceId, int>, first: int, next: int, dryRun: bool, id: SourceId)
    requires NumberedFrom(ids, first, next, dryRun) && id !in ids
    ensures NumberedFrom(ids[id := IdFor(next, dryRun)], first, next + 1, dryRun)
  {
    var more := ids[id := IdFor(next, dryRun)];
    assert first <= next;
    forall x | x in ids ensures ids[x] != IdFor(next, dryRun) {
      assert HasId(ids, ids[x]);
    }
    forall v ensures HasId(more, v) <==> first <= MadeAt(v, dryRun) < next + 1 {
      if HasId(ids, v) {
        var x :| x in ids && ids[x] == v;
        assert x in more && more[x] == v;
      } else if v == IdFor(next, dryRun) {
        assert id in more && more[id] == v;
      }
    }
  }

  /** From `index` on, of two created tasks of the list the later one was created first. */
  ghost predicate MadeFromTheEnd(list: seq<SourceTask>, ids: map<SourceId, int>, index: nat, dryRun: bool) {
    forall i, j :: index <= i < j < |list| && list[i].id in ids && list[j].id in ids ==>
      MadeAt(ids[list[i].id], dryRun) > MadeAt(ids[list[j].id], dryRun)
  }

  lemma OneMoreFromTheEnd(list: seq<SourceTask>, before: map<SourceId, int>, after: map<SourceId, int>, index: nat,
                          first: int, next: int, dryRun: bool)
    requires index < |list| && DistinctTasks(list) && MadeFromTheEnd(list, before, index + 1, dryRun)
    requires NumberedFrom(before, first, next, dryRun) && list[index].id !in before
    requires after == before || after == before[list[index].id := IdFor(next, dryRun)]
    ensures MadeFromTheEnd(list, after, index, dryRun)
  {
    forall j | index < j < |list| && list[j].id in before
      ensures MadeAt(before[list[j].id], dryRun) < next
    {
      assert HasId(before, before[list[j].id]);
    }
  }

  /** `count` top-level tasks with the ids `handled` were tried: created if possible, else counted as failed. */
  ghost predicate TopProgress(keys: set<SourceId>, was: Summary, keys': set<SourceId>, now: Summary,
                              handled: set<SourceId>, count: nat, failing: Failures) {
    && keys' == keys + (handled - failing)
    && now == was.(topLevelCreated := now.topLevelCreated, failures := now.failures)
    && now.topLevelCreated - was.topLevelCreated == |keys'| - |keys|
    && now.topLevelCreated + now.failures == was.topLevelCreated + was.failures + count
  }

  lemma TopProgressAdds(keys: set<SourceId>, was: Summary, keys': set<SourceId>, mid: Summary,
                        keys'': set<SourceId>, now: Summary,
                        handled: set<SourceId>, count: nat, more: set<SourceId>, extra: nat, failing: Failures)
    requires TopProgress(keys, was, keys', mid, handled, count, failing)
    requires TopProgress(keys', mid, keys'', now, more, extra, failing)
    ensures TopProgress(keys, was, keys'', now, handled + more, count + extra, failing)
  {}

  // ---------------------------------------------------------------- the runner

  class ImportRunner {
    /** New ids of the created tasks, by source id. */
    var createdIds: map<SourceId, int>
    var nextId: int
    /** Rows written to the task table. */
    var written: nat
    var summary: Summary
    const dryRun: bool
    const firstId: int

    /** The ids handed out are exactly the next ones, each to one task; outside a dry run each is a row. */
    ghost predicate Numbered()
      reads this
    {
      && NumberedFrom(createdIds, firstId, nextId, dryRun)
      && written == if dryRun then 0 else |createdIds|
    }

    constructor (nextId: int, dryRun: bool)
      ensures createdIds == map[] && summary == Summary(0, 0, 0, 0) && Numbered()
      ensures this.nextId == firstId == nextId && this.dryRun == dryRun
    {
      this.dryRun, this.firstId := dryRun, nextId;
      this.createdIds, this.nextId, this.written, this.summary := map[], nextId, 0, Summary(0, 0, 0, 0);
    }

    /** Creates one task, or fails. A dry run only hands out a temporary id. */
    method CreateTask(id: SourceId, failing: Failures) returns (created: bool)
      requires id !in createdIds && (dryRun ==> failing == {}) && Numbered()
      modifies this`createdIds, this`nextId, this`written
      ensures Numbered() && (created <==> id !in failing)
      ensures createdIds == if created then old(createdIds)[id := IdFor(old(nextId), dryRun)] else old(createdIds)
      ensures createdIds.Keys == old(createdIds.Keys) + ({id} - failing)
      ensures |createdIds| == |old(createdIds)| + (if created then 1 else 0)
    {
      if id in failing { return false; }
      ghost var before := createdIds;
      createdIds := createdIds[id := if dryRun then -nextId - 1 else nextId];
      NumberedOneMore(before, firstId, nextId, dryRun, id);
      nextId := nextId + 1;
      if !dryRun { written := written + 1; }
      return true;
    }

    method CreateTopLevelTask(t: SourceTask, failing: Failures)
      requires t.id !in createdIds && (dryRun ==> failing == {}) && Numbered()
      modifies this
      ensures Numbered()
      ensures createdIds ==
        if t.id in failing then old(createdIds) else old(createdIds)[t.id := IdFor(old(nextId), dryRun)]
      ensures TopProgress(old(createdIds.Keys), old(summary), createdIds.Keys, summary, {t.id}, 1, failing)
    {
      var created := CreateTask(t.id, failing);
      summary := if created then summary.(topLevelCreated := summary.topLevelCreated + 1)
                 else summary.(failures := summary.failures + 1);
    }

    method CreateSubtask(t: SourceTask, failing: Failures)
      requires t.id !in createdIds && (dryRun ==> failing == {}) && Numbered()
      modifies this
      ensures Numbered()
      ensures createdIds.Keys == old(createdIds.Keys) + ({t.id} - failing)
      ensures SubtaskCounted(old(summary), summary, |createdIds| - |old(createdIds)|)
    {
      var created := CreateTask(t.id, failing);
      summary := if created then summary.(subtasksCreated := summary.subtasksCreated + 1)
                 else summary.(failures := summary.failures + 1);
    }

    /** The next task of a column's list, from its end. */
    method CreateOneOf(list: seq<SourceTask>, index: nat, failing: Failures,
                       ghost keys: set<SourceId>, ghost counts: Summary)
      requires index < |list| && DistinctTasks(list) && (dryRun ==> failing == {})
      requires Numbered() && Ids(list) !! keys
      requires TopProgress(keys, counts, createdIds.Keys, summary, Ids(list[index + 1..]), |list| - index - 1, failing)
      requires MadeFromTheEnd(list, createdIds, index + 1, dryRun)
      modifies this
      ensures Numbered()
      ensures TopProgress(keys, counts, createdIds.Keys, summary, Ids(list[index..]), |list| - index, failing)
      ensures MadeFromTheEnd(list, createdIds, index, dryRun)
    {
      TailIds(list, index);
      ghost var before, mid := createdIds, summary;
      CreateTopLevelTask(list[index], failing);
      TopProgressAdds(keys, counts, before.Keys, mid, createdIds.Keys, summary,
                      Ids(list[index + 1..]), |list| - index - 1, {list[index].id}, 1, failing);
      OneMoreFromTheEnd(list, before, createdIds, index, firstId, old(nextId), dryRun);
    }

    /** The top-level tasks of one column, last to first: each later one is put on top of the column. */
    method CreateTopLevel(tasks: seq<SourceTask>, statusId: SourceId, failing: Failures)
      requires DistinctTasks(tasks) && (dryRun ==> failing == {})
      requires Numbered()
      requires Ids(TopLevel(tasks, statusId)) !! createdIds.Keys
      modifies this
      ensures var list := TopLevel(tasks, statusId);
        && TopProgress(old(createdIds.Keys), old(summary), createdIds.Keys, summary, Ids(list), |list|, failing)
        && MadeFromTheEnd(list, createdIds, 0, dryRun)
      ensures Numbered()
    {
      var list := TopLevel(tasks, statusId);
      ghost var keys, counts := createdIds.Keys, summary;
      FilterIsDistinct(tasks, statusId);
      var index := |list|;
      while index > 0
        invariant 0 <= index <= |list|
        invariant TopProgress(keys, counts, createdIds.Keys, summary, Ids(list[index..]), |list| - index, failing)
        invariant MadeFromTheEnd(list, createdIds, index, dryRun)
        invariant Numbered()
      {
        index := index - 1;
        CreateOneOf(list, index, failing, keys, counts);
      }
      assert list[0..] == list;
    }

    /** The next column. */
    method CreateColumn(tasks: seq<SourceTask>, columns: seq<SourceId>, k: nat, failing: Failures, ghost was: Summary)
      requires DistinctTasks(tasks) && NoDuplicates(columns) && k < |columns| && (dryRun ==> failing == {})
      requires Numbered()
      requires TopProgress({}, was, createdIds.Keys, summary,
                           TopIds(tasks, columns[..k]), TopTotal(tasks, columns[..k]), failing)
      modifies this
      ensures Numbered()
      ensures TopProgress({}, was, createdIds.Keys, summary,
                          TopIds(tasks, columns[..k + 1]), TopTotal(tasks, columns[..k + 1]), failing)
    {
      NextColumn(tasks, columns, k);
      ghost var list := TopLevel(tasks, columns[k]);
      ghost var keys, counts := createdIds.Keys, summary;
      CreateTopLevel(tasks, columns[k], failing);
      TopProgressAdds({}, was, keys, counts, createdIds.Keys, summary,
                      TopIds(tasks, columns[..k]), TopTotal(tasks, columns[..k]), Ids(list), |list|, failing);
    }

    /** Columns in turn. */
    method TopLevelPass(tasks: seq<SourceTask>, columns: seq<SourceId>, failing: Failures)
      requires DistinctTasks(tasks) && NoDuplicates(columns) && (dryRun ==> failing == {})
      requires Numbered()
      requires createdIds == map[]
      modifies this
      ensures TopProgress({}, old(summary), createdIds.Keys, summary,
                          TopIds(tasks, columns), TopTotal(tasks, columns), failing)
      ensures Numbered()
    {
      var k := 0;
      assert TopIds(tasks, columns[..0]) == {};
      while k < |columns|
        invariant 0 <= k <= |columns|
        invariant TopProgress({}, old(summary), createdIds.Keys, summary,
                              TopIds(tasks, columns[..k]), TopTotal(tasks, columns[..k]), failing)
        invariant Numbered()
      {
        CreateColumn(tasks, columns, k, failing, old(summary));
        k := k + 1;
      }
      assert columns[..k] == columns;
    }

    /** One walk over the pending subtasks, last to first. */
    method Round(tasks: seq<SourceTask>, columns: seq<SourceId>, pending: seq<SourceTask>, failing: Failures)
      returns (left: seq<SourceTask>, progress: bool)
      requires dryRun ==> failing == {}
      requires Numbered()
      requires PhaseTwo(tasks, columns, failing, createdIds.Keys, summary, pending)
      modifies this
      ensures PhaseTwo(tasks, columns, failing, createdIds.Keys, summary, left)
      ensures old(createdIds.Keys) <= createdIds.Keys && summary.topLevelCreated == old(summary.topLevelCreated)
      ensures |left| <= |pending| && (progress ==> |left| < |pending|)
      ensures !progress ==> forall t :: t in left ==> t.parentId.value !in createdIds
      ensures Numbered()
    {
      left := pending;
      progress := false;
      var index := |left|;
      while index > 0
        invariant 0 <= index <= |left| <= |pending|
        invariant PhaseTwo(tasks, columns, failing, createdIds.Keys, summary, left)
        invariant old(createdIds.Keys) <= createdIds.Keys && summary.topLevelCreated == old(summary.topLevelCreated)
        invariant progress ==> |left| < |pending|
        invariant !progress ==> forall j :: index <= j < |left| ==> left[j].parentId.value !in createdIds
        invariant Numbered()
      {
        index := index - 1;
        var t := left[index];
        assert t in left;
        if t.parentId.value in createdIds {
          left := HandlePending(tasks, columns, left, index, failing);
          progress := true;
        }
      }
      assert !progress ==> forall j :: 0 <= j < |left| ==> left[j].parentId.value !in createdIds;
    }

    /** Creates the subtask at `index`, whose parent is there, and splices it out either way. */
    method HandlePending(tasks: seq<SourceTask>, columns: seq<SourceId>, pending: seq<SourceTask>, index: nat,
                         failing: Failures) returns (left: seq<SourceTask>)
      requires index < |pending| && (dryRun ==> failing == {})
      requires Numbered()
      requires PhaseTwo(tasks, columns, failing, createdIds.Keys, summary, pending)
      requires pending[index].parentId.Some? && pending[index].parentId.value in createdIds
      modifies this
      ensures PhaseTwo(tasks, columns, failing, createdIds.Keys, summary, left) && |left| == |pending| - 1
      ensures old(createdIds.Keys) <= createdIds.Keys && summary.topLevelCreated == old(summary.topLevelCreated)
      ensures Numbered()
    {
      assert pending[index] in pending;
      ghost var keys, counts := createdIds.Keys, summary;
      CreateSubtask(pending[index], failing);
      PhaseTwoStep(tasks, columns, failing, keys, counts, pending, index, createdIds.Keys, summary);
      left := pending[..index] + pending[index + 1..];
    }

    /** The whole import. */
    method Import(tasks: seq<SourceTask>, columns: seq<SourceId>, refused: Failures)
      requires DistinctTasks(tasks) && NoDuplicates(columns)
      requires createdIds == map[] && summary == Summary(0, 0, 0, 0) && Numbered()
      modifies this
      ensures var failing := if dryRun then {} else refused;
        createdIds.Keys == ImportableIds(tasks, columns, failing) && summary == Report(tasks, columns, failing)
      ensures written == if dryRun then 0 else |createdIds|
      ensures nextId == old(nextId) + |createdIds|
      ensures forall x, y :: x in createdIds && y in createdIds && x != y ==> createdIds[x] != createdIds[y]
      ensures !dryRun ==> forall id :: HasId(createdIds, id) <==> old(nextId) <= id < nextId
      ensures (forall t :: t in tasks && t.parentId.None? ==> t.statusId in columns) ==>
        summary.topLevelCreated + summary.subtasksCreated + summary.failures + summary.skippedSubtasks == |tasks|
    {
      var failing := if dryRun then {} else refused;
      TopLevelPass(tasks, columns, failing);
      PhaseTwoStarts(tasks, columns, failing, createdIds.Keys, summary);
      SubtaskPass(tasks, columns, failing);
      TotalsAddUp(tasks, columns);
      CreatedAreNew();
    }

    lemma CreatedAreNew()
      requires Numbered()
      ensures written == if dryRun then 0 else |createdIds|
      ensures nextId == firstId + |createdIds|
      ensures forall x, y :: x in createdIds && y in createdIds && x != y ==> createdIds[x] != createdIds[y]
      ensures !dryRun ==> forall id :: HasId(createdIds, id) <==> firstId <= id < nextId
    {}

    /** Rounds until one of them creates nothing; what is left is skipped. */
    method SubtaskPass(tasks: seq<SourceTask>, columns: seq<SourceId>, failing: Failures)
      requires dryRun ==> failing == {}
      requires Numbered()
      requires PhaseTwo(tasks, columns, failing, createdIds.Keys, summary, Subtasks(tasks))
      requires TopIds(tasks, columns) - failing <= createdIds.Keys
      requires summary.topLevelCreated == |TopIds(tasks, columns) - failing|
      modifies this
      ensures createdIds.Keys == ImportableIds(tasks, columns, failing)
      ensures summary == Report(tasks, columns, failing)
      ensures summary.topLevelCreated + summary.subtasksCreated + summary.failures + summary.skippedSubtasks
           == TopTotal(tasks, columns) + |Subtasks(tasks)|
      ensures Numbered()
    {
      var pending := Subtasks(tasks);
      var madeProgress := true;
      while pending != [] && madeProgress
        invariant PhaseTwo(tasks, columns, failing, createdIds.Keys, summary, pending)
        invariant old(createdIds.Keys) <= createdIds.Keys && summary.topLevelCreated == old(summary.topLevelCreated)
        invariant !madeProgress ==> forall t :: t in pending ==> t.parentId.value !in createdIds
        invariant Numbered()
        decreases |pending|, madeProgress
      {
        pending, madeProgress := Round(tasks, columns, pending, failing);
      }
      PhaseTwoEnds(tasks, columns, failing, createdIds.Keys, summary, pending);
      summary := summary.(skippedSubtasks := |pending|);
    }
  }

  // ---------------------------------------------------------------- the fixpoint

  ghost predicate SubtaskCounted(was: Summary, now: Summary, added: int) {
    && now == was.(subtasksCreated := now.subtasksCreated, failures := now.failures)
    && now.subtasksCreated == was.subtasksCreated + added
    && now.subtasksCreated + now.failures == was.subtasksCreated + was.failures + 1
  }

  /**
   Between two steps of the second phase: what is created may be created, what is neither
   pending nor created has failed, and the counts add up.
   */
  ghost predicate PhaseTwo(tasks: seq<SourceTask>, columns: seq<SourceId>, failing: Failures,
                           created: set<SourceId>, counts: Summary, pending: seq<SourceTask>) {
    && DistinctTasks(tasks)
    && DistinctTasks(pending)
    && (forall t :: t in pending ==> t in tasks && t.parentId.Some? && t.id !in created)
    && (forall id :: id in created ==> Importable(tasks, columns, failing, id))
    && (forall t :: t in tasks && t.parentId.Some? && t !in pending ==>
          (t.id in created || t.id in failing) && t.parentId.value in created)
    && counts.skippedSubtasks == 0
    && counts.topLevelCreated + counts.subtasksCreated == |created|
    && counts.topLevelCreated + counts.subtasksCreated + counts.failures + |pending|
       == TopTotal(tasks, columns) + |Subtasks(tasks)|
  }

  lemma PhaseTwoStarts(tasks: seq<SourceTask>, columns: seq<SourceId>, failing: Failures,
                       created: set<SourceId>, counts: Summary)
    requires DistinctTasks(tasks)
    requires TopProgress({}, Summary(0, 0, 0, 0), created, counts,
                         TopIds(tasks, columns), TopTotal(tasks, columns), failing)
    ensures PhaseTwo(tasks, columns, failing, created, counts, Subtasks(tasks))
  {
    if columns == [] { FilterIsDistinct(tasks, 0); } else { FilterIsDistinct(tasks, columns[0]); }
    forall t ensures t in Subtasks(tasks) <==> t in tasks && t.parentId.Some? { SubtasksHold(tasks, t); }
    forall id | id in created ensures Importable(tasks, columns, failing, id) {
      var t :| t in tasks && t.parentId.None? && t.statusId in columns && t.id == id;
      TopIsImportable(tasks, columns, failing, t);
    }
    forall t | t in tasks && t.parentId.Some? ensures t.id !in created {
      if t.id in created {
        var u :| u in tasks && u.parentId.None? && u.statusId in columns && u.id == t.id;
        SameTask(tasks, t, u);
      }
    }
  }

  lemma PhaseTwoStep(tasks: seq<SourceTask>, columns: seq<SourceId>, failing: Failures,
                     created: set<SourceId>, counts: Summary, pending: seq<SourceTask>, index: nat,
                     created': set<SourceId>, counts': Summary)
    requires PhaseTwo(tasks, columns, failing, created, counts, pending) && index < |pending|
    requires pending[index].parentId.Some? && pending[index].parentId.value in created
    requires created' == created + ({pending[index].id} - failing)
    requires SubtaskCounted(counts, counts', |created'| - |created|)
    ensures PhaseTwo(tasks, columns, failing, created', counts', pending[..index] + pending[index + 1..])
  {
    var t := pending[index];
    var left := pending[..index] + pending[index + 1..];
    assert t in pending;
    forall u ensures u in left <==> u in pending && u != t {
      if u in pending && u != t {
        var i :| 0 <= i < |pending| && pending[i] == u;
        assert i < index ==> left[i] == u;
        assert i > index ==> left[i - 1] == u;
      }
    }
    forall u | u in left ensures u.id != t.id {
      if u.id == t.id { SameTask(tasks, u, t); }
    }
    if t.id !in failing { ChildIsImportable(tasks, columns, failing, t); }
  }

  /** A stuck round has created exactly the importable tasks. */
  lemma StuckIsImportable(tasks: seq<SourceTask>, columns: seq<SourceId>, failing: Failures,
                          created: set<SourceId>, counts: Summary, pending: seq<SourceTask>)
    requires PhaseTwo(tasks, columns, failing, created, counts, pending)
    requires TopIds(tasks, columns) - failing <= created
    requires forall t :: t in pending ==> t.parentId.value !in created
    ensures created == ImportableIds(tasks, columns, failing)
    ensures forall id :: id in created <==> Importable(tasks, columns, failing, id)
  {
    forall t ensures t in Subtasks(tasks) <==> t in tasks && t.parentId.Some? { SubtasksHold(tasks, t); }
    forall id ensures id in created <==> Importable(tasks, columns, failing, id) {
      if Importable(tasks, columns, failing, id) {
        var n: nat :| ReachesTop(tasks, columns, failing, id, n);
        FixpointIsComplete(tasks, columns, failing, created, pending, id, n);
      }
    }
    forall id | id in created ensures id in ImportableIds(tasks, columns, failing) {
      var n: nat :| ReachesTop(tasks, columns, failing, id, n);
      ReachesIsInTasks(tasks, columns, failing, id, n);
      IdsHold(tasks, id);
      var t :| t in tasks && t.id == id;
    }
  }

  /** What a stuck round leaves are the orphans. */
  lemma StuckLeavesOrphans(tasks: seq<SourceTask>, columns: seq<SourceId>, failing: Failures,
                           created: set<SourceId>, counts: Summary, pending: seq<SourceTask>)
    requires PhaseTwo(tasks, columns, failing, created, counts, pending)
    requires forall id :: id in created <==> Importable(tasks, columns, failing, id)
    requires forall t :: t in pending ==> t.parentId.value !in created
    ensures Ids(pending) == OrphanIds(tasks, columns, failing)
  {
    forall id ensures id in Ids(pending) <==> id in OrphanIds(tasks, columns, failing) {
      IdsHold(pending, id);
    }
  }

  lemma PhaseTwoEnds(tasks: seq<SourceTask>, columns: seq<SourceId>, failing: Failures,
                     created: set<SourceId>, counts: Summary, pending: seq<SourceTask>)
    requires PhaseTwo(tasks, columns, failing, created, counts, pending)
    requires TopIds(tasks, columns) - failing <= created
    requires counts.topLevelCreated == |TopIds(tasks, columns) - failing|
    requires forall t :: t in pending ==> t.parentId.value !in created
    ensures created == ImportableIds(tasks, columns, failing)
    ensures counts.(skippedSubtasks := |pending|) == Report(tasks, columns, failing)
  {
    StuckIsImportable(tasks, columns, failing, created, counts, pending);
    StuckLeavesOrphans(tasks, columns, failing, created, counts, pending);
    IdsCount(pending);
  }

  lemma TailIds(list: seq<SourceTask>, index: nat)
    requires index < |list| && DistinctTasks(list)
    ensures Ids(list[index..]) == Ids(list[index + 1..]) + {list[index].id}
    ensures list[index].id !in Ids(list[index + 1..])
    ensures list[index].id in Ids(list)
  {
    var tail := list[index..];
    assert tail[1..] == list[index + 1..];
    IdsHold(list[index + 1..], list[index].id);
    IdsHold(list, list[index].id);
    assert list[index] in list;
    forall t | t in list[index + 1..] ensures t.id != list[index].id {
      var i :| 0 <= i < |list[index + 1..]| && list[index + 1..][i] == t;
      assert list[index + 1 + i] == t;
    }
  }

  lemma NextColumn(tasks: seq<SourceTask>, columns: seq<SourceId>, k: nat)
    requires DistinctTasks(tasks) && NoDuplicates(columns) && k < |columns|
    ensures TopIds(tasks, columns[..k + 1]) == TopIds(tasks, columns[..k]) + Ids(TopLevel(tasks, columns[k]))
    ensures Ids(TopLevel(tasks, columns[k])) !! TopIds(tasks, columns[..k])
    ensures TopTotal(tasks, columns[..k + 1]) == TopTotal(tasks, columns[..k]) + |TopLevel(tasks, columns[k])|
  {
    var prefix, next := columns[..k], columns[..k + 1];
    assert next == prefix + [columns[k]];
    assert next[..|next| - 1] == prefix;
    forall t ensures t in TopLevel(tasks, columns[k]) <==> t in tasks && t.parentId.None? && t.statusId == columns[k] {
      TopLevelHold(tasks, columns[k], t);
    }
    forall t, u | t in TopLevel(tasks, columns[k]) && u in tasks && u.parentId.None? && u.statusId in prefix
      ensures t.id != u.id
    {
      if t.id == u.id { SameTask(tasks, t, u); }
    }
  }

  // ---------------------------------------------------------------- what the report means

  /** Every top-level task of a known column is counted under exactly one column. */
  lemma {:induction false} TopTotalOf(tasks: seq<SourceTask>, columns: seq<SourceId>)
    requires NoDuplicates(columns)
    requires forall t :: t in tasks && t.parentId.None? ==> t.statusId in columns
    ensures TopTotal(tasks, columns) + |Subtasks(tasks)| == |tasks|
    decreases |tasks|
  {
    if tasks == [] {
      NoTasksNoTop(columns);
    } else {
      TopTotalOf(tasks[1..], columns);
      TopTotalHead(tasks, columns);
    }
  }

  lemma TotalsAddUp(tasks: seq<SourceTask>, columns: seq<SourceId>)
    requires NoDuplicates(columns)
    ensures (forall t :: t in tasks && t.parentId.None? ==> t.statusId in columns) ==>
      TopTotal(tasks, columns) + |Subtasks(tasks)| == |tasks|
  {
    if forall t :: t in tasks && t.parentId.None? ==> t.statusId in columns {
      TopTotalOf(tasks, columns);
    }
  }

  lemma {:induction false} NoTasksNoTop(columns: seq<SourceId>)
    ensures TopTotal([], columns) == 0
    decreases |columns|
  {
    if columns != [] { NoTasksNoTop(columns[..|columns| - 1]); }
  }

  lemma {:induction false} TopTotalHead(tasks: seq<SourceTask>, columns: seq<SourceId>)
    requires tasks != [] && NoDuplicates(columns)
    ensures TopTotal(tasks, columns) == TopTotal(tasks[1..], columns)
      + (if tasks[0].parentId.None? && tasks[0].statusId in columns then 1 else 0)
    decreases |columns|
  {
    if columns != [] {
      var rest, last := columns[..|columns| - 1], columns[|columns| - 1];
      TopTotalHead(tasks, rest);
      assert columns == rest + [last];
    }
  }
}
