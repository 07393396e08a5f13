/**
 Task numbers under concurrency.

 Transactions create tasks, import tasks or move hierarchies into another project. Each locks
 a project row before it reads the counter and the highest number, and keeps the lock until
 it ends. Transactions interleave freely; reads see committed rows and the reader's own writes.
 A step that is not possible, such as taking a lock someone else holds, changes nothing.

 An imported subtask is numbered in the project of the import but written into the column of
 its parent, which a user may have moved to another project. Ranges are safe all the same;
 numbers are, for as long as no such subtask comes in the way of another project's numbers.
 */
module NumberLock {
  import opened SortedListing
  import opened Numbering
  import opened Invariants

  datatype Row = Row(project: int, number: int)

  type Table = map<int, Row>

  datatype Phase = Collecting | Placed | Locked | Ranged | Saved

  /**
   `target` is the project it numbers in and locks, `home` the one its rows are written to;
   `rows` are the tasks it will number, in order; `writes` are its uncommitted row versions.
   */
  datatype Txn = Txn(target: int, home: int, creates: bool, phase: Phase, rows: seq<int>, first: int, writes: Table)

  /** A range handed to a transaction: `first`, ..., `first + count - 1`. */
  datatype Grant = Grant(txn: int, project: int, first: int, count: nat)

  datatype State = State(
    table: Table,
    counters: map<int, int>,
    projectLocks: map<int, int>,
    rowLocks: map<int, int>,
    txns: map<int, Txn>,
    grants: seq<Grant>,
    committed: set<int>,
    nextRow: int,
    nextTxn: int)

  datatype Action =
    | BeginCreate(target: int)
    | BeginImportSubtask(target: int, parent: int)
    | BeginMove(target: int)
    | LockRow(t: int, row: int)
    | PlaceRoot(t: int)
    | LockProject(t: int)
    | Allocate(t: int)
    | Save(t: int)
    | Commit(t: int)
    | Rollback(t: int)

  // ---------------------------------------------------------------- reading

  function NumbersIn(table: Table, project: int): map<int, Key> {
    map x | x in table && table[x].project == project :: Key(table[x].number, 0)
  }

  /** What a transaction's query sees: committed rows under its own writes. */
  function Visible(s: State, t: int): Table
    requires t in s.txns
  {
    s.table + s.txns[t].writes
  }

  function FirstFree(s: State, t: int): int
    requires t in s.txns
  {
    var target := s.txns[t].target;
    FirstAbove(Counter(s.counters, target), Highest(NumbersIn(Visible(s, t), target)))
  }

  // ---------------------------------------------------------------- steps

  /** The numbers a list of rows gets from `first` on in a project. */
  function Numbers(target: int, rows: seq<int>, first: int): Table {
    map x | x in rows :: Row(target, first + IndexOf(rows, x))
  }

  function Numbered(txn: Txn): Table {
    Numbers(txn.home, txn.rows, txn.first)
  }

  /** Drops the locks of an ending transaction. */
  function Released(locks: map<int, int>, t: int): map<int, int> {
    map k | k in locks && locks[k] != t :: locks[k]
  }

  function End(s: State, t: int): State {
    s.(projectLocks := Released(s.projectLocks, t), rowLocks := Released(s.rowLocks, t), txns := s.txns - {t})
  }

  predicate Enabled(s: State, a: Action) {
    match a
    case BeginCreate(_) => true
    case BeginImportSubtask(_, parent) => parent in s.table
    case BeginMove(_) => true
    case LockRow(t, row) => t in s.txns && s.txns[t].phase == Collecting && !s.txns[t].creates
                            && row in s.table && row !in s.rowLocks
    case PlaceRoot(t) => t in s.txns && s.txns[t].phase == Collecting && !s.txns[t].creates
                         && s.txns[t].rows != [] && s.txns[t].rows[0] in s.table
    case LockProject(t) => t in s.txns && s.txns[t].target !in s.projectLocks
                           && s.txns[t].phase == (if s.txns[t].creates then Collecting else Placed)
    case Allocate(t) => t in s.txns && s.txns[t].phase == Locked
    case Save(t) => t in s.txns && s.txns[t].phase == Ranged
    case Commit(t) => t in s.txns && s.txns[t].phase == Saved
    case Rollback(t) => t in s.txns
  }

  /** A new row for a project, known to nobody else until its transaction commits. */
  function Creation(s: State, target: int, home: int): State {
    s.(txns := s.txns[s.nextTxn := Txn(target, home, true, Collecting, [s.nextRow], 0, map[])],
       rowLocks := s.rowLocks[s.nextRow := s.nextTxn],
       nextRow := s.nextRow + 1, nextTxn := s.nextTxn + 1)
  }

  function Next(s: State, a: Action): State
    requires Enabled(s, a)
  {
    match a
    case BeginCreate(target) => Creation(s, target, target)
    case BeginImportSubtask(target, parent) =>
      // The parent is read without a lock; its column, and so its project, is the subtask's.
      Creation(s, target, s.table[parent].project)
    case BeginMove(target) =>
      s.(txns := s.txns[s.nextTxn := Txn(target, target, false, Collecting, [], 0, map[])],
         nextTxn := s.nextTxn + 1)
    case LockRow(t, row) =>
      s.(txns := s.txns[t := s.txns[t].(rows := s.txns[t].rows + [row])],
         rowLocks := s.rowLocks[row := t])
    case PlaceRoot(t) =>
      // The root is saved into the target project before it has a new number.
      var root := s.txns[t].rows[0];
      s.(txns := s.txns[t := s.txns[t].(phase := Placed,
                                       writes := map[root := s.table[root].(project := s.txns[t].target)])])
    case LockProject(t) =>
      s.(txns := s.txns[t := s.txns[t].(phase := Locked)],
         projectLocks := s.projectLocks[s.txns[t].target := t])
    case Allocate(t) =>
      var first := FirstFree(s, t);
      s.(txns := s.txns[t := s.txns[t].(phase := Ranged, first := first)],
         grants := s.grants + [Grant(t, s.txns[t].target, first, |s.txns[t].rows|)])
    case Save(t) =>
      s.(txns := s.txns[t := s.txns[t].(phase := Saved, writes := Numbered(s.txns[t]))])
    case Commit(t) =>
      var txn := s.txns[t];
      End(s, t).(table := s.table + txn.writes,
                 counters := s.counters[txn.target := txn.first + |txn.rows| - 1],
                 committed := s.committed + {t})
    case Rollback(t) => End(s, t)
  }

  function Step(s: State, a: Action): State {
    if Enabled(s, a) then Next(s, a) else s
  }

  /** Any interleaving is a sequence of actions. */
  function Run(s: State, actions: seq<Action>): State
    decreases |actions|
  {
    if actions == [] then s else Run(Step(s, actions[0]), actions[1..])
  }

  // ---------------------------------------------------------------- safety

  ghost predicate UniqueNumbers(table: Table) {
    forall x, y :: x in table && y in table && x != y && table[x].project == table[y].project ==>
      table[x].number != table[y].number
  }

  ghost predicate CommittedGrant(s: State, i: int) {
    0 <= i < |s.grants| && s.grants[i].txn in s.committed
  }

  /** Committed ranges of a project are disjoint and increase in the order the lock was taken. */
  ghost predicate RangesIncrease(s: State) {
    forall i, j ::
      (CommittedGrant(s, i) && CommittedGrant(s, j) && i < j && s.grants[i].project == s.grants[j].project) ==>
      s.grants[i].first + s.grants[i].count <= s.grants[j].first
  }

  predicate HoldsProject(txn: Txn) {
    txn.phase == Locked || txn.phase == Ranged || txn.phase == Saved
  }

  predicate HasRange(txn: Txn) {
    txn.phase == Ranged || txn.phase == Saved
  }

  /** A granted range is above every committed number of its project for as long as it is held. */
  ghost predicate RangesAbove(s: State) {
    forall t, x :: t in s.txns && HasRange(s.txns[t]) && x in s.table && s.table[x].project == s.txns[t].target ==>
      s.table[x].number < s.txns[t].first
  }

  ghost predicate Safe(s: State) {
    UniqueNumbers(s.table) && RangesAbove(s)
  }

  // ---------------------------------------------------------------- invariant

  ghost predicate IdsOk(s: State) {
    && (forall x :: x in s.table ==> x < s.nextRow)
    && (forall t :: t in s.txns ==> t < s.nextTxn && t !in s.committed)
    && (forall t :: t in s.committed ==> t < s.nextTxn)
    && (forall i :: 0 <= i < |s.grants| ==> s.grants[i].txn < s.nextTxn)
  }

  ghost predicate LocksOk(s: State) {
    && (forall t :: t in s.txns && HoldsProject(s.txns[t]) ==>
          s.txns[t].target in s.projectLocks && s.projectLocks[s.txns[t].target] == t)
    && (forall x :: x in s.rowLocks ==> x < s.nextRow && s.rowLocks[x] < s.nextTxn)
    && (forall t, x :: t in s.txns && x in s.txns[t].rows ==> x in s.rowLocks && s.rowLocks[x] == t)
  }

  ghost predicate TxnOk(table: Table, txn: Txn) {
    && NoDuplicates(txn.rows)
    && (if txn.creates then |txn.rows| == 1 else txn.home == txn.target)
    && (if txn.phase == Saved then txn.writes == Numbered(txn)
        else forall x :: x in txn.writes ==>
               x in txn.rows && x in table && txn.writes[x] == Row(txn.target, table[x].number))
  }

  ghost predicate TxnsOk(s: State) {
    forall t :: t in s.txns ==> TxnOk(s.table, s.txns[t])
  }

  /** A granted range is above the counter of its project for as long as it is held. */
  ghost predicate CountersBelow(s: State) {
    forall t :: t in s.txns && HasRange(s.txns[t]) ==> Counter(s.counters, s.txns[t].target) < s.txns[t].first
  }

  /** Every grant of a running transaction is that transaction's own, and the last of its project. */
  ghost predicate GrantsOk(s: State) {
    && (forall i :: 0 <= i < |s.grants| && s.grants[i].txn in s.txns ==>
          var txn := s.txns[s.grants[i].txn];
          && HasRange(txn)
          && s.grants[i] == Grant(s.grants[i].txn, txn.target, txn.first, |txn.rows|)
          && (forall j :: i < j < |s.grants| ==> s.grants[j].project != txn.target))
    && (forall i :: CommittedGrant(s, i) ==>
          s.grants[i].first + s.grants[i].count - 1 <= Counter(s.counters, s.grants[i].project))
  }

  ghost predicate Inv(s: State) {
    IdsOk(s) && LocksOk(s) && TxnsOk(s) && CountersBelow(s) && GrantsOk(s) && RangesIncrease(s)
  }

  /** No transaction has started; the counters may be anything, stale ones included. */
  ghost predicate Initial(s: State) {
    && s.txns == map[] && s.projectLocks == map[] && s.rowLocks == map[]
    && s.grants == [] && s.committed == {}
    && UniqueNumbers(s.table)
    && forall x :: x in s.table ==> x < s.nextRow
  }

  /** At most one running transaction holds a project. */
  lemma OneHolder(s: State, t: int, u: int)
    requires LocksOk(s) && t in s.txns && u in s.txns
    requires HoldsProject(s.txns[t]) && HoldsProject(s.txns[u]) && s.txns[t].target == s.txns[u].target
    ensures t == u
  {}

  /** The range handed out is above the counter and above every number the transaction sees in the project. */
  lemma AllocateIsAbove(s: State, t: int, x: int)
    requires Inv(s) && Enabled(s, Allocate(t))
    ensures Counter(s.counters, s.txns[t].target) < FirstFree(s, t)
    ensures x in s.table && s.table[x].project == s.txns[t].target && x !in s.txns[t].writes ==>
              s.table[x].number < FirstFree(s, t)
    ensures x in s.txns[t].writes && s.txns[t].writes[x].project == s.txns[t].target ==>
              s.txns[t].writes[x].number < FirstFree(s, t)
  {
    var seen := Visible(s, t);
    if x in seen && seen[x].project == s.txns[t].target { HighestBounds(NumbersIn(seen, s.txns[t].target), x); }
  }

  // ---------------------------------------------------------------- every step keeps the invariant

  /** A step that only touches one running transaction, before it has a range. */
  lemma QuietStep(s: State, s': State, t: int)
    requires Inv(s)
    requires s'.table == s.table && s'.counters == s.counters && s'.grants == s.grants && s'.committed == s.committed
    requires t in s'.txns && s'.txns.Keys == s.txns.Keys + {t}
    requires forall u :: u in s.txns && u != t ==> s'.txns[u] == s.txns[u]
    requires !HasRange(s'.txns[t]) && (t in s.txns ==> !HasRange(s.txns[t]))
    requires IdsOk(s') && LocksOk(s') && TxnOk(s.table, s'.txns[t])
    requires t !in s.txns ==> t == s.nextTxn
    ensures Inv(s')
  {
    assert RangesIncrease(s') by {
      assert forall i :: CommittedGrant(s', i) <==> CommittedGrant(s, i);
    }
    assert GrantsOk(s') by {
      assert forall i :: CommittedGrant(s', i) <==> CommittedGrant(s, i);
    }
  }

  lemma CreationLocks(s: State, target: int, home: int)
    requires IdsOk(s) && LocksOk(s)
    ensures LocksOk(Creation(s, target, home))
  {
    var s' := Creation(s, target, home);
    forall t, x | t in s'.txns && x in s'.txns[t].rows ensures x in s'.rowLocks && s'.rowLocks[x] == t {
      if t == s.nextTxn { assert x == s.nextRow; } else { assert x in s.rowLocks; }
    }
  }

  lemma CreationInv(s: State, target: int, home: int)
    requires Inv(s)
    ensures Inv(Creation(s, target, home))
  {
    var s' := Creation(s, target, home);
    CreationLocks(s, target, home);
    assert IdsOk(s');
    QuietStep(s, s', s.nextTxn);
  }

  lemma BeginMoveLocks(s: State, target: int)
    requires IdsOk(s) && LocksOk(s)
    ensures LocksOk(Next(s, BeginMove(target)))
  {}

  lemma BeginMoveInv(s: State, target: int)
    requires Inv(s)
    ensures Inv(Next(s, BeginMove(target)))
  {
    var s' := Next(s, BeginMove(target));
    BeginMoveLocks(s, target);
    assert IdsOk(s');
    QuietStep(s, s', s.nextTxn);
  }

  lemma LockRowInv(s: State, t: int, row: int)
    requires Inv(s) && Enabled(s, LockRow(t, row))
    ensures Inv(Next(s, LockRow(t, row)))
  {
    assert row !in s.txns[t].rows;
    var s' := Next(s, LockRow(t, row));
    assert IdsOk(s') && LocksOk(s');
    QuietStep(s, s', t);
  }

  lemma PlaceRootInv(s: State, t: int)
    requires Inv(s) && Enabled(s, PlaceRoot(t))
    ensures Inv(Next(s, PlaceRoot(t)))
  {
    var s' := Next(s, PlaceRoot(t));
    assert IdsOk(s') && LocksOk(s');
    QuietStep(s, s', t);
  }

  lemma LockProjectLocks(s: State, t: int)
    requires LocksOk(s) && Enabled(s, LockProject(t))
    ensures LocksOk(Next(s, LockProject(t)))
  {}

  lemma LockProjectInv(s: State, t: int)
    requires Inv(s) && Enabled(s, LockProject(t))
    ensures Inv(Next(s, LockProject(t)))
  {
    var s' := Next(s, LockProject(t));
    LockProjectLocks(s, t);
    assert IdsOk(s');
    QuietStep(s, s', t);
  }

  /** A range is granted to the one holder of its project. */
  lemma AllocateKeepsGrants(s: State, t: int)
    requires Inv(s) && Enabled(s, Allocate(t))
    ensures GrantsOk(Next(s, Allocate(t))) && RangesIncrease(Next(s, Allocate(t)))
  {
    var s' := Next(s, Allocate(t));
    assert forall i :: 0 <= i < |s.grants| ==> s'.grants[i] == s.grants[i];
    assert forall i :: CommittedGrant(s', i) <==> CommittedGrant(s, i);
    forall i | 0 <= i < |s.grants| && s.grants[i].txn in s.txns
      ensures s.grants[i].txn != t && s.txns[s.grants[i].txn].target != s.txns[t].target
    {
      if s.txns[s.grants[i].txn].target == s.txns[t].target {
        OneHolder(s, t, s.grants[i].txn);
      }
    }
  }

  lemma AllocateInv(s: State, t: int)
    requires Inv(s) && Enabled(s, Allocate(t))
    ensures Inv(Next(s, Allocate(t)))
  {
    var s' := Next(s, Allocate(t));
    AllocateIsAbove(s, t, 0);
    AllocateKeepsGrants(s, t);
    assert IdsOk(s') && LocksOk(s');
    assert TxnOk(s.table, s'.txns[t]);
  }

  lemma SaveKeepsGrants(s: State, t: int)
    requires Inv(s) && Enabled(s, Save(t))
    ensures CountersBelow(Next(s, Save(t))) && GrantsOk(Next(s, Save(t))) && RangesIncrease(Next(s, Save(t)))
  {
    assert forall i :: CommittedGrant(Next(s, Save(t)), i) <==> CommittedGrant(s, i);
  }

  lemma SaveInv(s: State, t: int)
    requires Inv(s) && Enabled(s, Save(t))
    ensures Inv(Next(s, Save(t)))
  {
    var s' := Next(s, Save(t));
    SaveKeepsGrants(s, t);
    assert IdsOk(s') && LocksOk(s');
    assert TxnOk(s.table, s'.txns[t]);
  }

  lemma ReleasedLocks(s: State, t: int)
    requires LocksOk(s) && t in s.txns
    ensures LocksOk(End(s, t))
  {}

  lemma RollbackInv(s: State, t: int)
    requires Inv(s) && t in s.txns
    ensures Inv(End(s, t))
  {
    ReleasedLocks(s, t);
    assert forall i :: CommittedGrant(End(s, t), i) <==> CommittedGrant(s, i);
  }

  /** A rollback takes back all but the range handed out, and frees what was locked, for others to take. */
  lemma RollbackLeavesNothing(s: State, t: int)
    requires t in s.txns
    ensures var next := Step(s, Rollback(t));
      && next.table == s.table && next.counters == s.counters && next.committed == s.committed
      && next.grants == s.grants && next.nextRow == s.nextRow && next.nextTxn == s.nextTxn
      && (forall u :: u in next.txns <==> u in s.txns && u != t)
      && (forall u :: u in next.txns ==> next.txns[u] == s.txns[u])
      && (forall p :: p in next.projectLocks <==> p in s.projectLocks && s.projectLocks[p] != t)
      && (forall x :: x in next.rowLocks <==> x in s.rowLocks && s.rowLocks[x] != t)
      && (forall p :: p in next.projectLocks ==> next.projectLocks[p] == s.projectLocks[p])
      && (forall x :: x in next.rowLocks ==> next.rowLocks[x] == s.rowLocks[x])
  {}

  /** An allocation records the range it hands out, one number for each row to be numbered, and writes nothing. */
  lemma AllocateHandsOut(s: State, t: int)
    requires t in s.txns && s.txns[t].phase == Locked
    ensures var next, txn := Step(s, Allocate(t)), s.txns[t];
      && next.txns.Keys == s.txns.Keys
      && next.txns[t] == txn.(phase := Ranged, first := next.txns[t].first)
      && next.grants == s.grants + [Grant(t, txn.target, next.txns[t].first, |txn.rows|)]
      && (forall u :: u in s.txns && u != t ==> next.txns[u] == s.txns[u])
      && next.table == s.table && next.counters == s.counters && next.committed == s.committed
      && next.projectLocks == s.projectLocks && next.rowLocks == s.rowLocks
  {}

  lemma NumbersInOrder(table: Table, project: int, rows: seq<int>, first: int)
    requires NoDuplicates(rows)
    ensures var next := table + Numbers(project, rows, first);
      && (forall x :: x in next <==> x in table || x in rows)
      && (forall i :: 0 <= i < |rows| ==> next[rows[i]] == Row(project, first + i))
      && (forall x :: x in table && x !in rows ==> next[x] == table[x])
  {
    forall i | 0 <= i < |rows| ensures Numbers(project, rows, first)[rows[i]] == Row(project, first + i) {
      var k := IndexOf(rows, rows[i]);
      assert k == i;
    }
  }

  /** A commit gives the rows their numbers, one after the other, and changes no other row. */
  lemma CommitWrites(s: State, t: int)
    requires Inv(s) && t in s.txns && s.txns[t].phase == Saved
    ensures var next, txn := Step(s, Commit(t)).table, s.txns[t];
      && (forall x :: x in next <==> x in s.table || x in txn.rows)
      && (forall i :: 0 <= i < |txn.rows| ==> next[txn.rows[i]] == Row(txn.home, txn.first + i))
      && (forall x :: x in s.table && x !in txn.rows ==> next[x] == s.table[x])
  {
    assert TxnOk(s.table, s.txns[t]);
    NumbersInOrder(s.table, s.txns[t].home, s.txns[t].rows, s.txns[t].first);
  }

  /**
   It raises the counter to the end of the range and counts the range as committed. Otherwise it only gives up its
   locks, which others may take.
   */
  lemma CommitTakesEffect(s: State, t: int)
    requires t in s.txns && s.txns[t].phase == Saved
    ensures var next, txn := Step(s, Commit(t)), s.txns[t];
      && next.counters == s.counters[txn.target := txn.first + |txn.rows| - 1]
      && (forall u :: u in next.committed <==> u in s.committed || u == t)
      && (forall u :: u in next.txns <==> u in s.txns && u != t)
      && (forall u :: u in next.txns ==> next.txns[u] == s.txns[u])
      && (forall p :: p in next.projectLocks <==> p in s.projectLocks && s.projectLocks[p] != t)
      && (forall x :: x in next.rowLocks <==> x in s.rowLocks && s.rowLocks[x] != t)
      && next.grants == s.grants
  {}

  /** The saved rows carry the range, one number each. */
  lemma SavedNumbers(s: State, t: int, x: int)
    requires Inv(s) && Enabled(s, Commit(t))
    ensures x in s.txns[t].writes <==> x in s.txns[t].rows
    ensures x in s.txns[t].writes ==>
      && s.txns[t].writes[x].project == s.txns[t].home
      && s.txns[t].first <= s.txns[t].writes[x].number < s.txns[t].first + |s.txns[t].rows|
  {}

  /** Others' rows are out of reach of a commit. */
  lemma CommitLeavesRows(s: State, t: int)
    requires Inv(s) && Enabled(s, Commit(t))
    ensures TxnsOk(Next(s, Commit(t)))
  {
    var s' := Next(s, Commit(t));
    forall u | u in s'.txns ensures TxnOk(s'.table, s'.txns[u]) {
      assert TxnOk(s.table, s.txns[u]);
      forall x | x in s.txns[u].rows ensures x !in s.txns[t].writes {
        SavedNumbers(s, t, x);
        assert s.rowLocks[x] == u;
      }
    }
  }

  lemma CommitKeepsCounters(s: State, t: int)
    requires Inv(s) && Enabled(s, Commit(t))
    ensures CountersBelow(Next(s, Commit(t)))
  {
    var s' := Next(s, Commit(t));
    forall u | u in s'.txns && HasRange(s'.txns[u]) ensures s'.txns[u].target != s.txns[t].target {
      if s'.txns[u].target == s.txns[t].target { OneHolder(s, t, u); }
    }
  }

  lemma CommitKeepsGrants(s: State, t: int)
    requires Inv(s) && Enabled(s, Commit(t))
    ensures GrantsOk(Next(s, Commit(t))) && RangesIncrease(Next(s, Commit(t)))
  {
    var s' := Next(s, Commit(t));
    var txn := s.txns[t];
    assert forall i :: CommittedGrant(s', i) ==> CommittedGrant(s, i) || (0 <= i < |s.grants| && s.grants[i].txn == t);
    forall i | 0 <= i < |s.grants| && s.grants[i].txn == t
      ensures s.grants[i] == Grant(t, txn.target, txn.first, |txn.rows|)
    {}
    forall i, j |
      CommittedGrant(s', i) && CommittedGrant(s', j) && i < j && s.grants[i].project == s.grants[j].project
      ensures s.grants[i].first + s.grants[i].count <= s.grants[j].first
    {
      if s.grants[j].txn == t {
        assert s.grants[i].txn != t;
        assert CommittedGrant(s, i);
      } else {
        assert s.grants[i].txn != t;
        assert CommittedGrant(s, i) && CommittedGrant(s, j);
      }
    }
  }

  lemma CommitIds(s: State, t: int)
    requires Inv(s) && Enabled(s, Commit(t))
    ensures IdsOk(Next(s, Commit(t)))
  {
    forall x | x in s.txns[t].writes ensures x < s.nextRow {
      SavedNumbers(s, t, x);
      assert x in s.rowLocks;
    }
  }

  lemma CommitInv(s: State, t: int)
    requires Inv(s) && Enabled(s, Commit(t))
    ensures Inv(Next(s, Commit(t)))
  {
    CommitLeavesRows(s, t);
    CommitKeepsCounters(s, t);
    CommitKeepsGrants(s, t);
    CommitIds(s, t);
    ReleasedLocks(s, t);
  }

  lemma StepInv(s: State, a: Action)
    requires Inv(s)
    ensures Inv(Step(s, a))
  {
    if Enabled(s, a) {
      match a
      case BeginCreate(target) => CreationInv(s, target, target);
      case BeginImportSubtask(target, parent) => CreationInv(s, target, s.table[parent].project);
      case BeginMove(target) => BeginMoveInv(s, target);
      case LockRow(t, row) => LockRowInv(s, t, row);
      case PlaceRoot(t) => PlaceRootInv(s, t);
      case LockProject(t) => LockProjectInv(s, t);
      case Allocate(t) => AllocateInv(s, t);
      case Save(t) => SaveInv(s, t);
      case Commit(t) => CommitInv(s, t);
      case Rollback(t) => RollbackInv(s, t);
    }
  }

  lemma {:induction false} RunInv(s: State, actions: seq<Action>)
    requires Inv(s)
    ensures Inv(Run(s, actions))
    decreases |actions|
  {
    if actions != [] {
      StepInv(s, actions[0]);
      RunInv(Step(s, actions[0]), actions[1..]);
    }
  }

  // ---------------------------------------------------------------- which steps are safe

  /** No committed row of the project it writes to has a number of the transaction's range. */
  ghost predicate NumbersFree(table: Table, txn: Txn) {
    forall x :: x in table && x !in txn.rows && table[x].project == txn.home ==>
      !(txn.first <= table[x].number < txn.first + |txn.rows|)
  }

  lemma TakenRepeats(s: State, t: int, x: int)
    requires Inv(s) && Enabled(s, Commit(t))
    requires x in s.table && x !in s.txns[t].rows && s.table[x].project == s.txns[t].home
    requires s.txns[t].first <= s.table[x].number < s.txns[t].first + |s.txns[t].rows|
    ensures !UniqueNumbers(Next(s, Commit(t)).table)
  {
    var rows, table := s.txns[t].rows, Next(s, Commit(t)).table;
    var y := rows[s.table[x].number - s.txns[t].first];
    assert y in rows && IndexOf(rows, y) == s.table[x].number - s.txns[t].first;
    SavedNumbers(s, t, x);
    SavedNumbers(s, t, y);
    assert x in table && y in table && table[x].number == table[y].number;
  }

  lemma FreeIsUnique(s: State, t: int)
    requires Inv(s) && UniqueNumbers(s.table) && Enabled(s, Commit(t)) && NumbersFree(s.table, s.txns[t])
    ensures UniqueNumbers(Next(s, Commit(t)).table)
  {
    var txn := s.txns[t];
    var table := s.table + txn.writes;
    forall x, y | x in table && y in table && x != y && table[x].project == table[y].project
      ensures table[x].number != table[y].number
    {
      SavedNumbers(s, t, x);
      SavedNumbers(s, t, y);
      if x in txn.writes && y in txn.writes {
        assert IndexOf(txn.rows, x) != IndexOf(txn.rows, y);
      }
    }
  }

  /** A commit keeps numbers distinct if and only if its numbers are free in the project it writes to. */
  lemma CommitUniqueIff(s: State, t: int)
    requires Inv(s) && UniqueNumbers(s.table) && Enabled(s, Commit(t))
    ensures UniqueNumbers(Next(s, Commit(t)).table) <==> NumbersFree(s.table, s.txns[t])
  {
    var txn := s.txns[t];
    if NumbersFree(s.table, txn) {
      FreeIsUnique(s, t);
    } else {
      var x :| x in s.table && x !in txn.rows && s.table[x].project == txn.home
               && txn.first <= s.table[x].number < txn.first + |txn.rows|;
      TakenRepeats(s, t, x);
    }
  }

  /** A range held by another transaction for the project this one writes to is above all it writes. */
  ghost predicate OvertakesNone(s: State, t: int)
    requires t in s.txns
  {
    forall u :: u in s.txns && u != t && HasRange(s.txns[u]) && s.txns[u].target == s.txns[t].home
                && s.txns[t].rows != [] ==>
      s.txns[t].first + |s.txns[t].rows| - 1 < s.txns[u].first
  }

  lemma OvertakingBreaks(s: State, t: int, u: int)
    requires Inv(s) && Enabled(s, Commit(t)) && s.txns[t].rows != []
    requires u in s.txns && u != t && HasRange(s.txns[u]) && s.txns[u].target == s.txns[t].home
    requires s.txns[t].first + |s.txns[t].rows| - 1 >= s.txns[u].first
    ensures !RangesAbove(Next(s, Commit(t)))
  {
    var s', rows := Next(s, Commit(t)), s.txns[t].rows;
    var last := rows[|rows| - 1];
    assert last in rows && IndexOf(rows, last) == |rows| - 1;
    SavedNumbers(s, t, last);
    assert u in s'.txns && last in s'.table && s'.table[last] == Row(s.txns[t].home, s.txns[t].first + |rows| - 1);
  }

  lemma OvertakingNoneKeeps(s: State, t: int)
    requires Inv(s) && RangesAbove(s) && Enabled(s, Commit(t)) && OvertakesNone(s, t)
    ensures RangesAbove(Next(s, Commit(t)))
  {
    var s', txn := Next(s, Commit(t)), s.txns[t];
    forall u, x | u in s'.txns && HasRange(s'.txns[u]) && x in s'.table && s'.table[x].project == s'.txns[u].target
      ensures s'.table[x].number < s'.txns[u].first
    {
      SavedNumbers(s, t, x);
      assert u in s.txns && u != t;
      if x in txn.writes { assert s'.table[x] == txn.writes[x]; } else { assert s'.table[x] == s.table[x]; }
    }
  }

  /** A commit keeps held ranges above committed numbers if and only if it overtakes none. */
  lemma CommitAboveIff(s: State, t: int)
    requires Inv(s) && RangesAbove(s) && Enabled(s, Commit(t))
    ensures RangesAbove(Next(s, Commit(t))) <==> OvertakesNone(s, t)
  {
    if OvertakesNone(s, t) {
      OvertakingNoneKeeps(s, t);
    } else {
      var u :| u in s.txns && u != t && HasRange(s.txns[u]) && s.txns[u].target == s.txns[t].home
               && s.txns[t].rows != [] && s.txns[t].first + |s.txns[t].rows| - 1 >= s.txns[u].first;
      OvertakingBreaks(s, t, u);
    }
  }

  /** A transaction that writes where it numbers is in nobody's way. */
  lemma HomeIsSafe(s: State, t: int)
    requires Inv(s) && RangesAbove(s) && Enabled(s, Commit(t)) && s.txns[t].home == s.txns[t].target
    ensures NumbersFree(s.table, s.txns[t]) && OvertakesNone(s, t)
  {
    forall u | u in s.txns && u != t && HasRange(s.txns[u]) ensures s.txns[u].target != s.txns[t].target {
      if s.txns[u].target == s.txns[t].target { OneHolder(s, t, u); }
    }
  }

  /**
   The step does not commit an imported subtask whose number is taken in its parent's project,
   or not below a range that is held there.
   */
  ghost predicate Harmless(s: State, a: Action) {
    a.Commit? && Enabled(s, a) && s.txns[a.t].home != s.txns[a.t].target ==>
      NumbersFree(s.table, s.txns[a.t]) && OvertakesNone(s, a.t)
  }

  lemma CommitSafeIff(s: State, t: int)
    requires Inv(s) && Safe(s) && Enabled(s, Commit(t))
    ensures Safe(Next(s, Commit(t))) <==> Harmless(s, Commit(t))
  {
    CommitUniqueIff(s, t);
    CommitAboveIff(s, t);
    if s.txns[t].home == s.txns[t].target { HomeIsSafe(s, t); }
  }

  /** Steps that neither commit nor allocate leave rows and ranges as they are. */
  lemma QuietSafe(s: State, s': State)
    requires Safe(s) && s'.table == s.table
    requires forall u :: u in s'.txns && HasRange(s'.txns[u]) ==>
      && u in s.txns && HasRange(s.txns[u])
      && s'.txns[u].target == s.txns[u].target && s'.txns[u].first == s.txns[u].first
    ensures Safe(s')
  {}

  lemma AllocateSafe(s: State, t: int)
    requires Inv(s) && Safe(s) && Enabled(s, Allocate(t))
    ensures Safe(Next(s, Allocate(t)))
  {
    forall x | x in s.table && s.table[x].project == s.txns[t].target
      ensures s.table[x].number < FirstFree(s, t)
    {
      AllocateIsAbove(s, t, x);
      assert TxnOk(s.table, s.txns[t]);
    }
  }

  lemma OtherStepSafe(s: State, a: Action)
    requires Safe(s) && Enabled(s, a) && !a.Commit? && !a.Allocate?
    ensures Safe(Next(s, a))
  {
    QuietSafe(s, Next(s, a));
  }

  /** From a safe state, a step leads to a safe state if and only if it is harmless. */
  lemma StepSafeIff(s: State, a: Action)
    requires Inv(s) && Safe(s)
    ensures Safe(Step(s, a)) <==> Harmless(s, a)
  {
    if Enabled(s, a) {
      match a
      case Commit(t) => CommitSafeIff(s, t);
      case Allocate(t) => AllocateSafe(s, t);
      case _ => OtherStepSafe(s, a);
    }
  }

  // ---------------------------------------------------------------- runs

  lemma InitialInv(s: State)
    requires Initial(s)
    ensures Inv(s) && Safe(s)
  {}

  /**
   In every interleaving, with any of the transactions rolled back and whatever the counters
   held at the start: the ranges of committed transactions are disjoint and increase in the
   order the project was locked, and a range that is held lies above the counter.
   */
  lemma RangesAlwaysIncrease(s: State, actions: seq<Action>)
    requires Initial(s)
    ensures RangesIncrease(Run(s, actions)) && CountersBelow(Run(s, actions))
  {
    InitialInv(s);
    RunInv(s, actions);
  }

  lemma {:induction false} RunOneMore(s: State, actions: seq<Action>, k: nat)
    requires k < |actions|
    ensures Run(s, actions[..k + 1]) == Step(Run(s, actions[..k]), actions[k])
    decreases k
  {
    var first := actions[..k + 1];
    if k == 0 {
      assert first == [actions[0]] && first[1..] == [] && actions[..0] == [];
      var next := Step(s, actions[0]);
      assert Run(next, []) == next;
    } else {
      RunOneMore(Step(s, actions[0]), actions[1..], k - 1);
      assert first[1..] == actions[1..][..k] && actions[..k][1..] == actions[1..][..k - 1];
    }
  }

  lemma SafeAtStep(s: State, actions: seq<Action>, k: nat)
    requires Initial(s) && k < |actions| && Safe(Run(s, actions[..k]))
    ensures Safe(Run(s, actions[..k + 1])) <==> Harmless(Run(s, actions[..k]), actions[k])
  {
    InitialInv(s);
    RunInv(s, actions[..k]);
    StepSafeIff(Run(s, actions[..k]), actions[k]);
    RunOneMore(s, actions, k);
  }

  /**
   In every interleaving, committed numbers stay distinct in each project and every held range
   stays above them, for as long as no imported subtask is committed in the way of its parent's
   project; the first one that is breaks it.
   */
  lemma InterleavingSafeIff(s: State, actions: seq<Action>)
    requires Initial(s)
    ensures (forall k :: 0 <= k <= |actions| ==> Safe(Run(s, actions[..k])))
      <==> (forall k :: 0 <= k < |actions| ==> Harmless(Run(s, actions[..k]), actions[k]))
  {
    var n := |actions|;
    var good := seq(n + 1, k requires 0 <= k <= n => Safe(Run(s, actions[..k])));
    var harmless := seq(n, k requires 0 <= k < n => Harmless(Run(s, actions[..k]), actions[k]));
    InitialInv(s);
    assert actions[..0] == [] && Run(s, []) == s;
    forall k | 0 <= k < n && good[k] ensures good[k + 1] <==> harmless[k] {
      SafeAtStep(s, actions, k);
    }
    GoodWhileHarmless(good, harmless);
    assert forall k :: 0 <= k <= n ==> good[k] == Safe(Run(s, actions[..k]));
    assert forall k :: 0 <= k < n ==> harmless[k] == Harmless(Run(s, actions[..k]), actions[k]);
  }

  /** Every transaction writes where it numbers. */
  ghost predicate AllAtHome(s: State) {
    forall t :: t in s.txns ==> s.txns[t].home == s.txns[t].target
  }

  lemma StepAtHome(s: State, a: Action)
    requires AllAtHome(s) && !a.BeginImportSubtask?
    ensures AllAtHome(Step(s, a)) && Harmless(s, a)
  {}

  lemma {:induction false} RunAtHome(s: State, actions: seq<Action>)
    requires Inv(s) && Safe(s) && AllAtHome(s)
    requires forall a :: a in actions ==> !a.BeginImportSubtask?
    ensures Safe(Run(s, actions))
    decreases |actions|
  {
    if actions != [] {
      StepInv(s, actions[0]);
      StepAtHome(s, actions[0]);
      StepSafeIff(s, actions[0]);
      RunAtHome(Step(s, actions[0]), actions[1..]);
    }
  }

  /**
   In every interleaving of creations, imports of top-level tasks and moves: no two committed
   tasks of a project share a number, and the ranges of committed transactions are disjoint and
   increase in the order the project was locked.
   */
  lemma EveryInterleavingIsSafe(s: State, actions: seq<Action>)
    requires Initial(s)
    requires forall a :: a in actions ==> !a.BeginImportSubtask?
    ensures UniqueNumbers(Run(s, actions).table)
    ensures RangesIncrease(Run(s, actions))
  {
    InitialInv(s);
    RunAtHome(s, actions);
    RangesAlwaysIncrease(s, actions);
  }

  /**
   From the moment a range is handed out until its transaction ends it lies above the counter,
   in every interleaving, and above every committed number of the project, in every interleaving
   whose steps are harmless.
   */
  lemma RangeStaysAbove(s: State, actions: seq<Action>, t: int, x: int)
    requires Initial(s)
    requires var r := Run(s, actions); t in r.txns && HasRange(r.txns[t])
    ensures var r := Run(s, actions);
      var txn := r.txns[t];
      && Counter(r.counters, txn.target) < txn.first
      && ((forall k :: 0 <= k < |actions| ==> Harmless(Run(s, actions[..k]), actions[k])) ==>
            x in r.table && r.table[x].project == txn.target ==> r.table[x].number < txn.first)
  {
    RangesAlwaysIncrease(s, actions);
    InterleavingSafeIff(s, actions);
    assert actions[..|actions|] == actions;
  }

  // ---------------------------------------------------------------- ranges are on record

  ghost predicate Granted(s: State, t: int) {
    exists i :: 0 <= i < |s.grants| && s.grants[i].txn == t
  }

  /** Whoever has a range, or has committed, has it on record. */
  ghost predicate AllGranted(s: State) {
    && (forall t :: t in s.txns && HasRange(s.txns[t]) ==> Granted(s, t))
    && (forall t :: t in s.committed ==> Granted(s, t))
  }

  lemma StepGranted(s: State, a: Action)
    requires AllGranted(s)
    ensures AllGranted(Step(s, a))
  {
    var next := Step(s, a);
    assert s.grants <= next.grants;
    forall t | Granted(s, t) ensures Granted(next, t) {
      var i :| 0 <= i < |s.grants| && s.grants[i].txn == t;
      assert next.grants[i].txn == t;
    }
    if Enabled(s, a) && a.Allocate? {
      assert next.grants[|s.grants|].txn == a.t;
    }
  }

  /** In every run, each committed transaction has a range on record, so none escapes the statements about ranges. */
  lemma {:induction false} RunGranted(s: State, actions: seq<Action>)
    requires AllGranted(s)
    ensures AllGranted(Run(s, actions))
    decreases |actions|
  {
    if actions != [] {
      StepGranted(s, actions[0]);
      RunGranted(Step(s, actions[0]), actions[1..]);
    }
  }
}
