/** Runs of the locking protocol with one transaction alone. */
module LockRuns {
  import opened NumberLock

  lemma {:induction false} RunInParts(s: State, first: seq<Action>, second: seq<Action>)
    ensures Run(s, first + second) == Run(Run(s, first), second)
    decreases |first|
  {
    if first == [] {
      assert first + second == second;
    } else {
      RunInParts(Step(s, first[0]), first[1..], second);
      assert (first + second)[1..] == first[1..] + second;
    }
  }

  lemma RunOneStep(s: State, a: Action)
    ensures Run(s, [a]) == Step(s, a)
  {
    assert [a][1..] == [];
    assert Run(Step(s, a), []) == Step(s, a);
  }

  // ---------------------------------------------------------------- a lone transaction

  /** Transaction 0 is the only one and holds all locks. */
  ghost predicate Alone(s: State, txn: Txn) {
    && s.txns == map[0 := txn]
    && (forall x :: x in s.rowLocks ==> s.rowLocks[x] == 0)
    && s.projectLocks == if HoldsProject(txn) then map[txn.target := 0] else map[]
  }

  lemma LockStep(s: State, txn: Txn)
    requires Alone(s, txn) && txn.phase == (if txn.creates then Collecting else Placed)
    ensures var next := Step(s, LockProject(0));
      && Alone(next, txn.(phase := Locked))
      && next.table == s.table && next.counters == s.counters
  {}

  lemma AllocateStep(s: State, txn: Txn)
    requires Alone(s, txn) && txn.phase == Locked
    ensures var next := Step(s, Allocate(0));
      && Alone(next, txn.(phase := Ranged, first := FirstFree(s, 0)))
      && next.table == s.table && next.counters == s.counters
  {}

  lemma SaveStep(s: State, txn: Txn)
    requires Alone(s, txn) && txn.phase == Ranged
    ensures var next := Step(s, Save(0));
      && Alone(next, txn.(phase := Saved, writes := Numbered(txn)))
      && next.table == s.table && next.counters == s.counters
  {}

  /** No transaction is left, and no lock. */
  ghost predicate Idle(s: State) {
    s.txns == map[] && s.projectLocks == map[] && s.rowLocks == map[]
  }

  lemma AllReleased(locks: map<int, int>)
    requires forall x :: x in locks ==> locks[x] == 0
    ensures Released(locks, 0) == map[]
  {
    assert forall x :: x !in Released(locks, 0);
  }

  lemma CommitStep(s: State, txn: Txn)
    requires Alone(s, txn) && txn.phase == Saved
    ensures var end := Step(s, Commit(0));
      && Idle(end)
      && end.table == s.table + txn.writes
      && end.counters == s.counters[txn.target := txn.first + |txn.rows| - 1]
  {
    assert s.txns - {0} == map[];
    AllReleased(s.rowLocks);
    AllReleased(s.projectLocks);
  }

  /** The end of every transaction, from the project lock on. */
  const ENDING: seq<Action> := [LockProject(0)] + [Allocate(0)] + [Save(0)] + [Commit(0)]

  lemma EndingSteps(s: State)
    ensures Run(s, ENDING)
         == Step(Step(Step(Step(s, LockProject(0)), Allocate(0)), Save(0)), Commit(0))
  {
    var one, two := [LockProject(0)], [LockProject(0)] + [Allocate(0)];
    RunOneStep(s, LockProject(0));
    RunInParts(s, one, [Allocate(0)]);
    RunOneStep(Run(s, one), Allocate(0));
    RunInParts(s, two, [Save(0)]);
    RunOneStep(Run(s, two), Save(0));
    RunInParts(s, two + [Save(0)], [Commit(0)]);
    RunOneStep(Run(s, two + [Save(0)]), Commit(0));
  }

  /** A transaction has given `rows` the numbers from `first` on, and is gone. */
  ghost predicate Renumbered(end: State, table: Table, counters: map<int, int>,
                             target: int, home: int, rows: seq<int>, first: int) {
    && Idle(end)
    && end.table == table + Numbers(home, rows, first)
    && end.counters == counters[target := first + |rows| - 1]
  }

  lemma LockAndAllocate(s: State, txn: Txn)
    requires Alone(s, txn) && txn.phase == (if txn.creates then Collecting else Placed)
    ensures var ranged := Step(Step(s, LockProject(0)), Allocate(0));
      && Alone(ranged, txn.(phase := Ranged, first := FirstFree(s, 0)))
      && ranged.table == s.table && ranged.counters == s.counters
  {
    LockStep(s, txn);
    var locked := Step(s, LockProject(0));
    assert Visible(locked, 0) == Visible(s, 0);
    AllocateStep(locked, txn.(phase := Locked));
  }

  lemma SaveAndCommit(s: State, txn: Txn)
    requires Alone(s, txn) && txn.phase == Ranged
    ensures Renumbered(Step(Step(s, Save(0)), Commit(0)), s.table, s.counters,
                       txn.target, txn.home, txn.rows, txn.first)
  {
    SaveStep(s, txn);
    CommitStep(Step(s, Save(0)), txn.(phase := Saved, writes := Numbered(txn)));
  }

  /** A transaction that is about to lock its project numbers its rows from the first free number. */
  lemma LoneEnding(s: State, txn: Txn)
    requires Alone(s, txn) && txn.phase == (if txn.creates then Collecting else Placed)
    ensures Renumbered(Run(s, ENDING), s.table, s.counters, txn.target, txn.home, txn.rows, FirstFree(s, 0))
  {
    LockAndAllocate(s, txn);
    SaveAndCommit(Step(Step(s, LockProject(0)), Allocate(0)),
                  txn.(phase := Ranged, first := FirstFree(s, 0)));
    EndingSteps(s);
  }
}
