/**
 Imported subtasks whose parent has been moved to another project. The import numbers them in
 its own project and writes them next to the parent, so they can repeat a number there, and can
 come in above a range that somebody holds there.
 */
module ImportStrays {
  import opened SortedListing
  import opened Numbering
  import opened NumberLock
  import opened LockRuns

  /** Task 10, imported into project 1 as a parent, has been moved to project 2, where task 7 is. */
  const PARENT_MOVED := State(map[7 := Row(2, 6), 10 := Row(2, 7)], map[1 := 5, 2 := 7],
                              map[], map[], map[], [], {}, 11, 0)

  lemma NoNumbers(table: Table, project: int)
    requires forall x :: x in table ==> table[x].project != project
    ensures Highest(NumbersIn(table, project)) == 0
  {
    assert forall x :: x !in NumbersIn(table, project);
    HighestIsAttained(NumbersIn(table, project));
  }

  lemma ImportBegins()
    ensures var begun := Step(PARENT_MOVED, BeginImportSubtask(1, 10));
      && Alone(begun, Txn(1, 2, true, Collecting, [11], 0, map[]))
      && begun.table == PARENT_MOVED.table && FirstFree(begun, 0) == 6
  {
    var begun := Step(PARENT_MOVED, BeginImportSubtask(1, 10));
    assert Visible(begun, 0) == PARENT_MOVED.table;
    NoNumbers(PARENT_MOVED.table, 1);
  }

  lemma SixTwice(table: Table)
    requires table == PARENT_MOVED.table + Numbers(2, [11], 6)
    ensures !UniqueNumbers(table)
  {
    assert 11 in [11] && IndexOf([11], 11) == 0;
    assert table[11] == Row(2, 6) && table[7] == Row(2, 6);
  }

  /** The subtask of task 10 takes number 6 of project 1 and is written to project 2. */
  lemma ImportRepeatsANumber()
    ensures Initial(PARENT_MOVED)
    ensures !UniqueNumbers(Run(PARENT_MOVED, [BeginImportSubtask(1, 10)] + ENDING).table)
  {
    ImportBegins();
    var begun := Step(PARENT_MOVED, BeginImportSubtask(1, 10));
    LoneEnding(begun, Txn(1, 2, true, Collecting, [11], 0, map[]));
    SixTwice(Run(begun, ENDING).table);
    RunOneStep(PARENT_MOVED, BeginImportSubtask(1, 10));
    RunInParts(PARENT_MOVED, [BeginImportSubtask(1, 10)], ENDING);
  }

  /** As before; the counter of project 1 is ahead of the numbers in project 2. */
  const COUNTER_AHEAD := State(map[10 := Row(2, 7)], map[1 := 9, 2 := 7], map[], map[], map[], [], {}, 11, 0)

  lemma HighestInTwo(table: Table)
    requires table == map[10 := Row(2, 7)]
    ensures Highest(NumbersIn(table, 2)) == 7
  {
    var keys := NumbersIn(table, 2);
    assert 10 in keys && keys[10].major == 7;
    HighestIsAttained(keys);
    var x :| x in keys && keys[x].major == Highest(keys);
    assert x == 10;
  }

  /** Transaction 0 creates a task in project 2 and holds the range of number 8. */
  lemma RangeIsHeld() returns (s: State)
    ensures s == Step(Step(Step(COUNTER_AHEAD, BeginCreate(2)), LockProject(0)), Allocate(0))
    ensures s.txns == map[0 := Txn(2, 2, true, Ranged, [11], 8, map[])]
    ensures s.table == COUNTER_AHEAD.table && s.counters == COUNTER_AHEAD.counters
    ensures s.projectLocks == map[2 := 0] && s.nextRow == 12 && s.nextTxn == 1
  {
    var begun := Step(COUNTER_AHEAD, BeginCreate(2));
    var txn := Txn(2, 2, true, Collecting, [11], 0, map[]);
    assert Alone(begun, txn);
    assert Visible(begun, 0) == COUNTER_AHEAD.table;
    HighestInTwo(COUNTER_AHEAD.table);
    LockAndAllocate(begun, txn);
    s := Step(Step(begun, LockProject(0)), Allocate(0));
  }

  /** The import's steps up to its commit. */
  function Imported(s: State): State {
    Step(Step(Step(Step(s, BeginImportSubtask(1, 10)), LockProject(1)), Allocate(1)), Save(1))
  }

  /** Two transactions: 0 holds number 8 of project 2, 1 is the import. */
  ghost predicate TwoRunning(s: State, other: Txn) {
    && s.txns == map[0 := Txn(2, 2, true, Ranged, [11], 8, map[]), 1 := other]
    && s.table == map[10 := Row(2, 7)] && s.counters == map[1 := 9, 2 := 7]
  }

  lemma ImportIsLocked(s: State)
    requires s.txns == map[0 := Txn(2, 2, true, Ranged, [11], 8, map[])]
    requires s.table == map[10 := Row(2, 7)] && s.counters == map[1 := 9, 2 := 7]
    requires s.projectLocks == map[2 := 0] && s.nextRow == 12 && s.nextTxn == 1
    ensures TwoRunning(Step(Step(s, BeginImportSubtask(1, 10)), LockProject(1)),
                       Txn(1, 2, true, Locked, [12], 0, map[]))
  {
    var begun := Step(s, BeginImportSubtask(1, 10));
    assert begun.txns[1] == Txn(1, 2, true, Collecting, [12], 0, map[]);
  }

  /** Project 1 is free, and gives the import number 10. */
  lemma ImportIsNumbered(s: State)
    requires TwoRunning(s, Txn(1, 2, true, Locked, [12], 0, map[]))
    ensures TwoRunning(Step(Step(s, Allocate(1)), Save(1)),
                       Txn(1, 2, true, Saved, [12], 10, Numbers(2, [12], 10)))
  {
    assert Visible(s, 1) == s.table;
    NoNumbers(s.table, 1);
    var ranged := Step(s, Allocate(1));
    assert ranged.txns[1] == Txn(1, 2, true, Ranged, [12], 10, map[]);
  }

  lemma TenOverEight(s: State)
    requires TwoRunning(s, Txn(1, 2, true, Saved, [12], 10, Numbers(2, [12], 10)))
    ensures !RangesAbove(Step(s, Commit(1)))
  {
    var end := Step(s, Commit(1));
    assert 12 in [12] && IndexOf([12], 12) == 0;
    assert end.table[12] == Row(2, 10) && 0 in end.txns && end.txns[0] == s.txns[0];
  }

  /**
   While a creation in project 2 holds number 8, the import commits a row of project 2 with
   number 10.
   */
  lemma ImportOvertakesARange()
    ensures Initial(COUNTER_AHEAD)
    ensures var held := Step(Step(Step(COUNTER_AHEAD, BeginCreate(2)), LockProject(0)), Allocate(0));
      !RangesAbove(Step(Imported(held), Commit(1)))
  {
    var held := RangeIsHeld();
    ImportIsLocked(held);
    ImportIsNumbered(Step(Step(held, BeginImportSubtask(1, 10)), LockProject(1)));
    TenOverEight(Imported(held));
  }
}
