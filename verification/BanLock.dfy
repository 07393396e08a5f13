/**
 Assignments against bans.

 A transaction that assigns users first reads them as active members FOR SHARE; a transaction
 that bans a user first updates the user row and then deletes the user's assignments. Both
 keep their row locks until they end. A locked row that was waited for is read again, so the
 check sees the committed flag. Transactions interleave freely; a step that must wait changes
 nothing.

 The user row may have been loaded long before the ban transaction starts, and saving a row
 writes, and so locks, only if the flag differs from the one that was loaded.
 */
module BanLock {

  datatype Phase = Open | Written | Cleared

  datatype Txn =
    | Assign(task: int, wanted: set<int>, checked: set<int>, phase: Phase,
             adds: set<(int, int)>, removes: set<(int, int)>)
    | Ban(user: int, loaded: bool, value: bool, phase: Phase, removes: set<(int, int)>)

  datatype State = State(
    banned: set<int>,
    assignments: set<(int, int)>,
    shared: set<(int, int)>,
    exclusive: map<int, int>,
    txns: map<int, Txn>,
    nextTxn: int)

  datatype Action =
    | BeginAssign(task: int, wanted: set<int>)
    | CheckUser(t: int, user: int)
    | WriteAssignees(t: int)
    | BeginBan(user: int, loaded: bool, value: bool)
    | SaveUser(t: int)
    | ClearAssignees(t: int)
    | Commit(t: int)
    | Rollback(t: int)

  /** The assignments of a task. */
  function OfTask(rows: set<(int, int)>, task: int): set<(int, int)> {
    set r | r in rows && r.0 == task
  }

  function OfUser(rows: set<(int, int)>, user: int): set<(int, int)> {
    set r | r in rows && r.1 == user
  }

  predicate Changes(txn: Txn) {
    txn.Ban? && txn.value != txn.loaded
  }

  predicate Enabled(s: State, a: Action) {
    match a
    case BeginAssign(_, _) => true
    // The row lock is free of writers, and the committed flag passes the check.
    case CheckUser(t, user) => t in s.txns && s.txns[t].Assign? && s.txns[t].phase == Open
                               && user in s.txns[t].wanted && user !in s.exclusive && user !in s.banned
    case WriteAssignees(t) => t in s.txns && s.txns[t].Assign? && s.txns[t].phase == Open
                              && s.txns[t].checked == s.txns[t].wanted
    case BeginBan(_, _, _) => true
    // Updating the row waits for every reader and writer of it.
    case SaveUser(t) => t in s.txns && s.txns[t].Ban? && s.txns[t].phase == Open
                        && (Changes(s.txns[t]) ==>
                              s.txns[t].user !in s.exclusive && forall k :: k in s.shared ==> k.0 != s.txns[t].user)
    case ClearAssignees(t) => t in s.txns && s.txns[t].Ban? && s.txns[t].phase == Written && s.txns[t].value
    case Commit(t) => t in s.txns
                      && s.txns[t].phase == (if s.txns[t].Ban? && s.txns[t].value then Cleared else Written)
    case Rollback(t) => t in s.txns
  }

  function End(s: State, t: int): State {
    s.(txns := s.txns - {t},
       shared := (set k | k in s.shared && k.1 != t),
       exclusive := map u | u in s.exclusive && s.exclusive[u] != t :: s.exclusive[u])
  }

  function Committed(s: State, t: int): State
    requires t in s.txns
  {
    match s.txns[t]
    case Assign(_, _, _, _, adds, removes) => End(s, t).(assignments := s.assignments - removes + adds)
    case Ban(user, loaded, value, _, removes) =>
      End(s, t).(
        banned := if value == loaded then s.banned else if value then s.banned + {user} else s.banned - {user},
        assignments := s.assignments - removes)
  }

  function Next(s: State, a: Action): State
    requires Enabled(s, a)
  {
    match a
    case BeginAssign(task, wanted) =>
      s.(txns := s.txns[s.nextTxn := Assign(task, wanted, {}, Open, {}, {})], nextTxn := s.nextTxn + 1)
    case CheckUser(t, user) =>
      s.(txns := s.txns[t := s.txns[t].(checked := s.txns[t].checked + {user})],
         shared := s.shared + {(user, t)})
    case WriteAssignees(t) =>
      // The task's rows are deleted and the wanted ones inserted.
      s.(txns := s.txns[t := s.txns[t].(phase := Written,
                                       adds := set u | u in s.txns[t].wanted :: (s.txns[t].task, u),
                                       removes := OfTask(s.assignments, s.txns[t].task))])
    case BeginBan(user, loaded, value) =>
      s.(txns := s.txns[s.nextTxn := Ban(user, loaded, value, Open, {})], nextTxn := s.nextTxn + 1)
    case SaveUser(t) =>
      s.(txns := s.txns[t := s.txns[t].(phase := Written)],
         exclusive := if Changes(s.txns[t]) then s.exclusive[s.txns[t].user := t] else s.exclusive)
    case ClearAssignees(t) =>
      s.(txns := s.txns[t := s.txns[t].(phase := Cleared, removes := OfUser(s.assignments, s.txns[t].user))])
    case Commit(t) => Committed(s, t)
    case Rollback(t) => End(s, t)
  }

  function Step(s: State, a: Action): State {
    if Enabled(s, a) then Next(s, a) else s
  }

  function Run(s: State, actions: seq<Action>): State
    decreases |actions|
  {
    if actions == [] then s else Run(Step(s, actions[0]), actions[1..])
  }

  // ---------------------------------------------------------------- safety

  ghost predicate NoBannedAssignee(s: State) {
    forall r :: r in s.assignments ==> r.1 !in s.banned
  }

  /** Readers of a user row are known to be readers, saw an active user, and exclude writers. */
  ghost predicate ReadersOk(s: State) {
    && (forall t, u :: t in s.txns && s.txns[t].Assign? && u in s.txns[t].checked ==>
          (u, t) in s.shared && u !in s.banned)
    && (forall k :: k in s.shared ==> k.0 !in s.exclusive)
    && (forall t :: t in s.txns && s.txns[t].Assign? ==>
          forall r :: r in s.txns[t].adds ==> r.1 in s.txns[t].checked)
  }

  /** A ban that has cleared the assignments keeps them cleared, for it still holds the row. */
  ghost predicate WritersOk(s: State) {
    forall t :: t in s.txns && Changes(s.txns[t]) && s.txns[t].phase != Open ==>
      var txn := s.txns[t];
      && txn.user in s.exclusive && s.exclusive[txn.user] == t
      && (txn.phase == Cleared ==> forall r :: r in s.assignments && r.1 == txn.user ==> r in txn.removes)
  }

  ghost predicate Inv(s: State) {
    && NoBannedAssignee(s) && ReadersOk(s) && WritersOk(s)
    && (forall t :: t in s.txns ==> t < s.nextTxn)
    && (forall t :: t in s.txns && s.txns[t].Ban? && s.txns[t].phase != Cleared ==> s.txns[t].removes == {})
    && (forall k :: k in s.shared ==> k.1 < s.nextTxn)
    && (forall u :: u in s.exclusive ==> s.exclusive[u] < s.nextTxn)
  }

  ghost predicate Initial(s: State) {
    s.txns == map[] && s.shared == {} && s.exclusive == map[] && NoBannedAssignee(s)
  }

  lemma EndSafe(s: State, t: int)
    requires Inv(s) && t in s.txns
    ensures Inv(End(s, t))
  {}

  lemma CommitAssignSafe(s: State, t: int)
    requires Inv(s) && Enabled(s, Commit(t)) && s.txns[t].Assign?
    ensures Inv(Committed(s, t))
  {
    EndSafe(s, t);
    var s' := Committed(s, t);
    forall r | r in s.txns[t].adds ensures r.1 !in s.banned && r.1 !in s.exclusive {
      assert r.1 in s.txns[t].checked;
      var k := (r.1, t);
      assert k in s.shared;
    }
    forall u | u in s'.txns && Changes(s'.txns[u]) && s'.txns[u].phase == Cleared
      ensures forall r :: r in s'.assignments && r.1 == s'.txns[u].user ==> r in s'.txns[u].removes
    {
      assert s.txns[u].user in s.exclusive;
    }
  }

  lemma CommitBanSafe(s: State, t: int)
    requires Inv(s) && Enabled(s, Commit(t)) && s.txns[t].Ban?
    ensures Inv(Committed(s, t))
  {
    EndSafe(s, t);
    var s' := Committed(s, t);
    if Changes(s.txns[t]) && s.txns[t].value {
      var user := s.txns[t].user;
      forall r | r in s'.assignments ensures r.1 != user {}
      forall v | v in s'.txns && s'.txns[v].Assign? ensures user !in s'.txns[v].checked {
        assert user in s'.txns[v].checked ==> (user, v) in s.shared;
      }
    }
  }

  lemma CheckUserSafe(s: State, t: int, user: int)
    requires Inv(s) && Enabled(s, CheckUser(t, user))
    ensures Inv(Next(s, CheckUser(t, user)))
  {}

  lemma SaveUserSafe(s: State, t: int)
    requires Inv(s) && Enabled(s, SaveUser(t))
    ensures Inv(Next(s, SaveUser(t)))
  {}

  lemma StepSafe(s: State, a: Action)
    requires Inv(s)
    ensures Inv(Step(s, a))
  {
    if Enabled(s, a) {
      match a
      case BeginAssign(_, _) =>
      case CheckUser(t, user) => CheckUserSafe(s, t, user);
      case WriteAssignees(t) =>
      case BeginBan(_, _, _) =>
      case SaveUser(t) => SaveUserSafe(s, t);
      case ClearAssignees(t) =>
      case Commit(t) =>
        if s.txns[t].Assign? { CommitAssignSafe(s, t); } else { CommitBanSafe(s, t); }
      case Rollback(t) => EndSafe(s, t);
    }
  }

  lemma {:induction false} RunKeepsInv(s: State, actions: seq<Action>)
    requires Inv(s)
    ensures Inv(Run(s, actions))
    decreases |actions|
  {
    if actions != [] {
      StepSafe(s, actions[0]);
      RunKeepsInv(Step(s, actions[0]), actions[1..]);
    }
  }

  /**
   In every interleaving of assignments and bans, with any of them rolled back and user rows
   loaded at any earlier time, no committed state has a banned user holding an assignment.
   */
  lemma BannedUsersHoldNothing(s: State, actions: seq<Action>)
    requires Initial(s)
    ensures NoBannedAssignee(Run(s, actions))
  {
    assert Inv(s);
    RunKeepsInv(s, actions);
  }

  // ---------------------------------------------------------------- what a transaction achieves

  /** Nothing of transaction `t` is left, and all else is as it was. */
  ghost predicate Gone(s: State, next: State, t: int) {
    && (forall u :: u in next.txns <==> u in s.txns && u != t)
    && (forall u :: u in next.txns ==> next.txns[u] == s.txns[u])
    && (forall k :: k in next.shared <==> k in s.shared && k.1 != t)
    && (forall u :: u in next.exclusive <==> u in s.exclusive && s.exclusive[u] != t)
    && (forall u :: u in next.exclusive ==> next.exclusive[u] == s.exclusive[u])
    && next.nextTxn == s.nextTxn
  }

  /** A rolled back transaction leaves flags and assignments alone. */
  lemma RollbackLeavesNothing(s: State, t: int)
    requires t in s.txns
    ensures var next := Step(s, Rollback(t));
      next.banned == s.banned && next.assignments == s.assignments && Gone(s, next, t)
  {}

  /**
   Once all wanted users are checked, writing and committing replaces the assignees of the task by
   them, and of no other task.
   */
  lemma AssignmentReplaces(s: State, t: int)
    requires t in s.txns && s.txns[t].Assign? && s.txns[t].phase == Open && s.txns[t].checked == s.txns[t].wanted
    ensures var end := Step(Step(s, WriteAssignees(t)), Commit(t));
      && end.banned == s.banned && Gone(s, end, t)
      && forall r: (int, int) :: r in end.assignments <==>
           if r.0 == s.txns[t].task then r.1 in s.txns[t].wanted else r in s.assignments
  {
    var txn := s.txns[t];
    var written := Step(s, WriteAssignees(t));
    assert t in written.txns && Enabled(written, Commit(t));
    forall r: (int, int) ensures r in written.txns[t].adds <==> r.0 == txn.task && r.1 in txn.wanted {
      if r.0 == txn.task && r.1 in txn.wanted {
        var u := r.1;
        assert u in txn.wanted && r == (txn.task, u);
      }
    }
  }

  /** Once it may write, a ban sets the flag and takes every assignment from the user, and from nobody else. */
  lemma BanTakesEffect(s: State, t: int)
    requires Enabled(s, SaveUser(t)) && s.txns[t].value
    ensures var end := Step(Step(Step(s, SaveUser(t)), ClearAssignees(t)), Commit(t));
      && end.banned == s.banned + (if s.txns[t].loaded then {} else {s.txns[t].user})
      && end.assignments == set r | r in s.assignments && r.1 != s.txns[t].user
  {
    var saved := Step(s, SaveUser(t));
    assert Enabled(saved, ClearAssignees(t));
    var cleared := Step(saved, ClearAssignees(t));
    assert Enabled(cleared, Commit(t));
  }

  /** Lifting a ban clears the flag if it was loaded as set, and gives back no assignment. */
  lemma LiftingTakesEffect(s: State, t: int)
    requires Inv(s) && Enabled(s, SaveUser(t)) && !s.txns[t].value
    ensures var end := Step(Step(s, SaveUser(t)), Commit(t));
      && end.banned == s.banned - (if s.txns[t].loaded then {s.txns[t].user} else {})
      && end.assignments == s.assignments
  {
    assert Enabled(Step(s, SaveUser(t)), Commit(t));
  }

  /** A check remembers the user and holds the row against writers; it waits for none but a writer. */
  lemma CheckRemembers(s: State, t: int, user: int)
    requires t in s.txns && s.txns[t].Assign? && s.txns[t].phase == Open && user in s.txns[t].wanted
    ensures var next := Step(s, CheckUser(t, user));
      if user in s.exclusive || user in s.banned then next == s
      else next == s.(txns := s.txns[t := s.txns[t].(checked := s.txns[t].checked + {user})],
                      shared := s.shared + {(user, t)})
  {}

  // ---------------------------------------------------------------- why the share lock is needed

  /** The check without its lock: the flag is looked at, and the row is left free. */
  function CheckUnlocked(s: State, t: int, user: int): State
    requires Enabled(s, CheckUser(t, user))
  {
    Next(s, CheckUser(t, user)).(shared := s.shared)
  }

  const FRESH := State({}, {}, {}, map[], map[], 0)

  /** User 5 is written to task 1 by transaction 0, and nobody holds a lock. */
  ghost predicate WrittenUnlocked(s: State) {
    && s.shared == {} && s.exclusive == map[] && s.nextTxn == 1 && s.txns.Keys == {0}
    && s.txns[0].Assign? && s.txns[0].phase == Written && (1, 5) in s.txns[0].adds
  }

  lemma UncheckedWrite()
    ensures var s0 := Step(FRESH, BeginAssign(1, {5}));
      && Enabled(s0, CheckUser(0, 5))
      && WrittenUnlocked(Step(CheckUnlocked(s0, 0, 5), WriteAssignees(0)))
  {
    var s0 := Step(FRESH, BeginAssign(1, {5}));
    assert s0.txns[0] == Assign(1, {5}, {}, Open, {}, {});
    var s1 := CheckUnlocked(s0, 0, 5);
    assert s1.txns[0] == Assign(1, {5}, {5}, Open, {}, {});
  }

  lemma BanSlipsIn(s: State)
    requires WrittenUnlocked(s)
    ensures var s2 := Step(s, BeginBan(5, false, true));
      var s3 := Step(Step(s2, SaveUser(1)), ClearAssignees(1));
      var s4 := Step(Step(s3, Commit(1)), Commit(0));
      (1, 5) in s4.assignments && 5 in s4.banned
  {
    var s2 := Step(s, BeginBan(5, false, true));
    assert s2.txns[1] == Ban(5, false, true, Open, {});
    var s3 := Step(s2, SaveUser(1));
    assert s3.txns[1] == Ban(5, false, true, Written, {});
    var s4 := Step(s3, ClearAssignees(1));
    var s5 := Step(s4, Commit(1));
    assert s5.txns[0] == s.txns[0] && 5 in s5.banned;
  }

  /**
   If the check did not lock, a ban could slip between check and commit, and a banned user
   would end up assigned.
   */
  lemma LockIsNeeded()
    ensures Initial(FRESH)
    ensures var s0 := Step(FRESH, BeginAssign(1, {5}));
      && Enabled(s0, CheckUser(0, 5))
      && var s1 := Step(CheckUnlocked(s0, 0, 5), WriteAssignees(0));
         var s2 := Step(s1, BeginBan(5, false, true));
         var s3 := Step(Step(s2, SaveUser(1)), ClearAssignees(1));
         var s4 := Step(Step(s3, Commit(1)), Commit(0));
         (1, 5) in s4.assignments && 5 in s4.banned
  {
    UncheckedWrite();
    BanSlipsIn(Step(CheckUnlocked(Step(FRESH, BeginAssign(1, {5})), 0, 5), WriteAssignees(0)));
  }
}
