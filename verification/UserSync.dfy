/**
 The ERP user synchronisation script.

 One loop goes through the ERP list, editing the user table and two indexes over it, by ERP id
 and by service number. A first pass marks the service numbers that several ERP ids share.
 */
module UserSync {
  import opened Wrappers

  /** An ERP entry; absent fields are `None`. The id is a number written out, so never empty. */
  datatype ErpUser = ErpUser(
    id: string,
    initial: string,
    tabel: string,
    login: string,
    ban: Option<bool>,
    image: Option<Option<string>>)

  datatype User = User(
    erpId: Option<string>,
    serviceNumber: string,
    initial: string,
    login: string,
    image: Option<string>,
    ban: bool)

  datatype Outcome = Created | Updated | Skipped | Conflict

  function ServiceNumber(erp: ErpUser): string {
    if erp.tabel != "" then erp.tabel else erp.id
  }

  function Merged(user: User, erp: ErpUser): User {
    User(Some(erp.id),
         if ServiceNumber(erp) != "" then ServiceNumber(erp) else user.serviceNumber,
         if erp.initial != "" then erp.initial else user.initial,
         if erp.login != "" then erp.login else user.login,
         if erp.image.Some? then erp.image.value else user.image,
         if erp.ban.Some? then erp.ban.value else user.ban)
  }

  function NewUser(erp: ErpUser): User {
    User(Some(erp.id), ServiceNumber(erp),
         if erp.initial != "" then erp.initial else erp.login,
         erp.login,
         if erp.image.Some? && erp.image.value != Some("") then erp.image.value else None,
         erp.ban.Some? && erp.ban.value)
  }

  // ---------------------------------------------------------------- what an entry says

  /** A matched user afterwards: what the entry gives is taken over, the rest stays. */
  ghost predicate TakesOver(before: User, after: User, erp: ErpUser) {
    && after.erpId == Some(erp.id)
    && after.serviceNumber == (if erp.tabel != "" then erp.tabel else erp.id)
    && after.initial == (if erp.initial != "" then erp.initial else before.initial)
    && after.login == (if erp.login != "" then erp.login else before.login)
    && after.image == (if erp.image.Some? then erp.image.value else before.image)
    && after.ban == (if erp.ban.Some? then erp.ban.value else before.ban)
  }

  /** A created user: the login stands in for a missing name, and an empty image is none. */
  ghost predicate StartsAs(user: User, erp: ErpUser) {
    && user.erpId == Some(erp.id)
    && user.serviceNumber == (if erp.tabel != "" then erp.tabel else erp.id)
    && user.initial == (if erp.initial != "" then erp.initial else erp.login) && user.login == erp.login
    && user.image == (if erp.image.None? || erp.image.value == Some("") then None else erp.image.value)
    && user.ban == (erp.ban == Some(true))
  }

  /** The user has whatever the entry gives. */
  ghost predicate HasValuesOf(user: User, erp: ErpUser) {
    && user.erpId == Some(erp.id)
    && user.serviceNumber == (if erp.tabel != "" then erp.tabel else erp.id)
    && (erp.initial != "" ==> user.initial == erp.initial)
    && (erp.login != "" ==> user.login == erp.login)
    && (erp.image.Some? ==> user.image == erp.image.value || (erp.image.value == Some("") && user.image.None?))
    && (erp.ban.Some? ==> user.ban == erp.ban.value)
  }

  lemma MergedTakesOver(user: User, erp: ErpUser)
    requires erp.id != ""
    ensures TakesOver(user, Merged(user, erp), erp) && HasValuesOf(Merged(user, erp), erp)
  {}

  lemma NewUserStarts(erp: ErpUser)
    ensures StartsAs(NewUser(erp), erp) && HasValuesOf(NewUser(erp), erp)
  {}

  // ---------------------------------------------------------------- the table and its indexes

  type Users = map<int, User>

  ghost predicate UniqueKeys(users: Users) {
    forall u, v :: u in users && v in users && u != v ==>
      && users[u].serviceNumber != users[v].serviceNumber
      && (users[u].erpId.Some? ==> users[u].erpId != users[v].erpId)
  }

  predicate HasErpId(user: User) {
    user.erpId.Some? && user.erpId.value != ""
  }

  /** The index holds every user with a nonempty ERP id under that id, and nothing else. */
  ghost predicate ErpIndexAgrees(users: Users, index: map<string, int>) {
    && (forall k :: k in index ==> k != "" && index[k] in users && users[index[k]].erpId == Some(k))
    && (forall u :: u in users && users[u].erpId.Some? && users[u].erpId.value != "" ==>
          users[u].erpId.value in index && index[users[u].erpId.value] == u)
  }

  ghost predicate NumberIndexAgrees(users: Users, index: map<string, int>) {
    && (forall k :: k in index ==> index[k] in users && users[index[k]].serviceNumber == k)
    && (forall u :: u in users ==>
          users[u].serviceNumber in index && index[users[u].serviceNumber] == u)
  }

  /** Exactly one user has this ERP id. */
  ghost predicate OwnedByOne(users: Users, erpId: string) {
    exists u :: u in users && users[u].erpId == Some(erpId)
      && forall v :: v in users && users[v].erpId == Some(erpId) ==> v == u
  }

  // ---------------------------------------------------------------- the first pass

  /** One of the first `n` entries gives `serviceNumber` to `id`. */
  ghost predicate Gives(entries: seq<ErpUser>, n: nat, serviceNumber: string, id: string) {
    exists i :: 0 <= i < n <= |entries| && ServiceNumber(entries[i]) == serviceNumber && entries[i].id == id
  }

  /** The first `n` entries give the same service number to different ERP ids. */
  ghost predicate Shared(entries: seq<ErpUser>, n: nat, serviceNumber: string) {
    exists a, b :: a != b && Gives(entries, n, serviceNumber, a) && Gives(entries, n, serviceNumber, b)
  }

  lemma GivesOneMore(entries: seq<ErpUser>, k: nat, s: string, id: string)
    requires k < |entries|
    ensures Gives(entries, k + 1, s, id)
      <==> Gives(entries, k, s, id) || (ServiceNumber(entries[k]) == s && entries[k].id == id)
  {
    if Gives(entries, k + 1, s, id) {
      var i :| 0 <= i < k + 1 && ServiceNumber(entries[i]) == s && entries[i].id == id;
      assert i < k ==> Gives(entries, k, s, id);
    }
    if Gives(entries, k, s, id) {
      var i :| 0 <= i < k && ServiceNumber(entries[i]) == s && entries[i].id == id;
    }
  }

  /** What the first pass knows after `k` entries. */
  ghost predicate PassInvariant(entries: seq<ErpUser>, k: nat, lastId: map<string, string>, ambiguous: set<string>) {
    && (forall s :: s in lastId ==> Gives(entries, k, s, lastId[s]))
    && (forall s, id :: Gives(entries, k, s, id) ==> s in lastId && (s in ambiguous || id == lastId[s]))
    && (forall s :: s in ambiguous ==> Shared(entries, k, s))
  }

  lemma PassStep(entries: seq<ErpUser>, k: nat, lastId: map<string, string>, ambiguous: set<string>)
    requires k < |entries| && PassInvariant(entries, k, lastId, ambiguous)
    ensures var s := ServiceNumber(entries[k]);
      PassInvariant(entries, k + 1, lastId[s := entries[k].id],
        if s in lastId && lastId[s] != entries[k].id then ambiguous + {s} else ambiguous)
  {
    var t, own := ServiceNumber(entries[k]), entries[k].id;
    var marked := if t in lastId && lastId[t] != own then ambiguous + {t} else ambiguous;
    GivesOneMore(entries, k, t, own);
    forall s | s in lastId ensures Gives(entries, k + 1, s, lastId[s]) { GivesOneMore(entries, k, s, lastId[s]); }
    var n := k + 1;
    forall s, id | Gives(entries, n, s, id)
      ensures s in lastId[t := own] && (s in marked || id == lastId[t := own][s])
    {
      GivesOneMore(entries, k, s, id);
    }
    forall s | s in marked ensures Shared(entries, k + 1, s) {
      if s in ambiguous {
        var a, b :| a != b && Gives(entries, k, s, a) && Gives(entries, k, s, b);
        GivesOneMore(entries, k, s, a);
        GivesOneMore(entries, k, s, b);
      } else {
        assert Gives(entries, k + 1, s, lastId[s]) && Gives(entries, k + 1, s, own);
      }
    }
  }

  /** Remembers only the last id seen per service number, yet finds every shared one. */
  method AmbiguousServiceNumbers(entries: seq<ErpUser>) returns (ambiguous: set<string>)
    requires forall i :: 0 <= i < |entries| ==> entries[i].id != ""
    ensures forall s :: s in ambiguous <==> Shared(entries, |entries|, s)
  {
    ambiguous := {};
    var lastId: map<string, string> := map[];
    var k := 0;
    while k < |entries|
      invariant 0 <= k <= |entries|
      invariant PassInvariant(entries, k, lastId, ambiguous)
    {
      PassStep(entries, k, lastId, ambiguous);
      var s := ServiceNumber(entries[k]);
      if s in lastId && lastId[s] != entries[k].id {
        ambiguous := ambiguous + {s};
      }
      lastId := lastId[s := entries[k].id];
      k := k + 1;
    }
  }

  // ---------------------------------------------------------------- re-keying

  /** The old key goes, the new one comes. */
  function RekeyErp(index: map<string, int>, was: User, erpId: string, u: int): map<string, int> {
    (if HasErpId(was) then index - {was.erpId.value} else index)[erpId := u]
  }

  function RekeyNumber(index: map<string, int>, was: string, now: string, u: int): map<string, int> {
    if was == now then index else (index - {was})[now := u]
  }

  lemma RekeyErpAgrees(users: Users, index: map<string, int>, u: int, user: User)
    requires ErpIndexAgrees(users, index) && u in users && HasErpId(user)
    requires user.erpId.value in index ==> index[user.erpId.value] == u
    ensures ErpIndexAgrees(users[u := user], RekeyErp(index, users[u], user.erpId.value, u))
  {}

  lemma RekeyNumberAgrees(users: Users, index: map<string, int>, u: int, user: User)
    requires NumberIndexAgrees(users, index) && u in users
    requires user.serviceNumber in index ==> index[user.serviceNumber] == u
    ensures NumberIndexAgrees(users[u := user], RekeyNumber(index, users[u].serviceNumber, user.serviceNumber, u))
  {}

  /** A user added under two free keys is where both indexes look for it. */
  lemma NewUserAgrees(users: Users, byErpId: map<string, int>, byNumber: map<string, int>, u: int, user: User)
    requires u !in users && ErpIndexAgrees(users, byErpId) && NumberIndexAgrees(users, byNumber) && UniqueKeys(users)
    requires HasErpId(user) && user.erpId.value !in byErpId && user.serviceNumber !in byNumber
    ensures ErpIndexAgrees(users[u := user], byErpId[user.erpId.value := u])
    ensures NumberIndexAgrees(users[u := user], byNumber[user.serviceNumber := u])
    ensures UniqueKeys(users[u := user])
  {}

  /** Matching through the indexes never gives a key to two users. */
  lemma KeysStayUnique(users: Users, byErpId: map<string, int>, byNumber: map<string, int>, u: int, user: User)
    requires UniqueKeys(users) && ErpIndexAgrees(users, byErpId) && NumberIndexAgrees(users, byNumber)
    requires HasErpId(user)
    requires user.erpId.value in byErpId ==> byErpId[user.erpId.value] == u
    requires user.serviceNumber in byNumber ==> byNumber[user.serviceNumber] == u
    ensures UniqueKeys(users[u := user])
  {}

  // ---------------------------------------------------------------- the loop

  class Synchronizer {
    /** The loaded user objects, which the indexes point at. */
    var users: Users
    var byErpId: map<string, int>
    var byServiceNumber: map<string, int>
    /** The database: user rows and task assignments. */
    var table: Users
    var assignments: set<(int, int)>
    var nextId: int
    const dryRun: bool

    ghost predicate Known()
      reads this
    {
      && (forall k :: k in byErpId ==> byErpId[k] in users)
      && (forall k :: k in byServiceNumber ==> byServiceNumber[k] in users)
      && (forall u :: u in users ==> u < nextId)
      && table.Keys == users.Keys
    }

    /** Outside a dry run the loaded objects are the rows, and both indexes agree with them. */
    ghost predicate InStep()
      reads this
    {
      && Known()
      && table == users
      && ErpIndexAgrees(users, byErpId)
      && NumberIndexAgrees(users, byServiceNumber)
      && UniqueKeys(users)
    }

    /** Between two entries: everything agrees, and the owners so far are settled and up to date. */
    ghost predicate Consistent(entries: seq<ErpUser>, ambiguous: set<string>, last: map<string, nat>)
      reads this
    {
      && Known()
      && (!dryRun ==>
            && InStep()
            && Settled(entries, ambiguous, users, byErpId, assignments, last.Keys)
            && Current(entries, users, byErpId, last)
            && forall r :: r in assignments ==> r.1 in users)
    }

    constructor (table: Users, assignments: set<(int, int)>, nextId: int, dryRun: bool)
      requires UniqueKeys(table)
      requires forall u :: u in table ==> u < nextId
      ensures InStep() && this.dryRun == dryRun
      ensures this.table == table && this.assignments == assignments && this.nextId == nextId
    {
      this.dryRun := dryRun;
      this.table, this.users, this.assignments, this.nextId := table, table, assignments, nextId;
      this.byErpId := map u | u in table && HasErpId(table[u]) :: table[u].erpId.value := u;
      this.byServiceNumber := map u | u in table :: table[u].serviceNumber := u;
    }

    /** One entry of the list. */
    method Process(erp: ErpUser, ambiguous: set<string>) returns (outcome: Outcome)
      requires erp.id != ""
      requires Known() && (!dryRun ==> InStep())
      modifies this
      ensures Known() && (!dryRun ==> InStep())
      ensures nextId >= old(nextId)
      ensures dryRun ==> table == old(table) && assignments == old(assignments)
      ensures outcome.Conflict? ==>
        users == old(users) && table == old(table) && assignments == old(assignments) && byErpId == old(byErpId)
      ensures !dryRun ==> (outcome.Conflict? <==>
        || ServiceNumber(erp) in ambiguous
        || exists u, v :: u in old(users) && v in old(users) && u != v
             && old(users)[u].erpId == Some(erp.id) && old(users)[v].serviceNumber == ServiceNumber(erp))
      ensures !dryRun && !outcome.Conflict? ==>
        && ServiceNumber(erp) !in ambiguous
        && erp.id in byErpId
        && var u := byErpId[erp.id];
           && (if u in old(users)
               then users == old(users)[u := Merged(old(users)[u], erp)]
                    && (old(users)[u].erpId == Some(erp.id) || old(users)[u].serviceNumber == ServiceNumber(erp))
               else u == old(nextId) && users == old(users)[u := NewUser(erp)])
           && assignments == (if users[u].ban && u in old(users)
                              then set r | r in old(assignments) && r.1 != u else old(assignments))
      ensures !dryRun && !outcome.Conflict? ==>
        var u := byErpId[erp.id];
        && u in table && table == old(table)[u := table[u]]
        && (if u in old(table) then TakesOver(old(table)[u], table[u], erp) else StartsAs(table[u], erp))
        && (outcome.Created? <==> u !in old(table))
        && (outcome.Skipped? <==> table == old(table) && !table[u].ban)
    {
      var serviceNumber := ServiceNumber(erp);
      if serviceNumber in ambiguous { return Conflict; }
      var userById := if erp.id in byErpId then Some(byErpId[erp.id]) else None;
      var userByNumber := if serviceNumber in byServiceNumber then Some(byServiceNumber[serviceNumber]) else None;
      if userById.Some? && userByNumber.Some? && userById != userByNumber { return Conflict; }
      var known := if userById.Some? then userById else userByNumber;
      if known.Some? {
        outcome := UpdateUser(erp, known.value);
      } else {
        outcome := CreateUser(erp);
      }
    }

    /** Writes the entry into a matched user and re-keys the indexes. */
    method UpdateUser(erp: ErpUser, u: int) returns (outcome: Outcome)
      requires erp.id != "" && u in users
      requires Known() && (!dryRun ==> InStep())
      requires erp.id in byErpId ==> byErpId[erp.id] == u
      requires ServiceNumber(erp) in byServiceNumber ==> byServiceNumber[ServiceNumber(erp)] == u
      modifies this
      ensures Known() && (!dryRun ==> InStep())
      ensures nextId == old(nextId) && (outcome.Updated? || outcome.Skipped?)
      ensures users == old(users)[u := Merged(old(users)[u], erp)]
      ensures u in users && TakesOver(old(users)[u], users[u], erp)
      ensures outcome.Skipped? <==> users[u] == old(users)[u] && !users[u].ban
      ensures dryRun ==> table == old(table) && assignments == old(assignments)
      ensures !dryRun ==>
        && erp.id in byErpId && byErpId[erp.id] == u
        && assignments == (if users[u].ban then set r | r in old(assignments) && r.1 != u else old(assignments))
    {
      var user := users[u];
      var merged := Merged(user, erp);
      MergedTakesOver(user, erp);
      if !dryRun {
        RekeyErpAgrees(users, byErpId, u, merged);
        RekeyNumberAgrees(users, byServiceNumber, u, merged);
        KeysStayUnique(users, byErpId, byServiceNumber, u, merged);
      }
      users := users[u := merged];
      if merged == user && !merged.ban {
        assert users == old(users);
        return Skipped;
      }
      if !dryRun {
        SaveUser(u, user, merged);
      }
      return Updated;
    }

    /** One transaction: the row, and for a banned user the assignments. Then the indexes. */
    method SaveUser(u: int, was: User, now: User)
      modifies this`table, this`assignments, this`byErpId, this`byServiceNumber
      requires now.erpId.Some?
      ensures table == old(table)[u := now]
      ensures assignments == (if now.ban then set r | r in old(assignments) && r.1 != u else old(assignments))
      ensures byErpId == RekeyErp(old(byErpId), was, now.erpId.value, u)
      ensures byServiceNumber == RekeyNumber(old(byServiceNumber), was.serviceNumber, now.serviceNumber, u)
    {
      table := table[u := now];
      if now.ban {
        assignments := set r | r in assignments && r.1 != u;
      }
      if HasErpId(was) { byErpId := byErpId - {was.erpId.value}; }
      byErpId := byErpId[now.erpId.value := u];
      if was.serviceNumber != now.serviceNumber {
        byServiceNumber := byServiceNumber - {was.serviceNumber};
        byServiceNumber := byServiceNumber[now.serviceNumber := u];
      }
    }

    method CreateUser(erp: ErpUser) returns (outcome: Outcome)
      requires erp.id != ""
      requires Known() && (!dryRun ==> InStep())
      requires erp.id !in byErpId && ServiceNumber(erp) !in byServiceNumber
      modifies this
      ensures Known() && (!dryRun ==> InStep())
      ensures nextId >= old(nextId) && outcome.Created?
      ensures assignments == old(assignments)
      ensures dryRun ==> table == old(table)
      ensures !dryRun ==>
        && erp.id in byErpId && byErpId[erp.id] == old(nextId)
        && users == old(users)[old(nextId) := NewUser(erp)]
        && StartsAs(users[old(nextId)], erp)
    {
      NewUserStarts(erp);
      if !dryRun {
        var u := nextId;
        NewUserAgrees(users, byErpId, byServiceNumber, u, NewUser(erp));
        table := table[u := NewUser(erp)];
        users := users[u := NewUser(erp)];
        byErpId := byErpId[erp.id := u];
        byServiceNumber := byServiceNumber[ServiceNumber(erp) := u];
        nextId := nextId + 1;
      }
      return Created;
    }

    // -------------------------------------------------------------- the whole run

    /**
     The whole synchronisation. Every ERP id with an entry processed without conflict ends up
     owned by exactly one user, who has the values of the last such entry and holds no
     assignments if banned.
     */
    method Synchronize(entries: seq<ErpUser>) returns (outcomes: seq<Outcome>)
      requires forall i :: 0 <= i < |entries| ==> entries[i].id != ""
      requires InStep()
      requires forall r :: r in assignments ==> r.1 in users
      modifies this
      ensures |outcomes| == |entries|
      ensures dryRun ==> table == old(table) && assignments == old(assignments)
      ensures !dryRun ==> InStep()
      ensures !dryRun ==> forall i :: 0 <= i < |entries| && !outcomes[i].Conflict? ==>
        OwnedByOne(table, entries[i].id) && Cleared(table, assignments, entries[i].id)
      ensures !dryRun ==> forall i :: 0 <= i < |entries| && Shared(entries, |entries|, ServiceNumber(entries[i])) ==>
        outcomes[i].Conflict?
      ensures !dryRun ==> forall i: nat :: LastClean(entries, outcomes, i) ==>
        exists u :: u in table && HasValuesOf(table[u], entries[i])
    {
      var ambiguous := AmbiguousServiceNumbers(entries);
      ghost var last;
      outcomes, last := ProcessAll(entries, ambiguous);
      if !dryRun {
        forall i | 0 <= i < |entries| && !outcomes[i].Conflict?
          ensures OwnedByOne(table, entries[i].id) && Cleared(table, assignments, entries[i].id)
        {
          SettledMeans(entries, ambiguous, users, byErpId, assignments, last.Keys, entries[i].id);
        }
        LastOnesHold(entries, outcomes, last, users, byErpId);
      }
    }

    /** The loop over the entries. */
    method ProcessAll(entries: seq<ErpUser>, ambiguous: set<string>)
      returns (outcomes: seq<Outcome>, ghost last: map<string, nat>)
      requires forall i :: 0 <= i < |entries| ==> entries[i].id != ""
      requires forall s :: s in ambiguous <==> Shared(entries, |entries|, s)
      requires InStep()
      requires forall r :: r in assignments ==> r.1 in users
      modifies this
      ensures |outcomes| == |entries| && Tracks(entries, outcomes, last)
      ensures dryRun ==> table == old(table) && assignments == old(assignments)
      ensures Consistent(entries, ambiguous, last)
      ensures !dryRun ==> forall i :: 0 <= i < |entries| && ServiceNumber(entries[i]) in ambiguous ==>
        outcomes[i].Conflict?
    {
      outcomes := [];
      last := map[];
      var k := 0;
      while k < |entries|
        invariant 0 <= k <= |entries| && |outcomes| == k
        invariant Consistent(entries, ambiguous, last)
        invariant dryRun ==> table == old(table) && assignments == old(assignments)
        invariant Tracks(entries, outcomes, last)
        invariant !dryRun ==> forall i :: 0 <= i < k && ServiceNumber(entries[i]) in ambiguous ==> outcomes[i].Conflict?
      {
        var outcome := ProcessSettled(entries, ambiguous, last, k);
        TracksOneMore(entries, outcomes, last, outcome);
        if !outcome.Conflict? { last := last[entries[k].id := k]; }
        outcomes := outcomes + [outcome];
        k := k + 1;
      }
    }

    /** One entry, with what it means for the owners settled before. */
    method ProcessSettled(entries: seq<ErpUser>, ambiguous: set<string>, ghost last: map<string, nat>, k: nat)
      returns (outcome: Outcome)
      requires k < |entries| && entries[k].id != ""
      requires forall s :: s in ambiguous <==> Shared(entries, |entries|, s)
      requires Consistent(entries, ambiguous, last)
      modifies this
      ensures Consistent(entries, ambiguous, if outcome.Conflict? then last else last[entries[k].id := k])
      ensures dryRun ==> table == old(table) && assignments == old(assignments)
      ensures !dryRun && ServiceNumber(entries[k]) in ambiguous ==> outcome.Conflict?
    {
      outcome := Process(entries[k], ambiguous);
      if !dryRun && !outcome.Conflict? {
        StaysSettled(entries, ambiguous, last.Keys, k, old(users), old(byErpId), old(assignments),
                     users, byErpId, assignments);
        StaysCurrent(entries, last, k, old(users), old(byErpId), users, byErpId);
        assert last[entries[k].id := k].Keys == last.Keys + {entries[k].id};
      }
    }
  }

  // ---------------------------------------------------------------- settled owners

  /** Whoever owns the ERP id holds no assignments if banned. */
  ghost predicate Cleared(users: Users, assignments: set<(int, int)>, erpId: string) {
    forall u, r :: u in users && users[u].erpId == Some(erpId) && users[u].ban && r in assignments ==> r.1 != u
  }

  /** The owner's service number comes from a clean entry for the same ERP id. */
  ghost predicate SettledId(entries: seq<ErpUser>, ambiguous: set<string>, users: Users, byErpId: map<string, int>,
                            assignments: set<(int, int)>, id: string) {
    && id != "" && id in byErpId && byErpId[id] in users
    && users[byErpId[id]].serviceNumber !in ambiguous
    && Gives(entries, |entries|, users[byErpId[id]].serviceNumber, id)
    && (users[byErpId[id]].ban ==> forall r :: r in assignments ==> r.1 != byErpId[id])
  }

  /** The owners of these ERP ids are settled: no later entry can take them over. */
  ghost predicate Settled(entries: seq<ErpUser>, ambiguous: set<string>, users: Users, byErpId: map<string, int>,
                          assignments: set<(int, int)>, ids: set<string>) {
    forall id :: id in ids ==> SettledId(entries, ambiguous, users, byErpId, assignments, id)
  }

  /** The last entry for its ERP id that was processed without conflict. */
  ghost predicate LastClean(entries: seq<ErpUser>, outcomes: seq<Outcome>, i: nat) {
    && i < |entries| == |outcomes| && !outcomes[i].Conflict?
    && forall j :: i < j < |entries| && entries[j].id == entries[i].id ==> outcomes[j].Conflict?
  }

  /** `last` gives each ERP id the index of its last clean entry so far. */
  ghost predicate Tracks(entries: seq<ErpUser>, outcomes: seq<Outcome>, last: map<string, nat>) {
    && |outcomes| <= |entries|
    && (forall i :: 0 <= i < |outcomes| && !outcomes[i].Conflict? ==>
          entries[i].id in last && i <= last[entries[i].id])
    && (forall id :: id in last ==>
          last[id] < |outcomes| && entries[last[id]].id == id && !outcomes[last[id]].Conflict?)
  }

  lemma TracksOneMore(entries: seq<ErpUser>, outcomes: seq<Outcome>, last: map<string, nat>, outcome: Outcome)
    requires Tracks(entries, outcomes, last) && |outcomes| < |entries|
    ensures Tracks(entries, outcomes + [outcome],
                   if outcome.Conflict? then last else last[entries[|outcomes|].id := |outcomes|])
  {}

  lemma LastOnesHold(entries: seq<ErpUser>, outcomes: seq<Outcome>, last: map<string, nat>,
                     users: Users, byErpId: map<string, int>)
    requires Tracks(entries, outcomes, last) && Current(entries, users, byErpId, last)
    ensures forall i: nat :: LastClean(entries, outcomes, i) ==>
      exists u :: u in users && HasValuesOf(users[u], entries[i])
  {
    forall i: nat | LastClean(entries, outcomes, i)
      ensures exists u :: u in users && HasValuesOf(users[u], entries[i])
    {
      assert last[entries[i].id] == i;
      var u := byErpId[entries[i].id];
      assert u in users && HasValuesOf(users[u], entries[i]);
    }
  }

  /** Each owner has the values of the last clean entry for its ERP id. */
  ghost predicate Current(entries: seq<ErpUser>, users: Users, byErpId: map<string, int>, last: map<string, nat>) {
    forall id :: id in last ==>
      && last[id] < |entries| && entries[last[id]].id == id && id in byErpId && byErpId[id] in users
      && HasValuesOf(users[byErpId[id]], entries[last[id]])
  }

  /** A clean entry for another ERP id does not match a settled owner. */
  lemma SettledOwnerIsSafe(entries: seq<ErpUser>, ambiguous: set<string>, users: Users, byErpId: map<string, int>,
                           assignments: set<(int, int)>, k: nat, id: string)
    requires k < |entries| && SettledId(entries, ambiguous, users, byErpId, assignments, id)
    requires ErpIndexAgrees(users, byErpId)
    requires forall s :: s in ambiguous <==> Shared(entries, |entries|, s)
    requires ServiceNumber(entries[k]) !in ambiguous && id != entries[k].id
    ensures users[byErpId[id]].erpId != Some(entries[k].id)
    ensures users[byErpId[id]].serviceNumber != ServiceNumber(entries[k])
  {
    assert Gives(entries, |entries|, ServiceNumber(entries[k]), entries[k].id);
  }

  lemma StaysSettled(entries: seq<ErpUser>, ambiguous: set<string>, ids: set<string>, k: nat,
                     users: Users, byErpId: map<string, int>, assignments: set<(int, int)>,
                     users': Users, byErpId': map<string, int>, assignments': set<(int, int)>)
    requires k < |entries| && entries[k].id != "" && ServiceNumber(entries[k]) !in ambiguous
    requires forall s :: s in ambiguous <==> Shared(entries, |entries|, s)
    requires ErpIndexAgrees(users, byErpId) && ErpIndexAgrees(users', byErpId')
    requires Settled(entries, ambiguous, users, byErpId, assignments, ids)
    requires forall r :: r in assignments ==> r.1 in users
    requires entries[k].id in byErpId'
    requires var u := byErpId'[entries[k].id];
      && (if u in users
          then users' == users[u := Merged(users[u], entries[k])]
               && (users[u].erpId == Some(entries[k].id) || users[u].serviceNumber == ServiceNumber(entries[k]))
          else users' == users[u := NewUser(entries[k])])
      && assignments' == (if users'[u].ban && u in users
                          then set r | r in assignments && r.1 != u else assignments)
    ensures Settled(entries, ambiguous, users', byErpId', assignments', ids + {entries[k].id})
    ensures forall id :: id in ids && id != entries[k].id ==>
      && id in byErpId && id in byErpId' && byErpId'[id] == byErpId[id]
      && byErpId[id] in users && byErpId[id] in users' && users'[byErpId[id]] == users[byErpId[id]]
  {
    var own := entries[k].id;
    var u := byErpId'[own];
    assert Gives(entries, |entries|, ServiceNumber(entries[k]), own);
    assert SettledId(entries, ambiguous, users', byErpId', assignments', own);
    forall id | id in ids && id != own
      ensures SettledId(entries, ambiguous, users', byErpId', assignments', id)
      ensures byErpId'[id] == byErpId[id] && byErpId[id] in users' && users'[byErpId[id]] == users[byErpId[id]]
    {
      var v := byErpId[id];
      assert SettledId(entries, ambiguous, users, byErpId, assignments, id);
      SettledOwnerIsSafe(entries, ambiguous, users, byErpId, assignments, k, id);
      assert v != u;
      assert users'[v] == users[v] && HasErpId(users'[v]);
      assert byErpId'[id] == v;
    }
  }

  lemma StaysCurrent(entries: seq<ErpUser>, last: map<string, nat>, k: nat,
                     users: Users, byErpId: map<string, int>, users': Users, byErpId': map<string, int>)
    requires k < |entries| && Current(entries, users, byErpId, last)
    requires entries[k].id in byErpId' && byErpId'[entries[k].id] in users'
    requires HasValuesOf(users'[byErpId'[entries[k].id]], entries[k])
    requires forall id :: id in last && id != entries[k].id ==>
      && id in byErpId && id in byErpId' && byErpId'[id] == byErpId[id]
      && byErpId[id] in users && byErpId[id] in users' && users'[byErpId[id]] == users[byErpId[id]]
    ensures Current(entries, users', byErpId', last[entries[k].id := k])
  {}

  lemma SettledMeans(entries: seq<ErpUser>, ambiguous: set<string>, users: Users, byErpId: map<string, int>,
                     assignments: set<(int, int)>, ids: set<string>, id: string)
    requires id in ids && Settled(entries, ambiguous, users, byErpId, assignments, ids)
    requires ErpIndexAgrees(users, byErpId)
    ensures OwnedByOne(users, id) && Cleared(users, assignments, id)
  {
    assert SettledId(entries, ambiguous, users, byErpId, assignments, id);
    var u := byErpId[id];
    assert u in users && users[u].erpId == Some(id);
    forall v | v in users && users[v].erpId == Some(id) ensures v == u {
      assert HasErpId(users[v]);
    }
  }
}
