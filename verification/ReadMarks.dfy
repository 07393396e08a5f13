/**
 Read marks of the personal activity feed.

 An event reaches its recipients unread. Marking covers one task or one project, up to an
 event id. Counts are grouped by the project of the event.
 */
module ReadMarks {
  import opened Wrappers

  datatype Event = Event(task: int, project: int)

  /** What a user may see at the time of a request. */
  type Access = set<int>

  /** `homes` is the project a task is in now. Recipient rows are (event, user). */
  datatype State = State(
    events: map<int, Event>,
    homes: map<int, int>,
    recipients: set<(int, int)>,
    read: set<(int, int)>)

  datatype Target = OfTask(task: int) | OfProject(project: int)

  datatype Action =
    | Add(id: int, event: Event, users: set<int>)
    | SetHome(task: int, project: int)
    | MarkRead(user: int, access: Access, target: Target, through: Option<int>)

  /** The event is in the user's personal feed: addressed to them, from and about projects they may read. */
  predicate InFeed(s: State, access: Access, user: int, id: int) {
    && id in s.events && (id, user) in s.recipients
    && s.events[id].project in access
    && s.events[id].task in s.homes && s.homes[s.events[id].task] in access
  }

  function Unread(s: State, access: Access, user: int): set<int> {
    set id | id in s.events && InFeed(s, access, user, id) && (id, user) !in s.read
  }

  predicate Covers(event: Event, target: Target, through: Option<int>, id: int) {
    && (match target case OfTask(task) => event.task == task case OfProject(project) => event.project == project)
    && (through.Some? ==> id <= through.value)
  }

  function Marked(s: State, user: int, access: Access, target: Target, through: Option<int>): set<int> {
    set id | id in Unread(s, access, user) && id in s.events && Covers(s.events[id], target, through, id)
  }

  /** Adding an event that exists is not possible; ids come from a sequence. */
  function Step(s: State, a: Action): State {
    match a
    case Add(id, event, users) =>
      if id in s.events then s
      else s.(events := s.events[id := event],
              recipients := s.recipients + set u | u in users :: (id, u))
    case SetHome(task, project) => s.(homes := s.homes[task := project])
    case MarkRead(user, access, target, through) =>
      s.(read := s.read + set id | id in Marked(s, user, access, target, through) :: (id, user))
  }

  function Run(s: State, actions: seq<Action>): State
    decreases |actions|
  {
    if actions == [] then s else Run(Step(s, actions[0]), actions[1..])
  }

  // ---------------------------------------------------------------- counts

  function OfOneProject(s: State, ids: set<int>, project: int): set<int> {
    set id | id in ids && id in s.events && s.events[id].project == project
  }

  /**
   The counts of the personal feed: per project, and their total, which is the number of
   unread events in the feed. Projects without unread events are not listed.
   */
  method GetCounts(s: State, access: Access, user: int) returns (total: nat, projects: map<int, nat>)
    ensures total == |Unread(s, access, user)|
    ensures forall p :: p in projects <==> exists id :: id in Unread(s, access, user) && s.events[id].project == p
    ensures forall p :: p in projects ==> projects[p] == |OfOneProject(s, Unread(s, access, user), p)|
  {
    var unread := Unread(s, access, user);
    var left := set id | id in unread :: s.events[id].project;
    ghost var groups := left;
    ghost var counted: set<int> := {};
    total, projects := 0, map[];
    while left != {}
      invariant left <= groups
      invariant projects.Keys == groups - left
      invariant forall p :: p in projects ==> projects[p] == |OfOneProject(s, unread, p)|
      invariant counted == set id | id in unread && s.events[id].project !in left
      invariant total == |counted|
      decreases left
    {
      assert exists p :: p in left by { assert (forall p :: p !in left) ==> left == {}; }
      var p :| p in left;
      var row := OfOneProject(s, unread, p);
      assert counted !! row;
      assert (set id | id in unread && s.events[id].project !in left - {p}) == counted + row;
      counted := counted + row;
      projects := projects[p := |row|];
      total := total + |row|;
      left := left - {p};
    }
    assert counted == unread;
  }

  /**
   Marking takes exactly the marked events off the user's unread ones, and nobody else's. A view
   of the feed under other rights loses those of them that it shows.
   */
  lemma MarkingDropsCount(s: State, user: int, seen: Access, access: Access, target: Target, through: Option<int>)
    ensures var next := Step(s, MarkRead(user, access, target, through));
      var marked := Marked(s, user, access, target, through);
      && Unread(next, seen, user) == Unread(s, seen, user) - marked
      && (seen == access ==> |Unread(next, seen, user)| == |Unread(s, seen, user)| - |marked|)
      && forall other :: other != user ==> Unread(next, seen, other) == Unread(s, seen, other)
  {
    var next := Step(s, MarkRead(user, access, target, through));
    var marked := Marked(s, user, access, target, through);
    var before, after := Unread(s, seen, user), Unread(next, seen, user);
    forall id ensures id in after <==> id in before - marked {
      assert (id, user) in next.read <==> (id, user) in s.read || id in marked;
    }
    assert after == before - marked && (seen == access ==> marked <= before);
    forall other | other != user ensures Unread(next, seen, other) == Unread(s, seen, other) {
      forall id ensures (id, other) in next.read <==> (id, other) in s.read {}
    }
  }

  // ---------------------------------------------------------------- runs

  /** The event is addressed to the user and comes from and is about projects they may read. */
  ghost predicate Addressed(s: State, access: Access, user: int, id: int) {
    && (id, user) in s.recipients && id in s.events && s.events[id].project in access
    && s.events[id].task in s.homes && s.homes[s.events[id].task] in access
  }

  /** The mark names the event's task or project, with a bound at least its id, while the user may read it. */
  ghost predicate MarksIt(s: State, a: Action, user: int, id: int) {
    && a.MarkRead? && a.user == user && Addressed(s, a.access, user, id)
    && (a.target == OfTask(s.events[id].task) || a.target == OfProject(s.events[id].project))
    && (a.through.None? || id <= a.through.value)
  }

  /** The i-th action is such a mark. */
  ghost predicate MarksAt(s: State, actions: seq<Action>, i: nat, user: int, id: int) {
    i < |actions| && MarksIt(Run(s, actions[..i]), actions[i], user, id)
  }

  /** The unread events are those addressed to the user that are not read yet; they are what the counts count. */
  lemma UnreadMeans(s: State, access: Access, user: int, id: int)
    ensures id in Unread(s, access, user) <==> Addressed(s, access, user, id) && (id, user) !in s.read
  {}

  /** Adding an event stores it and its recipients; nothing else changes. */
  lemma AddedEvent(s: State, id: int, event: Event, users: set<int>)
    requires id !in s.events
    ensures var next := Step(s, Add(id, event, users));
      && next.events == s.events[id := event] && next.homes == s.homes && next.read == s.read
      && forall k: (int, int) :: k in next.recipients <==> k in s.recipients || (k.0 == id && k.1 in users)
  {
    forall k: (int, int)
      ensures k in Step(s, Add(id, event, users)).recipients <==> k in s.recipients || (k.0 == id && k.1 in users)
    {
      if k.0 == id && k.1 in users {
        var u := k.1;
        assert u in users && k == (id, u);
      }
    }
  }

  lemma OneStep(s: State, a: Action, user: int, id: int)
    ensures (id, user) in Step(s, a).read <==>
      || (id, user) in s.read
      || MarksIt(s, a, user, id)
  {}

  /**
   An event stays unread for a recipient until that user marks its task or its project with a
   bound at least its id, and from then on it is read for good.
   */
  lemma {:induction false} ReadIffMarked(s: State, actions: seq<Action>, user: int, id: int)
    ensures (id, user) in Run(s, actions).read <==>
      (id, user) in s.read || exists i: nat :: MarksAt(s, actions, i, user, id)
    decreases |actions|
  {
    if actions != [] {
      var next, rest := Step(s, actions[0]), actions[1..];
      OneStep(s, actions[0], user, id);
      ReadIffMarked(next, rest, user, id);
      assert actions[..0] == [] && Run(s, []) == s;
      assert MarksAt(s, actions, 0, user, id) <==> MarksIt(s, actions[0], user, id);
      forall i: nat ensures MarksAt(s, actions, i + 1, user, id) <==> MarksAt(next, rest, i, user, id) {
        if i < |rest| {
          assert actions[..i + 1][0] == actions[0] && actions[..i + 1][1..] == rest[..i];
          assert Run(s, actions[..i + 1]) == Run(next, rest[..i]);
        }
      }
      if exists i: nat :: MarksAt(s, actions, i, user, id) {
        var i: nat :| MarksAt(s, actions, i, user, id);
        if i > 0 { assert MarksAt(next, rest, i - 1, user, id); }
      }
      if exists i: nat :: MarksAt(next, rest, i, user, id) {
        var i: nat :| MarksAt(next, rest, i, user, id);
        assert MarksAt(s, actions, i + 1, user, id);
      }
    } else {
      assert forall i: nat :: !MarksAt(s, actions, i, user, id);
    }
  }

  // ---------------------------------------------------------------- the count along a run

  /** A task that moves into a readable project shows its events, one that moves out hides them. */
  function Shown(s: State, access: Access, user: int, task: int, project: int): set<int> {
    set id | id in s.events && s.events[id].task == task && s.events[id].project in access
             && (id, user) in s.recipients && (id, user) !in s.read
             && project in access && !(task in s.homes && s.homes[task] in access)
  }

  function Hidden(s: State, access: Access, user: int, task: int, project: int): set<int> {
    set id | id in Unread(s, access, user) && id in s.events && s.events[id].task == task && project !in access
  }

  /** The unread events that an action brings into the user's feed: new ones and shown ones. */
  function Comes(s: State, a: Action, access: Access, user: int): set<int> {
    match a
    case Add(id, event, users) =>
      if id !in s.events && (user in users || (id, user) in s.recipients) && (id, user) !in s.read
         && event.project in access && event.task in s.homes && s.homes[event.task] in access
      then {id} else {}
    case SetHome(task, project) => Shown(s, access, user, task, project)
    case MarkRead(_, _, _, _) => {}
  }

  /** The unread events that it takes out: marked ones and hidden ones. */
  function Goes(s: State, a: Action, access: Access, user: int): set<int> {
    match a
    case Add(_, _, _) => {}
    case SetHome(task, project) => Hidden(s, access, user, task, project)
    case MarkRead(actor, seen, target, through) =>
      if actor == user then Marked(s, user, seen, target, through) * Unread(s, access, user) else {}
  }

  lemma AddBalance(s: State, id: int, event: Event, users: set<int>, access: Access, user: int)
    ensures Unread(Step(s, Add(id, event, users)), access, user)
         == Unread(s, access, user) + Comes(s, Add(id, event, users), access, user)
  {
    var next := Step(s, Add(id, event, users));
    forall x | id !in s.events
      ensures (x, user) in next.recipients <==> (x, user) in s.recipients || (x == id && user in users)
    {
      if x == id && user in users { assert user in users && (x, user) == (id, user); }
    }
  }

  lemma SetHomeBalance(s: State, task: int, project: int, access: Access, user: int)
    ensures Unread(Step(s, SetHome(task, project)), access, user)
         == Unread(s, access, user) + Shown(s, access, user, task, project) - Hidden(s, access, user, task, project)
  {
    var before, after := Unread(s, access, user), Unread(Step(s, SetHome(task, project)), access, user);
    var shown, hidden := Shown(s, access, user, task, project), Hidden(s, access, user, task, project);
    forall id ensures id in after <==> id in before + shown - hidden {}
  }

  lemma CountBalance(before: set<int>, after: set<int>, comes: set<int>, goes: set<int>)
    requires after == before + comes - goes && before !! comes && goes <= before
    ensures |after| + |goes| == |before| + |comes|
  {
    assert before + comes == after + goes && after !! goes;
    assert |before + comes| == |before| + |comes|;
  }

  lemma NewcomersAreNew(s: State, a: Action, access: Access, user: int)
    ensures Comes(s, a, access, user) !! Unread(s, access, user)
    ensures Goes(s, a, access, user) <= Unread(s, access, user)
  {}

  lemma StepChanges(s: State, a: Action, access: Access, user: int)
    ensures Unread(Step(s, a), access, user)
         == Unread(s, access, user) + Comes(s, a, access, user) - Goes(s, a, access, user)
  {
    match a {
      case Add(id, event, users) => AddBalance(s, id, event, users, access, user);
      case SetHome(task, project) => SetHomeBalance(s, task, project, access, user);
      case MarkRead(actor, seen, target, through) => MarkingDropsCount(s, actor, access, seen, target, through);
    }
  }

  lemma StepBalance(s: State, a: Action, access: Access, user: int)
    ensures |Unread(Step(s, a), access, user)| + |Goes(s, a, access, user)|
         == |Unread(s, access, user)| + |Comes(s, a, access, user)|
  {
    StepChanges(s, a, access, user);
    NewcomersAreNew(s, a, access, user);
    CountBalance(Unread(s, access, user), Unread(Step(s, a), access, user),
                 Comes(s, a, access, user), Goes(s, a, access, user));
  }

  /** How many unread events have come into the feed along a run, and how many have gone. */
  function CameIn(s: State, actions: seq<Action>, access: Access, user: int): nat
    decreases |actions|
  {
    if actions == [] then 0
    else |Comes(s, actions[0], access, user)| + CameIn(Step(s, actions[0]), actions[1..], access, user)
  }

  function WentOut(s: State, actions: seq<Action>, access: Access, user: int): nat
    decreases |actions|
  {
    if actions == [] then 0
    else |Goes(s, actions[0], access, user)| + WentOut(Step(s, actions[0]), actions[1..], access, user)
  }

  /**
   Over any run, the unread count goes up by one for each unread event that is added or shown,
   down by one for each that is marked or hidden, and changes by nothing else.
   */
  lemma {:induction false} UnreadBalance(s: State, actions: seq<Action>, access: Access, user: int)
    ensures |Unread(Run(s, actions), access, user)| + WentOut(s, actions, access, user)
         == |Unread(s, access, user)| + CameIn(s, actions, access, user)
    decreases |actions|
  {
    if actions != [] {
      StepBalance(s, actions[0], access, user);
      UnreadBalance(Step(s, actions[0]), actions[1..], access, user);
    }
  }
}
