/**
 Every member's own order of projects.

 Membership rows carry the order. Deleting a project keeps its rows, so a hidden row may share
 an order with a visible one; the visible ones stay apart.
 */
module ProjectOrder {
  import opened SortedListing

  datatype Project = Project(owner: int, prefix: string, createdAt: int, deleted: bool)

  /** A prefix of a deleted project is still taken in the table, which only the insert notices. */
  datatype Creation = Created(id: int) | Conflict | InsertFailed

  type Projects = map<int, Project>

  /** Order by (project, user). */
  type Members = map<(int, int), int>

  predicate Active(projects: Projects, p: int) {
    p in projects && !projects[p].deleted
  }

  /** Prefixes are English letters, stored in upper case. */
  function Upper(prefix: string): string {
    seq(|prefix|, i requires 0 <= i < |prefix| =>
      if 'a' <= prefix[i] <= 'z' then prefix[i] - 'a' + 'A' else prefix[i])
  }

  /** Upper case has no small English letters, and leaves all other characters as they are. */
  lemma UpperMeans(prefix: string, i: nat)
    requires i < |prefix|
    ensures |Upper(prefix)| == |prefix|
    ensures !('a' <= Upper(prefix)[i] <= 'z')
    ensures if 'a' <= prefix[i] <= 'z' then Upper(prefix)[i] as int == prefix[i] as int - 32
            else Upper(prefix)[i] == prefix[i]
  {}

  predicate Taken(projects: Projects, prefix: string) {
    exists p :: p in projects && projects[p].prefix == prefix
  }

  predicate TakenVisibly(projects: Projects, prefix: string) {
    exists p :: p in projects && !projects[p].deleted && projects[p].prefix == prefix
  }

  ghost predicate DistinctPrefixes(projects: Projects) {
    forall p, q :: p in projects && q in projects && p != q ==> projects[p].prefix != projects[q].prefix
  }

  /** Projects a user lists: own ones and memberships, members by order, the rest newest first. */
  function ListKeys(projects: Projects, members: Members, user: int): map<int, Key> {
    map p | p in projects && !projects[p].deleted && (projects[p].owner == user || (p, user) in members)
      :: if (p, user) in members then Key(0, members[(p, user)]) else Key(1, -projects[p].createdAt)
  }

  function GetAll(projects: Projects, members: Members, user: int): seq<int> {
    Sorted(ListKeys(projects, members, user))
  }

  /** The visible orders of each user are distinct, and owners are members. */
  ghost predicate Ordered(projects: Projects, members: Members) {
    && (forall p, q, u :: Active(projects, p) && Active(projects, q) && p != q && (p, u) in members && (q, u) in members
          ==> members[(p, u)] != members[(q, u)])
    && (forall p :: Active(projects, p) ==> (p, projects[p].owner) in members)
    && (forall k :: k in members ==> k.0 in projects)
  }

  /** Above every order the user has, hidden rows included; 0 for a user without rows. */
  ghost predicate IsNextOrder(members: Members, user: int, next: int) {
    && next >= 0
    && (forall k :: k in members && k.1 == user ==> members[k] < next)
    && (next == 0 || exists k :: k in members && k.1 == user && members[k] + 1 == next)
  }

  class ProjectsService {
    var projects: Projects
    var members: Members
    var nextId: int

    ghost predicate Valid()
      reads this
    {
      && Ordered(projects, members)
      && DistinctPrefixes(projects)
      && forall p :: p in projects ==> p < nextId
    }

    constructor ()
      ensures Valid() && projects == map[] && members == map[]
    {
      projects, members, nextId := map[], map[], 1;
    }

    /** One pass over the membership rows, raising a running next order per user. */
    method GetNextMemberOrders(userIds: set<int>) returns (next: map<int, int>)
      ensures next.Keys == userIds
      ensures forall u :: u in userIds ==> IsNextOrder(members, u, next[u])
    {
      next := map u | u in userIds :: 0;
      var rows := set k | k in members && k.1 in userIds;
      ghost var seen: set<(int, int)> := {};
      while rows != {}
        invariant next.Keys == userIds
        invariant forall k :: k in rows ==> k in members && k.1 in userIds
        invariant forall k :: k in members && k.1 in userIds && k !in rows ==> members[k] < next[k.1]
        invariant forall u :: u in userIds ==>
          && next[u] >= 0
          && (next[u] == 0 || exists k :: k in members && k.1 == u && members[k] + 1 == next[u])
        decreases rows
      {
        assert exists k :: k in rows by { assert (forall k :: k !in rows) ==> rows == {}; }
        var k :| k in rows;
        var order := members[k] + 1;
        if order > next[k.1] {
          next := next[k.1 := order];
        }
        rows := rows - {k};
      }
    }

    /** A project with its members, each getting it last, unless its prefix is taken. */
    method Create(owner: int, prefix: string, memberIds: set<int>, createdAt: int) returns (r: Creation)
      requires Valid()
      modifies this
      ensures Valid()
      ensures r.Conflict? <==>
        exists p :: p in old(projects) && !old(projects)[p].deleted && old(projects)[p].prefix == Upper(prefix)
      ensures r.Created? <==> forall p :: p in old(projects) ==> old(projects)[p].prefix != Upper(prefix)
      ensures !r.Created? ==> projects == old(projects) && members == old(members)
      ensures r.Created? ==>
        && r.id == old(nextId)
        && projects == old(projects)[r.id := Project(owner, Upper(prefix), createdAt, false)]
        && (forall k :: k in members <==> k in old(members) || (k.0 == r.id && k.1 in memberIds + {owner}))
        && (forall k :: k in old(members) ==> members[k] == old(members)[k])
        && (forall u :: u in memberIds + {owner} ==> IsNextOrder(old(members), u, members[(r.id, u)]))
        && (forall u :: u in memberIds + {owner} ==> IsLast(GetAll(projects, members, u), r.id))
    {
      if TakenVisibly(projects, Upper(prefix)) { return Conflict; }
      if Taken(projects, Upper(prefix)) { return InsertFailed; }
      var id := nextId;
      InsertProject(id, Project(owner, Upper(prefix), createdAt, false), memberIds + {owner});
      AllLast(projects, members, memberIds + {owner}, id);
      r := Created(id);
    }

    /** The project row and its membership rows. */
    method InsertProject(id: int, project: Project, users: set<int>)
      requires Valid() && id == nextId && project.owner in users && !Taken(projects, project.prefix)
      modifies this
      ensures Valid()
      ensures projects == old(projects)[id := project]
      ensures forall k :: k in members <==> k in old(members) || (k.0 == id && k.1 in users)
      ensures forall k :: k in old(members) ==> members[k] == old(members)[k]
      ensures forall u :: u in users ==> IsNextOrder(old(members), u, members[(id, u)])
    {
      var next := GetNextMemberOrders(users);
      AddMembers(id, users, next);
      projects := projects[id := project];
      nextId := nextId + 1;
    }

    method AddMembers(project: int, users: set<int>, next: map<int, int>)
      requires users <= next.Keys
      modifies this`members
      ensures forall k :: k in members <==> k in old(members) || (k.0 == project && k.1 in users)
      ensures forall k :: k in members ==>
        members[k] == (if k.0 == project && k.1 in users then next[k.1] else old(members)[k])
    {
      var rows := set u | u in users :: (project, u);
      forall k: (int, int) ensures k in rows <==> k.0 == project && k.1 in users {
        if k.0 == project && k.1 in users {
          var u := k.1;
          assert u in users && k == (project, u);
        }
      }
      members := map k | k in members.Keys + rows :: if k in rows then next[k.1] else members[k];
    }

    /** Replaces the members of a project; those who stay keep their order, new ones get it last. */
    method UpdateMembers(project: int, user: int, memberIds: set<int>) returns (ok: bool)
      requires Valid()
      modifies this
      ensures Valid()
      ensures ok <==> Active(old(projects), project) && old(projects)[project].owner == user
      ensures projects == old(projects) && (!ok ==> members == old(members))
      ensures ok ==>
        && (forall k :: k in members <==> if k.0 == project then k.1 in memberIds + {user} else k in old(members))
        && (forall k :: k in members && k in old(members) ==> members[k] == old(members)[k])
        && (forall u :: (project, u) in members && (project, u) !in old(members) ==>
              && (forall p :: p != project && (p, u) in members ==> members[(p, u)] < members[(project, u)])
              && IsLast(GetAll(projects, members, u), project))
    {
      if !Active(projects, project) || projects[project].owner != user { return false; }
      var newcomers := ReplaceMembers(project, memberIds + {user});
      AllLast(projects, members, newcomers, project);
      return true;
    }

    /** Drops the members who are not wanted and adds those who are not there. */
    method ReplaceMembers(project: int, desired: set<int>) returns (newcomers: set<int>)
      requires Valid() && Active(projects, project) && projects[project].owner in desired
      modifies this`members
      ensures Valid()
      ensures forall u :: u in newcomers <==> u in desired && (project, u) !in old(members)
      ensures forall k :: k in members <==> if k.0 == project then k.1 in desired else k in old(members)
      ensures forall k :: k in members && k in old(members) ==> members[k] == old(members)[k]
      ensures forall u, p :: u in newcomers && p != project && (p, u) in members ==>
        members[(p, u)] < members[(project, u)]
    {
      newcomers := set u | u in desired && (project, u) !in members;
      members := map k | k in members && (k.0 != project || k.1 in desired) :: members[k];
      var next := GetNextMemberOrders(newcomers);
      AddMembers(project, newcomers, next);
      assert forall k: (int, int) :: k.0 == project && k.1 in desired ==> k == (project, k.1);
    }

    /** Soft delete: the membership rows stay. */
    method Delete(project: int, user: int) returns (ok: bool)
      requires Valid()
      modifies this
      ensures Valid()
      ensures ok <==> Active(old(projects), project) && old(projects)[project].owner == user
      ensures members == old(members)
      ensures projects ==
        if ok then old(projects)[project := old(projects)[project].(deleted := true)] else old(projects)
    {
      if !Active(projects, project) || projects[project].owner != user { return false; }
      projects := projects[project := projects[project].(deleted := true)];
      return true;
    }

    /**
     Accepts exactly the permutations of the user's visible memberships, and then lists them in
     that order.
     */
    method Reorder(ids: seq<int>, user: int) returns (ok: bool)
      requires Valid()
      modifies this
      ensures Valid() && projects == old(projects)
      ensures ok <==> NoDuplicates(ids) && forall p :: p in ids <==> Active(projects, p) && (p, user) in old(members)
      ensures !ok ==> members == old(members)
      ensures members.Keys == old(members).Keys
      ensures forall k :: k in members && k.1 != user ==> members[k] == old(members)[k]
      ensures ok ==> GetAll(projects, members, user) == ids
    {
      var accessible := set k | k in members && k.1 == user && Active(projects, k.0) :: k.0;
      var requested := set p | p in ids;
      forall p ensures p in accessible <==> Active(projects, p) && (p, user) in members {
        if Active(projects, p) && (p, user) in members {
          var k := (p, user);
          assert k in members && k.1 == user && k.0 == p;
        }
      }
      AcceptsIff(ids, requested, accessible);
      SameMembers(ids, requested, accessible);
      if |requested| != |ids| || |requested| != |accessible| || exists p :: p in requested && p !in accessible {
        return false;
      }
      assert forall p :: p in ids <==> p in accessible;
      forall i | 0 <= i < |ids| ensures (ids[i], user) in members {
        var p := ids[i];
        assert p in ids;
      }
      WriteOrders(ids, user);
      ListedAsAsked(projects, members, user, ids);
      return true;
    }

    /** One row after the other gets its position. */
    method WriteOrders(ids: seq<int>, user: int)
      requires NoDuplicates(ids)
      requires forall i :: 0 <= i < |ids| ==> (ids[i], user) in members
      modifies this`members
      ensures members.Keys == old(members).Keys
      ensures forall i :: 0 <= i < |ids| ==> (ids[i], user) in members && members[(ids[i], user)] == i
      ensures forall k :: k in members && (k.1 != user || k.0 !in ids) ==> members[k] == old(members)[k]
    {
      var order := 0;
      while order < |ids|
        invariant 0 <= order <= |ids|
        invariant members.Keys == old(members).Keys
        invariant forall i :: 0 <= i < order ==> (ids[i], user) in members && members[(ids[i], user)] == i
        invariant forall k :: k in members && (k.1 != user || k.0 !in ids) ==> members[k] == old(members)[k]
      {
        members := members[(ids[order], user) := order];
        order := order + 1;
      }
    }
  }

  lemma SameMembers(ids: seq<int>, requested: set<int>, accessible: set<int>)
    requires requested == set p | p in ids
    ensures requested == accessible <==> forall p :: p in ids <==> p in accessible
  {
    assert forall p :: p in ids <==> p in requested;
    if forall p :: p in ids <==> p in accessible {
      assert forall p :: p in requested <==> p in accessible;
    }
  }

  lemma SubsetOfSameSize(s: set<int>, t: set<int>)
    requires s <= t && |s| == |t|
    ensures s == t
  {
    assert t == s + (t - s);
    assert |t| == |s| + |t - s|;
  }

  /** The three comparisons of the request together say: a permutation. */
  lemma AcceptsIff(ids: seq<int>, requested: set<int>, accessible: set<int>)
    requires requested == set p | p in ids
    ensures |requested| == |ids| && |requested| == |accessible| && (forall p :: p in requested ==> p in accessible)
      <==> NoDuplicates(ids) && requested == accessible
  {
    SetOfList(ids);
    if |requested| == |accessible| && forall p :: p in requested ==> p in accessible {
      SubsetOfSameSize(requested, accessible);
    }
  }

  lemma ListedAsAsked(projects: Projects, members: Members, user: int, ids: seq<int>)
    requires forall p :: Active(projects, p) ==> (p, projects[p].owner) in members
    requires forall p :: p in ids <==> Active(projects, p) && (p, user) in members
    requires forall i :: 0 <= i < |ids| ==> (ids[i], user) in members && members[(ids[i], user)] == i
    ensures GetAll(projects, members, user) == ids
  {
    var keys := ListKeys(projects, members, user);
    forall i | 0 <= i < |ids| ensures ids[i] in keys && keys[ids[i]] == Key(0, i) {
      var p := ids[i];
      assert p in ids;
    }
    SortedIs(ids, keys);
  }

  /** The list: visible projects owned or joined, memberships by order, then the others newest first. */
  lemma GetAllMeans(projects: Projects, members: Members, user: int)
    ensures var list := GetAll(projects, members, user);
      && NoDuplicates(list)
      && (forall p :: p in list <==>
            p in projects && !projects[p].deleted && (projects[p].owner == user || (p, user) in members))
      && forall i, j :: 0 <= i < j < |list| ==>
           var p, q := list[i], list[j];
           if (q, user) in members then (p, user) in members && members[(p, user)] <= members[(q, user)]
           else (p, user) in members || projects[p].createdAt >= projects[q].createdAt
  {
    var keys := ListKeys(projects, members, user);
    SortedLists(keys);
    var list := GetAll(projects, members, user);
    forall i, j | 0 <= i < j < |list| ensures
        var p, q := list[i], list[j];
        if (q, user) in members then (p, user) in members && members[(p, user)] <= members[(q, user)]
        else (p, user) in members || (p in projects && q in projects && projects[p].createdAt >= projects[q].createdAt)
    {
      assert Before(keys, list[i], list[j]);
    }
  }

  /** A project whose order is above a member's other visible ones comes last in their list. */
  lemma LargestOrderIsLast(projects: Projects, members: Members, user: int, p: int)
    requires forall q :: Active(projects, q) ==> (q, projects[q].owner) in members
    requires Active(projects, p) && (p, user) in members
    requires forall q ::
      Active(projects, q) && q != p && (q, user) in members ==> members[(q, user)] < members[(p, user)]
    ensures var list := GetAll(projects, members, user);
      IsLast(list, p)
  {
    var keys := ListKeys(projects, members, user);
    var list := GetAll(projects, members, user);
    SortedLists(keys);
    assert p in keys && p in list;
    var i :| 0 <= i < |list| && list[i] == p;
    var q := list[|list| - 1];
    assert q in keys;
  }

  lemma AllLast(projects: Projects, members: Members, users: set<int>, p: int)
    requires forall q :: Active(projects, q) ==> (q, projects[q].owner) in members
    requires Active(projects, p)
    requires forall u :: u in users ==> (p, u) in members
    requires forall u, q :: u in users && q != p && (q, u) in members ==> members[(q, u)] < members[(p, u)]
    ensures forall u :: u in users ==> IsLast(GetAll(projects, members, u), p)
  {
    forall u | u in users ensures IsLast(GetAll(projects, members, u), p) {
      LargestOrderIsLast(projects, members, u, p);
    }
  }
}
