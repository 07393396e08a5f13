/**
 The breadth-first collection of a task and everything below it.

 The loop of the engine keeps no set of visited rows. On a forest it still ends,
 and returns each descendant once, parents before children.
 */
module Hierarchy {
  import opened Wrappers
  import opened SortedListing
  import opened TaskRows

  /** Archived rows are seen only by the queries that ask for them. */
  predicate Seen(tasks: Tasks, all: bool, x: int) {
    x in tasks && (all || !tasks[x].archived)
  }

  /** `x` is `n` parent links below `root`, through rows the query sees. */
  ghost predicate Under(tasks: Tasks, all: bool, root: int, x: int, n: nat)
    decreases n
  {
    if n == 0 then x == root
    else Seen(tasks, all, x) && tasks[x].parent.Some?
         && Under(tasks, all, root, tasks[x].parent.value, n - 1)
  }

  ghost predicate Descends(tasks: Tasks, all: bool, root: int, x: int) {
    exists n: nat :: Under(tasks, all, root, x, n)
  }

  function ChildKeys(tasks: Tasks, all: bool, parents: seq<int>): map<int, Key>
  {
    map x | x in tasks && (all || !tasks[x].archived) && tasks[x].parent.Some?
            && tasks[x].parent.value in parents
      :: Key(tasks[x].parent.value, tasks[x].order)
  }

  /** One query of the loop: the children of a level, by parent, order and id. */
  function Children(tasks: Tasks, all: bool, parents: seq<int>): seq<int> {
    Sorted(ChildKeys(tasks, all, parents))
  }

  function Level(tasks: Tasks, all: bool, root: int, n: nat): seq<int> {
    if n == 0 then [root] else Children(tasks, all, Level(tasks, all, root, n - 1))
  }

  /** Levels 0 to `n`, one after the other. */
  function UpTo(tasks: Tasks, all: bool, root: int, n: nat): seq<int> {
    if n == 0 then [root] else UpTo(tasks, all, root, n - 1) + Level(tasks, all, root, n)
  }

  /** Levels deeper than the number of rows are empty, so this is the whole hierarchy. */
  function HierarchyOf(tasks: Tasks, all: bool, root: int): seq<int> {
    UpTo(tasks, all, root, |tasks|)
  }

  // ---------------------------------------------------------------- what a level holds

  lemma ChildrenHold(tasks: Tasks, all: bool, parents: seq<int>, x: int)
    ensures x in Children(tasks, all, parents)
        <==> Seen(tasks, all, x) && tasks[x].parent.Some? && tasks[x].parent.value in parents
  {
    SortedLists(ChildKeys(tasks, all, parents));
  }

  lemma {:induction false} LevelHolds(tasks: Tasks, all: bool, root: int, n: nat, x: int)
    ensures x in Level(tasks, all, root, n) <==> Under(tasks, all, root, x, n)
    decreases n
  {
    if n > 0 {
      ChildrenHold(tasks, all, Level(tasks, all, root, n - 1), x);
      if Seen(tasks, all, x) && tasks[x].parent.Some? {
        LevelHolds(tasks, all, root, n - 1, tasks[x].parent.value);
      }
    }
  }

  lemma LevelIsDistinct(tasks: Tasks, all: bool, root: int, n: nat)
    ensures NoDuplicates(Level(tasks, all, root, n))
  {
    if n > 0 {
      var above := Level(tasks, all, root, n - 1);
      SortedLists(ChildKeys(tasks, all, above));
    }
  }

  lemma {:induction false} UpToHolds(tasks: Tasks, all: bool, root: int, n: nat, x: int)
    ensures x in UpTo(tasks, all, root, n)
        <==> exists k: nat :: k <= n && Under(tasks, all, root, x, k)
  {
    LevelHolds(tasks, all, root, n, x);
    if n > 0 {
      UpToHolds(tasks, all, root, n - 1, x);
    } else {
      assert Under(tasks, all, root, x, 0) <==> x == root;
    }
  }

  // ---------------------------------------------------------------- on a forest

  /** Going down `n` links raises the rank by at least `n`. */
  lemma {:induction false} UnderRaisesRank(tasks: Tasks, rank: map<int, nat>, all: bool, root: int,
                                           x: int, n: nat)
    requires Ranked(tasks, rank) && root in tasks && Under(tasks, all, root, x, n)
    ensures x in tasks && rank[root] + n <= rank[x]
    decreases n
  {
    if n > 0 {
      UnderRaisesRank(tasks, rank, all, root, tasks[x].parent.value, n - 1);
    }
  }

  /** A task is at one depth only. */
  lemma {:induction false} OneDepth(tasks: Tasks, rank: map<int, nat>, all: bool, root: int, x: int,
                                    m: nat, n: nat)
    requires Ranked(tasks, rank) && root in tasks
    requires Under(tasks, all, root, x, m) && Under(tasks, all, root, x, n)
    ensures m == n
    decreases n
  {
    if m == 0 {
      UnderRaisesRank(tasks, rank, all, root, x, n);
    } else if n == 0 {
      UnderRaisesRank(tasks, rank, all, root, x, m);
    } else {
      OneDepth(tasks, rank, all, root, tasks[x].parent.value, m - 1, n - 1);
    }
  }

  lemma {:induction false} UpToIsDistinct(tasks: Tasks, all: bool, root: int, n: nat)
    requires Forest(tasks) && root in tasks
    ensures NoDuplicates(UpTo(tasks, all, root, n))
  {
    if n > 0 {
      UpToIsDistinct(tasks, all, root, n - 1);
      LevelIsDistinct(tasks, all, root, n);
      var before, level := UpTo(tasks, all, root, n - 1), Level(tasks, all, root, n);
      var rank :| Ranked(tasks, rank);
      forall i, j | 0 <= i < |before| && 0 <= j < |level| ensures before[i] != level[j] {
        var x := before[i];
        assert x in before;
        UpToHolds(tasks, all, root, n - 1, x);
        if x == level[j] {
          assert x in level;
          LevelHolds(tasks, all, root, n, x);
          var k: nat :| k <= n - 1 && Under(tasks, all, root, x, k);
          OneDepth(tasks, rank, all, root, x, k, n);
          assert false;
        }
      }
      DistinctConcat(before, level);
    }
  }

  lemma DistinctConcat(s: seq<int>, t: seq<int>)
    requires NoDuplicates(s) && NoDuplicates(t)
    requires forall i, j :: 0 <= i < |s| && 0 <= j < |t| ==> s[i] != t[j]
    ensures NoDuplicates(s + t)
  {}

  lemma UpToFits(tasks: Tasks, all: bool, root: int, n: nat)
    requires Forest(tasks) && root in tasks
    ensures |UpTo(tasks, all, root, n)| <= |tasks|
  {
    var list := UpTo(tasks, all, root, n);
    UpToIsDistinct(tasks, all, root, n);
    var rank :| Ranked(tasks, rank);
    forall x | x in list ensures x in tasks.Keys {
      UpToHolds(tasks, all, root, n, x);
      var k: nat :| k <= n && Under(tasks, all, root, x, k);
      UnderRaisesRank(tasks, rank, all, root, x, k);
    }
    DistinctWithinSet(list, tasks.Keys);
    assert |tasks.Keys| == |tasks|;
  }

  /** Once a level is empty, so are all deeper ones. */
  lemma {:induction false} EmptyLevelsStayEmpty(tasks: Tasks, all: bool, root: int, k: nat, n: nat)
    requires k <= n && Level(tasks, all, root, k) == []
    ensures Level(tasks, all, root, n) == []
    ensures UpTo(tasks, all, root, n) == UpTo(tasks, all, root, k)
    decreases n
  {
    if k < n {
      EmptyLevelsStayEmpty(tasks, all, root, k, n - 1);
      assert ChildKeys(tasks, all, []) == map[];
    } else if k > 0 {
      assert UpTo(tasks, all, root, k) == UpTo(tasks, all, root, k - 1) + [];
    }
  }

  /** Each nonempty level makes the hierarchy longer. */
  lemma {:induction false} NonemptyLevelsGrow(tasks: Tasks, all: bool, root: int, n: nat)
    requires Level(tasks, all, root, n) != []
    ensures |UpTo(tasks, all, root, n)| >= n + 1
  {
    if n > 0 {
      assert Level(tasks, all, root, n - 1) != [] by {
        assert ChildKeys(tasks, all, []) == map[];
      }
      NonemptyLevelsGrow(tasks, all, root, n - 1);
    }
  }

  lemma HierarchyReached(tasks: Tasks, all: bool, root: int, k: nat)
    requires Forest(tasks) && root in tasks && Level(tasks, all, root, k) == []
    ensures HierarchyOf(tasks, all, root) == UpTo(tasks, all, root, k)
  {
    var n := |tasks|;
    if Level(tasks, all, root, n) != [] {
      NonemptyLevelsGrow(tasks, all, root, n);
      UpToFits(tasks, all, root, n);
      assert false;
    }
    if k <= n {
      EmptyLevelsStayEmpty(tasks, all, root, k, n);
    } else {
      EmptyLevelsStayEmpty(tasks, all, root, n, k);
    }
  }

  /** The depth of a descendant is below the number of rows. */
  lemma DepthIsBounded(tasks: Tasks, all: bool, root: int, x: int, n: nat)
    requires Forest(tasks) && root in tasks && Under(tasks, all, root, x, n)
    ensures n < |tasks|
  {
    LevelHolds(tasks, all, root, n, x);
    NonemptyLevelsGrow(tasks, all, root, n);
    UpToFits(tasks, all, root, n);
  }

  /**
   The hierarchy is exactly the descendants reachable through the chosen rows,
   each once.
   */
  lemma HierarchyIsDescendants(tasks: Tasks, all: bool, root: int)
    requires Forest(tasks) && root in tasks
    ensures forall x :: x in HierarchyOf(tasks, all, root) <==> Descends(tasks, all, root, x)
    ensures NoDuplicates(HierarchyOf(tasks, all, root))
    ensures |HierarchyOf(tasks, all, root)| > 0 && HierarchyOf(tasks, all, root)[0] == root
  {
    var h := HierarchyOf(tasks, all, root);
    UpToIsDistinct(tasks, all, root, |tasks|);
    RootFirst(tasks, all, root, |tasks|);
    forall x ensures x in h <==> Descends(tasks, all, root, x) {
      HierarchyHolds(tasks, all, root, x);
    }
  }

  lemma HierarchyHolds(tasks: Tasks, all: bool, root: int, x: int)
    requires Forest(tasks) && root in tasks
    ensures x in HierarchyOf(tasks, all, root) <==> Descends(tasks, all, root, x)
  {
    UpToHolds(tasks, all, root, |tasks|, x);
    if Descends(tasks, all, root, x) {
      var n: nat :| Under(tasks, all, root, x, n);
      DepthIsBounded(tasks, all, root, x, n);
      assert exists k: nat :: k <= |tasks| && Under(tasks, all, root, x, k);
    }
  }

  lemma {:induction false} RootFirst(tasks: Tasks, all: bool, root: int, n: nat)
    ensures |UpTo(tasks, all, root, n)| > 0 && UpTo(tasks, all, root, n)[0] == root
  {
    if n > 0 { RootFirst(tasks, all, root, n - 1); }
  }

  lemma {:induction false} ParentsFirst(tasks: Tasks, all: bool, root: int, n: nat, i: nat)
    requires i < |UpTo(tasks, all, root, n)|
    ensures i > 0 ==>
      var x := UpTo(tasks, all, root, n)[i];
      && x in tasks && tasks[x].parent.Some?
      && exists j :: 0 <= j < i && UpTo(tasks, all, root, n)[j] == tasks[x].parent.value
  {
    if n > 0 && i > 0 {
      var before := UpTo(tasks, all, root, n - 1);
      var list := UpTo(tasks, all, root, n);
      if i < |before| {
        ParentsFirst(tasks, all, root, n - 1, i);
        var j :| 0 <= j < i && before[j] == tasks[before[i]].parent.value;
        assert list[j] == before[j];
      } else {
        var x := list[i];
        assert x == Level(tasks, all, root, n)[i - |before|];
        ChildrenHold(tasks, all, Level(tasks, all, root, n - 1), x);
        var p := tasks[x].parent.value;
        LevelHolds(tasks, all, root, n - 1, p);
        UpToHolds(tasks, all, root, n - 1, p);
        assert p in before;
        var j :| 0 <= j < |before| && before[j] == p;
        assert list[j] == p;
      }
    }
  }

  /** Tasks at one depth come by parent, then by order, then by id. */
  lemma LevelIsOrdered(tasks: Tasks, all: bool, root: int, n: nat, i: nat, j: nat)
    requires n > 0 && i < j < |Level(tasks, all, root, n)|
    ensures var x, y := Level(tasks, all, root, n)[i], Level(tasks, all, root, n)[j];
      && x in tasks && y in tasks && tasks[x].parent.Some? && tasks[y].parent.Some?
      && var p, q := tasks[x].parent.value, tasks[y].parent.value;
         || p < q
         || (p == q && tasks[x].order < tasks[y].order)
         || (p == q && tasks[x].order == tasks[y].order && x < y)
  {
    var keys := ChildKeys(tasks, all, Level(tasks, all, root, n - 1));
    SortedLists(keys);
    var level := Level(tasks, all, root, n);
    assert Before(keys, level[i], level[j]);
  }

  /** Every task but the root comes after its parent. */
  lemma HierarchyParentsFirst(tasks: Tasks, all: bool, root: int, i: nat)
    requires 0 < i < |HierarchyOf(tasks, all, root)|
    ensures
      var h := HierarchyOf(tasks, all, root);
      && h[i] in tasks && tasks[h[i]].parent.Some?
      && exists j :: 0 <= j < i && h[j] == tasks[h[i]].parent.value
  {
    ParentsFirst(tasks, all, root, |tasks|, i);
  }

  /** Descendants are closed under seen children. */
  lemma DescendsToChildren(tasks: Tasks, all: bool, root: int, p: int, x: int)
    requires Descends(tasks, all, root, p)
    requires Seen(tasks, all, x) && tasks[x].parent == Some(p)
    ensures Descends(tasks, all, root, x)
  {
    var n: nat :| Under(tasks, all, root, p, n);
    assert Under(tasks, all, root, x, n + 1);
  }

  /** The parent of a proper descendant is a descendant. */
  lemma DescendsFromParent(tasks: Tasks, all: bool, root: int, x: int)
    requires Descends(tasks, all, root, x) && x != root
    ensures Seen(tasks, all, x) && tasks[x].parent.Some?
    ensures Descends(tasks, all, root, tasks[x].parent.value)
  {
    var n: nat :| Under(tasks, all, root, x, n);
    assert n > 0;
    assert Under(tasks, all, root, tasks[x].parent.value, n - 1);
  }
}
