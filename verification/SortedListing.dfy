/**
 The result order of a query with an `ORDER BY` clause.

 A query selects rows and gives each a pair of sort values; the row's own id
 breaks ties, so the listing of a selection is unique.
 */
module SortedListing {

  datatype Key = Key(major: int, minor: int)

  /** Row `x` is listed before row `y`. */
  predicate Before(keys: map<int, Key>, x: int, y: int)
    requires x in keys && y in keys
  {
    || keys[x].major < keys[y].major
    || (keys[x].major == keys[y].major && keys[x].minor < keys[y].minor)
    || (keys[x] == keys[y] && x < y)
  }

  ghost predicate NoDuplicates<T>(s: seq<T>) {
    forall i, j :: 0 <= i < j < |s| ==> s[i] != s[j]
  }

  /** `s` holds exactly the selected rows, each before the next. */
  ghost predicate Lists(s: seq<int>, keys: map<int, Key>) {
    && (forall x :: x in s <==> x in keys)
    && (forall i :: 0 <= i < |s| ==> s[i] in keys)
    && (forall i, j :: 0 <= i < j < |s| ==> Before(keys, s[i], s[j]))
  }

  predicate IsFirst(m: int, keys: map<int, Key>) {
    m in keys && forall y :: y in keys ==> y == m || Before(keys, m, y)
  }

  lemma {:induction false} FirstExists(keys: map<int, Key>)
    requires keys != map[]
    ensures exists m :: IsFirst(m, keys)
    decreases |keys|
  {
    assert exists x :: x in keys by {
      assert (forall x :: x !in keys) ==> keys == map[];
    }
    var x :| x in keys;
    var rest := keys - {x};
    if rest == map[] {
      assert forall y :: y in keys && y != x ==> y in rest;
      assert IsFirst(x, keys);
    } else {
      FirstExists(rest);
      var m :| IsFirst(m, rest);
      var first := if Before(keys, x, m) then x else m;
      forall y | y in keys ensures y == first || Before(keys, first, y) {
        assert y != x ==> y in rest && (y == m || Before(rest, m, y));
      }
      assert IsFirst(first, keys);
    }
  }

  /** The selected rows in listing order; `SortedLists` says what it holds. */
  function Sorted(keys: map<int, Key>): seq<int>
    decreases |keys|
  {
    if keys == map[] then []
    else
      FirstExists(keys);
      var m :| IsFirst(m, keys);
      [m] + Sorted(keys - {m})
  }

  lemma {:induction false} SortedLists(keys: map<int, Key>)
    ensures Lists(Sorted(keys), keys)
    ensures NoDuplicates(Sorted(keys))
    decreases |keys|
  {
    if keys != map[] {
      FirstExists(keys);
      var m :| IsFirst(m, keys);
      var tail := Sorted(keys - {m});
      SortedLists(keys - {m});
      assert Sorted(keys) == [m] + tail;
      PrependFirst(m, tail, keys);
    }
    ListsHasNoDuplicates(Sorted(keys), keys);
  }

  lemma PrependFirst(m: int, tail: seq<int>, keys: map<int, Key>)
    requires IsFirst(m, keys) && Lists(tail, keys - {m})
    ensures Lists([m] + tail, keys)
  {
    var s := [m] + tail;
    var rest := keys - {m};
    forall x ensures x in s <==> x in keys {
      assert x in s <==> x == m || x in tail;
      assert x in rest <==> x in keys && x != m;
    }
    forall i, j | 0 <= i < j < |s| ensures Before(keys, s[i], s[j]) {
      assert s[j] == tail[j - 1] && s[j] in rest;
      if i > 0 {
        assert s[i] == tail[i - 1] && s[i] in rest;
        assert Before(rest, tail[i - 1], tail[j - 1]);
      }
    }
  }

  lemma ListsHasNoDuplicates(s: seq<int>, keys: map<int, Key>)
    requires Lists(s, keys)
    ensures NoDuplicates(s)
  {
    forall i, j | 0 <= i < j < |s| ensures s[i] != s[j] {
      assert Before(keys, s[i], s[j]);
    }
  }

  lemma EmptyListing(s: seq<int>, keys: map<int, Key>)
    requires Lists(s, keys)
    ensures s == [] <==> keys == map[]
  {
    if s == [] {
      assert forall x :: x in keys ==> x in s;
    } else {
      assert s[0] in keys;
    }
  }

  /** There is only one way to list a selection. */
  lemma {:induction false} ListingIsUnique(s: seq<int>, t: seq<int>, keys: map<int, Key>)
    requires Lists(s, keys) && Lists(t, keys)
    ensures s == t
    decreases |s|
  {
    EmptyListing(s, keys);
    EmptyListing(t, keys);
    if s != [] {
      var a := s[0]; assert a in keys; assert a in t;
      var b := t[0]; assert b in keys; assert b in s;
      var i :| 0 <= i < |t| && t[i] == a;
      var j :| 0 <= j < |s| && s[j] == b;
      assert a == b;
      TailLists(s, keys);
      TailLists(t, keys);
      ListingIsUnique(s[1..], t[1..], keys - {a});
      assert s == [a] + s[1..] && t == [b] + t[1..];
    }
  }

  lemma TailLists(s: seq<int>, keys: map<int, Key>)
    requires s != [] && Lists(s, keys)
    ensures Lists(s[1..], keys - {s[0]})
  {
    var rest := keys - {s[0]};
    ListsHasNoDuplicates(s, keys);
    forall x ensures x in s[1..] <==> x in rest {
      if x in s && x != s[0] {
        var i :| 0 <= i < |s| && s[i] == x;
        assert s[1..][i - 1] == x;
      }
    }
    forall i, j | 0 <= i < j < |s[1..]| ensures Before(rest, s[1..][i], s[1..][j]) {
      assert Before(keys, s[i + 1], s[j + 1]);
    }
  }

  lemma SortedIs(s: seq<int>, keys: map<int, Key>)
    requires Lists(s, keys)
    ensures Sorted(keys) == s
  {
    SortedLists(keys);
    ListingIsUnique(Sorted(keys), s, keys);
  }

  /** The selected rows listed after `m`. */
  function ListedAfter(keys: map<int, Key>, m: int): map<int, Key>
    requires m in keys
  {
    map x | x in keys && Before(keys, m, x) :: keys[x]
  }

  lemma ListedBehind(s: seq<int>, keys: map<int, Key>, k: nat, x: int)
    requires Lists(s, keys) && 0 < k <= |s| && s[k - 1] in keys
    ensures x in s[k..] <==> x in ListedAfter(keys, s[k - 1])
  {
    if x in s {
      var i :| 0 <= i < |s| && s[i] == x;
      if i >= k { assert s[k..][i - k] == x; }
      assert Before(keys, s[if i < k then i else k - 1], s[if i < k then k - 1 else i]) || i == k - 1;
    }
  }

  /** Cutting a listing after a row leaves the listing of the rows after it. */
  lemma CutIsAfter(keys: map<int, Key>, k: nat)
    requires 0 < k <= |Sorted(keys)|
    ensures Sorted(keys)[k - 1] in keys
    ensures Sorted(ListedAfter(keys, Sorted(keys)[k - 1])) == Sorted(keys)[k..]
  {
    SortedLists(keys);
    var s := Sorted(keys);
    var rest, after := s[k..], ListedAfter(keys, s[k - 1]);
    forall x ensures x in rest <==> x in after { ListedBehind(s, keys, k, x); }
    forall i | 0 <= i < |rest| ensures rest[i] in after {
      var x := rest[i];
      assert x in rest;
    }
    forall i, j | 0 <= i < j < |rest| ensures Before(after, rest[i], rest[j]) {
      assert Before(keys, s[k + i], s[k + j]);
    }
    SortedIs(rest, after);
  }

  predicate IsLast(list: seq<int>, x: int) {
    list != [] && list[|list| - 1] == x
  }

  /** Position of a member of a list. */
  function IndexOf<T(==)>(s: seq<T>, x: T): (i: nat)
    requires x in s
    ensures i < |s| && s[i] == x
    ensures forall j :: 0 <= j < i ==> s[j] != x
  {
    if s[0] == x then 0 else 1 + IndexOf(s[1..], x)
  }

  lemma DistinctPrefix(ids: seq<int>)
    requires ids != []
    ensures var rest, last := ids[..|ids| - 1], ids[|ids| - 1];
      NoDuplicates(ids) <==> NoDuplicates(rest) && last !in rest
  {
    var rest, last := ids[..|ids| - 1], ids[|ids| - 1];
    if last in rest {
      var i :| 0 <= i < |rest| && rest[i] == last;
      assert ids[i] == ids[|ids| - 1];
    }
    assert forall i :: 0 <= i < |rest| ==> rest[i] == ids[i];
  }

  /** A list has as many members as entries exactly if nothing repeats. */
  lemma {:induction false} SetOfList(ids: seq<int>)
    ensures |set p | p in ids| == |ids| <==> NoDuplicates(ids)
    ensures |set p | p in ids| <= |ids|
    decreases |ids|
  {
    if ids != [] {
      var rest, last := ids[..|ids| - 1], ids[|ids| - 1];
      SetOfList(rest);
      DistinctPrefix(ids);
      assert ids == rest + [last];
      assert (set p | p in ids) == (set p | p in rest) + {last};
    }
  }

  lemma {:induction false} DistinctWithinSet<T>(s: seq<T>, universe: set<T>)
    requires NoDuplicates(s)
    requires forall x :: x in s ==> x in universe
    ensures |s| <= |universe|
    decreases |s|
  {
    if s != [] {
      var rest := s[..|s| - 1];
      var last := s[|s| - 1];
      forall x | x in rest ensures x in universe - {last} {
        var i :| 0 <= i < |rest| && rest[i] == x;
        assert s[i] == x;
      }
      DistinctWithinSet(rest, universe - {last});
      assert last in s && last in universe;
    }
  }
}
