/**
 The two renumbering passes that keep the root list of a column.

 They read whatever orders a column has, with gaps or repeats, and write 0, 1, 2, ...
 Here they are shown to be list removal and list insertion.
 */
module ColumnOrder {
  import opened SortedListing
  import opened TaskRows

  /** Each listed row gets its position as order. */
  function Renumber(tasks: Tasks, list: seq<int>): Tasks {
    map x | x in tasks :: if x in list then tasks[x].(order := IndexOf(list, x)) else tasks[x]
  }

  function Clamp(requested: int, high: nat): nat {
    if requested < 0 then 0 else if requested > high then high else requested
  }

  function InsertAt(list: seq<int>, position: nat, x: int): seq<int>
    requires position <= |list|
  {
    list[..position] + [x] + list[position..]
  }

  function Remove(list: seq<int>, x: int): seq<int> {
    if list == [] then []
    else if list[0] == x then Remove(list[1..], x)
    else [list[0]] + Remove(list[1..], x)
  }

  function PlacedList(tasks: Tasks, column: int, id: int, requested: int): seq<int> {
    var others := Others(tasks, column, id);
    InsertAt(others, Clamp(requested, |others|), id)
  }

  /** Closes the gap a task leaves in a column. */
  function CloseGap(tasks: Tasks, column: int, id: int): Tasks {
    Renumber(tasks, Others(tasks, column, id))
  }

  /** Puts a task at a position of a column and makes room for it. */
  function Place(tasks: Tasks, id: int, column: int, requested: int): (r: Tasks)
    requires id in tasks
    ensures r.Keys == tasks.Keys
  {
    var t := Renumber(tasks, PlacedList(tasks, column, id, requested));
    t[id := t[id].(columnId := column)]
  }

  function MoveRoot(tasks: Tasks, id: int, column: int, requested: int): (r: Tasks)
    requires id in tasks
    ensures r.Keys == tasks.Keys
  {
    var from := tasks[id].columnId;
    Place(if from != column then CloseGap(tasks, from, id) else tasks, id, column, requested)
  }

  // ---------------------------------------------------------------- listings

  lemma OthersHold(tasks: Tasks, column: int, id: int)
    ensures Lists(Others(tasks, column, id), RootKeys(tasks, column, {id}))
    ensures NoDuplicates(Others(tasks, column, id))
  {
    SortedLists(RootKeys(tasks, column, {id}));
  }

  /** A list with matching members and positions as orders is what the column shows. */
  lemma NumberedListIsColumn(tasks: Tasks, column: int, list: seq<int>)
    requires forall x :: x in list <==> x in RootKeys(tasks, column, {})
    requires forall i :: 0 <= i < |list| ==> list[i] in tasks && tasks[list[i]].order == i
    ensures ColumnList(tasks, column) == list && DenseColumn(tasks, column)
  {
    var keys := RootKeys(tasks, column, {});
    forall i | 0 <= i < |list| ensures list[i] in keys {
      var x := list[i];
      assert x in list;
    }
    SortedIs(list, keys);
  }

  lemma NumberedByRenumber(tasks: Tasks, list: seq<int>)
    requires NoDuplicates(list) && forall x :: x in list ==> x in tasks
    ensures forall i :: 0 <= i < |list| ==>
              list[i] in tasks && Renumber(tasks, list)[list[i]].order == i
  {
    forall i | 0 <= i < |list|
      ensures list[i] in tasks && Renumber(tasks, list)[list[i]].order == i
    {
      var x := list[i];
      assert x in list;
      assert IndexOf(list, x) == i;
    }
  }

  lemma {:induction false} RemoveLists(s: seq<int>, keys: map<int, Key>, x: int)
    requires Lists(s, keys)
    ensures Lists(Remove(s, x), keys - {x})
    decreases |s|
  {
    if s != [] {
      var a := s[0];
      TailLists(s, keys);
      RemoveLists(s[1..], keys - {a}, x);
      if a == x {
        assert keys - {a} - {x} == keys - {x};
      } else {
        assert keys - {a} - {x} == keys - {x} - {a};
        assert forall y :: y in keys && y != a ==> y in s && Before(keys, a, y);
        PrependFirst(a, Remove(s[1..], x), keys - {x});
      }
    } else {
      EmptyListing(s, keys);
      assert keys - {x} == map[];
    }
  }

  /** `Others` is the column's list with the task taken out. */
  lemma OthersIsRemoval(tasks: Tasks, column: int, id: int)
    ensures Others(tasks, column, id) == Remove(ColumnList(tasks, column), id)
  {
    var keys := RootKeys(tasks, column, {});
    SortedLists(keys);
    RemoveLists(ColumnList(tasks, column), keys, id);
    assert keys - {id} == RootKeys(tasks, column, {id});
    SortedIs(Remove(ColumnList(tasks, column), id), keys - {id});
  }

  // ---------------------------------------------------------------- the passes

  /** What renumbering leaves alone. */
  ghost predicate SameButOrder(tasks: Tasks, result: Tasks) {
    && result.Keys == tasks.Keys
    && forall x :: x in tasks ==> result[x].(order := tasks[x].order) == tasks[x]
  }

  lemma RenumberChangesOrderOnly(tasks: Tasks, list: seq<int>)
    ensures SameButOrder(tasks, Renumber(tasks, list))
    ensures forall x :: x in tasks && x !in list ==> Renumber(tasks, list)[x] == tasks[x]
  {}

  /** `CloseGap` numbers the rest of the column from 0 and touches nothing else. */
  lemma CloseGapHolds(tasks: Tasks, column: int, id: int)
    ensures var r := CloseGap(tasks, column, id);
      && SameButOrder(tasks, r)
      && (forall x :: x in tasks && x !in RootKeys(tasks, column, {id}) ==> r[x] == tasks[x])
      && (forall i :: 0 <= i < |Others(tasks, column, id)| ==>
            Others(tasks, column, id)[i] in r && r[Others(tasks, column, id)[i]].order == i)
  {
    OthersHold(tasks, column, id);
    RenumberChangesOrderOnly(tasks, Others(tasks, column, id));
    NumberedByRenumber(tasks, Others(tasks, column, id));
  }

  lemma InsertKeepsDistinct(list: seq<int>, p: nat, x: int)
    requires NoDuplicates(list) && x !in list && p <= |list|
    ensures NoDuplicates(InsertAt(list, p, x))
  {
    var r := InsertAt(list, p, x);
    assert forall i :: 0 <= i < |r| && i != p ==> r[i] == list[if i < p then i else i - 1];
  }

  lemma InsertMembers(list: seq<int>, p: nat, x: int, y: int)
    requires p <= |list|
    ensures y in InsertAt(list, p, x) <==> y == x || y in list
  {
    assert list == list[..p] + list[p..];
    assert y in list <==> y in list[..p] || y in list[p..];
    assert y in InsertAt(list, p, x) <==> y in list[..p] || y == x || y in list[p..];
  }

  lemma PlacedListHolds(tasks: Tasks, column: int, id: int, requested: int)
    ensures var list := PlacedList(tasks, column, id, requested);
      && NoDuplicates(list)
      && (forall x :: x in list <==> x == id || x in RootKeys(tasks, column, {id}))
  {
    OthersHold(tasks, column, id);
    var others := Others(tasks, column, id);
    var p := Clamp(requested, |others|);
    InsertKeepsDistinct(others, p, id);
    forall x ensures x in PlacedList(tasks, column, id, requested) <==> x == id || x in RootKeys(tasks, column, {id}) {
      InsertMembers(others, p, id, x);
    }
  }

  /** `Place` numbers the new list of the column and touches nothing else. */
  lemma PlaceHolds(tasks: Tasks, id: int, column: int, requested: int)
    requires id in tasks
    ensures var r := Place(tasks, id, column, requested);
      var list := PlacedList(tasks, column, id, requested);
      && r.Keys == tasks.Keys
      && (forall x :: x in tasks && x != id ==> r[x].(order := tasks[x].order) == tasks[x])
      && r[id] == tasks[id].(order := r[id].order, columnId := column)
      && (forall x :: x in tasks && x != id && x !in RootKeys(tasks, column, {id}) ==> r[x] == tasks[x])
      && (forall i :: 0 <= i < |list| ==> list[i] in r && r[list[i]].order == i)
  {
    var list := PlacedList(tasks, column, id, requested);
    PlacedListHolds(tasks, column, id, requested);
    RenumberChangesOrderOnly(tasks, list);
    NumberedByRenumber(tasks, list);
  }

  /** Placing an active root gives the column exactly the list asked for. */
  lemma PlaceRootList(tasks: Tasks, id: int, column: int, requested: int)
    requires ActiveTask(tasks, id) && tasks[id].parent.None?
    ensures var r := Place(tasks, id, column, requested);
      && ColumnList(r, column) == PlacedList(tasks, column, id, requested)
      && DenseColumn(r, column)
  {
    var r := Place(tasks, id, column, requested);
    PlaceHolds(tasks, id, column, requested);
    PlacedListHolds(tasks, column, id, requested);
    var list := PlacedList(tasks, column, id, requested);
    forall x ensures x in list <==> x in RootKeys(r, column, {}) {
      assert x in list <==> x == id || x in RootKeys(tasks, column, {id});
    }
    NumberedListIsColumn(r, column, list);
  }

  lemma SameKeysSameList(tasks: Tasks, result: Tasks, column: int)
    requires RootKeys(tasks, column, {}) == RootKeys(result, column, {})
    ensures ColumnList(tasks, column) == ColumnList(result, column)
    ensures DenseColumn(tasks, column) <==> DenseColumn(result, column)
  {
    var keys := RootKeys(tasks, column, {});
    SortedLists(keys);
    assert forall x :: x in keys ==>
      && x in tasks && x in result
      && tasks[x].order == keys[x].major && result[x].order == keys[x].major;
  }

  /** Between two tables that agree on a column's active roots, the listing is the same. */
  lemma UntouchedColumn(tasks: Tasks, result: Tasks, column: int)
    requires forall x :: x in RootKeys(tasks, column, {}) ==> x in result && result[x] == tasks[x]
    requires forall x :: x in RootKeys(result, column, {}) ==> x in tasks && result[x] == tasks[x]
    ensures ColumnList(tasks, column) == ColumnList(result, column)
    ensures DenseColumn(tasks, column) <==> DenseColumn(result, column)
  {
    var keys, keys' := RootKeys(tasks, column, {}), RootKeys(result, column, {});
    assert forall x :: x in keys <==> x in keys';
    assert forall x :: x in keys ==> keys[x] == keys'[x];
    assert keys == keys';
    SameKeysSameList(tasks, result, column);
  }

  lemma MoveTarget(tasks: Tasks, id: int, column: int, requested: int)
    requires ActiveTask(tasks, id) && tasks[id].parent.None?
    ensures var r := MoveRoot(tasks, id, column, requested);
      && ColumnList(r, column) == PlacedList(tasks, column, id, requested)
      && DenseColumn(r, column)
  {
    var from := tasks[id].columnId;
    var t := if from != column then CloseGap(tasks, from, id) else tasks;
    CloseGapHolds(tasks, from, id);
    PlaceRootList(t, id, column, requested);
    var keys, keys' := RootKeys(tasks, column, {id}), RootKeys(t, column, {id});
    assert forall x :: x in keys <==> x in keys';
    assert forall x :: x in keys ==> keys[x] == keys'[x];
    assert keys == keys';
  }

  lemma MoveSource(tasks: Tasks, id: int, column: int, requested: int)
    requires ActiveTask(tasks, id) && tasks[id].parent.None? && tasks[id].columnId != column
    ensures var r := MoveRoot(tasks, id, column, requested);
      var from := tasks[id].columnId;
      ColumnList(r, from) == Others(tasks, from, id) && DenseColumn(r, from)
  {
    var from := tasks[id].columnId;
    var t := CloseGap(tasks, from, id);
    var r := MoveRoot(tasks, id, column, requested);
    var list := Others(tasks, from, id);
    CloseGapHolds(tasks, from, id);
    PlaceHolds(t, id, column, requested);
    OthersHold(tasks, from, id);
    forall x ensures x in list <==> x in RootKeys(r, from, {}) {
      assert x in list <==> x in RootKeys(tasks, from, {id});
    }
    forall i | 0 <= i < |list| ensures list[i] in r && r[list[i]].order == i {
      assert list[i] in RootKeys(tasks, from, {id});
      assert t[list[i]].order == i;
      assert r[list[i]] == t[list[i]];
    }
    NumberedListIsColumn(r, from, list);
  }

  lemma MoveElsewhere(tasks: Tasks, id: int, column: int, requested: int, c: int)
    requires ActiveTask(tasks, id) && tasks[id].parent.None?
    requires c != tasks[id].columnId && c != column
    ensures var r := MoveRoot(tasks, id, column, requested);
      ColumnList(r, c) == ColumnList(tasks, c) && (DenseColumn(tasks, c) <==> DenseColumn(r, c))
  {
    var from := tasks[id].columnId;
    var t := if from != column then CloseGap(tasks, from, id) else tasks;
    CloseGapHolds(tasks, from, id);
    PlaceHolds(t, id, column, requested);
    UntouchedColumn(tasks, t, c);
    UntouchedColumn(t, MoveRoot(tasks, id, column, requested), c);
  }

  /**
   A root move is list surgery, whatever the orders were: the task leaves its old list and
   enters the target list at the clamped position; both columns end up numbered 0, 1, 2, ...
   and every other column shows what it showed.
   */
  lemma MoveIsRemoveThenInsert(tasks: Tasks, id: int, column: int, requested: int)
    requires ActiveTask(tasks, id) && tasks[id].parent.None?
    ensures var r := MoveRoot(tasks, id, column, requested);
      var from := tasks[id].columnId;
      var rest := Remove(ColumnList(tasks, column), id);
      && ColumnList(r, column) == InsertAt(rest, Clamp(requested, |rest|), id)
      && DenseColumn(r, column)
      && (from != column ==> ColumnList(r, from) == Remove(ColumnList(tasks, from), id)
                             && DenseColumn(r, from))
      && (forall c :: c != from && c != column ==>
            && ColumnList(r, c) == ColumnList(tasks, c)
            && (DenseColumn(tasks, c) <==> DenseColumn(r, c)))
  {
    var from := tasks[id].columnId;
    var r := MoveRoot(tasks, id, column, requested);
    MoveTarget(tasks, id, column, requested);
    OthersIsRemoval(tasks, column, id);
    if from != column {
      MoveSource(tasks, id, column, requested);
      OthersIsRemoval(tasks, from, id);
    }
    forall c | c != from && c != column
      ensures ColumnList(r, c) == ColumnList(tasks, c) && (DenseColumn(tasks, c) <==> DenseColumn(r, c))
    {
      MoveElsewhere(tasks, id, column, requested, c);
    }
  }

  /** A moved root keeps everything but its column and order; other rows keep all but their order. */
  lemma MoveRootFrame(tasks: Tasks, id: int, column: int, requested: int)
    requires id in tasks
    ensures var r := MoveRoot(tasks, id, column, requested);
      && r.Keys == tasks.Keys
      && (forall x :: x in tasks && x != id ==> r[x].(order := tasks[x].order) == tasks[x])
      && r[id] == tasks[id].(order := r[id].order, columnId := column)
      && (forall x :: x in tasks && x != id && (tasks[x].parent.Some? || tasks[x].archived) ==>
            r[x] == tasks[x])
  {
    var from := tasks[id].columnId;
    var t := if from != column then CloseGap(tasks, from, id) else tasks;
    CloseGapHolds(tasks, from, id);
    PlaceHolds(t, id, column, requested);
  }
}
