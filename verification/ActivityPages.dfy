/**
 Cursor pages over the activity log and the time entries.

 A page asks for one record more than it shows; if that record exists, the last shown id is the
 cursor of the next page. The records may change between requests in any way: ids are drawn
 before a record is committed, and records leave a feed with the right to read them.
 `PagesAreWindows` says what the pages hold then, the other theorems what they hold when records
 are only added, with larger ids.
 */
module ActivityPages {
  import opened Wrappers
  import opened SortedListing

  datatype Page = Page(items: seq<int>, nextCursor: Option<int>)

  /** Task history, the time entries of a task, and the entries of a time report. */
  datatype Pager = History | TimeEntries | TimeReport

  function Clamped(limit: int, high: nat): nat
    requires high > 0
  {
    if limit < 1 then 1 else if limit > high then high else limit
  }

  /** An absent limit has a default; for the time entries of a task so has 0. */
  function PageSize(pager: Pager, limit: Option<int>): nat {
    match pager
    case History => if limit.None? then 50 else Clamped(limit.value, 100)
    case TimeEntries => if limit.None? || limit.value == 0 then 50 else Clamped(limit.value, 100)
    case TimeReport => if limit.None? then 500 else Clamped(limit.value, 500)
  }

  /** A limit in range is granted, others are moved to the nearer end, and absent ones get the default. */
  lemma PageSizeIsClamped(pager: Pager, limit: Option<int>)
    ensures var high := if pager.TimeReport? then 500 else 100;
      && 1 <= PageSize(pager, limit) <= high
      && (limit.Some? && 1 <= limit.value <= high ==> PageSize(pager, limit) == limit.value)
      && (limit.Some? && limit.value > high ==> PageSize(pager, limit) == high)
      && (limit.Some? && limit.value < 1 && !(pager.TimeEntries? && limit.value == 0) ==> PageSize(pager, limit) == 1)
      && (limit.None? || (pager.TimeEntries? && limit.value == 0) ==>
            PageSize(pager, limit) == if pager.TimeReport? then 500 else 50)
  {}

  /** Ids past the cursor: smaller ones going back, larger ones going forward. */
  predicate Past(backwards: bool, cursor: Option<int>, id: int) {
    cursor.None? || (if backwards then id < cursor.value else id > cursor.value)
  }

  /** Going back lists the largest id first, going forward the smallest. */
  function Keys(matching: set<int>, backwards: bool, cursor: Option<int>): map<int, Key> {
    map id | id in matching && Past(backwards, cursor, id) :: Key(if backwards then -id else id, 0)
  }

  function Listing(matching: set<int>, backwards: bool, cursor: Option<int>): seq<int> {
    Sorted(Keys(matching, backwards, cursor))
  }

  function Take(s: seq<int>, n: nat): seq<int> {
    if |s| <= n then s else s[..n]
  }

  /** One request: a query limited to `size + 1` records, cut to `size`. */
  function Ask(matching: set<int>, backwards: bool, cursor: Option<int>, size: nat): Page {
    var records := Take(Listing(matching, backwards, cursor), size + 1);
    var items := Take(records, size);
    Page(items, if |records| > size && items != [] then Some(items[|items| - 1]) else None)
  }

  /**
   Follows the cursor from page to page. `states` are the matching records each request
   finds, one state per request.
   */
  function Follow(states: seq<set<int>>, backwards: bool, cursor: Option<int>, size: nat): seq<int>
    decreases |states|
  {
    if states == [] then []
    else
      var page := Ask(states[0], backwards, cursor, size);
      page.items + (if page.nextCursor.None? then [] else Follow(states[1..], backwards, page.nextCursor, size))
  }

  /** Later states only add records, and only with ids larger than all of `first`. */
  ghost predicate Grows(first: set<int>, later: set<int>) {
    && first <= later
    && forall x, y :: x in later && x !in first && y in first ==> y < x
  }

  /** A listing runs strictly down the ids going back, strictly up going forward. */
  lemma ListingDistinct(matching: set<int>, backwards: bool, cursor: Option<int>)
    ensures var d := Listing(matching, backwards, cursor);
      && (forall x :: x in d <==> x in matching && Past(backwards, cursor, x))
      && forall i, j :: 0 <= i < j < |d| ==> (if backwards then d[i] > d[j] else d[i] < d[j])
  {
    var keys := Keys(matching, backwards, cursor);
    SortedLists(keys);
    var d := Listing(matching, backwards, cursor);
    forall i, j | 0 <= i < j < |d| ensures if backwards then d[i] > d[j] else d[i] < d[j] {
      assert Before(keys, d[i], d[j]);
    }
  }

  /** What a request past the k-th record lists is the rest of the list. */
  lemma RestOfListing(matching: set<int>, backwards: bool, cursor: Option<int>, k: nat)
    requires 0 < k <= |Listing(matching, backwards, cursor)|
    ensures var d := Listing(matching, backwards, cursor);
      d[k - 1] in matching && Listing(matching, backwards, Some(d[k - 1])) == d[k..]
  {
    var keys := Keys(matching, backwards, cursor);
    CutIsAfter(keys, k);
    var c := Sorted(keys)[k - 1];
    var rest := Keys(matching, backwards, Some(c));
    assert forall x :: x in rest <==> x in ListedAfter(keys, c);
    assert forall x :: x in rest ==> rest[x] == ListedAfter(keys, c)[x];
    assert rest == ListedAfter(keys, c);
  }

  /** Records added later are invisible behind a cursor. */
  lemma GrowthIsInvisible(first: set<int>, later: set<int>, cursor: int)
    requires Grows(first, later) && cursor in first
    ensures Listing(first, true, Some(cursor)) == Listing(later, true, Some(cursor))
  {
    assert Keys(first, true, Some(cursor)) == Keys(later, true, Some(cursor)) by {
      var a, b := Keys(first, true, Some(cursor)), Keys(later, true, Some(cursor));
      assert forall x :: x in a <==> x in b;
      assert forall x :: x in a ==> a[x] == b[x];
    }
  }

  lemma AskSplits(matching: set<int>, backwards: bool, cursor: Option<int>, size: nat)
    requires size > 0
    ensures var d := Listing(matching, backwards, cursor);
      var page := Ask(matching, backwards, cursor, size);
      if |d| <= size then page.items == d && page.nextCursor.None?
      else page.items == d[..size] && page.nextCursor == Some(d[size - 1])
  {}

  /** One request going back: all that is left, or a full page and a cursor to the rest. */
  lemma BackwardAnswer(first: set<int>, now: set<int>, cursor: Option<int>, size: nat)
    requires size > 0 && Grows(first, now)
    requires if cursor.None? then now == first else cursor.value in first
    ensures var d := Listing(first, true, cursor);
      var page := Ask(now, true, cursor, size);
      if page.nextCursor.None? then page.items == d
      else && page.nextCursor.value in first
           && d == page.items + Listing(first, true, page.nextCursor)
           && |Listing(first, true, page.nextCursor)| < |d|
  {
    if cursor.Some? { GrowthIsInvisible(first, now, cursor.value); }
    var d := Listing(first, true, cursor);
    AskSplits(now, true, cursor, size);
    if |d| > size {
      RestOfListing(first, true, cursor, size);
      assert d == d[..size] + d[size..];
    }
  }

  lemma {:induction false} BackwardFollows(states: seq<set<int>>, first: set<int>, cursor: Option<int>, size: nat)
    requires size > 0 && |states| > |Listing(first, true, cursor)|
    requires forall s :: s in states ==> Grows(first, s)
    requires if cursor.None? then states[0] == first else cursor.value in first
    ensures Follow(states, true, cursor, size) == Listing(first, true, cursor)
    decreases |states|
  {
    BackwardAnswer(first, states[0], cursor, size);
    var next := Ask(states[0], true, cursor, size).nextCursor;
    if next.Some? { BackwardFollows(states[1..], first, next, size); }
  }

  /** `list` holds the matching records past the cursor, each once, from the largest id down. */
  ghost predicate ListsDown(list: seq<int>, matching: set<int>, cursor: Option<int>) {
    && (forall x :: x in list <==> x in matching && Past(true, cursor, x))
    && (forall i, j :: 0 <= i < j < |list| ==> list[i] > list[j])
  }

  /** `list` holds the matching records past the cursor, each once, from the smallest id up. */
  ghost predicate ListsUp(list: seq<int>, matching: set<int>, cursor: Option<int>) {
    && (forall x :: x in list <==> x in matching && Past(false, cursor, x))
    && (forall i, j :: 0 <= i < j < |list| ==> list[i] < list[j])
  }

  /**
   Going back: however many records are added between the requests, following the cursor
   ends after at most one request per record, and the pages together are exactly the records
   present at the first request, each once, from the largest id down.
   */
  lemma BackwardPages(states: seq<set<int>>, first: set<int>, cursor: Option<int>, size: nat)
    requires size > 0 && |states| > |Listing(first, true, cursor)|
    requires forall s :: s in states ==> Grows(first, s)
    requires if cursor.None? then states[0] == first else cursor.value in first
    ensures Follow(states, true, cursor, size) == Listing(first, true, cursor)
    ensures ListsDown(Follow(states, true, cursor, size), first, cursor)
  {
    BackwardFollows(states, first, cursor, size);
    ListingDistinct(first, true, cursor);
  }

  /** Task history and time entries, for any requested page size. */
  lemma HistoryPages(states: seq<set<int>>, pager: Pager, limit: Option<int>)
    requires states != [] && |states| > |Listing(states[0], true, None)|
    requires forall s :: s in states ==> Grows(states[0], s)
    ensures ListsDown(Follow(states, true, None, PageSize(pager, limit)), states[0], None)
  {
    PageSizeIsClamped(pager, limit);
    BackwardPages(states, states[0], None, PageSize(pager, limit));
  }

  // ---------------------------------------------------------------- any change in between

  /** What lies past the cursor. */
  function Ahead(all: set<int>, backwards: bool, cursor: Option<int>): set<int> {
    set x | x in all && Past(backwards, cursor, x)
  }

  /**
   The request that passes over an id: the first whose page ends at the id or beyond it, or that
   has no next page.
   */
  function AskedAt(states: seq<set<int>>, backwards: bool, cursor: Option<int>, size: nat, x: int): nat
    decreases |states|
  {
    if states == [] then 0
    else
      var next := Ask(states[0], backwards, cursor, size).nextCursor;
      if next.None? || !Past(backwards, next, x) then 0
      else 1 + AskedAt(states[1..], backwards, next, size, x)
  }

  ghost predicate RunsOneWay(list: seq<int>, backwards: bool) {
    forall i, j :: 0 <= i < j < |list| ==> if backwards then list[i] > list[j] else list[i] < list[j]
  }

  /** A page holds the records between its cursor and the next, each once. */
  lemma PageHolds(matching: set<int>, backwards: bool, cursor: Option<int>, size: nat)
    requires size > 0
    ensures var page := Ask(matching, backwards, cursor, size);
      && RunsOneWay(page.items, backwards)
      && (forall x :: x in page.items <==>
            && x in matching && Past(backwards, cursor, x)
            && (page.nextCursor.None? || !Past(backwards, page.nextCursor, x)))
      && (page.nextCursor.Some? ==>
            page.nextCursor.value in matching && Past(backwards, cursor, page.nextCursor.value))
  {
    var d := Listing(matching, backwards, cursor);
    var page := Ask(matching, backwards, cursor, size);
    ListingDistinct(matching, backwards, cursor);
    AskSplits(matching, backwards, cursor, size);
    if |d| > size {
      var c := d[size - 1];
      assert c in d;
      forall x ensures x in d[..size] <==> x in d && !Past(backwards, Some(c), x) {
        if x in d {
          var i :| 0 <= i < |d| && d[i] == x;
          if i < size { assert d[..size][i] == x; }
        }
      }
    }
  }

  lemma FewerAhead(all: set<int>, backwards: bool, cursor: Option<int>, next: int)
    requires next in all && Past(backwards, cursor, next)
    ensures |Ahead(all, backwards, Some(next))| < |Ahead(all, backwards, cursor)|
  {
    var now, rest := Ahead(all, backwards, cursor), Ahead(all, backwards, Some(next));
    assert now == rest + (now - rest) && next in now - rest;
    assert |now| == |rest| + |now - rest|;
  }

  /** Pages that follow a page run on from it. */
  lemma RunOn(items: seq<int>, rest: seq<int>, backwards: bool, next: int)
    requires RunsOneWay(items, backwards) && RunsOneWay(rest, backwards)
    requires forall x :: x in items ==> !Past(backwards, Some(next), x)
    requires forall x :: x in rest ==> Past(backwards, Some(next), x)
    ensures RunsOneWay(items + rest, backwards)
  {
    var list := items + rest;
    forall i, j | 0 <= i < j < |list| ensures if backwards then list[i] > list[j] else list[i] < list[j] {
      if i < |items| <= j {
        assert items[i] in items && rest[j - |items|] in rest;
      }
    }
  }

  /** One id, in the first page or past it. */
  lemma OneWindow(states: seq<set<int>>, backwards: bool, cursor: Option<int>, size: nat, tail: seq<int>, x: int)
    requires size > 0 && states != [] && Ask(states[0], backwards, cursor, size).nextCursor.Some?
    requires var next := Ask(states[0], backwards, cursor, size).nextCursor;
      var k := AskedAt(states[1..], backwards, next, size, x);
      k < |states| - 1 && (x in tail <==> Past(backwards, next, x) && x in states[k + 1])
    ensures AskedAt(states, backwards, cursor, size, x) < |states|
    ensures x in Ask(states[0], backwards, cursor, size).items + tail <==>
      Past(backwards, cursor, x) && x in states[AskedAt(states, backwards, cursor, size, x)]
  {
    PageHolds(states[0], backwards, cursor, size);
    var items := Ask(states[0], backwards, cursor, size).items;
    assert x in items + tail <==> x in items || x in tail;
  }

  /**
   Whatever is added or taken away between the requests: following the cursor ends after at most
   one request per record, lists no record twice, and lists a record exactly if it is there at the
   one request that passes over its id.
   */
  lemma {:induction false} PagesAreWindows(states: seq<set<int>>, all: set<int>, backwards: bool,
                                           cursor: Option<int>, size: nat)
    requires size > 0 && (forall s :: s in states ==> s <= all)
    requires |states| > |Ahead(all, backwards, cursor)|
    ensures forall x :: AskedAt(states, backwards, cursor, size, x) < |states|
    ensures var pages := Follow(states, backwards, cursor, size);
      && RunsOneWay(pages, backwards)
      && forall x :: x in pages <==>
           Past(backwards, cursor, x) && x in states[AskedAt(states, backwards, cursor, size, x)]
    decreases |states|
  {
    var page := Ask(states[0], backwards, cursor, size);
    PageHolds(states[0], backwards, cursor, size);
    if page.nextCursor.Some? {
      var next, rest := page.nextCursor, states[1..];
      assert states[0] in states;
      FewerAhead(all, backwards, cursor, next.value);
      PagesAreWindows(rest, all, backwards, next, size);
      var tail := Follow(rest, backwards, next, size);
      RunOn(page.items, tail, backwards, next.value);
      forall x
        ensures AskedAt(states, backwards, cursor, size, x) < |states|
        ensures x in page.items + tail <==>
          Past(backwards, cursor, x) && x in states[AskedAt(states, backwards, cursor, size, x)]
      {
        OneWindow(states, backwards, cursor, size, tail, x);
      }
    }
  }

  /** A record that is there throughout is listed, once, in either direction. */
  lemma WhatStaysIsListed(states: seq<set<int>>, all: set<int>, backwards: bool,
                          cursor: Option<int>, size: nat, x: int)
    requires size > 0 && (forall s :: s in states ==> s <= all)
    requires |states| > |Ahead(all, backwards, cursor)|
    requires (forall s :: s in states ==> x in s) && Past(backwards, cursor, x)
    ensures x in Follow(states, backwards, cursor, size)
  {
    PagesAreWindows(states, all, backwards, cursor, size);
    var s := states[AskedAt(states, backwards, cursor, size, x)];
    assert s in states;
  }

  // ---------------------------------------------------------------- going forward

  /** Each state adds to all states before it. */
  ghost predicate KeepsGrowing(states: seq<set<int>>) {
    forall i, j :: 0 <= i <= j < |states| ==> Grows(states[i], states[j])
  }

  /** The index of the last request: the one whose page has no next cursor. */
  function LastRequest(states: seq<set<int>>, cursor: Option<int>, size: nat): nat
    decreases |states|
  {
    if states == [] then 0
    else
      var page := Ask(states[0], false, cursor, size);
      if page.nextCursor.None? then 0 else 1 + LastRequest(states[1..], page.nextCursor, size)
  }

  lemma AscendingListing(list: seq<int>, matching: set<int>, cursor: Option<int>)
    requires ListsUp(list, matching, cursor)
    ensures Listing(matching, false, cursor) == list
  {
    var keys := Keys(matching, false, cursor);
    forall i | 0 <= i < |list| ensures list[i] in keys {
      var x := list[i];
      assert x in list;
    }
    SortedIs(list, keys);
  }

  /** A grown log lists what it listed, and then the new records. */
  lemma GrowthIsAppended(first: set<int>, later: set<int>, cursor: Option<int>)
    requires Grows(first, later)
    ensures Listing(first, false, cursor) <= Listing(later, false, cursor)
  {
    var d, e := Listing(first, false, cursor), Listing(later - first, false, cursor);
    ListingDistinct(first, false, cursor);
    ListingDistinct(later - first, false, cursor);
    forall x ensures x in d + e <==> x in later && Past(false, cursor, x) {
      assert x in d + e <==> x in d || x in e;
    }
    forall i, j | 0 <= i < |d| && 0 <= j < |e| ensures d[i] < e[j] {
      var x, y := d[i], e[j];
      assert x in d && y in e;
    }
    AscendingListing(d + e, later, cursor);
  }

  /** A full page is the start of every later listing, and the cursor gives the rest of it. */
  lemma ForwardAnswer(now: set<int>, later: set<int>, cursor: Option<int>, size: nat)
    requires size > 0 && Grows(now, later) && |Listing(now, false, cursor)| > size
    ensures var page := Ask(now, false, cursor, size);
      && |page.items| == size && page.nextCursor.Some?
      && Listing(later, false, cursor) == page.items + Listing(later, false, page.nextCursor)
  {
    AskSplits(now, false, cursor, size);
    GrowthIsAppended(now, later, cursor);
    var e := Listing(later, false, cursor);
    RestOfListing(later, false, cursor, size);
    assert e == e[..size] + e[size..];
  }

  /** There is a last request, as soon as there are more requests than records. */
  lemma {:induction false} ForwardFollows(states: seq<set<int>>, cursor: Option<int>, size: nat)
    requires size > 0 && KeepsGrowing(states)
    requires states != [] && |states| > |Listing(states[|states| - 1], false, cursor)|
    ensures var k := LastRequest(states, cursor, size);
      k < |states| && Follow(states, false, cursor, size) == Listing(states[k], false, cursor)
    decreases |states|
  {
    var now, last := states[0], states[|states| - 1];
    AskSplits(now, false, cursor, size);
    if |Listing(now, false, cursor)| > size {
      ForwardAnswer(now, last, cursor, size);
      var rest, next := states[1..], Ask(now, false, cursor, size).nextCursor;
      ForwardFollows(rest, next, size);
      ForwardAnswer(now, rest[LastRequest(rest, next, size)], cursor, size);
    }
  }

  /** What a listing of the records seen leaves out of a larger set. */
  lemma ListedUpTo(list: seq<int>, seen: set<int>, later: set<int>, cursor: Option<int>)
    requires ListsUp(list, seen, cursor) && seen <= later
    ensures forall x :: x in later && Past(false, cursor, x) ==> (x !in list <==> x !in seen)
    ensures ListsUp(list, later, cursor) <==> forall x :: x in later && Past(false, cursor, x) ==> x in seen
  {}

  /**
   Going forward over a log to which records are only added: a record that is there in the end
   is missed if and only if it was added after the request that passed over its id.
   */
  lemma ForwardPages(states: seq<set<int>>, all: set<int>, cursor: Option<int>, size: nat, x: int)
    requires size > 0 && (forall i, j :: 0 <= i <= j < |states| ==> states[i] <= states[j])
    requires |states| > |Ahead(all, false, cursor)| && states[|states| - 1] <= all
    requires x in states[|states| - 1] && Past(false, cursor, x)
    ensures var k := AskedAt(states, false, cursor, size, x);
      && k < |states|
      && (x !in Follow(states, false, cursor, size) <==>
            exists added :: k < added < |states| && x in states[added] && x !in states[added - 1])
  {
    forall s | s in states ensures s <= all {
      var i :| 0 <= i < |states| && states[i] == s;
      assert states[i] <= states[|states| - 1];
    }
    PagesAreWindows(states, all, false, cursor, size);
    var k := AskedAt(states, false, cursor, size, x);
    if x !in states[k] { AddedBetween(states, k, |states| - 1, x); }
  }

  /** A record that was not there and then is was added in between. */
  lemma {:induction false} AddedBetween(states: seq<set<int>>, k: nat, n: nat, x: int)
    requires k <= n < |states| && x !in states[k] && x in states[n]
    ensures exists added :: k < added <= n && x in states[added] && x !in states[added - 1]
    decreases n
  {
    if x in states[n - 1] {
      AddedBetween(states, k, n - 1, x);
      var added :| k < added <= n - 1 && x in states[added] && x !in states[added - 1];
    }
  }

  /**
   Going forward over a log that grows in the order of the ids: following the cursor ends, and
   the pages together are exactly the records present at the last request, ascending. So they
   list a later state in full if and only if no record was added to it after that request.
   */
  lemma ForwardPagesInOrder(states: seq<set<int>>, cursor: Option<int>, size: nat, later: set<int>)
    requires size > 0 && KeepsGrowing(states)
    requires states != [] && |states| > |Listing(states[|states| - 1], false, cursor)|
    requires forall s :: s in states ==> s <= later
    ensures var k := LastRequest(states, cursor, size);
      var pages := Follow(states, false, cursor, size);
      && k < |states|
      && ListsUp(pages, states[k], cursor)
      && (forall x :: x in later && Past(false, cursor, x) ==> (x !in pages <==> x !in states[k]))
      && (ListsUp(pages, later, cursor) <==> forall x :: x in later && Past(false, cursor, x) ==> x in states[k])
  {
    ForwardFollows(states, cursor, size);
    var k := LastRequest(states, cursor, size);
    ListingDistinct(states[k], false, cursor);
    assert states[k] in states;
    ListedUpTo(Follow(states, false, cursor, size), states[k], later, cursor);
  }

  /** With one record read in full and another added afterwards, the pages miss the second. */
  lemma ForwardPagesMissLater()
    ensures KeepsGrowing([{1}, {1, 2}])
    ensures LastRequest([{1}, {1, 2}], None, 1) == 0
    ensures Follow([{1}, {1, 2}], false, None, 1) == [1]
    ensures !ListsUp(Follow([{1}, {1, 2}], false, None, 1), {1, 2}, None)
  {
    var keys := Keys({1}, false, None);
    assert Lists([1], keys);
    SortedIs([1], keys);
  }

  /** What the first page passes over without listing it is never listed. */
  lemma PassedOver(states: seq<set<int>>, all: set<int>, backwards: bool, cursor: Option<int>, size: nat, x: int)
    requires size > 0 && (forall s :: s in states ==> s <= all)
    requires |states| > |Ahead(all, backwards, cursor)| && x !in states[0]
    requires var next := Ask(states[0], backwards, cursor, size).nextCursor;
      next.Some? && !Past(backwards, next, x)
    ensures x !in Follow(states, backwards, cursor, size)
  {
    PagesAreWindows(states, all, backwards, cursor, size);
  }

  lemma PageOfTwo()
    ensures Ask({2, 3}, false, None, 1).nextCursor == Some(2)
    ensures |Ahead({1, 2, 3}, false, None)| == 3
  {
    AscendingListing([2, 3], {2, 3}, None);
    AskSplits({2, 3}, false, None, 1);
    assert Ahead({1, 2, 3}, false, None) == {1, 2, 3};
  }

  /** A record whose id is drawn early and committed late is missed although pages follow. */
  lemma LateCommitIsMissed()
    ensures 1 in {1, 2, 3} && 1 !in Follow([{2, 3}, {1, 2, 3}, {1, 2, 3}, {1, 2, 3}], false, None, 1)
  {
    PageOfTwo();
    PassedOver([{2, 3}, {1, 2, 3}, {1, 2, 3}, {1, 2, 3}], {1, 2, 3}, false, None, 1, 1);
  }
}
