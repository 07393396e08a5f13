/**
 Numbers given out above everything in use.

 A selection of rows carries each row's number as its sort value; the first number of a new
 range lies above a stored counter and above all of them.
 */
module Numbering {
  import opened SortedListing

  /** The highest number of a selection; 0 when it is empty. */
  function Highest(keys: map<int, Key>): int {
    var list := Sorted(keys);
    SortedLists(keys);
    if list == [] then 0 else keys[list[|list| - 1]].major
  }

  lemma HighestBounds(keys: map<int, Key>, x: int)
    requires x in keys
    ensures keys[x].major <= Highest(keys)
  {
    var list := Sorted(keys);
    SortedLists(keys);
    assert x in list;
    var last := list[|list| - 1];
    assert x == last || Before(keys, x, last);
  }

  lemma HighestIsAttained(keys: map<int, Key>)
    ensures if keys == map[] then Highest(keys) == 0
            else exists x :: x in keys && keys[x].major == Highest(keys)
  {
    SortedLists(keys);
    EmptyListing(Sorted(keys), keys);
    if keys != map[] {
      var last := Sorted(keys)[|Sorted(keys)| - 1];
      assert last in keys;
    }
  }

  /** A project without a stored counter has given out no number. */
  function Counter(counters: map<int, int>, project: int): int {
    if project in counters then counters[project] else 0
  }

  function FirstAbove(counter: int, highest: int): int {
    (if counter > highest then counter else highest) + 1
  }
}
