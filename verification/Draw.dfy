/**
 The weighted draw of core/lb.c: a binary search of a random number among the
 accumulated weights of a slot, and how often it can hit each item.
 */
module Draw {
  import opened Basics

  /** Strictly increasing. */
  ghost predicate Increasing(acc: seq<nat>) {
    forall i, j :: 0 <= i < j < |acc| ==> acc[i] < acc[j]
  }

  /** _search_closest_weight */
  function SearchClosestWeight(acc: seq<nat>, needle: nat, start: nat, end: nat): (i: nat)
    requires start < |acc| && end < |acc|
    ensures i < |acc|
    decreases end - start
  {
    if start >= end then end
    else
      var pivot := Middle(start, end);
      if acc[pivot] == needle then pivot
      else if acc[pivot] > needle then SearchClosestWeight(acc, needle, start, pivot)
      else SearchClosestWeight(acc, needle, pivot + 1, end)
  }

  function Draw(acc: seq<nat>, needle: nat): (i: nat)
    requires acc != []
    ensures i < |acc|
  {
    SearchClosestWeight(acc, needle, 0, |acc| - 1)
  }

  lemma {:induction false} SearchIsLeast(acc: seq<nat>, needle: nat, start: nat, end: nat)
    requires Increasing(acc) && start <= end < |acc|
    requires acc[end] >= needle && (start > 0 ==> acc[start - 1] < needle)
    ensures
      var i := SearchClosestWeight(acc, needle, start, end);
      start <= i <= end && acc[i] >= needle && (i > 0 ==> acc[i - 1] < needle)
    decreases end - start
  {
    hide Middle;
    if start < end {
      var pivot := Middle(start, end);
      if acc[pivot] > needle {
        SearchIsLeast(acc, needle, start, pivot);
      } else if acc[pivot] < needle {
        SearchIsLeast(acc, needle, pivot + 1, end);
      }
    }
  }

  /** The draw returns the least index whose accumulated weight reaches the number. */
  lemma DrawIsLeast(acc: seq<nat>, needle: nat)
    requires Increasing(acc) && acc != [] && needle <= acc[|acc| - 1]
    ensures
      var i := Draw(acc, needle);
      acc[i] >= needle && forall j :: 0 <= j < i ==> acc[j] < needle
  {
    SearchIsLeast(acc, needle, 0, |acc| - 1);
  }

  // ---- How often each item is hit -----------------------------------------------------

  ghost function Interval(lo: int, hi: int): (s: set<int>)
    ensures |s| == (if hi <= lo then 0 else hi - lo) && forall x :: x in s <==> lo <= x < hi
    decreases hi - lo
  {
    if hi <= lo then {} else Interval(lo, hi - 1) + {hi - 1}
  }

  function Weight(acc: seq<nat>, i: nat): int
    requires i < |acc|
  {
    (acc[i] as int) - (if i == 0 then 0 else acc[i - 1])
  }

  /** The numbers in [0, sum) for which the draw returns `i`. */
  ghost function Hits(acc: seq<nat>, i: nat): set<int>
    requires acc != []
  {
    set x | 0 <= x < acc[|acc| - 1] && Draw(acc, x) == i
  }

  /** The first number that hits `i`. */
  function First(acc: seq<nat>, i: nat): int
    requires i <= |acc|
  {
    if i == 0 then 0 else if i == |acc| then acc[i - 1] else acc[i - 1] + 1
  }

  /** The numbers that hit `i` are those from First(i) up to First(i + 1). */
  lemma DrawIsBetween(acc: seq<nat>, i: nat, needle: nat)
    requires Increasing(acc) && i < |acc| && needle < acc[|acc| - 1]
    ensures Draw(acc, needle) == i <==> First(acc, i) <= needle < First(acc, i + 1)
  {
    hide SearchClosestWeight, Draw;
    DrawIsLeast(acc, needle);
    var j := Draw(acc, needle);
    assert j < i ==> acc[j] <= acc[i - 1];
  }

  /** Each item is hit as often as its weight, but for the first one, once more,
      and the last one, once less. */
  lemma HitsAreWeights(acc: seq<nat>, i: nat)
    requires Increasing(acc) && i < |acc| && acc[0] > 0
    ensures |Hits(acc, i)| == Weight(acc, i) + (if i == 0 then 1 else 0) - (if i == |acc| - 1 then 1 else 0)
  {
    hide Draw, SearchClosestWeight;
    forall x | 0 <= x < acc[|acc| - 1]
      ensures Draw(acc, x) == i <==> First(acc, i) <= x < First(acc, i + 1)
    {
      DrawIsBetween(acc, i, x);
    }
    assert i > 0 ==> acc[i - 1] < acc[i];
    assert First(acc, i + 1) <= acc[|acc| - 1];
    assert Hits(acc, i) == Interval(First(acc, i), First(acc, i + 1));
  }

  ghost function HitsUpTo(acc: seq<nat>, n: nat): nat
    requires n <= |acc| && acc != []
  {
    if n == 0 then 0 else HitsUpTo(acc, n - 1) + |Hits(acc, n - 1)|
  }

  /** Every number hits exactly one item: the hits total the sum of the weights. */
  lemma HitsTotal(acc: seq<nat>)
    requires Increasing(acc) && acc != [] && acc[0] > 0
    ensures HitsUpTo(acc, |acc|) == acc[|acc| - 1]
  {
    HitsPartial(acc, |acc|);
  }

  lemma {:induction false} HitsPartial(acc: seq<nat>, n: nat)
    requires Increasing(acc) && 0 < n <= |acc| && acc[0] > 0
    ensures HitsUpTo(acc, n) == acc[n - 1] + (if n == |acc| then 0 else 1)
  {
    if n > 1 { HitsPartial(acc, n - 1); }
    HitsAreWeights(acc, n - 1);
    assert n == 1 ==> HitsUpTo(acc, 0) == 0;
  }
}
