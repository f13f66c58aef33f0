/**
 The slots of the load balancer (core/lb.c): arrays of entries that point at the items
 of the world, sorted by location, with accumulated weights and per-level counters.
 This module says, on values, what each operation makes of a slot.
 */
module Slots {
  import opened Basics
  import opened Location
  import opened Counters
  import Walk

  type Id(==, !new)
  type Name(==, !new)
  type Weight = w: int | 0 <= w < 256

  /** The generations and the counts of references are unsigned, of 32 and 16 bits. */
  type Generation = g: int | 0 <= g < 0x1_0000_0000
  type RefCount = c: int | 0 <= c < 0x1_0000
  const REFS: nat := 0x1_0000

  /** An item, shared by all the entries that carry its id. */
  datatype Item = Item(location: Loc, putWeight: Weight, refcount: RefCount)
  type Items = map<Id, Item>

  datatype Entry = Entry(id: Id, acc: nat, generation: Generation)

  datatype Slot = Slot(name: Name, items: seq<Entry>, zero: seq<Entry>, sumWeight: nat,
                       byLoc: Counts, locsByLevel: map<Level, nat>, generation: Generation,
                       dirtyWeights: bool, dirtyOrder: bool, zeroDirty: bool,
                       rehashOnUpdate: bool, jump: nat)

  function LocOf(items: Items, id: Id): Loc { if id in items then items[id].location else 0 }

  function WeightOf(items: Items, id: Id): Weight { if id in items then items[id].putWeight else 0 }

  function Locs(items: Items, s: seq<Entry>): seq<Loc> { seq(|s|, i requires 0 <= i < |s| => LocOf(items, s[i].id)) }

  /** An empty slot, as _world_create_slot makes it. */
  function NewSlot(name: Name): Slot {
    Slot(name, [], [], 0, map[], Lengths(map[]), 0, false, false, false, false, SHUFFLE_JUMP)
  }

  /** The accumulated weights of a slot. */
  function Accs(s: Slot): seq<nat> { seq(|s.items|, i requires 0 <= i < |s.items| => s.items[i].acc) }

  // ---- Counting entries ---------------------------------------------------------------

  /** How many entries meet a test. */
  ghost function Hits(s: seq<Entry>, f: Entry -> bool): nat {
    if s == [] then 0 else Hits(s[..|s| - 1], f) + (if f(s[|s| - 1]) then 1 else 0)
  }

  lemma HitsAppend(s: seq<Entry>, e: Entry, f: Entry -> bool)
    ensures Hits(s + [e], f) == Hits(s, f) + (if f(e) then 1 else 0)
  {
    assert (s + [e])[..|s|] == s;
  }

  lemma {:induction false} HitsConcat(s: seq<Entry>, t: seq<Entry>, f: Entry -> bool)
    ensures Hits(s + t, f) == Hits(s, f) + Hits(t, f)
  {
    if t == [] {
      assert s + t == s;
    } else {
      var n := |t| - 1;
      assert (s + t)[..|s + t| - 1] == s + t[..n];
      HitsConcat(s, t[..n], f);
    }
  }

  lemma {:induction false} HitsUpdate(s: seq<Entry>, i: nat, e: Entry, f: Entry -> bool)
    requires i < |s|
    ensures Hits(s[i := e], f) == Hits(s, f) - (if f(s[i]) then 1 else 0) + (if f(e) then 1 else 0)
  {
    var n := |s| - 1;
    if i == n {
      assert s[i := e][..n] == s[..n];
    } else {
      assert s[i := e][..n] == s[..n][i := e];
      HitsUpdate(s[..n], i, e, f);
    }
  }

  lemma {:induction false} HitsNone(s: seq<Entry>, f: Entry -> bool)
    ensures Hits(s, f) == 0 <==> forall i :: 0 <= i < |s| ==> !f(s[i])
  {
    if s != [] { HitsNone(s[..|s| - 1], f); }
  }

  /** Two lists that answer a test alike, entry by entry. */
  lemma {:induction false} HitsAlike(s: seq<Entry>, t: seq<Entry>, f: Entry -> bool)
    requires |s| == |t| && forall i :: 0 <= i < |s| ==> f(s[i]) == f(t[i])
    ensures Hits(s, f) == Hits(t, f)
  {
    if s != [] { HitsAlike(s[..|s| - 1], t[..|t| - 1], f); }
  }

  ghost function OfId(id: Id): Entry -> bool { (e: Entry) => e.id == id }

  ghost function Fed(id: Id, generation: Generation): Entry -> bool {
    (e: Entry) => e.id == id && e.generation == generation
  }

  /** How many entries of a slot point at an item. */
  ghost function Refs(s: Slot, id: Id): nat { Total(s, OfId(id)) }

  ghost function Total(s: Slot, f: Entry -> bool): nat { Hits(s.items, f) + Hits(s.zero, f) }

  /** g_array_remove_index_fast: the last entry takes the place of the removed one. */
  function RemoveFast(s: seq<Entry>, i: nat): seq<Entry>
    requires i < |s|
  {
    var n := |s| - 1;
    if i == n then s[..n] else s[..n][i := s[n]]
  }

  lemma HitsRemoveFast(s: seq<Entry>, i: nat, f: Entry -> bool)
    requires i < |s|
    ensures Hits(RemoveFast(s, i), f) == Hits(s, f) - (if f(s[i]) then 1 else 0)
  {
    var n := |s| - 1;
    if i < n { HitsUpdate(s[..n], i, s[n], f); }
  }

  // ---- Order by location ---------------------------------------------------------------

  ghost predicate Ascending(locs: seq<Loc>) { forall i, j :: 0 <= i < j < |locs| ==> locs[i] <= locs[j] }

  ghost predicate Sorted(items: Items, s: seq<Entry>) { Ascending(Locs(items, s)) }

  function InsertSorted(items: Items, s: seq<Entry>, e: Entry): seq<Entry> {
    if s == [] || LocOf(items, e.id) >= LocOf(items, s[|s| - 1].id) then s + [e]
    else InsertSorted(items, s[..|s| - 1], e) + [s[|s| - 1]]
  }

  /** g_array_sort by location, which is stable. */
  function SortByLocation(items: Items, s: seq<Entry>): seq<Entry> {
    if s == [] then [] else InsertSorted(items, SortByLocation(items, s[..|s| - 1]), s[|s| - 1])
  }

  lemma {:induction false} InsertSortedIs(items: Items, s: seq<Entry>, e: Entry)
    requires Sorted(items, s)
    ensures
      var r := InsertSorted(items, s, e);
      && Sorted(items, r) && |r| == |s| + 1
      && (r[|s|] == e || (s != [] && r[|s|] == s[|s| - 1]))
      && forall f :: Hits(r, f) == Hits(s, f) + (if f(e) then 1 else 0)
  {
    var n := |s| - 1;
    if s == [] || LocOf(items, e.id) >= LocOf(items, s[n].id) {
      forall f ensures Hits(s + [e], f) == Hits(s, f) + (if f(e) then 1 else 0) { HitsAppend(s, e, f); }
      assert Locs(items, s + [e]) == Locs(items, s) + [LocOf(items, e.id)];
      LastBounds(Locs(items, s), LocOf(items, e.id));
    } else {
      var t := s[..n];
      assert Locs(items, t) == Locs(items, s)[..n];
      InsertSortedIs(items, t, e);
      var r := InsertSorted(items, t, e);
      forall f ensures Hits(r + [s[n]], f) == Hits(s, f) + (if f(e) then 1 else 0) { HitsAppend(r, s[n], f); }
      assert Locs(items, r + [s[n]]) == Locs(items, r) + [LocOf(items, s[n].id)];
      assert n > 0 ==> Locs(items, s)[n - 1] <= Locs(items, s)[n];
      LastBounds(Locs(items, r), LocOf(items, s[n].id));
    }
  }

  lemma LastBounds(locs: seq<Loc>, x: Loc)
    requires Ascending(locs) && (locs != [] ==> locs[|locs| - 1] <= x)
    ensures Ascending(locs + [x])
  {
  }

  lemma {:induction false} SortIs(items: Items, s: seq<Entry>)
    ensures
      var r := SortByLocation(items, s);
      Sorted(items, r) && |r| == |s| && forall f :: Hits(r, f) == Hits(s, f)
  {
    if s != [] {
      SortIs(items, s[..|s| - 1]);
      InsertSortedIs(items, SortByLocation(items, s[..|s| - 1]), s[|s| - 1]);
    }
  }

  // ---- Search by location ----------------------------------------------------------------

  /** _slide_to_first_at_location */
  function Slide(locs: seq<Loc>, needle: Loc, i: nat): (r: nat)
    requires i < |locs|
    ensures r <= i
  {
    if i > 0 && locs[i - 1] == needle then Slide(locs, needle, i - 1) else i
  }

  /** _search_first_at_location, at the finest level, on a list that is not empty */
  function SearchFirst(locs: seq<Loc>, needle: Loc, start: nat, end: nat): (r: int)
    requires start <= end < |locs|
    ensures -1 <= r < |locs|
    decreases end - start
  {
    if start == end then
      if needle != locs[start] then -1 else Slide(locs, needle, start)
    else
      var pivot := Middle(start, end);
      if needle > locs[pivot] then SearchFirst(locs, needle, pivot + 1, end)
      else SearchFirst(locs, needle, start, pivot)
  }

  lemma {:induction false} SlideIs(locs: seq<Loc>, needle: Loc, i: nat)
    requires i < |locs| && locs[i] == needle && Ascending(locs)
    ensures
      var r := Slide(locs, needle, i);
      locs[r] == needle && forall j :: 0 <= j < r ==> locs[j] != needle
  {
    if i > 0 && locs[i - 1] == needle { SlideIs(locs, needle, i - 1); }
  }

  /** In a sorted list, the search finds the first position of a location, if it has one. */
  lemma {:induction false} SearchIsFirst(locs: seq<Loc>, needle: Loc, start: nat, end: nat)
    requires start <= end < |locs| && Ascending(locs)
    requires forall j :: 0 <= j < start ==> locs[j] < needle
    requires end == |locs| - 1 || needle <= locs[end]
    ensures
      var r := SearchFirst(locs, needle, start, end);
      && (r == -1 ==> forall j :: 0 <= j < |locs| ==> locs[j] != needle)
      && (r >= 0 ==> locs[r] == needle && forall j :: 0 <= j < r ==> locs[j] != needle)
    decreases end - start
  {
    hide Middle;
    if start == end {
      if needle == locs[start] { SlideIs(locs, needle, start); }
    } else {
      var pivot := Middle(start, end);
      if needle > locs[pivot] {
        SearchIsFirst(locs, needle, pivot + 1, end);
      } else {
        SearchIsFirst(locs, needle, start, pivot);
      }
    }
  }

  /** The first entry of an item, from a position on, or -1. */
  function FindFrom(s: seq<Entry>, id: Id, i: nat): (r: int)
    requires i <= |s|
    ensures r == -1 ==> forall j :: i <= j < |s| ==> s[j].id != id
    ensures r != -1 ==> i <= r < |s| && s[r].id == id && forall j :: i <= j < r ==> s[j].id != id
    decreases |s| - i
  {
    if i == |s| then -1 else if s[i].id == id then i else FindFrom(s, id, i + 1)
  }

  /** _find_slot_item: by a linear scan of a dirty list, by a binary search of a sorted one. */
  function FindSlotItem(items: Items, s: seq<Entry>, dirty: bool, id: Id): (r: int)
    ensures -1 <= r < |s| && (r >= 0 ==> s[r].id == id)
  {
    if dirty then FindFrom(s, id, 0)
    else if s == [] then -1
    else
      var i0 := SearchFirst(Locs(items, s), LocOf(items, id), 0, |s| - 1);
      if i0 == -1 then -1 else FindFrom(s, id, i0)
  }

  /** The binary search finds an item exactly where a linear scan would. */
  lemma FindAgrees(items: Items, s: seq<Entry>, dirty: bool, id: Id)
    requires dirty || Sorted(items, s)
    ensures FindSlotItem(items, s, dirty, id) == FindFrom(s, id, 0)
  {
    if !dirty && s != [] {
      var locs := Locs(items, s);
      SearchIsFirst(locs, LocOf(items, id), 0, |s| - 1);
      assert forall j :: 0 <= j < |s| && s[j].id == id ==> locs[j] == LocOf(items, id);
    }
  }

  // ---- Rehash ------------------------------------------------------------------------------

  /** The weight of the first `n` entries. */
  function SumTo(items: Items, s: seq<Entry>, n: nat): nat
    requires n <= |s|
  {
    if n == 0 then 0 else SumTo(items, s, n - 1) + WeightOf(items, s[n - 1].id)
  }

  function Wrap(n: nat): nat { n % WORD }

  /** The accumulated weights, in 32 bits. */
  function Accumulated(items: Items, s: seq<Entry>): seq<Entry> {
    seq(|s|, i requires 0 <= i < |s| => s[i].(acc := Wrap(SumTo(items, s, i + 1))))
  }

  function Ordered(items: Items, s: Slot): Slot {
    if s.dirtyOrder then
      var sorted := SortByLocation(items, s.items);
      var byLoc := Tally(Locs(items, sorted));
      s.(items := sorted, byLoc := byLoc, locsByLevel := Lengths(byLoc), dirtyOrder := false, dirtyWeights := true)
    else s
  }

  function Weighed(items: Items, s: Slot): Slot {
    if s.dirtyWeights then
      s.(items := Accumulated(items, s.items), sumWeight := Wrap(SumTo(items, s.items, |s.items|)),
         dirtyWeights := false)
    else s
  }

  function ZeroOrdered(items: Items, s: Slot): Slot {
    if s.zeroDirty then s.(zero := SortByLocation(items, s.zero), zeroDirty := false) else s
  }

  /** _slot_rehash */
  function Rehashed(items: Items, s: Slot): Slot {
    var r := ZeroOrdered(items, Weighed(items, Ordered(items, s)));
    r.(jump := Walk.JumpFor(|r.items|))
  }

  predicate NeedsRehash(s: Slot) { s.dirtyOrder || s.dirtyWeights || s.zeroDirty }

  // ---- The invariant of a slot ---------------------------------------------------------------

  ghost predicate Exact(items: Items, s: Slot) {
    && s.sumWeight == Wrap(SumTo(items, s.items, |s.items|))
    && forall i :: 0 <= i < |s.items| ==> s.items[i].acc == Wrap(SumTo(items, s.items, i + 1))
  }

  ghost predicate Surveyed(items: Items, s: Slot) {
    && Sorted(items, s.items) && s.byLoc == Tally(Locs(items, s.items)) && s.locsByLevel == Lengths(s.byLoc)
  }

  /** What clear flags promise. */
  ghost predicate Indexed(items: Items, s: Slot) {
    && (s.items != [] && !s.dirtyOrder ==> s.jump == Walk.JumpFor(|s.items|))
    && Kept(items, s)
  }

  ghost predicate Kept(items: Items, s: Slot) {
    && (s.items != [] && !s.dirtyOrder ==> Surveyed(items, s))
    && (s.items != [] && !s.dirtyOrder && !s.dirtyWeights ==> Exact(items, s))
    && (!s.zeroDirty ==> Sorted(items, s.zero))
  }

  /** Each item occurs once at most. */
  ghost predicate Once(s: Slot) { forall id :: Refs(s, id) <= 1 }

  /** Each item occurs once, in the list that its weight calls for. */
  ghost predicate Placed(items: Items, s: Slot) {
    && Once(s)
    && (forall i :: 0 <= i < |s.items| ==> s.items[i].id in items && WeightOf(items, s.items[i].id) > 0)
    && (forall i :: 0 <= i < |s.zero| ==> s.zero[i].id in items && WeightOf(items, s.zero[i].id) == 0)
  }

  /** Two worlds that know alike the items of a list. */
  ghost predicate Alike(items: Items, items': Items, s: seq<Entry>) {
    forall i :: 0 <= i < |s| ==>
      && LocOf(items, s[i].id) == LocOf(items', s[i].id) && WeightOf(items, s[i].id) == WeightOf(items', s[i].id)
      && (s[i].id in items <==> s[i].id in items')
  }

  lemma {:induction false} SumAlike(items: Items, items': Items, s: seq<Entry>, t: seq<Entry>, n: nat)
    requires n <= |s| == |t| && forall i :: 0 <= i < n ==> WeightOf(items, s[i].id) == WeightOf(items', t[i].id)
    ensures SumTo(items, s, n) == SumTo(items', t, n)
  {
    if n > 0 { SumAlike(items, items', s, t, n - 1); }
  }

  lemma AlikeKeeps(items: Items, items': Items, s: Slot)
    requires Alike(items, items', s.items) && Alike(items, items', s.zero)
    requires Indexed(items, s) && Placed(items, s)
    ensures Indexed(items', s) && Placed(items', s)
  {
    assert Locs(items, s.items) == Locs(items', s.items);
    assert Locs(items, s.zero) == Locs(items', s.zero);
    forall n | 0 <= n <= |s.items| ensures SumTo(items, s.items, n) == SumTo(items', s.items, n) {
      SumAlike(items, items', s.items, s.items, n);
    }
  }

  /** A test that does not look at the accumulated weight. */
  ghost predicate Blind(f: Entry -> bool) { forall e: Entry, a: nat :: f(e.(acc := a)) == f(e) }

  /** A rehash keeps the entries. */
  lemma RehashHits(items: Items, s: Slot, f: Entry -> bool)
    requires Blind(f)
    ensures
      var r := Rehashed(items, s);
      Hits(r.items, f) == Hits(s.items, f) && Hits(r.zero, f) == Hits(s.zero, f)
  {
    hide Walk.JumpFor, SortByLocation;
    SortIs(items, s.items);
    SortIs(items, s.zero);
    var t := Ordered(items, s).items;
    HitsAlike(Accumulated(items, t), t, f);
  }

  lemma RehashRefs(items: Items, s: Slot, id: Id)
    ensures Refs(Rehashed(items, s), id) == Refs(s, id)
  {
    hide Rehashed;
    RehashHits(items, s, OfId(id));
  }

  /** What holds of the ids of a list holds of those of another with the same ids. */
  lemma SameIds(s: seq<Entry>, r: seq<Entry>, p: Id -> bool)
    requires forall id :: Hits(r, OfId(id)) == Hits(s, OfId(id))
    requires forall i :: 0 <= i < |s| ==> p(s[i].id)
    ensures forall i :: 0 <= i < |r| ==> p(r[i].id)
  {
    forall i | 0 <= i < |r| ensures p(r[i].id) {
      var f := OfId(r[i].id);
      HitsNone(r, f);
      HitsNone(s, f);
      assert f(r[i]);
    }
  }

  lemma OrderedKeeps(items: Items, s: Slot)
    requires Kept(items, s)
    ensures Kept(items, Ordered(items, s)) && !Ordered(items, s).dirtyOrder
  {
    hide SortByLocation, SumTo, Tally, Ascending, Lengths;
    SortIs(items, s.items);
  }

  lemma WeighedKeeps(items: Items, s: Slot)
    requires Kept(items, s)
    ensures Kept(items, Weighed(items, s))
  {
    hide SumTo, Tally, Ascending, Lengths;
    var t := s.items;
    var w := Accumulated(items, t);
    assert Locs(items, w) == Locs(items, t);
    forall n | 0 <= n <= |t| ensures SumTo(items, w, n) == SumTo(items, t, n) {
      SumAlike(items, items, w, t, n);
    }
  }

  lemma ZeroOrderedKeeps(items: Items, s: Slot)
    requires Kept(items, s)
    ensures Kept(items, ZeroOrdered(items, s))
  {
    hide SortByLocation, SumTo, Tally, Ascending, Lengths;
    SortIs(items, s.zero);
  }

  /** A rehash clears the flags and keeps what they promise. */
  lemma RehashIndexes(items: Items, s: Slot)
    requires Indexed(items, s)
    ensures Indexed(items, Rehashed(items, s)) && !NeedsRehash(Rehashed(items, s))
  {
    hide Walk.JumpFor, SortByLocation, Sorted, SumTo, Tally, Lengths;
    var o := Ordered(items, s);
    OrderedKeeps(items, s);
    WeighedKeeps(items, o);
    var w := Weighed(items, o);
    ZeroOrderedKeeps(items, w);
    var z := ZeroOrdered(items, w);
    assert Exact(items, z) ==> Exact(items, Rehashed(items, s));
  }

  lemma RehashPlaces(items: Items, s: Slot)
    requires Placed(items, s)
    ensures Placed(items, Rehashed(items, s))
  {
    hide Rehashed, WeightOf, Hits;
    var r := Rehashed(items, s);
    forall id
      ensures Hits(r.items, OfId(id)) == Hits(s.items, OfId(id)) && Hits(r.zero, OfId(id)) == Hits(s.zero, OfId(id))
    {
      RehashHits(items, s, OfId(id));
    }
    SameIds(s.items, r.items, id => id in items && WeightOf(items, id) > 0);
    SameIds(s.zero, r.zero, id => id in items && WeightOf(items, id) == 0);
    forall id ensures Refs(r, id) <= 1 { assert Refs(s, id) <= 1; }
  }

  // ---- What a rehash leaves as it is -------------------------------------------------------------

  lemma SumAppend(items: Items, s: seq<Entry>, e: Entry)
    ensures SumTo(items, s + [e], |s| + 1) == SumTo(items, s, |s|) + WeightOf(items, e.id)
  {
    SumPrefix(items, s + [e], s, |s|);
  }

  lemma {:induction false} SumPrefix(items: Items, s: seq<Entry>, t: seq<Entry>, n: nat)
    requires n <= |s| && n <= |t| && s[..n] == t[..n]
    ensures SumTo(items, s, n) == SumTo(items, t, n)
  {
    if n > 0 {
      assert s[..n][n - 1] == t[..n][n - 1] && s[..n - 1] == s[..n][..n - 1] && t[..n - 1] == t[..n][..n - 1];
      SumPrefix(items, s, t, n - 1);
    }
  }

  lemma {:induction false} InsertSum(items: Items, s: seq<Entry>, e: Entry)
    ensures
      var r := InsertSorted(items, s, e);
      |r| == |s| + 1 && SumTo(items, r, |r|) == SumTo(items, s, |s|) + WeightOf(items, e.id)
  {
    hide WeightOf;
    var n := |s| - 1;
    if s == [] || LocOf(items, e.id) >= LocOf(items, s[n].id) {
      SumAppend(items, s, e);
    } else {
      InsertSum(items, s[..n], e);
      SumAppend(items, InsertSorted(items, s[..n], e), s[n]);
      SumAppend(items, s[..n], s[n]);
      assert s == s[..n] + [s[n]];
    }
  }

  lemma {:induction false} SortSum(items: Items, s: seq<Entry>)
    ensures
      var r := SortByLocation(items, s);
      |r| == |s| && SumTo(items, r, |r|) == SumTo(items, s, |s|)
  {
    hide WeightOf;
    if s != [] {
      var n := |s| - 1;
      SortSum(items, s[..n]);
      InsertSum(items, SortByLocation(items, s[..n]), s[n]);
      SumAppend(items, s[..n], s[n]);
      assert s == s[..n] + [s[n]];
    }
  }

  /** A rehash clears the flags, and keeps the sum of the weights. */
  lemma RehashClears(items: Items, s: Slot)
    ensures
      var r := Rehashed(items, s);
      && !NeedsRehash(r) && |r.items| == |s.items| && |r.zero| == |s.zero|
      && SumTo(items, r.items, |r.items|) == SumTo(items, s.items, |s.items|)
  {
    hide Walk.JumpFor, SortByLocation, SumTo, WeightOf;
    SortSum(items, s.items);
    SortSum(items, s.zero);
    var t := Ordered(items, s).items;
    SumAlike(items, items, Accumulated(items, t), t, |t|);
  }

  lemma {:induction false} SumAtMost(items: Items, s: seq<Entry>, n: nat)
    requires n <= |s|
    ensures SumTo(items, s, n) <= 255 * n
  {
    if n > 0 { SumAtMost(items, s, n - 1); }
  }
}
