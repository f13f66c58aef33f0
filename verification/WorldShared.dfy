/**
 Runs of the load balancer (core/lb.c) that end with an index that is wrong, or with an
 item that is not where it was last said to be.
 */
module WorldShared {
  import opened Basics
  import opened Location
  import opened Counters
  import opened Slots
  import opened Feeding
  import opened Purging
  import opened WorldSpec
  import opened WorldIndex
  import opened WorldReload
  import Walk

  // ---- Filling a new slot ----------------------------------------------------------------------

  lemma {:induction false} SortSorted(items: Items, s: seq<Entry>)
    requires Sorted(items, s)
    ensures SortByLocation(items, s) == s
  {
    if s != [] {
      var n := |s| - 1;
      assert Locs(items, s[..n]) == Locs(items, s)[..n];
      SortSorted(items, s[..n]);
      assert n > 0 ==> Locs(items, s)[n - 1] <= Locs(items, s)[n];
      assert s[..n] + [s[n]] == s;
    }
  }

  /** The world knows an item as a feed tells it. */
  ghost predicate Knows(items: Items, f: Feed) {
    f.id in items && items[f.id].location == f.location && items[f.id].putWeight == f.putWeight
  }

  /** Feeds of different items with a weight, which the world does not know otherwise. */
  ghost predicate Fresh(items: Items, feeds: seq<Feed>) {
    && (forall k :: 0 <= k < |feeds| ==> feeds[k].putWeight > 0 && (feeds[k].id in items ==> Knows(items, feeds[k])))
    && forall k, m :: 0 <= k < m < |feeds| ==> feeds[k].id != feeds[m].id
  }

  ghost predicate HasFeeds(s: seq<Entry>, feeds: seq<Feed>) {
    |s| == |feeds| && forall k :: 0 <= k < |feeds| ==> s[k].id == feeds[k].id
  }

  /** A slot that was fed, and not rehashed yet. */
  ghost predicate Filling(s: Slot, feeds: seq<Feed>) {
    && HasFeeds(s.items, feeds) && s.zero == [] && !s.zeroDirty && !s.rehashOnUpdate && !s.dirtyWeights
    && (feeds != [] ==> s.dirtyOrder)
  }

  lemma FillOne(items: Items, generation: Generation, s: Slot, feeds: seq<Feed>, f: Feed)
    requires Filling(s, feeds) && f.putWeight > 0 && (f.id in items ==> Knows(items, f))
    requires forall k :: 0 <= k < |feeds| ==> feeds[k].id != f.id
    ensures
      var r := FeedSlot(items, generation, s, f);
      && Filling(r.1, feeds + [f]) && r.1.name == s.name && Knows(r.0, f)
      && (forall x :: x != f.id ==> Unchanged(items, r.0, x))
  {
    hide Rehashed, NeedsRehash, SearchFirst, LocOf;
    var t := s.(generation := generation);
    var i := FindFrom(t.items, f.id, 0);
    if f.id in items { assert Reweighed(items, f) == items; }
  }

  /** A world where a new slot was fed, and nothing else changed. */
  ghost predicate FedOnly(w: State, v: State, i: nat, feeds: seq<Feed>)
    requires i < |w.slots|
  {
    && |v.slots| == |w.slots| && v.slots == w.slots[i := v.slots[i]] && v.slots[i].name == w.slots[i].name
    && (forall k :: 0 <= k < |feeds| ==> Knows(v.items, feeds[k]))
    && (forall x :: (forall k :: 0 <= k < |feeds| ==> feeds[k].id != x) ==> Unchanged(w.items, v.items, x))
  }

  ghost predicate Unchanged(items: Items, items': Items, x: Id) {
    (x in items' <==> x in items) && (x in items ==> items'[x] == items[x])
  }

  lemma FedOrUnchanged(w: State, v: State, i: nat, feeds: seq<Feed>, x: Id)
    requires i < |w.slots| && FedOnly(w, v, i, feeds)
    ensures (exists k :: 0 <= k < |feeds| && feeds[k].id == x) || Unchanged(w.items, v.items, x)
  {
    hide Unchanged;
  }

  lemma FillNext(w: State, v: State, i: nat, feeds: seq<Feed>, f: Feed)
    requires i < |w.slots| && FedOnly(w, v, i, feeds) && Filling(v.slots[i], feeds) && Fresh(w.items, feeds + [f])
    ensures
      var u := FeedAt(v, i, f);
      FedOnly(w, u, i, feeds + [f]) && Filling(u.slots[i], feeds + [f])
  {
    hide FeedSlot, MaxDist, Filling;
    var all := feeds + [f];
    assert all[|feeds|] == f && forall k :: 0 <= k < |feeds| ==> all[k] == feeds[k];
    assert Unchanged(w.items, v.items, f.id);
    FillOne(v.items, v.generation, v.slots[i], feeds, f);
    var u := FeedAt(v, i, f);
    forall x | forall k :: 0 <= k < |all| ==> all[k].id != x ensures Unchanged(w.items, u.items, x) {
      assert all[|feeds|].id != x;
      assert forall k :: 0 <= k < |feeds| ==> all[k].id != x;
      assert Unchanged(w.items, v.items, x) && Unchanged(v.items, u.items, x);
    }
    forall k | 0 <= k < |feeds| ensures Knows(u.items, all[k]) {
      assert Knows(v.items, feeds[k]) && all[k].id != all[|feeds|].id;
      assert Unchanged(v.items, u.items, feeds[k].id);
    }
  }

  lemma {:induction false} FillAll(w: State, i: nat, feeds: seq<Feed>)
    requires i < |w.slots| && w.slots[i] == NewSlot(w.slots[i].name) && Fresh(w.items, feeds)
    ensures FedOnly(w, FeedAll(w, i, feeds), i, feeds) && Filling(FeedAll(w, i, feeds).slots[i], feeds)
  {
    hide FeedAt, Knows;
    if feeds == [] {
      NothingFed(w, i);
    } else {
      var n := |feeds| - 1;
      FillAll(w, i, feeds[..n]);
      assert feeds[..n] + [feeds[n]] == feeds;
      FillNext(w, FeedAll(w, i, feeds[..n]), i, feeds[..n], feeds[n]);
    }
  }

  lemma NothingFed(w: State, i: nat)
    requires i < |w.slots|
    ensures FedOnly(w, w, i, [])
  {
  }

  /** A slot that was fed and rehashed. */
  ghost predicate Filled(items: Items, s: Slot, feeds: seq<Feed>) {
    && HasFeeds(s.items, feeds) && s.zero == [] && !NeedsRehash(s) && !s.rehashOnUpdate
    && Surveyed(items, s) && Exact(items, s) && s.jump == Walk.JumpFor(|s.items|)
  }

  lemma RehashFilled(items: Items, s: Slot, feeds: seq<Feed>)
    requires Filling(s, feeds) && feeds != [] && Sorted(items, s.items)
    ensures Filled(items, Rehashed(items, s), feeds)
  {
    hide Walk.JumpFor, SortByLocation, SumTo, Tally, Lengths;
    SortSorted(items, s.items);
    var o := Ordered(items, s);
    assert o.items == s.items;
    OrderedKeeps(items, s);
    WeighedKeeps(items, o);
  }

  lemma FeedsSorted(items: Items, s: seq<Entry>, feeds: seq<Feed>)
    requires HasFeeds(s, feeds) && forall k :: 0 <= k < |feeds| ==> Knows(items, feeds[k])
    requires forall k, m :: 0 <= k < m < |feeds| ==> feeds[k].location <= feeds[m].location
    ensures Sorted(items, s)
  {
    assert forall k :: 0 <= k < |s| ==> Locs(items, s)[k] == feeds[k].location;
  }

  /** Feeding a new slot in the order of the locations. */
  lemma Fill(w: State, i: nat, feeds: seq<Feed>)
    requires i < |w.slots| && w.slots[i] == NewSlot(w.slots[i].name) && feeds != [] && Fresh(w.items, feeds)
    requires forall k, m :: 0 <= k < m < |feeds| ==> feeds[k].location <= feeds[m].location
    ensures
      var v := RehashAt(FeedAll(w, i, feeds), i);
      FedOnly(w, v, i, feeds) && Filled(v.items, v.slots[i], feeds)
  {
    hide FeedAll, Rehashed, Filled, Filling, Sorted, Knows, Unchanged;
    FillAll(w, i, feeds);
    var v := FeedAll(w, i, feeds);
    FillingHas(v.slots[i], feeds);
    FeedsSorted(v.items, v.slots[i].items, feeds);
    RehashFilled(v.items, v.slots[i], feeds);
    RehashLabels(v.items, v.slots[i]);
  }

  lemma FillingHas(s: Slot, feeds: seq<Feed>)
    requires Filling(s, feeds)
    ensures HasFeeds(s.items, feeds)
  {
  }

  lemma FilledAlike(items: Items, items': Items, s: Slot, feeds: seq<Feed>)
    requires Filled(items, s, feeds)
    requires forall k :: 0 <= k < |feeds| ==> Knows(items, feeds[k]) && Knows(items', feeds[k])
    ensures Filled(items', s, feeds)
  {
    hide SumTo, Tally, Lengths, Ascending, Walk.JumpFor;
    assert Locs(items', s.items) == Locs(items, s.items);
    forall n | 0 <= n <= |s.items| ensures SumTo(items', s.items, n) == SumTo(items, s.items, n) {
      SumAlike(items', items, s.items, s.items, n);
    }
  }

  lemma {:induction false} HitsDistinct(s: seq<Entry>, id: Id)
    requires forall i, j :: 0 <= i < j < |s| ==> s[i].id != s[j].id
    ensures Hits(s, OfId(id)) <= 1
  {
    if s != [] {
      HitsDistinct(s[..|s| - 1], id);
      HitsNone(s[..|s| - 1], OfId(id));
    }
  }

  /** A slot filled with different items that have a weight is right. */
  lemma FilledSound(items: Items, s: Slot, feeds: seq<Feed>)
    requires Filled(items, s, feeds) && Fresh(items, feeds) && forall k :: 0 <= k < |feeds| ==> Knows(items, feeds[k])
    ensures Sound(items, s)
  {
    hide Surveyed, Exact, Walk.JumpFor, Hits;
    forall id ensures Refs(s, id) <= 1 {
      HitsDistinct(s.items, id);
      HitsNone(s.zero, OfId(id));
    }
  }

  lemma TwoSlots(a: Name, b: Name)
    requires a != b
    ensures
      var w := Run(EMPTY, [CreateSlot(a), CreateSlot(b)]);
      w.slots == [NewSlot(a), NewSlot(b)] && w.items == map[]
  {
    RunOne(EMPTY, [], CreateSlot(a));
    RunOne(EMPTY, [CreateSlot(a)], CreateSlot(b));
    assert [CreateSlot(a)] + [CreateSlot(b)] == [CreateSlot(a), CreateSlot(b)];
    assert [] + [CreateSlot(a)] == [CreateSlot(a)];
  }

  /** A slot that has been fed a list. */
  lemma OneFilled(name: Name, fs: seq<Feed>)
    requires fs != [] && Fresh(map[], fs) && forall k, m :: 0 <= k < m < |fs| ==> fs[k].location <= fs[m].location
    ensures
      var w := Run(EMPTY, [CreateSlot(name), FeedList(name, fs)]);
      && |w.slots| == 1 && w.slots[0].name == name && Filled(w.items, w.slots[0], fs)
      && (forall k :: 0 <= k < |fs| ==> Knows(w.items, fs[k]))
  {
    hide FeedAll, RehashAt, Run, Filled;
    RunTwo(EMPTY, [], CreateSlot(name), FeedList(name, fs));
    RunNone(EMPTY);
    assert [] + [CreateSlot(name), FeedList(name, fs)] == [CreateSlot(name), FeedList(name, fs)];
    var w1 := Step(EMPTY, CreateSlot(name));
    assert w1.slots == [NewSlot(name)];
    Fill(w1, 0, fs);
  }

  /** Two slots: one has been fed a list, and then the other. */
  lemma TwoFilled(a: Name, b: Name, fs: seq<Feed>, gs: seq<Feed>)
    requires a != b && fs != [] && gs != [] && Fresh(map[], fs) && Fresh(map[], gs)
    requires forall k, m :: 0 <= k < |fs| && 0 <= m < |gs| && fs[k].id == gs[m].id ==> fs[k] == gs[m]
    requires forall k, m :: 0 <= k < m < |fs| ==> fs[k].location <= fs[m].location
    requires forall k, m :: 0 <= k < m < |gs| ==> gs[k].location <= gs[m].location
    ensures
      var w := Run(EMPTY, [CreateSlot(a), CreateSlot(b), FeedList(a, fs), FeedList(b, gs)]);
      && |w.slots| == 2 && w.slots[0].name == a && w.slots[1].name == b
      && Filled(w.items, w.slots[0], fs) && Filled(w.items, w.slots[1], gs)
      && (forall k :: 0 <= k < |fs| ==> Knows(w.items, fs[k]))
      && (forall k :: 0 <= k < |gs| ==> Knows(w.items, gs[k]))
  {
    hide FeedAll, RehashAt, Run, Filled;
    var ops := [CreateSlot(a), CreateSlot(b)];
    TwoSlots(a, b);
    var w2 := Run(EMPTY, ops);
    RunOne(EMPTY, ops, FeedList(a, fs));
    Fill(w2, 0, fs);
    var w3 := Run(EMPTY, ops + [FeedList(a, fs)]);
    RunOne(EMPTY, ops + [FeedList(a, fs)], FeedList(b, gs));
    forall k | 0 <= k < |gs| && gs[k].id in w3.items ensures Knows(w3.items, gs[k]) {
      FedOrUnchanged(w2, w3, 0, fs, gs[k].id);
      var m :| 0 <= m < |fs| && fs[m].id == gs[k].id;
      assert Knows(w3.items, fs[m]);
    }
    assert Fresh(w3.items, gs);
    Fill(w3, 1, gs);
    var w4 := Step(w3, FeedList(b, gs));
    forall k | 0 <= k < |fs| ensures Knows(w4.items, fs[k]) {
      assert Knows(w3.items, fs[k]);
      FedOrUnchanged(w3, w4, 1, gs, fs[k].id);
      if m :| 0 <= m < |gs| && gs[m].id == fs[k].id { assert Knows(w4.items, gs[m]); }
    }
    FilledAlike(w3.items, w4.items, w3.slots[0], fs);
    assert ops + [FeedList(a, fs)] + [FeedList(b, gs)] == [CreateSlot(a), CreateSlot(b), FeedList(a, fs), FeedList(b, gs)];
  }

  // ---- A location that does not change -----------------------------------------------------------

  lemma NewSlotFed(w: State, name: Name, f: Feed)
    requires w.slots == []
    ensures
      var v := Step(Step(w, CreateSlot(name)), FeedOne(name, f));
      && |v.slots| == 1 && v.slots[0].generation == w.generation && v.generation == w.generation
      && f.id in v.items && v.items[f.id].putWeight == f.putWeight
      && v.items[f.id].location == if f.id in w.items then w.items[f.id].location else f.location
  {
    hide FeedSlot, MaxDist, Placed, Indexed, Refs, Others;
    var s := NewSlot(name);
    assert Step(w, CreateSlot(name)).slots == [s];
    NewSound(w.items, name);
    NewRefs(name, f.id);
    FeedKeeps(w.items, w.generation, s, f);
  }

  /** A reload that feeds nothing leaves no slot, and the items as they were. */
  lemma PurgeLeavesNothing(w: State)
    requires forall i :: 0 <= i < |w.slots| ==> w.slots[i].generation == w.generation
    ensures
      var v := Step(Step(w, NextGeneration), PurgeOld);
      v.slots == [] && Same(w.items, v.items)
  {
    hide Purge, Holds, Same;
    var w1 := Step(w, NextGeneration);
    PurgeSame(w1);
    if Purge(w1).slots != [] {
      var i := PurgeHolds(w1, Purge(w1).slots[0]);
    }
  }

  /** An item fed, left out of a reload, and fed again elsewhere: a slot that no longer has it is given
      the item back where it was. */
  lemma StaleLocation(name: Name, id: Id, from: Loc, to: Loc, weight: Weight)
    ensures
      var ops := [CreateSlot(name), FeedOne(name, Feed(id, from, weight)), NextGeneration, PurgeOld,
                  CreateSlot(name), FeedOne(name, Feed(id, to, weight))];
      var w := Run(EMPTY, ops);
      id in w.items && w.items[id].location == from
  {
    hide Step, Run, Same;
    var f, g := Feed(id, from, weight), Feed(id, to, weight);
    var fed, purged := [CreateSlot(name), FeedOne(name, f)], [CreateSlot(name), FeedOne(name, f), NextGeneration, PurgeOld];
    RunTwo(EMPTY, [], CreateSlot(name), FeedOne(name, f));
    RunTwo(EMPTY, fed, NextGeneration, PurgeOld);
    RunTwo(EMPTY, purged, CreateSlot(name), FeedOne(name, g));
    assert [] + [CreateSlot(name), FeedOne(name, f)] == fed && fed + [NextGeneration, PurgeOld] == purged;
    assert purged + [CreateSlot(name), FeedOne(name, g)] == [CreateSlot(name), FeedOne(name, f), NextGeneration, PurgeOld,
      CreateSlot(name), FeedOne(name, g)];
    RunNone(EMPTY);
    NewSlotFed(EMPTY, name, f);
    PurgeLeavesNothing(Run(EMPTY, fed));
    var w := Run(EMPTY, purged);
    SameCaps(Run(EMPTY, fed).items, w.items, id);
    NewSlotFed(w, name, g);
  }

  lemma RunTwo(w: State, ops: seq<Op>, op: Op, op': Op)
    ensures Run(w, ops + [op, op']) == Step(Step(Run(w, ops), op), op')
  {
    hide Step, Run;
    assert ops + [op] + [op'] == ops + [op, op'];
    RunOne(w, ops, op);
    RunOne(w, ops + [op], op');
  }

  // ---- A weight that changes -------------------------------------------------------------------

  /** Feeding an entry that has a place, a location and a weight changes nothing but its generation. */
  lemma FeedSame(items: Items, generation: Generation, s: Slot, f: Feed)
    requires |s.items| == 1 && s.items[0].id == f.id && Knows(items, f) && f.putWeight > 0 && !NeedsRehash(s)
    ensures
      var r := FeedSlot(items, generation, s, f);
      && r.0 == items && |r.1.items| == 1 && r.1.items[0].id == f.id && r.1.items[0].acc == s.items[0].acc
      && !NeedsRehash(r.1)
  {
    hide Rehashed, LocOf;
    assert Reweighed(items, f) == items;
    var t := s.(generation := generation);
    assert FindSlotItem(items, t.items, false, f.id) == 0;
    assert Relocated(items, f) == items;
  }

  /** An item fed to two slots and then, with another weight, to each of them again: the first slot ends
      with clear flags over a weight that is not that of its item. */
  lemma SharedItemBreaks(a: Name, b: Name, id: Id, loc: Loc, u: Weight, v: Weight)
    requires a != b && 0 < u && 0 < v && u != v
    ensures
      var f, g := Feed(id, loc, u), Feed(id, loc, v);
      var ops := [CreateSlot(a), CreateSlot(b), FeedList(a, [f]), FeedList(b, [f]), FeedOne(b, g), FeedOne(a, g)];
      var w := Run(EMPTY, ops);
      |w.slots| == 2 && Knows(w.items, g) && w.slots[0].items != [] && !NeedsRehash(w.slots[0]) && !Exact(w.items, w.slots[0])
  {
    hide FeedSlot, NeedsRehash, Run, Filled, Sound, MaxDist, SumTo;
    var f, g := Feed(id, loc, u), Feed(id, loc, v);
    var ops := [CreateSlot(a), CreateSlot(b), FeedList(a, [f]), FeedList(b, [f])];
    TwoFilled(a, b, [f], [f]);
    var w4 := Run(EMPTY, ops);
    assert Knows(w4.items, [f][0]);
    RunOne(EMPTY, ops, FeedOne(b, g));
    RunOne(EMPTY, ops + [FeedOne(b, g)], FeedOne(a, g));
    assert ops + [FeedOne(b, g)] + [FeedOne(a, g)]
      == [CreateSlot(a), CreateSlot(b), FeedList(a, [f]), FeedList(b, [f]), FeedOne(b, g), FeedOne(a, g)];
    FilledOne(w4.items, w4.slots[0], f);
    FilledSound(w4.items, w4.slots[1], [f]);
    FeedSound(w4.items, w4.generation, w4.slots[1], g);
    var w5 := Step(w4, FeedOne(b, g));
    FeedSame(w5.items, w5.generation, w5.slots[0], g);
    var w6 := Step(w5, FeedOne(a, g));
    SumSingle(w6.items, w6.slots[0]);
  }

  lemma FilledOne(items: Items, s: Slot, f: Feed)
    requires Filled(items, s, [f]) && Knows(items, f)
    ensures |s.items| == 1 && s.items[0].id == f.id && s.items[0].acc == f.putWeight && !NeedsRehash(s)
  {
    SumSingle(items, s);
  }

  lemma SumSingle(items: Items, s: Slot)
    requires |s.items| == 1
    ensures SumTo(items, s.items, 1) == WeightOf(items, s.items[0].id)
    ensures Exact(items, s) ==> s.items[0].acc == WeightOf(items, s.items[0].id)
  {
    assert SumTo(items, s.items, 1) == SumTo(items, s.items, 0) + WeightOf(items, s.items[0].id);
  }

  // ---- A location that changes -------------------------------------------------------------------

  /** A search for a location that is before all those that it looks at finds nothing. */
  lemma {:induction false} SearchMisses(locs: seq<Loc>, needle: Loc, start: nat, end: nat)
    requires start <= end < |locs| && needle < locs[start] && forall j :: start <= j < end ==> needle < locs[j]
    ensures SearchFirst(locs, needle, start, end) == -1
    decreases end - start
  {
    hide Middle;
    if start < end { SearchMisses(locs, needle, start, Middle(start, end)); }
  }

  lemma Misses(items: Items, generation: Generation, s: Slot, f: Feed)
    requires Locs(items, s.items) == [5, 8, 1] && s.zero == [] && !NeedsRehash(s) && !s.rehashOnUpdate
    requires Knows(items, f) && f.location == 1 && f.putWeight > 0 && s.items[2].id == f.id
    ensures Refs(FeedSlot(items, generation, s, f).1, f.id) > 1
  {
    hide SearchFirst, Refs, AddNew;
    SearchMisses([5, 8, 1], 1, 0, 2);
    var t := s.(generation := generation);
    assert Reweighed(items, f) == items && Flagged(items, t, f) == t;
    assert FindSlotItem(items, t.items, false, f.id) == -1;
    assert FindSlotItem(items, t.zero, false, f.id) == -1;
    var r := AddNew(items, generation, t, f.id);
    AddRefs(items, generation, t, f.id);
    SomeRefs(t, 2);
    RehashRefs(Ref(items, f.id), r, f.id);
  }

  lemma SomeRefs(s: Slot, i: nat)
    requires i < |s.items|
    ensures Refs(s, s.items[i].id) > 0
  {
    AbsentIs(s.items, s.items[i].id);
  }

  /** An item fed to two slots, and then to one of them with another location: the other slot shows clear
      flags over a list that is no longer sorted, its search misses the item, and the next feed gives
      the item a second entry. */
  lemma SharedItemLost(a: Name, b: Name, p: Id, q: Id, x: Id, weight: Weight)
    requires a != b && p != q && p != x && q != x && weight > 0
    ensures
      var f, g := Feed(x, 10, weight), Feed(x, 1, weight);
      var ops := [CreateSlot(a), CreateSlot(b), FeedList(a, [Feed(p, 5, weight), Feed(q, 8, weight), f]),
                  FeedList(b, [f]), FeedOne(b, g)];
      var w := Run(EMPTY, ops);
      && |w.slots| == 2 && !NeedsRehash(w.slots[0]) && !Sorted(w.items, w.slots[0].items)
      && Refs(w.slots[0], x) > 0 && FindSlotItem(w.items, w.slots[0].items, w.slots[0].dirtyOrder, x) == -1
      && Refs(Run(EMPTY, ops + [FeedOne(a, g)]).slots[0], x) > 1
  {
    hide FeedSlot, NeedsRehash, Run, Filled, Sound, MaxDist, SumTo, Refs, SearchFirst;
    var f, g := Feed(x, 10, weight), Feed(x, 1, weight);
    var fs := [Feed(p, 5, weight), Feed(q, 8, weight), f];
    TwoFilled(a, b, fs, [f]);
    var ops := [CreateSlot(a), CreateSlot(b), FeedList(a, fs), FeedList(b, [f])];
    var w4 := Run(EMPTY, ops);
    assert Knows(w4.items, [f][0]) && Knows(w4.items, fs[0]) && Knows(w4.items, fs[1]);
    FilledSound(w4.items, w4.slots[1], [f]);
    FilledRefs(w4.items, w4.slots[1], [f]);
    FilledRefs(w4.items, w4.slots[0], fs);
    FeedSound(w4.items, w4.generation, w4.slots[1], g);
    RunOne(EMPTY, ops, FeedOne(b, g));
    var w5 := Step(w4, FeedOne(b, g));
    assert ops + [FeedOne(b, g)]
      == [CreateSlot(a), CreateSlot(b), FeedList(a, fs), FeedList(b, [f]), FeedOne(b, g)];
    Unsorted(w5.items, w5.slots[0], p, q, x);
    RunOne(EMPTY, ops + [FeedOne(b, g)], FeedOne(a, g));
    Misses(w5.items, w5.generation, w5.slots[0], g);
  }

  lemma FilledRefs(items: Items, s: Slot, feeds: seq<Feed>)
    requires Filled(items, s, feeds) && feeds != []
    ensures !NeedsRehash(s) && !s.rehashOnUpdate && s.zero == []
    ensures HasFeeds(s.items, feeds) && Refs(s, feeds[|feeds| - 1].id) > 0
  {
    SomeRefs(s, |s.items| - 1);
  }

  lemma Unsorted(items: Items, s: Slot, p: Id, q: Id, x: Id)
    requires |s.items| == 3 && s.items[0].id == p && s.items[1].id == q && s.items[2].id == x && !NeedsRehash(s)
    requires LocOf(items, p) == 5 && LocOf(items, q) == 8 && LocOf(items, x) == 1
    ensures Locs(items, s.items) == [5, 8, 1] && !Sorted(items, s.items)
    ensures FindSlotItem(items, s.items, s.dirtyOrder, x) == -1
  {
    hide SearchFirst;
    var locs := Locs(items, s.items);
    assert locs == [5, 8, 1];
    SearchMisses([5, 8, 1], 1, 0, 2);
    assert locs[1] > locs[2];
  }
}
