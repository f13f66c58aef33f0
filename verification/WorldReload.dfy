/**
 A reload of the load balancer (core/lb.c): a new generation, feeds, and a purge of what
 was not fed. What the slots then hold, and the cap on the distances of the world.
 */
module WorldReload {
  import opened Location
  import opened Slots
  import opened Feeding
  import opened Purging
  import opened WorldSpec
  import opened WorldIndex
  import opened WorldStored

  // ---- The cap on distances ------------------------------------------------------------------------

  /** No item is beyond the absolute maximum distance. */
  ghost predicate Capped(w: State) {
    w.absMaxDist <= 4 && forall id :: id in w.items ==> MaxDist(w.items[id].location) <= w.absMaxDist
  }

  lemma FeedLocation(items: Items, generation: Generation, s: Slot, f: Feed, id: Id)
    ensures
      var r := FeedSlot(items, generation, s, f).0;
      id in r ==> (id in items && r[id].location == items[id].location) || (id == f.id && r[id].location == f.location)
  {
    hide Rehashed, FindSlotItem, FromItems, FromZero, AddNew;
  }

  lemma FeedCaps(w: State, i: nat, f: Feed)
    requires i < |w.slots| && Capped(w)
    ensures Capped(FeedAt(w, i, f))
  {
    hide FeedSlot, MaxDist;
    PrefixVanishes(f.location);
    forall id ensures var r := FeedAt(w, i, f); id in r.items ==> MaxDist(r.items[id].location) <= r.absMaxDist {
      FeedLocation(w.items, w.generation, w.slots[i], f, id);
    }
  }

  lemma {:induction false} FeedAllCaps(w: State, i: nat, feeds: seq<Feed>)
    requires i < |w.slots| && Capped(w)
    ensures Capped(FeedAll(w, i, feeds))
  {
    hide FeedAt, Capped;
    if feeds != [] {
      FeedAllCaps(w, i, feeds[..|feeds| - 1]);
      FeedCaps(FeedAll(w, i, feeds[..|feeds| - 1]), i, feeds[|feeds| - 1]);
    }
  }

  lemma {:induction false} PurgeItemsSame(items: Items, slots: seq<Slot>, k: nat, generation: Generation, age: nat)
    ensures Same(items, PurgeItems(items, slots, k, generation, age).0)
    decreases |slots| - k
  {
    hide PurgeSlot;
    if k < |slots| {
      PurgeSlotSame(items, slots[k], generation, age);
      var r := PurgeSlot(items, slots[k], generation, age);
      PurgeItemsSame(r.0, slots[k := r.1], k + 1, generation, age);
    }
  }

  lemma SameCaps(items: Items, items': Items, id: Id)
    requires Same(items, items') && (id in items || id in items')
    ensures id in items && id in items' && items[id].location == items'[id].location
  {
    assert LocOf(items', id) == LocOf(items, id);
  }

  lemma StepCaps(w: State, op: Op)
    requires Capped(w)
    ensures Capped(Step(w, op))
  {
    hide FeedAt, FeedAll, PurgeItems, DropSlots, MaxDist, Same;
    match op {
      case FeedOne(name, f) =>
        if Lookup(w.slots, name) >= 0 { FeedCaps(w, Lookup(w.slots, name), f); }
      case FeedList(name, feeds) =>
        if Lookup(w.slots, name) >= 0 { FeedAllCaps(w, Lookup(w.slots, name), feeds); }
      case PurgeOld =>
        var r := PurgeItems(w.items, w.slots, 0, w.generation, 0);
        PurgeItemsSame(w.items, w.slots, 0, w.generation, 0);
        DropSound(r.0, r.1, w.generation, 0);
        var d := DropSlots(r.0, r.1, w.generation, 0).0;
        forall id | id in d ensures MaxDist(d[id].location) <= w.absMaxDist {
          SameCaps(r.0, d, id);
          SameCaps(w.items, r.0, id);
        }
      case _ =>
    }
  }

  /** In every reachable world, the cap covers the locations of all items. */
  lemma {:induction false} RunCaps(ops: seq<Op>)
    ensures Capped(Run(EMPTY, ops))
  {
    hide Step;
    if ops != [] {
      RunCaps(ops[..|ops| - 1]);
      StepCaps(Run(EMPTY, ops[..|ops| - 1]), ops[|ops| - 1]);
    }
  }

  function FeedsIn(op: Op): seq<Feed> {
    match op
    case FeedOne(_, f) => [f]
    case FeedList(_, feeds) => feeds
    case _ => []
  }

  /** A feed of an operation, to a slot that exists. */
  ghost predicate Delivers(w: State, op: Op, f: Feed) { f in FeedsIn(op) && Lookup(w.slots, op.name) >= 0 }

  lemma {:induction false} FeedAllReaches(w: State, i: nat, feeds: seq<Feed>)
    requires i < |w.slots|
    ensures
      var r := FeedAll(w, i, feeds).absMaxDist;
      && w.absMaxDist <= r && (forall f :: f in feeds ==> MaxDist(f.location) <= r)
      && (r == w.absMaxDist || exists f :: f in feeds && MaxDist(f.location) == r)
  {
    hide FeedSlot, MaxDist;
    if feeds != [] {
      var n := |feeds| - 1;
      FeedAllReaches(w, i, feeds[..n]);
      assert feeds == feeds[..n] + [feeds[n]];
      assert feeds[n] in feeds;
    }
  }

  lemma StepReaches(w: State, op: Op)
    ensures
      var r := Step(w, op).absMaxDist;
      && w.absMaxDist <= r && (forall f :: Delivers(w, op, f) ==> MaxDist(f.location) <= r)
      && (r == w.absMaxDist || exists f :: Delivers(w, op, f) && MaxDist(f.location) == r)
  {
    hide FeedSlot, MaxDist, FeedAll, Rehashed, Purge;
    if op.FeedList? && Lookup(w.slots, op.name) >= 0 { FeedAllReaches(w, Lookup(w.slots, op.name), op.feeds); }
    if op.FeedOne? && Lookup(w.slots, op.name) >= 0 { assert Delivers(w, op, op.feed); }
    if op.PurgeOld? { PurgeSameDist(w); }
  }

  lemma PurgeSameDist(w: State)
    ensures Purge(w).absMaxDist == w.absMaxDist
  {
    hide PurgeItems, DropSlots;
  }

  /** A feed of a run, to a slot that existed then. */
  ghost predicate FedAt(ops: seq<Op>, k: nat, f: Feed)
    requires k < |ops|
  {
    Delivers(Run(EMPTY, ops[..k]), ops[k], f)
  }

  lemma FedBefore(ops: seq<Op>, n: nat, k: nat, f: Feed)
    requires k < n <= |ops|
    ensures FedAt(ops[..n], k, f) <==> FedAt(ops, k, f)
  {
    hide Delivers, Run;
    assert ops[..n][..k] == ops[..k];
  }

  /** In every reachable world, the cap is the greatest distance of the locations that were fed to its slots. */
  lemma {:induction false} RunReaches(ops: seq<Op>)
    ensures
      var r := Run(EMPTY, ops).absMaxDist;
      && (forall k, f :: 0 <= k < |ops| && FedAt(ops, k, f) ==> MaxDist(f.location) <= r)
      && (r == 0 || exists k, f :: 0 <= k < |ops| && FedAt(ops, k, f) && MaxDist(f.location) == r)
  {
    hide Step, MaxDist, Delivers, FedAt;
    if ops != [] {
      var n := |ops| - 1;
      var w, r := Run(EMPTY, ops[..n]), Run(EMPTY, ops).absMaxDist;
      RunReaches(ops[..n]);
      StepReaches(w, ops[n]);
      forall f ensures FedAt(ops, n, f) <==> Delivers(w, ops[n], f) { LastFed(ops, f); }
      forall k, f | 0 <= k < n ensures FedAt(ops[..n], k, f) <==> FedAt(ops, k, f) { FedBefore(ops, n, k, f); }
      if r == w.absMaxDist {
        if r != 0 {
          var k, f :| 0 <= k < n && FedAt(ops[..n], k, f) && MaxDist(f.location) == r;
          assert FedAt(ops, k, f);
        }
      } else {
        var f :| Delivers(w, ops[n], f) && MaxDist(f.location) == r;
        assert FedAt(ops, n, f);
      }
    }
  }

  lemma LastFed(ops: seq<Op>, f: Feed)
    requires ops != []
    ensures FedAt(ops, |ops| - 1, f) <==> Delivers(Run(EMPTY, ops[..|ops| - 1]), ops[|ops| - 1], f)
  {
  }

  /** The distances beyond the cap are those at which any two items are too close, so that starting below
      it skips nothing. */
  lemma CapSkipsNothing(w: State, x: Id, y: Id, d: Dist)
    requires Capped(w) && x in w.items && y in w.items && w.absMaxDist < d
    ensures Close(w.items[x].location, w.items[y].location, d)
  {
    BeyondCap(w.items[x].location, w.items[y].location, w.absMaxDist, d);
  }

  // ---- Marks --------------------------------------------------------------------------------------

  lemma FeedMarks(items: Items, generation: Generation, s: Slot, f: Feed)
    ensures
      var r := FeedSlot(items, generation, s, f).1;
      && (forall x, g :: x != f.id ==> Holds(r, x, g) == Holds(s, x, g))
      && Holds(r, f.id, generation) > 0 && r.name == s.name && r.generation == generation
  {
    hide FeedFound, AddNew, Total, Rehashed;
    var t := s.(generation := generation);
    var e := FeedEntry(items, generation, t, f);
    var r := FeedSlot(items, generation, s, f).1;
    forall x, g ensures Holds(t, x, g) == Holds(s, x, g) { GenerationHolds(s, generation, x, g); }
    if f.id in items {
      var u := Flagged(items, t, f);
      forall x, g ensures Holds(u, x, g) == Holds(t, x, g) { FlaggedHolds(items, t, f, x, g); }
      FeedFoundMarks(Reweighed(items, f), generation, u, f);
    } else {
      var known := items[f.id := Item(f.location, f.putWeight, 0)];
      forall x, g
        ensures Holds(e.1, x, g) == Holds(t, x, g) + One(Fed(x, g), Entry(f.id, 0, generation))
      {
        AddTotal(known, generation, t, f.id, Fed(x, g));
      }
    }
    forall x, g ensures Holds(Rehashed(e.0, e.1), x, g) == Holds(e.1, x, g) { RehashHolds(e.0, e.1, x, g); }
    RehashLabels(e.0, e.1);
  }

  lemma GenerationHolds(s: Slot, generation: Generation, x: Id, g: Generation)
    ensures Holds(s.(generation := generation), x, g) == Holds(s, x, g)
  {
  }

  lemma FlaggedHolds(items: Items, s: Slot, f: Feed, x: Id, g: Generation)
    requires f.id in items
    ensures Holds(Flagged(items, s, f), x, g) == Holds(s, x, g)
  {
  }

  lemma RehashHolds(items: Items, s: Slot, x: Id, g: Generation)
    ensures Holds(Rehashed(items, s), x, g) == Holds(s, x, g)
  {
    hide Rehashed;
    RehashHits(items, s, Fed(x, g));
  }

  // ---- Reload ----------------------------------------------------------------------------------------

  /** Which items were fed to which slots. */
  type Trace = set<(Name, Id)>

  function TraceOf(h: seq<Delivery>): Trace { set p | p in h :: (p.name, p.feed.id) }

  ghost predicate Touched(trace: Trace, name: Name) { exists id :: (name, id) in trace }

  /** A slot created during the generation 0, which is that of a new slot. */
  ghost predicate Born(w: State, generation: Generation, name: Name) { generation == 0 && Lookup(w.slots, name) < 0 }

  /** A slot bears the marks of the feeds of a generation. */
  ghost predicate Marked(s: Slot, generation: Generation, trace: Trace, born: bool) {
    && (s.generation == generation <==> Touched(trace, s.name) || born)
    && (forall id :: Holds(s, id, generation) > 0 <==> (s.name, id) in trace)
  }

  ghost predicate AllMarked(w: State, v: State, trace: Trace) {
    forall i :: 0 <= i < |v.slots| ==> Marked(v.slots[i], v.generation, trace, Born(w, v.generation, v.slots[i].name))
  }

  lemma MarkSlot(s: Slot, t: Slot, generation: Generation, trace: Trace, born: bool, id: Id)
    requires Marked(s, generation, trace, born) && t.name == s.name && t.generation == generation
    requires forall x, g :: x != id ==> Holds(t, x, g) == Holds(s, x, g)
    requires Holds(t, id, generation) > 0
    ensures Marked(t, generation, trace + {(s.name, id)}, born)
  {
    hide Holds;
    assert (s.name, id) in trace + {(s.name, id)};
  }

  lemma MarkOther(s: Slot, generation: Generation, trace: Trace, born: bool, name: Name, id: Id)
    requires Marked(s, generation, trace, born) && s.name != name
    ensures Marked(s, generation, trace + {(name, id)}, born)
  {
    hide Holds;
  }

  lemma FeedAllMarks(w: State, v: State, i: nat, f: Feed, trace: Trace)
    requires i < |v.slots| && Distinct(v.slots) && AllMarked(w, v, trace)
    ensures AllMarked(w, FeedAt(v, i, f), trace + {(v.slots[i].name, f.id)}) && Distinct(FeedAt(v, i, f).slots)
  {
    hide Marked, FeedSlot, Born;
    var r := FeedSlot(v.items, v.generation, v.slots[i], f).1;
    FeedMarks(v.items, v.generation, v.slots[i], f);
    MarkSlot(v.slots[i], r, v.generation, trace, Born(w, v.generation, v.slots[i].name), f.id);
    forall j | 0 <= j < |v.slots| && j != i
      ensures Marked(v.slots[j], v.generation, trace + {(v.slots[i].name, f.id)}, Born(w, v.generation, v.slots[j].name))
    {
      MarkOther(v.slots[j], v.generation, trace, Born(w, v.generation, v.slots[j].name), v.slots[i].name, f.id);
    }
  }

  lemma {:induction false} FeedsMark(w: State, v: State, i: nat, feeds: seq<Feed>, h: seq<Delivery>)
    requires i < |v.slots| && Distinct(v.slots) && AllMarked(w, v, TraceOf(h))
    ensures AllMarked(w, FeedAll(v, i, feeds), TraceOf(h + Deliveries(v.slots[i].name, feeds)))
    ensures Distinct(FeedAll(v, i, feeds).slots) && FeedAll(v, i, feeds).slots[i].name == v.slots[i].name
  {
    hide AllMarked, FeedAt;
    var n, name := |feeds| - 1, v.slots[i].name;
    if feeds == [] {
      assert h + Deliveries(name, feeds) == h;
    } else {
      FeedsMark(w, v, i, feeds[..n], h);
      var u := FeedAll(v, i, feeds[..n]);
      var mid := h + Deliveries(name, feeds[..n]);
      FeedAllMarks(w, u, i, feeds[n], TraceOf(mid));
      FeedName(u, i, feeds[n]);
      assert h + Deliveries(name, feeds) == mid + [Delivery(name, feeds[n])];
      TraceAppend(mid, Delivery(name, feeds[n]));
    }
  }

  lemma FeedName(w: State, i: nat, f: Feed)
    requires i < |w.slots|
    ensures FeedAt(w, i, f).slots[i].name == w.slots[i].name
  {
    hide FeedAt;
    FeedNames(w, i, f);
    assert Names(FeedAt(w, i, f).slots)[i] == Names(w.slots)[i];
  }

  lemma TraceAppend(h: seq<Delivery>, p: Delivery)
    ensures TraceOf(h + [p]) == TraceOf(h) + {(p.name, p.feed.id)}
  {
    assert p in h + [p];
    assert forall q :: q in h ==> q in h + [p];
  }

  lemma RehashMarks(w: State, v: State, i: nat, trace: Trace)
    requires i < |v.slots| && AllMarked(w, v, trace)
    ensures AllMarked(w, RehashAt(v, i), trace)
  {
    hide Holds, Rehashed, Touched, Born;
    var s := v.slots[i];
    RehashLabels(v.items, s);
    forall id ensures Holds(Rehashed(v.items, s), id, v.generation) == Holds(s, id, v.generation) {
      RehashHolds(v.items, s, id, v.generation);
    }
  }

  /** A new slot has no entry, and was not fed. */
  lemma SlotMarks(w: State, v: State, name: Name, h: seq<Delivery>)
    requires AllMarked(w, v, TraceOf(h)) && AllExist(v, h) && Lookup(v.slots, name) < 0 && Lookup(w.slots, name) < 0
    ensures AllMarked(w, Step(v, CreateSlot(name)), TraceOf(h))
  {
    hide Lookup;
    var u, s := Step(v, CreateSlot(name)), NewSlot(name);
    assert u.slots == v.slots + [s];
    assert !Touched(TraceOf(h), name);
    assert forall id, g :: Holds(s, id, g) == 0;
    assert Marked(s, v.generation, TraceOf(h), Born(w, v.generation, name));
  }

  lemma StepMarks(w: State, v: State, op: Op, h: seq<Delivery>)
    requires Reloads(op) && Distinct(v.slots) && AllMarked(w, v, TraceOf(h)) && AllExist(v, h)
    requires op.CreateSlot? && Lookup(v.slots, op.name) < 0 ==> Lookup(w.slots, op.name) < 0
    ensures
      var more := if IsFeed(op) && Lookup(v.slots, op.name) >= 0 then FeedsOf(op) else [];
      AllMarked(w, Step(v, op), TraceOf(h + more))
  {
    hide FeedAt, FeedAll, RehashAt, AllMarked, AllExist;
    var i := Lookup(v.slots, op.name);
    assert h + [] == h;
    if op.CreateSlot? {
      if i < 0 { SlotMarks(w, v, op.name, h); }
    } else if i >= 0 && op.FeedOne? {
      FeedAllMarks(w, v, i, op.feed, TraceOf(h));
      TraceAppend(h, Delivery(op.name, op.feed));
    } else if i >= 0 {
      FeedsMark(w, v, i, op.feeds, h);
      RehashMarks(w, FeedAll(v, i, op.feeds), i, TraceOf(h + Deliveries(op.name, op.feeds)));
    }
  }

  lemma {:induction false} RunMarks(w: State, ops: seq<Op>, k: nat)
    requires Indexes(w) && CautiousRun(w, ops) && (forall m :: 0 <= m < |ops| ==> Reloads(ops[m])) && k <= |ops|
    requires AllMarked(w, w, {})
    ensures AllMarked(w, Run(w, ops[..k]), TraceOf(History(w, ops[..k])))
  {
    hide Step, Run, AllMarked, Sound, Cautious, FeedsOf, AllExist, Lookup;
    if k == 0 {
      RunNone(w);
      assert TraceOf([]) == {};
    } else {
      RunMarks(w, ops, k - 1);
      RunPrefix(w, ops, k - 1);
      RunStep(w, ops, k - 1);
      PrefixOf(ops, k - 1);
      HistoryExists(w, ops, k - 1);
      OpenIs(w, ops, k - 1, ops[k - 1].name);
      StepMarks(w, Run(w, ops[..k - 1]), ops[k - 1], History(w, ops[..k - 1]));
    }
  }

  lemma {:induction false} PurgeItemsHolds(items: Items, slots: seq<Slot>, k: nat, generation: Generation,
                                           i: nat, id: Id, g: Generation)
    requires i < |slots| && k <= |slots|
    ensures
      var r := PurgeItems(items, slots, k, generation, 0).1;
      && |r| == |slots| && SameLabel(slots[i], r[i])
      && Holds(r[i], id, g) == (if i < k || g == generation then Holds(slots[i], id, g) else 0)
    decreases |slots| - k
  {
    hide PurgeSlot, Hits;
    if k < |slots| {
      var r := PurgeSlot(items, slots[k], generation, 0);
      PurgeSlotSame(items, slots[k], generation, 0);
      PurgeSlotHolds(items, slots[k], generation, id, g);
      PurgeItemsHolds(r.0, slots[k := r.1], k + 1, generation, i, id, g);
    }
  }

  /** An item with an entry holds a mark. */
  lemma RefsHold(s: Slot, id: Id) returns (g: Generation)
    requires Refs(s, id) > 0
    ensures Holds(s, id, g) > 0
  {
    AbsentIs(s.items, id);
    AbsentIs(s.zero, id);
    if Hits(s.items, OfId(id)) > 0 {
      var i :| 0 <= i < |s.items| && s.items[i].id == id;
      g := s.items[i].generation;
      EntryCounts(s, i, Fed(id, g));
    } else {
      var i :| 0 <= i < |s.zero| && s.zero[i].id == id;
      g := s.zero[i].generation;
      EntryCounts(s, |s.items| + i, Fed(id, g));
    }
  }

  lemma {:induction false} HoldsAtMostRefs(s: seq<Entry>, id: Id, g: Generation)
    ensures Hits(s, Fed(id, g)) <= Hits(s, OfId(id))
  {
    if s != [] { HoldsAtMostRefs(s[..|s| - 1], id, g); }
  }

  /** A purged slot has the items that it holds for the current generation, and no other. */
  lemma PurgedRefs(s: Slot, generation: Generation, id: Id)
    requires forall g :: g != generation ==> Holds(s, id, g) == 0
    ensures Refs(s, id) > 0 <==> Holds(s, id, generation) > 0
  {
    if Refs(s, id) > 0 {
      var g := RefsHold(s, id);
    }
    HoldsAtMostRefs(s.items, id, generation);
    HoldsAtMostRefs(s.zero, id, generation);
  }

  /** Nothing bears the generation to come. */
  ghost predicate NoneAhead(w: State) {
    var next: Generation := (w.generation + 1) % WORD;
    forall i :: 0 <= i < |w.slots| ==> w.slots[i].generation != next && forall id :: Holds(w.slots[i], id, next) == 0
  }

  lemma NoneMarked(w: State)
    requires NoneAhead(w)
    ensures AllMarked(Step(w, NextGeneration), Step(w, NextGeneration), {})
  {
    hide Holds;
  }

  lemma NoDelta(u0: Generation, u1: Generation)
    ensures Delta(u0, u1) == 0 <==> u0 == u1
  {
  }

  /** After a purge, every entry and every slot is of the current generation. */
  lemma PurgeHolds(w: State, s: Slot) returns (i: nat)
    requires s in Purge(w).slots
    ensures s.generation == w.generation && forall id, g :: g != w.generation ==> Holds(s, id, g) == 0
    ensures i < |w.slots| && w.slots[i].name == s.name && w.slots[i].generation == w.generation
    ensures forall id :: Holds(s, id, w.generation) == Holds(w.slots[i], id, w.generation)
  {
    hide PurgeItems, DropSlots, Holds, Same, Delta;
    var r := PurgeItems(w.items, w.slots, 0, w.generation, 0);
    DropSound(r.0, r.1, w.generation, 0);
    NoDelta(s.generation, w.generation);
    i :| 0 <= i < |r.1| && r.1[i] == s;
    PurgeItemsLabels(w.items, w.slots, 0, w.generation);
    forall id, g ensures Holds(s, id, g) == (if g == w.generation then Holds(w.slots[i], id, g) else 0) {
      PurgeItemsHolds(w.items, w.slots, 0, w.generation, i, id, g);
    }
  }

  /** A slot of the current generation outlives a purge. */
  lemma PurgeSpares(w: State, i: nat)
    requires i < |w.slots| && w.slots[i].generation == w.generation
    ensures exists s :: s in Purge(w).slots && s.name == w.slots[i].name
  {
    hide PurgeItems, DropSlots, Same, Delta;
    var r := PurgeItems(w.items, w.slots, 0, w.generation, 0);
    DropSound(r.0, r.1, w.generation, 0);
    NoDelta(w.generation, w.generation);
    PurgeItemsLabels(w.items, w.slots, 0, w.generation);
    assert r.1[i] in r.1;
  }

  lemma {:induction false} PurgeItemsLabels(items: Items, slots: seq<Slot>, k: nat, generation: Generation)
    ensures
      var r := PurgeItems(items, slots, k, generation, 0).1;
      |r| == |slots| && forall i :: 0 <= i < |slots| ==> SameLabel(slots[i], r[i])
    decreases |slots| - k
  {
    hide PurgeSlot;
    if k < |slots| {
      var r := PurgeSlot(items, slots[k], generation, 0);
      PurgeSlotSame(items, slots[k], generation, 0);
      PurgeItemsLabels(r.0, slots[k := r.1], k + 1, generation);
    }
  }

  lemma PurgeLeavesNoneAhead(w: State)
    ensures NoneAhead(Purge(w))
  {
    hide Purge, Holds;
    var v := Purge(w);
    var next: Generation := (w.generation + 1) % WORD;
    assert v.generation == w.generation by { PurgeGeneration(w); }
    forall i | 0 <= i < |v.slots|
      ensures v.slots[i].generation != next && forall id :: Holds(v.slots[i], id, next) == 0
    {
      var j := PurgeHolds(w, v.slots[i]);
    }
  }

  lemma PurgeGeneration(w: State)
    ensures Purge(w).generation == w.generation
  {
  }

  lemma PurgeSame(w: State)
    ensures Same(w.items, Purge(w).items)
  {
    hide PurgeItems, DropSlots, LocOf, WeightOf;
    PurgeItemsSame(w.items, w.slots, 0, w.generation, 0);
    var r := PurgeItems(w.items, w.slots, 0, w.generation, 0);
    DropSound(r.0, r.1, w.generation, 0);
  }

  /** A new generation, any feeds, among which slots are created, then a purge: the slots that were fed remain, each
      holds exactly the items that it was fed, once each, and the items have the weight of their last feed and the
      location of the last one that had it stored, ready for another reload. */
  lemma Reload(w: State, ops: seq<Op>)
    requires Indexes(w) && NoneAhead(w)
    requires CautiousRun(Step(w, NextGeneration), ops) && forall k :: 0 <= k < |ops| ==> Reloads(ops[k])
    ensures
      var w1 := Step(w, NextGeneration);
      var v := Step(Run(w1, ops), PurgeOld);
      && Renewed(w1, ops, v)
      && (forall id :: Learned(w1, v, FeedsFor(History(w1, ops), id), id))
      && Indexes(v) && NoneAhead(v)
  {
    hide Step, Sound, Purge, Run, CautiousRun, Learned, FeedsFor, History, Marked, NoneAhead, Renewed;
    var w1 := Step(w, NextGeneration);
    NoneMarked(w);
    var u := Run(w1, ops);
    NextSame(w, u);
    RunSurvives(w1, ops);
    PurgeIndexes(u);
    PurgeLeavesNoneAhead(u);
    RunMarks(w1, ops, |ops|);
    assert ops[..|ops|] == ops;
    ReloadedSlots(w1, ops);
    forall id ensures Learned(w1, Purge(u), FeedsFor(History(w1, ops), id), id) { Learn(w1, ops, id); }
  }

  /** The slots are those that were fed, and have what they were fed, once each; those that were only created also
      remain when the generation is 0. */
  ghost predicate Renewed(w: State, ops: seq<Op>, v: State) {
    var h := History(w, ops);
    && (forall name :: Lookup(v.slots, name) >= 0 <==>
      FedTo(h, name) || (w.generation == 0 && Lookup(w.slots, name) < 0 && CreateSlot(name) in ops))
    && (forall s, id :: s in v.slots ==> Refs(s, id) == if (s.name, id) in TraceOf(h) then 1 else 0)
  }

  lemma NextSame(w: State, u: State)
    ensures
      var w1 := Step(w, NextGeneration);
      (Indexes(w) ==> Indexes(w1)) && w1.slots == w.slots && Step(u, PurgeOld) == Purge(u)
  {
    hide Sound, Purge;
  }

  lemma TouchedIs(h: seq<Delivery>, name: Name)
    ensures Touched(TraceOf(h), name) <==> FedTo(h, name)
  {
    if FedTo(h, name) {
      var k :| 0 <= k < |h| && h[k].name == name;
      assert (name, h[k].feed.id) in TraceOf(h);
    }
  }

  lemma ReloadedSlots(w: State, ops: seq<Op>)
    requires Distinct(Run(w, ops).slots) && forall k :: 0 <= k < |ops| ==> Reloads(ops[k])
    requires AllMarked(w, Run(w, ops), TraceOf(History(w, ops))) && Indexes(Purge(Run(w, ops)))
    ensures Renewed(w, ops, Purge(Run(w, ops)))
  {
    hide Purge, Refs, Run, History, Lookup, AllMarked, Indexes;
    var u := Run(w, ops);
    var v := Purge(u);
    forall name
      ensures Lookup(v.slots, name) >= 0 <==>
        FedTo(History(w, ops), name) || (w.generation == 0 && Lookup(w.slots, name) < 0 && CreateSlot(name) in ops)
    {
      SlotRemains(w, ops, name);
    }
    forall s, id | s in v.slots
      ensures Refs(s, id) == if (s.name, id) in TraceOf(History(w, ops)) then 1 else 0
    {
      ReloadedSlot(w, u, s, TraceOf(History(w, ops)), id);
    }
  }

  /** A slot remains exactly if it bears the current generation. */
  lemma PurgeKeeps(u: State, name: Name)
    requires Distinct(u.slots)
    ensures Lookup(Purge(u).slots, name) >= 0 <==>
      Lookup(u.slots, name) >= 0 && u.slots[Lookup(u.slots, name)].generation == u.generation
  {
    hide Purge, Holds;
    var v, i := Purge(u), Lookup(u.slots, name);
    if Lookup(v.slots, name) >= 0 {
      var j := PurgeHolds(u, v.slots[Lookup(v.slots, name)]);
      LookupFinds(u.slots, j);
    }
    if i >= 0 && u.slots[i].generation == u.generation { PurgeSpares(u, i); }
  }

  lemma SlotRemains(w: State, ops: seq<Op>, name: Name)
    requires forall k :: 0 <= k < |ops| ==> Reloads(ops[k])
    requires AllMarked(w, Run(w, ops), TraceOf(History(w, ops))) && Distinct(Run(w, ops).slots)
    ensures Lookup(Purge(Run(w, ops)).slots, name) >= 0 <==>
      FedTo(History(w, ops), name) || (w.generation == 0 && Lookup(w.slots, name) < 0 && CreateSlot(name) in ops)
  {
    hide Purge, Run, History, Holds, FedTo, Lookup, Touched;
    var u, h := Run(w, ops), History(w, ops);
    assert ops[..|ops|] == ops;
    OpenIs(w, ops, |ops|, name);
    TouchedIs(h, name);
    PurgeKeeps(u, name);
    if FedTo(h, name) { FedExists(w, ops, name); }
    var i := Lookup(u.slots, name);
    if i >= 0 { assert Marked(u.slots[i], u.generation, TraceOf(h), Born(w, u.generation, name)); }
  }

  lemma FedExists(w: State, ops: seq<Op>, name: Name)
    requires FedTo(History(w, ops), name)
    ensures Open(w, ops, name)
  {
    hide History;
    var h := History(w, ops);
    var k :| 0 <= k < |h| && h[k].name == name;
    HistoryOpen(w, ops, h[k]);
  }

  /** What a world knows of an item once its feeds are over. */
  ghost predicate Learned(w: State, v: State, fs: seq<Delivery>, id: Id) {
    && (id in v.items <==> id in w.items || fs != [])
    && LocOf(v.items, id) == Place(w, fs, id)
    && WeightOf(v.items, id) == (if fs == [] then WeightOf(w.items, id) else fs[|fs| - 1].feed.putWeight)
  }

  lemma Learn(w: State, ops: seq<Op>, id: Id)
    requires Indexes(w) && CautiousRun(w, ops) && forall k :: 0 <= k < |ops| ==> Reloads(ops[k])
    ensures Learned(w, Purge(Run(w, ops)), FeedsFor(History(w, ops), id), id)
  {
    hide Indexes, CautiousRun, Run, Purge, History, FeedsFor, Place, LocOf, WeightOf;
    RunStores(w, ops, id);
    PurgeSame(Run(w, ops));
  }

  lemma ReloadedSlot(w: State, u: State, s: Slot, trace: Trace, id: Id)
    requires AllMarked(w, u, trace) && s in Purge(u).slots && Indexes(Purge(u))
    ensures Refs(s, id) == if (s.name, id) in trace then 1 else 0
  {
    hide Purge, Holds, Refs, Indexed, Born;
    var i := PurgeHolds(u, s);
    assert Marked(u.slots[i], u.generation, trace, Born(w, u.generation, u.slots[i].name));
    assert Sound(Purge(u).items, s);
    PurgedRefs(s, u.generation, id);
    assert Refs(s, id) <= 1;
  }
}
