/**
 The world of the load balancer (struct oio_lb_world_s of core/lb.c), updated in place.
 Each operation is proved to make the step that the state machine of WorldSpec prescribes,
 so that what any run keeps holds of the object, and of the polls that read it.
 */
module World {
  import opened Basics
  import opened Location
  import opened Counters
  import opened Slots
  import opened Feeding
  import opened Purging
  import opened WorldSpec
  import opened WorldIndex
  import opened WorldReload
  import opened Matching
  import opened Poll
  import opened Patching
  import opened Placement
  import Walk

  /** _slide_to_first_at_location */
  method SlideToFirst(locs: seq<Loc>, needle: Loc, from: nat) returns (i: nat)
    requires from < |locs|
    ensures i == Slide(locs, needle, from)
  {
    i := from;
    while i > 0 && locs[i - 1] == needle
      invariant i <= from && Slide(locs, needle, i) == Slide(locs, needle, from)
    {
      i := i - 1;
    }
  }

  /** _search_first_at_location */
  method SearchFirstAtLocation(locs: seq<Loc>, needle: Loc, start: nat, end: nat) returns (i: int)
    requires start <= end < |locs|
    ensures i == SearchFirst(locs, needle, start, end)
    decreases end - start
  {
    if start == end {
      if needle != locs[start] {
        return -1;
      }
      i := SlideToFirst(locs, needle, start);
    } else {
      var pivot := Middle(start, end);
      if needle > locs[pivot] {
        i := SearchFirstAtLocation(locs, needle, pivot + 1, end);
      } else {
        i := SearchFirstAtLocation(locs, needle, start, pivot);
      }
    }
  }

  /** _find_slot_item */
  method Find(items: Items, s: seq<Entry>, dirty: bool, id: Id) returns (r: int)
    ensures r == FindSlotItem(items, s, dirty, id)
  {
    var i0 := -1;
    if dirty {
      i0 := 0;
    } else if s != [] {
      i0 := SearchFirstAtLocation(Locs(items, s), LocOf(items, id), 0, |s| - 1);
    }
    if i0 != -1 {
      var i := i0;
      while i < |s|
        invariant i0 <= i <= |s| && FindFrom(s, id, i) == FindFrom(s, id, i0)
      {
        if s[i].id == id {
          return i;
        }
        i := i + 1;
      }
    }
    return -1;
  }

  /** The counters of the locations of a list. */
  method CountLocations(items: Items, s: seq<Entry>) returns (byLoc: Counts)
    ensures byLoc == Tally(Locs(items, s))
  {
    byLoc := map[];
    var i := 0;
    ghost var locs := Locs(items, s);
    while i < |s|
      invariant 0 <= i <= |s| && byLoc == Tally(locs[..i])
    {
      assert locs[..i + 1][..i] == locs[..i];
      byLoc := Incr(byLoc, LocOf(items, s[i].id));
      i := i + 1;
    }
    assert locs[..i] == locs;
  }

  lemma WrappedStep(items: Items, s: seq<Entry>, i: nat)
    requires i < |s|
    ensures Wrap(SumTo(items, s, i + 1)) == Wrap(Wrap(SumTo(items, s, i)) + WeightOf(items, s[i].id))
  {
  }

  lemma WrappedStart(items: Items, s: seq<Entry>)
    ensures Wrap(SumTo(items, s, 0)) == 0
  {
  }

  /** The accumulated weights of a list, and their sum. */
  method AccumulateWeights(items: Items, s: seq<Entry>) returns (r: seq<Entry>, sum: nat)
    ensures r == Accumulated(items, s) && sum == Wrap(SumTo(items, s, |s|))
  {
    hide WeightOf, Wrap, SumTo;
    sum := 0;
    WrappedStart(items, s);
    r := s;
    var i := 0;
    while i < |s|
      invariant 0 <= i <= |s| == |r| && sum == Wrap(SumTo(items, s, i))
      invariant forall j :: 0 <= j < i ==> r[j] == s[j].(acc := Wrap(SumTo(items, s, j + 1)))
      invariant forall j :: i <= j < |s| ==> r[j] == s[j]
    {
      WrappedStep(items, s, i);
      sum := Wrap(sum + WeightOf(items, r[i].id));
      r := r[i := r[i].(acc := sum)];
      i := i + 1;
    }
  }

  /** _slot_rehash */
  method Rehash(items: Items, s: Slot) returns (r: Slot)
    ensures r == Rehashed(items, s)
  {
    hide Tally, SortByLocation, Accumulated, SumTo, Lengths, Walk.JumpFor, Locs;
    r := s;
    if r.dirtyOrder {
      var sorted := SortByLocation(items, r.items);
      var byLoc := CountLocations(items, sorted);
      r := r.(items := sorted, byLoc := byLoc, locsByLevel := Lengths(byLoc), dirtyOrder := false, dirtyWeights := true);
    }
    if r.dirtyWeights {
      var weighed, sum := AccumulateWeights(items, r.items);
      r := r.(items := weighed, sumWeight := sum, dirtyWeights := false);
    }
    if r.zeroDirty {
      r := r.(zero := SortByLocation(items, r.zero), zeroDirty := false);
    }
    var jump := Walk.ChooseJump(|r.items|);
    r := r.(jump := jump);
  }

  /** _purge_slot_items */
  method PurgeSlotItems(items: Items, s: seq<Entry>, generation: Generation, age: nat)
    returns (items': Items, r: seq<Entry>)
    ensures (items', r) == PurgeList(items, s, 0, generation, age)
  {
    items', r := items, s;
    var i := 0;
    while i < |r|
      invariant 0 <= i <= |r|
      invariant PurgeList(items', r, i, generation, age) == PurgeList(items, s, 0, generation, age)
      decreases |r| - i
    {
      if Stays(r[i], generation, age) {
        i := i + 1;
      } else {
        items' := Unref(items', r[i].id);
        r := RemoveFast(r, i);
      }
    }
  }

  /** _slot_items_flush */
  method FlushSlotItems(items: Items, s: seq<Entry>) returns (items': Items)
    ensures items' == FlushList(items, s)
  {
    items' := items;
    var i := 0;
    while i < |s|
      invariant 0 <= i <= |s| && items' == FlushList(items, s[..i])
    {
      assert s[..i + 1][..i] == s[..i];
      items' := Unref(items', s[i].id);
      i := i + 1;
    }
    assert s[..i] == s;
  }

  class World {
    var items: Items
    var slots: seq<Slot>
    var generation: Generation
    var absMaxDist: nat
    /** The operations so far. */
    ghost var ops: seq<Op>

    ghost predicate Valid()
      reads this
    {
      Contents() == Run(EMPTY, ops)
    }

    function Contents(): State
      reads `items, `slots, `generation, `absMaxDist
    {
      State(items, slots, generation, absMaxDist)
    }

    constructor ()
      ensures Valid() && Contents() == EMPTY && ops == []
    {
      items, slots, generation, absMaxDist, ops := map[], [], 0, 0, [];
    }

    /** What any operation adds to the history. */
    ghost method Record(op: Op, before: State)
      requires before == Run(EMPTY, ops) && Contents() == Step(before, op)
      modifies `ops
      ensures Valid() && ops == old(ops) + [op]
    {
      hide Step, Run;
      RunOne(EMPTY, ops, op);
      ops := ops + [op];
    }

    /** In every object, each item counts the entries that point at it, no item is beyond the cap on distances
        and, if the feeds were cautious, the index of every slot is right. */
    lemma Guarantees()
      requires Valid()
      ensures Counted(Contents()) && Capped(Contents())
      ensures CautiousRun(EMPTY, ops) ==> Indexes(Contents())
    {
      hide Run, Counted, Capped, Indexes, CautiousRun;
      RunCounts(ops);
      RunCaps(ops);
      RunIndexes(ops);
    }

    method CreateSlot(name: Name)
      requires Valid()
      modifies `slots, `ops
      ensures Valid() && ops == old(ops) + [Op.CreateSlot(name)]
      ensures Contents() == Step(old(Contents()), Op.CreateSlot(name))
      ensures Lookup(slots, name) >= 0 && |old(slots)| <= |slots| && slots[..|old(slots)|] == old(slots)
      ensures |slots| == |old(slots)| || (|slots| == |old(slots)| + 1 && slots[|old(slots)|].items == slots[|old(slots)|].zero == [])
    {
      hide Run;
      if Lookup(slots, name) < 0 {
        slots := slots + [NewSlot(name)];
      }
      Record(Op.CreateSlot(name), old(Contents()));
    }

    /** _add_new_slot_item */
    method AddNewSlotItem(i: nat, id: Id)
      requires i < |slots|
      modifies `items, `slots, `absMaxDist
      ensures Contents() == old(Contents()).(items := old(Ref(items, id)),
                                             slots := old(slots[i := AddNew(items, generation, slots[i], id)]))
    {
      var e := Entry(id, 0, generation);
      var s := slots[i];
      if WeightOf(items, id) > 0 {
        slots := slots[i := s.(items := s.items + [e], dirtyOrder := true)];
      } else {
        slots := slots[i := s.(zero := s.zero + [e], zeroDirty := true)];
      }
      items := Ref(items, id);
    }

    /** The update of an item that the world knows and of its entry in a slot, if it has one. */
    method FeedKnown(i: nat, f: Feed)
      requires i < |slots| && f.id in items
      modifies `items, `slots, `absMaxDist
      ensures
        var r := old(FeedFound(items, generation, slots[i], f));
        Contents() == old(Contents()).(items := r.0, slots := old(slots)[i := r.1])
    {
      hide FindSlotItem, AddNew, RemoveFast;
      var s := slots[i];
      var moved := items[f.id].location != f.location;
      var k := Find(items, s.items, s.dirtyOrder, f.id);
      if k != -1 {
        items := items[f.id := items[f.id].(location := f.location)];
        var e := s.items[k].(generation := generation);
        if f.putWeight > 0 {
          slots := slots[i := s.(items := s.items[k := e], dirtyOrder := s.dirtyOrder || moved)];
        } else {
          slots := slots[i := s.(zero := s.zero + [e], zeroDirty := true,
                                 items := RemoveFast(s.items, k), dirtyOrder := true)];
        }
        return;
      }
      k := Find(items, s.zero, s.zeroDirty, f.id);
      if k != -1 {
        items := items[f.id := items[f.id].(location := f.location)];
        var e := s.zero[k].(generation := generation);
        if f.putWeight > 0 {
          slots := slots[i := s.(items := s.items + [e], dirtyOrder := true,
                                 zero := RemoveFast(s.zero, k), zeroDirty := true)];
        } else {
          slots := slots[i := s.(zero := s.zero[k := e], zeroDirty := s.zeroDirty || moved)];
        }
        return;
      }
      AddNewSlotItem(i, f.id);
    }

    method RehashSlot(i: nat)
      requires i < |slots|
      modifies `slots
      ensures Contents() == RehashAt(old(Contents()), i)
    {
      var s := Rehash(items, slots[i]);
      slots := slots[i := s];
    }

    /** oio_lb_world__feed_slot_unlocked */
    method FeedSlotUnlocked(i: nat, f: Feed)
      requires i < |slots|
      modifies `items, `slots, `absMaxDist
      ensures Contents() == FeedAt(old(Contents()), i, f)
    {
      hide FeedFound, AddNew, Rehashed, MaxDist;
      slots := slots[i := slots[i].(generation := generation)];
      if f.id !in items {
        items := items[f.id := Item(f.location, f.putWeight, 0)];
        AddNewSlotItem(i, f.id);
      } else {
        if items[f.id].putWeight != f.putWeight {
          slots := slots[i := slots[i].(dirtyWeights := true)];
        }
        items := items[f.id := items[f.id].(putWeight := f.putWeight)];
        FeedKnown(i, f);
      }
      if slots[i].rehashOnUpdate && NeedsRehash(slots[i]) {
        RehashSlot(i);
      }
      if absMaxDist < MaxDist(f.location) {
        absMaxDist := MaxDist(f.location);
      }
    }

    /** oio_lb_world__feed_slot */
    method FeedSlot(name: Name, f: Feed)
      requires Valid()
      modifies this
      ensures Valid() && ops == old(ops) + [FeedOne(name, f)]
      ensures Contents() == Step(old(Contents()), FeedOne(name, f))
    {
      hide FeedAt, Run;
      var i := Lookup(slots, name);
      if i >= 0 {
        FeedSlotUnlocked(i, f);
      }
      Record(FeedOne(name, f), old(Contents()));
    }

    /** oio_lb_world__feed_slot_with_list */
    method FeedSlotWithList(name: Name, feeds: seq<Feed>)
      requires Valid()
      modifies this
      ensures Valid() && ops == old(ops) + [FeedList(name, feeds)]
      ensures Contents() == Step(old(Contents()), FeedList(name, feeds))
    {
      hide FeedAt, Run;
      var i := Lookup(slots, name);
      if i >= 0 {
        var k := 0;
        while k < |feeds|
          modifies `items, `slots, `absMaxDist
          invariant 0 <= k <= |feeds| && i < |slots|
          invariant Contents() == FeedAll(old(Contents()), i, feeds[..k])
        {
          assert feeds[..k + 1][..k] == feeds[..k];
          FeedSlotUnlocked(i, feeds[k]);
          k := k + 1;
        }
        assert feeds[..k] == feeds;
        RehashSlot(i);
      }
      Record(FeedList(name, feeds), old(Contents()));
    }

    /** oio_lb_world__increment_generation */
    method IncrementGeneration()
      requires Valid()
      modifies `generation, `ops
      ensures Valid() && ops == old(ops) + [NextGeneration]
      ensures Contents() == Step(old(Contents()), NextGeneration)
    {
      hide Run;
      generation := (generation + 1) % WORD;
      Record(NextGeneration, old(Contents()));
    }

    /** oio_lb_world__rehash_all_slots */
    method RehashAllSlots()
      requires Valid()
      modifies `slots, `ops
      ensures Valid() && ops == old(ops) + [RehashAll]
      ensures Contents() == Step(old(Contents()), RehashAll)
      ensures |slots| == |old(slots)|
      ensures forall i :: 0 <= i < |slots| ==> !NeedsRehash(slots[i]) && SameEntries(old(slots)[i], slots[i])
      ensures Ready(Contents()) <==> Sized(old(Contents()))
    {
      hide Rehashed, Run, Ready, Sized, SameEntries;
      RehashAllClears(Contents());
      RehashedIsReady(Contents());
      var k := 0;
      while k < |slots|
        modifies `slots
        invariant 0 <= k <= |slots| == |old(slots)|
        invariant forall j :: 0 <= j < k ==> slots[j] == RehashIfNeeded(items, old(slots)[j])
        invariant forall j :: k <= j < |slots| ==> slots[j] == old(slots)[j]
      {
        if NeedsRehash(slots[k]) {
          RehashSlot(k);
        }
        k := k + 1;
      }
      Record(RehashAll, old(Contents()));
    }

    /** The purge of one slot, in _world_purge_slot_items. */
    method PurgeOneSlot(k: nat, age: nat)
      requires k < |slots|
      modifies `items, `slots
      ensures
        var r := old(PurgeSlot(items, slots[k], generation, age));
        Contents() == old(Contents()).(items := r.0, slots := old(slots)[k := r.1])
    {
      hide PurgeList, Rehashed;
      var s := slots[k];
      var kept, zero;
      items, kept := PurgeSlotItems(items, s.items, generation, age);
      var fewer := |kept| != |s.items|;
      s := s.(items := kept, dirtyWeights := s.dirtyWeights || fewer, dirtyOrder := s.dirtyOrder || fewer);
      items, zero := PurgeSlotItems(items, s.zero, generation, age);
      s := s.(zero := zero, zeroDirty := s.zeroDirty || |zero| != |s.zero|);
      slots := slots[k := s];
      if NeedsRehash(s) {
        RehashSlot(k);
      }
    }

    /** _world_purge_slots */
    method PurgeSlots(age: nat)
      modifies `items, `slots
      ensures
        var d := old(DropSlots(items, slots, generation, age));
        Contents() == old(Contents()).(items := d.0, slots := d.1)
    {
      hide FlushList, Delta;
      var kept: seq<Slot> := [];
      var k := 0;
      while k < |slots|
        modifies this`items
        invariant 0 <= k <= |slots|
        invariant (items, kept) == DropSlots(old(items), slots[..k], generation, age)
      {
        assert slots[..k + 1][..k] == slots[..k];
        if Delta(slots[k].generation, generation) > age {
          items := FlushSlotItems(items, slots[k].items);
          items := FlushSlotItems(items, slots[k].zero);
        } else {
          kept := kept + [slots[k]];
        }
        k := k + 1;
      }
      assert slots[..k] == slots;
      slots := kept;
    }

    /** oio_lb_world__purge_old_generations */
    method PurgeOldGenerations()
      requires Valid()
      modifies `items, `slots, `ops
      ensures Valid() && ops == old(ops) + [PurgeOld]
      ensures Contents() == Step(old(Contents()), PurgeOld)
    {
      hide PurgeSlot, DropSlots, Run;
      var k := 0;
      while k < |slots|
        modifies `items, `slots
        invariant 0 <= k <= |slots|
        invariant PurgeItems(items, slots, k, generation, 0) == PurgeItems(old(items), old(slots), 0, generation, 0)
      {
        PurgeOneSlot(k, 0);
        k := k + 1;
      }
      PurgeSlots(0);
      Record(PurgeOld, old(Contents()));
    }

    /** oio_lb_world__flush */
    method FlushAll()
      requires Valid()
      modifies `items, `slots, `ops
      ensures Valid() && ops == old(ops) + [Flush]
      ensures Contents() == Step(old(Contents()), Flush)
      ensures items == map[] && |slots| == |old(slots)|
      ensures forall i :: 0 <= i < |slots| ==> slots[i].name == old(slots)[i].name && slots[i].items == slots[i].zero == []
    {
      hide Run, FlushList;
      var k := 0;
      while k < |slots|
        modifies `items, `slots
        invariant 0 <= k <= |slots| == |old(slots)|
        invariant forall j :: 0 <= j < k ==> slots[j] == Emptied(old(slots)[j])
        invariant forall j :: k <= j < |slots| ==> slots[j] == old(slots)[j]
      {
        items := FlushSlotItems(items, slots[k].items);
        items := FlushSlotItems(items, slots[k].zero);
        slots := slots[k := slots[k].(items := [], zero := [])];
        k := k + 1;
      }
      items := map[];
      Record(Flush, old(Contents()));
    }

    /** A poll of a pool of this world. Its answer is a safe placement. If the feeds were harmless and all slots are
        ready, each pick is the best one, the known locations are those that the slots of the target do have, and a
        refusal means that some target cannot be served, with the fair maxima too if they were tried. */
    method Patch(pool: Pool, avoids: seq<Loc>, known: seq<Loc>, tryFair: bool, forceFair: bool, bypass: bool,
                 attempts: nat, random: (bool, nat) -> nat)
      returns (a: Answer, ghost maxima: Maxima, ghost run: seq<Choice>, ghost fair: Option<seq<Choice>>)
      requires Valid() && pool.minDist >= 1
      ensures a.BadRequest? <==> |Listed(known)| >= |pool.targets|
      ensures fair.Some? ==> tryFair && !forceFair && pool.fairMax[0] != 0
      ensures tryFair && !forceFair && pool.fairMax[0] != 0 && fair.None? ==> a.Satisfied?
      ensures fair.Some? && !a.BadRequest? ==>
        Failed(Contents(), pool, avoids, Listed(known), pool.fairMax, bypass, Chance(attempts, Numbers(random, true)), fair.value)
      ensures
        var first := tryFair && !forceFair && pool.fairMax[0] != 0 && fair.None?;
        && maxima == (if first || forceFair then pool.fairMax else pool.strictMax)
        && (a.Satisfied? ==>
          Attempted(Contents(), pool, avoids, Listed(known), maxima, bypass, Chance(attempts, Numbers(random, first)), run))
        && (a.NotSatisfiable? ==>
          Failed(Contents(), pool, avoids, Listed(known), maxima, bypass, Chance(attempts, Numbers(random, first)), run))
      ensures a.Satisfied? ==> Safe(Contents(), pool, avoids, Listed(known), maxima, a.selection)
      ensures a.Satisfied? ==> Answers(run, MinDist(absMaxDist, pool.initialDist), a.selection)
      ensures a.Satisfied? && Located(Contents()) ==>
        Spread(a.selection, pool.minDist, MinDist(absMaxDist, pool.initialDist))
      ensures Walk.PrimesArePrime() && CautiousRun(EMPTY, ops) && Ready(Contents()) ==>
        AllSorted(Contents()) && AllWalkable(Contents()) && AllWeighted(Contents())
    {
      hide *;
      if Walk.PrimesArePrime() && CautiousRun(EMPTY, ops) && Ready(Contents()) { ContentsAre(); ReadyIsWalkable(ops); }
      a, maxima, run, fair := PatchPool(Contents(), pool, avoids, known, tryFair, forceFair, bypass, attempts, random);
      MaxDistIs();
    }

    lemma ContentsAre()
      requires Valid()
      ensures Contents() == Run(EMPTY, ops)
    {
    }

    lemma MaxDistIs()
      ensures Contents().absMaxDist == absMaxDist
    {
    }
  }
}
