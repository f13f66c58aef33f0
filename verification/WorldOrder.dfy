/**
 Two habits of the callers of the load balancer that keep every index right: an item is
 fed to one slot only, its home, or it is always fed with the same location and weight.
 */
module WorldOrder {
  import opened Location
  import opened Slots
  import opened Feeding
  import opened Purging
  import opened Sharing
  import opened WorldSpec
  import opened WorldIndex

  /** The home of an item, or where it is and what it weighs for all slots. */
  datatype Habit = Home(name: Name) | Fixed(location: Loc, weight: Weight)

  ghost predicate Follows(habit: Id -> Habit, name: Name, f: Feed) {
    match habit(f.id)
    case Home(n) => n == name
    case Fixed(loc, weight) => f.location == loc && f.putWeight == weight
  }

  ghost predicate Orderly(op: Op, habit: Id -> Habit) {
    && (op.FeedOne? ==> Follows(habit, op.name, op.feed))
    && (op.FeedList? ==> forall k :: 0 <= k < |op.feeds| ==> Follows(habit, op.name, op.feeds[k]))
  }

  ghost predicate AtHome(s: Slot, habit: Id -> Habit) {
    forall id :: Refs(s, id) > 0 && habit(id).Home? ==> habit(id).name == s.name
  }

  ghost predicate AllHome(slots: seq<Slot>, habit: Id -> Habit) {
    forall i :: 0 <= i < |slots| ==> AtHome(slots[i], habit)
  }

  ghost predicate Steady(items: Items, habit: Id -> Habit) {
    forall id :: id in items && habit(id).Fixed? ==>
      LocOf(items, id) == habit(id).location && WeightOf(items, id) == habit(id).weight
  }

  ghost predicate InOrder(w: State, habit: Id -> Habit) {
    Indexes(w) && AllHome(w.slots, habit) && Steady(w.items, habit)
  }

  lemma AbsentHarmless(items: Items, s: Slot, id: Id, loc: Loc, weight: Weight)
    requires Refs(s, id) == 0
    ensures Harmless(items, s, id, loc, weight)
  {
    AddAbsent(s, id);
  }

  /** What does not change does no harm. */
  lemma SteadyHarmless(items: Items, s: Slot, id: Id)
    requires Sound(items, s) && id in items
    ensures Harmless(items, s, id, LocOf(items, id), WeightOf(items, id))
  {
    hide Placed, Indexed, Harmless;
    ForeignStays(items, items, s, id);
  }

  lemma UnknownAbsent(items: Items, s: Slot, id: Id)
    requires Placed(items, s) && id !in items
    ensures Refs(s, id) == 0
  {
    hide Once;
    NoRefs(s, id);
  }

  lemma FollowsSpares(w: State, i: nat, f: Feed, habit: Id -> Habit)
    requires i < |w.slots| && InOrder(w, habit) && Follows(habit, w.slots[i].name, f)
    ensures Spares(w, i, f)
  {
    hide Placed, Indexed, Refs, Harmless;
    var loc := StoredLocation(w.items, w.slots[i], f);
    forall j | 0 <= j < |w.slots| && j != i ensures Harmless(w.items, w.slots[j], f.id, loc, f.putWeight) {
      assert Sound(w.items, w.slots[j]);
      if f.id !in w.items {
        UnknownAbsent(w.items, w.slots[j], f.id);
        AbsentHarmless(w.items, w.slots[j], f.id, loc, f.putWeight);
      } else if habit(f.id).Home? {
        assert AtHome(w.slots[j], habit) && w.slots[i].name != w.slots[j].name;
        AbsentHarmless(w.items, w.slots[j], f.id, loc, f.putWeight);
      } else {
        SteadyHarmless(w.items, w.slots[j], f.id);
      }
    }
  }

  lemma FeedHome(items: Items, generation: Generation, s: Slot, f: Feed, habit: Id -> Habit)
    requires Sound(items, s) && AtHome(s, habit) && Steady(items, habit) && Follows(habit, s.name, f)
    ensures
      var r := FeedSlot(items, generation, s, f);
      AtHome(r.1, habit) && Steady(r.0, habit)
  {
    hide Placed, Indexed, FeedSlot, Refs;
    FeedKeeps(items, generation, s, f);
  }

  lemma FeedKept(w: State, i: nat, f: Feed, habit: Id -> Habit)
    requires i < |w.slots| && InOrder(w, habit) && Follows(habit, w.slots[i].name, f)
    ensures Spares(w, i, f) && InOrder(FeedAt(w, i, f), habit) && SameNames(w, FeedAt(w, i, f))
  {
    hide Spares, AtHome, Steady, FeedSlot, Sound, Follows;
    FollowsSpares(w, i, f, habit);
    FeedIndexes(w, i, f);
    FeedHome(w.items, w.generation, w.slots[i], f, habit);
  }

  lemma {:induction false} FeedAllKept(w: State, i: nat, feeds: seq<Feed>, habit: Id -> Habit, k: nat)
    requires i < |w.slots| && InOrder(w, habit) && k <= |feeds|
    requires forall m :: 0 <= m < |feeds| ==> Follows(habit, w.slots[i].name, feeds[m])
    ensures InOrder(FeedAll(w, i, feeds[..k]), habit) && SameNames(w, FeedAll(w, i, feeds[..k]))
    ensures forall m :: 0 <= m < k ==> Spares(FeedAll(w, i, feeds[..m]), i, feeds[m])
  {
    hide FeedAt, FeedAll, InOrder, Spares, Follows;
    if k == 0 {
      FeedNone(w, i);
    } else {
      FeedAllKept(w, i, feeds, habit, k - 1);
      FeedAllStep(w, i, feeds, k - 1);
      FeedKept(FeedAll(w, i, feeds[..k - 1]), i, feeds[k - 1], habit);
    }
  }

  /** What loses entries and keeps its name stays at home. */
  lemma FewerHome(s: Slot, t: Slot, habit: Id -> Habit)
    requires AtHome(s, habit) && s.name == t.name && forall id :: Refs(t, id) <= Refs(s, id)
    ensures AtHome(t, habit)
  {
    hide Refs;
  }

  lemma SameSteady(items: Items, items': Items, habit: Id -> Habit)
    requires Steady(items, habit) && Same(items, items')
    ensures Steady(items', habit)
  {
    hide LocOf, WeightOf;
  }

  lemma RehashHome(items: Items, s: Slot, habit: Id -> Habit)
    requires AtHome(s, habit)
    ensures AtHome(Rehashed(items, s), habit)
  {
    hide Rehashed, Refs, AtHome;
    forall id ensures Refs(Rehashed(items, s), id) == Refs(s, id) { RehashRefs(items, s, id); }
    RehashLabels(items, s);
    FewerHome(s, Rehashed(items, s), habit);
  }

  lemma {:induction false} PurgeItemsHome(items: Items, slots: seq<Slot>, k: nat, generation: Generation, habit: Id -> Habit)
    requires AllHome(slots, habit) && Steady(items, habit)
    ensures
      var r := PurgeItems(items, slots, k, generation, 0);
      AllHome(r.1, habit) && Steady(r.0, habit)
    decreases |slots| - k
  {
    hide PurgeSlot, Refs, AtHome, Steady, Same, Balance;
    if k < |slots| {
      var r := PurgeSlot(items, slots[k], generation, 0);
      forall id ensures Refs(r.1, id) <= Refs(slots[k], id) { PurgeSlotIs(items, slots[k], generation, 0, id); }
      PurgeSlotSame(items, slots[k], generation, 0);
      FewerHome(slots[k], r.1, habit);
      SameSteady(items, r.0, habit);
      PurgeItemsHome(r.0, slots[k := r.1], k + 1, generation, habit);
    }
  }

  lemma PurgeHome(w: State, habit: Id -> Habit)
    requires AllHome(w.slots, habit) && Steady(w.items, habit)
    ensures AllHome(Purge(w).slots, habit) && Steady(Purge(w).items, habit)
  {
    hide PurgeItems, DropSlots, Delta, Same, Steady, AtHome;
    PurgeItemsHome(w.items, w.slots, 0, w.generation, habit);
    var r := PurgeItems(w.items, w.slots, 0, w.generation, 0);
    DropSound(r.0, r.1, w.generation, 0);
    var d := DropSlots(r.0, r.1, w.generation, 0);
    SameSteady(r.0, d.0, habit);
    forall i | 0 <= i < |d.1| ensures AtHome(d.1[i], habit) { assert d.1[i] in r.1; }
  }

  lemma NewHome(name: Name, habit: Id -> Habit)
    ensures AtHome(NewSlot(name), habit)
  {
    assert forall id :: Refs(NewSlot(name), id) == 0;
  }

  lemma EmptiedHome(s: Slot, habit: Id -> Habit)
    ensures AtHome(Emptied(s), habit)
  {
    assert forall id :: Refs(Emptied(s), id) == 0;
  }

  lemma StepKept(w: State, op: Op, habit: Id -> Habit)
    requires InOrder(w, habit) && Orderly(op, habit)
    ensures Cautious(w, op) && InOrder(Step(w, op), habit)
  {
    hide Indexes, AtHome, Steady, Spares, FeedAt, FeedAll, RehashAt, Purge, Follows;
    assert Cautious(w, op) && AllHome(Step(w, op).slots, habit) && Steady(Step(w, op).items, habit) by {
      match op {
        case CreateSlot(name) => NewHome(name, habit);
        case FeedOne(name, f) =>
          if Lookup(w.slots, name) >= 0 { FeedKept(w, Lookup(w.slots, name), f, habit); }
        case FeedList(name, feeds) =>
          if Lookup(w.slots, name) >= 0 { FeedListKept(w, Lookup(w.slots, name), feeds, habit); }
        case PurgeOld => PurgeHome(w, habit);
        case RehashAll => RehashAllHome(w, habit);
        case Flush =>
          forall i | 0 <= i < |w.slots| ensures AtHome(Emptied(w.slots[i]), habit) { EmptiedHome(w.slots[i], habit); }
          NoneSteady(habit);
        case NextGeneration =>
      }
    }
    StepIndexes(w, op);
  }

  lemma NoneSteady(habit: Id -> Habit)
    ensures Steady(map[], habit)
  {
  }

  lemma FeedListKept(w: State, i: nat, feeds: seq<Feed>, habit: Id -> Habit)
    requires i < |w.slots| && InOrder(w, habit)
    requires forall m :: 0 <= m < |feeds| ==> Follows(habit, w.slots[i].name, feeds[m])
    ensures
      var v := RehashAt(FeedAll(w, i, feeds), i);
      SparesAll(w, i, feeds) && AllHome(v.slots, habit) && Steady(v.items, habit)
  {
    hide Indexes, AtHome, Steady, Spares, FeedAt, FeedAll, Rehashed, Follows;
    FeedAllKept(w, i, feeds, habit, |feeds|);
    assert feeds[..|feeds|] == feeds;
    var v := FeedAll(w, i, feeds);
    RehashHome(v.items, v.slots[i], habit);
  }

  lemma RehashAllHome(w: State, habit: Id -> Habit)
    requires AllHome(w.slots, habit)
    ensures AllHome(Step(w, RehashAll).slots, habit)
  {
    hide AtHome, Rehashed, NeedsRehash;
    forall i | 0 <= i < |w.slots| ensures AtHome(RehashIfNeeded(w.items, w.slots[i]), habit) {
      RehashHome(w.items, w.slots[i], habit);
    }
  }

  lemma {:induction false} RunKept(ops: seq<Op>, habit: Id -> Habit, k: nat)
    requires (forall m :: 0 <= m < |ops| ==> Orderly(ops[m], habit)) && k <= |ops|
    ensures InOrder(Run(EMPTY, ops[..k]), habit)
    ensures forall m :: 0 <= m < k ==> Cautious(Run(EMPTY, ops[..m]), ops[m])
  {
    hide Step, Run, InOrder, Orderly, Cautious;
    if k == 0 {
      RunNone(EMPTY);
      EmptyKept(habit);
    } else {
      RunKept(ops, habit, k - 1);
      RunStep(EMPTY, ops, k - 1);
      StepKept(Run(EMPTY, ops[..k - 1]), ops[k - 1], habit);
    }
  }

  lemma EmptyKept(habit: Id -> Habit)
    ensures InOrder(EMPTY, habit)
  {
  }

  /** Runs that feed each item to its home, or always alike, keep every index right. */
  lemma OrderlyIsCautious(ops: seq<Op>, habit: Id -> Habit)
    requires forall m :: 0 <= m < |ops| ==> Orderly(ops[m], habit)
    ensures CautiousRun(EMPTY, ops) && SurvivesRun(EMPTY, ops)
  {
    hide Run, Orderly, Cautious, Survives;
    RunKept(ops, habit, |ops|);
    RunIndexes(ops);
  }
}
