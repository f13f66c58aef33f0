/**
 The index of every slot over any run (core/lb.c). An item is shared by the slots that
 have it, and only the slot being fed has its flags raised: when exactly the indexes of
 all slots survive a run, and what they then say.
 */
module WorldIndex {
  import opened Location
  import opened Counters
  import opened Slots
  import opened Feeding
  import opened Purging
  import opened Sharing
  import opened WorldSpec
  import Draw
  import Walk

  ghost predicate Sound(items: Items, s: Slot) { Placed(items, s) && Indexed(items, s) }

  ghost predicate Distinct(slots: seq<Slot>) {
    forall i, j :: 0 <= i < j < |slots| ==> slots[i].name != slots[j].name
  }

  ghost predicate AllSound(items: Items, slots: seq<Slot>) {
    forall i :: 0 <= i < |slots| ==> Sound(items, slots[i])
  }

  ghost predicate Indexes(w: State) { Distinct(w.slots) && AllSound(w.items, w.slots) }

  /** The slots of two worlds have the same names. */
  ghost predicate SameNames(v: State, w: State) {
    && |v.slots| == |w.slots| && v.generation == w.generation
    && forall i :: 0 <= i < |v.slots| ==> v.slots[i].name == w.slots[i].name
  }

  lemma SameSlot(items: Items, items': Items, s: Slot)
    requires Sound(items, s) && Same(items, items')
    ensures Sound(items', s)
  {
    hide Placed, Indexed;
    SameAlike(items, items', s);
  }

  // ---- Feeds -----------------------------------------------------------------------------------

  /** A feed to a slot is harmless to the other slots. */
  ghost predicate Spares(w: State, i: nat, f: Feed)
    requires i < |w.slots|
  {
    forall j :: 0 <= j < |w.slots| && j != i ==>
      Harmless(w.items, w.slots[j], f.id, StoredLocation(w.items, w.slots[i], f), f.putWeight)
  }

  /** A feed keeps the index of all slots exactly when it is harmless to the slots that it is not for. */
  lemma FeedIndexes(w: State, i: nat, f: Feed)
    requires i < |w.slots| && Indexes(w)
    ensures Indexes(FeedAt(w, i, f)) <==> Spares(w, i, f)
    ensures SameNames(w, FeedAt(w, i, f))
  {
    hide Sound, FeedSlot, StoredLocation, Harmless;
    var r := FeedSlot(w.items, w.generation, w.slots[i], f);
    FeedSound(w.items, w.generation, w.slots[i], f);
    var v := FeedAt(w, i, f);
    forall j | 0 <= j < |w.slots| && j != i
      ensures Sound(r.0, w.slots[j]) <==>
        Harmless(w.items, w.slots[j], f.id, StoredLocation(w.items, w.slots[i], f), f.putWeight)
    {
      OtherSlot(w.items, r.0, w.slots[j], f, StoredLocation(w.items, w.slots[i], f));
    }
    if Indexes(v) {
      forall j | 0 <= j < |w.slots| && j != i ensures Sound(r.0, w.slots[j]) { assert Sound(v.items, v.slots[j]); }
    }
  }

  lemma FeedSound(items: Items, generation: Generation, s: Slot, f: Feed)
    requires Sound(items, s)
    ensures
      var r := FeedSlot(items, generation, s, f);
      && Sound(r.0, r.1) && Others(items, r.0, f.id) && r.1.name == s.name
      && f.id in r.0 && r.0[f.id].location == StoredLocation(items, s, f) && r.0[f.id].putWeight == f.putWeight
  {
    hide Placed, Indexed, FeedSlot, Others, StoredLocation;
    FeedKeeps(items, generation, s, f);
  }

  lemma OtherSlot(items: Items, items': Items, s: Slot, f: Feed, loc: Loc)
    requires Sound(items, s) && Others(items, items', f.id)
    requires f.id in items' && items'[f.id].location == loc && items'[f.id].putWeight == f.putWeight
    ensures Sound(items', s) <==> Harmless(items, s, f.id, loc, f.putWeight)
  {
    hide Placed, Indexed, Others, Harmless;
    ForeignStays(items, items', s, f.id);
  }

  /** Each feed of a list is harmless, where the feeds before it have led. */
  ghost predicate SparesAll(w: State, i: nat, feeds: seq<Feed>)
    requires i < |w.slots|
  {
    forall k :: 0 <= k < |feeds| ==> Spares(FeedAll(w, i, feeds[..k]), i, feeds[k])
  }

  ghost predicate IndexesAll(w: State, i: nat, feeds: seq<Feed>)
    requires i < |w.slots|
  {
    forall k :: 0 <= k <= |feeds| ==> Indexes(FeedAll(w, i, feeds[..k]))
  }

  lemma PrefixOf<T>(s: seq<T>, k: nat)
    requires k < |s|
    ensures s[..k + 1][..|s[..k + 1]| - 1] == s[..k] && s[..k + 1][k] == s[k]
  {
  }

  lemma FeedAllStep(w: State, i: nat, feeds: seq<Feed>, k: nat)
    requires i < |w.slots| && k < |feeds|
    ensures FeedAll(w, i, feeds[..k + 1]) == FeedAt(FeedAll(w, i, feeds[..k]), i, feeds[k])
  {
    hide FeedAt;
    PrefixOf(feeds, k);
  }

  lemma {:induction false} FeedAllSpares(w: State, i: nat, feeds: seq<Feed>, k: nat)
    requires i < |w.slots| && Indexes(w) && SparesAll(w, i, feeds) && k <= |feeds|
    ensures Indexes(FeedAll(w, i, feeds[..k])) && SameNames(w, FeedAll(w, i, feeds[..k]))
  {
    hide FeedAt, FeedAll, Indexes, Spares;
    if k == 0 {
      FeedNone(w, i);
    } else {
      FeedAllSpares(w, i, feeds, k - 1);
      FeedAllStep(w, i, feeds, k - 1);
      FeedIndexes(FeedAll(w, i, feeds[..k - 1]), i, feeds[k - 1]);
    }
  }

  lemma FeedNone(w: State, i: nat)
    requires i < |w.slots|
    ensures FeedAll(w, i, []) == w
  {
  }

  /** A list of feeds keeps the index at each step exactly when each feed is harmless. */
  lemma FeedAllIndexes(w: State, i: nat, feeds: seq<Feed>)
    requires i < |w.slots| && Indexes(w)
    ensures IndexesAll(w, i, feeds) <==> SparesAll(w, i, feeds)
  {
    hide FeedAt, FeedAll, Indexes, Spares;
    if SparesAll(w, i, feeds) {
      forall k | 0 <= k <= |feeds| ensures Indexes(FeedAll(w, i, feeds[..k])) { FeedAllSpares(w, i, feeds, k); }
    }
    if IndexesAll(w, i, feeds) {
      forall k | 0 <= k < |feeds| ensures Spares(FeedAll(w, i, feeds[..k]), i, feeds[k]) {
        FeedAllStep(w, i, feeds, k);
        FeedIndexes(FeedAll(w, i, feeds[..k]), i, feeds[k]);
        assert Indexes(FeedAll(w, i, feeds[..k + 1]));
      }
    }
  }

  // ---- Rehash and purge --------------------------------------------------------------------------

  lemma RehashSound(items: Items, s: Slot)
    requires Sound(items, s)
    ensures Sound(items, Rehashed(items, s)) && Rehashed(items, s).name == s.name
  {
    hide Placed, Indexed, Rehashed;
    RehashIndexes(items, s);
    RehashPlaces(items, s);
    RehashLabels(items, s);
  }

  /** Two slots with the same entries in each list, but for the accumulated weights. */
  ghost predicate SameEntries(s: Slot, r: Slot) {
    && r.name == s.name && |r.items| == |s.items| && |r.zero| == |s.zero|
    && forall f :: Blind(f) ==> Hits(r.items, f) == Hits(s.items, f) && Hits(r.zero, f) == Hits(s.zero, f)
  }

  lemma RehashKeeps(items: Items, s: Slot)
    ensures SameEntries(s, RehashIfNeeded(items, s)) && !NeedsRehash(RehashIfNeeded(items, s))
    ensures
      var r := RehashIfNeeded(items, s);
      SumTo(items, r.items, |r.items|) == SumTo(items, s.items, |s.items|)
  {
    hide Rehashed, SumTo, Hits;
    if NeedsRehash(s) {
      RehashClears(items, s);
      RehashLabels(items, s);
      forall f | Blind(f)
        ensures Hits(Rehashed(items, s).items, f) == Hits(s.items, f) && Hits(Rehashed(items, s).zero, f) == Hits(s.zero, f)
      {
        RehashHits(items, s, f);
      }
    }
  }

  /** After a rehash of all slots, from any world, none needs one, and each has the entries that it had. */
  lemma RehashAllClears(w: State)
    ensures
      var r := Step(w, RehashAll);
      && |r.slots| == |w.slots| && r == w.(slots := r.slots)
      && forall i :: 0 <= i < |w.slots| ==> !NeedsRehash(r.slots[i]) && SameEntries(w.slots[i], r.slots[i])
  {
    hide RehashIfNeeded, SameEntries, NeedsRehash, SumTo;
    forall i | 0 <= i < |w.slots|
      ensures !NeedsRehash(RehashIfNeeded(w.items, w.slots[i])) && SameEntries(w.slots[i], RehashIfNeeded(w.items, w.slots[i]))
    {
      RehashKeeps(w.items, w.slots[i]);
    }
  }

  lemma {:induction false} PurgeItemsSound(items: Items, slots: seq<Slot>, k: nat, generation: Generation, age: nat)
    requires k <= |slots| && AllSound(items, slots)
    ensures
      var r := PurgeItems(items, slots, k, generation, age);
      && |r.1| == |slots| && AllSound(r.0, r.1)
      && (forall i :: 0 <= i < |slots| ==> SameLabel(slots[i], r.1[i]))
      && (forall i :: k <= i < |slots| ==> !NeedsRehash(r.1[i]))
      && (forall i :: 0 <= i < k ==> r.1[i] == slots[i])
    decreases |slots| - k
  {
    hide Sound, PurgeSlot, NeedsRehash;
    if k < |slots| {
      var r := PurgeSlot(items, slots[k], generation, age);
      PurgeSound(items, slots[k], generation, age);
      forall j | 0 <= j < |slots| && j != k ensures Sound(r.0, slots[j]) {
        SameSlot(items, r.0, slots[j]);
      }
      PurgeItemsSound(r.0, slots[k := r.1], k + 1, generation, age);
    }
  }

  lemma PurgeSound(items: Items, s: Slot, generation: Generation, age: nat)
    requires Sound(items, s)
    ensures
      var r := PurgeSlot(items, s, generation, age);
      Sound(r.0, r.1) && Same(items, r.0) && SameLabel(s, r.1) && !NeedsRehash(r.1)
  {
    hide Placed, Indexed, PurgeSlot, NeedsRehash, Same;
    PurgeSlotKeeps(items, s, generation, age);
    PurgeSlotSame(items, s, generation, age);
  }

  lemma {:induction false} DropSound(items: Items, slots: seq<Slot>, generation: Generation, age: nat)
    ensures
      var r := DropSlots(items, slots, generation, age);
      && Same(items, r.0)
      && (forall s :: s in r.1 <==> s in slots && Delta(s.generation, generation) <= age)
      && (Distinct(slots) ==> Distinct(r.1))
  {
    hide FlushSlot, Delta, LocOf, WeightOf;
    if slots != [] {
      var n := |slots| - 1;
      DropSound(items, slots[..n], generation, age);
      var r := DropSlots(items, slots[..n], generation, age);
      FlushSame(r.0, slots[n]);
      assert slots == slots[..n] + [slots[n]];
    }
  }

  lemma FlushSame(items: Items, s: Slot)
    ensures Same(items, FlushSlot(items, s).0)
  {
    FlushListSame(items, s.items);
    FlushListSame(FlushList(items, s.items), s.zero);
  }

  lemma {:induction false} FlushListSame(items: Items, s: seq<Entry>)
    ensures Same(items, FlushList(items, s))
  {
    if s != [] { FlushListSame(items, s[..|s| - 1]); }
  }

  lemma PurgeIndexes(w: State)
    requires Indexes(w)
    ensures Indexes(Purge(w))
    ensures forall i :: 0 <= i < |Purge(w).slots| ==> !NeedsRehash(Purge(w).slots[i])
  {
    hide Sound, PurgeItems, DropSlots, Delta, NeedsRehash, Same;
    PurgeItemsSound(w.items, w.slots, 0, w.generation, 0);
    var r := PurgeItems(w.items, w.slots, 0, w.generation, 0);
    DropSound(r.0, r.1, w.generation, 0);
    var d := DropSlots(r.0, r.1, w.generation, 0);
    forall i | 0 <= i < |d.1| ensures Sound(d.0, d.1[i]) && !NeedsRehash(d.1[i]) {
      assert d.1[i] in r.1;
      SameSlot(r.0, d.0, d.1[i]);
    }
  }

  lemma NewSound(items: Items, name: Name)
    ensures Sound(items, NewSlot(name))
  {
    assert forall id :: Refs(NewSlot(name), id) == 0;
  }

  lemma EmptiedSound(items: Items, s: Slot)
    ensures Sound(items, Emptied(s))
  {
    assert forall id :: Refs(Emptied(s), id) == 0;
  }

  // ---- Runs ------------------------------------------------------------------------------------

  /** The feeds of an operation are harmless to the slots that they are not for. */
  ghost predicate Cautious(w: State, op: Op) {
    && (op.FeedOne? && Lookup(w.slots, op.name) >= 0 ==> Spares(w, Lookup(w.slots, op.name), op.feed))
    && (op.FeedList? && Lookup(w.slots, op.name) >= 0 ==> SparesAll(w, Lookup(w.slots, op.name), op.feeds))
  }

  /** The index of every slot survives an operation, and each feed of a list. */
  ghost predicate Survives(w: State, op: Op) {
    && Indexes(Step(w, op))
    && (op.FeedList? && Lookup(w.slots, op.name) >= 0 ==> IndexesAll(w, Lookup(w.slots, op.name), op.feeds))
  }

  lemma FeedListIndexes(w: State, i: nat, feeds: seq<Feed>)
    requires i < |w.slots| && Indexes(w) && SparesAll(w, i, feeds)
    ensures Indexes(RehashAt(FeedAll(w, i, feeds), i))
  {
    hide FeedAll, Sound, Rehashed, Spares;
    FeedAllSpares(w, i, feeds, |feeds|);
    assert feeds[..|feeds|] == feeds;
    var v := FeedAll(w, i, feeds);
    RehashSound(v.items, v.slots[i]);
  }

  lemma {:induction false} StepIndexes(w: State, op: Op)
    requires Indexes(w)
    ensures Survives(w, op) <==> Cautious(w, op)
  {
    hide Sound, FeedAt, FeedAll, RehashAt, Purge, Rehashed, NeedsRehash, Spares, SparesAll, IndexesAll;
    match op {
      case CreateSlot(name) => NewSound(w.items, name);
      case FeedOne(name, f) =>
        if Lookup(w.slots, name) >= 0 { FeedIndexes(w, Lookup(w.slots, name), f); }
      case FeedList(name, feeds) =>
        var i := Lookup(w.slots, name);
        if i >= 0 {
          FeedAllIndexes(w, i, feeds);
          if SparesAll(w, i, feeds) { FeedListIndexes(w, i, feeds); }
        }
      case PurgeOld => PurgeIndexes(w);
      case RehashAll =>
        forall i | 0 <= i < |w.slots|
          ensures Sound(w.items, RehashIfNeeded(w.items, w.slots[i]))
          ensures RehashIfNeeded(w.items, w.slots[i]).name == w.slots[i].name
        {
          RehashSound(w.items, w.slots[i]);
        }
      case Flush =>
        forall i | 0 <= i < |w.slots| ensures Sound(map[], Emptied(w.slots[i])) { EmptiedSound(map[], w.slots[i]); }
      case NextGeneration =>
    }
  }

  ghost predicate CautiousRun(w: State, ops: seq<Op>) {
    forall k :: 0 <= k < |ops| ==> Cautious(Run(w, ops[..k]), ops[k])
  }

  ghost predicate SurvivesRun(w: State, ops: seq<Op>) {
    forall k :: 0 <= k < |ops| ==> Survives(Run(w, ops[..k]), ops[k])
  }

  lemma RunStep(w: State, ops: seq<Op>, k: nat)
    requires k < |ops|
    ensures Run(w, ops[..k + 1]) == Step(Run(w, ops[..k]), ops[k])
  {
    hide Step;
    PrefixOf(ops, k);
  }

  lemma {:induction false} RunPrefix(w: State, ops: seq<Op>, k: nat)
    requires Indexes(w) && (CautiousRun(w, ops) || SurvivesRun(w, ops)) && k <= |ops|
    ensures Indexes(Run(w, ops[..k]))
  {
    hide Step, Run, Indexes, Cautious;
    if k == 0 {
      RunNone(w);
    } else {
      RunPrefix(w, ops, k - 1);
      RunStep(w, ops, k - 1);
      StepIndexes(Run(w, ops[..k - 1]), ops[k - 1]);
    }
  }

  lemma RunNone(w: State)
    ensures Run(w, []) == w
  {
  }

  /** From a world whose indexes are right, they survive each step of a run exactly when each of its
      feeds is harmless to the slots that it is not for. */
  lemma RunSurvives(w: State, ops: seq<Op>)
    requires Indexes(w)
    ensures SurvivesRun(w, ops) <==> CautiousRun(w, ops)
    ensures CautiousRun(w, ops) ==> Indexes(Run(w, ops))
  {
    hide Step, Run, Indexes, Cautious, Survives;
    if CautiousRun(w, ops) || SurvivesRun(w, ops) {
      forall k | 0 <= k < |ops| ensures Survives(Run(w, ops[..k]), ops[k]) <==> Cautious(Run(w, ops[..k]), ops[k]) {
        RunPrefix(w, ops, k);
        StepIndexes(Run(w, ops[..k]), ops[k]);
      }
      RunPrefix(w, ops, |ops|);
      assert ops[..|ops|] == ops;
    }
  }

  lemma RunIndexes(ops: seq<Op>)
    ensures SurvivesRun(EMPTY, ops) <==> CautiousRun(EMPTY, ops)
    ensures CautiousRun(EMPTY, ops) ==> Indexes(Run(EMPTY, ops))
  {
    hide Step, Run, CautiousRun, SurvivesRun, Sound;
    RunSurvives(EMPTY, ops);
  }

  // ---- What the index says ---------------------------------------------------------------------

  lemma {:induction false} SumGrows(items: Items, s: seq<Entry>, m: nat, n: nat)
    requires m < n <= |s| && forall i :: 0 <= i < n ==> WeightOf(items, s[i].id) > 0
    ensures SumTo(items, s, m) < SumTo(items, s, n)
  {
    if m < n - 1 { SumGrows(items, s, m, n - 1); }
  }

  /** While the sum of the weights fits, the accumulated weights are exact and strictly increasing. */
  lemma Weights(items: Items, s: Slot)
    requires Placed(items, s) && s.items != [] && Exact(items, s) && SumTo(items, s.items, |s.items|) < WORD
    ensures Draw.Increasing(Accs(s)) && Accs(s)[0] > 0 && Accs(s)[|s.items| - 1] == s.sumWeight
    ensures forall i :: 0 <= i < |s.items| ==> Draw.Weight(Accs(s), i) == WeightOf(items, s.items[i].id)
  {
    hide SumTo, Placed, Refs, WeightOf;
    forall i | 0 <= i < |s.items|
      ensures s.items[i].acc == SumTo(items, s.items, i + 1)
      ensures SumTo(items, s.items, i + 1) == SumTo(items, s.items, i) + WeightOf(items, s.items[i].id)
    {
      AccIs(items, s, i);
    }
    forall i, j | 0 <= i < j < |s.items| ensures Accs(s)[i] < Accs(s)[j] { AccsGrow(items, s, i, j); }
    SumStarts(items, s);
  }

  lemma SumStarts(items: Items, s: Slot)
    requires Placed(items, s) && s.items != []
    ensures SumTo(items, s.items, 0) == 0 && WeightOf(items, s.items[0].id) > 0
  {
  }

  lemma AccIs(items: Items, s: Slot, i: nat)
    requires Placed(items, s) && Exact(items, s) && SumTo(items, s.items, |s.items|) < WORD && i < |s.items|
    ensures s.items[i].acc == SumTo(items, s.items, i + 1)
    ensures s.sumWeight == SumTo(items, s.items, |s.items|)
    ensures SumTo(items, s.items, i + 1) == SumTo(items, s.items, i) + WeightOf(items, s.items[i].id)
  {
    hide Refs;
    assert SumTo(items, s.items, i + 1) == SumTo(items, s.items, i) + WeightOf(items, s.items[i].id);
    hide SumTo;
    if i + 1 < |s.items| { SumGrows(items, s.items, i + 1, |s.items|); }
  }

  lemma AccsGrow(items: Items, s: Slot, i: nat, j: nat)
    requires Placed(items, s) && Exact(items, s) && SumTo(items, s.items, |s.items|) < WORD && i < j < |s.items|
    ensures s.items[i].acc < s.items[j].acc
  {
    hide SumTo, Refs, Exact;
    AccIs(items, s, i);
    AccIs(items, s, j);
    SumGrows(items, s.items, i + 1, j + 1);
  }

  /** The index of a slot over any run of feeds, purges, flushes and rehashes. */
  lemma IndexHolds(ops: seq<Op>, k: nat)
    requires CautiousRun(EMPTY, ops)
    requires k < |Run(EMPTY, ops).slots|
    ensures
      var w := Run(EMPTY, ops);
      var s := w.slots[k];
      && (forall id :: Refs(s, id) <= 1)
      && (forall e :: e in s.items ==> e.id in w.items && w.items[e.id].putWeight > 0)
      && (forall e :: e in s.zero ==> e.id in w.items && w.items[e.id].putWeight == 0)
      && (s.items != [] && !NeedsRehash(s) ==>
        && Sorted(w.items, s.items) && Sorted(w.items, s.zero) && s.jump == Walk.JumpFor(|s.items|)
        && s.byLoc == Tally(Locs(w.items, s.items)) && s.locsByLevel == Lengths(s.byLoc)
        && (SumTo(w.items, s.items, |s.items|) < WORD ==> Draw.Increasing(Accs(s)) && Accs(s)[|s.items| - 1] == s.sumWeight))
  {
    hide Step, Rehashed, Tally, Lengths, Walk.JumpFor, Refs;
    RunIndexes(ops);
    var w := Run(EMPTY, ops);
    var s := w.slots[k];
    assert Sound(w.items, s);
    if s.items != [] && !NeedsRehash(s) && SumTo(w.items, s.items, |s.items|) < WORD {
      Weights(w.items, s);
    }
  }

  /** In a slot with clear flags, the draws follow the weights of the items. */
  lemma DrawFollowsWeights(ops: seq<Op>, k: nat, i: nat)
    requires CautiousRun(EMPTY, ops)
    requires k < |Run(EMPTY, ops).slots| && i < |Run(EMPTY, ops).slots[k].items| && !NeedsRehash(Run(EMPTY, ops).slots[k])
    requires
      var w := Run(EMPTY, ops);
      SumTo(w.items, w.slots[k].items, |w.slots[k].items|) < WORD
    ensures
      var w := Run(EMPTY, ops);
      var s := w.slots[k];
      |Draw.Hits(Accs(s), i)| == WeightOf(w.items, s.items[i].id)
        + (if i == 0 then 1 else 0) - (if i == |s.items| - 1 then 1 else 0)
  {
    hide Step, Run, Draw.Hits, Draw.Draw, SumTo;
    RunIndexes(ops);
    var w := Run(EMPTY, ops);
    var s := w.slots[k];
    assert Sound(w.items, s);
    Weights(w.items, s);
    Draw.HitsAreWeights(Accs(s), i);
  }

  /** A search by location finds an item exactly where a linear scan would, whatever the flags. */
  lemma SearchHolds(ops: seq<Op>, k: nat, id: Id)
    requires CautiousRun(EMPTY, ops)
    requires k < |Run(EMPTY, ops).slots|
    ensures
      var w := Run(EMPTY, ops);
      var s := w.slots[k];
      && FindSlotItem(w.items, s.items, s.dirtyOrder, id) == FindFrom(s.items, id, 0)
      && FindSlotItem(w.items, s.zero, s.zeroDirty, id) == FindFrom(s.zero, id, 0)
  {
    hide Step, FindSlotItem, FindFrom;
    RunIndexes(ops);
    var w := Run(EMPTY, ops);
    var s := w.slots[k];
    assert Sound(w.items, s);
    FindIn(w.items, s, id);
    FindAgrees(w.items, s.zero, s.zeroDirty, id);
  }
}
