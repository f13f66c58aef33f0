/**
 How feeding an item changes a slot and the items of the world
 (oio_lb_world__feed_slot_unlocked).
 */
module Feeding {
  import opened Location
  import opened Counters
  import opened Slots
  import Walk

  datatype Feed = Feed(id: Id, location: Loc, putWeight: Weight)

  function Ref(items: Items, id: Id): Items {
    if id in items then items[id := items[id].(refcount := (items[id].refcount + 1) % REFS)] else items
  }

  function Unref(items: Items, id: Id): Items {
    if id in items then items[id := items[id].(refcount := (items[id].refcount + REFS - 1) % REFS)] else items
  }

  function Reweighed(items: Items, f: Feed): Items
    requires f.id in items
  {
    items[f.id := items[f.id].(putWeight := f.putWeight)]
  }

  function Relocated(items: Items, f: Feed): Items
    requires f.id in items
  {
    items[f.id := items[f.id].(location := f.location)]
  }

  predicate SameLabel(s: Slot, t: Slot) {
    s.name == t.name && s.generation == t.generation && s.rehashOnUpdate == t.rehashOnUpdate
  }

  /** _add_new_slot_item, but for the reference count */
  function AddNew(items: Items, generation: Generation, s: Slot, id: Id): (r: Slot)
    ensures SameLabel(s, r)
  {
    var e := Entry(id, 0, generation);
    if WeightOf(items, id) > 0 then s.(items := s.items + [e], dirtyOrder := true)
    else s.(zero := s.zero + [e], zeroDirty := true)
  }

  /** An entry found in `items`: updated in place, or moved if its weight fell to 0. */
  function FromItems(generation: Generation, s: Slot, i: nat, weight: Weight, moved: bool): (r: Slot)
    requires i < |s.items|
    ensures SameLabel(s, r)
  {
    var e := s.items[i].(generation := generation);
    if weight > 0 then s.(items := s.items[i := e], dirtyOrder := s.dirtyOrder || moved)
    else s.(zero := s.zero + [e], zeroDirty := true, items := RemoveFast(s.items, i), dirtyOrder := true)
  }

  /** An entry found in `zero_scored_items`: moved if it now has a weight, or updated in place. */
  function FromZero(generation: Generation, s: Slot, i: nat, weight: Weight, moved: bool): (r: Slot)
    requires i < |s.zero|
    ensures SameLabel(s, r)
  {
    var e := s.zero[i].(generation := generation);
    if weight > 0 then s.(items := s.items + [e], dirtyOrder := true, zero := RemoveFast(s.zero, i), zeroDirty := true)
    else s.(zero := s.zero[i := e], zeroDirty := s.zeroDirty || moved)
  }

  /** The search of a known item, at its old location, and what follows. */
  function FeedFound(items: Items, generation: Generation, s: Slot, f: Feed): (r: (Items, Slot))
    requires f.id in items
    ensures SameLabel(s, r.1)
  {
    var moved := items[f.id].location != f.location;
    var i := FindSlotItem(items, s.items, s.dirtyOrder, f.id);
    if i >= 0 then (Relocated(items, f), FromItems(generation, s, i, f.putWeight, moved))
    else
      var j := FindSlotItem(items, s.zero, s.zeroDirty, f.id);
      if j >= 0 then (Relocated(items, f), FromZero(generation, s, j, f.putWeight, moved))
      else (Ref(items, f.id), AddNew(items, generation, s, f.id))
  }

  function Flagged(items: Items, s: Slot, f: Feed): Slot
    requires f.id in items
  {
    if items[f.id].putWeight != f.putWeight then s.(dirtyWeights := true) else s
  }

  function FeedEntry(items: Items, generation: Generation, s: Slot, f: Feed): (r: (Items, Slot))
    ensures SameLabel(s, r.1)
  {
    if f.id !in items then
      var known := items[f.id := Item(f.location, f.putWeight, 0)];
      (Ref(known, f.id), AddNew(known, generation, s, f.id))
    else
      FeedFound(Reweighed(items, f), generation, Flagged(items, s, f), f)
  }

  /** oio_lb_world__feed_slot_unlocked, on a slot */
  function FeedSlot(items: Items, generation: Generation, s: Slot, f: Feed): (Items, Slot) {
    var r := FeedEntry(items, generation, s.(generation := generation), f);
    if r.1.rehashOnUpdate && NeedsRehash(r.1) then (r.0, Rehashed(r.0, r.1)) else r
  }

  // ---- Feeding keeps the index --------------------------------------------------------------

  /** Placed, but for one item whose weight may just have changed. */
  ghost predicate PlacedBut(items: Items, s: Slot, id: Id) {
    && Once(s)
    && (forall i :: 0 <= i < |s.items| ==>
      s.items[i].id in items && (s.items[i].id != id ==> WeightOf(items, s.items[i].id) > 0))
    && (forall i :: 0 <= i < |s.zero| ==>
      s.zero[i].id in items && (s.zero[i].id != id ==> WeightOf(items, s.zero[i].id) == 0))
  }

  /** The items other than one are known as they were. */
  ghost predicate Others(items: Items, items': Items, id: Id) {
    forall x :: x != id ==>
      && LocOf(items', x) == LocOf(items, x) && WeightOf(items', x) == WeightOf(items, x) && (x in items' <==> x in items)
  }

  lemma {:induction false} AbsentIs(s: seq<Entry>, id: Id)
    ensures Hits(s, OfId(id)) == 0 <==> forall i :: 0 <= i < |s| ==> s[i].id != id
  {
    HitsNone(s, OfId(id));
  }

  lemma WeightKeeps(items: Items, s: Slot, f: Feed)
    requires f.id in items && Placed(items, s) && Indexed(items, s)
    ensures
      var r, t := Reweighed(items, f), Flagged(items, s, f);
      PlacedBut(r, t, f.id) && Indexed(r, t) && Others(items, r, f.id)
  {
    hide Indexed, Hits;
    var t := Flagged(items, s, f);
    assert Once(t) by { assert forall x :: Refs(t, x) == Refs(s, x); }
    hide Once, Refs;
    WeightKeepsIndex(items, s, f);
  }

  lemma WeightKeepsIndex(items: Items, s: Slot, f: Feed)
    requires f.id in items && Indexed(items, s)
    ensures Indexed(Reweighed(items, f), Flagged(items, s, f))
  {
    hide SortByLocation, Tally, Ascending, Lengths, Walk.JumpFor, SumTo;
    var r := Reweighed(items, f);
    if items[f.id].putWeight == f.putWeight {
      assert r == items;
    } else {
      assert Locs(items, s.items) == Locs(r, s.items);
      assert Locs(items, s.zero) == Locs(r, s.zero);
    }
  }

  lemma AddKeeps(items: Items, generation: Generation, s: Slot, id: Id)
    requires PlacedBut(items, s, id) && Indexed(items, s) && id in items && Refs(s, id) == 0
    ensures
      var t := AddNew(items, generation, s, id);
      && Placed(Ref(items, id), t) && Indexed(Ref(items, id), t) && Others(items, Ref(items, id), id)
      && forall x :: Refs(t, x) == Refs(s, x) + (if x == id then 1 else 0)
  {
    hide Indexed, Hits, Refs;
    AddRefs(items, generation, s, id);
    AddKeepsIndex(items, generation, s, id);
    forall x ensures Refs(AddNew(items, generation, s, id), x) <= 1 { assert Refs(s, x) <= 1; }
    AddAbsent(s, id);
  }

  lemma AddAbsent(s: Slot, id: Id)
    requires Refs(s, id) == 0
    ensures forall i :: 0 <= i < |s.items| ==> s.items[i].id != id
    ensures forall i :: 0 <= i < |s.zero| ==> s.zero[i].id != id
  {
    AbsentIs(s.items, id);
    AbsentIs(s.zero, id);
  }

  lemma AddRefs(items: Items, generation: Generation, s: Slot, id: Id)
    ensures forall x :: Refs(AddNew(items, generation, s, id), x) == Refs(s, x) + (if x == id then 1 else 0)
  {
    hide Total, AddNew;
    forall x ensures Refs(AddNew(items, generation, s, id), x) == Refs(s, x) + (if x == id then 1 else 0) {
      AddTotal(items, generation, s, id, OfId(x));
    }
  }

  lemma AddTotal(items: Items, generation: Generation, s: Slot, id: Id, f: Entry -> bool)
    ensures Total(AddNew(items, generation, s, id), f) == Total(s, f) + One(f, Entry(id, 0, generation))
  {
    hide Hits;
    HitsAppend(s.items, Entry(id, 0, generation), f);
    HitsAppend(s.zero, Entry(id, 0, generation), f);
  }

  lemma AddKeepsIndex(items: Items, generation: Generation, s: Slot, id: Id)
    requires Indexed(items, s)
    ensures Indexed(Ref(items, id), AddNew(items, generation, s, id))
  {
    hide SortByLocation, Tally, Ascending, Lengths, Walk.JumpFor, SumTo;
    var r := Ref(items, id);
    assert Locs(items, s.items) == Locs(r, s.items);
    assert Locs(items, s.zero) == Locs(r, s.zero);
    forall n | 0 <= n <= |s.items| ensures SumTo(items, s.items, n) == SumTo(r, s.items, n) {
      SumAlike(items, r, s.items, s.items, n);
    }
  }

  ghost function One(f: Entry -> bool, e: Entry): int { if f(e) then 1 else 0 }

  /** Whether it moves or stays, a found entry only takes the new generation. */
  lemma FromItemsTotal(generation: Generation, s: Slot, i: nat, weight: Weight, moved: bool, f: Entry -> bool)
    requires i < |s.items|
    ensures
      Total(FromItems(generation, s, i, weight, moved), f)
        == Total(s, f) - One(f, s.items[i]) + One(f, s.items[i].(generation := generation))
  {
    hide Hits, RemoveFast;
    var e := s.items[i].(generation := generation);
    var t := FromItems(generation, s, i, weight, moved);
    if weight > 0 {
      HitsUpdate(s.items, i, e, f);
      assert t.items == s.items[i := e] && t.zero == s.zero;
    } else {
      HitsAppend(s.zero, e, f);
      HitsRemoveFast(s.items, i, f);
      assert t.items == RemoveFast(s.items, i) && t.zero == s.zero + [e];
    }
  }

  lemma FromZeroTotal(generation: Generation, s: Slot, i: nat, weight: Weight, moved: bool, f: Entry -> bool)
    requires i < |s.zero|
    ensures
      Total(FromZero(generation, s, i, weight, moved), f)
        == Total(s, f) - One(f, s.zero[i]) + One(f, s.zero[i].(generation := generation))
  {
    hide Hits, RemoveFast;
    var e := s.zero[i].(generation := generation);
    var t := FromZero(generation, s, i, weight, moved);
    if weight == 0 {
      HitsUpdate(s.zero, i, e, f);
      assert t.zero == s.zero[i := e] && t.items == s.items;
    } else {
      HitsAppend(s.items, e, f);
      HitsRemoveFast(s.zero, i, f);
      assert t.zero == RemoveFast(s.zero, i) && t.items == s.items + [e];
    }
  }

  lemma FromItemsRefs(generation: Generation, s: Slot, i: nat, weight: Weight, moved: bool)
    requires i < |s.items|
    ensures forall x :: Refs(FromItems(generation, s, i, weight, moved), x) == Refs(s, x)
  {
    hide Total, FromItems;
    forall x ensures Refs(FromItems(generation, s, i, weight, moved), x) == Refs(s, x) {
      FromItemsTotal(generation, s, i, weight, moved, OfId(x));
    }
  }

  lemma FromZeroRefs(generation: Generation, s: Slot, i: nat, weight: Weight, moved: bool)
    requires i < |s.zero|
    ensures forall x :: Refs(FromZero(generation, s, i, weight, moved), x) == Refs(s, x)
  {
    hide Total, FromZero;
    forall x ensures Refs(FromZero(generation, s, i, weight, moved), x) == Refs(s, x) {
      FromZeroTotal(generation, s, i, weight, moved, OfId(x));
    }
  }

  /** An item with an entry has no other one. */
  lemma Alone(s: Slot, i: nat, id: Id)
    requires Once(s) && i < |s.items| + |s.zero|
    requires (if i < |s.items| then s.items[i] else s.zero[i - |s.items|]).id == id
    ensures forall j :: 0 <= j < |s.items| && j != i ==> s.items[j].id != id
    ensures forall j :: 0 <= j < |s.zero| && j != i - |s.items| ==> s.zero[j].id != id
  {
    hide Hits;
    var all := s.items + s.zero;
    var f := OfId(id);
    HitsConcat(s.items, s.zero, f);
    assert Hits(all, f) == Refs(s, id) <= 1;
    HitsRemoveFast(all, i, f);
    var rest := RemoveFast(all, i);
    HitsNone(rest, f);
    forall j | 0 <= j < |all| && j != i ensures all[j].id != id {
      assert all[j] == rest[if j == |all| - 1 then i else j];
    }
    assert forall j :: 0 <= j < |s.items| ==> s.items[j] == all[j];
    assert forall j :: 0 <= j < |s.zero| ==> s.zero[j] == all[|s.items| + j];
  }

  ghost predicate Found(items: Items, f: Feed, e: Entry) {
    e.id == f.id && f.id in items && WeightOf(items, f.id) == f.putWeight
  }

  predicate Moved(items: Items, f: Feed)
    requires f.id in items
  {
    items[f.id].location != f.location
  }

  lemma FromItemsKeepsIndex(items: Items, generation: Generation, s: Slot, i: nat, f: Feed)
    requires Once(s) && Indexed(items, s) && i < |s.items| && Found(items, f, s.items[i])
    ensures Indexed(Relocated(items, f), FromItems(generation, s, i, f.putWeight, Moved(items, f)))
  {
    hide SortByLocation, Tally, Ascending, Lengths, Walk.JumpFor, SumTo, Once;
    var r, t := Relocated(items, f), FromItems(generation, s, i, f.putWeight, Moved(items, f));
    if f.putWeight > 0 && !Moved(items, f) {
      assert r == items;
      assert Locs(items, t.items) == Locs(items, s.items);
      forall n | 0 <= n <= |s.items| ensures SumTo(items, s.items, n) == SumTo(items, t.items, n) {
        SumAlike(items, items, s.items, t.items, n);
      }
    } else if f.putWeight > 0 {
      Alone(s, i, f.id);
      assert Locs(r, s.zero) == Locs(items, s.zero);
    }
  }

  lemma FromZeroKeepsIndex(items: Items, generation: Generation, s: Slot, i: nat, f: Feed)
    requires Once(s) && Indexed(items, s) && i < |s.zero| && Found(items, f, s.zero[i])
    ensures Indexed(Relocated(items, f), FromZero(generation, s, i, f.putWeight, Moved(items, f)))
  {
    hide SortByLocation, Tally, Ascending, Lengths, Walk.JumpFor, SumTo, Once;
    var r, t := Relocated(items, f), FromZero(generation, s, i, f.putWeight, Moved(items, f));
    if f.putWeight == 0 && !Moved(items, f) {
      assert r == items;
      assert Locs(items, t.zero) == Locs(items, s.zero);
    } else if f.putWeight == 0 {
      Alone(s, |s.items| + i, f.id);
      assert Locs(r, s.items) == Locs(items, s.items);
      forall n | 0 <= n <= |s.items| ensures SumTo(items, s.items, n) == SumTo(r, s.items, n) {
        SumAlike(items, r, s.items, s.items, n);
      }
    }
  }

  lemma OnceKept(s: Slot, t: Slot)
    requires Once(s) && forall x :: Refs(t, x) == Refs(s, x)
    ensures Once(t)
  {
    hide Refs;
  }

  lemma RemoveFastFrom(s: seq<Entry>, i: nat)
    requires i < |s|
    ensures |RemoveFast(s, i)| == |s| - 1
    ensures forall j :: 0 <= j < |s| - 1 ==> RemoveFast(s, i)[j] == s[if j == i then |s| - 1 else j]
  {
  }

  lemma RelocatedOthers(items: Items, f: Feed)
    requires f.id in items
    ensures Others(items, Relocated(items, f), f.id)
    ensures forall x :: WeightOf(Relocated(items, f), x) == WeightOf(items, x)
  {
  }

  lemma FromItemsKeeps(items: Items, generation: Generation, s: Slot, i: nat, f: Feed)
    requires PlacedBut(items, s, f.id) && Indexed(items, s) && i < |s.items| && Found(items, f, s.items[i])
    ensures
      var r, t := Relocated(items, f), FromItems(generation, s, i, f.putWeight, Moved(items, f));
      Placed(r, t) && Indexed(r, t) && Others(items, r, f.id) && forall x :: Refs(t, x) == Refs(s, x)
  {
    hide Indexed, Refs, Once, RemoveFast, Others, WeightOf;
    RelocatedOthers(items, f);
    var t := FromItems(generation, s, i, f.putWeight, Moved(items, f));
    FromItemsKeepsIndex(items, generation, s, i, f);
    FromItemsRefs(generation, s, i, f.putWeight, Moved(items, f));
    OnceKept(s, t);
    Alone(s, i, f.id);
    RemoveFastFrom(s.items, i);
  }

  lemma FromZeroKeeps(items: Items, generation: Generation, s: Slot, i: nat, f: Feed)
    requires PlacedBut(items, s, f.id) && Indexed(items, s) && i < |s.zero| && Found(items, f, s.zero[i])
    ensures
      var r, t := Relocated(items, f), FromZero(generation, s, i, f.putWeight, Moved(items, f));
      Placed(r, t) && Indexed(r, t) && Others(items, r, f.id) && forall x :: Refs(t, x) == Refs(s, x)
  {
    hide Indexed, Refs, Once, RemoveFast, Others, WeightOf;
    RelocatedOthers(items, f);
    var t := FromZero(generation, s, i, f.putWeight, Moved(items, f));
    FromZeroKeepsIndex(items, generation, s, i, f);
    FromZeroRefs(generation, s, i, f.putWeight, Moved(items, f));
    OnceKept(s, t);
    Alone(s, |s.items| + i, f.id);
    RemoveFastFrom(s.zero, i);
  }

  /** Where an item is once it is fed: where the feed says if the item is new or if the slot has it
      already, and otherwise where it was. */
  ghost function StoredLocation(items: Items, s: Slot, f: Feed): Loc {
    if f.id in items && Refs(s, f.id) == 0 then items[f.id].location else f.location
  }

  /** Feeding a known item: the searches find its entry if it has one. */
  lemma FoundKeeps(items: Items, generation: Generation, s: Slot, f: Feed)
    requires PlacedBut(items, s, f.id) && Indexed(items, s) && f.id in items && WeightOf(items, f.id) == f.putWeight
    ensures
      var r := FeedFound(items, generation, s, f);
      && Placed(r.0, r.1) && Indexed(r.0, r.1) && Others(items, r.0, f.id) && f.id in r.0
      && r.0[f.id].location == StoredLocation(items, s, f) && r.0[f.id].putWeight == f.putWeight
      && Refs(r.1, f.id) == 1 && forall x :: x != f.id ==> Refs(r.1, x) == Refs(s, x)
  {
    hide FindSlotItem, FromItems, FromZero, AddNew, Refs, Hits, Sorted, Surveyed, Exact, Placed, Others;
    assert Once(s);
    hide PlacedBut, Once;
    FindAgrees(items, s.zero, s.zeroDirty, f.id);
    var i := FindSlotItem(items, s.items, s.dirtyOrder, f.id);
    FindIn(items, s, f.id);
    if i >= 0 {
      FromItemsKeeps(items, generation, s, i, f);
      HasRefs(s, i, f.id);
    } else {
      var j := FindSlotItem(items, s.zero, s.zeroDirty, f.id);
      if j >= 0 {
        FromZeroKeeps(items, generation, s, j, f);
        HasRefs(s, |s.items| + j, f.id);
      } else {
        NoRefs(s, f.id);
        AddKeeps(items, generation, s, f.id);
      }
    }
  }

  lemma NoRefs(s: Slot, id: Id)
    requires forall i :: 0 <= i < |s.items| ==> s.items[i].id != id
    requires forall i :: 0 <= i < |s.zero| ==> s.zero[i].id != id
    ensures Refs(s, id) == 0
  {
    AbsentIs(s.items, id);
    AbsentIs(s.zero, id);
  }

  lemma FindIn(items: Items, s: Slot, id: Id)
    requires Indexed(items, s)
    ensures FindSlotItem(items, s.items, s.dirtyOrder, id) == FindFrom(s.items, id, 0)
  {
    if s.items != [] { FindAgrees(items, s.items, s.dirtyOrder, id); }
  }

  /** An item with an entry, each occurring once, has exactly one. */
  lemma HasRefs(s: Slot, i: nat, id: Id)
    requires Once(s) && i < |s.items| + |s.zero|
    requires (if i < |s.items| then s.items[i] else s.zero[i - |s.items|]).id == id
    ensures Refs(s, id) == 1
  {
    AbsentIs(s.items, id);
    AbsentIs(s.zero, id);
    assert Refs(s, id) <= 1;
  }

  /** Feeding keeps the index of the slot, gives the item exactly one entry there, with its new
      weight, and leaves the other items alone. */
  lemma FeedEntryKeeps(items: Items, generation: Generation, s: Slot, f: Feed)
    requires Placed(items, s) && Indexed(items, s)
    ensures
      var r := FeedEntry(items, generation, s, f);
      && Placed(r.0, r.1) && Indexed(r.0, r.1) && Others(items, r.0, f.id) && f.id in r.0
      && r.0[f.id].location == StoredLocation(items, s, f) && r.0[f.id].putWeight == f.putWeight
      && Refs(r.1, f.id) == 1 && forall x :: x != f.id ==> Refs(r.1, x) == Refs(s, x)
  {
    hide Indexed, Refs, Once, Others, FeedFound, AddNew;
    if f.id in items {
      WeightKeeps(items, s, f);
      var t := Flagged(items, s, f);
      assert forall x :: Refs(t, x) == Refs(s, x) by { FlaggedRefs(items, s, f); }
      FoundKeeps(Reweighed(items, f), generation, t, f);
      OthersChain(items, Reweighed(items, f), FeedFound(Reweighed(items, f), generation, t, f).0, f.id);
    } else {
      var known := items[f.id := Item(f.location, f.putWeight, 0)];
      NewKeeps(items, s, f.id, Item(f.location, f.putWeight, 0));
      NoRefs(s, f.id);
      AddKeeps(known, generation, s, f.id);
      OthersChain(items, known, Ref(known, f.id), f.id);
    }
  }

  lemma FlaggedRefs(items: Items, s: Slot, f: Feed)
    requires f.id in items
    ensures forall x :: Refs(Flagged(items, s, f), x) == Refs(s, x)
  {
  }

  lemma OthersChain(a: Items, b: Items, c: Items, id: Id)
    requires Others(a, b, id) && Others(b, c, id)
    ensures Others(a, c, id)
  {
  }

  /** A new item changes nothing for a slot that does not have it. */
  lemma NewKeeps(items: Items, s: Slot, id: Id, item: Item)
    requires Placed(items, s) && Indexed(items, s) && id !in items
    ensures PlacedBut(items[id := item], s, id) && Indexed(items[id := item], s) && Others(items, items[id := item], id)
  {
    hide Indexed, Once;
    AlikeKeeps(items, items[id := item], s);
  }

  /** What feeding promises of a slot and of the items. */
  ghost predicate FedOnce(items: Items, s: Slot, f: Feed, generation: Generation, items': Items, s': Slot) {
    && Placed(items', s') && Indexed(items', s') && Others(items, items', f.id) && f.id in items'
    && items'[f.id].location == StoredLocation(items, s, f) && items'[f.id].putWeight == f.putWeight
    && s'.name == s.name && s'.generation == generation && (s'.rehashOnUpdate ==> !NeedsRehash(s'))
    && Refs(s', f.id) == 1 && forall x :: x != f.id ==> Refs(s', x) == Refs(s, x)
  }

  lemma FeedKeeps(items: Items, generation: Generation, s: Slot, f: Feed)
    requires Placed(items, s) && Indexed(items, s)
    ensures
      var r := FeedSlot(items, generation, s, f);
      FedOnce(items, s, f, generation, r.0, r.1)
  {
    hide Refs, Once, Others, FeedEntry, FindSlotItem, Rehashed;
    var t := s.(generation := generation);
    assert Placed(items, t) && Indexed(items, t) by { GenerationKeeps(items, s, generation); }
    hide Placed, Indexed;
    FeedEntryKeeps(items, generation, t, f);
    var r := FeedEntry(items, generation, t, f);
    RehashIndexes(r.0, r.1);
    RehashPlaces(r.0, r.1);
    forall x ensures Refs(Rehashed(r.0, r.1), x) == Refs(r.1, x) && Refs(t, x) == Refs(s, x) {
      RehashRefs(r.0, r.1, x);
      GenerationKeepsRefs(s, generation, x);
    }
    RehashLabels(r.0, r.1);
  }

  /** The world takes the weight of a feed; it takes its location exactly when the item is new, or already
      there, or had an entry in the slot. */
  lemma FeedStores(items: Items, generation: Generation, s: Slot, f: Feed)
    requires Placed(items, s) && Indexed(items, s)
    ensures
      var items' := FeedSlot(items, generation, s, f).0;
      && f.id in items' && items'[f.id].putWeight == f.putWeight
      && (items'[f.id].location == f.location <==>
        f.id !in items || Refs(s, f.id) > 0 || items[f.id].location == f.location)
  {
    hide Placed, Indexed, FeedSlot, Others;
    FeedKeeps(items, generation, s, f);
  }

  lemma GenerationKeeps(items: Items, s: Slot, generation: Generation)
    requires Placed(items, s) && Indexed(items, s)
    ensures Placed(items, s.(generation := generation)) && Indexed(items, s.(generation := generation))
  {
    hide SumTo, Tally, Lengths, Walk.JumpFor, Hits;
    assert forall x :: Refs(s.(generation := generation), x) == Refs(s, x);
  }

  lemma GenerationKeepsRefs(s: Slot, generation: Generation, x: Id)
    ensures Refs(s.(generation := generation), x) == Refs(s, x)
  {
  }

  lemma RehashLabels(items: Items, s: Slot)
    ensures SameLabel(s, Rehashed(items, s))
  {
  }

  // ---- Feeding marks the entry --------------------------------------------------------------

  /** How many entries of a slot point at an item and were last fed in a generation. */
  ghost function Holds(s: Slot, id: Id, g: Generation): nat { Total(s, Fed(id, g)) }

  lemma FeedFoundMarks(items: Items, generation: Generation, s: Slot, f: Feed)
    requires f.id in items
    ensures
      var r := FeedFound(items, generation, s, f).1;
      && (forall x, g :: x != f.id ==> Holds(r, x, g) == Holds(s, x, g))
      && Holds(r, f.id, generation) > 0
  {
    hide FindSlotItem, FromItems, FromZero, AddNew, Total;
    var r := FeedFound(items, generation, s, f).1;
    var i := FindSlotItem(items, s.items, s.dirtyOrder, f.id);
    var j := FindSlotItem(items, s.zero, s.zeroDirty, f.id);
    forall x, g
      ensures x != f.id ==> Holds(r, x, g) == Holds(s, x, g)
      ensures x == f.id && g == generation ==> Holds(r, x, g) > 0
    {
      if i >= 0 {
        FromItemsTotal(generation, s, i, f.putWeight, Moved(items, f), Fed(x, g));
        EntryCounts(s, i, Fed(x, g));
      } else if j >= 0 {
        FromZeroTotal(generation, s, j, f.putWeight, Moved(items, f), Fed(x, g));
        EntryCounts(s, |s.items| + j, Fed(x, g));
      } else {
        AddTotal(items, generation, s, f.id, Fed(x, g));
      }
    }
  }

  lemma EntryCounts(s: Slot, i: nat, f: Entry -> bool)
    requires i < |s.items| + |s.zero|
    ensures One(f, if i < |s.items| then s.items[i] else s.zero[i - |s.items|]) <= Total(s, f)
  {
    HitsNone(s.items, f);
    HitsNone(s.zero, f);
  }
}
