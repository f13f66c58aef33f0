/**
 Purges and flushes (core/lb.c): entries of old generations leave their slot, and each
 entry that leaves gives back its reference to the item.
 */
module Purging {
  import opened Location
  import opened Counters
  import opened Slots
  import opened Feeding
  import Walk

  /** absolute_delta, in 32-bit arithmetic */
  function Delta(u0: Generation, u1: Generation): nat {
    var a, b := (u1 - u0) % WORD, (u0 - u1) % WORD;
    if a < b then a else b
  }

  predicate Stays(e: Entry, generation: Generation, age: nat) { Delta(e.generation, generation) <= age }

  /** The loop of _purge_slot_items, from a position on. */
  function PurgeList(items: Items, s: seq<Entry>, i: nat, generation: Generation, age: nat): (Items, seq<Entry>)
    decreases |s| - i
  {
    if i >= |s| then (items, s)
    else if Stays(s[i], generation, age) then PurgeList(items, s, i + 1, generation, age)
    else PurgeList(Unref(items, s[i].id), RemoveFast(s, i), i, generation, age)
  }

  /** A slot after the purge of its two lists. */
  function Purged(items: Items, s: Slot, generation: Generation, age: nat): (r: (Items, Slot))
    ensures SameLabel(s, r.1)
    ensures r.1.items == PurgeList(items, s.items, 0, generation, age).1
    ensures
      var q := PurgeList(PurgeList(items, s.items, 0, generation, age).0, s.zero, 0, generation, age);
      r.0 == q.0 && r.1.zero == q.1
  {
    var r := PurgeList(items, s.items, 0, generation, age);
    var q := PurgeList(r.0, s.zero, 0, generation, age);
    var fewer := |r.1| != |s.items|;
    (q.0, s.(items := r.1, dirtyWeights := s.dirtyWeights || fewer, dirtyOrder := s.dirtyOrder || fewer,
             zero := q.1, zeroDirty := s.zeroDirty || |q.1| != |s.zero|))
  }

  /** The purge of one slot, in _world_purge_slot_items */
  function PurgeSlot(items: Items, s: Slot, generation: Generation, age: nat): (Items, Slot) {
    var r := Purged(items, s, generation, age);
    if NeedsRehash(r.1) then (r.0, Rehashed(r.0, r.1)) else r
  }

  /** The loop of _slot_items_flush */
  function FlushList(items: Items, s: seq<Entry>): Items {
    if s == [] then items else Unref(FlushList(items, s[..|s| - 1]), s[|s| - 1].id)
  }

  /** _slot_flush */
  function FlushSlot(items: Items, s: Slot): (Items, Slot) {
    (FlushList(FlushList(items, s.items), s.zero), s.(items := [], zero := []))
  }

  // ---- References ------------------------------------------------------------------------------

  function RefOf(items: Items, id: Id): RefCount { if id in items then items[id].refcount else 0 }

  /** What is left of the count of an item once the entries of a slot are taken off. */
  ghost function Balance(items: Items, n: nat, id: Id): int { (RefOf(items, id) - n) % REFS }

  lemma Shift(a: int, b: int)
    ensures ((a + REFS - 1) % REFS - b) % REFS == (a - (b + 1)) % REFS
    ensures ((a + 1) % REFS - (b + 1)) % REFS == (a - b) % REFS
  {
  }

  /** Worlds that know the same items, but for the references. */
  ghost predicate Same(items: Items, items': Items) {
    forall x ::
      && LocOf(items', x) == LocOf(items, x) && WeightOf(items', x) == WeightOf(items, x)
      && (x in items' <==> x in items)
  }

  lemma {:induction false} PurgeIs(items: Items, s: seq<Entry>, i: nat, generation: Generation, age: nat)
    requires i <= |s| && forall j :: 0 <= j < i ==> Stays(s[j], generation, age)
    ensures
      var r := PurgeList(items, s, i, generation, age);
      && Same(items, r.0) && |r.1| <= |s| && (|r.1| == |s| ==> r.1 == s)
      && forall j :: 0 <= j < |r.1| ==> Stays(r.1[j], generation, age)
    decreases |s| - i
  {
    hide Delta;
    if i < |s| {
      if Stays(s[i], generation, age) {
        PurgeIs(items, s, i + 1, generation, age);
      } else {
        RemoveFastFrom(s, i);
        PurgeIs(Unref(items, s[i].id), RemoveFast(s, i), i, generation, age);
      }
    }
  }

  /** Entries that stay are kept as they are. */
  lemma {:induction false} PurgeHits(items: Items, s: seq<Entry>, i: nat, generation: Generation, age: nat, f: Entry -> bool)
    requires i <= |s| && forall e :: f(e) ==> Stays(e, generation, age)
    ensures Hits(PurgeList(items, s, i, generation, age).1, f) == Hits(s, f)
    decreases |s| - i
  {
    hide Delta, Hits, RemoveFast;
    if i < |s| {
      if Stays(s[i], generation, age) {
        PurgeHits(items, s, i + 1, generation, age, f);
      } else {
        RemoveFastFrom(s, i);
        HitsRemoveFast(s, i, f);
        PurgeHits(Unref(items, s[i].id), RemoveFast(s, i), i, generation, age, f);
      }
    }
  }

  /** A purge removes entries and references alike. */
  lemma {:induction false} PurgeBalance(items: Items, s: seq<Entry>, i: nat, generation: Generation, age: nat, id: Id)
    requires i <= |s|
    ensures
      var r := PurgeList(items, s, i, generation, age);
      && (id in items ==> Balance(r.0, Hits(r.1, OfId(id)), id) == Balance(items, Hits(s, OfId(id)), id))
      && Hits(r.1, OfId(id)) <= Hits(s, OfId(id))
    decreases |s| - i
  {
    hide Stays, Hits, RemoveFast;
    if i < |s| {
      if Stays(s[i], generation, age) {
        PurgeBalance(items, s, i + 1, generation, age, id);
      } else {
        RemoveFastFrom(s, i);
        HitsRemoveFast(s, i, OfId(id));
        var t := RemoveFast(s, i);
        PurgeBalance(Unref(items, s[i].id), t, i, generation, age, id);
        Shift(RefOf(items, id), Hits(t, OfId(id)));
      }
    }
  }

  lemma {:induction false} FlushIs(items: Items, s: seq<Entry>, id: Id)
    ensures Same(items, FlushList(items, s))
    ensures id in items ==> Balance(FlushList(items, s), 0, id) == Balance(items, Hits(s, OfId(id)), id)
  {
    if s != [] {
      FlushIs(items, s[..|s| - 1], id);
    }
  }

  // ---- Slots ---------------------------------------------------------------------------------------

  lemma SameAlike(items: Items, items': Items, s: Slot)
    requires Same(items, items') && Placed(items, s) && Indexed(items, s)
    ensures Placed(items', s) && Indexed(items', s)
  {
    hide Indexed, Placed;
    AlikeKeeps(items, items', s);
  }

  /** The entries of a purged list were in the list. */
  lemma PurgeFrom(items: Items, s: seq<Entry>, generation: Generation, age: nat, p: Entry -> bool)
    requires forall i :: 0 <= i < |s| ==> p(s[i])
    ensures forall e :: e in PurgeList(items, s, 0, generation, age).1 ==> p(e)
  {
    hide PurgeList;
    PurgeIs(items, s, 0, generation, age);
    var r := PurgeList(items, s, 0, generation, age).1;
    forall i | 0 <= i < |r| ensures p(r[i]) {
      var f := (e: Entry) => e == r[i];
      PurgeHits(items, s, 0, generation, age, f);
      HitsNone(r, f);
      HitsNone(s, f);
      assert f(r[i]);
    }
  }

  lemma PurgedHits(items: Items, s: Slot, generation: Generation, age: nat, f: Entry -> bool)
    requires forall e :: f(e) ==> Stays(e, generation, age)
    ensures
      var u := Purged(items, s, generation, age).1;
      Hits(u.items, f) == Hits(s.items, f) && Hits(u.zero, f) == Hits(s.zero, f)
  {
    hide PurgeList, Hits, Purged;
    PurgeHits(items, s.items, 0, generation, age, f);
    PurgeHits(PurgeList(items, s.items, 0, generation, age).0, s.zero, 0, generation, age, f);
  }

  lemma PurgedStays(items: Items, s: Slot, generation: Generation, age: nat)
    ensures
      var r := Purged(items, s, generation, age);
      && Same(items, r.0)
      && (forall i :: 0 <= i < |r.1.items| ==> Stays(r.1.items[i], generation, age))
      && (forall i :: 0 <= i < |r.1.zero| ==> Stays(r.1.zero[i], generation, age))
  {
    hide PurgeList, Stays, Purged;
    PurgeIs(items, s.items, 0, generation, age);
    PurgeIs(PurgeList(items, s.items, 0, generation, age).0, s.zero, 0, generation, age);
  }

  lemma PurgedBalance(items: Items, s: Slot, generation: Generation, age: nat, id: Id)
    ensures
      var r := Purged(items, s, generation, age);
      && (id in items ==> Balance(r.0, Refs(r.1, id), id) == Balance(items, Refs(s, id), id))
      && Refs(r.1, id) <= Refs(s, id)
  {
    hide PurgeList, Hits, LocOf, WeightOf, Purged;
    hide Balance;
    PurgeIs(items, s.items, 0, generation, age);
    PurgeBalance(items, s.items, 0, generation, age, id);
    var l := PurgeList(items, s.items, 0, generation, age);
    PurgeBalance(l.0, s.zero, 0, generation, age, id);
    var r := PurgeList(l.0, s.zero, 0, generation, age);
    if id in items {
      var f := OfId(id);
      TwoBalances(items, l.0, r.0, id, Hits(s.items, f), Hits(l.1, f), Hits(s.zero, f), Hits(r.1, f));
    }
  }

  lemma TwoBalances(a: Items, b: Items, c: Items, id: Id, m: nat, m': nat, n: nat, n': nat)
    requires Balance(b, m', id) == Balance(a, m, id) && Balance(c, n', id) == Balance(b, n, id)
    ensures Balance(c, m' + n', id) == Balance(a, m + n, id)
  {
  }

  lemma PurgedKeeps(items: Items, s: Slot, generation: Generation, age: nat)
    requires Placed(items, s) && Indexed(items, s)
    ensures
      var r := Purged(items, s, generation, age);
      Placed(r.0, r.1) && Indexed(r.0, r.1) && Same(items, r.0)
  {
    hide Indexed, Refs, PurgeList, Hits, Purged;
    var r := Purged(items, s, generation, age);
    PurgedStays(items, s, generation, age);
    PurgedIndexes(items, s, generation, age);
    forall id ensures Refs(r.1, id) <= 1 {
      PurgedBalance(items, s, generation, age, id);
      assert Refs(s, id) <= 1;
    }
    assert Once(r.1);
    hide Once;
    var p := (e: Entry) => e.id in items && WeightOf(items, e.id) > 0;
    var z := (e: Entry) => e.id in items && WeightOf(items, e.id) == 0;
    PurgeFrom(items, s.items, generation, age, p);
    PurgeFrom(PurgeList(items, s.items, 0, generation, age).0, s.zero, generation, age, z);
    assert forall i :: 0 <= i < |r.1.items| ==> p(r.1.items[i]);
    assert forall i :: 0 <= i < |r.1.zero| ==> z(r.1.zero[i]);
  }

  lemma PurgedIndexes(items: Items, s: Slot, generation: Generation, age: nat)
    requires Indexed(items, s)
    ensures
      var r := Purged(items, s, generation, age);
      Indexed(r.0, r.1)
  {
    hide PurgeList, Tally, Lengths, Walk.JumpFor, SumTo, Ascending, Stays;
    var m := PurgeList(items, s.items, 0, generation, age).0;
    PurgeIs(items, s.items, 0, generation, age);
    PurgeIs(m, s.zero, 0, generation, age);
    var r := Purged(items, s, generation, age);
    assert Locs(r.0, s.items) == Locs(items, s.items);
    assert Locs(r.0, s.zero) == Locs(items, s.zero);
    forall n | 0 <= n <= |s.items| ensures SumTo(items, s.items, n) == SumTo(r.0, s.items, n) {
      SumAlike(items, r.0, s.items, s.items, n);
    }
  }

  /** A purge keeps the index of a slot and leaves it rehashed. */
  lemma PurgeSlotKeeps(items: Items, s: Slot, generation: Generation, age: nat)
    requires Placed(items, s) && Indexed(items, s)
    ensures
      var r := PurgeSlot(items, s, generation, age);
      Placed(r.0, r.1) && Indexed(r.0, r.1) && !NeedsRehash(r.1)
  {
    hide Placed, Indexed, Purged, Rehashed, Same;
    var r := Purged(items, s, generation, age);
    PurgedKeeps(items, s, generation, age);
    RehashIndexes(r.0, r.1);
    RehashPlaces(r.0, r.1);
  }

  lemma PurgeSlotSame(items: Items, s: Slot, generation: Generation, age: nat)
    ensures
      var r := PurgeSlot(items, s, generation, age);
      Same(items, r.0) && SameLabel(s, r.1)
  {
    hide Purged, Rehashed, Same;
    var r := Purged(items, s, generation, age);
    PurgedStays(items, s, generation, age);
    RehashLabels(r.0, r.1);
  }

  /** What a purge makes of a slot and of the items, whatever their state. */
  lemma PurgeSlotIs(items: Items, s: Slot, generation: Generation, age: nat, id: Id)
    ensures
      var r := PurgeSlot(items, s, generation, age);
      && Same(items, r.0) && SameLabel(s, r.1) && Refs(r.1, id) <= Refs(s, id)
      && (id in items ==> Balance(r.0, Refs(r.1, id), id) == Balance(items, Refs(s, id), id))
  {
    hide Purged, Rehashed, Same, Refs;
    var r := Purged(items, s, generation, age);
    PurgedStays(items, s, generation, age);
    PurgedBalance(items, s, generation, age, id);
    RehashLabels(r.0, r.1);
    RehashRefs(r.0, r.1, id);
  }

  /** After a purge with age 0, a slot holds exactly its entries of the current generation. */
  lemma PurgeSlotHolds(items: Items, s: Slot, generation: Generation, id: Id, g: Generation)
    ensures
      var r := PurgeSlot(items, s, generation, 0).1;
      var f := Fed(id, g);
      && Hits(r.items, f) == (if g == generation then Hits(s.items, f) else 0)
      && Hits(r.zero, f) == (if g == generation then Hits(s.zero, f) else 0)
  {
    hide Purged, Rehashed, Hits, Same;
    var r := Purged(items, s, generation, 0);
    var f := Fed(id, g);
    RehashHits(r.0, r.1, f);
    if g == generation {
      PurgedHits(items, s, generation, 0, f);
    } else {
      PurgedStays(items, s, generation, 0);
      HitsNone(r.1.items, f);
      HitsNone(r.1.zero, f);
    }
  }

  lemma FlushSlotKeeps(items: Items, s: Slot, id: Id)
    ensures
      var r := FlushSlot(items, s);
      && Placed(r.0, r.1) && Indexed(r.0, r.1) && Same(items, r.0) && Refs(r.1, id) == 0
      && (id in items ==> Balance(r.0, 0, id) == Balance(items, Refs(s, id), id))
  {
    var r := FlushSlot(items, s);
    assert forall x :: Refs(r.1, x) == 0;
    hide Placed, Indexed;
    FlushIs(items, s.items, id);
    FlushIs(FlushList(items, s.items), s.zero, id);
  }
}
