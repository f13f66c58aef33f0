/**
 Items in several slots (core/lb.c): feeding an item to a slot updates it for all the slots
 that have it, and only the slot being fed has its flags raised. When exactly the index of
 another slot survives.
 */
module Sharing {
  import opened Location
  import opened Counters
  import opened Slots
  import opened Feeding
  import Walk

  /** A location that fits between the neighbours of a position. */
  ghost predicate Between(items: Items, s: seq<Entry>, k: nat, loc: Loc)
    requires k < |s|
  {
    && (k > 0 ==> LocOf(items, s[k - 1].id) <= loc)
    && (k < |s| - 1 ==> loc <= LocOf(items, s[k + 1].id))
  }

  ghost predicate SameKeys(a: Loc, b: Loc) { forall level: Level :: KeyOf(a, level) == KeyOf(b, level) }

  /** What an item may become, for a slot that is not being fed: anything if the slot does not have it;
      otherwise its weight stays on the same side of 0 and, as far as the flags promise, the weight does
      not change, the location keeps its place in the order and the keys do not change. */
  ghost predicate Harmless(items: Items, s: Slot, id: Id, loc: Loc, weight: Weight) {
    && (forall k :: 0 <= k < |s.items| && s.items[k].id == id ==>
      && weight > 0
      && (!s.dirtyOrder ==> Between(items, s.items, k, loc) && SameKeys(LocOf(items, id), loc))
      && (!s.dirtyOrder && !s.dirtyWeights ==> weight == WeightOf(items, id)))
    && (forall k :: 0 <= k < |s.zero| && s.zero[k].id == id ==>
      weight == 0 && (!s.zeroDirty ==> Between(items, s.zero, k, loc)))
  }

  /** An item occurs at most once in a list. */
  ghost predicate Solitary(s: seq<Entry>, id: Id) {
    forall i, j :: 0 <= i < j < |s| ==> !(s[i].id == id && s[j].id == id)
  }

  lemma OnceIsSolitary(s: Slot, id: Id)
    requires Once(s)
    ensures Solitary(s.items, id) && Solitary(s.zero, id)
  {
    hide Once;
    forall i, j | 0 <= i < j < |s.items| ensures !(s.items[i].id == id && s.items[j].id == id) {
      if s.items[i].id == id { Alone(s, i, id); }
    }
    forall i, j | 0 <= i < j < |s.zero| ensures !(s.zero[i].id == id && s.zero[j].id == id) {
      if s.zero[i].id == id { Alone(s, |s.items| + i, id); }
    }
  }

  // ---- Order -----------------------------------------------------------------------------------------

  ghost predicate Fits(items: Items, s: seq<Entry>, id: Id, loc: Loc) {
    forall k :: 0 <= k < |s| && s[k].id == id ==> Between(items, s, k, loc)
  }

  /** A sorted list stays sorted exactly when the item stays between its neighbours. */
  lemma SortedStays(items: Items, items': Items, s: seq<Entry>, id: Id)
    requires Sorted(items, s) && Others(items, items', id) && Solitary(s, id)
    ensures Sorted(items', s) <==> Fits(items, s, id, LocOf(items', id))
  {
    hide LocOf, WeightOf, Fits, Sorted, Solitary;
    if Sorted(items', s) { SortedFits(items, items', s, id); }
    if Fits(items, s, id, LocOf(items', id)) { FitsSorted(items, items', s, id); }
  }

  lemma SortedFits(items: Items, items': Items, s: seq<Entry>, id: Id)
    requires Sorted(items', s) && Others(items, items', id) && Solitary(s, id)
    ensures Fits(items, s, id, LocOf(items', id))
  {
    hide LocOf, WeightOf;
    var b := Locs(items', s);
    forall k | 0 <= k < |s| && s[k].id == id ensures Between(items, s, k, LocOf(items', id)) {
      assert k > 0 ==> b[k - 1] <= b[k];
      assert k < |s| - 1 ==> b[k] <= b[k + 1];
    }
  }

  lemma FitsSorted(items: Items, items': Items, s: seq<Entry>, id: Id)
    requires Sorted(items, s) && Others(items, items', id) && Solitary(s, id) && Fits(items, s, id, LocOf(items', id))
    ensures Sorted(items', s)
  {
    hide LocOf, WeightOf, Locs, Fits, Sorted, Solitary;
    forall i, j | 0 <= i < j < |s| ensures LocOf(items', s[i].id) <= LocOf(items', s[j].id) {
      FitsPair(items, items', s, id, i, j);
    }
    SortedIs(items', s);
  }

  lemma SortedIs(items: Items, s: seq<Entry>)
    ensures Sorted(items, s) <==> forall i, j :: 0 <= i < j < |s| ==> LocOf(items, s[i].id) <= LocOf(items, s[j].id)
  {
    hide LocOf;
    var a := Locs(items, s);
    assert forall i :: 0 <= i < |s| ==> a[i] == LocOf(items, s[i].id);
  }

  lemma FitsPair(items: Items, items': Items, s: seq<Entry>, id: Id, i: nat, j: nat)
    requires Sorted(items, s) && Others(items, items', id) && Solitary(s, id) && Fits(items, s, id, LocOf(items', id))
    requires i < j < |s|
    ensures LocOf(items', s[i].id) <= LocOf(items', s[j].id)
  {
    hide LocOf, WeightOf, Sorted;
    SortedIs(items, s);
    if s[j].id == id {
      assert Between(items, s, j, LocOf(items', id));
      assert i < j - 1 ==> LocOf(items, s[i].id) <= LocOf(items, s[j - 1].id);
    } else if s[i].id == id {
      assert Between(items, s, i, LocOf(items', id));
      assert i + 1 < j ==> LocOf(items, s[i + 1].id) <= LocOf(items, s[j].id);
    }
  }

  // ---- Counters --------------------------------------------------------------------------------------

  lemma {:induction false} TallyAlike(a: seq<Loc>, b: seq<Loc>)
    requires |a| == |b| && forall i :: 0 <= i < |a| ==> SameKeys(a[i], b[i])
    ensures Tally(a) == Tally(b)
  {
    hide KeyOf;
    if a != [] {
      var n := |a| - 1;
      TallyAlike(a[..n], b[..n]);
      assert SameKeys(a[n], b[n]);
    }
  }

  lemma {:induction false} NumAtUpdate(a: seq<Loc>, k: nat, x: Loc, level: Level, key: nat)
    requires k < |a|
    ensures NumAt(a[k := x], level, key)
      == NumAt(a, level, key) - (if KeyOf(a[k], level) == key then 1 else 0) + (if KeyOf(x, level) == key then 1 else 0)
  {
    hide KeyOf;
    var n := |a| - 1;
    if k < n {
      assert a[k := x][..n] == a[..n][k := x];
      NumAtUpdate(a[..n], k, x, level, key);
    } else {
      assert a[k := x][..n] == a[..n];
    }
  }

  /** Counters stay right exactly when the keys of the item do not change. */
  lemma TallyStays(a: seq<Loc>, k: nat, x: Loc)
    requires k < |a|
    ensures Tally(a[k := x]) == Tally(a) <==> SameKeys(a[k], x)
  {
    hide KeyOf, Tally, NumAt;
    var b := a[k := x];
    if SameKeys(a[k], x) {
      forall i | 0 <= i < |a| ensures SameKeys(a[i], b[i]) {}
      TallyAlike(b, a);
    } else {
      var level: Level :| KeyOf(a[k], level) != KeyOf(x, level);
      var key := if KeyOf(a[k], level) != 0 then KeyOf(a[k], level) else KeyOf(x, level);
      NumAtUpdate(a, k, x, level, key);
      TallyIsExact(a, level, key);
      TallyIsExact(b, level, key);
    }
  }

  // ---- Weights ---------------------------------------------------------------------------------------

  lemma WrapShifts(a: nat, b: nat)
    requires Wrap(a) == Wrap(b) && -256 < a - b < 256
    ensures a == b
  {
  }

  /** Accumulated weights stay right exactly when the weight of the item does not change. */
  lemma ExactStays(items: Items, items': Items, s: Slot, id: Id)
    requires Exact(items, s) && Others(items, items', id)
    ensures Exact(items', s) <==>
      WeightOf(items', id) == WeightOf(items, id) || forall e :: e in s.items ==> e.id != id
  {
    hide SumTo, Wrap, LocOf, WeightOf;
    if WeightOf(items', id) == WeightOf(items, id) || forall e :: e in s.items ==> e.id != id {
      forall n | 0 <= n <= |s.items| ensures SumTo(items', s.items, n) == SumTo(items, s.items, n) {
        SumAlike(items', items, s.items, s.items, n);
      }
    } else {
      var k := FindFrom(s.items, id, 0);
      SumAlike(items', items, s.items, s.items, k);
      SumSteps(items, s.items, k);
      SumSteps(items', s.items, k);
      if Exact(items', s) { WrapShifts(SumTo(items', s.items, k + 1), SumTo(items, s.items, k + 1)); }
    }
  }

  lemma SumSteps(items: Items, s: seq<Entry>, k: nat)
    requires k < |s|
    ensures SumTo(items, s, k + 1) == SumTo(items, s, k) + WeightOf(items, s[k].id)
  {
  }

  /** The weight of an item changes in the world: the accumulated weights of any slot stay right exactly
      when the slot does not have the item or the weight is the same. */
  lemma ReweighedStays(items: Items, s: Slot, f: Feed)
    requires Exact(items, s) && f.id in items
    ensures Exact(Reweighed(items, f), s) <==>
      f.putWeight == items[f.id].putWeight || forall e :: e in s.items ==> e.id != f.id
  {
    hide Exact, SumTo;
    ExactStays(items, Reweighed(items, f), s, f.id);
  }

  // ---- A slot that is not being fed ------------------------------------------------------------------

  lemma LocsUpdate(items: Items, items': Items, s: seq<Entry>, id: Id, k: nat)
    requires Others(items, items', id) && Solitary(s, id) && k < |s| && s[k].id == id
    ensures Locs(items', s) == Locs(items, s)[k := LocOf(items', id)] && Locs(items, s)[k] == LocOf(items, id)
  {
    hide LocOf, WeightOf;
  }

  lemma AbsentStays(items: Items, items': Items, s: seq<Entry>, id: Id)
    requires Others(items, items', id) && forall k :: 0 <= k < |s| ==> s[k].id != id
    ensures Locs(items', s) == Locs(items, s)
  {
    hide LocOf, WeightOf;
  }

  lemma ItemsStay(items: Items, items': Items, s: Slot, id: Id, k: nat)
    requires Others(items, items', id) && Solitary(s.items, id) && k < |s.items| && s.items[k].id == id
    requires Surveyed(items, s)
    ensures Surveyed(items', s) <==>
      Between(items, s.items, k, LocOf(items', id)) && SameKeys(LocOf(items, id), LocOf(items', id))
  {
    hide LocOf, WeightOf, Tally, Lengths, Sorted, Between, SameKeys, Others;
    SortedStays(items, items', s.items, id);
    LocsUpdate(items, items', s.items, id, k);
    TallyStays(Locs(items, s.items), k, LocOf(items', id));
  }

  /** The other list of the slot keeps what its flag promises. */
  lemma ZeroAside(items: Items, items': Items, s: Slot, id: Id)
    requires Others(items, items', id) && forall k :: 0 <= k < |s.zero| ==> s.zero[k].id != id
    ensures Sorted(items', s.zero) <==> Sorted(items, s.zero)
  {
    hide LocOf, WeightOf, Others, Ascending;
    AbsentStays(items, items', s.zero, id);
  }

  lemma ItemsAside(items: Items, items': Items, s: Slot, id: Id)
    requires Others(items, items', id) && forall k :: 0 <= k < |s.items| ==> s.items[k].id != id
    ensures Surveyed(items', s) <==> Surveyed(items, s)
    ensures Exact(items, s) ==> Exact(items', s)
  {
    hide LocOf, WeightOf, Others, Ascending, Tally, Lengths, SumTo, Exact;
    AbsentStays(items, items', s.items, id);
    if Exact(items, s) { ExactStays(items, items', s, id); }
  }

  lemma PlacedStays(items: Items, items': Items, s: Slot, id: Id, k: nat)
    requires Placed(items, s) && Others(items, items', id) && id in items' && k < |s.items| + |s.zero|
    requires (if k < |s.items| then s.items[k] else s.zero[k - |s.items|]).id == id
    ensures Placed(items', s) <==> (WeightOf(items', id) > 0 <==> k < |s.items|)
  {
    hide LocOf, WeightOf, Once;
    Alone(s, k, id);
    if k < |s.items| {
      assert s.items[k].id == id;
    } else {
      assert s.zero[k - |s.items|].id == id;
    }
  }

  /** An item changes while another slot is fed: this slot stays right exactly when the change is harmless. */
  lemma ForeignStays(items: Items, items': Items, s: Slot, id: Id)
    requires Placed(items, s) && Indexed(items, s) && Others(items, items', id) && id in items'
    ensures Placed(items', s) && Indexed(items', s)
      <==> Harmless(items, s, id, LocOf(items', id), WeightOf(items', id))
  {
    hide LocOf, WeightOf, Others, Placed, Indexed, Surveyed, Exact, Sorted, Between, SameKeys, Harmless;
    var i, j := FindFrom(s.items, id, 0), FindFrom(s.zero, id, 0);
    if i >= 0 {
      InItems(items, items', s, id, i);
    } else if j >= 0 {
      InZero(items, items', s, id, j);
    } else {
      InNeither(items, items', s, id);
    }
  }

  lemma InNeither(items: Items, items': Items, s: Slot, id: Id)
    requires Placed(items, s) && Indexed(items, s) && Others(items, items', id)
    requires (forall k :: 0 <= k < |s.items| ==> s.items[k].id != id) && forall k :: 0 <= k < |s.zero| ==> s.zero[k].id != id
    ensures Placed(items', s) && Indexed(items', s)
    ensures Harmless(items, s, id, LocOf(items', id), WeightOf(items', id))
  {
    hide LocOf, WeightOf, Placed, Indexed, Between, SameKeys;
    AlikeKeeps(items, items', s);
  }

  lemma InItems(items: Items, items': Items, s: Slot, id: Id, k: nat)
    requires Placed(items, s) && Indexed(items, s) && Others(items, items', id) && id in items'
    requires k < |s.items| && s.items[k].id == id
    ensures Placed(items', s) && Indexed(items', s)
      <==> Harmless(items, s, id, LocOf(items', id), WeightOf(items', id))
  {
    hide LocOf, WeightOf, Others, Surveyed, Exact, Sorted, Between, SameKeys, Once, Walk.JumpFor;
    PlacedStays(items, items', s, id, k);
    Alone(s, k, id);
    OnceIsSolitary(s, id);
    ZeroAside(items, items', s, id);
    if !s.dirtyOrder {
      ItemsStay(items, items', s, id, k);
      if !s.dirtyWeights { ExactStays(items, items', s, id); }
    }
  }

  lemma InZero(items: Items, items': Items, s: Slot, id: Id, k: nat)
    requires Placed(items, s) && Indexed(items, s) && Others(items, items', id) && id in items'
    requires k < |s.zero| && s.zero[k].id == id
    ensures Placed(items', s) && Indexed(items', s)
      <==> Harmless(items, s, id, LocOf(items', id), WeightOf(items', id))
  {
    hide LocOf, WeightOf, Others, Surveyed, Exact, Sorted, Between, SameKeys, Once, Walk.JumpFor;
    PlacedStays(items, items', s, id, |s.items| + k);
    Alone(s, |s.items| + k, id);
    OnceIsSolitary(s, id);
    ItemsAside(items, items', s, id);
    if !s.zeroDirty { SortedStays(items, items', s.zero, id); }
  }
}
