/**
 The proportional caps of core/lb.c: with no configured maximum, each prefix may be picked
 in proportion to its part of the slot. These caps alone never rule out all items.
 */
module Caps {
  import opened Location
  import opened Counters
  import opened Slots
  import opened Poll
  import Placement

  /** A cap is at least the proportion that it rounds up, and at most the number of targets. */
  lemma CapBounds(n: nat, leafs: nat, len: nat)
    requires 0 < leafs <= len && 0 < n
    ensures n * leafs <= Cap(0, n, leafs, len) * len
    ensures Cap(0, n, leafs, len) <= n
    ensures (Cap(0, n, leafs, len) - 1) * (len / leafs) < n
  {
    var q := len / leafs;
    AtLeastOne(len, leafs);
    var c := Cap(0, n, leafs, len);
    CapIsLeast(n, leafs, len, c - 1);
    RoundsUp(n, q);
    Divided(len, leafs);
    ScaledUp(n, c * q, leafs);
    Regrouped(c, q, leafs);
    ScaledUp(q * leafs, len, c);
    Shrinks(n - 1, q);
  }

  lemma RoundsUp(n: nat, q: nat)
    requires 0 < n && 0 < q
    ensures n <= (1 + (n - 1) / q) * q
  {
    assert n - 1 == (n - 1) / q * q + (n - 1) % q;
  }

  lemma Divided(len: nat, leafs: nat)
    requires leafs > 0
    ensures len / leafs * leafs <= len
  {
  }

  lemma ScaledUp(a: nat, b: nat, c: nat)
    requires a <= b
    ensures a * c <= b * c
  {
  }

  lemma Regrouped(c: nat, q: nat, leafs: nat)
    ensures c * q * leafs == (q * leafs) * c
  {
  }

  lemma Shrinks(a: nat, q: nat)
    requires q > 0
    ensures a / q <= a
  {
    ScaledUp(1, q, a / q);
    Divided(a, q);
    assert q * (a / q) == a / q * q;
  }

  // ---- Sums over the keys of a level ------------------------------------------------------------------

  /** The keys of some locations, each once. */
  ghost function KeyList(locs: seq<Loc>, level: Level): seq<nat> {
    if locs == [] then []
    else
      var ks := KeyList(locs[..|locs| - 1], level);
      var k := KeyOf(locs[|locs| - 1], level);
      if k in ks then ks else ks + [k]
  }

  ghost function SumOf(ks: seq<nat>, f: nat -> nat): nat {
    if ks == [] then 0 else SumOf(ks[..|ks| - 1], f) + f(ks[|ks| - 1])
  }

  ghost predicate Unique(ks: seq<nat>) { forall i, j :: 0 <= i < j < |ks| ==> ks[i] != ks[j] }

  lemma {:induction false} KeyListIs(locs: seq<Loc>, level: Level)
    ensures Unique(KeyList(locs, level))
    ensures forall k :: k in KeyList(locs, level) ==> exists i :: 0 <= i < |locs| && KeyOf(locs[i], level) == k
    ensures forall i :: 0 <= i < |locs| ==> KeyOf(locs[i], level) in KeyList(locs, level)
  {
    hide KeyOf;
    if locs != [] {
      var n := |locs| - 1;
      KeyListIs(locs[..n], level);
      forall k | k in KeyList(locs, level) ensures exists i :: 0 <= i < |locs| && KeyOf(locs[i], level) == k {
        if k in KeyList(locs[..n], level) {
          var i :| 0 <= i < n && KeyOf(locs[..n][i], level) == k;
          assert KeyOf(locs[i], level) == k;
        } else {
          assert KeyOf(locs[n], level) == k;
        }
      }
      forall i | 0 <= i < |locs| ensures KeyOf(locs[i], level) in KeyList(locs, level) {
        if i < n { assert locs[..n][i] == locs[i]; }
      }
    }
  }

  lemma {:induction false} SumAtLeast(ks: seq<nat>, f: nat -> nat, g: nat -> nat)
    requires forall i :: 0 <= i < |ks| ==> f(ks[i]) <= g(ks[i])
    ensures SumOf(ks, f) <= SumOf(ks, g)
  {
    if ks != [] { SumAtLeast(ks[..|ks| - 1], f, g); }
  }

  ghost function At(locs: seq<Loc>, level: Level): nat -> nat { k => NumAt(locs, level, k) }

  /** Counting one location more adds one under its key, if listed, and nothing elsewhere. */
  lemma {:induction false} SumGrowsBy(ks: seq<nat>, locs: seq<Loc>, level: Level)
    requires Unique(ks) && locs != []
    ensures
      var n := |locs| - 1;
      SumOf(ks, At(locs, level))
        == SumOf(ks, At(locs[..n], level)) + (if KeyOf(locs[n], level) in ks then 1 else 0)
  {
    hide KeyOf;
    if ks != [] {
      SumGrowsBy(ks[..|ks| - 1], locs, level);
      assert ks == ks[..|ks| - 1] + [ks[|ks| - 1]];
    }
  }

  /** Each location is under at most one of the keys. */
  lemma {:induction false} SumAtMost(ks: seq<nat>, locs: seq<Loc>, level: Level)
    requires Unique(ks)
    ensures SumOf(ks, At(locs, level)) <= |locs|
    ensures (forall i :: 0 <= i < |locs| ==> KeyOf(locs[i], level) in ks) ==> SumOf(ks, At(locs, level)) == |locs|
  {
    hide KeyOf;
    if locs == [] {
      SumOfNothing(ks, level);
    } else {
      SumAtMost(ks, locs[..|locs| - 1], level);
      SumGrowsBy(ks, locs, level);
    }
  }

  lemma {:induction false} SumOfNothing(ks: seq<nat>, level: Level)
    ensures SumOf(ks, At([], level)) == 0
  {
    if ks != [] { SumOfNothing(ks[..|ks| - 1], level); }
  }

  // ---- Caps -------------------------------------------------------------------------------------------------

  /** The proportional cap of each key of a slot. */
  ghost function CapOf(locs: seq<Loc>, level: Level, n: nat): nat -> nat
    requires locs != [] && n > 0
  {
    k =>
      var leafs := NumAt(locs, level, k);
      if 0 < leafs <= |locs| then Cap(0, n, leafs, |locs|) else 0
  }

  lemma {:induction false} SumOfCaps(ks: seq<nat>, locs: seq<Loc>, level: Level, n: nat)
    requires locs != [] && n > 0 && forall i :: 0 <= i < |ks| ==> NumAt(locs, level, ks[i]) > 0
    ensures n * SumOf(ks, At(locs, level)) <= SumOf(ks, CapOf(locs, level, n)) * |locs|
  {
    hide NumAt, Cap;
    if ks != [] {
      var m := |ks| - 1;
      SumOfCaps(ks[..m], locs, level, n);
      var leafs := NumAt(locs, level, ks[m]);
      NumAtMost(locs, level, ks[m]);
      CapBounds(n, leafs, |locs|);
      Distribute(n, SumOf(ks[..m], At(locs, level)), leafs);
      Distribute(|locs|, SumOf(ks[..m], CapOf(locs, level, n)), Cap(0, n, leafs, |locs|));
    }
  }

  lemma Distribute(n: nat, a: nat, b: nat)
    ensures n * (a + b) == n * a + n * b == (a + b) * n
  {
  }

  lemma Cancel(n: nat, m: nat, len: nat)
    requires len > 0 && n * len <= m * len
    ensures n <= m
  {
    if m < n { ScaledUp(m + 1, n, len); }
  }

  lemma {:induction false} KeysAreCounted(locs: seq<Loc>, level: Level)
    ensures forall i :: 0 <= i < |KeyList(locs, level)| ==> NumAt(locs, level, KeyList(locs, level)[i]) > 0
  {
    hide KeyOf;
    var ks := KeyList(locs, level);
    KeyListIs(locs, level);
    forall i | 0 <= i < |ks| ensures NumAt(locs, level, ks[i]) > 0 {
      assert ks[i] in ks;
      var j :| 0 <= j < |locs| && KeyOf(locs[j], level) == ks[i];
      NumAtHas(locs, level, j);
    }
  }

  /** Over all the keys of a slot, the caps sum up to at least the number of targets. */
  lemma CapsSuffice(locs: seq<Loc>, level: Level, n: nat)
    requires locs != [] && n > 0
    ensures SumOf(KeyList(locs, level), CapOf(locs, level, n)) >= n
  {
    hide NumAt, KeyList, CapOf, SumOf, KeyOf;
    var ks := KeyList(locs, level);
    KeyListIs(locs, level);
    KeysAreCounted(locs, level);
    SumAtMost(ks, locs, level);
    SumOfCaps(ks, locs, level, n);
    Cancel(n, SumOf(ks, CapOf(locs, level, n)), |locs|);
  }

  /** While fewer locations are counted than there are targets, some item of the slot is not too popular at a level
      that has no configured maximum. */
  lemma OneLevelNeverRulesOut(maxima: Maxima, n: nat, items: Items, slot: Slot, counted: seq<Loc>, level: Level)
    requires slot.items != [] && slot.byLoc == Tally(Locs(items, slot.items)) && |counted| < n && maxima[level] == 0
    ensures
      exists i :: 0 <= i < |slot.items| && !PopularAt(maxima, n, slot, Tally(counted), LocOf(items, slot.items[i].id), level)
  {
    hide NumAt, KeyList, SumOf, KeyOf, Tally, Cap, Count, PopularAt;
    var locs := Locs(items, slot.items);
    var ks := KeyList(locs, level);
    if forall i :: 0 <= i < |slot.items| ==> PopularAt(maxima, n, slot, Tally(counted), locs[i], level) {
      KeyListIs(locs, level);
      KeysAreCounted(locs, level);
      var f, g := CapOf(locs, level, n), At(counted, level);
      forall j | 0 <= j < |ks| ensures f(ks[j]) <= g(ks[j]) {
        assert ks[j] in ks;
        var i :| 0 <= i < |locs| && KeyOf(locs[i], level) == ks[j];
        PopularIs(maxima, n, slot, locs, counted, level, i);
      }
      SumAtLeast(ks, f, g);
      SumAtMost(ks, counted, level);
      CapsSuffice(locs, level, n);
      assert false;
    }
    var i :| 0 <= i < |slot.items| && !PopularAt(maxima, n, slot, Tally(counted), locs[i], level);
  }

  lemma PopularIs(maxima: Maxima, n: nat, slot: Slot, locs: seq<Loc>, counted: seq<Loc>, level: Level, i: nat)
    requires slot.items != [] && |locs| == |slot.items| && slot.byLoc == Tally(locs)
    requires 0 < n && maxima[level] == 0 && i < |locs|
    requires PopularAt(maxima, n, slot, Tally(counted), locs[i], level)
    ensures CapOf(locs, level, n)(KeyOf(locs[i], level)) <= NumAt(counted, level, KeyOf(locs[i], level))
  {
    hide NumAt, KeyOf, Tally, Cap;
    var key := KeyOf(locs[i], level);
    if key == 0 {
      Placement.PopularIff(maxima, n, slot, counted, locs[i], level);
    } else {
      TallyIsExact(locs, level, key);
      TallyIsExact(counted, level, key);
      NumAtHas(locs, level, i);
      NumAtMost(locs, level, key);
    }
  }

  /** With no configured maximum, an item is too popular exactly when its key is counted and the targets under it,
      each standing for the part of the slot that the key is, make up all the targets. */
  lemma PopularExactly(maxima: Maxima, n: nat, slot: Slot, locs: seq<Loc>, counted: seq<Loc>, level: Level, i: nat)
    requires slot.items != [] && |locs| == |slot.items| && slot.byLoc == Tally(locs)
    requires 0 < n && maxima[level] == 0 && i < |locs|
    ensures
      var key := KeyOf(locs[i], level);
      && NumAt(locs, level, key) > 0
      && (PopularAt(maxima, n, slot, Tally(counted), locs[i], level) <==>
        key != 0 && NumAt(counted, level, key) * (|locs| / NumAt(locs, level, key)) >= n)
  {
    hide NumAt, KeyOf, Tally, Cap;
    var key := KeyOf(locs[i], level);
    Placement.PopularIff(maxima, n, slot, counted, locs[i], level);
    NumAtHas(locs, level, i);
    TallyIsExact(locs, level, key);
    NumAtMost(locs, level, key);
    CapIsLeast(n, NumAt(locs, level, key), |locs|, NumAt(counted, level, key));
  }

  // ---- Locations per level -----------------------------------------------------------------------------

  /** The different keys of some locations, but for the one that is never counted. */
  ghost function KeySet(locs: seq<Loc>, level: Level): set<nat> {
    set i | 0 <= i < |locs| && KeyOf(locs[i], level) != 0 :: KeyOf(locs[i], level)
  }

  lemma {:induction false} NumAtSome(locs: seq<Loc>, level: Level, key: nat) returns (i: nat)
    requires NumAt(locs, level, key) > 0
    ensures i < |locs| && KeyOf(locs[i], level) == key
  {
    i := |locs| - 1;
    if KeyOf(locs[i], level) != key { i := NumAtSome(locs[..i], level, key); }
  }

  /** A slot whose counters are right is crowded at a distance exactly when there are more targets for it than
      different keys of its items at the level below. */
  lemma CrowdedIs(slot: Slot, locs: seq<Loc>, d: Dist, similar: nat)
    requires slot.locsByLevel == Lengths(Tally(locs))
    ensures Crowded(slot, d, similar) <==> d > 1 && similar > |KeySet(locs, d - 1)|
  {
    hide KeyOf, Tally;
    if d > 1 {
      var level: Level := d - 1;
      forall key ensures key in Keys(Tally(locs), level) <==> key in KeySet(locs, level) {
        KeyIsIn(locs, level, key);
      }
      assert Keys(Tally(locs), level) == KeySet(locs, level);
    }
  }

  lemma KeyIsIn(locs: seq<Loc>, level: Level, key: nat)
    ensures key in Keys(Tally(locs), level) <==> key in KeySet(locs, level)
  {
    hide KeyOf, Tally, NumAt;
    TallyIsExact(locs, level, key);
    assert key in Keys(Tally(locs), level) <==> (level, key) in Tally(locs);
    if key != 0 && NumAt(locs, level, key) > 0 {
      var i := NumAtSome(locs, level, key);
      assert key in KeySet(locs, level);
    }
    if key in KeySet(locs, level) {
      var i :| 0 <= i < |locs| && KeyOf(locs[i], level) == key;
      NumAtHas(locs, level, i);
    }
  }
}
