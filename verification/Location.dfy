/**
 Locations (core/loc.c, core/lb.c): 64-bit numbers made of four 16-bit levels, the
 distance tests between them, and the 32-bit keys that identify their prefixes.
 */
module Location {
  import opened Basics

  const LEVEL_SIZE: nat := 0x1_0000
  const WORD: nat := 0x1_0000_0000
  const SHUFFLE_JUMP: nat := 0x7FFF_FFFF

  type Loc = x: int | 0 <= x < 0x1_0000_0000_0000_0000
  type Dist = d: int | 0 <= d <= 4

  /** Two to the power 16 times `d`: what a shift by `d` levels divides by. */
  function Unit(d: Dist): (u: nat)
    ensures u > 0
  {
    if d == 0 then 1 else if d == 1 then 0x1_0000 else if d == 2 then 0x1_0000_0000
    else if d == 3 then 0x1_0000_0000_0000 else 0x1_0000_0000_0000_0000
  }

  /** loc >> (16 * d) */
  function Prefix(loc: Loc, d: Dist): nat { loc / Unit(d) }

  /** Two locations that share what identifies them at a distance. */
  predicate Close(a: Loc, b: Loc, d: Dist) {
    d > 0 && Prefix(a, d - 1) == Prefix(b, d - 1)
  }

  lemma PrefixSteps(a: Loc, d: Dist)
    requires d < 4
    ensures Prefix(a, d + 1) == Prefix(a, d) / LEVEL_SIZE
  {
  }

  /** Close at a distance, close at any greater one. */
  lemma {:induction false} CloseMonotone(a: Loc, b: Loc, d: Dist, d': Dist)
    requires d <= d' && Close(a, b, d)
    ensures Close(a, b, d')
    decreases d' - d
  {
    if d < d' {
      PrefixSteps(a, d - 1);
      PrefixSteps(b, d - 1);
      CloseMonotone(a, b, d + 1, d');
    }
  }

  // ---- Lists of locations ended by a zero ------------------------------------------

  /** The locations before the first zero. */
  function Listed(s: seq<Loc>): seq<Loc> {
    if s == [] || s[0] == 0 then [] else [s[0]] + Listed(s[1..])
  }

  lemma {:induction false} ListedIs(s: seq<Loc>, n: nat)
    requires n <= |s| && (forall i :: 0 <= i < n ==> s[i] != 0) && (n < |s| ==> s[n] == 0)
    ensures Listed(s) == s[..n]
  {
    if n > 0 {
      ListedIs(s[1..], n - 1);
      assert s[..n] == [s[0]] + s[1..][..n - 1];
    }
  }

  ghost predicate TooClose(s: seq<Loc>, item: Loc, d: Dist) {
    exists i :: 0 <= i < |s| && Close(s[i], item, d)
  }

  /** _item_is_too_close */
  method ItemIsTooClose(avoids: seq<Loc>, item: Loc, distance: Dist) returns (close: bool)
    ensures close <==> TooClose(Listed(avoids), item, distance)
  {
    if distance == 0 {
      return false;
    }
    var loc := Prefix(item, distance - 1);
    var i := 0;
    while i < |avoids| && avoids[i] != 0
      invariant 0 <= i <= |avoids|
      invariant forall j :: 0 <= j < i ==> avoids[j] != 0 && !Close(avoids[j], item, distance)
    {
      if loc == Prefix(avoids[i], distance - 1) {
        ListedHas(avoids, i);
        return true;
      }
      i := i + 1;
    }
    ListedIs(avoids, i);
    return false;
  }

  lemma {:induction false} ListedHas(s: seq<Loc>, n: nat)
    requires n < |s| && forall i :: 0 <= i <= n ==> s[i] != 0
    ensures n < |Listed(s)| && Listed(s)[n] == s[n]
  {
    if n > 0 { ListedHas(s[1..], n - 1); }
  }

  lemma TooCloseMonotone(s: seq<Loc>, item: Loc, d: Dist, d': Dist)
    requires d <= d' && TooClose(s, item, d)
    ensures TooClose(s, item, d')
  {
    var i :| 0 <= i < |s| && Close(s[i], item, d);
    CloseMonotone(s[i], item, d, d');
  }

  /** _find_min_dist: the greatest distance, up to a limit, at which an item is not too close. */
  method FindMinDist(known: seq<Loc>, item: Loc, maxDist: Dist) returns (dist: Dist)
    ensures dist <= maxDist && !TooClose(Listed(known), item, dist)
    ensures forall d: Dist :: dist < d <= maxDist ==> TooClose(Listed(known), item, d)
  {
    dist := maxDist;
    var close := ItemIsTooClose(known, item, dist);
    while close
      invariant close <==> TooClose(Listed(known), item, dist)
      invariant dist <= maxDist
      invariant forall d: Dist :: dist < d <= maxDist ==> TooClose(Listed(known), item, d)
      decreases dist, close
    {
      dist := dist - 1;
      close := ItemIsTooClose(known, item, dist);
    }
  }

  // ---- The world cap ---------------------------------------------------------------

  /** The number of bits of a number, as counted from its leading zeroes. */
  function BitLength(x: nat): nat { if x == 0 then 0 else 1 + BitLength(x / 2) }

  /** The greatest distance that a location can be from another one with no more bits. */
  function MaxDist(loc: Loc): nat {
    1 + ((if loc == 0 then 1 else BitLength(loc)) - 1) / 16
  }

  lemma {:induction false} BitLengthBounds(x: nat)
    requires x > 0
    ensures BitLength(x) > 0 && Pow2(BitLength(x) - 1) <= x < Pow2(BitLength(x))
  {
    if x > 1 { BitLengthBounds(x / 2); }
  }

  lemma Pow2Units()
    ensures Pow2(16) == 0x1_0000 && Pow2(32) == 0x1_0000_0000 && Pow2(48) == 0x1_0000_0000_0000
    ensures Pow2(64) == 0x1_0000_0000_0000_0000
  {
    assert Pow2(8) == 0x100;
    Pow2Sum(8, 8);
    Pow2Sum(16, 16);
    Pow2Sum(32, 16);
    Pow2Sum(32, 32);
  }

  /** Beyond its maximum distance, the prefix of a location is empty. */
  lemma PrefixVanishes(loc: Loc)
    ensures 1 <= MaxDist(loc) <= 4 && Prefix(loc, MaxDist(loc)) == 0
  {
    if loc > 0 {
      var n := BitLength(loc);
      BitLengthBounds(loc);
      Pow2Units();
      if n > 64 { Pow2Monotone(64, n - 1); }
      var m := MaxDist(loc);
      assert n <= 16 * m;
      Pow2Monotone(n, 16 * m);
    }
  }

  /** Below its maximum distance, the prefix of a location is not empty. */
  lemma PrefixRemains(loc: Loc)
    ensures MaxDist(loc) <= 4 && (MaxDist(loc) > 1 ==> Prefix(loc, MaxDist(loc) - 1) != 0)
  {
    PrefixVanishes(loc);
    if MaxDist(loc) > 1 {
      var n := BitLength(loc);
      BitLengthBounds(loc);
      Pow2Units();
      Pow2Monotone(16 * (MaxDist(loc) - 1), n - 1);
    }
  }

  /** Distances beyond the cap tell nothing: there, any two locations are too close. */
  lemma BeyondCap(a: Loc, b: Loc, cap: Dist, d: Dist)
    requires MaxDist(a) <= cap && MaxDist(b) <= cap && cap < d
    ensures Close(a, b, d)
  {
    PrefixVanishes(a);
    PrefixVanishes(b);
    Vanished(a, MaxDist(a), d - 1);
    Vanished(b, MaxDist(b), d - 1);
  }

  lemma {:induction false} Vanished(a: Loc, d: Dist, d': Dist)
    requires d <= d' && Prefix(a, d) == 0
    ensures Prefix(a, d') == 0
    decreases d' - d
  {
    if d < d' {
      PrefixSteps(a, d);
      Vanished(a, d + 1, d');
    }
  }

  // ---- Keys of prefixes --------------------------------------------------------------

  type Level = l: int | 1 <= l <= 3 witness 1

  /** key_from_loc_level, in 32-bit arithmetic */
  function KeyOf(loc: Loc, level: Level): (k: nat)
    ensures k < WORD
  {
    var key := (Prefix(loc, level) + 1) % WORD;
    if level < 2 then (key + Prefix(loc, 2) * SHUFFLE_JUMP) % WORD else key
  }

  /** The top 16 bits are not all ones. */
  predicate Regular(loc: Loc) { Prefix(loc, 3) != 0xFFFF }

  lemma SamePrefixSameKey(a: Loc, b: Loc, level: Level)
    requires Prefix(a, level) == Prefix(b, level)
    ensures KeyOf(a, level) == KeyOf(b, level)
  {
    if level == 1 {
      PrefixSteps(a, 1);
      PrefixSteps(b, 1);
    }
  }

  /** At the two upper levels, a key is never zero and identifies the prefix. */
  lemma UpperKeys(a: Loc, b: Loc, level: Level)
    requires level >= 2 && Regular(a) && Regular(b)
    ensures KeyOf(a, level) != 0
    ensures KeyOf(a, level) == KeyOf(b, level) <==> Prefix(a, level) == Prefix(b, level)
  {
    UpperKey(a, level);
    UpperKey(b, level);
  }

  lemma UpperKey(a: Loc, level: Level)
    requires level >= 2 && Regular(a)
    ensures KeyOf(a, level) == Prefix(a, level) + 1
  {
    PrefixSteps(a, 2);
    assert Prefix(a, 3) <= 0xFFFF && Prefix(a, 2) < 0xFFFF_0000;
  }

  /** At the lowest level, two prefixes may share a key. */
  lemma HostKeysCollide()
    ensures KeyOf(0xFFFE_0000, 1) == KeyOf(0x0001_0002_0000_0000, 1) != 0
    ensures Prefix(0xFFFE_0000, 1) != Prefix(0x0001_0002_0000_0000, 1)
  {
  }

  /** At the lowest level, a key may be zero. */
  lemma HostKeyVanishes()
    ensures KeyOf(0x0001_0000_FFFF_0000, 1) == 0 && Regular(0x0001_0000_FFFF_0000)
  {
  }
}
