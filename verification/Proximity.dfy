/**
 Proximity levels of locations (core/loc.c): how many leading bits two locations share, the
 segments that these define, and how they agree with the distances of the load balancer.
 */
module Proximity {
  import opened Basics
  import opened Location

  datatype Level = Nowhere | Region | Room | Rack | Host | Volume

  /** The order of the levels. */
  function Rank(l: Level): nat {
    match l
    case Nowhere => 0 case Region => 1 case Room => 2 case Rack => 3 case Host => 4 case Volume => 5
  }

  /** oio_location_common_bits */
  function BitsOf(l: Level): nat {
    match l
    case Nowhere => 0 case Region => 8 case Room => 16 case Rack => 32 case Host => 48 case Volume => 64
  }

  /** The first bits of a location: what is left of it once the others are shifted out. */
  function Leading(loc: nat, n: nat): nat
    requires n <= 64
    decreases 64 - n
  {
    if n == 64 then loc else Leading(loc, n + 1) / 2
  }

  /** Bitwise exclusive or */
  function Xor(a: nat, b: nat): nat
    decreases a + b
  {
    if a == 0 && b == 0 then 0 else 2 * Xor(a / 2, b / 2) + (if a % 2 == b % 2 then 0 else 1)
  }

  /** The number of leading bits that two locations share: the leading zeroes of their exclusive or. */
  function CommonBits(a: Loc, b: Loc): int { 64 - BitLength(Xor(a, b)) }

  lemma XorHalves(a: nat, b: nat)
    ensures Xor(a, b) / 2 == Xor(a / 2, b / 2)
  {
  }

  lemma {:induction false} XorIsZero(a: nat, b: nat)
    ensures Xor(a, b) == 0 <==> a == b
    decreases a + b
  {
    if a != 0 || b != 0 { XorIsZero(a / 2, b / 2); }
  }

  lemma {:induction false} LeadingXor(a: nat, b: nat, n: nat)
    requires n <= 64
    ensures Leading(Xor(a, b), n) == Xor(Leading(a, n), Leading(b, n))
    decreases 64 - n
  {
    hide Xor;
    if n < 64 {
      LeadingXor(a, b, n + 1);
      XorHalves(Leading(a, n + 1), Leading(b, n + 1));
    }
  }

  lemma HalfLength(x: nat)
    ensures BitLength(x / 2) == if x == 0 then 0 else BitLength(x) - 1
    ensures BitLength(x) == 0 <==> x == 0
  {
  }

  lemma {:induction false} LeadingLength(x: nat, n: nat)
    requires n <= 64
    ensures BitLength(Leading(x, n)) == if BitLength(x) <= 64 - n then 0 else BitLength(x) - (64 - n)
    decreases 64 - n
  {
    hide BitLength;
    if n < 64 {
      LeadingLength(x, n + 1);
      HalfLength(Leading(x, n + 1));
    }
  }

  /** Sixteen bits less. */
  lemma OneLevelLess(a: nat, n: nat)
    requires 16 <= n <= 64
    ensures Leading(a, n - 16) == Leading(a, n) / 65536
  {
    FourBitsLess(a, n);
    FourBitsLess(a, n - 4);
    FourBitsLess(a, n - 8);
    FourBitsLess(a, n - 12);
  }

  lemma FourBitsLess(a: nat, n: nat)
    requires 4 <= n <= 64
    ensures Leading(a, n - 4) == Leading(a, n) / 16
  {
    assert Leading(a, n - 1) == Leading(a, n) / 2;
    assert Leading(a, n - 2) == Leading(a, n) / 4;
    assert Leading(a, n - 3) == Leading(a, n) / 8;
  }

  /** The prefixes of the load balancer are leading bits. */
  lemma PrefixIsLeading(a: Loc, d: Dist)
    ensures Prefix(a, d) == Leading(a, 64 - 16 * d)
  {
    hide Prefix, Leading;
    FirstIs(a);
    if d > 0 {
      PrefixIsLeading(a, d - 1);
      PrefixSteps(a, d - 1);
      OneLevelLess(a, 64 - 16 * (d - 1));
    }
  }

  lemma FirstIs(a: Loc)
    ensures Prefix(a, 0) == a == Leading(a, 64)
  {
  }

  /** Two locations share their first bits exactly when they have that many in common. */
  lemma CommonIs(a: Loc, b: Loc, n: nat)
    requires n <= 64
    ensures Leading(a, n) == Leading(b, n) <==> CommonBits(a, b) >= n
  {
    hide Leading, Xor, BitLength;
    var x := Xor(a, b);
    LeadingXor(a, b, n);
    XorIsZero(Leading(a, n), Leading(b, n));
    LeadingLength(x, n);
    HalfLength(Leading(x, n));
  }

  /** oio_location_proximity, of two different locations */
  function ProximityOf(a: Loc, b: Loc): Level
    requires a != b
  {
    var n := CommonBits(a, b);
    if n < 8 then Nowhere else if n < 16 then Region else if n < 32 then Room else if n < 48 then Rack else Host
  }

  /** oio_location_distance */
  function DistanceOf(a: Loc, b: Loc): nat {
    if a == b then 0
    else
      var n := CommonBits(a, b);
      if n < 8 then 5 else if n < 16 then 4 else if n < 32 then 3 else if n < 48 then 2 else 1
  }

  /** oio_location_mask_after: the first location of a segment */
  function MaskAfter(loc: Loc, level: Level): nat
    requires level != Nowhere
  {
    Leading(loc, BitsOf(level)) * Pow2(64 - BitsOf(level))
  }

  /** Two locations are masked alike exactly when they are at least that near. */
  lemma MaskIsSegment(a: Loc, b: Loc, level: Level)
    requires level != Nowhere && a != b
    ensures MaskAfter(a, level) == MaskAfter(b, level) <==> Rank(ProximityOf(a, b)) >= Rank(level)
  {
    hide Leading, CommonBits, Pow2;
    var x, y, u := Leading(a, BitsOf(level)), Leading(b, BitsOf(level)), Pow2(64 - BitsOf(level));
    CommonIs(a, b, BitsOf(level));
    Pow2Positive(64 - BitsOf(level));
    if x < y { Scaled(x, y, u); }
    if y < x { Scaled(y, x, u); }
    AllCommon(a, b);
  }

  lemma Scaled(x: nat, y: nat, u: nat)
    requires x < y && u > 0
    ensures x * u < y * u
  {
    AtLeastOnce(u, y - x);
    assert u * (y - x) == y * u - x * u;
  }

  lemma AllCommon(a: Loc, b: Loc)
    ensures CommonBits(a, b) >= 64 <==> a == b
  {
    CommonIs(a, b, 64);
    FirstIs(a);
    FirstIs(b);
  }

  lemma {:induction false} LeadingFloor(a: nat, n: nat)
    requires n <= 64
    ensures Leading(a, n) * Pow2(64 - n) <= a
    decreases 64 - n
  {
    if n < 64 {
      LeadingFloor(a, n + 1);
      var q, u := Leading(a, n + 1), Pow2(64 - (n + 1));
      assert Pow2(64 - n) == 2 * u;
      Halves(q, u);
    }
  }

  lemma Halves(q: nat, u: nat)
    ensures q / 2 * (2 * u) <= q * u
  {
    var h := q / 2;
    assert h * (2 * u) == 2 * h * u;
    assert (q - 2 * h) * u == q * u - 2 * h * u;
  }

  lemma {:induction false} LeadingOfMultiple(x: nat, n: nat)
    requires n <= 64
    ensures Leading(x * Pow2(64 - n), n) == x
    decreases 64 - n
  {
    if n < 64 {
      LeadingOfMultiple(2 * x, n + 1);
      var u := Pow2(64 - (n + 1));
      assert Pow2(64 - n) == 2 * u;
      assert x * (2 * u) == 2 * x * u;
    }
  }

  /** A mask is idempotent, and no greater than the location. */
  lemma MaskTwice(a: Loc, level: Level)
    requires level != Nowhere
    ensures MaskAfter(a, level) <= a && Leading(MaskAfter(a, level), BitsOf(level)) == Leading(a, BitsOf(level))
  {
    hide Leading, Pow2;
    LeadingFloor(a, BitsOf(level));
    LeadingOfMultiple(Leading(a, BitsOf(level)), BitsOf(level));
  }

  /** The distance of core/loc.c and the tests of the load balancer agree: two locations are too
      close for a distance exactly when they are at a lower one. */
  lemma CloseIsDistance(a: Loc, b: Loc, d: Dist)
    requires d > 0
    ensures Close(a, b, d) <==> DistanceOf(a, b) < d
  {
    hide CommonBits, Prefix, Leading;
    PrefixIsLeading(a, d - 1);
    PrefixIsLeading(b, d - 1);
    CommonIs(a, b, 64 - 16 * (d - 1));
    AllCommon(a, b);
  }
}
