/**
 The shuffled lookup of core/lb.c: the walk that jumps over a slot by a fixed step
 visits every item once, because the step is coprime with the number of items.
 */
module Walk {
  import opened Basics
  import opened Location

  /** The list of candidate steps, without its end marker. */
  const PRIMES: seq<nat> := [524269, 524261, 524257, 2147483629, 2147483587, 2147483579, 2147483563]

  // ---- Divisibility ------------------------------------------------------------------

  ghost predicate Divides(d: int, a: int) { exists q :: d * q == a }

  ghost predicate Coprime(a: nat, b: nat) {
    forall d: nat :: d > 1 ==> !(Divides(d, a) && Divides(d, b))
  }

  ghost predicate Prime(p: nat) {
    p > 1 && forall d: nat :: Divides(d, p) ==> d == 1 || d == p
  }

  lemma Quotient(d: int, a: int) returns (q: int)
    requires Divides(d, a)
    ensures d * q == a
  {
    q :| d * q == a;
  }

  lemma Multiple(d: int, q: int)
    ensures Divides(d, d * q)
  {
  }

  lemma DividesSum(d: int, a: int, b: int)
    requires Divides(d, a) && Divides(d, b)
    ensures Divides(d, a + b) && Divides(d, a - b)
  {
    var x := Quotient(d, a);
    var y := Quotient(d, b);
    assert d * (x + y) == a + b && d * (x - y) == a - b;
  }

  lemma DividesProduct(d: int, a: int, m: int)
    requires Divides(d, a)
    ensures Divides(d, a * m)
  {
    var x := Quotient(d, a);
    Associates(d, x, m);
  }

  lemma Associates(a: int, b: int, c: int)
    ensures a * (b * c) == (a * b) * c
  {
  }

  lemma AtMostOnce(d: nat, x: int)
    requires x <= 1
    ensures d * x <= d && d * (x - 1) <= 0
  {
  }

  lemma DividesAtMost(d: nat, a: nat)
    requires Divides(d, a) && a > 0
    ensures 0 < d <= a
  {
    var q := Quotient(d, a);
    if q >= 1 {
      if d > 0 { AtLeastOnce(d, q); }
    } else {
      AtMostOnce(d, q + 1);
    }
  }

  lemma SmallMod(a: nat, n: nat)
    requires a < n
    ensures a % n == a
  {
  }

  // ---- Bezout ----------------------------------------------------------------------

  /** Extended Euclid: a common divisor that is a combination of both numbers. */
  lemma {:induction false} Euclid(a: nat, b: nat) returns (g: nat, x: int, y: int)
    requires a > 0 || b > 0
    ensures g > 0 && Divides(g, a) && Divides(g, b) && a * x + b * y == g
    decreases b
  {
    if b == 0 {
      g, x, y := a, 1, 0;
      assert a * 1 == a && a * 0 == 0;
    } else {
      var q, r := a / b, a % b;
      var g', x', y' := Euclid(b, r);
      g := g';
      assert a == b * q + r;
      DividesProduct(g, b, q);
      DividesSum(g, b * q, r);
      x, y := y', x' - q * y';
      Combined(a, b, q, r, x', y');
    }
  }

  lemma Combined(a: int, b: int, q: int, r: int, x: int, y: int)
    requires a == b * q + r
    ensures a * y + b * (x - q * y) == b * x + r * y
  {
    assert a * y == b * q * y + r * y;
    assert b * (x - q * y) == b * x - b * (q * y);
  }

  /** Euclid's lemma: a number coprime with one factor divides the other. */
  lemma CoprimeDivides(n: nat, j: nat, m: int)
    requires n > 0 && Coprime(j, n) && Divides(n, m * j)
    ensures Divides(n, m)
  {
    var g, x, y := Euclid(j, n);
    assert g == 1;
    var q := Quotient(n, m * j);
    Expand(n, j, m, q, x, y);
  }

  lemma Expand(n: int, j: int, m: int, q: int, x: int, y: int)
    requires j * x + n * y == 1 && m * j == n * q
    ensures m == n * (q * x + m * y)
  {
    calc {
      m;
      m * (j * x + n * y);
      m * (j * x) + m * (n * y);
      { assert m * (j * x) == (m * j) * x; assert m * (n * y) == n * (m * y); }
      (n * q) * x + n * (m * y);
      { assert (n * q) * x == n * (q * x); }
      n * (q * x) + n * (m * y);
      n * (q * x + m * y);
    }
  }

  // ---- The walk ----------------------------------------------------------------------

  /** Where the walk stands after `k` jumps. */
  function At(start: nat, jump: nat, len: nat, k: nat): (i: nat)
    requires start < len
    ensures i < len
  {
    if k == 0 then start else (At(start, jump, len, k - 1) + jump) % len
  }

  lemma AtStart(start: nat, jump: nat, len: nat)
    requires start < len
    ensures At(start, jump, len, 0) == start
  {
  }

  lemma AtStep(start: nat, jump: nat, len: nat, k: nat)
    requires start < len
    ensures At(start, jump, len, k + 1) == (At(start, jump, len, k) + jump) % len
  {
  }

  lemma {:induction false} AtIs(start: nat, jump: nat, len: nat, k: nat)
    requires start < len
    ensures Divides(len, start + k * jump - At(start, jump, len, k))
  {
    if k == 0 {
      assert len * 0 == 0;
    } else {
      AtIs(start, jump, len, k - 1);
      var p := At(start, jump, len, k - 1);
      var q, r := (p + jump) / len, (p + jump) % len;
      assert len * q == p + jump - r;
      assert k * jump == (k - 1) * jump + jump;
      DividesSum(len, start + (k - 1) * jump - p, p + jump - r);
    }
  }

  /** Two different numbers of jumps, less than a round apart, never lead to the same item. */
  lemma NoReturn(start: nat, jump: nat, len: nat, a: nat, b: nat)
    requires start < len && Coprime(jump, len) && a < b < a + len
    ensures At(start, jump, len, a) != At(start, jump, len, b)
  {
    if At(start, jump, len, a) == At(start, jump, len, b) {
      AtIs(start, jump, len, a);
      AtIs(start, jump, len, b);
      var p := At(start, jump, len, a);
      DividesSum(len, start + b * jump - p, start + a * jump - p);
      assert (start + b * jump - p) - (start + a * jump - p) == (b - a) * jump;
      CoprimeDivides(len, jump, b - a);
      DividesAtMost(len, b - a);
    }
  }

  ghost function Visited(start: nat, jump: nat, len: nat, n: nat): set<nat>
    requires start < len
  {
    set k: nat | 1 <= k <= n :: At(start, jump, len, k)
  }

  lemma {:induction false} VisitedGrows(start: nat, jump: nat, len: nat, n: nat)
    requires start < len && Coprime(jump, len) && n <= len
    ensures |Visited(start, jump, len, n)| == n
  {
    if n == 0 {
      assert Visited(start, jump, len, 0) == {};
    } else {
      VisitedGrows(start, jump, len, n - 1);
      var x := At(start, jump, len, n);
      assert Visited(start, jump, len, n) == Visited(start, jump, len, n - 1) + {x};
      forall k: nat | 1 <= k <= n - 1 ensures At(start, jump, len, k) != x {
        NoReturn(start, jump, len, k, n);
      }
    }
  }

  ghost function Below(n: nat): (b: set<nat>)
    ensures |b| == n && forall i :: i in b <==> 0 <= i < n
  {
    if n == 0 then {} else Below(n - 1) + {n - 1}
  }

  lemma FullSubset(a: set<nat>, b: set<nat>)
    requires a <= b && |a| == |b|
    ensures a == b
  {
    if a != b {
      var x :| x in b && x !in a;
      assert a <= b - {x};
      SubsetSize(a, b - {x});
    }
  }

  lemma {:induction false} SubsetSize(a: set<nat>, b: set<nat>)
    requires a <= b
    ensures |a| <= |b|
  {
    if a != {} {
      var x :| x in a;
      SubsetSize(a - {x}, b - {x});
    }
  }

  /** From any start, one round of jumps visits every index, each exactly once. */
  lemma WalkIsComplete(start: nat, jump: nat, len: nat)
    requires start < len && Coprime(jump, len)
    ensures Visited(start, jump, len, len) == Below(len)
    ensures forall a, b :: 1 <= a < b <= len ==> At(start, jump, len, a) != At(start, jump, len, b)
  {
    VisitedGrows(start, jump, len, len);
    FullSubset(Visited(start, jump, len, len), Below(len));
    forall a, b | 1 <= a < b <= len
      ensures At(start, jump, len, a) != At(start, jump, len, b)
    {
      NoReturn(start, jump, len, a, b);
    }
  }

  /** The number of jumps to an index. */
  lemma Reached(start: nat, jump: nat, len: nat, i: nat) returns (k: nat)
    requires start < len && Coprime(jump, len) && i < len
    ensures 1 <= k <= len && At(start, jump, len, k) == i
  {
    WalkIsComplete(start, jump, len);
    assert i in Below(len);
    k :| 1 <= k <= len && At(start, jump, len, k) == i;
  }

  // ---- The choice of the step ----------------------------------------------------------

  /** In the middle third, and not next to a multiple of the number of items. */
  predicate Suitable(step: nat, len: nat) {
    step != 1 && step != len - 1 && step > len / 3 && step < len - len / 3
  }

  function FirstSuitable(primes: seq<nat>, len: nat): nat
    requires len > 0
  {
    if primes == [] then SHUFFLE_JUMP
    else if Suitable(primes[0] % len, len) then primes[0] % len
    else FirstSuitable(primes[1..], len)
  }

  /** The step that a rehash leaves in a slot of `len` items. */
  function JumpFor(len: nat): nat { if len == 0 then SHUFFLE_JUMP else FirstSuitable(PRIMES, len) }

  /** The step is the remainder of a candidate, the first one that suits. */
  ghost predicate Picks(len: nat, i: nat, jump: nat)
    requires i < |PRIMES|
  {
    && len > 0 && jump == PRIMES[i] % len && Suitable(jump, len)
    && forall j :: 0 <= j < i ==> !Suitable(PRIMES[j] % len, len)
  }

  /** The loop of _slot_rehash over the candidate steps. */
  method ChooseJump(len: nat) returns (jump: nat)
    ensures jump == JumpFor(len)
    ensures jump == SHUFFLE_JUMP || (exists i :: 0 <= i < |PRIMES| && Picks(len, i, jump))
    ensures jump == SHUFFLE_JUMP || (len / 3 < jump < len - len / 3 && jump != 1 && jump != len - 1)
    ensures len > 0 ==> forall i :: 0 <= i < |PRIMES| && Suitable(PRIMES[i] % len, len) ==> exists j :: 0 <= j <= i && Picks(len, j, jump)
  {
    jump := SHUFFLE_JUMP;
    var low := len / 3;
    var high := len - low;
    var i := 0;
    while len > 0 && i < |PRIMES|
      invariant 0 <= i <= |PRIMES| && jump == SHUFFLE_JUMP
      invariant len > 0 ==> FirstSuitable(PRIMES[i..], len) == JumpFor(len)
      invariant len > 0 ==> forall j :: 0 <= j < i ==> !Suitable(PRIMES[j] % len, len)
    {
      var jumpMod := PRIMES[i] % len;
      if jumpMod != 1 && jumpMod != len - 1 && jumpMod > low && jumpMod < high {
        assert Picks(len, i, jumpMod);
        return jumpMod;
      }
      i := i + 1;
    }
  }

  lemma PrimeCoprime(p: nat, n: nat)
    requires Prime(p) && 0 < n && !Divides(p, n)
    ensures Coprime(p, n)
  {
  }

  lemma ReducedCoprime(p: nat, n: nat)
    requires 0 < n && Coprime(p, n)
    ensures Coprime(p % n, n)
  {
    var q, r := p / n, p % n;
    assert p == n * q + r;
    forall d: nat | d > 1 && Divides(d, r)
      ensures !Divides(d, n)
    {
      if Divides(d, n) {
        DividesProduct(d, n, q);
        DividesSum(d, n * q, r);
      }
    }
  }

  /** The number of items for which the chosen step divides them: twice the first candidate. */
  const UNLUCKY: nat := 1048538

  ghost predicate PrimesArePrime() {
    Prime(SHUFFLE_JUMP) && forall i :: 0 <= i < |PRIMES| ==> Prime(PRIMES[i])
  }

  /** A suitable step taken from a prime is coprime with the number of items, unless they
      are twice that prime. */
  lemma SuitableStep(p: nat, len: nat)
    requires 0 < len && Prime(p) && Suitable(p % len, len) && len != 2 * p
    ensures Coprime(p % len, len)
  {
    if Divides(p, len) {
      DividesAtMost(p, len);
      var q := Quotient(p, len);
      Thirds(p, q, len);
    }
    PrimeCoprime(p, len);
    ReducedCoprime(p, len);
  }

  /** A divisor of the number of items other than its half is not in the middle third. */
  lemma Thirds(p: nat, q: int, len: nat)
    requires 0 < p <= len && p * q == len && q != 2
    ensures !Suitable(p % len, len)
  {
    if p == len {
      assert p % len == 0 by { assert p == len * 1 + 0; }
    } else {
      SmallMod(p, len);
      if q <= 1 {
        AtMostOnce(p, q);
      } else {
        AtLeastOnce(p, q - 2);
        assert p * (q - 2) == p * q - 2 * p;
      }
    }
  }

  lemma {:induction false} FirstIsCoprime(primes: seq<nat>, len: nat)
    requires 0 < len < SHUFFLE_JUMP && Prime(SHUFFLE_JUMP)
    requires forall i :: 0 <= i < |primes| ==> Prime(primes[i]) && len != 2 * primes[i]
    ensures Coprime(FirstSuitable(primes, len), len)
  {
    if primes == [] {
      if Divides(SHUFFLE_JUMP, len) { DividesAtMost(SHUFFLE_JUMP, len); }
      PrimeCoprime(SHUFFLE_JUMP, len);
    } else if Suitable(primes[0] % len, len) {
      SuitableStep(primes[0], len);
    } else {
      FirstIsCoprime(primes[1..], len);
    }
  }

  /** The step that a rehash picks is coprime with the number of items, except for one number. */
  lemma JumpIsCoprime(len: nat)
    requires 0 < len < SHUFFLE_JUMP && PrimesArePrime()
    ensures Coprime(JumpFor(len), len) <==> len != UNLUCKY
  {
    if len == UNLUCKY {
      assert JumpFor(len) == 524269;
      Multiple(524269, 1);
      Multiple(524269, 2);
    } else if len == 2 * 524261 || len == 2 * 524257 {
      SuitableStep(PRIMES[0], len);
    } else {
      FirstIsCoprime(PRIMES, len);
    }
  }

  /** With that one number of items, the walk only ever sees two of them. */
  lemma {:induction false} UnluckyWalk(start: nat, k: nat)
    requires start < UNLUCKY
    ensures
      var i := At(start, JumpFor(UNLUCKY), UNLUCKY, k);
      i == start || i == (start + 524269) % UNLUCKY
  {
    assert JumpFor(UNLUCKY) == 524269;
    if k > 0 { UnluckyWalk(start, k - 1); }
  }
}
