/** Definitions shared by several components. */
module Basics {

  datatype Option<+T> = None | Some(value: T)

  /** Where a binary search looks next. */
  function Middle(start: nat, end: nat): (pivot: nat)
    requires start < end
    ensures start <= pivot < end
  {
    start + (end - start) / 2
  }

  function Pow2(e: nat): nat { if e == 0 then 1 else 2 * Pow2(e - 1) }

  lemma {:induction false} Pow2Positive(e: nat)
    ensures Pow2(e) > 0
  {
    if e > 0 { Pow2Positive(e - 1); }
  }

  lemma {:induction false} Pow2Sum(a: nat, b: nat)
    ensures Pow2(a + b) == Pow2(a) * Pow2(b)
  {
    if a > 0 {
      Pow2Sum(a - 1, b);
      Twice(Pow2(a - 1), Pow2(b));
    }
  }

  lemma Twice(x: nat, y: nat)
    ensures 2 * x * y == 2 * (x * y)
  {
  }

  lemma {:induction false} Pow2Monotone(a: nat, b: nat)
    requires a <= b
    ensures Pow2(a) <= Pow2(b)
  {
    if a < b { Pow2Monotone(a, b - 1); }
  }

  lemma {:induction false} AtLeastOnce(d: nat, k: nat)
    requires k >= 1
    ensures d * k >= d
  {
    if k > 1 { AtLeastOnce(d, k - 1); }
  }

  lemma DivUnique(x: nat, d: nat, q: nat, r: nat)
    requires d > 0 && r < d && x == d * q + r
    ensures x / d == q
  {
    var p := x / d;
    assert x == d * p + x % d;
    if p > q {
      assert d * (p - q) == d * p - d * q;
      AtLeastOnce(d, p - q);
    } else if p < q {
      assert d * (q - p) == d * q - d * p;
      AtLeastOnce(d, q - p);
    }
  }
}
