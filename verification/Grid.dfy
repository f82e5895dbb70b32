/** Times that are a whole number of steps apart. */
module Grid {

  predicate SameGrid(x: int, y: int, d: nat)
    requires d > 0
    decreases if x < y then y - x else x - y
  {
    if x == y then true
    else if x + d <= y then SameGrid(x + d, y, d)
    else if y + d <= x then SameGrid(x, y + d, d)
    else false
  }

  lemma Scale(x: int, y: int, d: nat)
    requires x <= y
    ensures x * d <= y * d
  {
  }

  lemma ScaleLess(x: int, y: int, d: nat)
    requires d > 0
    ensures x < y <==> x * d < y * d
  {
    if x < y {
      Scale(x + 1, y, d);
      assert (x + 1) * d == x * d + d;
    } else {
      Scale(y, x, d);
    }
  }

  lemma Remainder(x: int, q: int, r: int, d: nat)
    requires d > 0 && 0 <= r < d && x == q * d + r
    ensures x / d == q && x % d == r
  {
    var q', r' := x / d, x % d;
    assert x == q' * d + r';
    assert (q' + 1) * d == q' * d + d && (q + 1) * d == q * d + d;
    if q' < q {
      Scale(q' + 1, q, d);
    } else if q < q' {
      Scale(q + 1, q', d);
    }
  }

  lemma RemainderStep(x: int, d: nat)
    requires d > 0
    ensures (x + d) % d == x % d
  {
    var q, r := x / d, x % d;
    assert x + d == (q + 1) * d + r;
    Remainder(x + d, q + 1, r, d);
  }

  lemma RemainderDiffers(x: int, y: int, d: nat)
    requires d > 0 && x < y < x + d
    ensures x % d != y % d
  {
    if x % d == y % d {
      var p, q := x / d, y / d;
      assert y - x == (q - p) * d by {
        assert x == p * d + x % d && y == q * d + y % d;
      }
      if q - p <= 0 {
        Scale(q - p, 0, d);
      } else {
        Scale(1, q - p, d);
      }
      assert false;
    }
  }

  /** Being on the same grid is congruence. */
  lemma {:induction false} Congruence(x: int, y: int, d: nat)
    requires d > 0
    ensures SameGrid(x, y, d) <==> x % d == y % d
    decreases if x < y then y - x else x - y
  {
    if x == y {
    } else if x + d <= y {
      RemainderStep(x, d);
      Congruence(x + d, y, d);
    } else if y + d <= x {
      RemainderStep(y, d);
      Congruence(x, y + d, d);
    } else if x < y {
      RemainderDiffers(x, y, d);
    } else {
      RemainderDiffers(y, x, d);
    }
  }

  lemma Transitive(x: int, y: int, z: int, d: nat)
    requires d > 0 && SameGrid(x, y, d)
    ensures SameGrid(y, x, d)
    ensures SameGrid(y, z, d) ==> SameGrid(x, z, d)
  {
    Congruence(x, y, d);
    Congruence(y, x, d);
    Congruence(y, z, d);
    Congruence(x, z, d);
  }

  /** The neighbours of a grid point are a step away. */
  lemma NextPoint(x: int, a: int, d: nat)
    requires d > 0 && SameGrid(x, a, d)
    ensures SameGrid(x + d, a, d) && SameGrid(x - d, a, d)
    ensures forall y :: x - d < y < x + d && y != x ==> !SameGrid(y, a, d)
  {
    Transitive(x, a, a, d);
    Transitive(x + d, x, a, d);
    Transitive(x - d, x, a, d);
    forall y | x - d < y < x + d && y != x
      ensures !SameGrid(y, a, d)
    {
      if SameGrid(y, a, d) {
        Transitive(y, a, x, d);
      }
    }
  }

  /** Grid points in order are a whole number of steps apart. */
  lemma {:induction false} Steps(x: int, y: int, d: nat) returns (k: nat)
    requires d > 0 && SameGrid(x, y, d) && x <= y
    ensures y == x + k * d
    decreases y - x
  {
    if x == y {
      k := 0;
    } else {
      k := Steps(x + d, y, d);
      assert (k + 1) * d == k * d + d;
      k := k + 1;
    }
  }

  /** `n` times `d`, by repeated addition: the solver need not multiply. */
  function Mul(n: nat, d: nat): nat {
    if n == 0 then 0 else Mul(n - 1, d) + d
  }

  lemma {:induction false} MulIsProduct(n: nat, d: nat)
    ensures Mul(n, d) == n * d
  {
    if n > 0 {
      MulIsProduct(n - 1, d);
      assert n * d == (n - 1) * d + d;
    }
  }

  lemma {:induction false} MulAdd(m: nat, n: nat, d: nat)
    ensures Mul(m + n, d) == Mul(m, d) + Mul(n, d)
  {
    if n > 0 {
      MulAdd(m, n - 1, d);
    }
  }

  lemma MulAscend(m: nat, n: nat, d: nat)
    requires m <= n
    ensures Mul(m, d) <= Mul(n, d)
  {
    MulAdd(m, n - m, d);
  }

  lemma MulOrder(m: nat, n: nat, d: nat)
    ensures m <= n ==> Mul(m, d) <= Mul(n, d)
  {
    if m <= n {
      MulAscend(m, n, d);
    }
  }

  lemma {:induction false} MulMul(m: nat, n: nat, d: nat)
    ensures Mul(m, Mul(n, d)) == Mul(Mul(m, n), d)
  {
    if m > 0 {
      MulMul(m - 1, n, d);
      MulAdd(Mul(m - 1, n), n, d);
    }
  }

  /** How many whole steps fit into `k`. */
  function WholeSteps(k: nat, d: nat): nat
    requires d > 0
  {
    if k < d then 0 else 1 + WholeSteps(k - d, d)
  }

  lemma {:induction false} WholeStepsBound(k: nat, d: nat)
    requires d > 0
    ensures Mul(WholeSteps(k, d), d) <= k < Mul(WholeSteps(k, d), d) + d
  {
    if k >= d {
      WholeStepsBound(k - d, d);
    }
  }

  lemma WholeStepsAre(k: nat, d: nat, q: nat)
    requires d > 0 && Mul(q, d) <= k < Mul(q, d) + d
    ensures WholeSteps(k, d) == q
  {
    var p := WholeSteps(k, d);
    WholeStepsBound(k, d);
    if p < q {
      MulAscend(p + 1, q, d);
    } else if q < p {
      MulAscend(q + 1, p, d);
    }
  }

  lemma WholeStepsAscend(k: nat, l: nat, d: nat)
    requires d > 0 && k <= l
    ensures WholeSteps(k, d) <= WholeSteps(l, d)
    ensures l <= k + 1 ==> WholeSteps(l, d) <= WholeSteps(k, d) + 1
  {
    var p, q := WholeSteps(k, d), WholeSteps(l, d);
    WholeStepsBound(k, d);
    WholeStepsBound(l, d);
    MulOrder(q + 1, p, d);
    MulOrder(p + 2, q, d);
  }

  /** The point `i` steps after the first. */
  function Point(first: int, d: nat, i: nat): int {
    first + Mul(i, d)
  }

  lemma PointIsLinear(first: int, d: nat, i: nat)
    ensures Point(first, d, i) == first + i * d
  {
    MulIsProduct(i, d);
  }

  lemma PointOnGrid(first: int, d: nat, i: nat)
    requires d > 0
    ensures SameGrid(Point(first, d, i), first, d)
  {
    PointIsLinear(first, d, i);
    Multiple(first, i, d);
  }

  lemma {:induction false} Multiple(x: int, k: nat, d: nat)
    requires d > 0
    ensures SameGrid(x + k * d, x, d)
  {
    if k == 0 {
    } else {
      Multiple(x, k - 1, d);
      assert k * d == (k - 1) * d + d;
      NextPoint(x + (k - 1) * d, x, d);
    }
  }

  /** The first point of the grid of `y` that is not below `x`. */
  function FirstFrom(x: int, y: int, d: nat): int
    requires d > 0 && x <= y
    decreases y - x
  {
    if y - d < x then y else FirstFrom(x, y - d, d)
  }

  lemma {:induction false} FirstFromIsFirst(x: int, y: int, d: nat)
    requires d > 0 && x <= y
    ensures var a := FirstFrom(x, y, d); SameGrid(a, y, d) && x <= a < x + d && a <= y
    ensures forall z :: SameGrid(z, y, d) && x <= z ==> FirstFrom(x, y, d) <= z
    decreases y - x
  {
    NextPoint(y, y, d);
    if x <= y - d {
      FirstFromIsFirst(x, y - d, d);
      Transitive(FirstFrom(x, y - d, d), y - d, y, d);
    }
    NoneBelow(FirstFrom(x, y, d), x, y, d);
  }

  /** Below a point of the grid there is none for a step. */
  lemma NoneBelow(a: int, x: int, y: int, d: nat)
    requires d > 0 && SameGrid(a, y, d) && a < x + d
    ensures forall z :: SameGrid(z, y, d) && x <= z ==> a <= z
  {
    NextPoint(a, y, d);
  }

  /** The last point of the grid of `y` that is not above `x`. */
  function LastUpTo(x: int, y: int, d: nat): int
    requires d > 0 && y <= x
    decreases x - y
  {
    if x < y + d then y else LastUpTo(x, y + d, d)
  }

  lemma {:induction false} LastUpToIsLast(x: int, y: int, d: nat)
    requires d > 0 && y <= x
    ensures var a := LastUpTo(x, y, d); SameGrid(a, y, d) && y <= a <= x < a + d
    ensures forall z :: SameGrid(z, y, d) && z <= x ==> z <= LastUpTo(x, y, d)
    decreases x - y
  {
    NextPoint(y, y, d);
    if y + d <= x {
      LastUpToIsLast(x, y + d, d);
      Transitive(LastUpTo(x, y + d, d), y + d, y, d);
    }
    NoneAbove(LastUpTo(x, y, d), x, y, d);
  }

  lemma NoneAbove(a: int, x: int, y: int, d: nat)
    requires d > 0 && SameGrid(a, y, d) && x < a + d
    ensures forall z :: SameGrid(z, y, d) && z <= x ==> z <= a
  {
    NextPoint(a, y, d);
  }
}
