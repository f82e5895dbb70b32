/** The finite IEEE 754 binary32 numbers and rounding to the nearest of them: all that
    `f32` arithmetic amounts to where nothing is infinite or not a number. */
module Binary32 {

  function Pow2(e: int): (r: real)
    ensures 0.0 < r
    decreases if e < 0 then -e else e
  {
    if e == 0 then 1.0 else if e > 0 then 2.0 * Pow2(e - 1) else Pow2(e + 1) / 2.0
  }

  /** Significands have 24 bits. */
  const SIGNIFICANDS: int := 0x100_0000

  /** Sizes up to which rounding is looked at; binary32 goes far beyond. */
  const LIMIT: real := 4294967296.0

  function Scaled(k: int, e: int): real {
    k as real * Pow2(e)
  }

  ghost predicate IsSingle(v: real) {
    exists k: int, e: int :: -SIGNIFICANDS < k < SIGNIFICANDS && -149 <= e <= 104 && v == Scaled(k, e)
  }

  function Distance(x: real, y: real): real {
    if x < y then y - x else x - y
  }

  ghost predicate IsNearest(round: real -> real, x: real) {
    IsSingle(round(x)) && forall w {:trigger IsSingle(w)} :: IsSingle(w) ==> Distance(round(x), x) <= Distance(w, x)
  }

  /** Every result is a nearest one; ties may go either way. */
  ghost predicate RoundsToNearest(round: real -> real) {
    forall x {:trigger IsNearest(round, x)} :: -LIMIT <= x <= LIMIT ==> IsNearest(round, x)
  }

  /** The exact square root, before it is rounded. */
  ghost predicate IsSquareRoot(sqrt: real -> real) {
    forall x :: 0.0 <= x ==> 0.0 <= sqrt(x) && sqrt(x) * sqrt(x) == x
  }

  lemma SmallPowers()
    ensures Pow2(-1) == 0.5 && Pow2(-10) == 1.0 / 1024.0 && Pow2(-11) == 1.0 / 2048.0 && Pow2(-12) == 1.0 / 4096.0
    ensures Pow2(2) == 4.0 && Pow2(3) == 8.0
  {
    assert Pow2(-4) == 1.0 / 16.0 by { assert Pow2(-2) == 0.25; }
    assert Pow2(-8) == 1.0 / 256.0 by { assert Pow2(-6) == 1.0 / 64.0; }
    assert Pow2(-10) == 1.0 / 1024.0;
    assert Pow2(1) == 2.0;
  }

  /** Multiples of the steps that the formula needs. */
  predicate IsMultiple(w: real, k: int) {
    && -SIGNIFICANDS < k < SIGNIFICANDS
    && (w == (8 * k) as real || w == k as real || w == k as real / 2.0 || w == k as real / 2048.0 || w == k as real / 4096.0)
  }

  lemma MultiplesAreSingle(w: real, k: int)
    requires IsMultiple(w, k)
    ensures IsSingle(w)
  {
    SmallPowers();
    assert w == Scaled(k, 3) || w == Scaled(k, 0) || w == Scaled(k, -1) || w == Scaled(k, -11) || w == Scaled(k, -12);
  }

  lemma AsNearAs(round: real -> real, x: real, w: real, k: int)
    requires RoundsToNearest(round) && IsMultiple(w, k) && -LIMIT <= x <= LIMIT
    ensures Distance(round(x), x) <= Distance(w, x)
  {
    MultiplesAreSingle(w, k);
    assert IsNearest(round, x);
  }

  /** Rounding does not step over a number of the format. */
  lemma NotPast(round: real -> real, x: real, w: real, k: int)
    requires RoundsToNearest(round) && IsMultiple(w, k) && -LIMIT <= x <= LIMIT
    ensures x <= w ==> round(x) <= w
    ensures w <= x ==> w <= round(x)
  {
    AsNearAs(round, x, w, k);
  }

  lemma {:induction false} PowerUp(e: int, n: nat) returns (p: nat)
    ensures 1 <= p && Pow2(e + n) == p as real * Pow2(e)
  {
    if n == 0 {
      p := 1;
    } else {
      p := PowerUp(e, n - 1);
      assert Pow2(e + n) == 2.0 * Pow2(e + n - 1);
      p := 2 * p;
    }
  }

  lemma Products(k: real, l: real, p: real, small: real, unit: real)
    requires unit == p * small && 1.0 <= p && 0.0 < small && k < l && 0.0 <= l
    ensures k * small < l * unit
  {
    assert 0.0 <= (p - 1.0) * small;
    assert 0.0 < (l - k) * small;
    assert 0.0 <= l * (unit - small);
  }

  lemma SmallerStep(k: int, f: int, e: int)
    requires k < SIGNIFICANDS && f <= e
    ensures Scaled(k, f) < Scaled(SIGNIFICANDS, e)
  {
    var p := PowerUp(f, e - f);
    assert f + (e - f) == e;
    Products(k as real, SIGNIFICANDS as real, p as real, Pow2(f), Pow2(e));
  }

  lemma LargerStep(k: int, f: int, e: int) returns (q: int)
    requires e <= f
    ensures Scaled(k, f) == Scaled(q, e)
  {
    var p := PowerUp(e, f - e);
    q := k * p;
    Regroup(k as real, p as real, Pow2(e));
  }

  lemma Regroup(k: real, p: real, unit: real)
    ensures k * (p * unit) == (k * p) * unit
  {
  }

  /** Beyond 24 bits at a step, the numbers are multiples of the next step. */
  lemma Spacing(v: real, e: int) returns (q: int)
    requires IsSingle(v) && Scaled(SIGNIFICANDS, e) <= v
    ensures v == Scaled(q, e + 1)
  {
    var k: int, f: int :| -SIGNIFICANDS < k < SIGNIFICANDS && v == Scaled(k, f);
    if f <= e {
      SmallerStep(k, f, e);
    }
    q := LargerStep(k, f, e + 1);
  }

  lemma LargeResult(round: real -> real, x: real) returns (q: int)
    requires RoundsToNearest(round) && -LIMIT <= x <= LIMIT && 4096.0 <= round(x)
    ensures round(x) == q as real / 2048.0
    ensures 8192.0 <= round(x) ==> q % 2 == 0
  {
    SmallPowers();
    assert IsNearest(round, x);
    if 8192.0 <= round(x) {
      var half := Spacing(round(x), -11);
      q := 2 * half;
    } else {
      q := Spacing(round(x), -12);
    }
  }

  lemma HugeResult(round: real -> real, x: real) returns (q: int)
    requires RoundsToNearest(round) && -LIMIT <= x <= LIMIT && 67108864.0 <= round(x)
    ensures round(x) == (8 * q) as real
  {
    SmallPowers();
    assert IsNearest(round, x);
    q := Spacing(round(x), 2);
  }
}
