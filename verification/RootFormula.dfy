/** `get_antennas_from_baseline` (src/misc/mod.rs): a square root in `f32` inverts the
    triangular numbering, up to 4096 antennas. */
module RootFormula {
  import opened Binary32
  import opened Grid
  import opened Misc
  import opened Wrappers

  /** The radicand; the program computes it in `usize`. */
  function Radicand(baseline: nat, n: nat): int {
    4 * n * n + 4 * n - 8 * baseline + 1
  }

  function RoundedRoot(x: int, round: real -> real, sqrt: real -> real): real {
    round(sqrt(round(x as real)))
  }

  /** Each step of the formula is rounded; the cast to `usize` rounds towards zero and
      saturates at zero. */
  function Ant1FromRoot(root: real, n: nat, round: real -> real): nat {
    var ant1 := round(round(round(-0.5 * root) + round(n as real)) + 0.5);
    if ant1 < 0.0 then 0 else ant1.Floor
  }

  function GetAntennasFromBaseline(baseline: nat, n: nat, round: real -> real, sqrt: real -> real): Outcome<Option<(nat, nat)>, ()> {
    if 4 * n * n + 4 * n < 8 * baseline then Panic
    else
      var ant1 := Ant1FromRoot(RoundedRoot(Radicand(baseline, n), round, sqrt), n, round);
      var rowOffset := ant1 * n - (ant1 * ant1 + ant1) / 2;
      if rowOffset < 0 || baseline < rowOffset || n == 0 then Panic
      else if ant1 > n - 1 || baseline - rowOffset > n - 1 then Ok(None)
      else Ok(Some((ant1, baseline - rowOffset)))
  }

  // ---------------------------------------------------------------- the radicand

  lemma OddSquare(n: int, a: int)
    ensures (2 * (n - a) + 1) * (2 * (n - a) + 1) == 4 * n * n - 8 * (a * n) + 4 * (a * a) + 4 * n - 4 * a + 1
  {
  }

  lemma RadicandOfPair(ant1: nat, ant2: nat, n: nat, b: nat)
    requires ant1 <= ant2 < n && b == BaselineIndex(ant1, ant2, n)
    ensures Radicand(b, n) == (2 * (n - ant1) + 1) * (2 * (n - ant1) + 1) - 8 * (ant2 - ant1)
  {
    TriangleClosed(ant1);
    OddSquare(n, ant1);
    assert ant1 * (ant1 + 1) == ant1 * ant1 + ant1;
  }

  lemma RadicandBase(n: nat)
    ensures 4 * n * n + 4 * n == 8 * GetBaselineCount(n)
  {
    TriangleClosed(n);
    assert 4 * n * n + 4 * n == 4 * (n * (n + 1));
  }

  lemma TriangleAsWritten(n: nat)
    ensures (n * n + n) / 2 == Triangle(n)
  {
    TriangleClosed(n);
    assert n * n + n == n * (n + 1);
  }

  // ---------------------------------------------------------------- rounding the radicand and its root

  /** The largest radicand that matters: 8193 squared, of the first pair of 4096 antennas. */
  const LARGEST: int := 67125249

  /** Rounding the radicand is off by 4 at most, and by 1 next to a multiple of 8. */
  lemma RoundedRadicand(x: int, round: real -> real)
    requires RoundsToNearest(round) && 0 <= x <= LARGEST
    ensures x < SIGNIFICANDS ==> round(x as real) == x as real
    ensures (x - 4) as real <= round(x as real) <= (x + 4) as real
    ensures x % 8 == 1 ==> (x - 1) as real <= round(x as real) <= (x + 1) as real
  {
    var k := (x + 4) / 8;
    assert 8 * k <= x + 4 < 8 * k + 8 && (x % 8 == 1 ==> 8 * k == x - 1);
    AsNearAs(round, x as real, (8 * k) as real, k);
    if x < SIGNIFICANDS {
      NotPast(round, x as real, x as real, x);
    }
  }

  lemma Positive(x: real, y: real)
    requires 0.0 < x && 0.0 < y
    ensures 0.0 < x * y
  {
  }

  lemma SquareOrder(s: real, b: real)
    requires 0.0 <= s && 0.0 <= b
    ensures s * s < b * b <==> s < b
  {
    assert b * b - s * s == (b - s) * (b + s);
    if s < b {
      Positive(b - s, b + s);
    } else if b < s {
      Positive(s - b, b + s);
    }
  }

  lemma ShiftedSquare(m: int, step: real)
    ensures (m as real + step) * (m as real + step) == (m * m) as real + 2.0 * m as real * step + step * step
  {
  }

  lemma OddSquareRemainder(m: nat)
    requires m % 2 == 1
    ensures m * m % 8 == 1
  {
    var k := m / 2;
    TriangleClosed(k);
    assert m * m == 4 * (k * (k + 1)) + 1;
  }

  lemma NoneBetween(v: real, q: int, m: nat)
    requires v == q as real / 2048.0 && m as real <= v < m as real + 1.0 / 2048.0
    ensures v == m as real
  {
    var w := 2048 * m;
    assert w as real == 2048.0 * m as real;
    Whole(q, w);
  }

  lemma Whole(q: int, w: int)
    requires w as real <= q as real < w as real + 1.0
    ensures q == w
  {
  }

  lemma Nearer(v: real, s: real, m: real, half: real)
    requires m <= v && Distance(v, s) <= Distance(m, s)
    requires m < s < m + half
    ensures v < m + 2.0 * half
  {
  }

  /** Just above a large whole number, rounding goes back to it. */
  lemma RoundsDown(s: real, m: nat, round: real -> real)
    requires RoundsToNearest(round) && 4096 <= m <= 8193 && m as real < s < m as real + 1.0 / 4096.0
    ensures round(s) == m as real
  {
    AsNearAs(round, s, m as real, m);
    NotPast(round, s, m as real, m);
    Nearer(round(s), s, m as real, 1.0 / 4096.0);
    var q := LargeResult(round, s);
    NoneBetween(round(s), q, m);
  }

  /** More than half a step above a large whole number, it does not. */
  lemma RoundsUp(s: real, t: nat, round: real -> real)
    requires RoundsToNearest(round) && 4096 <= t <= 8191 && t as real + 1.0 / 4096.0 < s <= LIMIT
    ensures t as real + 1.0 / 2048.0 <= round(s)
  {
    var next := (2048 * t + 1) as real / 2048.0;
    NotPast(round, s, t as real, t);
    AsNearAs(round, s, next, 2048 * t + 1);
    var q := LargeResult(round, s);
    if round(s) < t as real + 1.0 / 2048.0 {
      NoneBetween(round(s), q, t);
    }
  }

  lemma LargeOdd(m: nat)
    requires SIGNIFICANDS <= m * m
    ensures 4096 <= m
  {
    if m < 4096 {
      Scale(m, 4095, m);
    }
  }

  lemma BelowHalfStep(s: real, m: nat)
    requires 0.0 <= s && s * s <= (m * m) as real + 1.0 && 4096 <= m
    ensures s < m as real + 1.0 / 4096.0
  {
    ShiftedSquare(m, 1.0 / 4096.0);
    SquareOrder(s, m as real + 1.0 / 4096.0);
  }

  /** What the exact root `s` that gets rounded satisfies. */
  lemma UnroundedRoot(x: int, round: real -> real, sqrt: real -> real) returns (s: real, y: real)
    requires RoundsToNearest(round) && IsSquareRoot(sqrt) && 4 <= x <= LARGEST
    ensures RoundedRoot(x, round, sqrt) == round(s) && 0.0 <= s <= LIMIT && s * s == y
    ensures (x - 4) as real <= y <= (x + 4) as real && (x < SIGNIFICANDS ==> y == x as real)
    ensures x % 8 == 1 ==> y <= (x + 1) as real
  {
    RoundedRadicand(x, round);
    y := round(x as real);
    assert 0.0 <= y <= 67125253.0;
    s := sqrt(y);
    RootIsSmall(s, y);
  }

  lemma RootIsSmall(s: real, y: real)
    requires 0.0 <= s && s * s == y && y <= 67125253.0
    ensures s <= LIMIT
  {
    SquareOrder(8194.0, s);
  }

  lemma AtMost(s: real, m: nat)
    requires 0.0 <= s && s * s <= (m * m) as real
    ensures s <= m as real
  {
    ShiftedSquare(m, 0.0);
    SquareOrder(m as real, s);
  }

  /** The root of a radicand is at most an odd `m` when the radicand is at most its square. */
  lemma RootAtMost(x: int, m: nat, round: real -> real, sqrt: real -> real)
    requires RoundsToNearest(round) && IsSquareRoot(sqrt)
    requires 8 <= x <= LARGEST && m % 2 == 1 && m <= 8193 && (x == m * m || x + 8 <= m * m)
    ensures RoundedRoot(x, round, sqrt) <= m as real
  {
    var s, y := UnroundedRoot(x, round, sqrt);
    if y <= (m * m) as real {
      AtMost(s, m);
    } else {
      OddSquareRemainder(m);
      LargeOdd(m);
      BelowHalfStep(s, m);
    }
    RoundedAtMost(s, m, round);
  }

  lemma RoundedAtMost(s: real, m: nat, round: real -> real)
    requires RoundsToNearest(round) && 0.0 <= s && m <= 8193
    requires s <= m as real || (4096 <= m && s < m as real + 1.0 / 4096.0)
    ensures round(s) <= m as real
  {
    if s <= m as real {
      NotPast(round, s, m as real, m);
    } else {
      RoundsDown(s, m, round);
    }
  }

  /** The root of a number 4 above a square is well above the number that was squared. */
  lemma AboveStep(s: real, t: nat)
    requires 0.0 <= s && (t * t) as real + 4.0 <= s * s
    ensures t < 4096 ==> t as real + 1.0 / 2048.0 <= s
    ensures t <= 8191 ==> t as real + 1.0 / 4096.0 < s
  {
    if t < 4096 {
      ShiftedSquare(t, 1.0 / 2048.0);
      SquareOrder(s, t as real + 1.0 / 2048.0);
    } else if t <= 8191 {
      ShiftedSquare(t, 1.0 / 4096.0);
      SquareOrder(t as real + 1.0 / 4096.0, s);
    }
  }

  /** It is a step of 1/2048 above `t` when the radicand is 8 above its square. */
  lemma RootAtLeast(x: int, t: nat, round: real -> real, sqrt: real -> real)
    requires RoundsToNearest(round) && IsSquareRoot(sqrt)
    requires t <= 8191 && t * t + 8 <= x <= LARGEST
    ensures t as real + 1.0 / 2048.0 <= RoundedRoot(x, round, sqrt)
  {
    var s, y := UnroundedRoot(x, round, sqrt);
    AboveStep(s, t);
    RoundedAtLeast(s, t, round);
  }

  lemma RoundedAtLeast(s: real, t: nat, round: real -> real)
    requires RoundsToNearest(round) && t <= 8191 && t as real + 1.0 / 4096.0 < s <= LIMIT
    requires t < 4096 ==> t as real + 1.0 / 2048.0 <= s
    ensures t as real + 1.0 / 2048.0 <= round(s)
  {
    if t < 4096 {
      NotPast(round, s, (2048 * t + 1) as real / 2048.0, 2048 * t + 1);
    } else {
      RoundsUp(s, t, round);
    }
  }

  // ---------------------------------------------------------------- the row

  lemma ProductWithin(root: real, ant1: nat, n: nat, round: real -> real)
    requires RoundsToNearest(round) && ant1 < n <= 4096
    requires (2 * (n - ant1) - 1) as real + 1.0 / 2048.0 <= root <= (2 * (n - ant1) + 1) as real
    ensures (2 * ant1 - 1) as real / 2.0 <= round(-0.5 * root) + n as real <= (4096 * ant1 + 2047) as real / 4096.0
  {
    var low, high := -(2 * (n - ant1) + 1), -(2048 * (2 * (n - ant1) - 1) + 1);
    NotPast(round, -0.5 * root, low as real / 2.0, low);
    NotPast(round, -0.5 * root, high as real / 4096.0, high);
  }

  lemma SumWithin(v: real, ant1: nat, round: real -> real)
    requires RoundsToNearest(round) && ant1 < 4096
    requires (2 * ant1 - 1) as real / 2.0 <= v <= (4096 * ant1 + 2047) as real / 4096.0
    ensures ant1 as real <= round(round(v) + 0.5) < (ant1 + 1) as real
  {
    NotPast(round, v, (2 * ant1 - 1) as real / 2.0, 2 * ant1 - 1);
    NotPast(round, v, (4096 * ant1 + 2047) as real / 4096.0, 4096 * ant1 + 2047);
    NotPast(round, round(v) + 0.5, ant1 as real, ant1);
    NotPast(round, round(v) + 0.5, (4096 * ant1 + 4095) as real / 4096.0, 4096 * ant1 + 4095);
  }

  lemma RowFromRoot(root: real, ant1: nat, n: nat, round: real -> real)
    requires RoundsToNearest(round) && ant1 < n <= 4096
    requires (2 * (n - ant1) - 1) as real + 1.0 / 2048.0 <= root <= (2 * (n - ant1) + 1) as real
    ensures Ant1FromRoot(root, n, round) == ant1
  {
    NotPast(round, n as real, n as real, n);
    ProductWithin(root, ant1, n, round);
    SumWithin(round(-0.5 * root) + n as real, ant1, round);
  }

  // ---------------------------------------------------------------- the pair

  lemma FormulaOfPair(ant1: nat, ant2: nat, n: nat, round: real -> real, sqrt: real -> real)
    requires ant1 <= ant2 < n && 0 <= BaselineIndex(ant1, ant2, n)
    requires Ant1FromRoot(RoundedRoot(Radicand(BaselineIndex(ant1, ant2, n), n), round, sqrt), n, round) == ant1
    ensures GetAntennasFromBaseline(BaselineIndex(ant1, ant2, n), n, round, sqrt) == Ok(Some((ant1, ant2)))
  {
    BaselineIndexInRange(ant1, ant2, n);
    RowStart(ant1, n);
    TriangleMonotone(n - ant1, n);
    RadicandBase(n);
    TriangleAsWritten(ant1);
  }

  lemma RadicandBounds(ant1: nat, ant2: nat, n: nat, m: nat, x: int)
    requires ant1 <= ant2 < n <= 4096 && m == 2 * (n - ant1) + 1 && x == m * m - 8 * (ant2 - ant1)
    ensures x <= LARGEST && (x == m * m || x + 8 <= m * m) && (m - 2) * (m - 2) + 8 <= x
  {
    Scale(m, 8193, m);
    assert (m - 2) * (m - 2) == m * m - 4 * m + 4;
  }

  lemma RowOfPair(ant1: nat, ant2: nat, n: nat, b: nat, round: real -> real, sqrt: real -> real)
    requires RoundsToNearest(round) && IsSquareRoot(sqrt)
    requires ant1 <= ant2 < n <= 4096 && b == BaselineIndex(ant1, ant2, n)
    ensures Ant1FromRoot(RoundedRoot(Radicand(b, n), round, sqrt), n, round) == ant1
  {
    var x := Radicand(b, n);
    var m := 2 * (n - ant1) + 1;
    RadicandOfPair(ant1, ant2, n, b);
    RadicandBounds(ant1, ant2, n, m, x);
    RowOfRadicand(x, m, ant1, n, round, sqrt);
  }

  lemma RowOfRadicand(x: int, m: nat, ant1: nat, n: nat, round: real -> real, sqrt: real -> real)
    requires RoundsToNearest(round) && IsSquareRoot(sqrt)
    requires ant1 < n <= 4096 && m == 2 * (n - ant1) + 1
    requires x <= LARGEST && (x == m * m || x + 8 <= m * m) && (m - 2) * (m - 2) + 8 <= x
    ensures Ant1FromRoot(RoundedRoot(x, round, sqrt), n, round) == ant1
  {
    RootAtMost(x, m, round, sqrt);
    RootAtLeast(x, m - 2, round, sqrt);
    RowFromRoot(RoundedRoot(x, round, sqrt), ant1, n, round);
  }

  /** One past the last baseline the radicand is 1, and the formula gives row `n`. */
  lemma FormulaAtCount(n: nat, round: real -> real, sqrt: real -> real)
    requires RoundsToNearest(round) && IsSquareRoot(sqrt) && 0 < n <= 4096
    ensures GetAntennasFromBaseline(GetBaselineCount(n), n, round, sqrt) == Ok(None)
  {
    RadicandBase(n);
    TriangleAsWritten(n);
    TriangleClosed(n);
    RowStart(n, n);
    RootOfOne(round, sqrt);
    Exactly(n, n, 1.0, 1, round);
  }

  lemma RootOfOne(round: real -> real, sqrt: real -> real)
    requires RoundsToNearest(round) && IsSquareRoot(sqrt)
    ensures RoundedRoot(1, round, sqrt) == 1.0
  {
    NotPast(round, 1.0, 1.0, 1);
    var s := sqrt(1.0);
    SquareOrder(s, 1.0);
    SquareOrder(1.0, s);
  }

  /** With an odd whole root every step of the formula is exact. */
  lemma Exactly(row: nat, n: nat, root: real, r: int, round: real -> real)
    requires RoundsToNearest(round) && n <= 0x80_0000 && 0 < r < SIGNIFICANDS
    requires root == r as real && r % 2 == 1 && 2 * row == 2 * n + 1 - r
    ensures Ant1FromRoot(root, n, round) == row
  {
    NotPast(round, -0.5 * root, (-r) as real / 2.0, -r);
    NotPast(round, n as real, n as real, n);
    NotPast(round, (-r) as real / 2.0 + n as real, (2 * n - r) as real / 2.0, 2 * n - r);
    NotPast(round, row as real, row as real, row);
  }

  /** The formula inverts the triangular numbering for up to 4096 antennas, whichever way
      ties are rounded: it finds the pair of every index below the count, answers None for
      the count itself, and past that the unsigned radicand underflows. */
  lemma AntennasFromBaseline(baseline: nat, n: nat, round: real -> real, sqrt: real -> real)
    requires RoundsToNearest(round) && IsSquareRoot(sqrt) && n <= 4096
    ensures forall ant1: nat, ant2: nat ::
              GetAntennasFromBaseline(baseline, n, round, sqrt) == Ok(Some((ant1, ant2))) <==>
              ant1 <= ant2 < n && BaselineIndex(ant1, ant2, n) == baseline
    ensures GetAntennasFromBaseline(baseline, n, round, sqrt) == Ok(None) <==> baseline == GetBaselineCount(n) && 0 < n
    ensures GetAntennasFromBaseline(baseline, n, round, sqrt) == Panic <==> baseline > GetBaselineCount(n) || n == 0
  {
    RadicandBase(n);
    if baseline < GetBaselineCount(n) {
      var a1, a2 := BaselineIndexOnto(baseline, n);
      RowOfPair(a1, a2, n, baseline, round, sqrt);
      FormulaOfPair(a1, a2, n, round, sqrt);
      forall ant1: nat, ant2: nat | ant1 <= ant2 < n && BaselineIndex(ant1, ant2, n) == baseline
        ensures ant1 == a1 && ant2 == a2
      {
        BaselineIndexUnique(ant1, ant2, a1, a2, n);
      }
    } else {
      forall ant1: nat, ant2: nat | ant1 <= ant2 < n
        ensures BaselineIndex(ant1, ant2, n) != baseline
      {
        BaselineIndexInRange(ant1, ant2, n);
      }
      if baseline == GetBaselineCount(n) && 0 < n {
        FormulaAtCount(n, round, sqrt);
      }
    }
  }

  // ---------------------------------------------------------------- beyond 4096 antennas

  /** From 8192 on, numbers are 1/1024 apart: the root of 67125257 rounds to 8193. */
  lemma RootLost(round: real -> real, sqrt: real -> real)
    requires RoundsToNearest(round) && IsSquareRoot(sqrt)
    ensures RoundedRoot(67125257, round, sqrt) == 8193.0
  {
    AsNearAs(round, 67125257.0, 67125256.0, 8390657);
    var q := HugeResult(round, 67125257.0);
    assert 8 * q == 67125256;
    var s := sqrt(67125256.0);
    SquareOrder(8193.0, s);
    SquareOrder(s, 8193.0 + 1.0 / 2048.0);
    RoundsDownFurther(s, round);
  }

  lemma RoundsDownFurther(s: real, round: real -> real)
    requires RoundsToNearest(round) && 8193.0 < s < 8193.0 + 1.0 / 2048.0
    ensures round(s) == 8193.0
  {
    NotPast(round, s, 8193.0, 8193);
    AsNearAs(round, s, 8193.0, 8193);
    var q := LargeResult(round, s);
    Nearer(round(s), s, 8193.0, 1.0 / 2048.0);
    assert 16779264.0 <= q as real < 16779266.0;
  }

  /** With more than 4096 antennas the last pair of the row 4097 from the end is taken for
      a pair of the next row, and one that is not in the triangle. */
  lemma TooManyAntennas(n: nat, round: real -> real, sqrt: real -> real)
    requires RoundsToNearest(round) && IsSquareRoot(sqrt) && 4096 < n <= 0x80_0000
    ensures 0 <= BaselineIndex(n - 4097, n - 1, n) < GetBaselineCount(n)
    ensures GetAntennasFromBaseline(BaselineIndex(n - 4097, n - 1, n), n, round, sqrt) == Ok(Some((n - 4096, n - 4097)))
  {
    var b := BaselineIndex(n - 4097, n - 1, n);
    BaselineIndexInRange(n - 4097, n - 1, n);
    RadicandOfPair(n - 4097, n - 1, n, b);
    RadicandBase(n);
    RootLost(round, sqrt);
    Exactly(n - 4096, n, 8193.0, 8193, round);
    NextRowOffset(n - 4097, n);
  }

  lemma NextRowOffset(a: nat, n: nat)
    requires 0 < n
    ensures (a + 1) * n - ((a + 1) * (a + 1) + (a + 1)) / 2 == BaselineIndex(a, n - 1, n) - a
  {
    TriangleAsWritten(a + 1);
    NextRow(a, n);
  }

  /** So the formula is right about every pair exactly up to 4096 antennas. */
  lemma RightUpTo4096(n: nat, round: real -> real, sqrt: real -> real)
    requires RoundsToNearest(round) && IsSquareRoot(sqrt) && n <= 0x80_0000
    ensures (forall ant1: nat, ant2: nat :: ant1 <= ant2 < n ==>
               && 0 <= BaselineIndex(ant1, ant2, n)
               && GetAntennasFromBaseline(BaselineIndex(ant1, ant2, n), n, round, sqrt) == Ok(Some((ant1, ant2))))
            <==> n <= 4096
  {
    if n <= 4096 {
      forall ant1: nat, ant2: nat | ant1 <= ant2 < n
        ensures 0 <= BaselineIndex(ant1, ant2, n)
        ensures GetAntennasFromBaseline(BaselineIndex(ant1, ant2, n), n, round, sqrt) == Ok(Some((ant1, ant2)))
      {
        BaselineIndexInRange(ant1, ant2, n);
        AntennasFromBaseline(BaselineIndex(ant1, ant2, n), n, round, sqrt);
      }
    } else {
      TooManyAntennas(n, round, sqrt);
      assert GetAntennasFromBaseline(BaselineIndex(n - 4097, n - 1, n), n, round, sqrt) != Ok(Some((n - 4097, n - 1)));
    }
  }
}
