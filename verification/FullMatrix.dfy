/** The signed source index of every pair of legacy inputs
    (`generate_full_matrix`, src/convert/mod.rs:157-210). */
module FullMatrix {
  import opened Collections
  import opened Misc
  import opened RfInput

  const CELLS: nat := 65536

  // ---------------------------------------------------------------- storage order

  /** The legacy correlator packs the triangle of 2x2 squares column by column:
      square (r, c) with r <= c starts at 4 * (c * (c + 1) / 2 + r), and each square
      holds top left, bottom left, top right, bottom right.  `a` and `b` are
      positions in PFB order. */
  function Slot(a: nat, b: nat): nat {
    4 * (GetBaselineCount(b / 2) + a / 2) + a % 2 + 2 * (b % 2)
  }

  /** The visibility of positions (a, b) is stored when a <= b; otherwise the
      matrix points at its mirror image, and the sign asks for its conjugate. */
  function SignedSlot(a: nat, b: nat): int {
    if a <= b then Slot(a, b) as int else -(Slot(b, a) as int)
  }

  lemma SlotOfSquare(a: nat, b: nat)
    requires a / 2 <= b / 2 < TILES
    ensures Slot(a, b) / 4 == GetBaselineCount(b / 2) + a / 2 && Slot(a, b) % 4 == a % 2 + 2 * (b % 2)
    ensures Slot(a, b) < 4 * GetBaselineCount(TILES)
  {
    TriangleClosed(b / 2);
    TriangleMonotone(b / 2 + 1, TILES);
    TriangleClosed(TILES);
  }

  /** No two stored visibilities share a slot. */
  lemma SlotUnique(a: nat, b: nat, a': nat, b': nat)
    requires a / 2 <= b / 2 < TILES && a' / 2 <= b' / 2 < TILES
    requires Slot(a, b) == Slot(a', b')
    ensures a == a' && b == b'
  {
    SlotOfSquare(a, b);
    SlotOfSquare(a', b');
    TriangleClosed(b / 2);
    TriangleClosed(b' / 2);
    TriangleRowUnique(b / 2, a / 2, b' / 2, a' / 2);
    assert a % 2 == a' % 2 && b % 2 == b' % 2;
  }

  /** Every slot of a packed fine channel belongs to one position pair: a stored one
      (a <= b), or the redundant bottom left of a diagonal square. */
  lemma SlotOnto(n: nat) returns (a: nat, b: nat)
    requires n < 4 * GetBaselineCount(TILES)
    ensures a / 2 <= b / 2 < TILES && Slot(a, b) == n
    ensures a <= b || Redundant(a, b)
  {
    TriangleClosed(TILES);
    var c, r := TriangleRow(n / 4, TILES);
    TriangleClosed(c);
    a, b := 2 * r + n % 2, 2 * c + n % 4 / 2;
    assert a / 2 == r && b / 2 == c && a % 2 == n % 2 && b % 2 == n % 4 / 2;
  }

  ghost predicate Redundant(a: nat, b: nat) {
    a == b + 1 && b % 2 == 0
  }

  /** Slot 1 is redundant, so -1 can mark unknown cells: no stored pair is ever at 1. */
  lemma SentinelIsFree(a: nat, b: nat)
    requires a <= b < INPUTS
    ensures Slot(a, b) != 1 && SignedSlot(b, a) != -1
    ensures Slot(a, b) == 0 ==> a == b
  {
    SlotOfSquare(a, b);
    TriangleMonotone(0, b / 2);
    TriangleClosed(b / 2);
  }

  // ---------------------------------------------------------------- PFB positions

  /** The input that each PFB position carries. */
  function PfbInputs(mwaxOrder: seq<nat>): (p: seq<nat>)
    requires |mwaxOrder| == INPUTS
    ensures |p| == INPUTS
  {
    seq(INPUTS, k requires 0 <= k < INPUTS => mwaxOrder[FinePfbReorder(k)])
  }

  lemma PfbInputsPermutation(mwaxOrder: seq<nat>)
    requires |mwaxOrder| == INPUTS && Permutation(mwaxOrder)
    ensures Permutation(PfbInputs(mwaxOrder))
  {
    var p := PfbInputs(mwaxOrder);
    forall i, j | 0 <= i < j < INPUTS
      ensures p[i] != p[j]
    {
      PfbAndVcsAreInverse(i);
      PfbAndVcsAreInverse(j);
      var x, y := FinePfbReorder(i), FinePfbReorder(j);
      assert x != y;
    }
  }

  /** PFB position of each input. */
  ghost function Positions(mwaxOrder: seq<nat>): (q: seq<nat>)
    requires |mwaxOrder| == INPUTS && Permutation(mwaxOrder)
    ensures Inverses(PfbInputs(mwaxOrder), q)
  {
    PfbInputsPermutation(mwaxOrder);
    Inverse(PfbInputs(mwaxOrder))
  }

  // ---------------------------------------------------------------- the two passes

  /** `m` is the matrix of signed slots of every pair of inputs. */
  ghost predicate IsFullMatrix(m: seq<int>, q: seq<nat>)
    requires |q| == INPUTS
  {
    && |m| == CELLS
    && forall i, j :: 0 <= i < INPUTS && 0 <= j < INPUTS ==> m[i * 256 + j] == SignedSlot(q[i], q[j])
  }

  /** The first pass, before square (row / 2, col / 2): squares that come earlier in
      storage order are in place, all other cells still hold the -1 of an unknown cell. */
  ghost predicate Scattered(m: seq<int>, q: seq<nat>, row: nat, col: nat)
    requires |q| == INPUTS
  {
    && |m| == CELLS
    && forall i, j :: 0 <= i < INPUTS && 0 <= j < INPUTS ==> m[i * 256 + j] == Stored(q[i], q[j], row, col)
  }

  ghost function Stored(a: nat, b: nat, row: nat, col: nat): int {
    if a <= b && (b < col || (b < col + 2 && a < row)) then Slot(a, b) else -1
  }

  lemma StoredStep(a: nat, b: nat, r: nat, c: nat)
    requires r <= c
    ensures Stored(a, b, 2 * r + 2, 2 * c) ==
            if 2 * r <= a <= 2 * r + 1 && 2 * c <= b <= 2 * c + 1 && a <= b
            then 4 * (GetBaselineCount(c) + r) + (a - 2 * r) + 2 * (b - 2 * c)
            else Stored(a, b, 2 * r, 2 * c)
  {
    if 2 * r <= a <= 2 * r + 1 && 2 * c <= b <= 2 * c + 1 {
      assert a / 2 == r && b / 2 == c && a % 2 == a - 2 * r && b % 2 == b - 2 * c;
    }
  }

  lemma WithSquareCell(m: seq<int>, row1st: nat, row2nd: nat, colA: nat, colB: nat, source: int, diagonal: bool,
                       i: nat, j: nat)
    requires |m| == CELLS && row1st < INPUTS && row2nd < INPUTS && colA < INPUTS && colB < INPUTS
    requires row1st != row2nd && colA != colB && i < INPUTS && j < INPUTS
    ensures WithSquare(m, row1st, row2nd, colA, colB, source, diagonal)[i * 256 + j] ==
            if i == row1st && j == colA then source
            else if i == row2nd && j == colA && !diagonal then source + 1
            else if i == row1st && j == colB then source + 2
            else if i == row2nd && j == colB then source + 3
            else m[i * 256 + j]
  {
  }

  lemma ScatterSquare(m: seq<int>, p: seq<nat>, q: seq<nat>, r: nat, c: nat,
                      row1st: nat, row2nd: nat, colA: nat, colB: nat, source: int)
    requires |p| == INPUTS && Inverses(p, q) && r <= c < TILES
    requires row1st == p[2 * r] && row2nd == p[2 * r + 1] && colA == p[2 * c] && colB == p[2 * c + 1]
    requires row1st < INPUTS && row2nd < INPUTS && colA < INPUTS && colB < INPUTS
    requires Scattered(m, q, 2 * r, 2 * c)
    requires source == 4 * (GetBaselineCount(c) + r)
    ensures Scattered(WithSquare(m, row1st, row2nd, colA, colB, source, c == r), q, 2 * r + 2, 2 * c)
  {
    var m' := WithSquare(m, row1st, row2nd, colA, colB, source, c == r);
    assert q[row1st] == 2 * r && q[row2nd] == 2 * r + 1 && q[colA] == 2 * c && q[colB] == 2 * c + 1;
    forall i, j | 0 <= i < INPUTS && 0 <= j < INPUTS
      ensures m'[i * 256 + j] == Stored(q[i], q[j], 2 * r + 2, 2 * c)
    {
      StoredStep(q[i], q[j], r, c);
      WithSquareCell(m, row1st, row2nd, colA, colB, source, c == r, i, j);
      assert m[i * 256 + j] == Stored(q[i], q[j], 2 * r, 2 * c);
      assert p[q[i]] == i && p[q[j]] == j;
    }
  }

  /** The second pass: the cells before (row, col) in row order are final, the others
      are as the first pass left them. */
  ghost predicate Mirrored(m: seq<int>, q: seq<nat>, row: nat, col: nat)
    requires |q| == INPUTS
  {
    && |m| == CELLS
    && forall i, j :: 0 <= i < INPUTS && 0 <= j < INPUTS ==>
         m[i * 256 + j] ==
           if i < row || (i == row && j < col) then SignedSlot(q[i], q[j]) else Stored(q[i], q[j], 0, INPUTS)
  }

  lemma MirrorCell(m: seq<int>, m': seq<int>, p: seq<nat>, q: seq<nat>, row: nat, col: nat)
    requires |p| == INPUTS && Inverses(p, q)
    requires row < INPUTS && col < INPUTS
    requires Mirrored(m, q, row, col)
    requires m' == if m[row * 256 + col] == -1 then m[row * 256 + col := -m[col * 256 + row]] else m
    ensures Mirrored(m', q, row, col + 1)
  {
    assert m[row * 256 + col] == Stored(q[row], q[col], 0, INPUTS);
    assert q[row] > q[col] ==> m[col * 256 + row] == Slot(q[col], q[row]);
    forall i, j | 0 <= i < INPUTS && 0 <= j < INPUTS
      ensures m'[i * 256 + j] ==
        if i < row || (i == row && j < col + 1) then SignedSlot(q[i], q[j]) else Stored(q[i], q[j], 0, INPUTS)
    {
      assert i * 256 + j == row * 256 + col <==> i == row && j == col;
      var _ := m[i * 256 + j];
    }
  }

  /** The matrix after one 2x2 square is written; the bottom left of a diagonal
      square is redundant and skipped, but still takes up a source index. */
  function WithSquare(m: seq<int>, row1st: nat, row2nd: nat, colA: nat, colB: nat, source: int, diagonal: bool): seq<int>
    requires |m| == CELLS && row1st < INPUTS && row2nd < INPUTS && colA < INPUTS && colB < INPUTS
  {
    var m1 := m[row1st * 256 + colA := source];
    var m2 := if diagonal then m1 else m1[row2nd * 256 + colA := source + 1];
    m2[row1st * 256 + colB := source + 2][row2nd * 256 + colB := source + 3]
  }

  method WriteSquare(fullMatrix: array<int>, row1st: nat, row2nd: nat, colA: nat, colB: nat, start: int, diagonal: bool)
    returns (source: int)
    requires fullMatrix.Length == CELLS && row1st < INPUTS && row2nd < INPUTS && colA < INPUTS && colB < INPUTS
    modifies fullMatrix
    ensures fullMatrix[..] == WithSquare(old(fullMatrix[..]), row1st, row2nd, colA, colB, start, diagonal)
    ensures source == start + 4
  {
    source := start;
    fullMatrix[row1st * 256 + colA] := source;
    source := source + 1;
    if !diagonal {
      fullMatrix[row2nd * 256 + colA] := source;
    }
    source := source + 1;
    fullMatrix[row1st * 256 + colB] := source;
    source := source + 1;
    fullMatrix[row2nd * 256 + colB] := source;
    source := source + 1;
  }

  /** The input at PFB position `k`. */
  method InputAt(mwaxOrder: seq<nat>, k: nat) returns (input: nat)
    requires |mwaxOrder| == INPUTS && k < INPUTS
    ensures input == PfbInputs(mwaxOrder)[k]
  {
    input := mwaxOrder[FinePfbReorder(k)];
  }

  /** One column of squares, from row 0 down to the diagonal. */
  method ScatterColumn(mwaxOrder: seq<nat>, fullMatrix: array<int>, col: nat, start: int,
                       ghost c: nat, ghost p: seq<nat>, ghost q: seq<nat>)
    returns (source: int)
    requires |mwaxOrder| == INPUTS && p == PfbInputs(mwaxOrder) && Inverses(p, q)
    requires col < INPUTS && col == 2 * c && start == 4 * GetBaselineCount(c)
    requires Scattered(fullMatrix[..], q, 0, col)
    modifies fullMatrix
    ensures source == start + 4 * (c + 1)
    ensures Scattered(fullMatrix[..], q, col + 2, col)
  {
    var colA := InputAt(mwaxOrder, col);
    var colB := InputAt(mwaxOrder, col + 1);
    source := start;
    var row := 0;
    ghost var r := 0;
    while row <= col
      invariant row == 2 * r && r <= c + 1
      invariant source == start + 4 * r
      invariant Scattered(fullMatrix[..], q, row, col)
    {
      var row1st := InputAt(mwaxOrder, row);
      var row2nd := InputAt(mwaxOrder, row + 1);
      ScatterSquare(fullMatrix[..], p, q, r, c, row1st, row2nd, colA, colB, source);
      source := WriteSquare(fullMatrix, row1st, row2nd, colA, colB, source, col == row);
      row, r := row + 2, r + 1;
    }
  }

  method ScatterSquares(mwaxOrder: seq<nat>, fullMatrix: array<int>)
    requires |mwaxOrder| == INPUTS && Permutation(mwaxOrder)
    requires fullMatrix.Length == CELLS && forall k :: 0 <= k < CELLS ==> fullMatrix[k] == -1
    modifies fullMatrix
    ensures Scattered(fullMatrix[..], Positions(mwaxOrder), 0, INPUTS)
  {
    ghost var q := Positions(mwaxOrder);
    var source := 0;
    var col := 0;
    ghost var c := 0;
    while col < INPUTS
      invariant col == 2 * c && c <= TILES
      invariant source == 4 * GetBaselineCount(c)
      invariant Scattered(fullMatrix[..], q, 0, col)
    {
      source := ScatterColumn(mwaxOrder, fullMatrix, col, source, c, PfbInputs(mwaxOrder), q);
      TriangleClosed(c);
      TriangleClosed(c + 1);
      NextColumn(fullMatrix[..], q, col);
      col, c := col + 2, c + 1;
    }
  }

  lemma NextColumn(m: seq<int>, q: seq<nat>, col: nat)
    requires |q| == INPUTS && Scattered(m, q, col + 2, col)
    ensures Scattered(m, q, 0, col + 2)
  {
    forall i, j | 0 <= i < INPUTS && 0 <= j < INPUTS
      ensures m[i * 256 + j] == Stored(q[i], q[j], 0, col + 2)
    {
      assert m[i * 256 + j] == Stored(q[i], q[j], col + 2, col);
    }
  }

  method FillConjugates(fullMatrix: array<int>, ghost p: seq<nat>, ghost q: seq<nat>)
    requires |p| == INPUTS && Inverses(p, q)
    requires fullMatrix.Length == CELLS && Scattered(fullMatrix[..], q, 0, INPUTS)
    modifies fullMatrix
    ensures IsFullMatrix(fullMatrix[..], q)
  {
    for i := 0 to INPUTS
      invariant Mirrored(fullMatrix[..], q, i, 0)
    {
      for j := 0 to INPUTS
        invariant Mirrored(fullMatrix[..], q, i, j)
      {
        ghost var m := fullMatrix[..];
        if fullMatrix[i * 256 + j] == -1 {
          fullMatrix[i * 256 + j] := -fullMatrix[j * 256 + i];
        }
        MirrorCell(m, fullMatrix[..], p, q, i, j);
      }
    }
  }

  method GenerateFullMatrix(mwaxOrder: seq<nat>) returns (fullMatrix: array<int>)
    requires |mwaxOrder| == INPUTS && Permutation(mwaxOrder)
    ensures fresh(fullMatrix)
    ensures IsFullMatrix(fullMatrix[..], Positions(mwaxOrder))
  {
    fullMatrix := new int[CELLS](_ => -1);
    ScatterSquares(mwaxOrder, fullMatrix);
    FillConjugates(fullMatrix, PfbInputs(mwaxOrder), Positions(mwaxOrder));
  }

  // ---------------------------------------------------------------- the finished matrix

  /** The finished matrix is antisymmetric off the diagonal and never negative on it,
      and no cell is left at the sentinel. */
  lemma FullMatrixSigns(m: seq<int>, mwaxOrder: seq<nat>, i: nat, j: nat)
    requires |mwaxOrder| == INPUTS && Permutation(mwaxOrder) && IsFullMatrix(m, Positions(mwaxOrder))
    requires i < INPUTS && j < INPUTS
    ensures m[i * 256 + j] != -1
    ensures i != j ==> m[i * 256 + j] == -m[j * 256 + i] && m[i * 256 + j] != 0
    ensures m[i * 256 + i] >= 0
  {
    var q := Positions(mwaxOrder);
    var a, b := q[i], q[j];
    assert PfbInputs(mwaxOrder)[a] == i && PfbInputs(mwaxOrder)[b] == j;
    assert m[i * 256 + j] == SignedSlot(a, b) && m[j * 256 + i] == SignedSlot(b, a) && m[i * 256 + i] == SignedSlot(a, a);
    SentinelIsFree(if a <= b then a else b, if a <= b then b else a);
  }

  lemma SourcesOfPositions(a: nat, b: nat, a': nat, b': nat)
    requires a < INPUTS && b < INPUTS && a' < INPUTS && b' < INPUTS
    ensures Magnitude(SignedSlot(a, b)) == Magnitude(SignedSlot(a', b')) <==> (a == a' && b == b') || (a == b' && b == a')
  {
    var lo, hi := if a <= b then a else b, if a <= b then b else a;
    var lo', hi' := if a' <= b' then a' else b', if a' <= b' then b' else a';
    assert Magnitude(SignedSlot(a, b)) == Slot(lo, hi) && Magnitude(SignedSlot(a', b')) == Slot(lo', hi');
    if Slot(lo, hi) == Slot(lo', hi') {
      SlotUnique(lo, hi, lo', hi');
    }
  }

  /** Two cells name the same source visibility exactly when they are the same pair of inputs,
      in either order. */
  lemma FullMatrixSources(m: seq<int>, mwaxOrder: seq<nat>, i: nat, j: nat, i': nat, j': nat)
    requires |mwaxOrder| == INPUTS && Permutation(mwaxOrder) && IsFullMatrix(m, Positions(mwaxOrder))
    requires i < INPUTS && j < INPUTS && i' < INPUTS && j' < INPUTS
    ensures Magnitude(m[i * 256 + j]) == Magnitude(m[i' * 256 + j']) <==> (i == i' && j == j') || (i == j' && j == i')
  {
    var p, q := PfbInputs(mwaxOrder), Positions(mwaxOrder);
    assert p[q[i]] == i && p[q[j]] == j && p[q[i']] == i' && p[q[j']] == j';
    assert m[i * 256 + j] == SignedSlot(q[i], q[j]) && m[i' * 256 + j'] == SignedSlot(q[i'], q[j']);
    SourcesOfPositions(q[i], q[j], q[i'], q[j']);
  }

  function Magnitude(x: int): nat {
    if x < 0 then -x else x
  }

  /** Nothing less than a permutation will do: were two positions to carry the same input,
      no matrix at all could give every pair of positions its visibility. */
  lemma OnlyPermutationsHaveMatrix(m: seq<int>, p: seq<nat>, a: nat, b: nat)
    requires |m| == CELLS && |p| == INPUTS && (forall k :: 0 <= k < INPUTS ==> p[k] < INPUTS)
    requires a < b < INPUTS && p[a] == p[b]
    ensures m[p[a] * 256 + p[a]] != SignedSlot(a, a) || m[p[b] * 256 + p[b]] != SignedSlot(b, b)
  {
    if Slot(a, a) == Slot(b, b) {
      SlotUnique(a, a, b, b);
    }
  }
}
