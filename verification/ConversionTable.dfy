/** The table that says, for every baseline, where its four visibilities are in a legacy
    fine channel and which of them are stored as conjugates
    (`LegacyConversionBaseline`, `generate_conversion_array`, src/convert/mod.rs). */
module ConversionTable {
  import opened Collections
  import opened FullMatrix
  import opened Misc
  import opened RfInput

  datatype LegacyConversionBaseline = LegacyConversionBaseline(
    baseline: nat,
    ant1: nat,
    ant2: nat,
    xxIndex: nat,
    xxConjugate: bool,
    xyIndex: nat,
    xyConjugate: bool,
    yxIndex: nat,
    yxConjugate: bool,
    yyIndex: nat,
    yyConjugate: bool
  )

  function NewEntry(baseline: nat, ant1: nat, ant2: nat, xx: int, xy: int, yx: int, yy: int): LegacyConversionBaseline {
    LegacyConversionBaseline(
      baseline, ant1, ant2,
      Magnitude(xx), xx < 0, Magnitude(xy), xy < 0, Magnitude(yx), yx < 0, Magnitude(yy), yy < 0)
  }

  /** Where an entry reads polarisation product (p, q) from, X being 0 and Y being 1. */
  function IndexOfPol(e: LegacyConversionBaseline, p: nat, q: nat): nat {
    if p == 0 then (if q == 0 then e.xxIndex else e.xyIndex) else (if q == 0 then e.yxIndex else e.yyIndex)
  }

  function ConjugateOfPol(e: LegacyConversionBaseline, p: nat, q: nat): bool {
    if p == 0 then (if q == 0 then e.xxConjugate else e.xyConjugate)
    else (if q == 0 then e.yxConjugate else e.yyConjugate)
  }

  // ---------------------------------------------------------------- order of the inputs

  function InputKey(pair: (nat, nat)): int {
    pair.0 * 0x1_0000_0000 + pair.1
  }

  /** The subfile orders, listed by metafits input number. */
  function SubfileOrders(rfInputs: seq<Rfinput>): (order: seq<nat>)
    ensures |order| == |rfInputs|
  {
    var pairs := seq(|rfInputs|, i requires 0 <= i < |rfInputs| => (rfInputs[i].input, rfInputs[i].subfileOrder));
    var sorted := SortBy(pairs, InputKey);
    assert |multiset(sorted)| == |sorted| && |multiset(pairs)| == |pairs|;
    seq(|sorted|, i requires 0 <= i < |sorted| => sorted[i].1)
  }

  ghost predicate DistinctSubfileOrders(rfInputs: seq<Rfinput>) {
    Permutation(seq(|rfInputs|, i requires 0 <= i < |rfInputs| => rfInputs[i].subfileOrder))
  }

  ghost predicate DistinctInputs(rfInputs: seq<Rfinput>) {
    Permutation(seq(|rfInputs|, i requires 0 <= i < |rfInputs| => rfInputs[i].input))
  }

  lemma SubfileOrdersReorder(rfInputs: seq<Rfinput>) returns (p: seq<nat>)
    ensures |p| == |rfInputs| && Permutation(p)
    ensures forall k :: 0 <= k < |p| ==> SubfileOrders(rfInputs)[k] == rfInputs[p[k]].subfileOrder
    ensures forall j, k :: 0 <= j < k < |p| ==>
              InputKey((rfInputs[p[j]].input, rfInputs[p[j]].subfileOrder)) <=
              InputKey((rfInputs[p[k]].input, rfInputs[p[k]].subfileOrder))
  {
    var pairs := seq(|rfInputs|, i requires 0 <= i < |rfInputs| => (rfInputs[i].input, rfInputs[i].subfileOrder));
    p := SameElementsReorder(pairs, SortBy(pairs, InputKey));
  }

  lemma SubfileOrdersPermutation(rfInputs: seq<Rfinput>)
    requires DistinctSubfileOrders(rfInputs)
    ensures Permutation(SubfileOrders(rfInputs))
  {
    var p := SubfileOrdersReorder(rfInputs);
    var s := seq(|rfInputs|, i requires 0 <= i < |rfInputs| => rfInputs[i].subfileOrder);
    var order := SubfileOrders(rfInputs);
    forall k | 0 <= k < |p|
      ensures order[k] == s[p[k]] < |p|
    {
    }
    forall j, k | 0 <= j < k < |p|
      ensures order[j] != order[k]
    {
      assert p[j] != p[k];
    }
  }

  /** When the metafits numbers its inputs 0, 1, 2, ... the order is looked up by input. */
  lemma SubfileOrderOfInput(rfInputs: seq<Rfinput>, i: nat)
    requires DistinctInputs(rfInputs) && i < |rfInputs|
    requires forall k :: 0 <= k < |rfInputs| ==> rfInputs[k].subfileOrder < 0x1_0000_0000
    ensures rfInputs[i].input < |rfInputs| && SubfileOrders(rfInputs)[rfInputs[i].input] == rfInputs[i].subfileOrder
  {
    var p := SubfileOrdersReorder(rfInputs);
    var inputs := seq(|rfInputs|, k requires 0 <= k < |rfInputs| => rfInputs[k].input);
    var sorted := seq(|p|, k requires 0 <= k < |p| => inputs[p[k]]);
    assert rfInputs[i].input == inputs[i];
    forall j, k | 0 <= j < k < |p|
      ensures sorted[j] <= sorted[k] && sorted[j] != sorted[k]
    {
      assert p[j] != p[k];
      assert inputs[p[j]] == rfInputs[p[j]].input && inputs[p[k]] == rfInputs[p[k]].input;
    }
    PermutationOnto(p, i);
    var k := IndexOf(p, i);
    AscendingPermutation(sorted, k);
  }

  // ---------------------------------------------------------------- the table

  const BASELINES: nat := 8256

  /** The doubled signed slot of inputs `i` and `j`: where the real part of their complex
      visibility is among the floats of a fine channel. */
  function Source(q: seq<nat>, i: nat, j: nat): int
    requires i < |q| && j < |q|
  {
    SignedSlot(q[i], q[j]) * 2
  }

  ghost function EntryOf(q: seq<nat>, ant1: nat, ant2: nat): LegacyConversionBaseline
    requires |q| == INPUTS && ant1 <= ant2 < TILES
  {
    BaselineIndexInRange(ant1, ant2, TILES);
    NewEntry(BaselineIndex(ant1, ant2, TILES), ant1, ant2,
             Source(q, ant1 * 2, ant2 * 2), Source(q, ant1 * 2, ant2 * 2 + 1),
             Source(q, ant1 * 2 + 1, ant2 * 2), Source(q, ant1 * 2 + 1, ant2 * 2 + 1))
  }

  ghost predicate EntriesBefore(table: seq<LegacyConversionBaseline>, q: seq<nat>, ant1: nat, ant2: nat)
    requires |q| == INPUTS
  {
    forall t1: nat, t2: nat :: t1 <= t2 < TILES && (t1 < ant1 || (t1 == ant1 && t2 < ant2)) ==>
      0 <= BaselineIndex(t1, t2, TILES) < |table| && table[BaselineIndex(t1, t2, TILES)] == EntryOf(q, t1, t2)
  }

  /** One entry per baseline, row by row through the triangle of tiles. */
  ghost predicate IsConversionTable(table: seq<LegacyConversionBaseline>, q: seq<nat>)
    requires |q| == INPUTS
  {
    |table| == BASELINES && EntriesBefore(table, q, TILES, 0)
  }

  /** Entries pushed before row `row` is begun. */
  function RowsBefore(row: nat): int {
    if row == 0 then 0 else RowsBefore(row - 1) + TILES - (row - 1)
  }

  lemma {:induction false} RowsBeforeIndex(row: nat)
    ensures RowsBefore(row) == BaselineIndex(row, row, TILES)
  {
    if row == 0 {
    } else {
      RowsBeforeIndex(row - 1);
      NextRow(row - 1, TILES);
    }
  }

  lemma EntryNext(table: seq<LegacyConversionBaseline>, q: seq<nat>, t1: nat, t2: nat)
    requires |q| == INPUTS && t1 <= t2 < TILES
    requires |table| == RowsBefore(t1) + t2 - t1 && EntriesBefore(table, q, t1, t2)
    ensures EntriesBefore(table + [EntryOf(q, t1, t2)], q, t1, t2 + 1)
  {
    RowsBeforeIndex(t1);
    var table' := table + [EntryOf(q, t1, t2)];
    forall u1: nat, u2: nat | u1 <= u2 < TILES && (u1 < t1 || (u1 == t1 && u2 < t2 + 1))
      ensures 0 <= BaselineIndex(u1, u2, TILES) < |table'|
      ensures table'[BaselineIndex(u1, u2, TILES)] == EntryOf(q, u1, u2)
    {
      var _ := BaselineIndex(u1, u2, TILES);
    }
  }

  lemma RowDone(table: seq<LegacyConversionBaseline>, q: seq<nat>, t1: nat)
    requires |q| == INPUTS && EntriesBefore(table, q, t1, TILES)
    ensures EntriesBefore(table, q, t1 + 1, t1 + 1)
  {
  }

  lemma TableComplete(table: seq<LegacyConversionBaseline>, q: seq<nat>)
    requires |q| == INPUTS && |table| == RowsBefore(TILES) && EntriesBefore(table, q, TILES, TILES)
    ensures IsConversionTable(table, q)
  {
    RowsBeforeIndex(TILES);
    RowStart(TILES, TILES);
    TriangleClosed(TILES);
  }

  /** The entry for a pair of tiles, picked out of the full matrix. */
  method ReadEntry(fullMatrix: seq<int>, ghost q: seq<nat>, baseline: nat, rowTile: nat, colTile: nat)
    returns (entry: LegacyConversionBaseline)
    requires |q| == INPUTS && IsFullMatrix(fullMatrix, q)
    requires rowTile <= colTile < TILES && baseline == RowsBefore(rowTile) + colTile - rowTile
    ensures entry == EntryOf(q, rowTile, colTile)
  {
    RowsBeforeIndex(rowTile);
    CellsOfTiles(fullMatrix, q, rowTile, colTile);
    var xx := fullMatrix[rowTile * 2 * 256 + colTile * 2] * 2;
    var xy := fullMatrix[rowTile * 2 * 256 + (colTile * 2 + 1)] * 2;
    var yx := fullMatrix[(rowTile * 2 + 1) * 256 + colTile * 2] * 2;
    var yy := fullMatrix[(rowTile * 2 + 1) * 256 + (colTile * 2 + 1)] * 2;
    entry := NewEntry(baseline, rowTile, colTile, xx, xy, yx, yy);
  }

  method GenerateConversionArray(rfInputs: seq<Rfinput>) returns (table: seq<LegacyConversionBaseline>)
    requires |rfInputs| == INPUTS && DistinctSubfileOrders(rfInputs)
    ensures Permutation(SubfileOrders(rfInputs))
    ensures IsConversionTable(table, Positions(SubfileOrders(rfInputs)))
  {
    SubfileOrdersPermutation(rfInputs);
    var mwaxOrder := SubfileOrders(rfInputs);
    ghost var q := Positions(mwaxOrder);
    var cells := GenerateFullMatrix(mwaxOrder);
    var fullMatrix := cells[..];
    table := [];
    var baseline := 0;
    for rowTile := 0 to TILES
      invariant baseline == |table| == RowsBefore(rowTile)
      invariant EntriesBefore(table, q, rowTile, rowTile)
    {
      for colTile := rowTile to TILES
        invariant baseline == |table| == RowsBefore(rowTile) + colTile - rowTile
        invariant EntriesBefore(table, q, rowTile, colTile)
      {
        var entry := ReadEntry(fullMatrix, q, baseline, rowTile, colTile);
        EntryNext(table, q, rowTile, colTile);
        table := table + [entry];
        baseline := baseline + 1;
      }
      RowDone(table, q, rowTile);
    }
    TableComplete(table, q);
  }

  lemma CellsOfTiles(m: seq<int>, q: seq<nat>, t1: nat, t2: nat)
    requires |q| == INPUTS && IsFullMatrix(m, q) && t1 < TILES && t2 < TILES
    ensures m[t1 * 2 * 256 + t2 * 2] * 2 == Source(q, t1 * 2, t2 * 2)
    ensures m[t1 * 2 * 256 + (t2 * 2 + 1)] * 2 == Source(q, t1 * 2, t2 * 2 + 1)
    ensures m[(t1 * 2 + 1) * 256 + t2 * 2] * 2 == Source(q, t1 * 2 + 1, t2 * 2)
    ensures m[(t1 * 2 + 1) * 256 + (t2 * 2 + 1)] * 2 == Source(q, t1 * 2 + 1, t2 * 2 + 1)
  {
    var i, j := t1 * 2, t2 * 2;
    assert m[i * 256 + j] == SignedSlot(q[i], q[j]);
    assert m[i * 256 + (j + 1)] == SignedSlot(q[i], q[j + 1]);
    assert m[(i + 1) * 256 + j] == SignedSlot(q[i + 1], q[j]);
    assert m[(i + 1) * 256 + (j + 1)] == SignedSlot(q[i + 1], q[j + 1]);
  }

  // ---------------------------------------------------------------- what the table reads

  lemma PolOfEntry(baseline: nat, t1: nat, t2: nat, xx: int, xy: int, yx: int, yy: int, p1: nat, p2: nat)
    requires p1 < 2 && p2 < 2
    ensures var e := NewEntry(baseline, t1, t2, xx, xy, yx, yy);
            var source := if p1 == 0 then (if p2 == 0 then xx else xy) else (if p2 == 0 then yx else yy);
            IndexOfPol(e, p1, p2) == Magnitude(source) && ConjugateOfPol(e, p1, p2) == (source < 0)
  {
  }

  /** An entry reads inputs `i = 2 * ant1 + p1` and `j = 2 * ant2 + p2` from their slot, and says
      whether it has to be conjugated. */
  lemma EntryReads(table: seq<LegacyConversionBaseline>, q: seq<nat>, t1: nat, t2: nat, p1: nat, p2: nat, i: nat, j: nat)
    requires |q| == INPUTS && IsConversionTable(table, q)
    requires t1 <= t2 < TILES && p1 < 2 && p2 < 2 && i == t1 * 2 + p1 && j == t2 * 2 + p2
    ensures 0 <= BaselineIndex(t1, t2, TILES) < |table|
    ensures var e := table[BaselineIndex(t1, t2, TILES)];
            && e.baseline == BaselineIndex(t1, t2, TILES) && e.ant1 == t1 && e.ant2 == t2
            && IndexOfPol(e, p1, p2) == Magnitude(Source(q, i, j))
            && ConjugateOfPol(e, p1, p2) == (Source(q, i, j) < 0)
  {
    assert table[BaselineIndex(t1, t2, TILES)] == EntryOf(q, t1, t2);
    PolOfEntry(BaselineIndex(t1, t2, TILES), t1, t2,
               Source(q, t1 * 2, t2 * 2), Source(q, t1 * 2, t2 * 2 + 1),
               Source(q, t1 * 2 + 1, t2 * 2), Source(q, t1 * 2 + 1, t2 * 2 + 1), p1, p2);
  }
}
