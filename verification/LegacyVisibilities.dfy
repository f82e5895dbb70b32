/** What the conversion of legacy data means: which source visibilities the table uses,
    and that the output is the upper triangle of the correlation matrix. */
module LegacyVisibilities {
  import opened Antennas
  import opened Baselines
  import opened Collections
  import opened ConversionTable
  import opened FullMatrix
  import opened HduConversion
  import opened Layout
  import opened Misc
  import opened RfInput

  // ---------------------------------------------------------------- which sources are used

  /** One use of the table: polarisations `p1` and `p2` of tiles `t1` and `t2`. */
  datatype Use = Use(t1: nat, t2: nat, p1: nat, p2: nat) {
    ghost predicate Valid() {
      t1 <= t2 < TILES && p1 < 2 && p2 < 2
    }

    function Input1(): nat { 2 * t1 + p1 }

    function Input2(): nat { 2 * t2 + p2 }

    ghost function Entry(table: seq<LegacyConversionBaseline>): LegacyConversionBaseline
      requires Valid() && |table| == BASELINES
    {
      BaselineIndexInRange(t1, t2, TILES);
      table[BaselineIndex(t1, t2, TILES)]
    }

    ghost function Index(table: seq<LegacyConversionBaseline>): nat
      requires Valid() && |table| == BASELINES
    {
      IndexOfPol(Entry(table), p1, p2)
    }

    ghost predicate Conjugate(table: seq<LegacyConversionBaseline>)
      requires Valid() && |table| == BASELINES
    {
      ConjugateOfPol(Entry(table), p1, p2)
    }
  }

  ghost predicate IsTableFor(table: seq<LegacyConversionBaseline>, mwaxOrder: seq<nat>) {
    && |mwaxOrder| == INPUTS && Permutation(mwaxOrder)
    && IsConversionTable(table, Positions(mwaxOrder))
  }

  /** The stored position pair behind a use: either the two inputs in the order asked for,
      or swapped and then marked as a conjugate. */
  ghost predicate ReadsPair(table: seq<LegacyConversionBaseline>, mwaxOrder: seq<nat>, u: Use, a: nat, b: nat)
    requires IsTableFor(table, mwaxOrder) && u.Valid()
  {
    var p := PfbInputs(mwaxOrder);
    && a <= b < INPUTS
    && u.Index(table) == 2 * Slot(a, b)
    && if u.Conjugate(table) then a != b && p[a] == u.Input2() && p[b] == u.Input1()
       else p[a] == u.Input1() && p[b] == u.Input2()
  }

  lemma UseReads(table: seq<LegacyConversionBaseline>, mwaxOrder: seq<nat>, u: Use) returns (a: nat, b: nat)
    requires IsTableFor(table, mwaxOrder) && u.Valid()
    ensures ReadsPair(table, mwaxOrder, u, a, b)
    ensures u.Index(table) + 1 < FLOATS_PER_FINE_CHAN
  {
    var q := Positions(mwaxOrder);
    EntryReads(table, q, u.t1, u.t2, u.p1, u.p2, u.Input1(), u.Input2());
    a, b := q[u.Input1()], q[u.Input2()];
    if a > b { a, b := b, a; }
    SentinelIsFree(a, b);
    SlotOfSquare(a, b);
  }

  /** Row `b` of the table is for the pair that the list of baselines has at `b`. */
  lemma TableFollowsBaselines(table: seq<LegacyConversionBaseline>, mwaxOrder: seq<nat>, bls: seq<Baseline>, b: nat)
    requires IsTableFor(table, mwaxOrder) && IsBaselineList(bls, TILES) && b < BASELINES
    ensures |bls| == BASELINES && table[b].baseline == b
    ensures table[b].ant1 == bls[b].ant1Index && table[b].ant2 == bls[b].ant2Index
  {
    var t1, t2 := BaselineIndexOnto(b, TILES);
    EntryReads(table, Positions(mwaxOrder), t1, t2, 0, 0, t1 * 2, t2 * 2);
    assert bls[BaselineIndex(t1, t2, TILES)] == Baseline(t1, t2);
  }

  /** All the reads of a generated table are in bounds. */
  lemma TableIsInBounds(table: seq<LegacyConversionBaseline>, mwaxOrder: seq<nat>)
    requires IsTableFor(table, mwaxOrder)
    ensures TableFits(table)
  {
    forall b | 0 <= b < BASELINES
      ensures EntryFits(table[b])
    {
      var t1, t2 := BaselineIndexOnto(b, TILES);
      var a, c := UseReads(table, mwaxOrder, Use(t1, t2, 0, 0));
      a, c := UseReads(table, mwaxOrder, Use(t1, t2, 0, 1));
      a, c := UseReads(table, mwaxOrder, Use(t1, t2, 1, 0));
      a, c := UseReads(table, mwaxOrder, Use(t1, t2, 1, 1));
    }
  }

  /** The redundant bottom left of a diagonal square is never read. */
  lemma RedundantNeverUsed(table: seq<LegacyConversionBaseline>, mwaxOrder: seq<nat>, u: Use, a: nat, b: nat)
    requires IsTableFor(table, mwaxOrder) && u.Valid() && Redundant(a, b) && b < INPUTS
    ensures u.Index(table) != 2 * Slot(a, b)
  {
    var a', b' := UseReads(table, mwaxOrder, u);
    if Slot(a', b') == Slot(a, b) {
      SlotUnique(a', b', a, b);
    }
  }

  /** Two different uses share a source only as the XY and YX products of one tile, and
      then exactly one of them conjugates it. */
  lemma SharedSource(table: seq<LegacyConversionBaseline>, mwaxOrder: seq<nat>, u: Use, v: Use)
    requires IsTableFor(table, mwaxOrder) && u.Valid() && v.Valid() && u != v
    ensures u.Index(table) == v.Index(table) <==> u.t1 == u.t2 == v.t1 == v.t2 && u.p1 == v.p2 != v.p1 == u.p2
    ensures u.Index(table) == v.Index(table) ==> u.Conjugate(table) != v.Conjugate(table)
  {
    var a, b := UseReads(table, mwaxOrder, u);
    var a', b' := UseReads(table, mwaxOrder, v);
    PfbInputsPermutation(mwaxOrder);
    if Slot(a, b) == Slot(a', b') {
      SlotUnique(a, b, a', b');
    }
    SwappedUse(u, v);
  }

  /** Within the upper triangle, only the two cross products of a tile are each other's swap. */
  lemma SwappedUse(u: Use, v: Use)
    requires u.Valid() && v.Valid() && u != v
    ensures u.Input1() == v.Input2() && u.Input2() == v.Input1() <==>
            u.t1 == u.t2 == v.t1 == v.t2 && u.p1 == v.p2 != v.p1 == u.p2
    ensures !(u.Input1() == v.Input1() && u.Input2() == v.Input2())
  {
  }

  /** Every slot of a fine channel is redundant or is used. */
  lemma EverySlotUsed(table: seq<LegacyConversionBaseline>, mwaxOrder: seq<nat>, n: nat)
    requires IsTableFor(table, mwaxOrder) && n < 4 * BASELINES
    ensures (exists a: nat, b: nat :: Redundant(a, b) && b < INPUTS && n == Slot(a, b))
         || (exists u: Use :: u.Valid() && u.Index(table) == 2 * n)
  {
    var a, b := SlotOnto(n);
    if a <= b {
      var u := PairIsUsed(table, mwaxOrder, a, b);
    } else {
      assert Redundant(a, b) && b < INPUTS;
    }
  }

  lemma PairIsUsed(table: seq<LegacyConversionBaseline>, mwaxOrder: seq<nat>, a: nat, b: nat) returns (u: Use)
    requires IsTableFor(table, mwaxOrder) && a <= b < INPUTS
    ensures u.Valid() && ReadsPair(table, mwaxOrder, u, a, b)
  {
    PfbInputsPermutation(mwaxOrder);
    var p := PfbInputs(mwaxOrder);
    var i, j := if p[a] <= p[b] then p[a] else p[b], if p[a] <= p[b] then p[b] else p[a];
    u := Use(i / 2, j / 2, i % 2, j % 2);
    assert u.Input1() == i && u.Input2() == j;
    var a', b' := UseReads(table, mwaxOrder, u);
    assert a' == a && b' == b by {
      SamePair(p, a, b, a', b');
    }
  }

  lemma SamePair(p: seq<nat>, a: nat, b: nat, a': nat, b': nat)
    requires Permutation(p) && a <= b < |p| && a' <= b' < |p|
    requires (p[a] == p[a'] && p[b] == p[b']) || (p[a] == p[b'] && p[b] == p[a'])
    ensures a == a' && b == b'
  {
  }

  // ---------------------------------------------------------------- what the output holds

  datatype Complex = Complex(re: F32, im: F32)

  function Conj(z: Complex): Complex {
    Complex(z.re, Neg(z.im))
  }

  /** Correlations of all pairs of inputs, per fine channel. */
  type Correlations = (nat, nat, nat) -> Complex

  ghost predicate Hermitian(c: Correlations, f: nat) {
    forall i, j :: 0 <= i < INPUTS && 0 <= j < INPUTS && i != j ==> c(f, j, i) == Conj(c(f, i, j))
  }

  function ComplexAt(floats: seq<F32>, at: nat): Complex
    requires at + 1 < |floats|
  {
    Complex(floats[at], floats[at + 1])
  }

  /** Fine channel `f` of a legacy HDU stores the correlations of the inputs that the PFB
      puts at each pair of positions; redundant slots may hold anything. */
  ghost predicate Packs(input: seq<F32>, f: nat, mwaxOrder: seq<nat>, c: Correlations)
    requires |mwaxOrder| == INPUTS && (f + 1) * FLOATS_PER_FINE_CHAN <= |input|
  {
    forall a: nat, b: nat :: a <= b < INPUTS ==>
      && 2 * Slot(a, b) + 1 < FLOATS_PER_FINE_CHAN
      && ComplexAt(input, f * FLOATS_PER_FINE_CHAN + 2 * Slot(a, b)) ==
         c(f, PfbInputs(mwaxOrder)[a], PfbInputs(mwaxOrder)[b])
  }

  /** The visibility that a use of the table picks up is the conjugate of the correlation
      of its two inputs. */
  lemma UseMeaning(table: seq<LegacyConversionBaseline>, mwaxOrder: seq<nat>, input: seq<F32>, f: nat,
                   c: Correlations, u: Use)
    requires IsTableFor(table, mwaxOrder) && u.Valid()
    requires (f + 1) * FLOATS_PER_FINE_CHAN <= |input| && Packs(input, f, mwaxOrder, c) && Hermitian(c, f)
    ensures u.Index(table) + 1 < FLOATS_PER_FINE_CHAN
    ensures var at := f * FLOATS_PER_FINE_CHAN + u.Index(table);
            Complex(input[at], Imaginary(input[at + 1], u.Conjugate(table))) == Conj(c(f, u.Input1(), u.Input2()))
  {
    var a, b := UseReads(table, mwaxOrder, u);
    var p := PfbInputs(mwaxOrder);
    var at := f * FLOATS_PER_FINE_CHAN + u.Index(table);
    assert ComplexAt(input, at) == c(f, p[a], p[b]);
    if u.Conjugate(table) {
      assert c(f, p[a], p[b]) == Conj(c(f, p[b], p[a]));
    }
  }

  lemma ConvertedPol(e: LegacyConversionBaseline, input: seq<F32>, source: nat, p1: nat, p2: nat)
    requires EntryFits(e) && source + FLOATS_PER_FINE_CHAN <= |input| && p1 < 2 && p2 < 2
    ensures var at := source + IndexOfPol(e, p1, p2);
            ComplexAt(Converted(e, input, source), 4 * p1 + 2 * p2) ==
            Complex(input[at], Imaginary(input[at + 1], ConjugateOfPol(e, p1, p2)))
  {
    if p1 == 0 && p2 == 0 {
    } else if p1 == 0 {
    } else if p2 == 0 {
    } else {
    }
  }

  lemma ChunkAt(s: seq<F32>, at: nat, w: nat, k: nat)
    requires at + w <= |s| && k + 1 < w
    ensures ComplexAt(s, at + k) == ComplexAt(Chunk(s, at, w), k)
  {
  }

  /** What the converted buffer holds for one baseline, fine channel and polarisation product. */
  lemma OutputHolds(output: seq<F32>, byBaseline: bool, table: seq<LegacyConversionBaseline>, input: seq<F32>,
                    fineChans: nat, f: nat, b: nat, p1: nat, p2: nat)
    requires TableFits(table) && fineChans * FLOATS_PER_FINE_CHAN <= |input| && f < fineChans
    requires ConvertedHdu(output, byBaseline, table, input, fineChans)
    requires b < BASELINES && p1 < 2 && p2 < 2
    ensures Target(byBaseline, b, f, fineChans) + FLOATS <= |output|
    ensures var at := f * FLOATS_PER_FINE_CHAN + IndexOfPol(table[b], p1, p2);
            ComplexAt(output, Target(byBaseline, b, f, fineChans) + (4 * p1 + 2 * p2)) ==
            Complex(input[at], Imaginary(input[at + 1], ConjugateOfPol(table[b], p1, p2)))
  {
    assert BaselineDone(output, byBaseline, table, input, fineChans, b, f);
    ConvertedPol(table[b], input, f * FLOATS_PER_FINE_CHAN, p1, p2);
    ChunkAt(output, Target(byBaseline, b, f, fineChans), FLOATS, 4 * p1 + 2 * p2);
  }

  /** End to end: converting an HDU that packs Hermitian correlations gives, for every fine
      channel and every pair of tiles, the conjugates of the correlations of inputs
      2 * t1 + p1 and 2 * t2 + p2, in either output order. */
  lemma ConversionMeaning(output: seq<F32>, byBaseline: bool, table: seq<LegacyConversionBaseline>,
                          mwaxOrder: seq<nat>, input: seq<F32>, fineChans: nat, c: Correlations, f: nat,
                          u: Use, b: nat)
    requires IsTableFor(table, mwaxOrder) && TableFits(table)
    requires fineChans * FLOATS_PER_FINE_CHAN <= |input| && f < fineChans
    requires ConvertedHdu(output, byBaseline, table, input, fineChans)
    requires Packs(input, f, mwaxOrder, c) && Hermitian(c, f)
    requires u.Valid() && b == BaselineIndex(u.t1, u.t2, TILES)
    ensures b < BASELINES && Target(byBaseline, b, f, fineChans) + FLOATS <= |output|
    ensures ComplexAt(output, Target(byBaseline, b, f, fineChans) + (4 * u.p1 + 2 * u.p2)) ==
            Conj(c(f, u.Input1(), u.Input2()))
  {
    BaselineIndexInRange(u.t1, u.t2, TILES);
    UseMeaning(table, mwaxOrder, input, f, c, u);
    OutputHolds(output, byBaseline, table, input, fineChans, f, b, u.p1, u.p2);
  }

  /** The matrix cell of two inputs is the signed slot of their `vcs_order` columns: the
      PFB position of the input that comes out in place i is the VCS order of its row. */
  lemma PositionIsVcsOrder(rfInputs: seq<Rfinput>, k: nat)
    requires |rfInputs| == INPUTS && DistinctInputs(rfInputs) && DistinctSubfileOrders(rfInputs) && k < INPUTS
    requires IsRow(rfInputs[k])
    ensures Permutation(SubfileOrders(rfInputs)) && rfInputs[k].subfileOrder < INPUTS
    ensures Positions(SubfileOrders(rfInputs))[rfInputs[k].subfileOrder] == rfInputs[k].vcsOrder
  {
    SubfileOrdersPermutation(rfInputs);
    var order := SubfileOrders(rfInputs);
    var subfiles := seq(INPUTS, i requires 0 <= i < INPUTS => rfInputs[i].subfileOrder);
    assert forall i :: 0 <= i < INPUTS ==> subfiles[i] == rfInputs[i].subfileOrder;
    SubfileOrderOfInput(rfInputs, k);
    PfbAndVcsAreInverse(rfInputs[k].input);
    assert PfbInputs(order)[rfInputs[k].vcsOrder] == rfInputs[k].subfileOrder;
  }

  // ---------------------------------------------------------------- in terms of the metafits

  /** Inputs as the context has them: sorted tile rows, with `vcs_order` worked out from the input number. */
  ghost predicate AreInputs(rf: seq<Rfinput>) {
    && |rf| == INPUTS && DistinctInputs(rf) && DistinctSubfileOrders(rf)
    && forall i :: 0 <= i < |rf| ==> IsRow(rf[i])
  }

  /** Any 128 tiles with distinct input numbers give such inputs, so the table can be generated. */
  lemma TileRowsAreInputs(rows: seq<Rfinput>)
    requires TileRows(rows, TILES) && DistinctInputs(rows)
    ensures AreInputs(SortBy(rows, SubfileKey))
  {
    var rf := SortBy(rows, SubfileKey);
    SortedRows(rows, TILES, 0);
    OrdersOfRows(rf);
    var p := SameElementsReorder(rows, rf);
    InputsReorder(rows, rf, p);
  }

  lemma OrdersOfRows(rf: seq<Rfinput>)
    requires TileRows(rf, TILES)
    ensures DistinctSubfileOrders(rf)
  {
    DistinctOrders(rf, TILES, seq(|rf|, i requires 0 <= i < |rf| => rf[i].subfileOrder));
  }

  lemma InputsReorder(rows: seq<Rfinput>, rf: seq<Rfinput>, p: seq<nat>)
    requires Reorders(p, rows, rf) && DistinctInputs(rows)
    ensures DistinctInputs(rf)
  {
    var before := seq(|rows|, i requires 0 <= i < |rows| => rows[i].input);
    var after := seq(|rf|, i requires 0 <= i < |rf| => rf[i].input);
    assert forall i :: 0 <= i < |rf| ==> after[i] == before[p[i]];
    forall i, j | 0 <= i < j < |rf|
      ensures after[i] != after[j]
    {
      assert p[i] != p[j];
      var k, l := if p[i] < p[j] then p[i] else p[j], if p[i] < p[j] then p[j] else p[i];
      assert before[k] != before[l];
    }
  }

  /** The PFB puts each input at the place that its `vcs_order` says. */
  lemma PlaceOfInput(rf: seq<Rfinput>, k: nat)
    requires AreInputs(rf) && k < INPUTS
    ensures rf[k].vcsOrder < INPUTS && PfbInputs(SubfileOrders(rf))[rf[k].vcsOrder] == rf[k].subfileOrder
  {
    PositionIsVcsOrder(rf, k);
    PfbInputsPermutation(SubfileOrders(rf));
  }

  lemma InputAtPlace(rf: seq<Rfinput>, a: nat) returns (k: nat)
    requires AreInputs(rf) && a < INPUTS
    ensures k < INPUTS && rf[k].vcsOrder == a
  {
    var inputs := seq(|rf|, i requires 0 <= i < |rf| => rf[i].input);
    PfbAndVcsAreInverse(a);
    PermutationOnto(inputs, FinePfbReorder(a));
    k := IndexOf(inputs, FinePfbReorder(a));
  }

  /** A fine channel stores the correlation of each pair of inputs at the slot of their `vcs_order` columns. */
  ghost predicate PacksByColumns(input: seq<F32>, f: nat, rf: seq<Rfinput>, c: Correlations)
    requires |rf| == INPUTS && (f + 1) * FLOATS_PER_FINE_CHAN <= |input|
  {
    forall k: nat, l: nat :: k < INPUTS && l < INPUTS && rf[k].vcsOrder <= rf[l].vcsOrder < INPUTS ==>
      && 2 * Slot(rf[k].vcsOrder, rf[l].vcsOrder) + 1 < FLOATS_PER_FINE_CHAN
      && ComplexAt(input, f * FLOATS_PER_FINE_CHAN + 2 * Slot(rf[k].vcsOrder, rf[l].vcsOrder)) ==
         c(f, rf[k].subfileOrder, rf[l].subfileOrder)
  }

  /** What `fine_pfb_reorder` amounts to: the layout of the legacy HDU is the one by `vcs_order`. */
  lemma PackedByVcsOrder(input: seq<F32>, f: nat, rf: seq<Rfinput>, c: Correlations)
    requires AreInputs(rf) && (f + 1) * FLOATS_PER_FINE_CHAN <= |input|
    ensures Packs(input, f, SubfileOrders(rf), c) <==> PacksByColumns(input, f, rf, c)
  {
    if Packs(input, f, SubfileOrders(rf), c) {
      PackedAtColumns(input, f, rf, c);
    }
    if PacksByColumns(input, f, rf, c) {
      PackedAtPlaces(input, f, rf, c);
    }
  }

  lemma PackedAtColumns(input: seq<F32>, f: nat, rf: seq<Rfinput>, c: Correlations)
    requires AreInputs(rf) && (f + 1) * FLOATS_PER_FINE_CHAN <= |input| && Packs(input, f, SubfileOrders(rf), c)
    ensures PacksByColumns(input, f, rf, c)
  {
    forall k: nat, l: nat | k < INPUTS && l < INPUTS && rf[k].vcsOrder <= rf[l].vcsOrder < INPUTS
      ensures 2 * Slot(rf[k].vcsOrder, rf[l].vcsOrder) + 1 < FLOATS_PER_FINE_CHAN
      ensures ComplexAt(input, f * FLOATS_PER_FINE_CHAN + 2 * Slot(rf[k].vcsOrder, rf[l].vcsOrder)) ==
              c(f, rf[k].subfileOrder, rf[l].subfileOrder)
    {
      PlaceOfInput(rf, k);
      PlaceOfInput(rf, l);
    }
  }

  lemma PackedAtPlaces(input: seq<F32>, f: nat, rf: seq<Rfinput>, c: Correlations)
    requires AreInputs(rf) && (f + 1) * FLOATS_PER_FINE_CHAN <= |input| && PacksByColumns(input, f, rf, c)
    ensures Packs(input, f, SubfileOrders(rf), c)
  {
    forall a: nat, b: nat | a <= b < INPUTS
      ensures 2 * Slot(a, b) + 1 < FLOATS_PER_FINE_CHAN
      ensures ComplexAt(input, f * FLOATS_PER_FINE_CHAN + 2 * Slot(a, b)) ==
              c(f, PfbInputs(SubfileOrders(rf))[a], PfbInputs(SubfileOrders(rf))[b])
    {
      var k := InputAtPlace(rf, a);
      var l := InputAtPlace(rf, b);
      PlaceOfInput(rf, k);
      PlaceOfInput(rf, l);
    }
  }

  lemma LegacyHduHolds(rf: seq<Rfinput>, table: seq<LegacyConversionBaseline>, input: seq<F32>, output: seq<F32>,
                       byBaseline: bool, fineChans: nat, c: Correlations, f: nat, u: Use, b: nat)
    requires AreInputs(rf) && Permutation(SubfileOrders(rf)) && IsConversionTable(table, Positions(SubfileOrders(rf)))
    requires f < fineChans && (f + 1) * FLOATS_PER_FINE_CHAN <= fineChans * FLOATS_PER_FINE_CHAN <= |input|
    requires TableFits(table) ==> ConvertedHdu(output, byBaseline, table, input, fineChans)
    requires PacksByColumns(input, f, rf, c) && Hermitian(c, f)
    requires u.Valid() && b == BaselineIndex(u.t1, u.t2, TILES)
    ensures b < BASELINES && Target(byBaseline, b, f, fineChans) + FLOATS <= |output|
    ensures ComplexAt(output, Target(byBaseline, b, f, fineChans) + (4 * u.p1 + 2 * u.p2)) ==
            Conj(c(f, u.Input1(), u.Input2()))
  {
    TableIsInBounds(table, SubfileOrders(rf));
    PackedByVcsOrder(input, f, rf, c);
    ConversionMeaning(output, byBaseline, table, SubfileOrders(rf), input, fineChans, c, f, u, b);
  }

  /** The whole path: with inputs as the context has them, the table generated from them, and an
      HDU packed by `vcs_order`, either conversion outputs the conjugates of the correlations of
      the inputs whose subfile orders are 2 * t1 + p1 and 2 * t2 + p2: the real part as it is, and
      the imaginary part with the other sign. */
  lemma LegacyHduIsConverted(rf: seq<Rfinput>, table: seq<LegacyConversionBaseline>, input: seq<F32>, output: seq<F32>,
                             byBaseline: bool, fineChans: nat, c: Correlations, f: nat, u: Use, b: nat) returns (at: nat)
    requires AreInputs(rf) && Permutation(SubfileOrders(rf)) && IsConversionTable(table, Positions(SubfileOrders(rf)))
    requires f < fineChans && (f + 1) * FLOATS_PER_FINE_CHAN <= fineChans * FLOATS_PER_FINE_CHAN <= |input|
    requires TableFits(table) ==> ConvertedHdu(output, byBaseline, table, input, fineChans)
    requires PacksByColumns(input, f, rf, c) && Hermitian(c, f)
    requires u.Valid() && b == BaselineIndex(u.t1, u.t2, TILES)
    ensures b < BASELINES && at == Place(byBaseline, b, f, fineChans, u.p1, u.p2)
    ensures IsConjugatedAt(output, at, c(f, u.Input1(), u.Input2()))
    ensures u.Input1() == 2 * u.t1 + u.p1 && u.Input2() == 2 * u.t2 + u.p2
  {
    LegacyHduHolds(rf, table, input, output, byBaseline, fineChans, c, f, u, b);
    at := WrittenOut(output, byBaseline, b, f, fineChans, u.p1, u.p2, c(f, u.Input1(), u.Input2()));
  }

  /** Eight floats for every baseline and fine channel, in one of the two orders, and two for every product. */
  function Place(byBaseline: bool, b: nat, f: nat, fineChans: nat, p1: nat, p2: nat): nat {
    (if byBaseline then (b * fineChans + f) * 8 else (f * 8256 + b) * 8) + 4 * p1 + 2 * p2
  }

  /** Two floats of the buffer are the real part of `z`, and its imaginary part with the other sign. */
  ghost predicate IsConjugatedAt(output: seq<F32>, at: nat, z: Complex) {
    && at + 1 < |output| && output[at] == z.re
    && output[at + 1].rest == z.im.rest && (output[at + 1].negative <==> !z.im.negative)
  }

  lemma WrittenOut(output: seq<F32>, byBaseline: bool, b: nat, f: nat, fineChans: nat, p1: nat, p2: nat, z: Complex) returns (at: nat)
    requires p1 < 2 && p2 < 2 && Target(byBaseline, b, f, fineChans) + FLOATS <= |output|
    requires ComplexAt(output, Target(byBaseline, b, f, fineChans) + (4 * p1 + 2 * p2)) == Conj(z)
    ensures at == Place(byBaseline, b, f, fineChans, p1, p2) && IsConjugatedAt(output, at, z)
  {
    at := Target(byBaseline, b, f, fineChans) + (4 * p1 + 2 * p2);
    TargetIs(byBaseline, b, f, fineChans, p1, p2);
    IsConjugated(output, at, z);
  }

  lemma IsConjugated(output: seq<F32>, at: nat, z: Complex)
    requires at + 1 < |output| && ComplexAt(output, at) == Conj(z)
    ensures IsConjugatedAt(output, at, z)
  {
  }

  lemma TargetIs(byBaseline: bool, b: nat, f: nat, fineChans: nat, p1: nat, p2: nat)
    ensures Target(byBaseline, b, f, fineChans) + (4 * p1 + 2 * p2) == Place(byBaseline, b, f, fineChans, p1, p2)
  {
  }
}
