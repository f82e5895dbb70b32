/** Joining the two polarisations of each tile into an antenna (src/antenna/mod.rs), and the
    alignment of antennas with the rows of the correlation matrix. */
module Antennas {
  import opened Collections
  import opened RfInput

  datatype Antenna = Antenna(ant: nat, tileId: nat, rfinputX: Rfinput, rfinputY: Rfinput)

  function NewAntenna(x: Rfinput, y: Rfinput): Antenna {
    Antenna(x.ant, x.tileId, x, y)
  }

  predicate Joins(x: Rfinput, y: Rfinput) {
    x.pol == X && y.pol == Y && x.tileId == y.tileId
  }

  /** The antennas that `x` forms with the first `end` inputs. */
  function Partners(rf: seq<Rfinput>, x: Rfinput, end: nat): seq<Antenna>
    requires end <= |rf|
  {
    if end == 0 then []
    else Partners(rf, x, end - 1) + if Joins(x, rf[end - 1]) then [NewAntenna(x, rf[end - 1])] else []
  }

  /** The antennas whose X input is among the first `end`. */
  function Joined(rf: seq<Rfinput>, end: nat): seq<Antenna>
    requires end <= |rf|
  {
    if end == 0 then [] else Joined(rf, end - 1) + Partners(rf, rf[end - 1], |rf|)
  }

  method PopulateAntennas(rfInputs: seq<Rfinput>) returns (antennas: seq<Antenna>)
    ensures antennas == Joined(rfInputs, |rfInputs|)
  {
    antennas := [];
    for xIndex := 0 to |rfInputs|
      invariant antennas == Joined(rfInputs, xIndex)
    {
      if rfInputs[xIndex].pol == X {
        for yIndex := 0 to |rfInputs|
          invariant antennas == Joined(rfInputs, xIndex) + Partners(rfInputs, rfInputs[xIndex], yIndex)
        {
          if rfInputs[yIndex].pol == Y && rfInputs[xIndex].tileId == rfInputs[yIndex].tileId {
            antennas := antennas + [NewAntenna(rfInputs[xIndex], rfInputs[yIndex])];
          }
        }
      } else {
        NoPartners(rfInputs, rfInputs[xIndex], |rfInputs|);
      }
    }
  }

  lemma {:induction false} NoPartners(rf: seq<Rfinput>, x: Rfinput, end: nat)
    requires end <= |rf| && forall k :: 0 <= k < end ==> !Joins(x, rf[k])
    ensures Partners(rf, x, end) == []
  {
    if end > 0 {
      NoPartners(rf, x, end - 1);
    }
  }

  // ---------------------------------------------------------------- what is joined

  /** `a` is made of an X input and the Y input of the same tile, and carries their tile id and the X input's number. */
  predicate IsAntenna(a: Antenna, x: Rfinput, y: Rfinput) {
    && x.pol == X && y.pol == Y && x.tileId == y.tileId
    && a.rfinputX == x && a.rfinputY == y && a.tileId == x.tileId && a.ant == x.ant
  }

  /** `antennas` are those of the pairs of places `ps`. */
  ghost predicate AreOfPairs(antennas: seq<Antenna>, ps: seq<(nat, nat)>, rf: seq<Rfinput>) {
    && |antennas| == |ps|
    && forall k :: 0 <= k < |ps| ==>
         ps[k].0 < |rf| && ps[k].1 < |rf| && IsAntenna(antennas[k], rf[ps[k].0], rf[ps[k].1])
  }

  /** In order of the X input, then of the Y input. */
  ghost predicate InPairOrder(ps: seq<(nat, nat)>) {
    forall k, l :: 0 <= k < l < |ps| ==> ps[k].0 < ps[l].0 || (ps[k].0 == ps[l].0 && ps[k].1 < ps[l].1)
  }

  /** An X and a Y input of one tile. */
  predicate IsPair(rf: seq<Rfinput>, i: nat, j: nat) {
    i < |rf| && j < |rf| && rf[i].pol == X && rf[j].pol == Y && rf[i].tileId == rf[j].tileId
  }

  predicate IsBefore(i: nat, j: nat, end: nat, yEnd: nat) {
    i < end || (i == end && j < yEnd)
  }

  /** `antennas` are those of all the pairs before (end, yEnd), in order. */
  ghost predicate JoinedUpTo(antennas: seq<Antenna>, ps: seq<(nat, nat)>, rf: seq<Rfinput>, end: nat, yEnd: nat) {
    && AreOfPairs(antennas, ps, rf) && InPairOrder(ps)
    && (forall k :: 0 <= k < |ps| ==> IsBefore(ps[k].0, ps[k].1, end, yEnd))
    && (forall i: nat, j: nat :: IsPair(rf, i, j) && IsBefore(i, j, end, yEnd) ==> (i, j) in ps)
  }

  lemma OnePairMore(rf: seq<Rfinput>, end: nat, y: nat, listed: seq<Antenna>, ps: seq<(nat, nat)>)
    requires end < |rf| && y < |rf| && Joins(rf[end], rf[y]) && JoinedUpTo(listed, ps, rf, end, y)
    ensures JoinedUpTo(listed + [NewAntenna(rf[end], rf[y])], ps + [(end, y)], rf, end, y + 1)
  {
    assert forall p :: p in ps + [(end, y)] <==> p in ps || p == (end, y);
  }

  lemma NoPairMore(rf: seq<Rfinput>, end: nat, y: nat, listed: seq<Antenna>, ps: seq<(nat, nat)>)
    requires end < |rf| && y < |rf| && !Joins(rf[end], rf[y]) && JoinedUpTo(listed, ps, rf, end, y)
    ensures JoinedUpTo(listed, ps, rf, end, y + 1)
  {
    assert !IsPair(rf, end, y);
  }

  lemma NextInput(rf: seq<Rfinput>, end: nat, listed: seq<Antenna>, ps: seq<(nat, nat)>)
    requires JoinedUpTo(listed, ps, rf, end, |rf|)
    ensures JoinedUpTo(listed, ps, rf, end + 1, 0)
  {
  }

  lemma {:induction false} PartnersAre(rf: seq<Rfinput>, end: nat, yEnd: nat, before: seq<Antenna>, ps: seq<(nat, nat)>)
    returns (r: seq<(nat, nat)>)
    requires end < |rf| && yEnd <= |rf| && JoinedUpTo(before, ps, rf, end, 0)
    ensures JoinedUpTo(before + Partners(rf, rf[end], yEnd), r, rf, end, yEnd)
  {
    if yEnd == 0 {
      r := ps;
      assert before + [] == before;
    } else {
      var y := yEnd - 1;
      r := PartnersAre(rf, end, y, before, ps);
      var listed := before + Partners(rf, rf[end], y);
      if Joins(rf[end], rf[y]) {
        OnePairMore(rf, end, y, listed, r);
        r := r + [(end, y)];
        assert before + (Partners(rf, rf[end], y) + [NewAntenna(rf[end], rf[y])]) == listed + [NewAntenna(rf[end], rf[y])];
      } else {
        NoPairMore(rf, end, y, listed, r);
        assert Partners(rf, rf[end], y) + [] == Partners(rf, rf[end], y);
      }
    }
  }

  lemma {:induction false} JoinedBefore(rf: seq<Rfinput>, end: nat) returns (ps: seq<(nat, nat)>)
    requires end <= |rf|
    ensures JoinedUpTo(Joined(rf, end), ps, rf, end, 0)
  {
    if end == 0 {
      ps := [];
    } else {
      ps := JoinedBefore(rf, end - 1);
      ps := PartnersAre(rf, end - 1, |rf|, Joined(rf, end - 1), ps);
      NextInput(rf, end - 1, Joined(rf, end), ps);
    }
  }

  /** Whatever the inputs: the antennas are exactly those of the X/Y pairs of one tile, each
      pair once, in order of the X input and then of the Y input. */
  lemma JoinedAre(rf: seq<Rfinput>) returns (ps: seq<(nat, nat)>)
    ensures AreOfPairs(Joined(rf, |rf|), ps, rf) && InPairOrder(ps)
    ensures forall i: nat, j: nat :: IsPair(rf, i, j) ==> (i, j) in ps
    ensures forall a :: a in Joined(rf, |rf|) ==>
              a.tileId == a.rfinputX.tileId == a.rfinputY.tileId && a.ant == a.rfinputX.ant
  {
    ps := JoinedBefore(rf, |rf|);
  }

  // ---------------------------------------------------------------- the rows of the metafits

  /** The metafits rows of `n` tiles: antenna numbers 0 to n - 1, one X and one Y input each,
      and one tile id per antenna number. */
  ghost predicate TileRows(rows: seq<Rfinput>, n: nat) {
    && |rows| == 2 * n
    && (forall i :: 0 <= i < |rows| ==> rows[i].ant < n && IsRow(rows[i]))
    && (forall i, j :: 0 <= i < j < |rows| ==> !(rows[i].ant == rows[j].ant && rows[i].pol == rows[j].pol))
    && (forall i, j :: 0 <= i < |rows| && 0 <= j < |rows| ==>
          (rows[i].ant == rows[j].ant <==> rows[i].tileId == rows[j].tileId))
  }

  function SubfileKey(r: Rfinput): int {
    r.subfileOrder
  }

  lemma TileRowsReorder(rows: seq<Rfinput>, rf: seq<Rfinput>, p: seq<nat>, n: nat)
    requires TileRows(rows, n) && Reorders(p, rows, rf)
    ensures TileRows(rf, n)
  {
    forall i, j | 0 <= i < j < |rf|
      ensures !(rf[i].ant == rf[j].ant && rf[i].pol == rf[j].pol)
    {
      assert p[i] != p[j];
      var k, l := if p[i] < p[j] then p[i] else p[j], if p[i] < p[j] then p[j] else p[i];
      assert !(rows[k].ant == rows[l].ant && rows[k].pol == rows[l].pol);
    }
    forall i, j | 0 <= i < |rf| && 0 <= j < |rf|
      ensures rf[i].ant == rf[j].ant <==> rf[i].tileId == rf[j].tileId
    {
      var k, l := p[i], p[j];
      assert rows[k].ant == rows[l].ant <==> rows[k].tileId == rows[l].tileId;
    }
  }

  lemma DistinctOrders(rf: seq<Rfinput>, n: nat, orders: seq<nat>)
    requires TileRows(rf, n) && |orders| == |rf| && forall i :: 0 <= i < |rf| ==> orders[i] == rf[i].subfileOrder
    ensures Permutation(orders)
  {
    forall i, j | 0 <= i < j < |rf|
      ensures orders[i] != orders[j]
    {
      assert !(rf[i].ant == rf[j].ant && rf[i].pol == rf[j].pol);
    }
  }

  /** Sorted by subfile order, the rows of antenna i are at 2i (X) and 2i + 1 (Y). */
  lemma SortedRows(rows: seq<Rfinput>, n: nat, k: nat)
    requires TileRows(rows, n) && k < 2 * n
    ensures var rf := SortBy(rows, SubfileKey);
            |rf| == 2 * n && TileRows(rf, n) && rf[k].subfileOrder == k
  {
    var rf := SortBy(rows, SubfileKey);
    var p := SameElementsReorder(rows, rf);
    TileRowsReorder(rows, rf, p, n);
    var orders := seq(|rf|, i requires 0 <= i < |rf| => rf[i].subfileOrder);
    DistinctOrders(rf, n, orders);
    forall i, j | 0 <= i < j < |rf|
      ensures orders[i] <= orders[j]
    {
      assert SubfileKey(rf[i]) <= SubfileKey(rf[j]);
    }
    AscendingPermutation(orders, k);
  }

  ghost predicate Aligned(rf: seq<Rfinput>, n: nat) {
    && |rf| == 2 * n && TileRows(rf, n)
    && forall k :: 0 <= k < 2 * n ==> rf[k].subfileOrder == k
  }

  lemma {:induction false} PartnersOfAligned(rf: seq<Rfinput>, n: nat, i: nat, end: nat)
    requires Aligned(rf, n) && i < n && end <= |rf|
    ensures Partners(rf, rf[2 * i], end) == if end <= 2 * i + 1 then [] else [NewAntenna(rf[2 * i], rf[2 * i + 1])]
  {
    if end > 0 {
      PartnersOfAligned(rf, n, i, end - 1);
      assert rf[2 * i].subfileOrder == 2 * i && rf[end - 1].subfileOrder == end - 1;
      assert Joins(rf[2 * i], rf[end - 1]) <==> end - 1 == 2 * i + 1;
    }
  }

  ghost predicate Paired(rf: seq<Rfinput>, n: nat) {
    && |rf| == 2 * n
    && forall k :: 0 <= k < n ==>
         Partners(rf, rf[2 * k], |rf|) == [NewAntenna(rf[2 * k], rf[2 * k + 1])] && Partners(rf, rf[2 * k + 1], |rf|) == []
  }

  lemma AlignedIsPaired(rf: seq<Rfinput>, n: nat)
    requires Aligned(rf, n)
    ensures Paired(rf, n)
  {
    forall k | 0 <= k < n
      ensures Partners(rf, rf[2 * k], |rf|) == [NewAntenna(rf[2 * k], rf[2 * k + 1])]
      ensures Partners(rf, rf[2 * k + 1], |rf|) == []
    {
      PartnersOfAligned(rf, n, k, |rf|);
      assert rf[2 * k + 1].subfileOrder == 2 * k + 1;
      NoPartners(rf, rf[2 * k + 1], |rf|);
    }
  }

  lemma {:induction false} JoinedOfPaired(rf: seq<Rfinput>, n: nat, i: nat)
    requires Paired(rf, n) && i <= n
    ensures |Joined(rf, 2 * i)| == i
    ensures forall k :: 0 <= k < i ==> Joined(rf, 2 * i)[k] == NewAntenna(rf[2 * k], rf[2 * k + 1])
  {
    if i > 0 {
      JoinedOfPaired(rf, n, i - 1);
      var k := i - 1;
      assert Joined(rf, 2 * k + 1) == Joined(rf, 2 * k) + Partners(rf, rf[2 * k], |rf|);
      assert Joined(rf, 2 * k + 2) == Joined(rf, 2 * k + 1) + Partners(rf, rf[2 * k + 1], |rf|);
    }
  }

  /** Sorting the tile rows by subfile order and joining polarisations gives antenna i at
      place i, with its inputs at subfile orders 2i and 2i + 1: the matrix rows and columns
      `2 * tile` and `2 * tile + 1` that the conversion of legacy data uses. */
  lemma AntennasAligned(rows: seq<Rfinput>, n: nat, i: nat)
    requires TileRows(rows, n) && i < n
    ensures var rf := SortBy(rows, SubfileKey);
            var antennas := Joined(rf, |rf|);
            && |antennas| == n && antennas[i].ant == i
            && antennas[i].rfinputX.subfileOrder == 2 * i && antennas[i].rfinputX.pol == X
            && antennas[i].rfinputY.subfileOrder == 2 * i + 1 && antennas[i].rfinputY.pol == Y
            && antennas[i].tileId == antennas[i].rfinputX.tileId == antennas[i].rfinputY.tileId
            && antennas[i].rfinputX.ant == antennas[i].rfinputY.ant == i
  {
    var rf := SortBy(rows, SubfileKey);
    SortedIsAligned(rows, n);
    AlignedIsPaired(rf, n);
    JoinedOfPaired(rf, n, n);
    RowsOfAntenna(rf, n, i);
  }

  lemma SortedIsAligned(rows: seq<Rfinput>, n: nat)
    requires TileRows(rows, n) && n > 0
    ensures Aligned(SortBy(rows, SubfileKey), n)
  {
    var rf := SortBy(rows, SubfileKey);
    SortedRows(rows, n, 0);
    forall k | 0 <= k < 2 * n
      ensures rf[k].subfileOrder == k
    {
      SortedRows(rows, n, k);
    }
  }

  lemma RowsOfAntenna(rf: seq<Rfinput>, n: nat, i: nat)
    requires Aligned(rf, n) && i < n
    ensures rf[2 * i].ant == rf[2 * i + 1].ant == i && rf[2 * i].tileId == rf[2 * i + 1].tileId
    ensures rf[2 * i].pol == X && rf[2 * i + 1].pol == Y
  {
    assert rf[2 * i].subfileOrder == 2 * i && rf[2 * i + 1].subfileOrder == 2 * i + 1;
  }
}
