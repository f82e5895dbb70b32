/** The list of antenna pairs of an observation (src/baseline/mod.rs). */
module Baselines {
  import opened Binary32
  import opened Misc
  import opened RootFormula
  import opened Wrappers

  datatype Baseline = Baseline(ant1Index: nat, ant2Index: nat)

  /** `bls` lists the upper triangle row by row. */
  ghost predicate IsBaselineList(bls: seq<Baseline>, numAnts: nat) {
    && |bls| == GetBaselineCount(numAnts)
    && ListedBefore(bls, numAnts, numAnts, 0)
  }

  /** The pairs before (ant1, ant2) in row order are in their places. */
  ghost predicate ListedBefore(bls: seq<Baseline>, numAnts: nat, ant1: nat, ant2: nat) {
    forall a1: nat, a2: nat ::
      a1 <= a2 < numAnts && (a1 < ant1 || (a1 == ant1 && a2 < ant2)) ==>
      0 <= BaselineIndex(a1, a2, numAnts) < |bls| && bls[BaselineIndex(a1, a2, numAnts)] == Baseline(a1, a2)
  }

  lemma ListNext(bls: seq<Baseline>, numAnts: nat, ant1: nat, ant2: nat)
    requires ant1 <= ant2 < numAnts && |bls| == GetBaselineCount(numAnts)
    requires ListedBefore(bls, numAnts, ant1, ant2)
    ensures 0 <= BaselineIndex(ant1, ant2, numAnts) < |bls|
    ensures ListedBefore(bls[BaselineIndex(ant1, ant2, numAnts) := Baseline(ant1, ant2)], numAnts, ant1, ant2 + 1)
  {
    BaselineIndexInRange(ant1, ant2, numAnts);
    forall a1: nat, a2: nat | a1 <= a2 < numAnts
      ensures BaselineIndex(a1, a2, numAnts) == BaselineIndex(ant1, ant2, numAnts) ==> a1 == ant1 && a2 == ant2
    {
      if BaselineIndex(a1, a2, numAnts) == BaselineIndex(ant1, ant2, numAnts) {
        BaselineIndexUnique(a1, a2, ant1, ant2, numAnts);
      }
    }
  }

  method PopulateBaselines(numAnts: nat) returns (bls: array<Baseline>)
    ensures fresh(bls)
    ensures IsBaselineList(bls[..], numAnts)
  {
    bls := new Baseline[GetBaselineCount(numAnts)](_ => Baseline(0, 0));
    var blIndex := 0;
    for a1 := 0 to numAnts
      invariant blIndex == BaselineIndex(a1, a1, numAnts)
      invariant ListedBefore(bls[..], numAnts, a1, a1)
    {
      for a2 := a1 to numAnts
        invariant blIndex == BaselineIndex(a1, a2, numAnts)
        invariant ListedBefore(bls[..], numAnts, a1, a2)
      {
        ListNext(bls[..], numAnts, a1, a2);
        bls[blIndex] := Baseline(a1, a2);
        blIndex := blIndex + 1;
      }
      NextRow(a1, numAnts);
      assert ListedBefore(bls[..], numAnts, a1 + 1, a1 + 1);
    }
  }

  /** The three numberings of pairs are one bijection: entry `b` of the list is the pair
      that counting through the triangle gives index `b`, and the pair that the
      square-root formula computes from `b`, up to the 4096 antennas for which it is right. */
  lemma NumberingsAgree(bls: seq<Baseline>, numAnts: nat, b: nat, round: real -> real, sqrt: real -> real)
    requires IsBaselineList(bls, numAnts) && b < |bls|
    requires RoundsToNearest(round) && IsSquareRoot(sqrt) && numAnts <= 4096
    ensures var Baseline(a1, a2) := bls[b];
            && a1 <= a2 < numAnts
            && BaselineOf(a1, a2, numAnts) == Some(b)
            && GetAntennasFromBaseline(b, numAnts, round, sqrt) == Ok(Some((a1, a2)))
            && forall c1: nat, c2: nat :: BaselineOf(c1, c2, numAnts) == Some(b) ==> c1 == a1 && c2 == a2
  {
    var a1, a2 := BaselineIndexOnto(b, numAnts);
    assert bls[BaselineIndex(a1, a2, numAnts)] == Baseline(a1, a2);
    AntennasFromBaseline(b, numAnts, round, sqrt);
    forall c1: nat, c2: nat | BaselineOf(c1, c2, numAnts) == Some(b)
      ensures c1 == a1 && c2 == a2
    {
      BaselineIndexUnique(c1, c2, a1, a2, numAnts);
    }
  }
}
