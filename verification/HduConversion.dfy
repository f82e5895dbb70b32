/** Reordering the floats of one HDU into the library's output orders
    (the three `convert_*` functions of src/convert/mod.rs). */
module HduConversion {
  import opened ConversionTable
  import opened Layout

  /** A single-precision float: its sign bit, and the number its other 31 bits make.
      Conversion only copies floats and flips signs. */
  datatype F32 = F32(negative: bool, rest: nat)

  function Neg(x: F32): F32 {
    x.(negative := !x.negative)
  }

  /** Floats of one baseline and fine channel: four complex visibilities. */
  const FLOATS: nat := 8
  const FLOATS_PER_FINE_CHAN: nat := 66048

  /** Every unchecked read of the entry stays inside its fine channel. */
  predicate EntryFits(e: LegacyConversionBaseline) {
    && e.xxIndex + 1 < FLOATS_PER_FINE_CHAN && e.xyIndex + 1 < FLOATS_PER_FINE_CHAN
    && e.yxIndex + 1 < FLOATS_PER_FINE_CHAN && e.yyIndex + 1 < FLOATS_PER_FINE_CHAN
  }

  predicate TableFits(table: seq<LegacyConversionBaseline>) {
    |table| == BASELINES && forall b :: 0 <= b < BASELINES ==> EntryFits(table[b])
  }

  // ---------------------------------------------------------------- one baseline, one fine channel

  /** The eight floats of a baseline: real parts are copied; imaginary parts change sign
      unless the source already holds the conjugate. */
  function Converted(e: LegacyConversionBaseline, input: seq<F32>, source: nat): (r: seq<F32>)
    requires EntryFits(e) && source + FLOATS_PER_FINE_CHAN <= |input|
    ensures |r| == FLOATS
  {
    [ input[source + e.xxIndex], Imaginary(input[source + e.xxIndex + 1], e.xxConjugate),
      input[source + e.xyIndex], Imaginary(input[source + e.xyIndex + 1], e.xyConjugate),
      input[source + e.yxIndex], Imaginary(input[source + e.yxIndex + 1], e.yxConjugate),
      input[source + e.yyIndex], Imaginary(input[source + e.yyIndex + 1], e.yyConjugate) ]
  }

  function Imaginary(x: F32, conjugate: bool): F32 {
    if conjugate then x else Neg(x)
  }

  /** Copies one complex visibility, conjugating it where the table says so. */
  method CopyVisibility(input: seq<F32>, at: nat, conjugate: bool, output: array<F32>, dest: nat)
    requires at + 1 < |input| && dest + 1 < output.Length
    modifies output
    ensures output[..] == old(output[..])[dest := input[at]][dest + 1 := if conjugate then Neg(input[at + 1]) else input[at + 1]]
  {
    output[dest] := input[at];
    output[dest + 1] := if conjugate then Neg(input[at + 1]) else input[at + 1];
  }

  /** Copies the four visibilities, conjugating where the entry says so, and finally
      conjugates all of them to reach the wanted triangle. */
  method ConvertBaseline(e: LegacyConversionBaseline, input: seq<F32>, source: nat, output: array<F32>, dest: nat)
    requires EntryFits(e) && source + FLOATS_PER_FINE_CHAN <= |input| && dest + FLOATS <= output.Length
    modifies output
    ensures Chunk(output[..], dest, FLOATS) == Converted(e, input, source)
    ensures forall k :: 0 <= k < output.Length && !(dest <= k < dest + FLOATS) ==> output[k] == old(output[k])
  {
    CopyVisibility(input, source + e.xxIndex, e.xxConjugate, output, dest);
    CopyVisibility(input, source + e.xyIndex, e.xyConjugate, output, dest + 2);
    CopyVisibility(input, source + e.yxIndex, e.yxConjugate, output, dest + 4);
    CopyVisibility(input, source + e.yyIndex, e.yyConjugate, output, dest + 6);
    output[dest + 1] := Neg(output[dest + 1]);
    output[dest + 3] := Neg(output[dest + 3]);
    output[dest + 5] := Neg(output[dest + 5]);
    output[dest + 7] := Neg(output[dest + 7]);
  }

  // ---------------------------------------------------------------- whole HDU

  /** Output position of a baseline's floats: [baseline][fine_chan] or [fine_chan][baseline] order. */
  function Target(byBaseline: bool, b: nat, f: nat, fineChans: nat): nat {
    if byBaseline then Offset(b, f, fineChans, FLOATS) else Offset(f, b, BASELINES, FLOATS)
  }

  ghost predicate BaselineDone(output: seq<F32>, byBaseline: bool, table: seq<LegacyConversionBaseline>,
                               input: seq<F32>, fineChans: nat, b: nat, f: nat)
    requires TableFits(table) && b < BASELINES && (f + 1) * FLOATS_PER_FINE_CHAN <= |input|
  {
    && Target(byBaseline, b, f, fineChans) + FLOATS <= |output|
    && Chunk(output, Target(byBaseline, b, f, fineChans), FLOATS) ==
       Converted(table[b], input, f * FLOATS_PER_FINE_CHAN)
  }

  /** The fine channels before `fEnd`, and the baselines before `bEnd` of fine channel `fEnd`, are converted. */
  ghost predicate ConvertedBefore(output: seq<F32>, byBaseline: bool, table: seq<LegacyConversionBaseline>,
                                  input: seq<F32>, fineChans: nat, fEnd: nat, bEnd: nat)
    requires TableFits(table) && fineChans * FLOATS_PER_FINE_CHAN <= |input|
  {
    forall b: nat, f: nat ::
      b < BASELINES && f < fineChans && (f < fEnd || (f == fEnd && b < bEnd)) ==>
      BaselineDone(output, byBaseline, table, input, fineChans, b, f)
  }

  /** All `fineChans` fine channels of `input` are converted. */
  ghost predicate ConvertedHdu(output: seq<F32>, byBaseline: bool, table: seq<LegacyConversionBaseline>,
                               input: seq<F32>, fineChans: nat)
    requires TableFits(table) && fineChans * FLOATS_PER_FINE_CHAN <= |input|
  {
    ConvertedBefore(output, byBaseline, table, input, fineChans, fineChans, 0)
  }

  lemma TargetInRange(byBaseline: bool, b: nat, f: nat, fineChans: nat)
    requires b < BASELINES && f < fineChans
    ensures Target(byBaseline, b, f, fineChans) + FLOATS <= fineChans * FLOATS_PER_FINE_CHAN
  {
    if byBaseline {
      OffsetInRange(b, f, BASELINES, fineChans, FLOATS);
    } else {
      OffsetInRange(f, b, fineChans, BASELINES, FLOATS);
    }
  }

  lemma TargetsApart(byBaseline: bool, b: nat, f: nat, b': nat, f': nat, fineChans: nat)
    requires b < BASELINES && f < fineChans && b' < BASELINES && f' < fineChans && !(b == b' && f == f')
    ensures Target(byBaseline, b, f, fineChans) + FLOATS <= Target(byBaseline, b', f', fineChans)
         || Target(byBaseline, b', f', fineChans) + FLOATS <= Target(byBaseline, b, f, fineChans)
  {
    if byBaseline {
      OffsetsApart(b, f, b', f', fineChans, FLOATS);
    } else {
      OffsetsApart(f, b, f', b', BASELINES, FLOATS);
    }
  }

  lemma ConvertNext(output: seq<F32>, output': seq<F32>, byBaseline: bool, table: seq<LegacyConversionBaseline>,
                    input: seq<F32>, fineChans: nat, f: nat, b: nat)
    requires TableFits(table) && fineChans * FLOATS_PER_FINE_CHAN <= |input| && f < fineChans && b < BASELINES
    requires ConvertedBefore(output, byBaseline, table, input, fineChans, f, b)
    requires |output'| == |output| && BaselineDone(output', byBaseline, table, input, fineChans, b, f)
    requires var at := Target(byBaseline, b, f, fineChans);
             forall k :: 0 <= k < |output| && !(at <= k < at + FLOATS) ==> output'[k] == output[k]
    ensures ConvertedBefore(output', byBaseline, table, input, fineChans, f, b + 1)
  {
    forall b': nat, f': nat | b' < BASELINES && f' < fineChans && (f' < f || (f' == f && b' < b + 1))
      ensures BaselineDone(output', byBaseline, table, input, fineChans, b', f')
    {
      if !(b' == b && f' == f) {
        assert BaselineDone(output, byBaseline, table, input, fineChans, b', f');
        TargetsApart(byBaseline, b, f, b', f', fineChans);
        var at := Target(byBaseline, b', f', fineChans);
        assert Chunk(output', at, FLOATS) == Chunk(output, at, FLOATS);
      }
    }
  }

  method ConvertLegacyHduToMwaxBaselineOrder(table: seq<LegacyConversionBaseline>, input: seq<F32>,
                                             output: array<F32>, numFineChans: nat)
    requires TableFits(table)
    requires |input| >= numFineChans * FLOATS_PER_FINE_CHAN
    requires output.Length >= numFineChans * FLOATS_PER_FINE_CHAN
    modifies output
    ensures ConvertedHdu(output[..], true, table, input, numFineChans)
    ensures forall k :: numFineChans * FLOATS_PER_FINE_CHAN <= k < output.Length ==> output[k] == old(output[k])
  {
    var floatsPerBaseline := FLOATS * numFineChans;
    for f := 0 to numFineChans
      invariant ConvertedBefore(output[..], true, table, input, numFineChans, f, 0)
      invariant forall k :: numFineChans * FLOATS_PER_FINE_CHAN <= k < output.Length ==> output[k] == old(output[k])
    {
      for b := 0 to BASELINES
        invariant ConvertedBefore(output[..], true, table, input, numFineChans, f, b)
        invariant forall k :: numFineChans * FLOATS_PER_FINE_CHAN <= k < output.Length ==> output[k] == old(output[k])
      {
        ghost var before := output[..];
        var sourceIndex := f * FLOATS_PER_FINE_CHAN;
        var destinationIndex := b * floatsPerBaseline + f * FLOATS;
        assert destinationIndex == Target(true, b, f, numFineChans);
        TargetInRange(true, b, f, numFineChans);
        ConvertBaseline(table[b], input, sourceIndex, output, destinationIndex);
        ConvertNext(before, output[..], true, table, input, numFineChans, f, b);
      }
    }
  }

  method ConvertLegacyHduToMwaxFrequencyOrder(table: seq<LegacyConversionBaseline>, input: seq<F32>,
                                              output: array<F32>, numFineChans: nat)
    requires TableFits(table)
    requires |input| >= numFineChans * FLOATS_PER_FINE_CHAN
    requires output.Length >= numFineChans * FLOATS_PER_FINE_CHAN
    modifies output
    ensures ConvertedHdu(output[..], false, table, input, numFineChans)
    ensures forall k :: numFineChans * FLOATS_PER_FINE_CHAN <= k < output.Length ==> output[k] == old(output[k])
  {
    for f := 0 to numFineChans
      invariant ConvertedBefore(output[..], false, table, input, numFineChans, f, 0)
      invariant forall k :: numFineChans * FLOATS_PER_FINE_CHAN <= k < output.Length ==> output[k] == old(output[k])
    {
      for b := 0 to BASELINES
        invariant ConvertedBefore(output[..], false, table, input, numFineChans, f, b)
        invariant forall k :: numFineChans * FLOATS_PER_FINE_CHAN <= k < output.Length ==> output[k] == old(output[k])
      {
        ghost var before := output[..];
        var sourceIndex := f * FLOATS_PER_FINE_CHAN;
        var destinationIndex := sourceIndex + b * FLOATS;
        assert destinationIndex == Target(false, b, f, numFineChans);
        TargetInRange(false, b, f, numFineChans);
        ConvertBaseline(table[b], input, sourceIndex, output, destinationIndex);
        ConvertNext(before, output[..], false, table, input, numFineChans, f, b);
      }
    }
  }

  // ---------------------------------------------------------------- MWAX

  method CopyChunk<T>(input: seq<T>, source: nat, output: array<T>, dest: nat, w: nat)
    requires source + w <= |input| && dest + w <= output.Length
    modifies output
    ensures Chunk(output[..], dest, w) == Chunk(input, source, w)
    ensures forall k :: 0 <= k < output.Length && !(dest <= k < dest + w) ==> output[k] == old(output[k])
  {
    forall k | 0 <= k < w {
      output[dest + k] := input[source + k];
    }
  }

  /** The chunks of the baselines before `bEnd`, and the fine channels before `fEnd` of
      baseline `bEnd`, are in place. */
  ghost predicate MovedBefore<T>(input: seq<T>, output: seq<T>, baselines: nat, fineChans: nat, w: nat, bEnd: nat, fEnd: nat) {
    forall b: nat, f: nat ::
      b < baselines && f < fineChans && (b < bEnd || (b == bEnd && f < fEnd)) ==>
      ChunkMoved(input, output, b, f, baselines, fineChans, w)
  }

  lemma MoveNext<T>(input: seq<T>, output: seq<T>, output': seq<T>, baselines: nat, fineChans: nat, w: nat, b: nat, f: nat)
    requires b < baselines && f < fineChans && |output'| == |output|
    requires MovedBefore(input, output, baselines, fineChans, w, b, f)
    requires ChunkMoved(input, output', b, f, baselines, fineChans, w)
    requires var at := Offset(f, b, baselines, w);
             forall k :: 0 <= k < |output| && !(at <= k < at + w) ==> output'[k] == output[k]
    ensures MovedBefore(input, output', baselines, fineChans, w, b, f + 1)
  {
    forall b': nat, f': nat | b' < baselines && f' < fineChans && (b' < b || (b' == b && f' < f + 1))
      ensures ChunkMoved(input, output', b', f', baselines, fineChans, w)
    {
      if !(b' == b && f' == f) {
        assert ChunkMoved(input, output, b', f', baselines, fineChans, w);
        OffsetsApart(f, b, f', b', baselines, w);
        var at := Offset(f', b', baselines, w);
        assert Chunk(output', at, w) == Chunk(output, at, w);
      }
    }
  }

  method ConvertMwaxHduToFrequencyOrder(input: seq<F32>, output: array<F32>, numBaselines: nat, numFineChans: nat,
                                        numVisibilityPols: nat)
    requires |input| >= numBaselines * numFineChans * (2 * numVisibilityPols)
    requires output.Length >= numBaselines * numFineChans * (2 * numVisibilityPols)
    modifies output
    ensures var w, n := 2 * numVisibilityPols, numBaselines * numFineChans * (2 * numVisibilityPols);
            && Transposed(input[..n], output[..n], numBaselines, numFineChans, w)
            && forall k :: n <= k < output.Length ==> output[k] == old(output[k])
  {
    var w := numVisibilityPols * 2;
    var floatsPerBaseline := numFineChans * w;
    var floatsPerFineChan := numBaselines * w;
    ghost var n := numBaselines * numFineChans * w;
    for b := 0 to numBaselines
      invariant MovedBefore(input, output[..], numBaselines, numFineChans, w, b, 0)
      invariant forall k :: n <= k < output.Length ==> output[k] == old(output[k])
    {
      for f := 0 to numFineChans
        invariant MovedBefore(input, output[..], numBaselines, numFineChans, w, b, f)
        invariant forall k :: n <= k < output.Length ==> output[k] == old(output[k])
      {
        ghost var before := output[..];
        var sourceIndex := b * floatsPerBaseline + f * w;
        var destinationIndex := f * floatsPerFineChan + b * w;
        OffsetAsStrides(b, f, numFineChans, w);
        OffsetAsStrides(f, b, numBaselines, w);
        OffsetInRange(b, f, numBaselines, numFineChans, w);
        OffsetInRange(f, b, numFineChans, numBaselines, w);
        assert numFineChans * numBaselines * w == n;
        CopyChunk(input, sourceIndex, output, destinationIndex, w);
        MoveNext(input, before, output[..], numBaselines, numFineChans, w, b, f);
      }
    }
    MovedPrefix(input, output[..], numBaselines, numFineChans, w);
  }

  lemma OffsetAsStrides(outer: nat, inner: nat, inners: nat, w: nat)
    ensures Offset(outer, inner, inners, w) == outer * (inners * w) + inner * w
  {
  }

  lemma MovedPrefix<T>(input: seq<T>, output: seq<T>, baselines: nat, fineChans: nat, w: nat)
    requires var n := baselines * fineChans * w; n <= |input| && n <= |output|
    requires MovedBefore(input, output, baselines, fineChans, w, baselines, 0)
    ensures var n := baselines * fineChans * w; Transposed(input[..n], output[..n], baselines, fineChans, w)
  {
    var n := baselines * fineChans * w;
    forall b, f | 0 <= b < baselines && 0 <= f < fineChans
      ensures ChunkMoved(input[..n], output[..n], b, f, baselines, fineChans, w)
    {
      assert ChunkMoved(input, output, b, f, baselines, fineChans, w);
      OffsetInRange(b, f, baselines, fineChans, w);
      OffsetInRange(f, b, fineChans, baselines, w);
      assert fineChans * baselines * w == n;
      var i, o := Offset(b, f, fineChans, w), Offset(f, b, baselines, w);
      assert Chunk(input[..n], i, w) == Chunk(input, i, w) && Chunk(output[..n], o, w) == Chunk(output, o, w);
    }
  }

  // ---------------------------------------------------------------- the two legacy orders agree

  /** The two output orders of a legacy HDU are exchanges of each other ... */
  lemma LegacyOrdersTransposed(byBaseline: seq<F32>, byFrequency: seq<F32>, table: seq<LegacyConversionBaseline>,
                               input: seq<F32>, fineChans: nat)
    requires TableFits(table) && fineChans * FLOATS_PER_FINE_CHAN <= |input|
    requires |byBaseline| == |byFrequency| == fineChans * FLOATS_PER_FINE_CHAN
    requires ConvertedHdu(byBaseline, true, table, input, fineChans)
    requires ConvertedHdu(byFrequency, false, table, input, fineChans)
    ensures Transposed(byBaseline, byFrequency, BASELINES, fineChans, FLOATS)
  {
    forall b, f | 0 <= b < BASELINES && 0 <= f < fineChans
      ensures ChunkMoved(byBaseline, byFrequency, b, f, BASELINES, fineChans, FLOATS)
    {
      assert BaselineDone(byBaseline, true, table, input, fineChans, b, f);
      assert BaselineDone(byFrequency, false, table, input, fineChans, b, f);
    }
  }

  /** ... so converting to baseline order and then applying the MWAX reordering gives
      the same buffer as converting to frequency order directly. */
  lemma ConversionsCommute(byBaseline: seq<F32>, reordered: seq<F32>, byFrequency: seq<F32>,
                           table: seq<LegacyConversionBaseline>, input: seq<F32>, fineChans: nat)
    requires TableFits(table) && fineChans * FLOATS_PER_FINE_CHAN <= |input|
    requires |byBaseline| == |byFrequency| == fineChans * FLOATS_PER_FINE_CHAN
    requires ConvertedHdu(byBaseline, true, table, input, fineChans)
    requires ConvertedHdu(byFrequency, false, table, input, fineChans)
    requires Transposed(byBaseline, reordered, BASELINES, fineChans, FLOATS)
    ensures reordered == byFrequency
  {
    LegacyOrdersTransposed(byBaseline, byFrequency, table, input, fineChans);
    TransposeUnique(byBaseline, reordered, byFrequency, BASELINES, fineChans, FLOATS);
  }
}
