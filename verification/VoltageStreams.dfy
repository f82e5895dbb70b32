/** What reading voltages means: a channel's files are one stream, and a read takes a slice of it
    (src/voltage_context/mod.rs). */
module VoltageStreams {
  import opened Grid
  import opened VoltageContext
  import opened VoltageFiles
  import opened Wrappers

  // ---------------------------------------------------------------- the stream

  /** The section of a timestep in the channel's stream: its data, or a hole of the same size. */
  function Section(ctx: Context, fs: FileSystem, ti: nat, ci: nat): (s: seq<byte>)
    requires ti < |ctx.timesteps| && ci < |ctx.coarseChans|
    ensures |s| == ctx.geometry.SectionSize()
  {
    match DataOf(ctx, fs, ti, ci)
    case Ok(data) => data
    case _ => seq(ctx.geometry.SectionSize(), _ => 0 as byte)
  }

  /** All data of a channel, timestep after timestep. */
  function Stream(ctx: Context, fs: FileSystem, ci: nat, n: nat): (s: seq<byte>)
    requires n <= |ctx.timesteps| && ci < |ctx.coarseChans|
    ensures |s| == Mul(n, ctx.geometry.SectionSize())
  {
    if n == 0 then [] else Stream(ctx, fs, ci, n - 1) + Section(ctx, fs, n - 1, ci)
  }

  ghost predicate IsSlice(part: seq<byte>, stream: seq<byte>, at: nat) {
    && at + |part| <= |stream|
    && part == stream[at..at + |part|]
  }

  lemma SliceOfAppend(part: seq<byte>, a: seq<byte>, b: seq<byte>, at: nat)
    requires IsSlice(part, a, at)
    ensures IsSlice(part, a + b, at)
  {
  }

  /** The section of timestep i starts at i section sizes. */
  lemma {:induction false} SectionOfStream(ctx: Context, fs: FileSystem, ci: nat, n: nat, ti: nat)
    requires ti < n <= |ctx.timesteps| && ci < |ctx.coarseChans|
    ensures IsSlice(Section(ctx, fs, ti, ci), Stream(ctx, fs, ci, n), Mul(ti, ctx.geometry.SectionSize()))
  {
    if ti < n - 1 {
      SectionOfStream(ctx, fs, ci, n - 1, ti);
      SliceOfAppend(Section(ctx, fs, ti, ci), Stream(ctx, fs, ci, n - 1), Section(ctx, fs, n - 1, ci),
                    Mul(ti, ctx.geometry.SectionSize()));
    }
  }

  // ---------------------------------------------------------------- block numbers

  /** Blocks are numbered through all files; `g` of them are behind us, and those in [lo, hi) are wanted. */
  function BlocksTaken(g: int, lo: nat, hi: nat): nat
    requires lo <= hi
  {
    if g <= lo then 0 else if g >= hi then hi - lo else g - lo
  }

  /** What has been read when `g` blocks are behind us: the wanted ones of them, in order and
      without gaps.  `Mul(n, size)` is the size of n blocks. */
  ghost predicate Sliced(bytes: seq<byte>, stream: seq<byte>, lo: nat, hi: nat, size: nat, g: nat) {
    && lo <= hi && |bytes| == Mul(BlocksTaken(g, lo, hi), size)
    && IsSlice(bytes, stream, Mul(lo, size))
  }

  lemma SkipBlock(bytes: seq<byte>, stream: seq<byte>, lo: nat, hi: nat, size: nat, g: nat)
    requires Sliced(bytes, stream, lo, hi, size, g) && !(lo <= g < hi)
    ensures Sliced(bytes, stream, lo, hi, size, g + 1)
  {
    assert BlocksTaken(g, lo, hi) == BlocksTaken(g + 1, lo, hi);
  }

  lemma SlicedFits(bytes: seq<byte>, stream: seq<byte>, lo: nat, hi: nat, size: nat, g: nat)
    requires Sliced(bytes, stream, lo, hi, size, g)
    ensures |bytes| <= Mul(hi - lo, size)
    ensures hi <= g ==> |bytes| == Mul(hi - lo, size)
  {
    MulAscend(BlocksTaken(g, lo, hi), hi - lo, size);
  }

  lemma TakeBlock(bytes: seq<byte>, stream: seq<byte>, lo: nat, hi: nat, size: nat, g: nat, at: nat)
    requires Sliced(bytes, stream, lo, hi, size, g) && lo <= g < hi
    requires at == Mul(g, size) && at + size <= |stream|
    ensures Sliced(bytes + stream[at..at + size], stream, lo, hi, size, g + 1)
  {
    TakenSize(lo, hi, size, g);
    SliceGrows(bytes, stream, Mul(lo, size), size);
  }

  lemma TakenSize(lo: nat, hi: nat, size: nat, g: nat)
    requires lo <= g < hi
    ensures Mul(g, size) == Mul(lo, size) + Mul(BlocksTaken(g, lo, hi), size)
    ensures Mul(BlocksTaken(g + 1, lo, hi), size) == Mul(BlocksTaken(g, lo, hi), size) + size
  {
    MulAdd(lo, g - lo, size);
  }

  lemma SliceGrows(bytes: seq<byte>, stream: seq<byte>, at: nat, size: nat)
    requires IsSlice(bytes, stream, at) && at + |bytes| + size <= |stream|
    ensures IsSlice(bytes + stream[at + |bytes|..at + |bytes| + size], stream, at)
  {
  }

  /** A block is wanted when the second it belongs to is. */
  lemma BlockSecond(block: nat, file: nat, perSecond: nat, seconds: nat, from: nat, to: nat)
    requires perSecond >= 1
    ensures var g := Mul(file, Mul(seconds, perSecond)) + block;
            from <= Mul(file, seconds) + WholeSteps(block, perSecond) < to <==> Mul(from, perSecond) <= g < Mul(to, perSecond)
  {
    MulMul(file, seconds, perSecond);
    SecondOfBlock(block, Mul(file, seconds), perSecond, from);
    SecondOfBlock(block, Mul(file, seconds), perSecond, to);
  }

  lemma SecondOfBlock(block: nat, second: nat, perSecond: nat, x: nat)
    requires perSecond >= 1
    ensures x <= second + WholeSteps(block, perSecond) <==> Mul(x, perSecond) <= Mul(second, perSecond) + block
  {
    var q := WholeSteps(block, perSecond);
    WholeStepsBound(block, perSecond);
    MulAdd(second, q, perSecond);
    AtLeast(second + q, block - Mul(q, perSecond), perSecond, x);
  }

  lemma AtLeast(s: nat, r: nat, n: nat, x: nat)
    requires r < n
    ensures x <= s <==> Mul(x, n) <= Mul(s, n) + r
  {
    if x <= s {
      MulAscend(x, s, n);
    } else {
      MulAscend(s + 1, x, n);
    }
  }

  /** A whole number of seconds from the start lies in the file that its second lies in. */
  lemma FileOfSecond(k: nat, extra: nat, durationMs: nat, seconds: nat)
    requires durationMs == seconds * 1000 && seconds > 0 && extra < 1000
    ensures FileIndex(k * 1000 + extra, durationMs) == WholeSteps(k, seconds)
  {
    var q := WholeSteps(k, seconds);
    WholeStepsBound(k, seconds);
    MulIsProduct(q, seconds);
    assert q * seconds * 1000 == q * durationMs;
    Remainder(k * 1000 + extra, q, k * 1000 + extra - q * durationMs, durationMs);
  }

  /** The data of a file are so many blocks of the stream, the first of them being block `base`. */
  ghost predicate InStream(data: seq<byte>, stream: seq<byte>, base: nat, blocks: nat, size: nat) {
    && |data| == Mul(blocks, size)
    && IsSlice(data, stream, Mul(base, size))
  }

  lemma BlockInStream(data: seq<byte>, stream: seq<byte>, base: nat, blocks: nat, size: nat, block: nat)
    requires InStream(data, stream, base, blocks, size) && block < blocks
    ensures Mul(block, size) + size <= |data| && Mul(base + block, size) + size <= |stream|
    ensures stream[Mul(base + block, size)..Mul(base + block, size) + size] ==
            data[Mul(block, size)..Mul(block, size) + size]
  {
    MulAscend(block + 1, blocks, size);
    MulAdd(base, block, size);
    SliceOfSlice(stream, Mul(base, size), |data|, Mul(block, size), size);
  }

  lemma SliceOfSlice(s: seq<byte>, at: nat, length: nat, from: nat, size: nat)
    requires at + length <= |s| && from + size <= length
    ensures s[at..at + length][from..from + size] == s[at + from..at + from + size]
  {
    var left, right := s[at..at + length][from..from + size], s[at + from..at + from + size];
    assert |left| == |right|;
    assert forall k :: 0 <= k < size ==> left[k] == s[at + from + k] == right[k];
  }

  /** The blocks of a file whose first block is number `base`, and whose first second is `second`,
      are wanted exactly when their numbers are in [lo, hi). */
  ghost predicate Wanted(geometry: Geometry, base: nat, second: nat, start: nat, end: nat, lo: nat, hi: nat)
    requires geometry.blocksPerSecond >= 1
  {
    && lo <= hi
    && forall block: nat {:trigger IsWanted(geometry, second, block, start, end)} :: block < geometry.blocksPerTimestep ==>
         (IsWanted(geometry, second, block, start, end) <==> lo <= base + block < hi)
  }

  lemma SecondsAreBlocks(geometry: Geometry, file: nat, first: nat, second: nat, start: nat, end: nat, lo: nat, hi: nat)
    requires geometry.Valid() && first <= start <= end + 1 && second == first + Mul(file, geometry.Seconds())
    requires lo == Mul(start - first, geometry.blocksPerSecond) && hi == Mul(end + 1 - first, geometry.blocksPerSecond)
    ensures Wanted(geometry, geometry.BlocksBefore(file), second, start, end, lo, hi)
  {
    MulAscend(start - first, end + 1 - first, geometry.blocksPerSecond);
    forall block: nat | block < geometry.blocksPerTimestep
      ensures IsWanted(geometry, second, block, start, end) <==> lo <= geometry.BlocksBefore(file) + block < hi
    {
      BlockSecond(block, file, geometry.blocksPerSecond, geometry.Seconds(), start - first, end + 1 - first);
    }
  }

  /** A front part of the buffer has been read from the stream, and the rest is as it was. */
  ghost predicate FrontRead(buffer: seq<byte>, before: seq<byte>, stream: seq<byte>, at: nat) {
    exists read: nat :: PartlyRead(buffer, before, stream, at, read)
  }

  ghost predicate PartlyRead(buffer: seq<byte>, before: seq<byte>, stream: seq<byte>, at: nat, read: nat) {
    && read <= |buffer| == |before| && at + read <= |stream|
    && buffer[..read] == stream[at..at + read]
    && buffer[read..] == before[read..]
  }

  ghost predicate WantedInAll(ctx: Context, start: nat, end: nat, lo: nat, hi: nat)
    requires ctx.geometry.blocksPerSecond >= 1
  {
    forall file: nat :: file < |ctx.timesteps| ==>
      Wanted(ctx.geometry, ctx.geometry.BlocksBefore(file), ctx.timesteps[file].gpsTimeMs / 1000, start, end, lo, hi)
  }

  lemma DataInStream(ctx: Context, fs: FileSystem, ci: nat, file: nat)
    requires ci < |ctx.coarseChans| && Available(ctx, fs, ci, file)
    ensures InStream(DataOf(ctx, fs, file, ci).value, Stream(ctx, fs, ci, |ctx.timesteps|),
                     ctx.geometry.BlocksBefore(file), ctx.geometry.blocksPerTimestep, ctx.geometry.blockSize)
  {
    MulMul(file, ctx.geometry.blocksPerTimestep, ctx.geometry.blockSize);
    SectionOfStream(ctx, fs, ci, |ctx.timesteps|, file);
  }

  // ---------------------------------------------------------------- the blocks of the files

  /** Reading the first `n` blocks of a file adds the next blocks of the stream. */
  lemma {:induction false} FileSliced(data: seq<byte>, geometry: Geometry, second: nat, start: nat, end: nat, n: nat,
                                      bytes: seq<byte>, stream: seq<byte>, base: nat, lo: nat, hi: nat)
    requires geometry.blocksPerSecond >= 1 && |data| == geometry.SectionSize() && n <= geometry.blocksPerTimestep
    requires InStream(data, stream, base, geometry.blocksPerTimestep, geometry.blockSize)
    requires Wanted(geometry, base, second, start, end, lo, hi) && Sliced(bytes, stream, lo, hi, geometry.blockSize, base)
    ensures Sliced(bytes + WantedBlocks(data, geometry, second, start, end, n), stream, lo, hi, geometry.blockSize, base + n)
  {
    if n == 0 {
      assert bytes + [] == bytes;
    } else {
      FileSliced(data, geometry, second, start, end, n - 1, bytes, stream, base, lo, hi);
      BlockSliced(data, geometry, second, start, end, n - 1, bytes, stream, base, lo, hi);
    }
  }

  lemma BlockSliced(data: seq<byte>, geometry: Geometry, second: nat, start: nat, end: nat, block: nat,
                    bytes: seq<byte>, stream: seq<byte>, base: nat, lo: nat, hi: nat)
    requires geometry.blocksPerSecond >= 1 && |data| == geometry.SectionSize() && block < geometry.blocksPerTimestep
    requires InStream(data, stream, base, geometry.blocksPerTimestep, geometry.blockSize)
    requires Wanted(geometry, base, second, start, end, lo, hi)
    requires Sliced(bytes + WantedBlocks(data, geometry, second, start, end, block), stream, lo, hi, geometry.blockSize, base + block)
    ensures Sliced(bytes + WantedBlocks(data, geometry, second, start, end, block + 1), stream, lo, hi, geometry.blockSize, base + block + 1)
  {
    var size, read := geometry.blockSize, WantedBlocks(data, geometry, second, start, end, block);
    assert IsWanted(geometry, second, block, start, end) <==> lo <= base + block < hi;
    if IsWanted(geometry, second, block, start, end) {
      BlockInStream(data, stream, base, geometry.blocksPerTimestep, size, block);
      TakeBlock(bytes + read, stream, lo, hi, size, base + block, Mul(base + block, size));
      NextBlock(data, geometry, second, start, end, block, bytes);
    } else {
      SkipBlock(bytes + read, stream, lo, hi, size, base + block);
      assert read + [] == read;
    }
  }

  lemma NextBlock(data: seq<byte>, geometry: Geometry, second: nat, start: nat, end: nat, block: nat, bytes: seq<byte>)
    requires geometry.blocksPerSecond >= 1 && |data| == geometry.SectionSize() && block < geometry.blocksPerTimestep
    requires IsWanted(geometry, second, block, start, end)
    requires geometry.Bytes(block) + geometry.blockSize <= |data|
    ensures bytes + WantedBlocks(data, geometry, second, start, end, block) +
            data[geometry.Bytes(block)..geometry.Bytes(block) + geometry.blockSize] ==
            bytes + WantedBlocks(data, geometry, second, start, end, block + 1)
  {
  }

  /** The stream holds the data of every file at its place. */
  ghost predicate HoldsFiles(ctx: Context, fs: FileSystem, ci: nat, stream: seq<byte>)
    requires ci < |ctx.coarseChans|
  {
    forall file: nat {:trigger Available(ctx, fs, ci, file)} :: Available(ctx, fs, ci, file) ==>
      InStream(DataOf(ctx, fs, file, ci).value, stream, ctx.geometry.BlocksBefore(file), ctx.geometry.blocksPerTimestep,
               ctx.geometry.blockSize)
  }

  lemma StreamHoldsFiles(ctx: Context, fs: FileSystem, ci: nat)
    requires ci < |ctx.coarseChans|
    ensures HoldsFiles(ctx, fs, ci, Stream(ctx, fs, ci, |ctx.timesteps|))
  {
    forall file: nat | Available(ctx, fs, ci, file)
      ensures InStream(DataOf(ctx, fs, file, ci).value, Stream(ctx, fs, ci, |ctx.timesteps|), ctx.geometry.BlocksBefore(file),
                       ctx.geometry.blocksPerTimestep, ctx.geometry.blockSize)
    {
      DataInStream(ctx, fs, ci, file);
    }
  }

  /** Reading files one after the other reads on in the stream. */
  lemma {:induction false} FilesSliced(ctx: Context, fs: FileSystem, start: nat, end: nat, ci: nat, stream: seq<byte>,
                                       from: nat, file: nat, lo: nat, hi: nat)
    requires ctx.geometry.blocksPerSecond >= 1 && ci < |ctx.coarseChans| && from <= file
    requires AllRead(ctx, fs, ci, from, file) && WantedInAll(ctx, start, end, lo, hi) && HoldsFiles(ctx, fs, ci, stream)
    requires ctx.geometry.BlocksBefore(from) <= lo <= hi && ctx.geometry.Bytes(lo) <= |stream|
    ensures Sliced(WantedOfFiles(ctx, fs, start, end, ci, from, file), stream, lo, hi,
                   ctx.geometry.blockSize, ctx.geometry.BlocksBefore(file))
    decreases file
  {
    if from < file {
      FilesBefore(ctx, fs, start, end, ci, from, file);
      FilesSliced(ctx, fs, start, end, ci, stream, from, file - 1, lo, hi);
      NextFileSliced(ctx, fs, start, end, ci, stream, from, file - 1, lo, hi);
    } else {
      NothingSliced(stream, lo, hi, ctx.geometry.blockSize, ctx.geometry.BlocksBefore(file));
    }
  }

  lemma NextFileSliced(ctx: Context, fs: FileSystem, start: nat, end: nat, ci: nat, stream: seq<byte>,
                       from: nat, file: nat, lo: nat, hi: nat)
    requires ctx.geometry.blocksPerSecond >= 1 && ci < |ctx.coarseChans| && from <= file
    requires AllRead(ctx, fs, ci, from, file + 1) && WantedInAll(ctx, start, end, lo, hi) && HoldsFiles(ctx, fs, ci, stream)
    requires Sliced(WantedOfFiles(ctx, fs, start, end, ci, from, file), stream, lo, hi,
                    ctx.geometry.blockSize, ctx.geometry.BlocksBefore(file))
    ensures Sliced(WantedOfFiles(ctx, fs, start, end, ci, from, file + 1), stream, lo, hi,
                   ctx.geometry.blockSize, ctx.geometry.BlocksBefore(file + 1))
  {
    FilesBefore(ctx, fs, start, end, ci, from, file + 1);
    OneFileSliced(ctx, fs, start, end, ci, stream, file, lo, hi, WantedOfFiles(ctx, fs, start, end, ci, from, file));
  }

  lemma NothingSliced(stream: seq<byte>, lo: nat, hi: nat, size: nat, g: nat)
    requires g <= lo <= hi && Mul(lo, size) <= |stream|
    ensures Sliced([], stream, lo, hi, size, g)
  {
  }

  lemma FilesBefore(ctx: Context, fs: FileSystem, start: nat, end: nat, ci: nat, from: nat, file: nat)
    requires ctx.geometry.blocksPerSecond >= 1 && ci < |ctx.coarseChans| && from < file && AllRead(ctx, fs, ci, from, file)
    ensures AllRead(ctx, fs, ci, from, file - 1) && Available(ctx, fs, ci, file - 1)
    ensures WantedOfFiles(ctx, fs, start, end, ci, from, file) ==
            WantedOfFiles(ctx, fs, start, end, ci, from, file - 1) + WantedOfFile(ctx, fs, start, end, ci, file - 1)
  {
  }

  lemma OneFileSliced(ctx: Context, fs: FileSystem, start: nat, end: nat, ci: nat, stream: seq<byte>, file: nat, lo: nat, hi: nat,
                      bytes: seq<byte>)
    requires ctx.geometry.blocksPerSecond >= 1 && ci < |ctx.coarseChans|
    requires Available(ctx, fs, ci, file) && WantedInAll(ctx, start, end, lo, hi) && HoldsFiles(ctx, fs, ci, stream)
    requires Sliced(bytes, stream, lo, hi, ctx.geometry.blockSize, ctx.geometry.BlocksBefore(file))
    ensures Sliced(bytes + WantedOfFile(ctx, fs, start, end, ci, file), stream, lo, hi,
                   ctx.geometry.blockSize, ctx.geometry.BlocksBefore(file + 1))
  {
    SliceFile(ctx, start, end, file, lo, hi, bytes, DataOf(ctx, fs, file, ci).value, stream);
  }

  lemma SliceFile(ctx: Context, start: nat, end: nat, file: nat, lo: nat, hi: nat, bytes: seq<byte>, data: seq<byte>, stream: seq<byte>)
    requires ctx.geometry.blocksPerSecond >= 1 && file < |ctx.timesteps| && WantedInAll(ctx, start, end, lo, hi)
    requires |data| == ctx.geometry.SectionSize()
    requires InStream(data, stream, ctx.geometry.BlocksBefore(file), ctx.geometry.blocksPerTimestep, ctx.geometry.blockSize)
    requires Sliced(bytes, stream, lo, hi, ctx.geometry.blockSize, ctx.geometry.BlocksBefore(file))
    ensures Sliced(bytes + WantedBlocks(data, ctx.geometry, ctx.timesteps[file].gpsTimeMs / 1000, start, end, ctx.geometry.blocksPerTimestep),
                   stream, lo, hi, ctx.geometry.blockSize, ctx.geometry.BlocksBefore(file + 1))
  {
    assert Wanted(ctx.geometry, ctx.geometry.BlocksBefore(file), ctx.timesteps[file].gpsTimeMs / 1000, start, end, lo, hi);
    assert ctx.geometry.BlocksBefore(file + 1) == ctx.geometry.BlocksBefore(file) + ctx.geometry.blocksPerTimestep;
    FileSliced(data, ctx.geometry, ctx.timesteps[file].gpsTimeMs / 1000, start, end, ctx.geometry.blocksPerTimestep, bytes, stream,
               ctx.geometry.BlocksBefore(file), lo, hi);
  }

  // ---------------------------------------------------------------- the range

  /** A range that passes the check: a start inside the observation (or at its end), and the last second. */
  ghost predicate InRange(ctx: Context, start: nat, end: nat) {
    && ctx.Valid()
    && ctx.timesteps[0].gpsTimeMs <= start * 1000 <= ctx.timesteps[|ctx.timesteps| - 1].gpsTimeMs + ctx.geometry.durationMs
    && start <= end + 1 && ctx.timesteps[0].gpsTimeMs <= end * 1000
  }

  function FirstSecond(ctx: Context): nat
    requires ctx.timesteps != []
  {
    ctx.timesteps[0].gpsTimeMs / 1000
  }

  /** The number of the first block of a second. */
  function BlockAt(ctx: Context, second: nat): nat
    requires ctx.timesteps != [] && second >= FirstSecond(ctx)
  {
    Mul(second - FirstSecond(ctx), ctx.geometry.blocksPerSecond)
  }

  lemma TimestepSecond(ctx: Context, file: nat)
    requires ctx.Valid() && file < |ctx.timesteps|
    ensures ctx.timesteps[file].gpsTimeMs / 1000 == FirstSecond(ctx) + Mul(file, ctx.geometry.Seconds())
  {
    InSeconds(ctx.timesteps[0].gpsTimeMs, ctx.geometry.durationMs, file);
  }

  lemma {:induction false} InSeconds(first: nat, durationMs: nat, i: nat)
    requires first % 1000 == 0 && durationMs % 1000 == 0
    ensures Point(first, durationMs, i) == (first / 1000 + Mul(i, durationMs / 1000)) * 1000
  {
    if i > 0 {
      InSeconds(first, durationMs, i - 1);
    }
  }

  /** A range that ends inside the observation has its blocks inside the stream. */
  lemma BlocksInStream(ctx: Context, fs: FileSystem, ci: nat, k: nat)
    requires ctx.Valid() && ci < |ctx.coarseChans| && k <= Mul(|ctx.timesteps|, ctx.geometry.Seconds())
    ensures ctx.geometry.Bytes(Mul(k, ctx.geometry.blocksPerSecond)) <= |Stream(ctx, fs, ci, |ctx.timesteps|)|
  {
    var n, s, perSecond, size := |ctx.timesteps|, ctx.geometry.Seconds(), ctx.geometry.blocksPerSecond, ctx.geometry.blockSize;
    MulAscend(k, Mul(n, s), perSecond);
    MulAscend(Mul(k, perSecond), Mul(Mul(n, s), perSecond), size);
    MulMul(n, s, perSecond);
    MulMul(n, ctx.geometry.blocksPerTimestep, size);
  }

  lemma BlocksOfRange(ctx: Context, start: nat, end: nat)
    requires InRange(ctx, start, end)
    ensures WantedInAll(ctx, start, end, BlockAt(ctx, start), BlockAt(ctx, end + 1))
  {
    forall file: nat | file < |ctx.timesteps|
      ensures Wanted(ctx.geometry, ctx.geometry.BlocksBefore(file), ctx.timesteps[file].gpsTimeMs / 1000, start, end,
                     BlockAt(ctx, start), BlockAt(ctx, end + 1))
    {
      TimestepSecond(ctx, file);
      SecondsAreBlocks(ctx.geometry, file, FirstSecond(ctx), ctx.timesteps[file].gpsTimeMs / 1000, start, end,
                       BlockAt(ctx, start), BlockAt(ctx, end + 1));
    }
  }

  lemma FilesOfRange(ctx: Context, start: nat, end: nat, from: nat, to: nat)
    requires InRange(ctx, start, end)
    requires from == FileIndex(start * 1000 - ctx.timesteps[0].gpsTimeMs, ctx.geometry.durationMs)
    requires to == FileIndex(end * 1000 - ctx.timesteps[0].gpsTimeMs + 1, ctx.geometry.durationMs)
    ensures from <= to + 1
    ensures ctx.geometry.BlocksBefore(from) <= BlockAt(ctx, start) <= BlockAt(ctx, end + 1)
         <= ctx.geometry.BlocksBefore(to + 1)
  {
    var first, d, s := FirstSecond(ctx), ctx.geometry.durationMs, ctx.geometry.Seconds();
    FileOfSecond(start - first, 0, d, s);
    FileOfSecond(end - first, 1, d, s);
    FilesHoldBlocks(ctx.geometry, start - first, end - first);
  }

  /** The first file starts no later than the first block, and the last one ends no earlier than the last. */
  lemma FilesHoldBlocks(geometry: Geometry, k: nat, l: nat)
    requires geometry.Valid() && k <= l + 1
    ensures WholeSteps(k, geometry.Seconds()) <= WholeSteps(l, geometry.Seconds()) + 1
    ensures geometry.BlocksBefore(WholeSteps(k, geometry.Seconds())) <= Mul(k, geometry.blocksPerSecond)
    ensures Mul(k, geometry.blocksPerSecond) <= Mul(l + 1, geometry.blocksPerSecond)
    ensures Mul(l + 1, geometry.blocksPerSecond) <= geometry.BlocksBefore(WholeSteps(l, geometry.Seconds()) + 1)
  {
    var s, p := geometry.Seconds(), geometry.blocksPerSecond;
    var from, to := WholeSteps(k, s), WholeSteps(l, s);
    WholeStepsBound(k, s);
    WholeStepsBound(l, s);
    if k <= l { WholeStepsAscend(k, l, s); } else { WholeStepsAscend(l, k, s); }
    MulMul(from, s, p);
    MulMul(to + 1, s, p);
    MulAscend(Mul(from, s), k, p);
    MulAscend(k, l + 1, p);
    MulAscend(l + 1, Mul(to + 1, s), p);
  }

  lemma StartOfRange(ctx: Context, fs: FileSystem, ci: nat, start: nat, end: nat)
    requires InRange(ctx, start, end) && ci < |ctx.coarseChans|
    ensures ctx.geometry.Bytes(BlockAt(ctx, start)) <= |Stream(ctx, fs, ci, |ctx.timesteps|)|
  {
    TimestepSecond(ctx, |ctx.timesteps| - 1);
    BlocksInStream(ctx, fs, ci, start - FirstSecond(ctx));
  }

  lemma SizeOfRange(ctx: Context, start: nat, count: nat)
    requires ctx.timesteps != [] && start >= FirstSecond(ctx)
    ensures BlockAt(ctx, start + count) == BlockAt(ctx, start) + Mul(count, ctx.geometry.blocksPerSecond)
    ensures BufferSize(ctx, count) == ctx.geometry.Bytes(Mul(count, ctx.geometry.blocksPerSecond))
  {
    MulAdd(start - FirstSecond(ctx), count, ctx.geometry.blocksPerSecond);
    MulMul(count, ctx.geometry.blocksPerSecond, ctx.geometry.blockSize);
  }

  /** A walk through files from `from` to `to` meets all blocks in [lo, hi), and they fill the buffer. */
  ghost predicate Planned(ctx: Context, stream: seq<byte>, length: nat, start: nat, end: nat, from: nat, to: nat, lo: nat, hi: nat) {
    && ctx.geometry.blocksPerSecond >= 1 && from <= to + 1
    && ctx.geometry.BlocksBefore(from) <= lo <= hi <= ctx.geometry.BlocksBefore(to + 1)
    && ctx.geometry.Bytes(lo) <= |stream| && length == ctx.geometry.Bytes(hi - lo)
    && WantedInAll(ctx, start, end, lo, hi)
  }

  lemma RangeIsPlanned(ctx: Context, fs: FileSystem, ci: nat, start: nat, end: nat)
    requires InRange(ctx, start, end) && ci < |ctx.coarseChans|
    ensures var (from, to) := FilesOfSeconds(ctx, start, end);
            Planned(ctx, Stream(ctx, fs, ci, |ctx.timesteps|), BufferSize(ctx, end + 1 - start), start, end, from, to,
                    BlockAt(ctx, start), BlockAt(ctx, end + 1))
  {
    var (from, to) := FilesOfSeconds(ctx, start, end);
    BlocksOfRange(ctx, start, end);
    FilesOfRange(ctx, start, end, from, to);
    StartOfRange(ctx, fs, ci, start, end);
    SizeOfRange(ctx, start, end + 1 - start);
  }

  /** With a buffer that fits, a walk never runs out of room. */
  lemma {:induction false} WalkHasRoom(ctx: Context, fs: FileSystem, start: nat, end: nat, ci: nat, length: nat,
                                       from: nat, file: nat, to: nat, lo: nat, hi: nat)
    requires ci < |ctx.coarseChans| && from <= file
    requires Planned(ctx, Stream(ctx, fs, ci, |ctx.timesteps|), length, start, end, from, to, lo, hi)
    requires AllRead(ctx, fs, ci, from, file)
    ensures Walk(ctx, fs, start, end, ci, file, to, |WantedOfFiles(ctx, fs, start, end, ci, from, file)|, length) ==
            RangeOutcome(ctx, fs, ci, file, to)
    decreases if file > to then 0 else to - file + 1
  {
    if file <= to {
      if Available(ctx, fs, ci, file) {
        RoomForFile(ctx, fs, start, end, ci, length, from, file, to, lo, hi);
        WalkHasRoom(ctx, fs, start, end, ci, length, from, file + 1, to, lo, hi);
      }
      WalkOn(ctx, fs, start, end, ci, length, file, to, |WantedOfFiles(ctx, fs, start, end, ci, from, file)|,
             |WantedOfFiles(ctx, fs, start, end, ci, from, file + 1)|);
    }
  }

  /** One step of a walk: the file is there and there is room for it, or the walk stops. */
  lemma WalkOn(ctx: Context, fs: FileSystem, start: nat, end: nat, ci: nat, length: nat, file: nat, to: nat, pos: nat, next: nat)
    requires ctx.geometry.blocksPerSecond >= 1 && ci < |ctx.coarseChans| && file <= to
    requires Available(ctx, fs, ci, file) ==>
               && Step(ctx, fs, start, end, ci, file, pos, length) == Ok(next)
               && Walk(ctx, fs, start, end, ci, file + 1, to, next, length) == RangeOutcome(ctx, fs, ci, file + 1, to)
    ensures Walk(ctx, fs, start, end, ci, file, to, pos, length) == RangeOutcome(ctx, fs, ci, file, to)
  {
  }

  lemma RoomForFile(ctx: Context, fs: FileSystem, start: nat, end: nat, ci: nat, length: nat, from: nat, file: nat, to: nat, lo: nat, hi: nat)
    requires ci < |ctx.coarseChans| && from <= file
    requires Planned(ctx, Stream(ctx, fs, ci, |ctx.timesteps|), length, start, end, from, to, lo, hi)
    requires AllRead(ctx, fs, ci, from, file) && Available(ctx, fs, ci, file)
    ensures AllRead(ctx, fs, ci, from, file + 1)
    ensures Step(ctx, fs, start, end, ci, file, |WantedOfFiles(ctx, fs, start, end, ci, from, file)|, length) ==
            Ok(|WantedOfFiles(ctx, fs, start, end, ci, from, file + 1)|)
  {
    StreamHoldsFiles(ctx, fs, ci);
    FilesSliced(ctx, fs, start, end, ci, Stream(ctx, fs, ci, |ctx.timesteps|), from, file + 1, lo, hi);
    SlicedFits(WantedOfFiles(ctx, fs, start, end, ci, from, file + 1), Stream(ctx, fs, ci, |ctx.timesteps|), lo, hi,
               ctx.geometry.blockSize, ctx.geometry.BlocksBefore(file + 1));
    StepFits(ctx, fs, start, end, ci, length, from, file);
  }

  lemma StepFits(ctx: Context, fs: FileSystem, start: nat, end: nat, ci: nat, length: nat, from: nat, file: nat)
    requires ctx.geometry.blocksPerSecond >= 1 && ci < |ctx.coarseChans| && from <= file && Available(ctx, fs, ci, file)
    requires |WantedOfFiles(ctx, fs, start, end, ci, from, file + 1)| <= length
    ensures Step(ctx, fs, start, end, ci, file, |WantedOfFiles(ctx, fs, start, end, ci, from, file)|, length) ==
            Ok(|WantedOfFiles(ctx, fs, start, end, ci, from, file + 1)|)
  {
  }

  /** The first thing that goes wrong between two timesteps, both included, when there is room. */
  function RangeOutcome(ctx: Context, fs: FileSystem, ci: nat, from: nat, to: nat): Outcome<(), VoltageFileError>
    requires ci < |ctx.coarseChans|
    decreases if from > to then 0 else to - from + 1
  {
    if from > to then Ok(())
    else if from >= |ctx.timesteps| then Panic
    else
      match DataOf(ctx, fs, from, ci)
      case Ok(_) => RangeOutcome(ctx, fs, ci, from + 1, to)
      case Err(e) => Err(e)
      case Panic => Panic
  }

  ghost predicate HasData(ctx: Context, fs: FileSystem, ci: nat, from: nat, to: nat)
    requires ci < |ctx.coarseChans|
  {
    forall f: nat :: from <= f <= to ==> Available(ctx, fs, ci, f)
  }

  lemma {:induction false} RangeSucceeds(ctx: Context, fs: FileSystem, ci: nat, from: nat, to: nat)
    requires ci < |ctx.coarseChans|
    ensures RangeOutcome(ctx, fs, ci, from, to).Ok? <==> HasData(ctx, fs, ci, from, to)
    decreases if from > to then 0 else to - from + 1
  {
    if from <= to {
      assert HasData(ctx, fs, ci, from, to) <==> Available(ctx, fs, ci, from) && HasData(ctx, fs, ci, from + 1, to);
      RangeSucceeds(ctx, fs, ci, from + 1, to);
    }
  }

  /** The bytes that a successful read leaves in its buffer. */
  ghost predicate WhatIsRead(ctx: Context, fs: FileSystem, start: nat, count: nat, ci: nat, bytes: seq<byte>)
    requires ctx.Valid() && ci < |ctx.coarseChans|
  {
    && FirstSecond(ctx) <= start && |bytes| == BufferSize(ctx, count)
    && IsSlice(bytes, Stream(ctx, fs, ci, |ctx.timesteps|), ctx.geometry.Bytes(BlockAt(ctx, start)))
  }

  // ---------------------------------------------------------------- what a read leaves in its buffer

  /** On whole seconds one file length apart, what a read of a range comes to. */
  lemma RangeIsWalked(ctx: Context, fs: FileSystem, start: nat, end: nat, ci: nat, length: nat)
    requires InRange(ctx, start, end) && ci < |ctx.coarseChans| && length == BufferSize(ctx, end + 1 - start)
    ensures var (from, to) := FilesOfSeconds(ctx, start, end);
            WalkSeconds(ctx, fs, start, end, ci, length) == RangeOutcome(ctx, fs, ci, from, to)
  {
    var (from, to) := FilesOfSeconds(ctx, start, end);
    RangeIsPlanned(ctx, fs, ci, start, end);
    WalkHasRoom(ctx, fs, start, end, ci, length, from, from, to, BlockAt(ctx, start), BlockAt(ctx, end + 1));
  }

  /** A successful read fills its buffer with a slice of the channel's stream: the blocks of
      the seconds asked for, without holes. */
  lemma SecondsAreRead(ctx: Context, fs: FileSystem, start: nat, count: nat, ci: nat, buffer: seq<byte>, before: seq<byte>)
    requires ctx.Valid() && ReadSecondOutcome(ctx, fs, start, count, ci, |before|).Ok?
    requires WroteSeconds(ctx, fs, start, count, ci, buffer, before)
    ensures WhatIsRead(ctx, fs, start, count, ci, buffer)
  {
    SuccessInRange(ctx, fs, start, count, ci, |before|);
    RangeIsRead(ctx, fs, start, start + count - 1, ci, buffer, before);
  }

  lemma RangeIsRead(ctx: Context, fs: FileSystem, start: nat, end: nat, ci: nat, buffer: seq<byte>, before: seq<byte>)
    requires InRange(ctx, start, end) && ci < |ctx.coarseChans| && |before| == BufferSize(ctx, end + 1 - start)
    requires WalkSeconds(ctx, fs, start, end, ci, |before|).Ok?
    requires var (from, to) := FilesOfSeconds(ctx, start, end);
             Wrote(buffer, before, WantedOfFiles(ctx, fs, start, end, ci, from, to + 1))
    ensures |buffer| == |before| && IsSlice(buffer, Stream(ctx, fs, ci, |ctx.timesteps|), ctx.geometry.Bytes(BlockAt(ctx, start)))
  {
    RangeIsPlanned(ctx, fs, ci, start, end);
    RangeIsWalked(ctx, fs, start, end, ci, |before|);
    var (from, to) := FilesOfSeconds(ctx, start, end);
    RangeSucceeds(ctx, fs, ci, from, to);
    WalkIsSlice(ctx, fs, start, end, ci, from, to, BlockAt(ctx, start), BlockAt(ctx, end + 1), buffer, before);
  }

  lemma SuccessInRange(ctx: Context, fs: FileSystem, start: nat, count: nat, ci: nat, length: nat)
    requires ctx.Valid() && ReadSecondOutcome(ctx, fs, start, count, ci, length).Ok?
    ensures start + count >= 1 && ci < |ctx.coarseChans| && InRange(ctx, start, start + count - 1) && length == BufferSize(ctx, count)
    ensures WalkSeconds(ctx, fs, start, start + count - 1, ci, length).Ok?
  {
  }

  lemma WalkIsSlice(ctx: Context, fs: FileSystem, start: nat, end: nat, ci: nat, from: nat, to: nat, lo: nat, hi: nat,
                    buffer: seq<byte>, before: seq<byte>)
    requires ci < |ctx.coarseChans| && HasData(ctx, fs, ci, from, to)
    requires Planned(ctx, Stream(ctx, fs, ci, |ctx.timesteps|), |before|, start, end, from, to, lo, hi)
    requires Wrote(buffer, before, WantedOfFiles(ctx, fs, start, end, ci, from, to + 1))
    ensures IsSlice(buffer, Stream(ctx, fs, ci, |ctx.timesteps|), ctx.geometry.Bytes(lo))
  {
    if from <= to {
      assert Available(ctx, fs, ci, to);
      StreamHoldsFiles(ctx, fs, ci);
    FilesSliced(ctx, fs, start, end, ci, Stream(ctx, fs, ci, |ctx.timesteps|), from, to + 1, lo, hi);
      AllIsSlice(WantedOfFiles(ctx, fs, start, end, ci, from, to + 1), Stream(ctx, fs, ci, |ctx.timesteps|), lo, hi,
                 ctx.geometry.blockSize, ctx.geometry.BlocksBefore(to + 1), buffer, before);
    }
  }

  lemma AllIsSlice(bytes: seq<byte>, stream: seq<byte>, lo: nat, hi: nat, size: nat, g: nat, buffer: seq<byte>, before: seq<byte>)
    requires Sliced(bytes, stream, lo, hi, size, g) && hi <= g && |before| == Mul(hi - lo, size)
    requires Wrote(buffer, before, bytes)
    ensures IsSlice(buffer, stream, Mul(lo, size))
  {
    SlicedFits(bytes, stream, lo, hi, size, g);
  }

  lemma FrontIsSlice(bytes: seq<byte>, stream: seq<byte>, at: nat, buffer: seq<byte>, before: seq<byte>)
    requires IsSlice(bytes, stream, at) && Wrote(buffer, before, bytes)
    ensures FrontRead(buffer, before, stream, at)
  {
    assert PartlyRead(buffer, before, stream, at, |bytes|);
  }

  /** A read that stops half-way has filled the front of its buffer from the stream, and has
      left the rest alone. */
  lemma FrontIsRead(ctx: Context, fs: FileSystem, start: nat, count: nat, ci: nat, buffer: seq<byte>, before: seq<byte>, e: VoltageFileError)
    requires ctx.Valid() && ValidateGpsTimeParameters(ctx, start, count).Ok?
    requires StoppedShort(ctx, fs, start, count, ci, buffer, before, e)
    ensures FirstSecond(ctx) <= start
    ensures FrontRead(buffer, before, Stream(ctx, fs, ci, |ctx.timesteps|), ctx.geometry.Bytes(BlockAt(ctx, start)))
  {
    var end := start + count - 1;
    var (from, to) := FilesOfSeconds(ctx, start, end);
    var file: nat :| StoppedAt(ctx, fs, start, end, ci, from, to, file, buffer, before, e);
    var bytes := WantedOfFiles(ctx, fs, start, end, ci, from, file);
    RangeIsPlanned(ctx, fs, ci, start, end);
    StreamHoldsFiles(ctx, fs, ci);
    FilesSliced(ctx, fs, start, end, ci, Stream(ctx, fs, ci, |ctx.timesteps|), from, file, BlockAt(ctx, start), BlockAt(ctx, end + 1));
    FrontIsSlice(bytes, Stream(ctx, fs, ci, |ctx.timesteps|), ctx.geometry.Bytes(BlockAt(ctx, start)), buffer, before);
  }

  // ---------------------------------------------------------------- what reading means

  /** The second at which the observation ends. */
  function EndSecond(ctx: Context): nat
    requires ctx.timesteps != []
  {
    Point(FirstSecond(ctx), ctx.geometry.Seconds(), |ctx.timesteps|)
  }

  /** The timestep that holds a second. */
  function FileOf(ctx: Context, second: nat): nat
    requires ctx.Valid() && second >= FirstSecond(ctx)
  {
    WholeSteps(second - FirstSecond(ctx), ctx.geometry.Seconds())
  }

  /** Times in whole seconds. */
  lemma ObservationEnds(ctx: Context)
    requires ctx.Valid()
    ensures ctx.timesteps[0].gpsTimeMs == FirstSecond(ctx) * 1000
    ensures ctx.timesteps[|ctx.timesteps| - 1].gpsTimeMs + ctx.geometry.durationMs == EndSecond(ctx) * 1000
  {
    InSeconds(ctx.timesteps[0].gpsTimeMs, ctx.geometry.durationMs, |ctx.timesteps|);
  }

  /** The outcome of a read that is asked for at least one second, with a buffer that fits. */
  function SecondsOutcome(ctx: Context, fs: FileSystem, start: nat, count: nat, ci: nat): Outcome<(), VoltageFileError>
    requires ctx.Valid()
  {
    ReadSecondOutcome(ctx, fs, start, count, ci, BufferSize(ctx, count))
  }

  /** The range check in seconds. */
  lemma CheckInSeconds(ctx: Context, start: nat, count: nat)
    requires ctx.Valid() && count >= 1
    ensures ValidateGpsTimeParameters(ctx, start, count) ==
            if start < FirstSecond(ctx) || start > EndSecond(ctx) then
              Err(InvalidGpsSecondStart(FirstSecond(ctx), EndSecond(ctx)))
            else if start + count - 1 > EndSecond(ctx) then
              Err(InvalidGpsSecondCount(FirstSecond(ctx), count, EndSecond(ctx)))
            else Ok(start + count - 1)
  {
    ObservationEnds(ctx);
  }

  /** A range inside the observation is read from the files that hold its ends. */
  lemma FilesOfEnds(ctx: Context, start: nat, end: nat)
    requires ctx.Valid() && FirstSecond(ctx) <= start <= end
    ensures ctx.timesteps[0].gpsTimeMs <= start * 1000
    ensures FilesOfSeconds(ctx, start, end) == (FileOf(ctx, start), FileOf(ctx, end))
  {
    ObservationEnds(ctx);
    var first, d, s := FirstSecond(ctx), ctx.geometry.durationMs, ctx.geometry.Seconds();
    FileOfSecond(start - first, 0, d, s);
    FileOfSecond(end - first, 1, d, s);
  }

  lemma OutcomeInSeconds(ctx: Context, fs: FileSystem, start: nat, count: nat, ci: nat)
    requires ctx.Valid() && ctx.batches != [] && ci < |ctx.coarseChans| && count >= 1
    ensures SecondsOutcome(ctx, fs, start, count, ci) ==
            if start < FirstSecond(ctx) || start > EndSecond(ctx) then
              Err(InvalidGpsSecondStart(FirstSecond(ctx), EndSecond(ctx)))
            else if start + count - 1 > EndSecond(ctx) then
              Err(InvalidGpsSecondCount(FirstSecond(ctx), count, EndSecond(ctx)))
            else
              RangeOutcome(ctx, fs, ci, FileOf(ctx, start), FileOf(ctx, start + count - 1))
  {
    CheckInSeconds(ctx, start, count);
    if FirstSecond(ctx) <= start <= EndSecond(ctx) && start + count - 1 <= EndSecond(ctx) {
      FilesOfEnds(ctx, start, start + count - 1);
      RangeIsWalked(ctx, fs, start, start + count - 1, ci, BufferSize(ctx, count));
    }
  }

  /** The files of a range are files of the observation exactly when its seconds are. */
  lemma LastFile(ctx: Context, second: nat)
    requires ctx.Valid() && second >= FirstSecond(ctx)
    ensures FileOf(ctx, second) < |ctx.timesteps| <==> second < EndSecond(ctx)
    ensures second == EndSecond(ctx) ==> FileOf(ctx, second) == |ctx.timesteps|
  {
    var k, s, n := second - FirstSecond(ctx), ctx.geometry.Seconds(), |ctx.timesteps|;
    WholeStepsBound(k, s);
    if k < Mul(n, s) {
      if n <= WholeSteps(k, s) { MulAscend(n, WholeSteps(k, s), s); }
    } else {
      if WholeSteps(k, s) < n { MulAscend(WholeSteps(k, s) + 1, n, s); }
    }
    if k == Mul(n, s) {
      WholeStepsAre(k, s, n);
    }
  }

  /** The seconds are inside the observation, and all the files that hold them have their data. */
  ghost predicate Covered(ctx: Context, fs: FileSystem, ci: nat, start: nat, count: nat)
    requires ctx.Valid() && ci < |ctx.coarseChans| && count >= 1
  {
    && FirstSecond(ctx) <= start && start + count <= EndSecond(ctx)
    && HasData(ctx, fs, ci, FileOf(ctx, start), FileOf(ctx, start + count - 1))
  }

  /** Reading by second succeeds exactly when all seconds are inside the observation
      and every file that holds one of them has its data. */
  lemma ReadSecondSucceeds(ctx: Context, fs: FileSystem, start: nat, count: nat, ci: nat)
    requires ctx.Valid() && ctx.batches != [] && ci < |ctx.coarseChans| && count >= 1
    ensures SecondsOutcome(ctx, fs, start, count, ci).Ok? <==> Covered(ctx, fs, ci, start, count)
  {
    OutcomeInSeconds(ctx, fs, start, count, ci);
    if FirstSecond(ctx) <= start {
      DataIsInside(ctx, fs, ci, start, start + count - 1);
      RangeSucceeds(ctx, fs, ci, FileOf(ctx, start), FileOf(ctx, start + count - 1));
    }
  }

  lemma DataIsInside(ctx: Context, fs: FileSystem, ci: nat, start: nat, end: nat)
    requires ctx.Valid() && ci < |ctx.coarseChans| && FirstSecond(ctx) <= start <= end
    ensures HasData(ctx, fs, ci, FileOf(ctx, start), FileOf(ctx, end)) ==> end < EndSecond(ctx)
  {
    FilesAscend(ctx, start, end);
    LastFile(ctx, end);
    if HasData(ctx, fs, ci, FileOf(ctx, start), FileOf(ctx, end)) {
      assert Available(ctx, fs, ci, FileOf(ctx, end));
    }
  }

  lemma FilesAscend(ctx: Context, second: nat, later: nat)
    requires ctx.Valid() && FirstSecond(ctx) <= second <= later
    ensures FileOf(ctx, second) <= FileOf(ctx, later)
    ensures later == second + 1 ==> FileOf(ctx, later) <= FileOf(ctx, second) + 1
  {
    WholeStepsAscend(second - FirstSecond(ctx), later - FirstSecond(ctx), ctx.geometry.Seconds());
  }

  /** The range check lets one second too many through: a range whose last second is the one at
      which the observation ends passes it, and then the read indexes past the last timestep. */
  lemma EndOfObservationPanics(ctx: Context, fs: FileSystem, start: nat, count: nat, ci: nat)
    requires ctx.Valid() && ctx.batches != [] && ci < |ctx.coarseChans| && count >= 1
    requires FirstSecond(ctx) <= start <= EndSecond(ctx)
    requires HasData(ctx, fs, ci, FileOf(ctx, start), |ctx.timesteps| - 1)
    ensures SecondsOutcome(ctx, fs, start, count, ci) == Panic <==> start + count - 1 == EndSecond(ctx)
  {
    OutcomeInSeconds(ctx, fs, start, count, ci);
    var end := start + count - 1;
    LastFile(ctx, end);
    FilesAscend(ctx, start, end);
    if end == EndSecond(ctx) {
      RunsOut(ctx, fs, ci, FileOf(ctx, start));
    } else if end < EndSecond(ctx) {
      RangeSucceeds(ctx, fs, ci, FileOf(ctx, start), FileOf(ctx, end));
    }
  }

  lemma {:induction false} RunsOut(ctx: Context, fs: FileSystem, ci: nat, from: nat)
    requires ci < |ctx.coarseChans| && from <= |ctx.timesteps| && ctx.timesteps != []
    requires HasData(ctx, fs, ci, from, |ctx.timesteps| - 1)
    ensures RangeOutcome(ctx, fs, ci, from, |ctx.timesteps|) == Panic
    decreases |ctx.timesteps| - from
  {
    if from < |ctx.timesteps| {
      assert Available(ctx, fs, ci, from);
      RunsOut(ctx, fs, ci, from + 1);
    }
  }

  lemma ReadsSucceedTogether(ctx: Context, fs: FileSystem, start: nat, m: nat, n: nat, ci: nat)
    requires ctx.Valid() && ctx.batches != [] && ci < |ctx.coarseChans| && m >= 1 && n >= 1
    ensures SecondsOutcome(ctx, fs, start, m + n, ci).Ok?
       <==> SecondsOutcome(ctx, fs, start, m, ci).Ok? && SecondsOutcome(ctx, fs, start + m, n, ci).Ok?
  {
    ReadSecondSucceeds(ctx, fs, start, m + n, ci);
    ReadSecondSucceeds(ctx, fs, start, m, ci);
    ReadSecondSucceeds(ctx, fs, start + m, n, ci);
    CoverSplits(ctx, fs, ci, start, m, n);
  }

  lemma CoverSplits(ctx: Context, fs: FileSystem, ci: nat, start: nat, m: nat, n: nat)
    requires ctx.Valid() && ci < |ctx.coarseChans| && m >= 1 && n >= 1
    ensures Covered(ctx, fs, ci, start, m + n) <==> Covered(ctx, fs, ci, start, m) && Covered(ctx, fs, ci, start + m, n)
  {
    if FirstSecond(ctx) <= start {
      FilesAscend(ctx, start, start + m - 1);
      FilesAscend(ctx, start + m - 1, start + m);
      FilesAscend(ctx, start + m, start + m + n - 1);
      DataSplits(ctx, fs, ci, FileOf(ctx, start), FileOf(ctx, start + m - 1), FileOf(ctx, start + m), FileOf(ctx, start + m + n - 1));
    }
  }

  lemma DataSplits(ctx: Context, fs: FileSystem, ci: nat, a: nat, b: nat, b': nat, c: nat)
    requires ci < |ctx.coarseChans| && a <= b <= b' <= b + 1 && b' <= c
    ensures HasData(ctx, fs, ci, a, c) <==> HasData(ctx, fs, ci, a, b) && HasData(ctx, fs, ci, b', c)
  {
  }

  /** Reading m + n seconds comes to the same as reading m of them and then the n that follow. */
  lemma ReadsJoin(ctx: Context, fs: FileSystem, start: nat, m: nat, n: nat, ci: nat, whole: seq<byte>, left: seq<byte>, right: seq<byte>)
    requires ctx.Valid() && ctx.batches != [] && ci < |ctx.coarseChans| && m >= 1 && n >= 1
    ensures SecondsOutcome(ctx, fs, start, m + n, ci).Ok?
       <==> SecondsOutcome(ctx, fs, start, m, ci).Ok? && SecondsOutcome(ctx, fs, start + m, n, ci).Ok?
    ensures WhatIsRead(ctx, fs, start, m + n, ci, whole) && WhatIsRead(ctx, fs, start, m, ci, left) && WhatIsRead(ctx, fs, start + m, n, ci, right)
        ==> whole == left + right
  {
    ReadsSucceedTogether(ctx, fs, start, m, n, ci);
    if FirstSecond(ctx) <= start {
      SlicesJoin(ctx, fs, start, m, n, ci, whole, left, right);
    }
  }

  lemma SlicesJoin(ctx: Context, fs: FileSystem, start: nat, m: nat, n: nat, ci: nat, whole: seq<byte>, left: seq<byte>, right: seq<byte>)
    requires ctx.Valid() && ci < |ctx.coarseChans| && FirstSecond(ctx) <= start
    ensures WhatIsRead(ctx, fs, start, m + n, ci, whole) && WhatIsRead(ctx, fs, start, m, ci, left) && WhatIsRead(ctx, fs, start + m, n, ci, right)
        ==> whole == left + right
  {
    BytesAdd(ctx, start, m, n);
    if WhatIsRead(ctx, fs, start, m + n, ci, whole) && WhatIsRead(ctx, fs, start, m, ci, left) && WhatIsRead(ctx, fs, start + m, n, ci, right) {
      SlicesConcatenate(Stream(ctx, fs, ci, |ctx.timesteps|), ctx.geometry.Bytes(BlockAt(ctx, start)), whole, left, right);
    }
  }

  lemma BytesAdd(ctx: Context, start: nat, m: nat, n: nat)
    requires ctx.timesteps != [] && start >= FirstSecond(ctx)
    ensures BufferSize(ctx, m + n) == BufferSize(ctx, m) + BufferSize(ctx, n)
    ensures ctx.geometry.Bytes(BlockAt(ctx, start + m)) == ctx.geometry.Bytes(BlockAt(ctx, start)) + BufferSize(ctx, m)
  {
    MulAdd(m, n, ctx.geometry.Bytes(ctx.geometry.blocksPerSecond));
    SizeOfRange(ctx, start, m);
    MulAdd(BlockAt(ctx, start), Mul(m, ctx.geometry.blocksPerSecond), ctx.geometry.blockSize);
  }

  lemma SlicesConcatenate(stream: seq<byte>, at: nat, whole: seq<byte>, left: seq<byte>, right: seq<byte>)
    requires |whole| == |left| + |right|
    requires IsSlice(whole, stream, at) && IsSlice(left, stream, at) && IsSlice(right, stream, at + |left|)
    ensures whole == left + right
  {
    assert forall k :: 0 <= k < |whole| ==> whole[k] == stream[at + k] == (left + right)[k];
  }

  /** The seconds of a timestep lie in its file, and in no other. */
  lemma SecondsOfTimestep(ctx: Context, ti: nat) returns (second: nat)
    requires ctx.Valid() && ti < |ctx.timesteps|
    ensures second == ctx.timesteps[ti].gpsTimeMs / 1000 >= FirstSecond(ctx)
    ensures FileOf(ctx, second) == FileOf(ctx, second + ctx.geometry.Seconds() - 1) == ti
    ensures second + ctx.geometry.Seconds() <= EndSecond(ctx)
  {
    var s := ctx.geometry.Seconds();
    second := FirstSecond(ctx) + Mul(ti, s);
    TimestepSecond(ctx, ti);
    WholeStepsAre(Mul(ti, s), s, ti);
    WholeStepsAre(Mul(ti, s) + s - 1, s, ti);
    MulAscend(ti + 1, |ctx.timesteps|, s);
  }

  lemma PlaceOfTimestep(ctx: Context, ti: nat)
    requires ctx.Valid() && ti < |ctx.timesteps|
    ensures BufferSize(ctx, ctx.geometry.Seconds()) == ctx.geometry.SectionSize()
    ensures FirstSecond(ctx) <= ctx.timesteps[ti].gpsTimeMs / 1000
    ensures ctx.geometry.Bytes(BlockAt(ctx, ctx.timesteps[ti].gpsTimeMs / 1000)) == Mul(ti, ctx.geometry.SectionSize())
  {
    TimestepSecond(ctx, ti);
    MulMul(ctx.geometry.Seconds(), ctx.geometry.blocksPerSecond, ctx.geometry.blockSize);
    MulMul(ti, ctx.geometry.Seconds(), ctx.geometry.blocksPerSecond);
    MulMul(ti, ctx.geometry.blocksPerTimestep, ctx.geometry.blockSize);
  }

  lemma SectionIsSlice(ctx: Context, fs: FileSystem, ti: nat, ci: nat)
    requires ctx.Valid() && ti < |ctx.timesteps| && ci < |ctx.coarseChans|
    ensures BufferSize(ctx, ctx.geometry.Seconds()) == ctx.geometry.SectionSize()
    ensures WhatIsRead(ctx, fs, ctx.timesteps[ti].gpsTimeMs / 1000, ctx.geometry.Seconds(), ci, Section(ctx, fs, ti, ci))
  {
    PlaceOfTimestep(ctx, ti);
    SectionOfStream(ctx, fs, ci, |ctx.timesteps|, ti);
  }

  /** Reading a file is reading all the seconds it holds: the two loops succeed together and read the same bytes. */
  lemma FileIsItsSeconds(ctx: Context, fs: FileSystem, ti: nat, ci: nat)
    requires ctx.Valid() && ti < |ctx.timesteps| && ci < |ctx.coarseChans|
    ensures ReadFileOutcome(ctx, fs, ti, ci, ctx.geometry.SectionSize()).Ok?
       <==> SecondsOutcome(ctx, fs, ctx.timesteps[ti].gpsTimeMs / 1000, ctx.geometry.Seconds(), ci).Ok?
    ensures WhatIsRead(ctx, fs, ctx.timesteps[ti].gpsTimeMs / 1000, ctx.geometry.Seconds(), ci, Section(ctx, fs, ti, ci))
  {
    var second := SecondsOfTimestep(ctx, ti);
    SectionIsSlice(ctx, fs, ti, ci);
    if ctx.batches != [] {
      ReadFileSucceeds(ctx, fs, ti, ci);
      ReadSecondSucceeds(ctx, fs, second, ctx.geometry.Seconds(), ci);
      CoversFile(ctx, fs, ti, ci);
    }
  }

  lemma CoversFile(ctx: Context, fs: FileSystem, ti: nat, ci: nat)
    requires ctx.Valid() && ti < |ctx.timesteps| && ci < |ctx.coarseChans|
    ensures Covered(ctx, fs, ci, ctx.timesteps[ti].gpsTimeMs / 1000, ctx.geometry.Seconds()) <==> Available(ctx, fs, ci, ti)
  {
    var second := SecondsOfTimestep(ctx, ti);
    assert HasData(ctx, fs, ci, ti, ti) <==> Available(ctx, fs, ci, ti);
  }

  lemma ReadFileSucceeds(ctx: Context, fs: FileSystem, ti: nat, ci: nat)
    requires ctx.batches != [] && ti < |ctx.timesteps| && ci < |ctx.coarseChans|
    ensures ReadFileOutcome(ctx, fs, ti, ci, ctx.geometry.SectionSize()).Ok? <==> Available(ctx, fs, ci, ti)
  {
  }
}
