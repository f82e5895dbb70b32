/** Which bytes of which files a read of voltages puts where (src/voltage_context/mod.rs). */
module VoltageBytes {
  import opened Grid
  import opened VoltageContext
  import opened VoltageFiles
  import opened VoltageStreams

  /** The file that a timestep and channel are read from is one of the observation's, of that time and channel. */
  lemma NameOfFile(ctx: Context, files: seq<TempVoltageFile>, fs: FileSystem, ti: nat, ci: nat, t: nat)
    requires IsBatchList(ctx.batches, files) && ti < |ctx.timesteps| && ci < |ctx.coarseChans|
    requires ctx.timesteps[ti].gpsTimeMs == t * 1000 && HasFile(ctx, fs, ti, ci)
    ensures exists name :: name in fs && TempVoltageFile(name, ctx.coarseChans[ci].gpuboxNumber, t) in files
                           && FileBytes(ctx, fs, ti, ci) == fs[name]
  {
    FindFileFinds(ctx.batches, files, t, ctx.coarseChans[ci].gpuboxNumber);
  }

  /** Timestep `ti` covers the second. */
  predicate Covers(ctx: Context, ti: nat, second: nat)
    requires ti < |ctx.timesteps|
  {
    ctx.timesteps[ti].gpsTimeMs <= second * 1000 < ctx.timesteps[ti].gpsTimeMs + ctx.geometry.durationMs
  }

  /** Byte `k` of block `b` of the n-th second of the buffer is that byte of block `b` of the r-th second of the file's data. */
  ghost predicate IsFileByte(bytes: seq<byte>, file: seq<byte>, g: Geometry, n: nat, r: nat, b: nat, k: nat) {
    var place := (n * g.blocksPerSecond + b) * g.blockSize + k;
    var from := g.headerSize + g.delaySize + (r * g.blocksPerSecond + b) * g.blockSize + k;
    && 0 <= place < |bytes| && 0 <= from < |file|
    && bytes[place] == file[from]
  }

  /** ... and it is from the file of the timestep that covers that second. */
  ghost predicate IsByte(ctx: Context, fs: FileSystem, start: nat, ci: nat, bytes: seq<byte>, n: nat, b: nat, k: nat, ti: nat)
    requires ci < |ctx.coarseChans|
  {
    && ti < |ctx.timesteps| && Covers(ctx, ti, start + n) && HasFile(ctx, fs, ti, ci)
    && ctx.timesteps[ti].gpsTimeMs / 1000 <= start + n
    && IsFileByte(bytes, FileBytes(ctx, fs, ti, ci), ctx.geometry, n, start + n - ctx.timesteps[ti].gpsTimeMs / 1000, b, k)
  }

  lemma BlockOfSecond(ctx: Context, second: nat, b: nat) returns (ti: nat, block: nat)
    requires ctx.Valid() && FirstSecond(ctx) <= second < EndSecond(ctx) && b < ctx.geometry.blocksPerSecond
    ensures ti == FileOf(ctx, second) && ti < |ctx.timesteps| && Covers(ctx, ti, second)
    ensures ctx.timesteps[ti].gpsTimeMs / 1000 <= second
    ensures block == Mul(second - ctx.timesteps[ti].gpsTimeMs / 1000, ctx.geometry.blocksPerSecond) + b
    ensures block < ctx.geometry.blocksPerTimestep
    ensures BlockAt(ctx, second) + b == ctx.geometry.BlocksBefore(ti) + block
  {
    var first, s, bps := FirstSecond(ctx), ctx.geometry.Seconds(), ctx.geometry.blocksPerSecond;
    ti := FileOf(ctx, second);
    LastFile(ctx, second);
    WholeStepsBound(second - first, s);
    TimestepSecond(ctx, ti);
    InSeconds(ctx.timesteps[0].gpsTimeMs, ctx.geometry.durationMs, ti);
    var r := second - first - Mul(ti, s);
    block := Mul(r, bps) + b;
    MulAdd(Mul(ti, s), r, bps);
    MulMul(ti, s, bps);
    MulAscend(r + 1, s, bps);
  }

  lemma ByteInStream(data: seq<byte>, stream: seq<byte>, base: nat, blocks: nat, size: nat, block: nat, k: nat)
    requires InStream(data, stream, base, blocks, size) && block < blocks && k < size
    ensures Mul(block, size) + k < |data| && Mul(base + block, size) + k < |stream|
    ensures stream[Mul(base + block, size) + k] == data[Mul(block, size) + k]
  {
    BlockInStream(data, stream, base, blocks, size, block);
    ByteOfSlices(stream, Mul(base + block, size), data, Mul(block, size), size, k);
  }

  lemma ByteOfSlices(s: seq<byte>, at: nat, d: seq<byte>, from: nat, size: nat, k: nat)
    requires at + size <= |s| && from + size <= |d| && s[at..at + size] == d[from..from + size] && k < size
    ensures s[at + k] == d[from + k]
  {
    assert s[at..at + size][k] == d[from..from + size][k];
  }

  ghost predicate SameByte(s: seq<byte>, at: nat, t: seq<byte>, from: nat) {
    at < |s| && from < |t| && s[at] == t[from]
  }

  /** A byte of a block of the stream is that byte of the block of its file. */
  lemma StreamByte(ctx: Context, fs: FileSystem, ci: nat, ti: nat, base: nat, block: nat, k: nat, stream: seq<byte>) returns (at: nat, from: nat)
    requires ci < |ctx.coarseChans| && Available(ctx, fs, ci, ti) && block < ctx.geometry.blocksPerTimestep && k < ctx.geometry.blockSize
    requires stream == Stream(ctx, fs, ci, |ctx.timesteps|) && base == ctx.geometry.BlocksBefore(ti)
    ensures HasFile(ctx, fs, ti, ci)
    ensures at == ctx.geometry.Bytes(base + block) + k
    ensures from == ctx.geometry.headerSize + ctx.geometry.delaySize + ctx.geometry.Bytes(block) + k
    ensures SameByte(stream, at, FileBytes(ctx, fs, ti, ci), from)
  {
    DataIs(ctx, fs, ti, ci);
    DataInStream(ctx, fs, ci, ti);
    at, from := DataByte(ctx.geometry, DataOf(ctx, fs, ti, ci).value, stream, FileBytes(ctx, fs, ti, ci), base, block, k);
  }

  lemma DataByte(g: Geometry, data: seq<byte>, stream: seq<byte>, file: seq<byte>, base: nat, block: nat, k: nat) returns (at: nat, from: nat)
    requires InStream(data, stream, base, g.blocksPerTimestep, g.blockSize) && IsDataOf(data, file, g)
    requires block < g.blocksPerTimestep && k < g.blockSize
    ensures at == g.Bytes(base + block) + k && from == g.headerSize + g.delaySize + g.Bytes(block) + k
    ensures SameByte(stream, at, file, from)
  {
    at, from := g.Bytes(base + block) + k, g.headerSize + g.delaySize + g.Bytes(block) + k;
    ByteInStream(data, stream, base, g.blocksPerTimestep, g.blockSize, block, k);
  }

  /** The place in the buffer of a byte of a block. */
  lemma PlaceInBuffer(ctx: Context, start: nat, n: nat, count: nat, b: nat, k: nat) returns (place: nat)
    requires ctx.timesteps != [] && FirstSecond(ctx) <= start && n < count && b < ctx.geometry.blocksPerSecond && k < ctx.geometry.blockSize
    ensures place == ctx.geometry.Bytes(Mul(n, ctx.geometry.blocksPerSecond) + b) + k && place < BufferSize(ctx, count)
    ensures ctx.geometry.Bytes(BlockAt(ctx, start)) + place == ctx.geometry.Bytes(BlockAt(ctx, start + n) + b) + k
  {
    var g := ctx.geometry;
    place := g.Bytes(Mul(n, g.blocksPerSecond) + b) + k;
    var blocks := Mul(n, g.blocksPerSecond) + b;
    MulAdd(start - FirstSecond(ctx), n, g.blocksPerSecond);
    MulAdd(BlockAt(ctx, start), blocks, g.blockSize);
    MulAscend(n + 1, count, g.blocksPerSecond);
    MulAscend(blocks + 1, Mul(count, g.blocksPerSecond), g.blockSize);
    MulMul(count, g.blocksPerSecond, g.blockSize);
  }

  /** Each second of a successful read lies in a file that has its data. */
  lemma FileOfReadSecond(ctx: Context, fs: FileSystem, start: nat, count: nat, ci: nat, n: nat)
    requires ctx.Valid() && SecondsOutcome(ctx, fs, start, count, ci).Ok? && n < count
    ensures ctx.batches != [] && ci < |ctx.coarseChans| && FirstSecond(ctx) <= start && start + n < EndSecond(ctx)
    ensures Available(ctx, fs, ci, FileOf(ctx, start + n))
  {
    ReadSecondSucceeds(ctx, fs, start, count, ci);
    FilesAscend(ctx, start, start + n);
    FilesAscend(ctx, start + n, start + count - 1);
  }

  lemma SizeOfRead(ctx: Context, count: nat)
    ensures BufferSize(ctx, count) == count * ctx.geometry.blocksPerSecond * ctx.geometry.blockSize
  {
    MulMul(count, ctx.geometry.blocksPerSecond, ctx.geometry.blockSize);
    MulIsProduct(count, ctx.geometry.blocksPerSecond);
    MulIsProduct(count * ctx.geometry.blocksPerSecond, ctx.geometry.blockSize);
  }

  /** The place in the stream that a byte of the buffer comes from. */
  lemma ByteOfStream(ctx: Context, stream: seq<byte>, start: nat, count: nat, bytes: seq<byte>, n: nat, b: nat, k: nat)
    returns (ti: nat, base: nat, block: nat, place: nat, at: nat)
    requires ctx.Valid() && FirstSecond(ctx) <= start && start + n < EndSecond(ctx)
    requires |bytes| == BufferSize(ctx, count) && IsSlice(bytes, stream, ctx.geometry.Bytes(BlockAt(ctx, start)))
    requires n < count && b < ctx.geometry.blocksPerSecond && k < ctx.geometry.blockSize
    ensures ti == FileOf(ctx, start + n) && ti < |ctx.timesteps| && Covers(ctx, ti, start + n)
    ensures ctx.timesteps[ti].gpsTimeMs / 1000 <= start + n
    ensures block == Mul(start + n - ctx.timesteps[ti].gpsTimeMs / 1000, ctx.geometry.blocksPerSecond) + b < ctx.geometry.blocksPerTimestep
    ensures place == ctx.geometry.Bytes(Mul(n, ctx.geometry.blocksPerSecond) + b) + k
    ensures base == ctx.geometry.BlocksBefore(ti) && at == ctx.geometry.Bytes(base + block) + k
    ensures SameByte(bytes, place, stream, at)
  {
    ti, block := BlockOfSecond(ctx, start + n, b);
    place := PlaceInBuffer(ctx, start, n, count, b, k);
    base := ctx.geometry.BlocksBefore(ti);
    at := ctx.geometry.Bytes(BlockAt(ctx, start)) + place;
  }

  lemma SameBytes(s: seq<byte>, i: nat, t: seq<byte>, j: nat, u: seq<byte>, k: nat)
    requires SameByte(s, i, t, j) && SameByte(t, j, u, k)
    ensures SameByte(s, i, u, k)
  {
  }

  /** The place in its file. */
  lemma ByteOfBlock(ctx: Context, fs: FileSystem, start: nat, count: nat, ci: nat, bytes: seq<byte>, n: nat, b: nat, k: nat)
    returns (ti: nat, block: nat, place: nat, from: nat)
    requires ctx.Valid() && SecondsOutcome(ctx, fs, start, count, ci).Ok? && ci < |ctx.coarseChans| && WhatIsRead(ctx, fs, start, count, ci, bytes)
    requires n < count && b < ctx.geometry.blocksPerSecond && k < ctx.geometry.blockSize
    ensures ti < |ctx.timesteps| && Covers(ctx, ti, start + n) && HasFile(ctx, fs, ti, ci)
    ensures ctx.timesteps[ti].gpsTimeMs / 1000 <= start + n
    ensures block == Mul(start + n - ctx.timesteps[ti].gpsTimeMs / 1000, ctx.geometry.blocksPerSecond) + b
    ensures place == ctx.geometry.Bytes(Mul(n, ctx.geometry.blocksPerSecond) + b) + k
    ensures from == ctx.geometry.headerSize + ctx.geometry.delaySize + ctx.geometry.Bytes(block) + k
    ensures SameByte(bytes, place, FileBytes(ctx, fs, ti, ci), from)
  {
    var base, at, at';
    FileOfReadSecond(ctx, fs, start, count, ci, n);
    var stream := Stream(ctx, fs, ci, |ctx.timesteps|);
    ti, base, block, place, at := ByteOfStream(ctx, stream, start, count, bytes, n, b, k);
    at', from := StreamByte(ctx, fs, ci, ti, base, block, k, stream);
    SameBytes(bytes, place, stream, at, FileBytes(ctx, fs, ti, ci), from);
  }

  /** Every byte that a successful read by second leaves in its buffer is the byte of the file of its second
      that it should be; the buffer is as long as the blocks of the seconds. */
  lemma SecondBytes(ctx: Context, fs: FileSystem, start: nat, count: nat, ci: nat, buffer: seq<byte>, before: seq<byte>, n: nat, b: nat, k: nat)
    returns (ti: nat)
    requires ctx.Valid() && ReadSecondOutcome(ctx, fs, start, count, ci, |before|).Ok?
    requires WroteSeconds(ctx, fs, start, count, ci, buffer, before)
    requires n < count && b < ctx.geometry.blocksPerSecond && k < ctx.geometry.blockSize
    ensures |buffer| == count * ctx.geometry.blocksPerSecond * ctx.geometry.blockSize
    ensures ci < |ctx.coarseChans| && IsByte(ctx, fs, start, ci, buffer, n, b, k, ti)
  {
    SuccessInRange(ctx, fs, start, count, ci, |before|);
    SecondsAreRead(ctx, fs, start, count, ci, buffer, before);
    SizeOfRead(ctx, count);
    ti := ByteOfSecond(ctx, fs, start, count, ci, buffer, n, b, k);
  }

  lemma ByteOfSecond(ctx: Context, fs: FileSystem, start: nat, count: nat, ci: nat, bytes: seq<byte>, n: nat, b: nat, k: nat)
    returns (ti: nat)
    requires ctx.Valid() && SecondsOutcome(ctx, fs, start, count, ci).Ok? && ci < |ctx.coarseChans| && WhatIsRead(ctx, fs, start, count, ci, bytes)
    requires n < count && b < ctx.geometry.blocksPerSecond && k < ctx.geometry.blockSize
    ensures IsByte(ctx, fs, start, ci, bytes, n, b, k, ti)
  {
    var block, place, from;
    ti, block, place, from := ByteOfBlock(ctx, fs, start, count, ci, bytes, n, b, k);
    AsProducts(bytes, FileBytes(ctx, fs, ti, ci), ctx.geometry, n, b, k, start + n - ctx.timesteps[ti].gpsTimeMs / 1000, block, place, from);
  }

  lemma AsProducts(bytes: seq<byte>, file: seq<byte>, g: Geometry, n: nat, b: nat, k: nat, r: nat, block: nat, place: nat, from: nat)
    requires place == g.Bytes(Mul(n, g.blocksPerSecond) + b) + k && SameByte(bytes, place, file, from)
    requires block == Mul(r, g.blocksPerSecond) + b && from == g.headerSize + g.delaySize + g.Bytes(block) + k
    ensures IsFileByte(bytes, file, g, n, r, b, k)
  {
    MulIsProduct(n, g.blocksPerSecond);
    MulIsProduct(r, g.blocksPerSecond);
    MulIsProduct(n * g.blocksPerSecond + b, g.blockSize);
    MulIsProduct(r * g.blocksPerSecond + b, g.blockSize);
  }
}
