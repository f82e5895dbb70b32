/** Reading voltages by file and by second (src/voltage_context/mod.rs). */
module VoltageContext {
  import opened CoarseChannels
  import opened Grid
  import opened TimeSteps
  import opened VoltageFiles
  import opened Wrappers

  newtype byte = x: int | 0 <= x < 256

  /** Files by name; a name that is missing cannot be opened. */
  type FileSystem = map<string, seq<byte>>

  // ---------------------------------------------------------------- sizes

  /** How a file is laid out, and how much time it covers. */
  datatype Geometry = Geometry(
    headerSize: nat,
    delaySize: nat,
    blockSize: nat,
    blocksPerTimestep: nat,
    blocksPerSecond: nat,
    durationMs: nat
  ) {
    function FileSize(): nat {
      headerSize + delaySize + SectionSize()
    }

    /** Whole seconds per file, and as many blocks in each of them. */
    predicate Valid() {
      && durationMs % 1000 == 0 && durationMs >= 1000 && blocksPerSecond >= 1
      && blocksPerTimestep == Mul(Seconds(), blocksPerSecond)
    }

    function Seconds(): nat {
      durationMs / 1000
    }

    function SectionSize(): nat {
      Mul(blocksPerTimestep, blockSize)
    }

    function BlocksBefore(file: nat): nat {
      Mul(file, blocksPerTimestep)
    }

    function Bytes(blocks: nat): nat {
      Mul(blocks, blockSize)
    }
  }

  /** The systems that record voltages. */
  type VoltageVersion = v: MWAVersion | v == VCSLegacyRecombined || v == VCSMWAXv2 witness VCSMWAXv2

  /** Seconds covered by one file. */
  function FileSeconds(v: VoltageVersion): nat {
    if v == VCSMWAXv2 then 8 else 1
  }

  function NewGeometry(v: VoltageVersion, numRfInputs: nat, numFineChans: nat): Geometry {
    var sampleSize := if v == VCSMWAXv2 then 2 else 1;
    var samples := if v == VCSMWAXv2 then 64000 else 10000;
    var blocksPerTimestep := if v == VCSMWAXv2 then 160 else 1;
    var blockSize := samples * numRfInputs * numFineChans * sampleSize;
    Geometry(
      if v == VCSMWAXv2 then 4096 else 0,
      if v == VCSMWAXv2 then blockSize else 0,
      blockSize,
      blocksPerTimestep,
      blocksPerTimestep / FileSeconds(v),
      FileSeconds(v) * 1000)
  }

  /** Both systems fill whole seconds with whole blocks, and their 128-tile files have the documented sizes. */
  lemma GeometryIsValid(v: VoltageVersion, numRfInputs: nat, numFineChans: nat)
    ensures NewGeometry(v, numRfInputs, numFineChans).Valid()
    ensures NewGeometry(VCSLegacyRecombined, 256, 128).FileSize() == 327_680_000
    ensures NewGeometry(VCSMWAXv2, 256, 1).FileSize() == 5_275_652_096
  {
    MulIsProduct(160, 32_768_000);
    MulIsProduct(8, 20);
  }

  /** MWAX files: a header, a delay block, and 8 seconds of 20 blocks. */
  lemma MwaxFiles(n: nat, f: nat)
    ensures var g := NewGeometry(VCSMWAXv2, n, f);
            && g.headerSize == 4096 && g.delaySize == g.blockSize == 128_000 * n * f
            && g.blocksPerTimestep == 160 && g.blocksPerSecond == 20 && g.durationMs == 8000 && g.Seconds() == 8
            && g.SectionSize() == 160 * (128_000 * n * f) && g.FileSize() == 4096 + 161 * (128_000 * n * f)
  {
    var size := 64_000 * n * f * 2;
    assert size == 128_000 * n * f;
    MulIsProduct(160, size);
  }

  /** Recombined legacy files: one block, of one second. */
  lemma LegacyFiles(n: nat, f: nat)
    ensures var g := NewGeometry(VCSLegacyRecombined, n, f);
            && g.headerSize == g.delaySize == 0 && g.blockSize == 10_000 * n * f
            && g.blocksPerTimestep == g.blocksPerSecond == 1 && g.durationMs == 1000 && g.Seconds() == 1
            && g.SectionSize() == g.FileSize() == 10_000 * n * f
  {
    var size := 10_000 * n * f * 1;
    assert size == 10_000 * n * f;
    MulIsProduct(1, size);
  }

  // ---------------------------------------------------------------- the context

  datatype Context = Context(
    timesteps: seq<TimeStep>,
    coarseChans: seq<CoarseChannel>,
    batches: seq<VoltageFileBatch>,
    geometry: Geometry
  ) {
    /** The timesteps are whole seconds, one file length apart. */
    ghost predicate Valid() {
      && geometry.Valid() && timesteps != []
      && timesteps[0].gpsTimeMs % 1000 == 0
      && forall i :: 0 <= i < |timesteps| ==> timesteps[i].gpsTimeMs == Point(timesteps[0].gpsTimeMs, geometry.durationMs, i)
    }
  }

  /** The data of a timestep and channel: everything behind the header and the delay block. */
  function DataOf(ctx: Context, fs: FileSystem, ti: nat, ci: nat): (r: Outcome<seq<byte>, VoltageFileError>)
    requires ti < |ctx.timesteps| && ci < |ctx.coarseChans|
    ensures r.Ok? ==> |r.value| == ctx.geometry.SectionSize()
  {
    match FindFile(ctx.batches, ctx.timesteps[ti].gpsTimeMs, ctx.coarseChans[ci].gpuboxNumber)
    case None => Err(NoDataForTimeStepCoarseChannel(ti, ci))
    case Some(filename) =>
      if filename !in fs then Panic
      else if |fs[filename]| != ctx.geometry.FileSize() then
        Err(InvalidVoltageFileSize(|fs[filename]|, filename, ctx.geometry.FileSize()))
      else Ok(fs[filename][ctx.geometry.headerSize + ctx.geometry.delaySize..])
  }

  /** The bytes of a file behind its header and delay block, one by one. */
  ghost predicate IsDataOf(bytes: seq<byte>, file: seq<byte>, geometry: Geometry) {
    && |bytes| == geometry.SectionSize() && |file| == geometry.headerSize + geometry.delaySize + |bytes|
    && forall k :: 0 <= k < |bytes| ==> bytes[k] == file[geometry.headerSize + geometry.delaySize + k]
  }

  /** There is a file for the timestep and channel, and it has the size that the geometry asks for. */
  predicate HasFile(ctx: Context, fs: FileSystem, ti: nat, ci: nat)
    requires ti < |ctx.timesteps| && ci < |ctx.coarseChans|
  {
    var name := FindFile(ctx.batches, ctx.timesteps[ti].gpsTimeMs, ctx.coarseChans[ci].gpuboxNumber);
    && name.Some? && name.value in fs
    && |fs[name.value]| == ctx.geometry.headerSize + ctx.geometry.delaySize + ctx.geometry.SectionSize()
  }

  /** The bytes of the file found for the timestep and channel. */
  function FileBytes(ctx: Context, fs: FileSystem, ti: nat, ci: nat): seq<byte>
    requires ti < |ctx.timesteps| && ci < |ctx.coarseChans| && HasFile(ctx, fs, ti, ci)
  {
    fs[FindFile(ctx.batches, ctx.timesteps[ti].gpsTimeMs, ctx.coarseChans[ci].gpuboxNumber).value]
  }

  lemma DataIs(ctx: Context, fs: FileSystem, ti: nat, ci: nat)
    requires ti < |ctx.timesteps| && ci < |ctx.coarseChans|
    ensures DataOf(ctx, fs, ti, ci).Ok? <==> HasFile(ctx, fs, ti, ci)
    ensures HasFile(ctx, fs, ti, ci) ==> IsDataOf(DataOf(ctx, fs, ti, ci).value, FileBytes(ctx, fs, ti, ci), ctx.geometry)
  {
  }

  /** What keeps a file's data from being found. */
  lemma DataFails(ctx: Context, fs: FileSystem, ti: nat, ci: nat)
    requires ti < |ctx.timesteps| && ci < |ctx.coarseChans|
    ensures var name := FindFile(ctx.batches, ctx.timesteps[ti].gpsTimeMs, ctx.coarseChans[ci].gpuboxNumber);
            var expected := ctx.geometry.headerSize + ctx.geometry.delaySize + ctx.geometry.SectionSize();
            && (DataOf(ctx, fs, ti, ci) == Err(NoDataForTimeStepCoarseChannel(ti, ci)) <==> name.None?)
            && (DataOf(ctx, fs, ti, ci) == Panic <==> name.Some? && name.value !in fs)
            && (name.Some? && name.value in fs && |fs[name.value]| != expected ==>
                  DataOf(ctx, fs, ti, ci) == Err(InvalidVoltageFileSize(|fs[name.value]|, name.value, expected)))
  {
  }

  // ---------------------------------------------------------------- one file

  /** What reading a whole file comes to, but for the bytes. */
  function ReadFileOutcome(ctx: Context, fs: FileSystem, ti: nat, ci: nat, length: nat): Outcome<(), VoltageFileError> {
    if ctx.batches == [] then Err(NoVoltageFiles)
    else if ctx.timesteps == [] then Panic
    else if ti > |ctx.timesteps| - 1 then Err(InvalidTimeStepIndex(|ctx.timesteps| - 1))
    else if ctx.coarseChans == [] then Panic
    else if ci > |ctx.coarseChans| - 1 then Err(InvalidCoarseChanIndex(|ctx.coarseChans| - 1))
    else
      match DataOf(ctx, fs, ti, ci)
      case Err(e) => if e.InvalidVoltageFileSize? then Panic else Err(e)
      case Panic => Panic
      case Ok(_) =>
        if length != ctx.geometry.SectionSize() then Err(InvalidBufferSize(length, ctx.geometry.SectionSize())) else Ok(())
  }

  /** Reads the blocks of a file one after the other. */
  method ReadFile(ctx: Context, fs: FileSystem, ti: nat, ci: nat, buffer: array<byte>) returns (r: Outcome<(), VoltageFileError>)
    modifies buffer
    ensures r == ReadFileOutcome(ctx, fs, ti, ci, buffer.Length)
    ensures r.Ok? ==>
              && ti < |ctx.timesteps| && ci < |ctx.coarseChans| && HasFile(ctx, fs, ti, ci)
              && IsDataOf(buffer[..], FileBytes(ctx, fs, ti, ci), ctx.geometry)
    ensures !r.Ok? ==> buffer[..] == old(buffer[..])
  {
    if ctx.batches == [] { return Err(NoVoltageFiles); }
    if ctx.timesteps == [] { return Panic; }
    if ti > |ctx.timesteps| - 1 { return Err(InvalidTimeStepIndex(|ctx.timesteps| - 1)); }
    if ctx.coarseChans == [] { return Panic; }
    if ci > |ctx.coarseChans| - 1 { return Err(InvalidCoarseChanIndex(|ctx.coarseChans| - 1)); }
    var found := DataOf(ctx, fs, ti, ci);
    if found.Panic? || (found.Err? && found.error.InvalidVoltageFileSize?) { return Panic; }
    if found.Err? { return Err(found.error); }
    DataIs(ctx, fs, ti, ci);
    var data := found.value;
    var expected := ctx.geometry.SectionSize();
    if buffer.Length != expected { return Err(InvalidBufferSize(buffer.Length, expected)); }
    var chunk := ctx.geometry.blockSize;
    var startPos, endPos := 0, chunk;
    for block := 0 to ctx.geometry.blocksPerTimestep
      invariant startPos == Mul(block, chunk) && endPos == startPos + chunk
      invariant startPos <= buffer.Length && buffer[..startPos] == data[..startPos]
    {
      BlockFits(block, ctx.geometry.blocksPerTimestep, chunk);
      ghost var was := buffer[..];
      CopyBlock(data, startPos, buffer, startPos, chunk);
      FrontGrows(was, buffer[..], data, startPos, chunk);
      startPos := endPos;
      endPos := startPos + chunk;
    }
    return Ok(());
  }

  /** What keeps a file from being read, in order of the checks: a file of the wrong size panics. */
  lemma ReadFileFails(ctx: Context, fs: FileSystem, ti: nat, ci: nat, length: nat)
    requires ctx.batches != [] && ctx.timesteps != [] && ctx.coarseChans != []
    ensures var r := ReadFileOutcome(ctx, fs, ti, ci, length);
            && (ti >= |ctx.timesteps| <==> r == Err(InvalidTimeStepIndex(|ctx.timesteps| - 1)))
            && (ti < |ctx.timesteps| && ci >= |ctx.coarseChans| <==> r == Err(InvalidCoarseChanIndex(|ctx.coarseChans| - 1)))
            && (ti < |ctx.timesteps| && ci < |ctx.coarseChans| ==>
                  var name := FindFile(ctx.batches, ctx.timesteps[ti].gpsTimeMs, ctx.coarseChans[ci].gpuboxNumber);
                  && (r == Err(NoDataForTimeStepCoarseChannel(ti, ci)) <==> name.None?)
                  && (r == Panic <==> name.Some? && !HasFile(ctx, fs, ti, ci))
                  && (r == Err(InvalidBufferSize(length, ctx.geometry.SectionSize())) <==>
                        HasFile(ctx, fs, ti, ci) && length != ctx.geometry.SectionSize())
                  && (r == Ok(()) <==> HasFile(ctx, fs, ti, ci) && length == ctx.geometry.SectionSize()))
  {
    if ti < |ctx.timesteps| && ci < |ctx.coarseChans| {
      DataIs(ctx, fs, ti, ci);
      DataFails(ctx, fs, ti, ci);
    }
  }

  lemma FrontGrows(was: seq<byte>, buffer: seq<byte>, data: seq<byte>, at: nat, size: nat)
    requires at + size <= |data| && at + size <= |was| && was[..at] == data[..at]
    requires buffer == was[..at] + data[at..at + size] + was[at + size..]
    ensures buffer[..at + size] == data[..at + size]
  {
  }

  lemma BlockFits(block: nat, blocks: nat, size: nat)
    requires block < blocks
    ensures Mul(block, size) + size == Mul(block + 1, size) <= Mul(blocks, size)
  {
    MulAscend(block + 1, blocks, size);
  }

  /** Copies `size` bytes of the data into the buffer; what was there before them stays. */
  method CopyBlock(data: seq<byte>, from: nat, buffer: array<byte>, at: nat, size: nat)
    requires from + size <= |data| && at + size <= buffer.Length
    modifies buffer
    ensures buffer[..] == old(buffer[..at]) + data[from..from + size] + old(buffer[at + size..])
  {
    forall k | 0 <= k < size {
      buffer[at + k] := data[from + k];
    }
  }

  // ---------------------------------------------------------------- by second

  /** The last second asked for, if the range is inside the observation.  The upper bounds
      are inclusive: they also admit the second at which the observation ends. */
  function ValidateGpsTimeParameters(ctx: Context, start: nat, count: nat): Outcome<nat, VoltageFileError> {
    if ctx.timesteps == [] then Panic
    else
      var first := ctx.timesteps[0].gpsTimeMs;
      var max := ctx.timesteps[|ctx.timesteps| - 1].gpsTimeMs + ctx.geometry.durationMs;
      if start * 1000 < first || start * 1000 > max then Err(InvalidGpsSecondStart(first / 1000, max / 1000))
      else if start + count == 0 then Panic
      else if (start + count - 1) * 1000 > max then Err(InvalidGpsSecondCount(first / 1000, count, max / 1000))
      else Ok(start + count - 1)
  }

  /** The file holding the given moment, counted from the start of the observation. */
  function FileIndex(ms: nat, durationMs: nat): nat
    requires durationMs > 0
  {
    ms / durationMs
  }

  function BufferSize(ctx: Context, count: nat): nat {
    Mul(count, ctx.geometry.Bytes(ctx.geometry.blocksPerSecond))
  }

  /** The second that a block of a file belongs to is one of those asked for. */
  predicate IsWanted(geometry: Geometry, second: nat, block: nat, start: nat, end: nat)
    requires geometry.blocksPerSecond >= 1
  {
    start <= second + WholeSteps(block, geometry.blocksPerSecond) <= end
  }

  /** The wanted ones of the first `n` blocks of a file, one after the other. */
  function WantedBlocks(data: seq<byte>, geometry: Geometry, second: nat, start: nat, end: nat, n: nat): seq<byte>
    requires geometry.blocksPerSecond >= 1 && |data| == geometry.SectionSize() && n <= geometry.blocksPerTimestep
  {
    if n == 0 then []
    else
      BlockFits(n - 1, geometry.blocksPerTimestep, geometry.blockSize);
      WantedBlocks(data, geometry, second, start, end, n - 1) +
      if IsWanted(geometry, second, n - 1, start, end) then
        data[geometry.Bytes(n - 1)..geometry.Bytes(n - 1) + geometry.blockSize]
      else []
  }

  /** The wanted blocks of a timestep's file; none if there is no such file. */
  function WantedOfFile(ctx: Context, fs: FileSystem, start: nat, end: nat, ci: nat, file: nat): seq<byte>
    requires ctx.geometry.blocksPerSecond >= 1 && ci < |ctx.coarseChans|
  {
    if file < |ctx.timesteps| && DataOf(ctx, fs, file, ci).Ok? then
      WantedBlocks(DataOf(ctx, fs, file, ci).value, ctx.geometry, ctx.timesteps[file].gpsTimeMs / 1000, start, end,
                   ctx.geometry.blocksPerTimestep)
    else []
  }

  /** Those of the timesteps in [from, to). */
  function WantedOfFiles(ctx: Context, fs: FileSystem, start: nat, end: nat, ci: nat, from: nat, to: nat): seq<byte>
    requires ctx.geometry.blocksPerSecond >= 1 && ci < |ctx.coarseChans|
    decreases (to)
  {
    if to <= from then []
    else WantedOfFiles(ctx, fs, start, end, ci, from, to - 1) + WantedOfFile(ctx, fs, start, end, ci, to - 1)
  }

  /** The position in the buffer after one more file; there may be no such timestep, no data, or
      no room for it. */
  function Step(ctx: Context, fs: FileSystem, start: nat, end: nat, ci: nat, file: nat, pos: nat, length: nat): Outcome<nat, VoltageFileError>
    requires ctx.geometry.blocksPerSecond >= 1 && ci < |ctx.coarseChans|
  {
    if file >= |ctx.timesteps| then Panic
    else
      match DataOf(ctx, fs, file, ci)
      case Err(e) => Err(e)
      case Panic => Panic
      case Ok(_) =>
        var next := pos + |WantedOfFile(ctx, fs, start, end, ci, file)|;
        if next > length then Panic else Ok(next)
  }

  /** The first thing that goes wrong on the way from one timestep to another, both included,
      when `pos` bytes have been read before. */
  function Walk(ctx: Context, fs: FileSystem, start: nat, end: nat, ci: nat, from: nat, to: nat, pos: nat, length: nat):
    Outcome<(), VoltageFileError>
    requires ctx.geometry.blocksPerSecond >= 1 && ci < |ctx.coarseChans|
    decreases if from > to then 0 else to - from + 1
  {
    if from > to then Ok(())
    else
      match Step(ctx, fs, start, end, ci, from, pos, length)
      case Err(e) => Err(e)
      case Panic => Panic
      case Ok(next) => Walk(ctx, fs, start, end, ci, from + 1, to, next, length)
  }

  /** The timesteps that hold the first and the last second. */
  function FilesOfSeconds(ctx: Context, start: nat, end: nat): (nat, nat)
    requires ctx.geometry.durationMs > 0 && ctx.timesteps != []
    requires ctx.timesteps[0].gpsTimeMs <= start * 1000 && ctx.timesteps[0].gpsTimeMs <= end * 1000
  {
    (FileIndex(start * 1000 - ctx.timesteps[0].gpsTimeMs, ctx.geometry.durationMs),
     FileIndex(end * 1000 - ctx.timesteps[0].gpsTimeMs + 1, ctx.geometry.durationMs))
  }

  function WalkSeconds(ctx: Context, fs: FileSystem, start: nat, end: nat, ci: nat, length: nat): Outcome<(), VoltageFileError>
    requires ctx.geometry.Valid() && ctx.timesteps != [] && ci < |ctx.coarseChans|
    requires ctx.timesteps[0].gpsTimeMs <= start * 1000 && ctx.timesteps[0].gpsTimeMs <= end * 1000
  {
    var (from, to) := FilesOfSeconds(ctx, start, end);
    Walk(ctx, fs, start, end, ci, from, to, 0, length)
  }

  /** What reading by second comes to, but for the bytes. */
  function ReadSecondOutcome(ctx: Context, fs: FileSystem, start: nat, count: nat, ci: nat, length: nat): Outcome<(), VoltageFileError>
    requires ctx.geometry.Valid()
  {
    if ctx.batches == [] then Err(NoVoltageFiles)
    else if ctx.coarseChans == [] then Panic
    else if ci > |ctx.coarseChans| - 1 then Err(InvalidCoarseChanIndex(|ctx.coarseChans| - 1))
    else
      match ValidateGpsTimeParameters(ctx, start, count)
      case Err(e) => Err(e)
      case Panic => Panic
      case Ok(end) =>
        if end * 1000 < ctx.timesteps[0].gpsTimeMs then Panic
        else if length != BufferSize(ctx, count) then Err(InvalidBufferSize(length, BufferSize(ctx, count)))
        else WalkSeconds(ctx, fs, start, end, ci, length)
  }

  /** The bytes have been written to the front of the buffer, and the rest is as it was. */
  ghost predicate Wrote(buffer: seq<byte>, before: seq<byte>, bytes: seq<byte>) {
    && |bytes| <= |before|
    && buffer == bytes + before[|bytes|..]
  }

  ghost predicate AllRead(ctx: Context, fs: FileSystem, ci: nat, from: nat, to: nat)
    requires ci < |ctx.coarseChans|
  {
    forall f: nat :: from <= f < to ==> Available(ctx, fs, ci, f)
  }

  ghost predicate Available(ctx: Context, fs: FileSystem, ci: nat, file: nat)
    requires ci < |ctx.coarseChans|
  {
    file < |ctx.timesteps| && DataOf(ctx, fs, file, ci).Ok?
  }

  /** What a read leaves that stops at a file: the wanted blocks of the files before it. */
  ghost predicate StoppedAt(ctx: Context, fs: FileSystem, start: nat, end: nat, ci: nat, from: nat, to: nat, file: nat,
                            buffer: seq<byte>, before: seq<byte>, e: VoltageFileError)
    requires ctx.geometry.blocksPerSecond >= 1 && ci < |ctx.coarseChans|
  {
    && from <= file <= to && file < |ctx.timesteps| && DataOf(ctx, fs, file, ci) == Err(e)
    && AllRead(ctx, fs, ci, from, file)
    && Wrote(buffer, before, WantedOfFiles(ctx, fs, start, end, ci, from, file))
  }

  ghost predicate StoppedBetween(ctx: Context, fs: FileSystem, start: nat, end: nat, ci: nat, files: (nat, nat),
                                 buffer: seq<byte>, before: seq<byte>, e: VoltageFileError)
    requires ctx.geometry.blocksPerSecond >= 1 && ci < |ctx.coarseChans|
  {
    exists file: nat :: StoppedAt(ctx, fs, start, end, ci, files.0, files.1, file, buffer, before, e)
  }

  /** Reads the wanted blocks of one file to where the buffer has been filled up to. */
  method ReadBlocks(data: seq<byte>, geometry: Geometry, second: nat, start: nat, end: nat, buffer: array<byte>, at: nat)
    returns (fits: bool, to: nat)
    requires geometry.blocksPerSecond >= 1 && |data| == geometry.SectionSize() && at <= buffer.Length
    modifies buffer
    ensures var bytes := WantedBlocks(data, geometry, second, start, end, geometry.blocksPerTimestep);
            && (fits <==> at + |bytes| <= buffer.Length)
            && (fits ==> to == at + |bytes| && buffer[..] == old(buffer[..at]) + bytes + old(buffer[at + |bytes|..]))
  {
    to := at;
    ghost var before := buffer[..];
    for block: nat := 0 to geometry.blocksPerTimestep
      invariant to == at + |WantedBlocks(data, geometry, second, start, end, block)|
      invariant WroteAt(buffer[..], before, at, WantedBlocks(data, geometry, second, start, end, block))
    {
      if IsWanted(geometry, second, block, start, end) {
        BlockFits(block, geometry.blocksPerTimestep, geometry.blockSize);
        BlocksOnlyAdd(data, geometry, second, start, end, block + 1, geometry.blocksPerTimestep);
        if to + geometry.blockSize > buffer.Length { return false, to; }
        ReadBlock(data, geometry, block, buffer, to, at, before, WantedBlocks(data, geometry, second, start, end, block));
        to := to + geometry.blockSize;
      }
      NextBlock(data, geometry, second, start, end, block);
    }
    fits := true;
  }

  lemma NextBlock(data: seq<byte>, geometry: Geometry, second: nat, start: nat, end: nat, block: nat)
    requires geometry.blocksPerSecond >= 1 && |data| == geometry.SectionSize() && block < geometry.blocksPerTimestep
    ensures geometry.Bytes(block) + geometry.blockSize <= |data|
    ensures WantedBlocks(data, geometry, second, start, end, block + 1) ==
            if IsWanted(geometry, second, block, start, end)
            then WantedBlocks(data, geometry, second, start, end, block)
                 + data[geometry.Bytes(block)..geometry.Bytes(block) + geometry.blockSize]
            else WantedBlocks(data, geometry, second, start, end, block)
  {
    BlockFits(block, geometry.blocksPerTimestep, geometry.blockSize);
  }

  /** Copies one block behind the bytes written before. */
  method ReadBlock(data: seq<byte>, geometry: Geometry, block: nat, buffer: array<byte>, to: nat,
                   ghost at: nat, ghost before: seq<byte>, ghost bytes: seq<byte>)
    requires |data| == geometry.SectionSize() && block < geometry.blocksPerTimestep
    requires to == at + |bytes| && to + geometry.blockSize <= buffer.Length && WroteAt(buffer[..], before, at, bytes)
    modifies buffer
    ensures geometry.Bytes(block) + geometry.blockSize <= |data|
    ensures WroteAt(buffer[..], before, at, bytes + data[geometry.Bytes(block)..geometry.Bytes(block) + geometry.blockSize])
  {
    BlockFits(block, geometry.blocksPerTimestep, geometry.blockSize);
    ghost var was := buffer[..];
    CopyBlock(data, geometry.Bytes(block), buffer, to, geometry.blockSize);
    WroteNext(buffer[..], was, before, at, bytes, data[geometry.Bytes(block)..geometry.Bytes(block) + geometry.blockSize]);
  }

  /** The bytes have been written to the buffer at `at`, and the rest is as it was. */
  ghost predicate WroteAt(buffer: seq<byte>, before: seq<byte>, at: nat, bytes: seq<byte>) {
    && at + |bytes| <= |before|
    && buffer == before[..at] + bytes + before[at + |bytes|..]
  }

  lemma WroteNext(buffer: seq<byte>, was: seq<byte>, before: seq<byte>, at: nat, bytes: seq<byte>, more: seq<byte>)
    requires WroteAt(was, before, at, bytes) && at + |bytes| + |more| <= |before|
    requires buffer == was[..at + |bytes|] + more + was[at + |bytes| + |more|..]
    ensures WroteAt(buffer, before, at, bytes + more)
  {
    assert was[..at + |bytes|] == before[..at] + bytes;
    assert was[at + |bytes| + |more|..] == before[at + |bytes| + |more|..];
  }

  lemma {:induction false} BlocksOnlyAdd(data: seq<byte>, geometry: Geometry, second: nat, start: nat, end: nat, m: nat, n: nat)
    requires geometry.blocksPerSecond >= 1 && |data| == geometry.SectionSize() && m <= n <= geometry.blocksPerTimestep
    ensures |WantedBlocks(data, geometry, second, start, end, m)| <= |WantedBlocks(data, geometry, second, start, end, n)|
  {
    if m < n {
      BlocksOnlyAdd(data, geometry, second, start, end, m, n - 1);
    }
  }

  lemma WroteMore(buffer: seq<byte>, was: seq<byte>, before: seq<byte>, bytes: seq<byte>, more: seq<byte>)
    requires Wrote(was, before, bytes) && |bytes| + |more| <= |before|
    requires buffer == was[..|bytes|] + more + was[|bytes| + |more|..]
    ensures Wrote(buffer, before, bytes + more)
  {
    assert was[..|bytes|] == bytes;
    assert was[|bytes| + |more|..] == before[|bytes| + |more|..];
  }

  /** Finds one file and reads the wanted blocks of it. */
  method ReadOne(ctx: Context, fs: FileSystem, start: nat, end: nat, ci: nat, buffer: array<byte>, file: nat, pos: nat)
    returns (r: Outcome<nat, VoltageFileError>)
    requires ctx.geometry.blocksPerSecond >= 1 && ci < |ctx.coarseChans| && pos <= buffer.Length
    modifies buffer
    ensures r == Step(ctx, fs, start, end, ci, file, pos, buffer.Length)
    ensures r.Ok? ==> buffer[..] == old(buffer[..pos]) + WantedOfFile(ctx, fs, start, end, ci, file) + old(buffer[r.value..])
    ensures r.Err? ==> buffer[..] == old(buffer[..])
  {
    if file >= |ctx.timesteps| { return Panic; }
    var found := DataOf(ctx, fs, file, ci);
    if found.Err? { return Err(found.error); }
    if found.Panic? { return Panic; }
    var fits, next := ReadBlocks(found.value, ctx.geometry, ctx.timesteps[file].gpsTimeMs / 1000, start, end, buffer, pos);
    if !fits { return Panic; }
    return Ok(next);
  }

  /** Goes through the files, from the first to the last that holds a second asked for. */
  method ReadFiles(ctx: Context, fs: FileSystem, start: nat, end: nat, ci: nat, buffer: array<byte>, from: nat, to: nat)
    returns (r: Outcome<(), VoltageFileError>)
    requires ctx.geometry.blocksPerSecond >= 1 && ci < |ctx.coarseChans|
    modifies buffer
    ensures r == Walk(ctx, fs, start, end, ci, from, to, 0, buffer.Length)
    ensures r.Ok? ==> Wrote(buffer[..], old(buffer[..]), WantedOfFiles(ctx, fs, start, end, ci, from, to + 1))
    ensures r.Err? ==> StoppedBetween(ctx, fs, start, end, ci, (from, to), buffer[..], old(buffer[..]), r.error)
  {
    ghost var before := buffer[..];
    if from > to { return Ok(()); }
    var pos := 0;
    AtStart(ctx, fs, start, end, ci, from, to, before);
    for file: nat := from to to + 1
      invariant UpTo(ctx, fs, start, end, ci, from, to, file, pos, buffer[..], before)
    {
      var next := ReadNext(ctx, fs, start, end, ci, buffer, from, to, file, pos, before);
      if next.Err? { return Err(next.error); }
      if next.Panic? { return Panic; }
      pos := next.value;
    }
    AtEnd(ctx, fs, start, end, ci, from, to, pos, buffer[..], before);
    return Ok(());
  }

  method ReadNext(ctx: Context, fs: FileSystem, start: nat, end: nat, ci: nat, buffer: array<byte>, ghost from: nat, ghost to: nat,
                  file: nat, pos: nat, ghost before: seq<byte>) returns (r: Outcome<nat, VoltageFileError>)
    requires ctx.geometry.blocksPerSecond >= 1 && ci < |ctx.coarseChans| && file <= to
    requires UpTo(ctx, fs, start, end, ci, from, to, file, pos, buffer[..], before)
    modifies buffer
    ensures r.Ok? ==> UpTo(ctx, fs, start, end, ci, from, to, file + 1, r.value, buffer[..], before)
    ensures r.Panic? ==> Walk(ctx, fs, start, end, ci, from, to, 0, |before|) == Panic
    ensures r.Err? ==>
              && Walk(ctx, fs, start, end, ci, from, to, 0, |before|) == Err(r.error)
              && StoppedBetween(ctx, fs, start, end, ci, (from, to), buffer[..], before, r.error)
  {
    ghost var was := buffer[..];
    r := ReadOne(ctx, fs, start, end, ci, buffer, file, pos);
    if r.Ok? {
      OneMore(ctx, fs, start, end, ci, from, to, file, pos, r.value, was, buffer[..], before);
    } else {
      Stops(ctx, fs, start, end, ci, from, to, file, pos, was, before);
    }
  }

  /** The files before `file` have been read. */
  ghost predicate UpTo(ctx: Context, fs: FileSystem, start: nat, end: nat, ci: nat, from: nat, to: nat, file: nat, pos: nat,
                       buffer: seq<byte>, before: seq<byte>)
    requires ctx.geometry.blocksPerSecond >= 1 && ci < |ctx.coarseChans|
  {
    && from <= file && pos == |WantedOfFiles(ctx, fs, start, end, ci, from, file)|
    && Wrote(buffer, before, WantedOfFiles(ctx, fs, start, end, ci, from, file))
    && AllRead(ctx, fs, ci, from, file)
    && Walk(ctx, fs, start, end, ci, file, to, pos, |before|) == Walk(ctx, fs, start, end, ci, from, to, 0, |before|)
  }

  lemma AtStart(ctx: Context, fs: FileSystem, start: nat, end: nat, ci: nat, from: nat, to: nat, before: seq<byte>)
    requires ctx.geometry.blocksPerSecond >= 1 && ci < |ctx.coarseChans|
    ensures UpTo(ctx, fs, start, end, ci, from, to, from, 0, before, before)
  {
  }

  lemma AtEnd(ctx: Context, fs: FileSystem, start: nat, end: nat, ci: nat, from: nat, to: nat, pos: nat, buffer: seq<byte>, before: seq<byte>)
    requires ctx.geometry.blocksPerSecond >= 1 && ci < |ctx.coarseChans|
    requires UpTo(ctx, fs, start, end, ci, from, to, to + 1, pos, buffer, before)
    ensures Walk(ctx, fs, start, end, ci, from, to, 0, |before|) == Ok(())
    ensures Wrote(buffer, before, WantedOfFiles(ctx, fs, start, end, ci, from, to + 1))
  {
  }

  /** A file that cannot be read stops the walk. */
  lemma Stops(ctx: Context, fs: FileSystem, start: nat, end: nat, ci: nat, from: nat, to: nat, file: nat, pos: nat,
              buffer: seq<byte>, before: seq<byte>)
    requires ctx.geometry.blocksPerSecond >= 1 && ci < |ctx.coarseChans| && file <= to
    requires UpTo(ctx, fs, start, end, ci, from, to, file, pos, buffer, before)
    ensures var step := Step(ctx, fs, start, end, ci, file, pos, |before|);
            && (step.Panic? ==> Walk(ctx, fs, start, end, ci, from, to, 0, |before|) == Panic)
            && (step.Err? ==>
                  && Walk(ctx, fs, start, end, ci, from, to, 0, |before|) == Err(step.error)
                  && StoppedBetween(ctx, fs, start, end, ci, (from, to), buffer, before, step.error))
  {
    var step := Step(ctx, fs, start, end, ci, file, pos, |before|);
    if step.Err? {
      assert StoppedAt(ctx, fs, start, end, ci, from, to, file, buffer, before, step.error);
    }
  }

  lemma OneMore(ctx: Context, fs: FileSystem, start: nat, end: nat, ci: nat, from: nat, to: nat, file: nat, pos: nat, next: nat,
                was: seq<byte>, buffer: seq<byte>, before: seq<byte>)
    requires ctx.geometry.blocksPerSecond >= 1 && ci < |ctx.coarseChans| && file <= to
    requires UpTo(ctx, fs, start, end, ci, from, to, file, pos, was, before)
    requires Step(ctx, fs, start, end, ci, file, pos, |before|) == Ok(next)
    requires buffer == was[..pos] + WantedOfFile(ctx, fs, start, end, ci, file) + was[next..]
    ensures UpTo(ctx, fs, start, end, ci, from, to, file + 1, next, buffer, before)
  {
    WroteMore(buffer, was, before, WantedOfFiles(ctx, fs, start, end, ci, from, file), WantedOfFile(ctx, fs, start, end, ci, file));
  }

  /** Reads the blocks of the seconds asked for, file after file. */
  method ReadSecond(ctx: Context, fs: FileSystem, start: nat, count: nat, ci: nat, buffer: array<byte>)
    returns (r: Outcome<(), VoltageFileError>)
    requires ctx.geometry.Valid()
    modifies buffer
    ensures r == ReadSecondOutcome(ctx, fs, start, count, ci, buffer.Length)
    ensures r.Ok? ==> WroteSeconds(ctx, fs, start, count, ci, buffer[..], old(buffer[..]))
    ensures r.Err? ==> buffer[..] == old(buffer[..]) || StoppedShort(ctx, fs, start, count, ci, buffer[..], old(buffer[..]), r.error)
  {
    if ctx.batches == [] { return Err(NoVoltageFiles); }
    if ctx.coarseChans == [] { return Panic; }
    if ci > |ctx.coarseChans| - 1 { return Err(InvalidCoarseChanIndex(|ctx.coarseChans| - 1)); }
    var range := ValidateGpsTimeParameters(ctx, start, count);
    if range.Err? { return Err(range.error); }
    if range.Panic? { return Panic; }
    var end := range.value;
    if end * 1000 < ctx.timesteps[0].gpsTimeMs { return Panic; }
    if buffer.Length != BufferSize(ctx, count) { return Err(InvalidBufferSize(buffer.Length, BufferSize(ctx, count))); }
    r := ReadRange(ctx, fs, start, count, ci, buffer);
  }

  /** Reads a range that has been checked. */
  method ReadRange(ctx: Context, fs: FileSystem, start: nat, count: nat, ci: nat, buffer: array<byte>)
    returns (r: Outcome<(), VoltageFileError>)
    requires ReachesFiles(ctx, start, count, ci)
    modifies buffer
    ensures r == WalkSeconds(ctx, fs, start, start + count - 1, ci, buffer.Length)
    ensures r.Ok? ==> WroteSeconds(ctx, fs, start, count, ci, buffer[..], old(buffer[..]))
    ensures r.Err? ==> StoppedShort(ctx, fs, start, count, ci, buffer[..], old(buffer[..]), r.error)
  {
    var (from, to) := FilesOfSeconds(ctx, start, start + count - 1);
    r := ReadFiles(ctx, fs, start, start + count - 1, ci, buffer, from, to);
  }

  /** A range whose check does not fail, and whose end is not before the observation. */
  predicate ReachesFiles(ctx: Context, start: nat, count: nat, ci: nat) {
    && ctx.geometry.Valid() && ci < |ctx.coarseChans| && ctx.timesteps != []
    && ctx.timesteps[0].gpsTimeMs <= start * 1000 && start + count >= 1
    && ctx.timesteps[0].gpsTimeMs <= (start + count - 1) * 1000
  }

  /** The blocks of all the files that hold the seconds were written. */
  ghost predicate WroteSeconds(ctx: Context, fs: FileSystem, start: nat, count: nat, ci: nat, buffer: seq<byte>, before: seq<byte>) {
    && ReachesFiles(ctx, start, count, ci)
    && var (from, to) := FilesOfSeconds(ctx, start, start + count - 1);
       Wrote(buffer, before, WantedOfFiles(ctx, fs, start, start + count - 1, ci, from, to + 1))
  }

  ghost predicate StoppedShort(ctx: Context, fs: FileSystem, start: nat, count: nat, ci: nat, buffer: seq<byte>, before: seq<byte>,
                               e: VoltageFileError)
  {
    && ReachesFiles(ctx, start, count, ci)
    && StoppedBetween(ctx, fs, start, start + count - 1, ci, FilesOfSeconds(ctx, start, start + count - 1), buffer, before, e)
  }
}
