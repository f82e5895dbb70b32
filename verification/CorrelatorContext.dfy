/** The view of an observation's visibility files (src/correlator_context/mod.rs). */
module CorrelatorContext {
  import opened CoarseChannels
  import opened Collections
  import opened CommonRuns
  import opened GpuboxFiles
  import opened Grid
  import opened Misc
  import opened Rectangles
  import opened TimeSteps
  import opened Wrappers

  datatype Context = Context(
    timesteps: seq<TimeStep>,
    coarseChans: seq<CoarseChannel>,
    providedTimestepIndices: seq<nat>,
    providedCoarseChanIndices: seq<nat>,
    common: Common,
    commonGood: Common,
    gpuboxBatches: seq<GpuBoxBatch>,
    gpuboxTimeMap: GpuboxTimeMap
  )

  // ---------------------------------------------------------------- looking data up

  /** The file, batch and HDU that hold a timestep and coarse channel. */
  function GetFitsFilenameAndBatchAndHdu(ctx: Context, timestepIndex: nat, coarseChanIndex: nat):
    Outcome<(string, nat, nat), GpuboxError>
  {
    if ctx.timesteps == [] then Panic
    else if timestepIndex > |ctx.timesteps| - 1 then Err(InvalidTimeStepIndex(|ctx.timesteps| - 1))
    else if ctx.coarseChans == [] then Panic
    else if coarseChanIndex > |ctx.coarseChans| - 1 then Err(InvalidCoarseChanIndex(|ctx.coarseChans| - 1))
    else if ctx.gpuboxBatches == [] then Err(NoGpuboxes)
    else
      var identifier := ctx.coarseChans[coarseChanIndex].gpuboxNumber;
      match Lookup(ctx.gpuboxTimeMap, ctx.timesteps[timestepIndex].unixTimeMs, identifier)
      case None => Err(NoDataForTimeStepCoarseChannel(timestepIndex, coarseChanIndex))
      case Some(entry) =>
        var (batch, hdu) := entry;
        if batch >= |ctx.gpuboxBatches| then Panic
        else
          var files := ctx.gpuboxBatches[batch].gpuboxFiles;
          match Position(files, (g: GpuBoxFile) => g.channelIdentifier == identifier)
          case None => Err(NoDataForTimeStepCoarseChannel(timestepIndex, coarseChanIndex))
          case Some(k) => Ok((files[k].filename, batch, hdu))
  }

  ghost predicate UniqueFiles(files: seq<TempGpuBoxFile>) {
    forall i, j :: 0 <= i < j < |files| ==>
      !(files[i].batchNumber == files[j].batchNumber && files[i].channelIdentifier == files[j].channelIdentifier)
  }

  /** In order of batch number, then of channel. */
  ghost predicate FilesInOrder(files: seq<TempGpuBoxFile>) {
    forall i, j :: 0 <= i < j < |files| ==>
      || files[i].batchNumber < files[j].batchNumber
      || (files[i].batchNumber == files[j].batchNumber && files[i].channelIdentifier <= files[j].channelIdentifier)
  }

  /** The batch list and the time map of a context describe the given files. */
  ghost predicate Describes(ctx: Context, files: seq<TempGpuBoxFile>, hdus: seq<map<nat, nat>>) {
    && files != [] && |files| == |hdus|
    && FilesInOrder(files)
    && IsTimeMap(ctx.gpuboxTimeMap, files, hdus)
    && IsBatchList(ctx.gpuboxBatches, files)
  }

  /** The first file of a channel in its batch is the only one, when files are unique. */
  lemma FileIsFound(ctx: Context, files: seq<TempGpuBoxFile>, hdus: seq<map<nat, nat>>, k: nat)
    requires Describes(ctx, files, hdus) && UniqueFiles(files) && k < |files|
    ensures files[k].batchNumber < |ctx.gpuboxBatches|
    ensures var gs := ctx.gpuboxBatches[files[k].batchNumber].gpuboxFiles;
            var found := Position(gs, (g: GpuBoxFile) => g.channelIdentifier == files[k].channelIdentifier);
            found.Some? && gs[found.value].filename == files[k].filename
  {
    var found, f := FoundFile(files, ctx.gpuboxBatches, k);
  }

  /** The lookup finds data exactly when some file of that channel has an HDU at that time;
      what it returns is such a file, with the HDU index from that file's own map, and from
      the lowest batch that has one. */
  lemma LookupAgreesWithFiles(ctx: Context, files: seq<TempGpuBoxFile>, hdus: seq<map<nat, nat>>, ti: nat, ci: nat)
    returns (k: nat)
    requires Describes(ctx, files, hdus) && UniqueFiles(files)
    requires ti < |ctx.timesteps| && ci < |ctx.coarseChans|
    ensures var t, c := ctx.timesteps[ti].unixTimeMs, ctx.coarseChans[ci].gpuboxNumber;
            var r := GetFitsFilenameAndBatchAndHdu(ctx, ti, ci);
            && (r.Ok? <==> exists j :: 0 <= j < |files| && Has(files, hdus, j, t, c))
            && (r.Ok? <==> Lookup(ctx.gpuboxTimeMap, t, c).Some?)
            && (r.Ok? ==>
                  && k < |files| && Has(files, hdus, k, t, c)
                  && r.value == (files[k].filename, files[k].batchNumber, hdus[k][t])
                  && forall j :: 0 <= j < |files| && Has(files, hdus, j, t, c) ==> files[k].batchNumber <= files[j].batchNumber)
            && (!r.Ok? ==> r == Err(NoDataForTimeStepCoarseChannel(ti, ci)))
  {
    var t, c := ctx.timesteps[ti].unixTimeMs, ctx.coarseChans[ci].gpuboxNumber;
    k := FirstEntrySpec(files, hdus, |files|, t, c);
    assert Lookup(ctx.gpuboxTimeMap, t, c) == FirstEntry(files, hdus, |files|, t, c);
    if FirstEntry(files, hdus, |files|, t, c).Some? {
      FileIsFound(ctx, files, hdus, k);
    }
  }

  lemma {:induction false} OneFileHasData(files: seq<TempGpuBoxFile>, hdus: seq<map<nat, nat>>, n: nat, k: nat, t: nat, c: nat)
    requires n <= |files| == |hdus| && k < |files|
    requires forall j :: 0 <= j < |files| ==> hdus[j] == if j == k then map[1000 := 1] else map[]
    ensures FirstEntry(files, hdus, n, t, c) ==
            if k < n && t == 1000 && c == files[k].channelIdentifier then Some((files[k].batchNumber, 1)) else None
  {
    if n > 0 {
      OneFileHasData(files, hdus, n - 1, k, t, c);
    }
  }

  /** Uniqueness is exactly what the agreement needs: whenever two files share batch and
      channel, there are HDUs for which the lookup combines the name of one file with the HDU
      index of the other. */
  lemma DuplicateFilesMixUp(files: seq<TempGpuBoxFile>, batches: seq<GpuBoxBatch>, i: nat, j: nat)
    returns (ctx: Context, hdus: seq<map<nat, nat>>)
    requires FilesInOrder(files) && IsBatchList(batches, files)
    requires forall k, l :: 0 <= k < l < |files| ==> files[k].filename != files[l].filename
    requires i < j < |files| && files[i].batchNumber == files[j].batchNumber
    requires files[i].channelIdentifier == files[j].channelIdentifier
    ensures Describes(ctx, files, hdus) && |ctx.timesteps| == |ctx.coarseChans| == 1
    ensures var r := GetFitsFilenameAndBatchAndHdu(ctx, 0, 0);
            r.Ok? && forall k :: 0 <= k < |files| && files[k].filename == r.value.0 ==> ctx.timesteps[0].unixTimeMs !in hdus[k]
  {
    var b, c := files[i].batchNumber, files[i].channelIdentifier;
    var found, f := FoundFile(files, batches, i);
    var other := if f == i then j else i;
    hdus := seq(|files|, k requires 0 <= k < |files| => if k == other then map[1000 := 1] else map[]);
    var m: GpuboxTimeMap := map[1000 := map[c := (b, 1)]];
    var none := Common([], [], 0, 0, 0, 0, 0);
    ctx := Context([TimeStep(1000, 1000)], [CoarseChannel(0, 0, c)], [], [], none, none, batches, m);
    forall t: nat, c': nat
      ensures Lookup(m, t, c') == FirstEntry(files, hdus, |files|, t, c')
    {
      OneFileHasData(files, hdus, |files|, other, t, c');
    }
    assert c in m[1000];
  }

  /** The file that a search of a batch for the channel of file `i` comes upon. */
  lemma FoundFile(files: seq<TempGpuBoxFile>, batches: seq<GpuBoxBatch>, i: nat) returns (found: nat, f: nat)
    requires IsBatchList(batches, files) && i < |files|
    ensures var gs := batches[files[i].batchNumber].gpuboxFiles;
            && Position(gs, (g: GpuBoxFile) => g.channelIdentifier == files[i].channelIdentifier) == Some(found)
            && found < |gs| && f < |files|
            && files[f] == TempGpuBoxFile(gs[found].filename, files[i].channelIdentifier, files[i].batchNumber)
  {
    var b, c := files[i].batchNumber, files[i].channelIdentifier;
    var gs, listed := batches[b].gpuboxFiles, FilesOfBatch(files, |files|, b);
    var mine := GpuBoxFile(files[i].filename, c);
    InBatch(files, |files|, b, mine);
    assert mine in multiset(listed) && mine in multiset(gs);
    var k :| 0 <= k < |gs| && gs[k] == mine;
    found := Position(gs, (g: GpuBoxFile) => g.channelIdentifier == c).value;
    var g := gs[found];
    assert g in multiset(gs) && g in multiset(listed);
    InBatch(files, |files|, b, g);
    f :| 0 <= f < |files| && files[f] == TempGpuBoxFile(g.filename, g.channelIdentifier, b);
  }

  // ---------------------------------------------------------------- building the context

  type OpenedFile = (TempGpuBoxFile, HduMap)

  /** Sorting by (batch number, channel); channels are 64-bit numbers. */
  function FileKey(f: OpenedFile): int {
    f.0.batchNumber * 0x1_0000_0000_0000_0000 + f.0.channelIdentifier
  }

  function Names(inputs: seq<OpenedFile>): (r: seq<TempGpuBoxFile>)
    ensures |r| == |inputs| && forall i :: 0 <= i < |r| ==> r[i] == inputs[i].0
  {
    seq(|inputs|, i requires 0 <= i < |inputs| => inputs[i].0)
  }

  function Maps(inputs: seq<OpenedFile>): (r: seq<HduMap>)
    ensures |r| == |inputs| && forall i :: 0 <= i < |r| ==> r[i] == inputs[i].1
  {
    seq(|inputs|, i requires 0 <= i < |inputs| => inputs[i].1)
  }

  ghost function Hdus(inputs: seq<OpenedFile>): (r: seq<map<nat, nat>>)
    ensures |r| == |inputs| && forall i :: 0 <= i < |r| && inputs[i].1.Ok? ==> r[i] == inputs[i].1.value
  {
    seq(|inputs|, i requires 0 <= i < |inputs| => if inputs[i].1.Ok? then inputs[i].1.value else map[])
  }

  ghost predicate SmallChannels(inputs: seq<OpenedFile>) {
    forall i :: 0 <= i < |inputs| ==> inputs[i].0.channelIdentifier < 0x1_0000_0000_0000_0000
  }

  lemma KeyOrder(f: OpenedFile, g: OpenedFile)
    requires f.0.channelIdentifier < 0x1_0000_0000_0000_0000 && g.0.channelIdentifier < 0x1_0000_0000_0000_0000
    requires FileKey(f) <= FileKey(g)
    ensures f.0.batchNumber < g.0.batchNumber || (f.0.batchNumber == g.0.batchNumber && f.0.channelIdentifier <= g.0.channelIdentifier)
  {
  }

  lemma KeysInOrder(r: seq<OpenedFile>)
    requires SmallChannels(r) && SortedBy(r, FileKey)
    ensures FilesInOrder(Names(r))
  {
    forall i, j | 0 <= i < j < |r|
      ensures Names(r)[i].batchNumber < Names(r)[j].batchNumber
           || (Names(r)[i].batchNumber == Names(r)[j].batchNumber && Names(r)[i].channelIdentifier <= Names(r)[j].channelIdentifier)
    {
      KeyOrder(r[i], r[j]);
    }
  }

  lemma SmallInOrder(inputs: seq<OpenedFile>, r: seq<OpenedFile>, p: seq<nat>)
    requires SmallChannels(inputs) && Reorders(p, inputs, r)
    ensures SmallChannels(r) && Reorders(p, Names(inputs), Names(r))
  {
  }

  lemma SortedFilesInOrder(inputs: seq<OpenedFile>)
    requires SmallChannels(inputs)
    ensures var r := SortBy(inputs, FileKey);
            |r| == |inputs| && FilesInOrder(Names(r)) && (UniqueFiles(Names(inputs)) ==> UniqueFiles(Names(r)))
    ensures forall f :: f in SortBy(inputs, FileKey) <==> f in inputs
  {
    var r := SortBy(inputs, FileKey);
    var p := SameElementsReorder(inputs, r);
    SmallInOrder(inputs, r, p);
    KeysInOrder(r);
    if UniqueFiles(Names(inputs)) {
      UniqueInOrder(Names(inputs), Names(r), p);
    }
    assert forall f :: f in r <==> f in multiset(r);
    assert forall f :: f in inputs <==> f in multiset(inputs);
  }

  lemma UniqueInOrder(files: seq<TempGpuBoxFile>, r: seq<TempGpuBoxFile>, p: seq<nat>)
    requires Reorders(p, files, r) && UniqueFiles(files)
    ensures UniqueFiles(r)
  {
    forall i, j | 0 <= i < j < |r|
      ensures !(r[i].batchNumber == r[j].batchNumber && r[i].channelIdentifier == r[j].channelIdentifier)
    {
      assert p[i] != p[j];
      var k, l := if p[i] < p[j] then p[i] else p[j], if p[i] < p[j] then p[j] else p[i];
      assert !(files[k].batchNumber == files[l].batchNumber && files[k].channelIdentifier == files[l].channelIdentifier);
    }
  }

  /** The provided timesteps, sorted; a time that is not on the timeline panics. */
  function PopulateProvidedTimesteps(times: seq<nat>, ts: seq<TimeStep>): Outcome<seq<nat>, ()> {
    TimestepsAt(ts, times, UnixTime)
  }

  lemma TimesAreFound(times: set<nat>, ts: seq<TimeStep>)
    requires AscendingTimes(ts) && times <= Times(ts)
    ensures PopulateProvidedTimesteps(SortedSet(times), ts).Ok?
  {
    forall x | x in SortedSet(times)
      ensures exists k :: 0 <= k < |ts| && UnixTime(ts[k]) == x
    {
      assert x in Times(ts);
      var k :| 0 <= k < |ts| && ts[k].unixTimeMs == x;
      assert UnixTime(ts[k]) == x;
    }
    TimestepsAreFound(ts, SortedSet(times), UnixTime);
  }

  /** The context's provided timesteps are, in order, exactly those that there is data for. */
  lemma ProvidedTimestepsAre(ctx: Context, files: seq<TempGpuBoxFile>, hdus: seq<map<nat, nat>>, provided: seq<TimeStep>, obs: Observation,
                             k: nat)
    requires IsContext(ctx, files, hdus, provided, obs)
    ensures Ascending(ctx.providedTimestepIndices)
    ensures k in ctx.providedTimestepIndices <==>
              k < |ctx.timesteps| && exists i :: 0 <= i < |files| && ctx.timesteps[k].unixTimeMs in hdus[i]
  {
    TimestepsFound(ctx.timesteps, SortedSet(ctx.gpuboxTimeMap.Keys), UnixTime);
    if k < |ctx.timesteps| {
      TimeMapTimes(ctx.gpuboxTimeMap, files, hdus, ctx.timesteps[k].unixTimeMs);
    }
  }

  /** What the context says about a run, or about the lack of one. */
  ghost predicate IsCommon(c: Common, run: Option<ObsTimesAndChans>, ts: seq<TimeStep>, chans: seq<CoarseChannel>, clock: Clock) {
    var o := if run.Some? then run.value else ObsTimesAndChans(0, 0, 0, []);
    && c.startUnixMs == o.startMs && c.endUnixMs == o.endMs && c.durationMs == o.durationMs
    && ConvertUnixtimeToGpstime(o.startMs, clock.startGpsMs, clock.startUnixMs) == Ok(c.startGpsMs)
    && ConvertUnixtimeToGpstime(o.endMs, clock.startGpsMs, clock.startUnixMs) == Ok(c.endGpsMs)
    && c.timestepIndices == GetTimestepIndices(ts, o.startMs, o.endMs)
    && GetCoarseChanIndices(chans, o.channels) == Ok(c.coarseChanIndices)
  }

  ghost predicate ChannelsKnown(channels: set<nat>, chans: seq<CoarseChannel>) {
    forall c :: c in channels ==> exists k :: 0 <= k < |chans| && chans[k].gpuboxNumber == c
  }

  /** Both ends of a run have GPS times. */
  ghost predicate RunHasGps(run: Option<ObsTimesAndChans>, clock: Clock) {
    run.Some? ==> clock.HasGps(run.value.startMs) && clock.HasGps(run.value.endMs)
  }

  method FindCommon(timeMap: GpuboxTimeMap, d: nat, good: Option<nat>, ts: seq<TimeStep>, chans: seq<CoarseChannel>, clock: Clock)
    returns (r: Outcome<Common, GpuboxError>)
    requires ChannelsKnown(SeenChannels(timeMap), chans)
    ensures !r.Err? && (r.Ok? <==> RunHasGps(CommonRun(ChannelSets(timeMap), d, good), clock))
    ensures r.Ok? ==> IsCommon(r.value, CommonRun(ChannelSets(timeMap), d, good), ts, chans, clock)
  {
    var run := DetermineCommonObsTimesAndChans(timeMap, d, good);
    var o := if run.Some? then run.value else ObsTimesAndChans(0, 0, 0, []);
    RunChannelsAreFound(timeMap, d, good, chans);
    var startGps := ConvertUnixtimeToGpstime(o.startMs, clock.startGpsMs, clock.startUnixMs);
    var endGps := ConvertUnixtimeToGpstime(o.endMs, clock.startGpsMs, clock.startUnixMs);
    if startGps.Panic? || endGps.Panic? { return Panic; }
    var coarse := GetCoarseChanIndices(chans, o.channels);
    return Ok(Common(GetTimestepIndices(ts, o.startMs, o.endMs), coarse.value, o.startMs, o.endMs,
                     startGps.value, endGps.value, o.durationMs));
  }

  lemma RunChannelsAreFound(timeMap: GpuboxTimeMap, d: nat, good: Option<nat>, chans: seq<CoarseChannel>)
    requires ChannelsKnown(SeenChannels(timeMap), chans)
    ensures var run := CommonRun(ChannelSets(timeMap), d, good);
            var o := if run.Some? then run.value else ObsTimesAndChans(0, 0, 0, []);
            GetCoarseChanIndices(chans, o.channels).Ok?
  {
    var run := CommonRun(ChannelSets(timeMap), d, good);
    if run.Some? {
      RunStart(ChannelSets(timeMap), d, good);
      RunChannelsKnown(timeMap, run.value.channels, chans);
    } else {
      ChannelsAreFound(chans, []);
    }
  }

  lemma RunChannelsKnown(timeMap: GpuboxTimeMap, channels: seq<nat>, chans: seq<CoarseChannel>)
    requires channels == SortedSet(AllChannels(ChannelSets(timeMap))) && ChannelsKnown(SeenChannels(timeMap), chans)
    ensures GetCoarseChanIndices(chans, channels).Ok?
  {
    SeenAreAll(timeMap);
    KnownAreFound(SeenChannels(timeMap), chans);
  }

  lemma KnownAreFound(channels: set<nat>, chans: seq<CoarseChannel>)
    ensures ChannelsKnown(channels, chans) <==> GetCoarseChanIndices(chans, SortedSet(channels)).Ok?
  {
    var identifiers := SortedSet(channels);
    ChannelsAreFound(chans, identifiers);
    if ChannelsKnown(channels, chans) {
      forall i | 0 <= i < |identifiers|
        ensures exists k :: 0 <= k < |chans| && chans[k].gpuboxNumber == identifiers[i]
      {
        assert identifiers[i] in identifiers;
      }
    } else {
      var c :| c in channels && !exists k :: 0 <= k < |chans| && chans[k].gpuboxNumber == c;
      assert c in identifiers;
      var i :| 0 <= i < |identifiers| && identifiers[i] == c;
    }
  }

  /** What the metafits says about the observation. */
  datatype Observation = Observation(version: MWAVersion, recs: seq<nat>, metafits: seq<TimeStep>, clock: Clock, d: nat, goodMs: nat)

  /** The observation's coarse channels. */
  function AllChans(obs: Observation): seq<CoarseChannel> {
    SortBy(Candidates<(nat, nat), string>(obs.version, obs.recs, |obs.recs|, None, None), RecKey)
  }

  /** `ts` is the timeline for data at the times in `provided`. */
  ghost predicate IsObsTimeline(ts: seq<TimeStep>, provided: seq<TimeStep>, obs: Observation) {
    && obs.d > 0 && provided != [] && obs.metafits != [] && AscendingTimes(provided)
    && IsTimeline(ts, provided, obs.metafits[0].unixTimeMs, obs.metafits[|obs.metafits| - 1].unixTimeMs, obs.clock, obs.d)
  }

  /** Everything a context promises about the files it was built from. */
  ghost predicate IsContext(ctx: Context, files: seq<TempGpuBoxFile>, hdus: seq<map<nat, nat>>, provided: seq<TimeStep>,
                            obs: Observation)
  {
    && Describes(ctx, files, hdus)
    && IsObsTimeline(ctx.timesteps, provided, obs) && IsProvided(provided, ctx.gpuboxTimeMap.Keys, obs.clock)
    && ctx.coarseChans == AllChans(obs)
    && ChannelsKnown(SeenChannels(ctx.gpuboxTimeMap), ctx.coarseChans)
    && PopulateProvidedTimesteps(SortedSet(ctx.gpuboxTimeMap.Keys), ctx.timesteps) == Ok(ctx.providedTimestepIndices)
    && GetCoarseChanIndices(ctx.coarseChans, SortedSet(SeenChannels(ctx.gpuboxTimeMap))) == Ok(ctx.providedCoarseChanIndices)
    && IsCommon(ctx.common, CommonRun(ChannelSets(ctx.gpuboxTimeMap), obs.d, None), ctx.timesteps, ctx.coarseChans, obs.clock)
    && IsCommon(ctx.commonGood, CommonRun(ChannelSets(ctx.gpuboxTimeMap), obs.d, Some(obs.goodMs)), ctx.timesteps, ctx.coarseChans, obs.clock)
  }

  /** Opens the files in order of batch and channel, and merges their HDU maps. */
  method ExamineGpuboxFiles(inputs: seq<OpenedFile>)
    returns (r: Outcome<(seq<GpuBoxBatch>, GpuboxTimeMap), GpuboxError>)
    requires SmallChannels(inputs) && forall f :: f in inputs ==> !f.1.Panic?
    ensures !r.Panic? && (inputs == [] ==> r == Err(NoGpuboxes))
    ensures r.Err? <==> Unreadable(inputs)
    ensures r.Ok? ==>
              var sorted := SortBy(inputs, FileKey);
              && sorted != [] && FilesInOrder(Names(sorted))
              && IsBatchList(r.value.0, Names(sorted)) && IsTimeMap(r.value.1, Names(sorted), Hdus(sorted))
  {
    if inputs == [] {
      return Err(NoGpuboxes);
    }
    SortedFilesInOrder(inputs);
    var sorted := SortBy(inputs, FileKey);
    var files := Names(sorted);
    var timeMap := CreateTimeMap(files, Maps(sorted), Hdus(sorted));
    MapsFail(inputs, sorted);
    if timeMap.Err? {
      return Err(timeMap.error);
    }
    var batches := ConvertTempGpuboxes(files);
    return Ok((batches, timeMap.value));
  }

  /** No files, or one that cannot be opened. */
  ghost predicate Unreadable(inputs: seq<OpenedFile>) {
    inputs == [] || exists f :: f in inputs && f.1.Err?
  }

  /** Builds the context from the parsed and opened files and the metafits data.  `headers` is
      the outcome of comparing the files' first HDUs with the metafits. */
  method New(inputs: seq<OpenedFile>, headers: Outcome<(), GpuboxError>, obs: Observation)
    returns (r: Outcome<Context, GpuboxError>, ghost provided: seq<TimeStep>, ghost timeMap: GpuboxTimeMap)
    requires obs.d > 0 && SmallChannels(inputs) && !headers.Panic? && forall f :: f in inputs ==> !f.1.Panic?
    ensures !Unreadable(inputs) ==> var sorted := SortBy(inputs, FileKey); IsTimeMap(timeMap, Names(sorted), Hdus(sorted))
    ensures (forall t :: t in timeMap ==> obs.clock.HasGps(t)) ==> IsProvided(provided, timeMap.Keys, obs.clock)
    ensures inputs == [] ==> r == Err(NoGpuboxes)
    ensures r.Err? <==> Unreadable(inputs) || (headers.Err? && !NoAxes(timeMap, provided, obs))
    ensures r.Err? && !Unreadable(inputs) ==> headers == Err(r.error)
    ensures r.Ok? <==> !Unreadable(inputs) && headers.Ok? && !NoAxes(timeMap, provided, obs) && RunsHaveGps(timeMap, obs)
    ensures r.Ok? ==> var sorted := SortBy(inputs, FileKey); IsContext(r.value, Names(sorted), Hdus(sorted), provided, obs)
  {
    provided, timeMap := [], map[];
    var examined := ExamineGpuboxFiles(inputs);
    if examined.Err? {
      return Err(examined.error), [], map[];
    }
    timeMap := examined.value.1;
    var sorted := SortBy(inputs, FileKey);
    r, provided := Build(examined.value.0, examined.value.1, headers, obs, Names(sorted), Hdus(sorted));
  }

  method Build(batches: seq<GpuBoxBatch>, tm: GpuboxTimeMap, headers: Outcome<(), GpuboxError>, obs: Observation,
               ghost files: seq<TempGpuBoxFile>, ghost hdus: seq<map<nat, nat>>)
    returns (r: Outcome<Context, GpuboxError>, ghost provided: seq<TimeStep>)
    requires obs.d > 0 && !headers.Panic?
    requires files != [] && |files| == |hdus| && FilesInOrder(files)
    requires IsBatchList(batches, files) && IsTimeMap(tm, files, hdus)
    ensures (forall t :: t in tm ==> obs.clock.HasGps(t)) ==> IsProvided(provided, tm.Keys, obs.clock)
    ensures r.Err? <==> headers.Err? && !NoAxes(tm, provided, obs)
    ensures r.Err? ==> headers == Err(r.error)
    ensures r.Ok? <==> headers.Ok? && !NoAxes(tm, provided, obs) && RunsHaveGps(tm, obs)
    ensures r.Ok? ==> IsContext(r.value, files, hdus, provided, obs)
  {
    var populated := PopulateCoarseChannels<(nat, nat), string>(obs.version, obs.recs, None, None);
    var chans := populated.value;
    var axes;
    axes, provided := FindAxes(tm, chans, obs);
    if axes.Panic? { return Panic, provided; }
    if headers.Err? { return Err(headers.error), provided; }
    var (ts, providedTs, providedChans) := axes.value;
    var common := FindCommon(tm, obs.d, None, ts, chans, obs.clock);
    if common.Panic? { return Panic, provided; }
    var commonGood := FindCommon(tm, obs.d, Some(obs.goodMs), ts, chans, obs.clock);
    if commonGood.Panic? { return Panic, provided; }
    r := Ok(Context(ts, chans, providedTs, providedChans, common.value, commonGood.value, batches, tm));
  }

  /** The timeline, and which of its timesteps and of the channels there is any data for. */
  method FindAxes(tm: GpuboxTimeMap, chans: seq<CoarseChannel>, obs: Observation)
    returns (r: Outcome<(seq<TimeStep>, seq<nat>, seq<nat>), GpuboxError>, ghost provided: seq<TimeStep>)
    requires obs.d > 0 && chans == AllChans(obs)
    ensures !r.Err? && (r.Panic? <==> NoAxes(tm, provided, obs))
    ensures (forall t :: t in tm ==> obs.clock.HasGps(t)) ==> IsProvided(provided, tm.Keys, obs.clock)
    ensures r.Ok? ==>
              && IsObsTimeline(r.value.0, provided, obs) && IsProvided(provided, tm.Keys, obs.clock)
              && ChannelsKnown(SeenChannels(tm), chans)
              && PopulateProvidedTimesteps(SortedSet(tm.Keys), r.value.0) == Ok(r.value.1)
              && GetCoarseChanIndices(chans, SortedSet(SeenChannels(tm))) == Ok(r.value.2)
  {
    var timesteps;
    timesteps, provided := PopulateCorrelatorTimesteps(tm.Keys, obs.metafits, obs.clock, obs.d);
    if provided != [] { MemberTime(provided, 0); }
    if timesteps.Panic? || timesteps.value.None? { return Panic, provided; }
    var ts := timesteps.value.value;
    assert provided != [] ==> provided[0] in provided;
    TimesAreFound(tm.Keys, ts);
    KnownAreFound(SeenChannels(tm), chans);
    var providedTs := PopulateProvidedTimesteps(SortedSet(tm.Keys), ts);
    var providedChans := GetCoarseChanIndices(chans, SortedSet(SeenChannels(tm)));
    if providedTs.Panic? || providedChans.Panic? { return Panic, provided; }
    r := Ok((ts, providedTs.value, providedChans.value));
  }

  /** Readable files that no context can be built for: a time has no GPS time; there is no
      timeline; or a channel is not one of the observation's. */
  ghost predicate NoAxes(timeMap: GpuboxTimeMap, provided: seq<TimeStep>, obs: Observation) {
    || (exists t :: t in timeMap && !obs.clock.HasGps(t))
    || NoTimeline(provided, obs.metafits, obs.clock, obs.d)
    || !ChannelsKnown(SeenChannels(timeMap), AllChans(obs))
  }

  ghost predicate RunsHaveGps(timeMap: GpuboxTimeMap, obs: Observation) {
    && RunHasGps(CommonRun(ChannelSets(timeMap), obs.d, None), obs.clock)
    && RunHasGps(CommonRun(ChannelSets(timeMap), obs.d, Some(obs.goodMs)), obs.clock)
  }

  lemma MapsFail(inputs: seq<OpenedFile>, sorted: seq<OpenedFile>)
    requires forall f :: f in sorted <==> f in inputs
    ensures (forall k :: 0 <= k < |sorted| ==> Maps(sorted)[k].Ok?) <==> forall f :: f in inputs ==> f.1.Ok?
  {
    if forall k :: 0 <= k < |sorted| ==> Maps(sorted)[k].Ok? {
      forall f | f in inputs
        ensures f.1.Ok?
      {
        var k :| 0 <= k < |sorted| && sorted[k] == f;
        assert Maps(sorted)[k].Ok?;
      }
    }
  }

  // ---------------------------------------------------------------- when the common rectangle is readable

  /** The rectangle `c` is the context's common rectangle, or the one after the quack time. */
  ghost predicate IsRectangle(ctx: Context, obs: Observation, c: Common, good: Option<nat>) {
    (c == ctx.common && good == None) || (c == ctx.commonGood && good == Some(obs.goodMs))
  }

  lemma NoRun(c: Common, ts: seq<TimeStep>, chans: seq<CoarseChannel>, clock: Clock)
    requires IsCommon(c, None, ts, chans, clock) && AscendingTimes(ts)
    ensures c == Common([], [], 0, 0, 0, 0, 0)
  {
    TimestepIndices(ts, 0, 0);
    HasMember(c.timestepIndices);
    assert |multiset(c.coarseChanIndices)| == |c.coarseChanIndices|;
  }

  /** When no late enough time holds every channel the rectangle is empty, and all its times are 0. */
  lemma NothingInCommon(ctx: Context, files: seq<TempGpuBoxFile>, hdus: seq<map<nat, nat>>, provided: seq<TimeStep>, obs: Observation,
                        c: Common, good: Option<nat>)
    requires IsContext(ctx, files, hdus, provided, obs) && IsRectangle(ctx, obs, c, good)
    requires forall t :: t in ctx.gpuboxTimeMap && (good.None? || good.value <= t) ==> !IsComplete(t, ChannelSets(ctx.gpuboxTimeMap))
    ensures c == Common([], [], 0, 0, 0, 0, 0)
  {
    NoCompleteTime(ChannelSets(ctx.gpuboxTimeMap), obs.d, good);
    RectangleOfRun(ctx, files, hdus, provided, obs, c, good);
    NoRun(c, ctx.timesteps, ctx.coarseChans, obs.clock);
  }

  /** When there is one the rectangle is the run of `n` complete times from the first of them on, on both clocks, and its
      channels are all channels. */
  lemma RunInCommon(ctx: Context, files: seq<TempGpuBoxFile>, hdus: seq<map<nat, nat>>, provided: seq<TimeStep>, obs: Observation,
                    c: Common, good: Option<nat>, t: nat) returns (n: nat)
    requires IsContext(ctx, files, hdus, provided, obs) && IsRectangle(ctx, obs, c, good)
    requires t in ctx.gpuboxTimeMap && IsComplete(t, ChannelSets(ctx.gpuboxTimeMap)) && (good.None? || good.value <= t)
    ensures c.startUnixMs <= t
    ensures IsUnbroken(ChannelSets(ctx.gpuboxTimeMap), obs.d, good, c.startUnixMs, c.endUnixMs, c.durationMs, n)
    ensures obs.clock.HasGps(c.startUnixMs) && c.startGpsMs == obs.clock.GpsOf(c.startUnixMs)
    ensures obs.clock.HasGps(c.endUnixMs) && c.endGpsMs == obs.clock.GpsOf(c.endUnixMs)
    ensures forall k :: k in c.coarseChanIndices ==>
              0 <= k < |ctx.coarseChans| && ctx.coarseChans[k].gpuboxNumber in AllChannels(ChannelSets(ctx.gpuboxTimeMap))
    ensures |c.coarseChanIndices| == |AllChannels(ChannelSets(ctx.gpuboxTimeMap))|
  {
    var m := ChannelSets(ctx.gpuboxTimeMap);
    RectangleOfRun(ctx, files, hdus, provided, obs, c, good);
    var run;
    n, run := RunOfComplete(m, obs.d, good, t);
    FoundChannelsAreNamed(ctx.coarseChans, run.channels);
  }

  lemma NoCompleteTime(m: ChannelMap, d: nat, good: Option<nat>)
    requires forall t :: t in m && (good.None? || good.value <= t) ==> !IsComplete(t, m)
    ensures CommonRun(m, d, good) == None
  {
    CommonRunExists(m, d, good);
    assert forall t :: RunTime(m, t, good) ==> IsComplete(t, m);
  }

  lemma RectangleOfRun(ctx: Context, files: seq<TempGpuBoxFile>, hdus: seq<map<nat, nat>>, provided: seq<TimeStep>, obs: Observation,
                       c: Common, good: Option<nat>)
    requires IsContext(ctx, files, hdus, provided, obs) && IsRectangle(ctx, obs, c, good)
    ensures IsCommon(c, CommonRun(ChannelSets(ctx.gpuboxTimeMap), obs.d, good), ctx.timesteps, ctx.coarseChans, obs.clock)
    ensures AscendingTimes(ctx.timesteps)
  {
  }

  /** The times that the rectangle's timesteps stand for: those of the timeline in its window. */
  ghost predicate InWindow(x: nat, c: Common, provided: seq<TimeStep>, obs: Observation)
    requires provided != [] && obs.metafits != [] && obs.d > 0
  {
    IsInWindow(x, c, provided, obs.metafits[|obs.metafits| - 1].unixTimeMs, obs.d)
  }

  /** What a caller can check before reading anything: each data time in the window, and each
      point of the grid there that gaps are filled with, is a time with files of every channel. */
  ghost predicate WindowIsComplete(m: ChannelMap, c: Common, provided: seq<TimeStep>, obs: Observation)
    requires provided != [] && obs.metafits != [] && obs.d > 0
  {
    forall x: nat :: InWindow(x, c, provided, obs) ==> IsComplete(x, m)
  }

  ghost predicate AllReadable(ctx: Context, c: Common) {
    forall ti, ci :: ti in c.timestepIndices && ci in c.coarseChanIndices ==> GetFitsFilenameAndBatchAndHdu(ctx, ti, ci).Ok?
  }

  /** What keeps a lookup from getting to the time map, in order of the checks. */
  lemma LookupErrors(ctx: Context, ti: nat, ci: nat)
    requires ctx.timesteps != [] && ctx.coarseChans != []
    ensures var r := GetFitsFilenameAndBatchAndHdu(ctx, ti, ci);
            && (ti >= |ctx.timesteps| <==> r == Err(InvalidTimeStepIndex(|ctx.timesteps| - 1)))
            && (ti < |ctx.timesteps| && ci >= |ctx.coarseChans| <==> r == Err(InvalidCoarseChanIndex(|ctx.coarseChans| - 1)))
            && (ti < |ctx.timesteps| && ci < |ctx.coarseChans| && ctx.gpuboxBatches == [] <==> r == Err(NoGpuboxes))
  {
  }

  /** Unique or not, a file is found whenever the time map has an entry. */
  lemma LookupSucceeds(ctx: Context, files: seq<TempGpuBoxFile>, hdus: seq<map<nat, nat>>, ti: nat, ci: nat)
    requires Describes(ctx, files, hdus) && ti < |ctx.timesteps| && ci < |ctx.coarseChans|
    ensures var r := GetFitsFilenameAndBatchAndHdu(ctx, ti, ci);
            && (r.Ok? <==> Lookup(ctx.gpuboxTimeMap, ctx.timesteps[ti].unixTimeMs, ctx.coarseChans[ci].gpuboxNumber).Some?)
            && (!r.Ok? ==> r == Err(NoDataForTimeStepCoarseChannel(ti, ci)))
  {
    var t, c := ctx.timesteps[ti].unixTimeMs, ctx.coarseChans[ci].gpuboxNumber;
    var k := FirstEntrySpec(files, hdus, |files|, t, c);
    assert Lookup(ctx.gpuboxTimeMap, t, c) == FirstEntry(files, hdus, |files|, t, c);
    if FirstEntry(files, hdus, |files|, t, c).Some? {
      var found, f := FoundFile(files, ctx.gpuboxBatches, k);
    }
  }

  /** A run's window lies between the first data time and a step after the last. */
  lemma RunInsideData(m: ChannelMap, d: nat, good: Option<nat>, provided: seq<TimeStep>)
    requires CommonRun(m, d, good).Some? && AscendingTimes(provided) && Times(provided) == m.Keys
    ensures provided != []
    ensures provided[0].unixTimeMs <= CommonRun(m, d, good).value.startMs
    ensures CommonRun(m, d, good).value.endMs <= provided[|provided| - 1].unixTimeMs + d
  {
    var n, last := RunEnds(m, d, good);
    OneLess(n, d);
    assert CommonRun(m, d, good).value.startMs in Times(provided) && last in Times(provided);
    ProvidedTimes(provided);
  }

  /** A row of the rectangle is readable exactly when its time is complete. */
  lemma RowIsReadable(ctx: Context, files: seq<TempGpuBoxFile>, hdus: seq<map<nat, nat>>, c: Common, run: ObsTimesAndChans, ti: nat)
    requires Describes(ctx, files, hdus) && ti < |ctx.timesteps|
    requires run.channels == SortedSet(AllChannels(ChannelSets(ctx.gpuboxTimeMap))) && run.channels != []
    requires GetCoarseChanIndices(ctx.coarseChans, run.channels) == Ok(c.coarseChanIndices)
    ensures (forall ci :: ci in c.coarseChanIndices ==> GetFitsFilenameAndBatchAndHdu(ctx, ti, ci).Ok?) <==>
            IsComplete(ctx.timesteps[ti].unixTimeMs, ChannelSets(ctx.gpuboxTimeMap))
  {
    var tm, t := ctx.gpuboxTimeMap, ctx.timesteps[ti].unixTimeMs;
    var m := ChannelSets(tm);
    FoundChannelsAreNamed(ctx.coarseChans, run.channels);
    if IsComplete(t, m) {
      forall ci | ci in c.coarseChanIndices
        ensures GetFitsFilenameAndBatchAndHdu(ctx, ti, ci).Ok?
      {
        LookupSucceeds(ctx, files, hdus, ti, ci);
      }
    }
    if forall ci :: ci in c.coarseChanIndices ==> GetFitsFilenameAndBatchAndHdu(ctx, ti, ci).Ok? {
      forall a | a in run.channels
        ensures t in m && a in m[t]
      {
        var ci := NamedChannelIsFound(ctx.coarseChans, run.channels, a);
        LookupSucceeds(ctx, files, hdus, ti, ci);
      }
      assert run.channels[0] in run.channels;
      assert m[t] == AllChannels(m);
    }
  }

  lemma RunHasChannels(tm: GpuboxTimeMap, d: nat, good: Option<nat>)
    requires NoEmptyTimes(tm) && CommonRun(ChannelSets(tm), d, good).Some?
    ensures var run := CommonRun(ChannelSets(tm), d, good).value;
            run.channels == SortedSet(AllChannels(ChannelSets(tm))) && run.channels != []
  {
    var m := ChannelSets(tm);
    RunStart(m, d, good);
    var start := CommonRun(m, d, good).value.startMs;
    assert tm[start] != map[];
    var a :| a in tm[start];
    assert a in AllChannels(m);
    assert a in SortedSet(AllChannels(m));
  }

  lemma RunTimesteps(ts: seq<TimeStep>, m: ChannelMap, provided: seq<TimeStep>, obs: Observation, c: Common, good: Option<nat>)
    requires IsObsTimeline(ts, provided, obs) && Times(provided) == m.Keys && CommonRun(m, obs.d, good).Some?
    requires c.startUnixMs == CommonRun(m, obs.d, good).value.startMs && c.endUnixMs == CommonRun(m, obs.d, good).value.endMs
    requires c.timestepIndices == GetTimestepIndices(ts, c.startUnixMs, c.endUnixMs)
    ensures forall ti :: ti in c.timestepIndices <==> 0 <= ti < |ts| && InWindow(ts[ti].unixTimeMs, c, provided, obs)
    ensures forall x: nat :: InWindow(x, c, provided, obs) ==> x in Times(ts)
  {
    RunInsideData(m, obs.d, good, provided);
    TimestepsAroundData(ts, provided, obs, c);
  }

  lemma TimestepsAroundData(ts: seq<TimeStep>, provided: seq<TimeStep>, obs: Observation, c: Common)
    requires IsObsTimeline(ts, provided, obs) && AroundData(c, provided, obs.d)
    requires c.timestepIndices == GetTimestepIndices(ts, c.startUnixMs, c.endUnixMs)
    ensures forall ti :: ti in c.timestepIndices <==> 0 <= ti < |ts| && InWindow(ts[ti].unixTimeMs, c, provided, obs)
    ensures forall x: nat :: InWindow(x, c, provided, obs) ==> x in Times(ts)
  {
    WindowTimesteps(ts, provided, obs.metafits[0].unixTimeMs, obs.metafits[|obs.metafits| - 1].unixTimeMs, obs.clock, obs.d, c);
  }

  /** Every cell of an advertised rectangle can be read if and only if every time in its window
      is complete. */
  lemma RectangleIsReadable(ctx: Context, files: seq<TempGpuBoxFile>, hdus: seq<map<nat, nat>>,
                            provided: seq<TimeStep>, obs: Observation, c: Common, good: Option<nat>)
    requires IsContext(ctx, files, hdus, provided, obs) && IsRectangle(ctx, obs, c, good)
    ensures AllReadable(ctx, c) <==> WindowIsComplete(ChannelSets(ctx.gpuboxTimeMap), c, provided, obs)
  {
    var m := ChannelSets(ctx.gpuboxTimeMap);
    if CommonRun(m, obs.d, good).Some? {
      RunIsReadable(ctx, files, hdus, provided, obs, c, good);
    } else {
      EmptyWindow(ctx.timesteps);
    }
  }

  lemma RunIsReadable(ctx: Context, files: seq<TempGpuBoxFile>, hdus: seq<map<nat, nat>>,
                      provided: seq<TimeStep>, obs: Observation, c: Common, good: Option<nat>)
    requires Describes(ctx, files, hdus) && IsObsTimeline(ctx.timesteps, provided, obs)
    requires Times(provided) == ctx.gpuboxTimeMap.Keys
    requires CommonRun(ChannelSets(ctx.gpuboxTimeMap), obs.d, good).Some?
    requires IsCommon(c, CommonRun(ChannelSets(ctx.gpuboxTimeMap), obs.d, good), ctx.timesteps, ctx.coarseChans, obs.clock)
    ensures AllReadable(ctx, c) <==> WindowIsComplete(ChannelSets(ctx.gpuboxTimeMap), c, provided, obs)
  {
    var m := ChannelSets(ctx.gpuboxTimeMap);
    RunHasChannels(ctx.gpuboxTimeMap, obs.d, good);
    RunTimesteps(ctx.timesteps, m, provided, obs, c, good);
    RowsAreReadable(ctx, files, hdus, c, CommonRun(m, obs.d, good).value);
    CompleteByRows(ctx.timesteps, m, provided, obs, c);
  }

  lemma RowsAreReadable(ctx: Context, files: seq<TempGpuBoxFile>, hdus: seq<map<nat, nat>>, c: Common, run: ObsTimesAndChans)
    requires Describes(ctx, files, hdus) && forall ti :: ti in c.timestepIndices ==> 0 <= ti < |ctx.timesteps|
    requires run.channels == SortedSet(AllChannels(ChannelSets(ctx.gpuboxTimeMap))) && run.channels != []
    requires GetCoarseChanIndices(ctx.coarseChans, run.channels) == Ok(c.coarseChanIndices)
    ensures AllReadable(ctx, c) <==>
            forall ti :: ti in c.timestepIndices ==> IsComplete(ctx.timesteps[ti].unixTimeMs, ChannelSets(ctx.gpuboxTimeMap))
  {
    forall ti | ti in c.timestepIndices
      ensures (forall ci :: ci in c.coarseChanIndices ==> GetFitsFilenameAndBatchAndHdu(ctx, ti, ci).Ok?) <==>
              IsComplete(ctx.timesteps[ti].unixTimeMs, ChannelSets(ctx.gpuboxTimeMap))
    {
      RowIsReadable(ctx, files, hdus, c, run, ti);
    }
  }

  lemma CompleteByRows(ts: seq<TimeStep>, m: ChannelMap, provided: seq<TimeStep>, obs: Observation, c: Common)
    requires provided != [] && obs.metafits != [] && obs.d > 0
    requires forall ti :: ti in c.timestepIndices <==> 0 <= ti < |ts| && InWindow(ts[ti].unixTimeMs, c, provided, obs)
    requires forall x: nat :: InWindow(x, c, provided, obs) ==> x in Times(ts)
    ensures WindowIsComplete(m, c, provided, obs) <==> forall ti :: ti in c.timestepIndices ==> IsComplete(ts[ti].unixTimeMs, m)
  {
    WindowByRows(ts, provided, obs.metafits[|obs.metafits| - 1].unixTimeMs, obs.d, c, (x: nat) => IsComplete(x, m));
  }

  lemma EmptyWindow(ts: seq<TimeStep>)
    requires AscendingTimes(ts)
    ensures GetTimestepIndices(ts, 0, 0) == []
  {
    TimestepIndices(ts, 0, 0);
    AscendingUnique(GetTimestepIndices(ts, 0, 0), []);
  }

  // ---------------------------------------------------------------- when the timesteps last as long as the run

  /** The points of a run. */
  ghost function RunPoints(start: nat, d: nat, n: nat): (r: set<int>)
    requires d > 0
    ensures |r| == n
    ensures forall x :: x in r <==> start <= x < Point(start, d, n) && SameGrid(x, start, d)
    decreases n
  {
    PointOnGrid(start, d, n);
    if n == 0 then {}
    else
      PointOnGrid(start, d, n - 1);
      NextPoint(Point(start, d, n - 1), start, d);
      RunPoints(start, d, n - 1) + {Point(start, d, n - 1)}
  }

  lemma PointsOfRun(m: ChannelMap, d: nat, good: Option<nat>, n: nat, x: int)
    requires d > 0 && CommonRun(m, d, good).Some?
    requires CommonRun(m, d, good).value.endMs == CommonRun(m, d, good).value.startMs + n * d
    requires x in RunPoints(CommonRun(m, d, good).value.startMs, d, n)
    ensures x >= 0 && RunTime(m, x, good)
    ensures CommonRun(m, d, good).value.startMs <= x < CommonRun(m, d, good).value.endMs
  {
    var start := CommonRun(m, d, good).value.startMs;
    PointIsLinear(start, d, n);
    Transitive(x, start, start, d);
    var k := Steps(start, x, d);
    RunStep(m, d, good, k, x);
  }

  /** As many indices as times. */
  lemma CountTimes(ts: seq<TimeStep>, indices: seq<nat>) returns (times: set<int>)
    requires AscendingTimes(ts) && Ascending(indices) && forall k :: k in indices ==> k < |ts|
    ensures |times| == |indices|
    ensures forall x :: x in times <==> exists k :: k in indices && ts[k].unixTimeMs == x
  {
    assert forall i :: 0 <= i < |indices| ==> indices[i] in indices;
    var list: seq<int> := seq(|indices|, i requires 0 <= i < |indices| => ts[indices[i]].unixTimeMs);
    DistinctCount(list);
    times := set x | x in list;
    forall x
      ensures x in times <==> exists k :: k in indices && ts[k].unixTimeMs == x
    {
      if k :| k in indices && ts[k].unixTimeMs == x {
        var i :| 0 <= i < |indices| && indices[i] == k;
        assert list[i] == x;
      }
      if x in times {
        var i :| 0 <= i < |list| && list[i] == x;
      }
    }
  }

  lemma EqualMultiples(x: nat, y: nat, d: nat)
    requires d > 0
    ensures x * d == y * d <==> x == y
  {
    ScaleLess(x, y, d);
    ScaleLess(y, x, d);
  }

  /** The times of a window are the points of its run if and only if there are as many. */
  lemma WindowIsRun(times: set<int>, start: nat, end: nat, d: nat, n: nat)
    requires d > 0 && end == start + n * d
    requires forall x :: x in times ==> start <= x < end
    requires RunPoints(start, d, n) <= times
    ensures |times| == n <==> forall x :: x in times ==> SameGrid(x, start, d)
  {
    var points := RunPoints(start, d, n);
    SubsetCount(points, times);
    if forall x :: x in times ==> SameGrid(x, start, d) {
      forall x | x in times
        ensures x in points
      {
        RunPoint(start, end, d, n, x);
      }
    }
    if times == points {
      forall x | x in times
        ensures SameGrid(x, start, d)
      {
        RunPoint(start, end, d, n, x);
      }
    }
  }

  lemma RunPoint(start: nat, end: nat, d: nat, n: nat, x: int)
    requires d > 0 && end == start + n * d
    ensures x in RunPoints(start, d, n) <==> start <= x < end && SameGrid(x, start, d)
  {
    PointIsLinear(start, d, n);
  }

  lemma PointsInWindow(m: ChannelMap, provided: seq<TimeStep>, obs: Observation, c: Common, good: Option<nat>, n: nat, times: set<int>)
    requires provided != [] && obs.metafits != [] && obs.d > 0 && Times(provided) == m.Keys
    requires CommonRun(m, obs.d, good).Some? && c.endUnixMs == c.startUnixMs + n * obs.d
    requires c.startUnixMs == CommonRun(m, obs.d, good).value.startMs && c.endUnixMs == CommonRun(m, obs.d, good).value.endMs
    requires forall x: nat :: InWindow(x, c, provided, obs) ==> x in times
    ensures RunPoints(c.startUnixMs, obs.d, n) <= times
  {
    forall x | x in RunPoints(c.startUnixMs, obs.d, n)
      ensures x in times
    {
      PointsOfRun(m, obs.d, good, n, x);
      assert InWindow(x, c, provided, obs);
    }
  }

  lemma RunFillsWindow(ts: seq<TimeStep>, m: ChannelMap, provided: seq<TimeStep>, obs: Observation, c: Common, good: Option<nat>,
                       chans: seq<CoarseChannel>)
    requires IsObsTimeline(ts, provided, obs) && Times(provided) == m.Keys
    requires CommonRun(m, obs.d, good).Some? && IsCommon(c, CommonRun(m, obs.d, good), ts, chans, obs.clock)
    ensures |c.timestepIndices| * obs.d == c.durationMs <==>
            forall x: nat :: InWindow(x, c, provided, obs) ==> SameGrid(x, c.startUnixMs, obs.d)
    ensures c.endUnixMs == c.startUnixMs + c.durationMs
  {
    var n, last := RunEnds(m, obs.d, good);
    RunTimesteps(ts, m, provided, obs, c, good);
    TimestepIndices(ts, c.startUnixMs, c.endUnixMs);
    var times := CountTimes(ts, c.timestepIndices);
    WindowHasTimes(ts, times, c, provided, obs);
    PointsInWindow(m, provided, obs, c, good, n, times);
    WindowIsRun(times, c.startUnixMs, c.endUnixMs, obs.d, n);
    EqualMultiples(|times|, n, obs.d);
  }

  lemma WindowHasTimes(ts: seq<TimeStep>, times: set<int>, c: Common, provided: seq<TimeStep>, obs: Observation)
    requires provided != [] && obs.metafits != [] && obs.d > 0
    requires forall ti :: ti in c.timestepIndices <==> 0 <= ti < |ts| && InWindow(ts[ti].unixTimeMs, c, provided, obs)
    requires forall x: nat :: InWindow(x, c, provided, obs) ==> x in Times(ts)
    requires forall x :: x in times <==> exists k :: k in c.timestepIndices && ts[k].unixTimeMs == x
    ensures forall x :: x in times <==> x >= 0 && InWindow(x, c, provided, obs)
  {
    forall x: nat | InWindow(x, c, provided, obs)
      ensures x in times
    {
      assert x in Times(ts);
      var k :| 0 <= k < |ts| && ts[k].unixTimeMs == x;
      assert k in c.timestepIndices;
    }
  }

  /** The number of common timesteps times the integration time is the duration if and only if
      all times in the window are on the run's own grid. */
  lemma CommonTimestepsFillDuration(ctx: Context, files: seq<TempGpuBoxFile>, hdus: seq<map<nat, nat>>,
                                    provided: seq<TimeStep>, obs: Observation, c: Common, good: Option<nat>)
    requires IsContext(ctx, files, hdus, provided, obs) && IsRectangle(ctx, obs, c, good)
    ensures |c.timestepIndices| * obs.d == c.durationMs <==>
            forall x: nat :: InWindow(x, c, provided, obs) ==> SameGrid(x, c.startUnixMs, obs.d)
    ensures c.endUnixMs == c.startUnixMs + c.durationMs
  {
    if CommonRun(ChannelSets(ctx.gpuboxTimeMap), obs.d, good).Some? {
      RunFillsWindow(ctx.timesteps, ChannelSets(ctx.gpuboxTimeMap), provided, obs, c, good, ctx.coarseChans);
    } else {
      EmptyWindow(ctx.timesteps);
    }
  }

  // ---------------------------------------------------------------- data on one grid

  /** With all data on one integration grid every time in a window is complete, and on the
      grid of the run. */
  lemma GridWindowIsComplete(m: ChannelMap, provided: seq<TimeStep>, obs: Observation, c: Common, good: Option<nat>, x: nat)
    requires provided != [] && obs.metafits != [] && obs.d > 0 && AscendingTimes(provided)
    requires DataOnGrid(provided, obs.d) && Times(provided) == m.Keys && CommonRun(m, obs.d, good).Some?
    requires c.startUnixMs == CommonRun(m, obs.d, good).value.startMs && c.endUnixMs == CommonRun(m, obs.d, good).value.endMs
    requires InWindow(x, c, provided, obs)
    ensures IsComplete(x, m) && SameGrid(x, c.startUnixMs, obs.d)
  {
    RunStart(m, obs.d, good);
    Transitive(x, provided[0].unixTimeMs, c.startUnixMs, obs.d);
    Transitive(c.startUnixMs, provided[0].unixTimeMs, x, obs.d);
    var k := Steps(c.startUnixMs, x, obs.d);
    RunStep(m, obs.d, good, k, x);
  }

  lemma GridRun(ts: seq<TimeStep>, m: ChannelMap, provided: seq<TimeStep>, obs: Observation, c: Common, good: Option<nat>,
                chans: seq<CoarseChannel>)
    requires IsObsTimeline(ts, provided, obs) && Times(provided) == m.Keys && DataOnGrid(provided, obs.d)
    requires IsCommon(c, CommonRun(m, obs.d, good), ts, chans, obs.clock)
    ensures forall x: nat :: InWindow(x, c, provided, obs) ==> IsComplete(x, m) && SameGrid(x, c.startUnixMs, obs.d)
  {
    forall x: nat | InWindow(x, c, provided, obs)
      ensures IsComplete(x, m) && SameGrid(x, c.startUnixMs, obs.d)
    {
      GridWindowIsComplete(m, provided, obs, c, good, x);
    }
  }

  lemma GridRectangle(ctx: Context, files: seq<TempGpuBoxFile>, hdus: seq<map<nat, nat>>,
                      provided: seq<TimeStep>, obs: Observation, c: Common, good: Option<nat>)
    requires IsContext(ctx, files, hdus, provided, obs) && IsRectangle(ctx, obs, c, good) && DataOnGrid(provided, obs.d)
    ensures WindowIsComplete(ChannelSets(ctx.gpuboxTimeMap), c, provided, obs)
    ensures forall x: nat :: InWindow(x, c, provided, obs) ==> SameGrid(x, c.startUnixMs, obs.d)
  {
    GridRun(ctx.timesteps, ChannelSets(ctx.gpuboxTimeMap), provided, obs, c, good, ctx.coarseChans);
  }

  /** Every cell of an advertised rectangle is readable when the data times are whole
      integrations apart: with unique files, the lookup of each of its timesteps and channels
      succeeds, with a file of that channel that itself maps that time to the HDU index returned. */
  lemma CommonRectangleIsReadable(ctx: Context, files: seq<TempGpuBoxFile>, hdus: seq<map<nat, nat>>,
                                  provided: seq<TimeStep>, obs: Observation, c: Common, good: Option<nat>, ti: nat, ci: nat)
    returns (k: nat)
    requires IsContext(ctx, files, hdus, provided, obs)
    requires DataOnGrid(provided, obs.d) && UniqueFiles(files)
    requires IsRectangle(ctx, obs, c, good) && ti in c.timestepIndices && ci in c.coarseChanIndices
    ensures ti < |ctx.timesteps| && ci < |ctx.coarseChans| && k < |files|
    ensures Has(files, hdus, k, ctx.timesteps[ti].unixTimeMs, ctx.coarseChans[ci].gpuboxNumber)
    ensures GetFitsFilenameAndBatchAndHdu(ctx, ti, ci) ==
            Ok((files[k].filename, files[k].batchNumber, hdus[k][ctx.timesteps[ti].unixTimeMs]))
  {
    GridRectangle(ctx, files, hdus, provided, obs, c, good);
    RectangleIsReadable(ctx, files, hdus, provided, obs, c, good);
    assert GetFitsFilenameAndBatchAndHdu(ctx, ti, ci).Ok?;
    k := LookupAgreesWithFiles(ctx, files, hdus, ti, ci);
  }

  /** ... and the common timesteps last as long as the context says. */
  lemma GridTimestepsFillDuration(ctx: Context, files: seq<TempGpuBoxFile>, hdus: seq<map<nat, nat>>,
                                  provided: seq<TimeStep>, obs: Observation, c: Common, good: Option<nat>)
    requires IsContext(ctx, files, hdus, provided, obs) && IsRectangle(ctx, obs, c, good) && DataOnGrid(provided, obs.d)
    ensures |c.timestepIndices| * obs.d == c.durationMs
  {
    GridRectangle(ctx, files, hdus, provided, obs, c, good);
    CommonTimestepsFillDuration(ctx, files, hdus, provided, obs, c, good);
  }

  // ---------------------------------------------------------------- data off the grid

  /** Times 10 and 12 are full, 11 holds only one of the two channels. */
  ghost predicate HasOddTime(m: ChannelMap) {
    m == map[10 := {1, 2}, 11 := {1}, 12 := {1, 2}]
  }

  lemma OddTimeRun(m: ChannelMap)
    requires HasOddTime(m)
    ensures AllChannels(m) == {1, 2}
    ensures CommonRun(m, 2, None) == Some(ObsTimesAndChans(10, 14, 4, SortedSet({1, 2})))
  {
    assert 1 in m[10] && 2 in m[10] && 2 !in m[11];
    forall t
      ensures t in [10, 12] <==> RunTime(m, t, None)
    {
    }
    FullTimesAre(m, None, [10, 12]);
    RunLengthIsLongestPrefix([10, 12], 2, 2);
  }

  lemma OddCell(ts: seq<TimeStep>, m: ChannelMap, provided: seq<TimeStep>, obs: Observation, c: Common, chans: seq<CoarseChannel>)
    returns (ti: nat, ci: nat)
    requires IsObsTimeline(ts, provided, obs) && Times(provided) == m.Keys && obs.d == 2 && HasOddTime(m)
    requires IsCommon(c, CommonRun(m, 2, None), ts, chans, obs.clock)
    ensures ti in c.timestepIndices && ti < |ts| && ts[ti].unixTimeMs == 11 && InWindow(11, c, provided, obs)
    ensures ci in c.coarseChanIndices && ci < |chans| && chans[ci].gpuboxNumber == 2
    ensures c.startUnixMs == 10 && c.durationMs == 4
  {
    OddTimeRun(m);
    RunTimesteps(ts, m, provided, obs, c, None);
    assert 11 in Times(provided) && InWindow(11, c, provided, obs);
    assert 11 in Times(ts);
    ti :| ti < |ts| && ts[ti].unixTimeMs == 11;
    ci := NamedChannelIsFound(chans, SortedSet({1, 2}), 2);
  }

  /** In any context over such data, read in steps of 2, the common rectangle holds a cell that
      cannot be read, and its timesteps do not add up to the common duration. */
  lemma OffGridCellIsUnreadable(ctx: Context, files: seq<TempGpuBoxFile>, hdus: seq<map<nat, nat>>,
                                provided: seq<TimeStep>, obs: Observation) returns (ti: nat, ci: nat)
    requires IsContext(ctx, files, hdus, provided, obs) && obs.d == 2 && HasOddTime(ChannelSets(ctx.gpuboxTimeMap))
    ensures ti in ctx.common.timestepIndices && ti < |ctx.timesteps| && ctx.timesteps[ti].unixTimeMs == 11
    ensures ci in ctx.common.coarseChanIndices && ci < |ctx.coarseChans| && ctx.coarseChans[ci].gpuboxNumber == 2
    ensures GetFitsFilenameAndBatchAndHdu(ctx, ti, ci) == Err(NoDataForTimeStepCoarseChannel(ti, ci))
    ensures ctx.common.durationMs == 4 && |ctx.common.timestepIndices| * 2 != 4
  {
    ti, ci := OddCell(ctx.timesteps, ChannelSets(ctx.gpuboxTimeMap), provided, obs, ctx.common, ctx.coarseChans);
    OddLookup(ctx, files, hdus, ti, ci);
    CommonTimestepsFillDuration(ctx, files, hdus, provided, obs, ctx.common, None);
    assert !SameGrid(11, 10, 2);
  }

  lemma OddLookup(ctx: Context, files: seq<TempGpuBoxFile>, hdus: seq<map<nat, nat>>, ti: nat, ci: nat)
    requires Describes(ctx, files, hdus) && HasOddTime(ChannelSets(ctx.gpuboxTimeMap))
    requires ti < |ctx.timesteps| && ctx.timesteps[ti].unixTimeMs == 11
    requires ci < |ctx.coarseChans| && ctx.coarseChans[ci].gpuboxNumber == 2
    ensures GetFitsFilenameAndBatchAndHdu(ctx, ti, ci) == Err(NoDataForTimeStepCoarseChannel(ti, ci))
  {
    LookupSucceeds(ctx, files, hdus, ti, ci);
    assert 2 !in ChannelSets(ctx.gpuboxTimeMap)[11];
  }
}
