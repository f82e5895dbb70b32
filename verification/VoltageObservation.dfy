/** Opening an observation's voltage files (src/voltage_context/mod.rs), and what can be read after that. */
module VoltageObservation {
  import opened CoarseChannels
  import opened Collections
  import opened CommonRuns
  import CorrelatorContext
  import GpuboxFiles
  import opened Grid
  import opened Misc
  import opened Rectangles
  import opened TimeSteps
  import opened VoltageContext
  import opened VoltageFiles
  import opened VoltageStreams
  import opened Wrappers

  /** What the metafits says about the observation. */
  datatype Observation = Observation(
    version: VoltageVersion,
    recs: seq<nat>,
    metafits: seq<TimeStep>,
    clock: Clock,
    goodGpsMs: nat,
    numRfInputs: nat,
    numFineChans: nat
  ) {
    /** Seconds covered by a file. */
    function Interval(): (n: nat)
      ensures n > 0
    {
      FileSeconds(version)
    }

    function StepMs(): (d: nat)
      ensures d == Interval() * 1000 > 0
    {
      Interval() * 1000
    }

    function AllChans(): seq<CoarseChannel> {
      SortBy(Candidates<string, string>(version, recs, |recs|, None, None), RecKey)
    }
  }

  /** The context together with what it says about the data provided. */
  datatype View = View(
    ctx: VoltageContext.Context,
    providedTimestepIndices: seq<nat>,
    providedCoarseChanIndices: seq<nat>,
    common: Common,
    commonGood: Common
  )

  // ---------------------------------------------------------------- file sizes

  /** All files can be opened, and are of one size. */
  ghost predicate SizesAgree(files: seq<TempVoltageFile>, fs: FileSystem) {
    && (forall f :: f in files ==> f.filename in fs)
    && (forall f, g :: f in files && g in files ==> |fs[f.filename]| == |fs[g.filename]|)
  }

  method CheckSizes(files: seq<TempVoltageFile>, fs: FileSystem) returns (r: Outcome<nat, VoltageFileError>)
    requires files != []
    ensures !r.Panic?
    ensures r.Ok? <==> SizesAgree(files, fs)
    ensures r.Ok? ==> forall f :: f in files ==> f.filename in fs && |fs[f.filename]| == r.value
    ensures r.Err? ==>
              || (exists f :: f in files && f.filename !in fs && r.error == UnreadableFile(f.filename))
              || (r.error == UnequalFileSizes && exists f, g :: f in files && g in files && f.filename in fs && g.filename in fs
                                                              && |fs[f.filename]| != |fs[g.filename]|)
  {
    var size: Option<nat> := None;
    for k := 0 to |files|
      invariant size.None? <==> k == 0
      invariant forall i :: 0 <= i < k ==> files[i].filename in fs && Some(|fs[files[i].filename]|) == size
    {
      assert files[k] in files && files[0] in files;
      if files[k].filename !in fs {
        return Err(UnreadableFile(files[k].filename));
      }
      if size.Some? && size.value != |fs[files[k].filename]| {
        assert |fs[files[0].filename]| == size.value;
        return Err(UnequalFileSizes);
      }
      size := Some(|fs[files[k].filename]|);
    }
    return Ok(size.value);
  }

  // ---------------------------------------------------------------- the common rectangle

  function RunOrZero(run: Option<ObsTimesAndChans>): ObsTimesAndChans {
    if run.Some? then run.value else ObsTimesAndChans(0, 0, 0, [])
  }

  /** What the context says about a run, or about the lack of one. */
  ghost predicate IsCommon(c: Common, run: Option<ObsTimesAndChans>, ts: seq<TimeStep>, chans: seq<CoarseChannel>, clock: Clock) {
    var o := RunOrZero(run);
    && c.startGpsMs == o.startMs && c.endGpsMs == o.endMs && c.durationMs == o.durationMs
    && ConvertGpstimeToUnixtime(o.startMs, clock.startGpsMs, clock.startUnixMs) == Ok(c.startUnixMs)
    && ConvertGpstimeToUnixtime(o.endMs, clock.startGpsMs, clock.startUnixMs) == Ok(c.endUnixMs)
    && c.timestepIndices == GetTimestepIndices(ts, c.startUnixMs, c.endUnixMs)
    && GetCoarseChanIndices(chans, o.channels) == Ok(c.coarseChanIndices)
  }

  /** The channels of the files in milliseconds of GPS time. */
  ghost function RunMap(timeMap: VoltageFileTimeMap): ChannelMap {
    GpuboxFiles.ChannelSets(InMs(timeMap))
  }

  method FindCommon(timeMap: VoltageFileTimeMap, d: nat, good: Option<nat>, ts: seq<TimeStep>, chans: seq<CoarseChannel>, clock: Clock)
    returns (r: Outcome<Common, VoltageFileError>)
    requires CorrelatorContext.ChannelsKnown(GpuboxFiles.SeenChannels(timeMap), chans)
    ensures !r.Err? && (r.Ok? <==> clock.startGpsMs <= clock.startUnixMs)
    ensures r.Ok? ==> IsCommon(r.value, CommonRun(RunMap(timeMap), d, good), ts, chans, clock)
  {
    var run := DetermineCommonObsTimesAndChans(timeMap, d, good);
    var o := RunOrZero(run);
    var start := ConvertGpstimeToUnixtime(o.startMs, clock.startGpsMs, clock.startUnixMs);
    var end := ConvertGpstimeToUnixtime(o.endMs, clock.startGpsMs, clock.startUnixMs);
    if start.Panic? || end.Panic? { return Panic; }
    ChannelsAreNamed(timeMap, d, good, chans);
    var coarse := GetCoarseChanIndices(chans, o.channels);
    return Ok(Common(GetTimestepIndices(ts, start.value, end.value), coarse.value, start.value, end.value, o.startMs, o.endMs, o.durationMs));
  }

  lemma ChannelsAreNamed(timeMap: VoltageFileTimeMap, d: nat, good: Option<nat>, chans: seq<CoarseChannel>)
    requires CorrelatorContext.ChannelsKnown(GpuboxFiles.SeenChannels(timeMap), chans)
    ensures GetCoarseChanIndices(chans, RunOrZero(CommonRun(RunMap(timeMap), d, good)).channels).Ok?
  {
    var m := RunMap(timeMap);
    SeenInMs(timeMap);
    GpuboxFiles.SeenAreAll(InMs(timeMap));
    if CommonRun(m, d, good).Some? {
      RunStart(m, d, good);
      CorrelatorContext.KnownAreFound(AllChannels(m), chans);
    } else {
      ChannelsAreFound(chans, []);
    }
  }

  // ---------------------------------------------------------------- opening

  /** Seconds in milliseconds. */
  function MsOf(seconds: seq<nat>): (r: seq<nat>)
    ensures |r| == |seconds| && forall i :: 0 <= i < |r| ==> r[i] == seconds[i] * 1000
  {
    seq(|seconds|, i requires 0 <= i < |seconds| => seconds[i] * 1000)
  }

  /** The files of an observation, with their times on both clocks and their time map. */
  ghost predicate AreFiles(files: seq<TempVoltageFile>, provided: seq<TimeStep>, timeMap: VoltageFileTimeMap, obs: Observation) {
    && files != [] && GoodBatches(files, obs.Interval()) && IsTimeMap(timeMap, files, |files|)
    && AreDataTimes(provided, timeMap.Keys, obs.clock)
  }

  /** `ts` is the timeline for the files' times. */
  ghost predicate IsObsTimeline(ts: seq<TimeStep>, provided: seq<TimeStep>, obs: Observation) {
    && !NoTimeline(provided, obs.metafits, obs.clock, obs.StepMs())
    && IsTimeline(ts, provided, obs.metafits[0].unixTimeMs, obs.metafits[|obs.metafits| - 1].unixTimeMs, obs.clock, obs.StepMs())
  }

  /** The indices of the timesteps and channels that there are files for. */
  ghost predicate AreProvided(view: View, timeMap: VoltageFileTimeMap) {
    && TimestepsAt(view.ctx.timesteps, MsOf(SortedSet(timeMap.Keys)), GpsTime) == Ok(view.providedTimestepIndices)
    && GetCoarseChanIndices(view.ctx.coarseChans, SortedSet(GpuboxFiles.SeenChannels(timeMap))) == Ok(view.providedCoarseChanIndices)
  }

  /** The common rectangle, and the one after the quack time. */
  ghost predicate AreCommon(view: View, timeMap: VoltageFileTimeMap, obs: Observation) {
    && IsCommon(view.common, CommonRun(RunMap(timeMap), obs.StepMs(), None), view.ctx.timesteps, view.ctx.coarseChans, obs.clock)
    && IsCommon(view.commonGood, CommonRun(RunMap(timeMap), obs.StepMs(), Some(obs.goodGpsMs)), view.ctx.timesteps,
                view.ctx.coarseChans, obs.clock)
  }

  /** Everything the context promises about the files it was built from. */
  ghost predicate IsView(view: View, files: seq<TempVoltageFile>, provided: seq<TimeStep>, timeMap: VoltageFileTimeMap, obs: Observation) {
    && AreFiles(files, provided, timeMap, obs) && IsObsTimeline(view.ctx.timesteps, provided, obs)
    && IsBatchList(view.ctx.batches, files) && view.ctx.coarseChans == obs.AllChans()
    && view.ctx.geometry == NewGeometry(obs.version, obs.numRfInputs, obs.numFineChans)
    && AreProvided(view, timeMap) && AreCommon(view, timeMap, obs)
  }

  ghost predicate Timeless(provided: seq<TimeStep>, obs: Observation) {
    obs.clock.startUnixMs < obs.clock.startGpsMs || NoTimeline(provided, obs.metafits, obs.clock, obs.StepMs())
  }

  /** Files in good order that no context can be built for: GPS times have no UNIX times; there
      is no timeline; or a channel is not one of the observation's. */
  ghost predicate Unusable(timeMap: VoltageFileTimeMap, provided: seq<TimeStep>, obs: Observation) {
    || Timeless(provided, obs)
    || !CorrelatorContext.ChannelsKnown(GpuboxFiles.SeenChannels(timeMap), obs.AllChans())
  }

  /** Checks and groups the files, and derives the timeline and the common rectangles. */
  method New(files: seq<TempVoltageFile>, fs: FileSystem, obs: Observation)
    returns (r: Outcome<View, VoltageFileError>, ghost provided: seq<TimeStep>, ghost timeMap: VoltageFileTimeMap)
    ensures files != [] && GoodBatches(files, obs.Interval()) && SizesAgree(files, fs) ==>
              && IsTimeMap(timeMap, files, |files|)
              && (obs.clock.startGpsMs <= obs.clock.startUnixMs ==> AreDataTimes(provided, timeMap.Keys, obs.clock))
    ensures r.Ok? <==> files != [] && GoodBatches(files, obs.Interval()) && SizesAgree(files, fs)
                       && !Unusable(timeMap, provided, obs)
    ensures files == [] ==> r == Err(NoVoltageFiles)
    ensures r.Panic? <==>
              || (exists t :: t in GpsTimes(files, |files|) && |FilesOfTime(files, |files|, t)| > 255)
              || (files != [] && GoodBatches(files, obs.Interval()) && SizesAgree(files, fs) && Unusable(timeMap, provided, obs))
    ensures r.Ok? ==> IsView(r.value, files, provided, timeMap, obs)
  {
    provided, timeMap := [], map[];
    if files == [] { return Err(NoVoltageFiles), provided, timeMap; }
    var checked := CheckBatches(files, obs.Interval());
    if checked.Err? { return Err(checked.error), provided, timeMap; }
    if checked.Panic? { return Panic, provided, timeMap; }
    var tm := CreateTimeMap(files);
    timeMap := tm;
    var sizes := CheckSizes(files, fs);
    if sizes.Err? { return Err(sizes.error), provided, timeMap; }
    assert files[0].gpsTimeSeconds in GpsTimes(files, |files|);
    r, provided := Build(files, tm, obs);
  }

  method Build(files: seq<TempVoltageFile>, tm: VoltageFileTimeMap, obs: Observation)
    returns (r: Outcome<View, VoltageFileError>, ghost provided: seq<TimeStep>)
    requires tm.Keys != {}
    ensures obs.clock.startGpsMs <= obs.clock.startUnixMs ==> AreDataTimes(provided, tm.Keys, obs.clock)
    ensures !r.Err? && (r.Ok? <==> !Unusable(tm, provided, obs))
    ensures r.Ok? ==>
              && AreDataTimes(provided, tm.Keys, obs.clock) && IsObsTimeline(r.value.ctx.timesteps, provided, obs)
              && IsBatchList(r.value.ctx.batches, files) && r.value.ctx.coarseChans == obs.AllChans()
              && r.value.ctx.geometry == NewGeometry(obs.version, obs.numRfInputs, obs.numFineChans)
              && AreProvided(r.value, tm) && AreCommon(r.value, tm, obs)
  {
    var ts;
    ts, provided := FindTimeline(tm.Keys, obs);
    if ts.Panic? { return Panic, provided; }
    var chans := FindChannels(obs);
    var batches := ConvertTempVoltageFiles(files);
    var ctx := Context(ts.value, chans, batches, NewGeometry(obs.version, obs.numRfInputs, obs.numFineChans));
    r := Derive(ctx, tm, obs);
  }

  method FindChannels(obs: Observation) returns (chans: seq<CoarseChannel>)
    ensures chans == obs.AllChans()
  {
    var r := PopulateCoarseChannels<string, string>(obs.version, obs.recs, None, None);
    chans := r.value;
  }

  method FindTimeline(gpsSeconds: set<nat>, obs: Observation) returns (r: Outcome<seq<TimeStep>, VoltageFileError>, ghost provided: seq<TimeStep>)
    requires gpsSeconds != {}
    ensures obs.clock.startGpsMs <= obs.clock.startUnixMs ==> AreDataTimes(provided, gpsSeconds, obs.clock)
    ensures !r.Err?
    ensures r.Panic? <==> Timeless(provided, obs)
    ensures r.Ok? ==>
              && obs.clock.startGpsMs <= obs.clock.startUnixMs && IsObsTimeline(r.value, provided, obs)
              && TimestepsAt(r.value, MsOf(SortedSet(gpsSeconds)), GpsTime).Ok?
  {
    var timesteps;
    timesteps, provided := PopulateVoltageTimesteps(gpsSeconds, obs.metafits, obs.clock, obs.StepMs());
    if timesteps.Panic? { return Panic, provided; }
    DataIsOnTimeline(timesteps.value.value, provided, gpsSeconds, obs);
    r := Ok(timesteps.value.value);
  }

  /** What there is data for, and what is common. */
  method Derive(ctx: VoltageContext.Context, tm: VoltageFileTimeMap, obs: Observation) returns (r: Outcome<View, VoltageFileError>)
    requires obs.clock.startGpsMs <= obs.clock.startUnixMs
    requires TimestepsAt(ctx.timesteps, MsOf(SortedSet(tm.Keys)), GpsTime).Ok?
    ensures !r.Err? && (r.Ok? <==> CorrelatorContext.ChannelsKnown(GpuboxFiles.SeenChannels(tm), ctx.coarseChans))
    ensures r.Ok? ==> r.value.ctx == ctx && AreProvided(r.value, tm) && AreCommon(r.value, tm, obs)
  {
    var providedTs := TimestepsAt(ctx.timesteps, MsOf(SortedSet(tm.Keys)), GpsTime);
    CorrelatorContext.KnownAreFound(GpuboxFiles.SeenChannels(tm), ctx.coarseChans);
    var providedChans := GetCoarseChanIndices(ctx.coarseChans, SortedSet(GpuboxFiles.SeenChannels(tm)));
    if providedChans.Panic? { return Panic; }
    var common := FindCommon(tm, obs.StepMs(), None, ctx.timesteps, ctx.coarseChans, obs.clock);
    var commonGood := FindCommon(tm, obs.StepMs(), Some(obs.goodGpsMs), ctx.timesteps, ctx.coarseChans, obs.clock);
    r := Ok(View(ctx, providedTs.value, providedChans.value, common.value, commonGood.value));
  }

  // ---------------------------------------------------------------- both clocks

  /** All timesteps have GPS times that are the UNIX times moved. */
  ghost predicate OnBothClocks(ts: seq<TimeStep>, clock: Clock) {
    && clock.startGpsMs <= clock.startUnixMs
    && forall i :: 0 <= i < |ts| ==> ts[i].unixTimeMs == ts[i].gpsTimeMs + (clock.startUnixMs - clock.startGpsMs)
  }

  /** A timeline that can be built does not reach UNIX time 0, unless the clocks agree. */
  lemma NeverZero(ts: seq<TimeStep>, provided: seq<TimeStep>, gpsSeconds: set<nat>, obs: Observation)
    requires AreDataTimes(provided, gpsSeconds, obs.clock) && IsObsTimeline(ts, provided, obs) && 0 in Times(ts)
    ensures obs.clock.startGpsMs == obs.clock.startUnixMs
  {
    ProvidedTimes(provided);
    if 0 in Times(provided) {
      var t :| t in provided && t.unixTimeMs == 0;
      assert IsDataTime(t, gpsSeconds, obs.clock);
    } else if SameGrid(0, provided[0].unixTimeMs, obs.StepMs()) {
      LeastPoint(0, provided[0].unixTimeMs, obs.StepMs());
    }
  }

  lemma TimelineOnBothClocks(ts: seq<TimeStep>, provided: seq<TimeStep>, gpsSeconds: set<nat>, obs: Observation)
    requires AreDataTimes(provided, gpsSeconds, obs.clock) && IsObsTimeline(ts, provided, obs)
    ensures OnBothClocks(ts, obs.clock)
  {
    forall i | 0 <= i < |ts|
      ensures ts[i].unixTimeMs == ts[i].gpsTimeMs + (obs.clock.startUnixMs - obs.clock.startGpsMs)
    {
      MemberTime(ts, i);
      assert ts[i] in ts;
      if ts[i] in provided {
        assert IsDataTime(ts[i], gpsSeconds, obs.clock);
      } else if ts[i].unixTimeMs == 0 {
        NeverZero(ts, provided, gpsSeconds, obs);
      }
    }
  }

  /** The files' times are on the timeline. */
  lemma FileTimeIsTimestep(ts: seq<TimeStep>, provided: seq<TimeStep>, gpsSeconds: set<nat>, obs: Observation, s: nat) returns (k: nat)
    requires AreDataTimes(provided, gpsSeconds, obs.clock) && IsObsTimeline(ts, provided, obs) && s in gpsSeconds
    ensures k < |ts| && ts[k].gpsTimeMs == s * 1000
  {
    TimelineOnBothClocks(ts, provided, gpsSeconds, obs);
    FileTimeIsProvided(provided, gpsSeconds, obs.clock, s);
    assert UnixOf(s, obs.clock) in Times(ts);
    k := TimestepOf(ts, obs.clock, s);
  }

  lemma FileTimeIsProvided(provided: seq<TimeStep>, gpsSeconds: set<nat>, clock: Clock, s: nat)
    requires AreDataTimes(provided, gpsSeconds, clock) && s in gpsSeconds
    ensures UnixOf(s, clock) in Times(provided)
  {
    SecondIsDataTime(s, gpsSeconds, clock);
    assert TimeStep(UnixOf(s, clock), s * 1000) in provided;
  }

  lemma TimestepOf(ts: seq<TimeStep>, clock: Clock, s: nat) returns (k: nat)
    requires OnBothClocks(ts, clock) && UnixOf(s, clock) in Times(ts)
    ensures k < |ts| && ts[k].gpsTimeMs == s * 1000
  {
    k :| k < |ts| && ts[k].unixTimeMs == UnixOf(s, clock);
  }

  lemma DataIsOnTimeline(ts: seq<TimeStep>, provided: seq<TimeStep>, gpsSeconds: set<nat>, obs: Observation)
    requires AreDataTimes(provided, gpsSeconds, obs.clock) && IsObsTimeline(ts, provided, obs)
    ensures TimestepsAt(ts, MsOf(SortedSet(gpsSeconds)), GpsTime).Ok?
  {
    forall x | x in MsOf(SortedSet(gpsSeconds))
      ensures exists k :: 0 <= k < |ts| && GpsTime(ts[k]) == x
    {
      var s := SecondInMs(SortedSet(gpsSeconds), x);
      var k := FileTimeIsTimestep(ts, provided, gpsSeconds, obs, s);
      assert GpsTime(ts[k]) == x;
    }
    TimestepsAreFound(ts, MsOf(SortedSet(gpsSeconds)), GpsTime);
  }

  lemma SecondInMs(seconds: seq<nat>, u: nat) returns (s: nat)
    requires u in MsOf(seconds)
    ensures s in seconds && u == s * 1000
  {
    var i :| 0 <= i < |seconds| && MsOf(seconds)[i] == u;
    s := seconds[i];
  }

  lemma MsOfSecond(seconds: seq<nat>, s: nat)
    requires s in seconds
    ensures s * 1000 in MsOf(seconds)
  {
    var i :| 0 <= i < |seconds| && seconds[i] == s;
    assert MsOf(seconds)[i] == s * 1000;
  }

  /** There is a file of that time. */
  ghost predicate HasFileAt(files: seq<TempVoltageFile>, u: nat) {
    exists f :: f in files && u == f.gpsTimeSeconds * 1000
  }

  /** The context's provided timesteps are, in order, exactly those that there are files for. */
  lemma ProvidedTimestepsAre(view: View, files: seq<TempVoltageFile>, provided: seq<TimeStep>, timeMap: VoltageFileTimeMap,
                             obs: Observation, k: nat)
    requires timeMap.Keys == GpsTimes(files, |files|) && AreDataTimes(provided, timeMap.Keys, obs.clock)
    requires IsObsTimeline(view.ctx.timesteps, provided, obs) && AreProvided(view, timeMap)
    ensures Ascending(view.providedTimestepIndices)
    ensures k in view.providedTimestepIndices <==>
              k < |view.ctx.timesteps| && HasFileAt(files, view.ctx.timesteps[k].gpsTimeMs)
  {
    GpsTimesAscend(view.ctx.timesteps, provided, timeMap.Keys, obs);
    TimestepsWithFiles(view.ctx.timesteps, files, timeMap.Keys, view.providedTimestepIndices, k);
  }

  lemma TimestepsWithFiles(ts: seq<TimeStep>, files: seq<TempVoltageFile>, gpsSeconds: set<nat>, indices: seq<nat>, k: nat)
    requires forall i, j :: 0 <= i < j < |ts| ==> GpsTime(ts[i]) < GpsTime(ts[j])
    requires gpsSeconds == GpsTimes(files, |files|)
    requires TimestepsAt(ts, MsOf(SortedSet(gpsSeconds)), GpsTime) == Ok(indices)
    ensures Ascending(indices)
    ensures k in indices <==> k < |ts| && HasFileAt(files, ts[k].gpsTimeMs)
  {
    MsAscends(SortedSet(gpsSeconds));
    TimestepsFound(ts, MsOf(SortedSet(gpsSeconds)), GpsTime);
    if k < |ts| {
      InMsOf(files, gpsSeconds, ts[k].gpsTimeMs);
    }
  }

  lemma MsAscends(seconds: seq<nat>)
    requires Ascending(seconds)
    ensures Ascending(MsOf(seconds))
  {
  }

  lemma GpsTimesAscend(ts: seq<TimeStep>, provided: seq<TimeStep>, gpsSeconds: set<nat>, obs: Observation)
    requires AreDataTimes(provided, gpsSeconds, obs.clock) && IsObsTimeline(ts, provided, obs)
    ensures forall i, j :: 0 <= i < j < |ts| ==> GpsTime(ts[i]) < GpsTime(ts[j])
  {
    TimelineOnBothClocks(ts, provided, gpsSeconds, obs);
  }

  lemma InMsOf(files: seq<TempVoltageFile>, gpsSeconds: set<nat>, u: nat)
    requires gpsSeconds == GpsTimes(files, |files|)
    ensures u in MsOf(SortedSet(gpsSeconds)) <==> HasFileAt(files, u)
  {
    if u in MsOf(SortedSet(gpsSeconds)) {
      var s := SecondInMs(SortedSet(gpsSeconds), u);
      var j :| 0 <= j < |files| && files[j].gpsTimeSeconds == s;
      assert files[j] in files;
    }
    if f :| f in files && u == f.gpsTimeSeconds * 1000 {
      var j :| 0 <= j < |files| && files[j] == f;
      MsOfSecond(SortedSet(gpsSeconds), f.gpsTimeSeconds);
    }
  }

  // ---------------------------------------------------------------- when the common rectangle is readable

  /** The rectangle `c` is the common one, or the one after the quack time. */
  ghost predicate IsRectangle(view: View, obs: Observation, c: Common, good: Option<nat>) {
    (c == view.common && good == None) || (c == view.commonGood && good == Some(obs.goodGpsMs))
  }

  lemma NoRun(c: Common, ts: seq<TimeStep>, chans: seq<CoarseChannel>, clock: Clock)
    requires IsCommon(c, None, ts, chans, clock) && AscendingTimes(ts)
    ensures clock.startGpsMs <= clock.startUnixMs
    ensures var offset := clock.startUnixMs - clock.startGpsMs; c == Common([], [], offset, offset, 0, 0, 0)
  {
    TimestepIndices(ts, c.startUnixMs, c.endUnixMs);
    HasMember(c.timestepIndices);
    assert |multiset(c.coarseChanIndices)| == |c.coarseChanIndices|;
  }

  /** When no late enough time has files of every channel the rectangle is empty; its GPS times are 0, and its UNIX times
      are those of GPS time 0. */
  lemma NothingInCommon(view: View, timeMap: VoltageFileTimeMap, obs: Observation, c: Common, good: Option<nat>)
    requires AscendingTimes(view.ctx.timesteps) && AreCommon(view, timeMap, obs) && IsRectangle(view, obs, c, good)
    requires forall t :: t in RunMap(timeMap) && (good.None? || good.value <= t) ==> !IsComplete(t, RunMap(timeMap))
    ensures obs.clock.startGpsMs <= obs.clock.startUnixMs
    ensures var offset := obs.clock.startUnixMs - obs.clock.startGpsMs; c == Common([], [], offset, offset, 0, 0, 0)
  {
    CorrelatorContext.NoCompleteTime(RunMap(timeMap), obs.StepMs(), good);
    RectangleOfRun(view, timeMap, obs, c, good);
    NoRun(c, view.ctx.timesteps, view.ctx.coarseChans, obs.clock);
  }

  /** When there is one the rectangle is the run of `n` complete times from the first of them on, on both clocks, and its
      channels are all channels. */
  lemma RunInCommon(view: View, timeMap: VoltageFileTimeMap, obs: Observation, c: Common, good: Option<nat>, t: nat) returns (n: nat)
    requires AreCommon(view, timeMap, obs) && IsRectangle(view, obs, c, good) && obs.clock.startGpsMs <= obs.clock.startUnixMs
    requires IsComplete(t, RunMap(timeMap)) && (good.None? || good.value <= t)
    ensures c.startGpsMs <= t && IsUnbroken(RunMap(timeMap), obs.StepMs(), good, c.startGpsMs, c.endGpsMs, c.durationMs, n)
    ensures c.startUnixMs - c.startGpsMs == c.endUnixMs - c.endGpsMs == obs.clock.startUnixMs - obs.clock.startGpsMs
    ensures forall k :: k in c.coarseChanIndices ==>
              0 <= k < |view.ctx.coarseChans| && view.ctx.coarseChans[k].gpuboxNumber in AllChannels(RunMap(timeMap))
    ensures |c.coarseChanIndices| == |AllChannels(RunMap(timeMap))|
  {
    var m := RunMap(timeMap);
    RectangleOfRun(view, timeMap, obs, c, good);
    var run;
    n, run := RunOfComplete(m, obs.StepMs(), good, t);
    FoundChannelsAreNamed(view.ctx.coarseChans, run.channels);
  }

  lemma RectangleOfRun(view: View, timeMap: VoltageFileTimeMap, obs: Observation, c: Common, good: Option<nat>)
    requires AreCommon(view, timeMap, obs) && IsRectangle(view, obs, c, good)
    ensures IsCommon(c, CommonRun(RunMap(timeMap), obs.StepMs(), good), view.ctx.timesteps, view.ctx.coarseChans, obs.clock)
  {
  }

  /** Every cell of the rectangle has a file. */
  ghost predicate AllFiled(ctx: VoltageContext.Context, c: Common) {
    forall ti, ci :: ti in c.timestepIndices && ci in c.coarseChanIndices ==> IsFiled(ctx, ti, ci)
  }

  predicate IsFiled(ctx: VoltageContext.Context, ti: int, ci: int) {
    && 0 <= ti < |ctx.timesteps| && 0 <= ci < |ctx.coarseChans|
    && FindFile(ctx.batches, ctx.timesteps[ti].gpsTimeMs, ctx.coarseChans[ci].gpuboxNumber).Some?
  }

  /** The GPS time of a UNIX time in milliseconds. */
  function GpsAt(unix: nat, clock: Clock): int {
    unix - (clock.startUnixMs - clock.startGpsMs)
  }

  ghost predicate CompleteAt(x: nat, m: ChannelMap, clock: Clock) {
    GpsAt(x, clock) >= 0 && IsComplete(GpsAt(x, clock), m)
  }

  /** What a caller can check before reading anything: each data time in the window, and each
      point of the grid there that gaps are filled with, is a time with files of every channel. */
  ghost predicate WindowIsComplete(m: ChannelMap, c: Common, provided: seq<TimeStep>, obs: Observation)
    requires provided != [] && obs.metafits != []
  {
    forall x: nat :: IsInWindow(x, c, provided, obs.metafits[|obs.metafits| - 1].unixTimeMs, obs.StepMs()) ==> CompleteAt(x, m, obs.clock)
  }

  /** A file is found exactly when the run map has the time and channel. */
  lemma FindFileIs(batches: seq<VoltageFileBatch>, files: seq<TempVoltageFile>, timeMap: VoltageFileTimeMap, u: nat, c: nat)
    requires IsTimeMap(timeMap, files, |files|) && IsBatchList(batches, files)
    ensures FindFile(batches, u, c).Some? <==> u in RunMap(timeMap) && c in RunMap(timeMap)[u]
  {
    if u % 1000 == 0 {
      FindFileFinds(batches, files, u / 1000, c);
      assert GpuboxFiles.Lookup(timeMap, u / 1000, c) == FirstFile(files, |files|, u / 1000, c);
      MapHasEntry(timeMap, u / 1000, u, c);
    } else {
      NoOddTime(batches, timeMap, u, c);
    }
  }

  lemma NoOddTime(batches: seq<VoltageFileBatch>, timeMap: VoltageFileTimeMap, u: nat, c: nat)
    requires u % 1000 != 0
    ensures FindFile(batches, u, c).None? && u !in RunMap(timeMap)
  {
    MappedTime(timeMap, u);
    assert forall b: VoltageFileBatch :: b in batches ==> b.gpsTimeSeconds * 1000 != u;
  }

  lemma MapHasEntry(timeMap: VoltageFileTimeMap, t: nat, u: nat, c: nat)
    requires u == t * 1000
    ensures u in RunMap(timeMap) && c in RunMap(timeMap)[u] <==> GpuboxFiles.Lookup(timeMap, t, c).Some?
  {
    if t in timeMap {
      InMsEntry(timeMap, t);
    }
    if u in RunMap(timeMap) {
      var t' := InMsTime(timeMap, u);
    }
  }

  /** The time map and the batches are those of the files. */
  ghost predicate AreMapped(batches: seq<VoltageFileBatch>, m: ChannelMap) {
    forall u: nat, c: nat :: FindFile(batches, u, c).Some? <==> u in m && c in m[u]
  }

  lemma ViewIsMapped(batches: seq<VoltageFileBatch>, files: seq<TempVoltageFile>, timeMap: VoltageFileTimeMap)
    requires IsTimeMap(timeMap, files, |files|) && IsBatchList(batches, files)
    ensures AreMapped(batches, RunMap(timeMap))
  {
    forall u: nat, c: nat
      ensures FindFile(batches, u, c).Some? <==> u in RunMap(timeMap) && c in RunMap(timeMap)[u]
    {
      FindFileIs(batches, files, timeMap, u, c);
    }
  }

  /** A row of the rectangle has all its files exactly when its time is complete. */
  lemma RowIsFiled(ctx: VoltageContext.Context, m: ChannelMap, c: Common, channels: seq<nat>, ti: nat)
    requires ti < |ctx.timesteps| && AreMapped(ctx.batches, m)
    requires channels == SortedSet(AllChannels(m)) && channels != []
    requires GetCoarseChanIndices(ctx.coarseChans, channels) == Ok(c.coarseChanIndices)
    ensures (forall ci :: ci in c.coarseChanIndices ==> IsFiled(ctx, ti, ci)) <==> IsComplete(ctx.timesteps[ti].gpsTimeMs, m)
  {
    FoundChannelsAreNamed(ctx.coarseChans, channels);
    if forall ci :: ci in c.coarseChanIndices ==> IsFiled(ctx, ti, ci) {
      FiledIsComplete(ctx, m, c, channels, ti);
    }
  }

  lemma FiledIsComplete(ctx: VoltageContext.Context, m: ChannelMap, c: Common, channels: seq<nat>, ti: nat)
    requires ti < |ctx.timesteps| && AreMapped(ctx.batches, m)
    requires channels == SortedSet(AllChannels(m)) && channels != []
    requires GetCoarseChanIndices(ctx.coarseChans, channels) == Ok(c.coarseChanIndices)
    requires forall ci :: ci in c.coarseChanIndices ==> IsFiled(ctx, ti, ci)
    ensures IsComplete(ctx.timesteps[ti].gpsTimeMs, m)
  {
    var u := ctx.timesteps[ti].gpsTimeMs;
    forall a | a in channels
      ensures u in m && a in m[u]
    {
      var ci := NamedChannelIsFound(ctx.coarseChans, channels, a);
      assert IsFiled(ctx, ti, ci);
    }
    assert channels[0] in channels;
    assert m[u] == AllChannels(m);
  }

  /** A run lists channels: there are no times without files. */
  lemma RunHasChannels(files: seq<TempVoltageFile>, timeMap: VoltageFileTimeMap, d: nat, good: Option<nat>)
    requires IsTimeMap(timeMap, files, |files|) && CommonRun(RunMap(timeMap), d, good).Some?
    ensures AllChannels(RunMap(timeMap)) != {}
    ensures CommonRun(RunMap(timeMap), d, good).value.channels == SortedSet(AllChannels(RunMap(timeMap)))
  {
    RunStart(RunMap(timeMap), d, good);
    var start := CommonRun(RunMap(timeMap), d, good).value.startMs;
    NoTimeIsEmpty(files, timeMap, start);
    var a :| a in RunMap(timeMap)[start];
    assert a in AllChannels(RunMap(timeMap));
  }

  lemma NoTimeIsEmpty(files: seq<TempVoltageFile>, timeMap: VoltageFileTimeMap, u: nat)
    requires IsTimeMap(timeMap, files, |files|) && u in RunMap(timeMap)
    ensures RunMap(timeMap)[u] != {}
  {
    var t := InMsTime(timeMap, u);
    var k :| 0 <= k < |files| && files[k].gpsTimeSeconds == t;
    var c := files[k].channelIdentifier;
    var j := FirstFileSpec(files, |files|, t, c);
    assert GpuboxFiles.Lookup(timeMap, t, c).Some?;
    MapHasEntry(timeMap, t, u, c);
  }

  /** Both ends of a run are times of files. */
  lemma RunEndsInFiles(timeMap: VoltageFileTimeMap, d: nat, good: Option<nat>) returns (s: nat, t: nat)
    requires CommonRun(RunMap(timeMap), d, good).Some?
    ensures s in timeMap && t in timeMap && s <= t
    ensures CommonRun(RunMap(timeMap), d, good).value.startMs == s * 1000
    ensures CommonRun(RunMap(timeMap), d, good).value.endMs == t * 1000 + d
  {
    var n, last := RunEnds(RunMap(timeMap), d, good);
    OneLess(n, d);
    s := InMsTime(timeMap, CommonRun(RunMap(timeMap), d, good).value.startMs);
    t := InMsTime(timeMap, last);
  }

  lemma BetweenDataTimes(provided: seq<TimeStep>, gpsSeconds: set<nat>, clock: Clock, s: nat, t: nat)
    requires AreDataTimes(provided, gpsSeconds, clock) && s in gpsSeconds && t in gpsSeconds
    ensures provided != [] && provided[0].unixTimeMs <= UnixOf(s, clock) && UnixOf(t, clock) <= provided[|provided| - 1].unixTimeMs
  {
    FileTimeIsProvided(provided, gpsSeconds, clock, s);
    FileTimeIsProvided(provided, gpsSeconds, clock, t);
    ProvidedTimes(provided);
  }

  /** A run's window lies between the first data time and a step after the last. */
  lemma RunAroundData(timeMap: VoltageFileTimeMap, d: nat, good: Option<nat>, provided: seq<TimeStep>, clock: Clock, c: Common)
    requires AreDataTimes(provided, timeMap.Keys, clock) && CommonRun(RunMap(timeMap), d, good).Some? && d > 0
    requires c.startUnixMs == CommonRun(RunMap(timeMap), d, good).value.startMs + (clock.startUnixMs - clock.startGpsMs)
    requires c.endUnixMs == CommonRun(RunMap(timeMap), d, good).value.endMs + (clock.startUnixMs - clock.startGpsMs)
    ensures AroundData(c, provided, d)
  {
    var s, t := RunEndsInFiles(timeMap, d, good);
    BetweenDataTimes(provided, timeMap.Keys, clock, s, t);
  }

  /** What the rows of a rectangle are, and what its window. */
  ghost predicate IsLaidOut(ts: seq<TimeStep>, provided: seq<TimeStep>, c: Common, obs: Observation) {
    && provided != [] && obs.metafits != [] && OnBothClocks(ts, obs.clock)
    && (forall ti :: ti in c.timestepIndices <==>
          0 <= ti < |ts| && IsInWindow(ts[ti].unixTimeMs, c, provided, obs.metafits[|obs.metafits| - 1].unixTimeMs, obs.StepMs()))
    && (forall x: nat :: IsInWindow(x, c, provided, obs.metafits[|obs.metafits| - 1].unixTimeMs, obs.StepMs()) ==> x in Times(ts))
  }

  lemma RunIsLaidOut(ts: seq<TimeStep>, gpsSeconds: set<nat>, provided: seq<TimeStep>, obs: Observation, c: Common)
    requires AreDataTimes(provided, gpsSeconds, obs.clock) && IsObsTimeline(ts, provided, obs)
    requires AroundData(c, provided, obs.StepMs()) && c.timestepIndices == GetTimestepIndices(ts, c.startUnixMs, c.endUnixMs)
    ensures IsLaidOut(ts, provided, c, obs)
  {
    TimelineOnBothClocks(ts, provided, gpsSeconds, obs);
    WindowTimesteps(ts, provided, obs.metafits[0].unixTimeMs, obs.metafits[|obs.metafits| - 1].unixTimeMs, obs.clock, obs.StepMs(), c);
  }

  lemma CompleteByRows(ts: seq<TimeStep>, m: ChannelMap, provided: seq<TimeStep>, obs: Observation, c: Common)
    requires IsLaidOut(ts, provided, c, obs)
    ensures WindowIsComplete(m, c, provided, obs) <==> forall ti :: ti in c.timestepIndices ==> IsComplete(ts[ti].gpsTimeMs, m)
  {
    var p := (x: nat) => CompleteAt(x, m, obs.clock);
    WindowByRows(ts, provided, obs.metafits[|obs.metafits| - 1].unixTimeMs, obs.StepMs(), c, p);
    forall ti | ti in c.timestepIndices
      ensures p(ts[ti].unixTimeMs) <==> IsComplete(ts[ti].gpsTimeMs, m)
    {
      assert GpsAt(ts[ti].unixTimeMs, obs.clock) == ts[ti].gpsTimeMs;
    }
  }

  lemma RowsAreFiled(ctx: VoltageContext.Context, m: ChannelMap, c: Common, channels: seq<nat>)
    requires AreMapped(ctx.batches, m) && forall ti :: ti in c.timestepIndices ==> 0 <= ti < |ctx.timesteps|
    requires channels == SortedSet(AllChannels(m)) && channels != []
    requires GetCoarseChanIndices(ctx.coarseChans, channels) == Ok(c.coarseChanIndices)
    ensures AllFiled(ctx, c) <==> forall ti :: ti in c.timestepIndices ==> IsComplete(ctx.timesteps[ti].gpsTimeMs, m)
  {
    forall ti | ti in c.timestepIndices
      ensures (forall ci :: ci in c.coarseChanIndices ==> IsFiled(ctx, ti, ci)) <==> IsComplete(ctx.timesteps[ti].gpsTimeMs, m)
    {
      RowIsFiled(ctx, m, c, channels, ti);
    }
  }

  lemma LaidOutIsFiled(ctx: VoltageContext.Context, m: ChannelMap, provided: seq<TimeStep>, obs: Observation, c: Common)
    requires AreMapped(ctx.batches, m) && IsLaidOut(ctx.timesteps, provided, c, obs) && AllChannels(m) != {}
    requires GetCoarseChanIndices(ctx.coarseChans, SortedSet(AllChannels(m))) == Ok(c.coarseChanIndices)
    ensures AllFiled(ctx, c) <==> WindowIsComplete(m, c, provided, obs)
  {
    var a :| a in AllChannels(m);
    assert a in SortedSet(AllChannels(m));
    RowsAreFiled(ctx, m, c, SortedSet(AllChannels(m)));
    CompleteByRows(ctx.timesteps, m, provided, obs, c);
  }

  lemma RunIsFiled(ctx: VoltageContext.Context, files: seq<TempVoltageFile>, provided: seq<TimeStep>, timeMap: VoltageFileTimeMap,
                   obs: Observation, c: Common, good: Option<nat>)
    requires IsTimeMap(timeMap, files, |files|) && IsBatchList(ctx.batches, files)
    requires AreDataTimes(provided, timeMap.Keys, obs.clock) && IsObsTimeline(ctx.timesteps, provided, obs)
    requires CommonRun(RunMap(timeMap), obs.StepMs(), good).Some?
    requires IsCommon(c, CommonRun(RunMap(timeMap), obs.StepMs(), good), ctx.timesteps, ctx.coarseChans, obs.clock)
    ensures AllFiled(ctx, c) <==> WindowIsComplete(RunMap(timeMap), c, provided, obs)
  {
    RunAroundData(timeMap, obs.StepMs(), good, provided, obs.clock, c);
    RunIsLaidOut(ctx.timesteps, timeMap.Keys, provided, obs, c);
    ViewIsMapped(ctx.batches, files, timeMap);
    RunHasChannels(files, timeMap, obs.StepMs(), good);
    LaidOutIsFiled(ctx, RunMap(timeMap), provided, obs, c);
  }

  lemma EmptyWindow(ts: seq<TimeStep>, x: nat)
    requires AscendingTimes(ts)
    ensures GetTimestepIndices(ts, x, x) == []
  {
    TimestepIndices(ts, x, x);
    AscendingUnique(GetTimestepIndices(ts, x, x), []);
  }

  /** Every cell of an advertised rectangle has a file if and only if every time in its window
      is complete. */
  lemma RectangleIsFiled(view: View, files: seq<TempVoltageFile>, provided: seq<TimeStep>, timeMap: VoltageFileTimeMap, obs: Observation,
                         c: Common, good: Option<nat>)
    requires IsView(view, files, provided, timeMap, obs) && IsRectangle(view, obs, c, good)
    ensures AllFiled(view.ctx, c) <==> WindowIsComplete(RunMap(timeMap), c, provided, obs)
  {
    if CommonRun(RunMap(timeMap), obs.StepMs(), good).Some? {
      RunIsFiled(view.ctx, files, provided, timeMap, obs, c, good);
    } else {
      EmptyWindow(view.ctx.timesteps, c.startUnixMs);
    }
  }

  // ---------------------------------------------------------------- when the files are on one grid

  /** GPS time 0 does not hide a gap: the first time is not 0, or what follows it is in step. */
  predicate NoHiddenGap(times: seq<nat>, interval: nat)
    requires interval > 0
  {
    |times| <= 1 || times[0] != 0 || times[1] % interval == 0
  }

  ghost predicate OnOneGrid(times: seq<nat>, interval: nat)
    requires interval > 0
  {
    forall i, j :: 0 <= i < |times| && 0 <= j < |times| ==> SameGrid(times[i], times[j], interval)
  }

  /** Accepted times are on one grid exactly when no gap is hidden. */
  lemma TimesOnGrid(times: seq<nat>, interval: nat)
    requires interval > 0 && Progression(CheckedTimes(times), interval)
    ensures OnOneGrid(times, interval) <==> NoHiddenGap(times, interval)
  {
    if |times| > 1 && times[0] == 0 {
      Congruence(times[1], 0, interval);
      Congruence(0, times[1], interval);
    }
    if NoHiddenGap(times, interval) && times != [] {
      forall i, j | 0 <= i < |times| && 0 <= j < |times|
        ensures SameGrid(times[i], times[j], interval)
      {
        OnGridOfFirst(times, interval, i);
        OnGridOfFirst(times, interval, j);
        Transitive(times[j], times[0], times[0], interval);
        Transitive(times[i], times[0], times[j], interval);
      }
    }
  }

  lemma OnGridOfFirst(times: seq<nat>, interval: nat, i: nat)
    requires interval > 0 && Progression(CheckedTimes(times), interval) && i < |times| && NoHiddenGap(times, interval)
    ensures SameGrid(times[i], times[0], interval)
  {
    if times[0] != 0 {
      PointOnGrid(times[0], interval, i);
    } else if i > 0 {
      assert CheckedTimes(times)[0] == times[1] && CheckedTimes(times)[i - 1] == times[i];
      PointOnGrid(times[1], interval, i - 1);
      Congruence(times[1], 0, interval);
      Transitive(times[i], times[1], 0, interval);
    }
  }

  lemma {:induction false} ScaledGrid(x: int, y: int, d: nat)
    requires d > 0
    ensures SameGrid(x, y, d) <==> SameGrid(x * 1000, y * 1000, d * 1000)
    decreases if x < y then y - x else x - y
  {
    if x + d <= y {
      ScaledGrid(x + d, y, d);
    } else if y + d <= x {
      ScaledGrid(x, y + d, d);
    }
  }

  lemma {:induction false} ShiftedGrid(x: int, y: int, d: nat, offset: int)
    requires d > 0
    ensures SameGrid(x, y, d) <==> SameGrid(x + offset, y + offset, d)
    decreases if x < y then y - x else x - y
  {
    if x + d <= y {
      ShiftedGrid(x + d, y, d, offset);
    } else if y + d <= x {
      ShiftedGrid(x, y + d, d, offset);
    }
  }

  /** In a context, data on one grid of seconds is on one grid of UNIX milliseconds. */
  lemma DataIsOnGrid(provided: seq<TimeStep>, gpsSeconds: set<nat>, clock: Clock, interval: nat, d: nat)
    requires AreDataTimes(provided, gpsSeconds, clock) && provided != [] && interval > 0 && d == interval * 1000
    requires OnOneGrid(SortedSet(gpsSeconds), interval)
    ensures DataOnGrid(provided, d)
  {
    var s0 := SecondOf(provided, gpsSeconds, clock, provided[0]);
    forall x: nat | x in Times(provided)
      ensures SameGrid(x, provided[0].unixTimeMs, d)
    {
      var t :| t in provided && t.unixTimeMs == x;
      var s := SecondOf(provided, gpsSeconds, clock, t);
      UnixOnGrid(SortedSet(gpsSeconds), interval, d, clock, s, s0);
    }
  }

  lemma UnixOnGrid(times: seq<nat>, interval: nat, d: nat, clock: Clock, s: nat, t: nat)
    requires interval > 0 && d == interval * 1000 && clock.startGpsMs <= clock.startUnixMs
    requires OnOneGrid(times, interval) && s in times && t in times
    ensures SameGrid(UnixOf(s, clock), UnixOf(t, clock), d)
  {
    MembersOnGrid(times, interval, s, t);
    ScaledGrid(s, t, interval);
    ShiftedGrid(s * 1000, t * 1000, d, clock.startUnixMs - clock.startGpsMs);
  }

  lemma SecondOf(provided: seq<TimeStep>, gpsSeconds: set<nat>, clock: Clock, t: TimeStep) returns (s: nat)
    requires AreDataTimes(provided, gpsSeconds, clock) && t in provided
    ensures s in gpsSeconds && t == TimeStep(UnixOf(s, clock), s * 1000)
  {
    assert IsDataTime(t, gpsSeconds, clock);
    s := t.gpsTimeMs / 1000;
  }

  lemma MembersOnGrid(times: seq<nat>, interval: nat, s: nat, t: nat)
    requires interval > 0 && OnOneGrid(times, interval) && s in times && t in times
    ensures SameGrid(s, t, interval)
  {
    var i :| 0 <= i < |times| && times[i] == s;
    var j :| 0 <= j < |times| && times[j] == t;
  }

  // ---------------------------------------------------------------- when the timesteps are whole files

  lemma {:induction false} WholePoint(first: nat, d: nat, k: nat)
    requires d % 1000 == 0 && Point(first, d, k) % 1000 == 0
    ensures first % 1000 == 0
  {
    if k > 0 {
      WholePoint(first, d, k - 1);
    }
  }

  /** On one grid, the timeline is whole seconds, one file length apart. */
  lemma GridTimeline(ts: seq<TimeStep>, provided: seq<TimeStep>, gpsSeconds: set<nat>, obs: Observation, i: nat)
    requires AreDataTimes(provided, gpsSeconds, obs.clock) && IsObsTimeline(ts, provided, obs) && DataOnGrid(provided, obs.StepMs())
    requires i < |ts|
    ensures ts[i].gpsTimeMs == Point(ts[0].gpsTimeMs, obs.StepMs(), i) && ts[0].gpsTimeMs % 1000 == 0
  {
    TimelineOnBothClocks(ts, provided, gpsSeconds, obs);
    TimelineOnGrid(ts, provided, obs.metafits[0].unixTimeMs, obs.metafits[|obs.metafits| - 1].unixTimeMs, obs.clock, obs.StepMs(), i);
    var s := SecondOf(provided, gpsSeconds, obs.clock, provided[0]);
    var k := FileTimeIsTimestep(ts, provided, gpsSeconds, obs, s);
    TimelineOnGrid(ts, provided, obs.metafits[0].unixTimeMs, obs.metafits[|obs.metafits| - 1].unixTimeMs, obs.clock, obs.StepMs(), k);
    WholePoint(ts[0].gpsTimeMs, obs.StepMs(), k);
  }

  lemma ValidOnGrid(ctx: VoltageContext.Context, provided: seq<TimeStep>, gpsSeconds: set<nat>, obs: Observation)
    requires AreDataTimes(provided, gpsSeconds, obs.clock) && IsObsTimeline(ctx.timesteps, provided, obs)
    requires ctx.geometry == NewGeometry(obs.version, obs.numRfInputs, obs.numFineChans)
    requires OnOneGrid(SortedSet(gpsSeconds), obs.Interval())
    ensures ctx.Valid()
  {
    GeometryIsValid(obs.version, obs.numRfInputs, obs.numFineChans);
    DataIsOnGrid(provided, gpsSeconds, obs.clock, obs.Interval(), obs.StepMs());
    var s := SecondOf(provided, gpsSeconds, obs.clock, provided[0]);
    var k := FileTimeIsTimestep(ctx.timesteps, provided, gpsSeconds, obs, s);
    forall i | 0 <= i < |ctx.timesteps|
      ensures ctx.timesteps[i].gpsTimeMs == Point(ctx.timesteps[0].gpsTimeMs, obs.StepMs(), i) && ctx.timesteps[0].gpsTimeMs % 1000 == 0
    {
      GridTimeline(ctx.timesteps, provided, gpsSeconds, obs, i);
    }
    assert ctx.timesteps[0].gpsTimeMs % 1000 == 0;
  }

  lemma GridOfValid(ctx: VoltageContext.Context, provided: seq<TimeStep>, gpsSeconds: set<nat>, obs: Observation)
    requires AreDataTimes(provided, gpsSeconds, obs.clock) && IsObsTimeline(ctx.timesteps, provided, obs)
    requires ctx.geometry == NewGeometry(obs.version, obs.numRfInputs, obs.numFineChans) && ctx.Valid()
    ensures OnOneGrid(SortedSet(gpsSeconds), obs.Interval())
  {
    var times := SortedSet(gpsSeconds);
    forall i, j | 0 <= i < |times| && 0 <= j < |times|
      ensures SameGrid(times[i], times[j], obs.Interval())
    {
      assert times[i] in times && times[j] in times;
      var k := FileTimeIsTimestep(ctx.timesteps, provided, gpsSeconds, obs, times[i]);
      var l := FileTimeIsTimestep(ctx.timesteps, provided, gpsSeconds, obs, times[j]);
      PointsOnGrid(ctx.timesteps[0].gpsTimeMs, obs.StepMs(), k, l);
      ScaledGrid(times[i], times[j], obs.Interval());
    }
  }

  lemma PointsOnGrid(first: nat, d: nat, k: nat, l: nat)
    requires d > 0
    ensures SameGrid(Point(first, d, k), Point(first, d, l), d)
  {
    PointOnGrid(first, d, k);
    PointOnGrid(first, d, l);
    Transitive(Point(first, d, l), first, first, d);
    Transitive(Point(first, d, k), first, Point(first, d, l), d);
  }

  lemma FilesOnGrid(files: seq<TempVoltageFile>, interval: nat)
    requires interval > 0 && GoodBatches(files, interval)
    ensures OnOneGrid(SortedSet(GpsTimes(files, |files|)), interval) <==> NoHiddenGap(SortedSet(GpsTimes(files, |files|)), interval)
  {
    GoodBatchesAre(files, interval);
    TimesOnGrid(SortedSet(GpsTimes(files, |files|)), interval);
  }

  /** The timesteps of a context are whole seconds, one file length apart, if and only if GPS
      time 0 does not hide a gap. */
  lemma ViewIsValid(view: View, files: seq<TempVoltageFile>, provided: seq<TimeStep>, timeMap: VoltageFileTimeMap, obs: Observation)
    requires IsView(view, files, provided, timeMap, obs)
    ensures view.ctx.Valid() <==> NoHiddenGap(SortedSet(timeMap.Keys), obs.Interval())
  {
    assert timeMap.Keys == GpsTimes(files, |files|);
    FilesOnGrid(files, obs.Interval());
    if NoHiddenGap(SortedSet(timeMap.Keys), obs.Interval()) {
      ValidOnGrid(view.ctx, provided, timeMap.Keys, obs);
    }
    if view.ctx.Valid() {
      GridOfValid(view.ctx, provided, timeMap.Keys, obs);
    }
  }

  // ---------------------------------------------------------------- the common rectangle, on one grid

  /** With all data on one grid every time in the window of a run is complete. */
  lemma GridTimeIsComplete(timeMap: VoltageFileTimeMap, provided: seq<TimeStep>, obs: Observation, c: Common, good: Option<nat>, x: nat)
    requires AreDataTimes(provided, timeMap.Keys, obs.clock) && provided != [] && obs.metafits != [] && DataOnGrid(provided, obs.StepMs())
    requires CommonRun(RunMap(timeMap), obs.StepMs(), good).Some?
    requires c.startUnixMs == CommonRun(RunMap(timeMap), obs.StepMs(), good).value.startMs + (obs.clock.startUnixMs - obs.clock.startGpsMs)
    requires c.endUnixMs == CommonRun(RunMap(timeMap), obs.StepMs(), good).value.endMs + (obs.clock.startUnixMs - obs.clock.startGpsMs)
    requires IsInWindow(x, c, provided, obs.metafits[|obs.metafits| - 1].unixTimeMs, obs.StepMs())
    ensures CompleteAt(x, RunMap(timeMap), obs.clock)
  {
    var s, t := RunEndsInFiles(timeMap, obs.StepMs(), good);
    FileTimeIsProvided(provided, timeMap.Keys, obs.clock, s);
    assert c.startUnixMs == UnixOf(s, obs.clock);
    var k := StepsBetween(c.startUnixMs, x, provided[0].unixTimeMs, obs.StepMs());
    assert GpsAt(x, obs.clock) == CommonRun(RunMap(timeMap), obs.StepMs(), good).value.startMs + k * obs.StepMs();
    RunStep(RunMap(timeMap), obs.StepMs(), good, k, GpsAt(x, obs.clock));
  }

  lemma StepsBetween(x: nat, y: nat, a: nat, d: nat) returns (k: nat)
    requires d > 0 && x <= y && SameGrid(x, a, d) && SameGrid(y, a, d)
    ensures y == x + k * d
  {
    Transitive(y, a, x, d);
    Transitive(x, a, y, d);
    k := Steps(x, y, d);
  }

  lemma GridWindowIsComplete(timeMap: VoltageFileTimeMap, provided: seq<TimeStep>, obs: Observation, ts: seq<TimeStep>,
                             chans: seq<CoarseChannel>, c: Common, good: Option<nat>)
    requires AreDataTimes(provided, timeMap.Keys, obs.clock) && provided != [] && obs.metafits != [] && DataOnGrid(provided, obs.StepMs())
    requires IsCommon(c, CommonRun(RunMap(timeMap), obs.StepMs(), good), ts, chans, obs.clock)
    ensures WindowIsComplete(RunMap(timeMap), c, provided, obs)
  {
    forall x: nat | IsInWindow(x, c, provided, obs.metafits[|obs.metafits| - 1].unixTimeMs, obs.StepMs())
      ensures CompleteAt(x, RunMap(timeMap), obs.clock)
    {
      GridTimeIsComplete(timeMap, provided, obs, c, good, x);
    }
  }

  /** Every cell has a file, and it is one of that time and channel. */
  ghost predicate AllOfFiles(ctx: VoltageContext.Context, files: seq<TempVoltageFile>, c: Common) {
    forall ti, ci :: ti in c.timestepIndices && ci in c.coarseChanIndices ==> IsFiled(ctx, ti, ci) && IsFileOf(ctx, files, ti, ci)
  }

  /** Unless GPS time 0 hides a gap, every cell of an advertised rectangle has a file, and it is
      one of that time and channel. */
  lemma CommonCellsHaveFiles(view: View, files: seq<TempVoltageFile>, provided: seq<TimeStep>, timeMap: VoltageFileTimeMap,
                             obs: Observation, c: Common, good: Option<nat>)
    requires IsView(view, files, provided, timeMap, obs) && NoHiddenGap(SortedSet(timeMap.Keys), obs.Interval())
    requires IsRectangle(view, obs, c, good)
    ensures AllOfFiles(view.ctx, files, c)
  {
    RectangleIsFiled(view, files, provided, timeMap, obs, c, good);
    RectangleIsComplete(view, files, provided, timeMap, obs, c, good);
    FiledAreFiles(view.ctx, files, c);
  }

  lemma RectangleIsComplete(view: View, files: seq<TempVoltageFile>, provided: seq<TimeStep>, timeMap: VoltageFileTimeMap,
                            obs: Observation, c: Common, good: Option<nat>)
    requires IsView(view, files, provided, timeMap, obs) && NoHiddenGap(SortedSet(timeMap.Keys), obs.Interval())
    requires IsRectangle(view, obs, c, good)
    ensures WindowIsComplete(RunMap(timeMap), c, provided, obs)
  {
    assert timeMap.Keys == GpsTimes(files, |files|);
    FilesOnGrid(files, obs.Interval());
    DataIsOnGrid(provided, timeMap.Keys, obs.clock, obs.Interval(), obs.StepMs());
    GridWindowIsComplete(timeMap, provided, obs, view.ctx.timesteps, view.ctx.coarseChans, c, good);
  }

  lemma FiledAreFiles(ctx: VoltageContext.Context, files: seq<TempVoltageFile>, c: Common)
    requires IsBatchList(ctx.batches, files) && AllFiled(ctx, c)
    ensures AllOfFiles(ctx, files, c)
  {
    forall ti, ci | ti in c.timestepIndices && ci in c.coarseChanIndices
      ensures IsFiled(ctx, ti, ci) && IsFileOf(ctx, files, ti, ci)
    {
      assert IsFiled(ctx, ti, ci);
      FiledIsFile(ctx, files, ti, ci);
    }
  }

  /** The file found for a timestep and channel is one of the files, of that time and channel. */
  predicate IsFileOf(ctx: VoltageContext.Context, files: seq<TempVoltageFile>, ti: int, ci: int)
    requires IsFiled(ctx, ti, ci)
  {
    var u, c := ctx.timesteps[ti].gpsTimeMs, ctx.coarseChans[ci].gpuboxNumber;
    u % 1000 == 0 && TempVoltageFile(FindFile(ctx.batches, u, c).value, c, u / 1000) in files
  }

  lemma FiledIsFile(ctx: VoltageContext.Context, files: seq<TempVoltageFile>, ti: int, ci: int)
    requires IsBatchList(ctx.batches, files) && IsFiled(ctx, ti, ci)
    ensures IsFileOf(ctx, files, ti, ci)
  {
    var u, c := ctx.timesteps[ti].gpsTimeMs, ctx.coarseChans[ci].gpuboxNumber;
    if u % 1000 != 0 {
      NoOddTime(ctx.batches, map[], u, c);
    }
    FoundIsFile(ctx.batches, files, u, u / 1000, c);
  }

  lemma FoundIsFile(batches: seq<VoltageFileBatch>, files: seq<TempVoltageFile>, u: nat, t: nat, c: nat)
    requires IsBatchList(batches, files) && u == t * 1000 && FindFile(batches, u, c).Some?
    ensures TempVoltageFile(FindFile(batches, u, c).value, c, t) in files
  {
    FindFileFinds(batches, files, t, c);
  }

  // ---------------------------------------------------------------- common seconds

  /** The files have the size that the read functions expect. */
  ghost predicate SizesFit(files: seq<TempVoltageFile>, fs: FileSystem, geometry: Geometry) {
    forall f :: f in files ==> f.filename in fs && |fs[f.filename]| == geometry.FileSize()
  }

  lemma FiledHasData(ctx: VoltageContext.Context, files: seq<TempVoltageFile>, fs: FileSystem, ti: nat, ci: nat)
    requires SizesFit(files, fs, ctx.geometry) && IsFiled(ctx, ti, ci) && IsFileOf(ctx, files, ti, ci)
    ensures Available(ctx, fs, ci, ti)
  {
    var u, c := ctx.timesteps[ti].gpsTimeMs, ctx.coarseChans[ci].gpuboxNumber;
    assert FindFile(ctx.batches, u, c).value in fs;
  }

  /** The seconds between two timesteps, the last one's included, are in the files from one to the other. */
  lemma FilesOfWindow(ctx: VoltageContext.Context, k: nat, l: nat, start: nat, count: nat)
    requires ctx.Valid() && k <= l < |ctx.timesteps| && count >= 1
    requires ctx.timesteps[k].gpsTimeMs <= start * 1000
    requires (start + count) * 1000 <= ctx.timesteps[l].gpsTimeMs + ctx.geometry.durationMs
    ensures FirstSecond(ctx) <= start && start + count <= EndSecond(ctx)
    ensures k <= FileOf(ctx, start) && FileOf(ctx, start + count - 1) <= l
  {
    var first := SecondsOfTimestep(ctx, k);
    var last := SecondsOfTimestep(ctx, l);
    FilesAscend(ctx, first, start);
    FilesAscend(ctx, start + count - 1, last + ctx.geometry.Seconds() - 1);
  }

  /** A run of a context starts and ends at timesteps, and those between are timesteps of the rectangle. */
  lemma RunTimesteps(ctx: VoltageContext.Context, timeMap: VoltageFileTimeMap, provided: seq<TimeStep>, obs: Observation, c: Common,
                     good: Option<nat>) returns (k: nat, l: nat)
    requires AreDataTimes(provided, timeMap.Keys, obs.clock) && IsObsTimeline(ctx.timesteps, provided, obs)
    requires CommonRun(RunMap(timeMap), obs.StepMs(), good).Some?
    requires IsCommon(c, CommonRun(RunMap(timeMap), obs.StepMs(), good), ctx.timesteps, ctx.coarseChans, obs.clock)
    ensures k <= l && k < |ctx.timesteps| && ctx.timesteps[k].gpsTimeMs == c.startGpsMs
    ensures l < |ctx.timesteps| && ctx.timesteps[l].gpsTimeMs + obs.StepMs() == c.endGpsMs
  {
    var s, t := RunEndsInFiles(timeMap, obs.StepMs(), good);
    k := FileTimeIsTimestep(ctx.timesteps, provided, timeMap.Keys, obs, s);
    l := FileTimeIsTimestep(ctx.timesteps, provided, timeMap.Keys, obs, t);
    GpsTimesAscend(ctx.timesteps, provided, timeMap.Keys, obs);
    InOrder(ctx.timesteps, k, l);
  }

  lemma InOrder(ts: seq<TimeStep>, k: nat, l: nat)
    requires forall i, j :: 0 <= i < j < |ts| ==> GpsTime(ts[i]) < GpsTime(ts[j])
    requires k < |ts| && l < |ts| && ts[k].gpsTimeMs <= ts[l].gpsTimeMs
    ensures k <= l
  {
    assert GpsTime(ts[k]) <= GpsTime(ts[l]);
  }

  lemma BetweenIsCommon(ts: seq<TimeStep>, c: Common, clock: Clock, d: nat, k: nat, l: nat, f: nat)
    requires AscendingTimes(ts) && OnBothClocks(ts, clock) && d > 0 && k <= f <= l < |ts|
    requires ts[k].gpsTimeMs == c.startGpsMs && ts[l].gpsTimeMs + d == c.endGpsMs
    requires c.startUnixMs == c.startGpsMs + (clock.startUnixMs - clock.startGpsMs)
    requires c.endUnixMs == c.endGpsMs + (clock.startUnixMs - clock.startGpsMs)
    requires c.timestepIndices == GetTimestepIndices(ts, c.startUnixMs, c.endUnixMs)
    ensures f in c.timestepIndices
  {
    TimestepIndices(ts, c.startUnixMs, c.endUnixMs);
    assert ts[k].unixTimeMs <= ts[f].unixTimeMs <= ts[l].unixTimeMs;
  }

  lemma SecondsOfWindow(ctx: VoltageContext.Context, fs: FileSystem, ci: nat, start: nat, count: nat, k: nat, l: nat)
    requires ctx.Valid() && ctx.batches != [] && ci < |ctx.coarseChans| && k <= l < |ctx.timesteps| && count >= 1
    requires ctx.timesteps[k].gpsTimeMs <= start * 1000
    requires (start + count) * 1000 <= ctx.timesteps[l].gpsTimeMs + ctx.geometry.durationMs
    requires HasData(ctx, fs, ci, k, l)
    ensures SecondsOutcome(ctx, fs, start, count, ci).Ok?
  {
    FilesOfWindow(ctx, k, l, start, count);
    assert HasData(ctx, fs, ci, FileOf(ctx, start), FileOf(ctx, start + count - 1));
    ReadSecondSucceeds(ctx, fs, start, count, ci);
  }

  lemma RectangleIsCommon(view: View, timeMap: VoltageFileTimeMap, obs: Observation, c: Common, good: Option<nat>, ci: nat)
    requires AreCommon(view, timeMap, obs) && IsRectangle(view, obs, c, good) && ci in c.coarseChanIndices
    ensures CommonRun(RunMap(timeMap), obs.StepMs(), good).Some? && ci < |view.ctx.coarseChans|
    ensures IsCommon(c, CommonRun(RunMap(timeMap), obs.StepMs(), good), view.ctx.timesteps, view.ctx.coarseChans, obs.clock)
  {
    FoundChannelsAreNamed(view.ctx.coarseChans, RunOrZero(CommonRun(RunMap(timeMap), obs.StepMs(), good)).channels);
  }

  lemma ViewHasBatches(batches: seq<VoltageFileBatch>, files: seq<TempVoltageFile>)
    requires IsBatchList(batches, files) && files != []
    ensures batches != []
  {
    assert files[0].gpsTimeSeconds in GpsTimes(files, |files|);
    assert files[0].gpsTimeSeconds in SortedSet(GpsTimes(files, |files|));
  }

  /** The files of the timesteps of a run have their data. */
  lemma RunHasData(ctx: VoltageContext.Context, files: seq<TempVoltageFile>, fs: FileSystem, c: Common, ci: nat, k: nat, l: nat)
    requires AllOfFiles(ctx, files, c) && SizesFit(files, fs, ctx.geometry)
    requires ci < |ctx.coarseChans| && ci in c.coarseChanIndices
    requires forall f: nat :: k <= f <= l ==> f in c.timestepIndices
    ensures HasData(ctx, fs, ci, k, l)
  {
    forall f: nat | k <= f <= l
      ensures Available(ctx, fs, ci, f)
    {
      assert IsFiled(ctx, f, ci);
      FiledHasData(ctx, files, fs, f, ci);
    }
  }

  lemma WindowIsCommon(ctx: VoltageContext.Context, timeMap: VoltageFileTimeMap, provided: seq<TimeStep>, obs: Observation, c: Common,
                       good: Option<nat>) returns (k: nat, l: nat)
    requires AreDataTimes(provided, timeMap.Keys, obs.clock) && IsObsTimeline(ctx.timesteps, provided, obs)
    requires CommonRun(RunMap(timeMap), obs.StepMs(), good).Some?
    requires IsCommon(c, CommonRun(RunMap(timeMap), obs.StepMs(), good), ctx.timesteps, ctx.coarseChans, obs.clock)
    ensures k <= l < |ctx.timesteps| && ctx.timesteps[k].gpsTimeMs == c.startGpsMs
    ensures ctx.timesteps[l].gpsTimeMs + obs.StepMs() == c.endGpsMs
    ensures forall f: nat :: k <= f <= l ==> f in c.timestepIndices
  {
    k, l := RunTimesteps(ctx, timeMap, provided, obs, c, good);
    TimelineOnBothClocks(ctx.timesteps, provided, timeMap.Keys, obs);
    AllBetweenAreCommon(ctx.timesteps, c, obs.clock, obs.StepMs(), k, l);
  }

  lemma AllBetweenAreCommon(ts: seq<TimeStep>, c: Common, clock: Clock, d: nat, k: nat, l: nat)
    requires AscendingTimes(ts) && OnBothClocks(ts, clock) && d > 0 && k <= l < |ts|
    requires ts[k].gpsTimeMs == c.startGpsMs && ts[l].gpsTimeMs + d == c.endGpsMs
    requires c.startUnixMs == c.startGpsMs + (clock.startUnixMs - clock.startGpsMs)
    requires c.endUnixMs == c.endGpsMs + (clock.startUnixMs - clock.startGpsMs)
    requires c.timestepIndices == GetTimestepIndices(ts, c.startUnixMs, c.endUnixMs)
    ensures forall f: nat :: k <= f <= l ==> f in c.timestepIndices
  {
    forall f: nat | k <= f <= l
      ensures f in c.timestepIndices
    {
      BetweenIsCommon(ts, c, clock, d, k, l, f);
    }
  }

  /** Unless GPS time 0 hides a gap, any whole seconds inside an advertised rectangle can be read
      from any of its channels. */
  lemma CommonSecondsAreReadable(view: View, files: seq<TempVoltageFile>, fs: FileSystem, provided: seq<TimeStep>,
                                 timeMap: VoltageFileTimeMap, obs: Observation, c: Common, good: Option<nat>,
                                 start: nat, count: nat, ci: nat)
    requires IsView(view, files, provided, timeMap, obs) && NoHiddenGap(SortedSet(timeMap.Keys), obs.Interval())
    requires SizesFit(files, fs, view.ctx.geometry)
    requires IsRectangle(view, obs, c, good) && ci in c.coarseChanIndices && count >= 1
    requires c.startGpsMs <= start * 1000 && (start + count) * 1000 <= c.endGpsMs
    ensures view.ctx.Valid() && SecondsOutcome(view.ctx, fs, start, count, ci).Ok?
  {
    var k, l := ReadyRectangle(view, files, provided, timeMap, obs, c, good, ci);
    SecondsOfFiles(view.ctx, files, fs, c, start, count, ci, k, l);
  }

  /** The timesteps from `k` to `l` are those of the rectangle, and all its cells have files. */
  ghost predicate IsReady(ctx: VoltageContext.Context, files: seq<TempVoltageFile>, c: Common, ci: nat, k: nat, l: nat) {
    && ctx.Valid() && ctx.batches != [] && ci < |ctx.coarseChans| && ci in c.coarseChanIndices
    && AllOfFiles(ctx, files, c)
    && k <= l < |ctx.timesteps| && (forall f: nat :: k <= f <= l ==> f in c.timestepIndices)
    && ctx.timesteps[k].gpsTimeMs == c.startGpsMs && ctx.timesteps[l].gpsTimeMs + ctx.geometry.durationMs == c.endGpsMs
  }

  lemma ReadyRectangle(view: View, files: seq<TempVoltageFile>, provided: seq<TimeStep>, timeMap: VoltageFileTimeMap,
                       obs: Observation, c: Common, good: Option<nat>, ci: nat) returns (k: nat, l: nat)
    requires IsView(view, files, provided, timeMap, obs) && NoHiddenGap(SortedSet(timeMap.Keys), obs.Interval())
    requires IsRectangle(view, obs, c, good) && ci in c.coarseChanIndices
    ensures IsReady(view.ctx, files, c, ci, k, l)
  {
    ViewIsValid(view, files, provided, timeMap, obs);
    CommonCellsHaveFiles(view, files, provided, timeMap, obs, c, good);
    k, l := RectangleWindow(view, files, provided, timeMap, obs, c, good, ci);
  }

  lemma SecondsOfFiles(ctx: VoltageContext.Context, files: seq<TempVoltageFile>, fs: FileSystem, c: Common, start: nat, count: nat, ci: nat,
                       k: nat, l: nat)
    requires IsReady(ctx, files, c, ci, k, l) && SizesFit(files, fs, ctx.geometry) && count >= 1
    requires c.startGpsMs <= start * 1000 && (start + count) * 1000 <= c.endGpsMs
    ensures SecondsOutcome(ctx, fs, start, count, ci).Ok?
  {
    RunHasData(ctx, files, fs, c, ci, k, l);
    SecondsOfWindow(ctx, fs, ci, start, count, k, l);
  }

  lemma RectangleWindow(view: View, files: seq<TempVoltageFile>, provided: seq<TimeStep>, timeMap: VoltageFileTimeMap,
                        obs: Observation, c: Common, good: Option<nat>, ci: nat) returns (k: nat, l: nat)
    requires IsView(view, files, provided, timeMap, obs) && IsRectangle(view, obs, c, good) && ci in c.coarseChanIndices
    ensures ci < |view.ctx.coarseChans| && view.ctx.batches != []
    ensures k <= l < |view.ctx.timesteps| && view.ctx.timesteps[k].gpsTimeMs == c.startGpsMs
    ensures view.ctx.timesteps[l].gpsTimeMs + obs.StepMs() == c.endGpsMs
    ensures forall f: nat :: k <= f <= l ==> f in c.timestepIndices
  {
    ViewHasBatches(view.ctx.batches, files);
    RectangleIsCommon(view, timeMap, obs, c, good, ci);
    k, l := WindowIsCommon(view.ctx, timeMap, provided, obs, c, good);
  }

  // ---------------------------------------------------------------- a gap that is hidden

  /** Files at GPS seconds 0, 5 and 13, the last two with every channel. */
  ghost predicate HasHiddenGap(timeMap: VoltageFileTimeMap) {
    && timeMap.Keys == {0, 5, 13}
    && IsComplete(5000, RunMap(timeMap)) && IsComplete(13000, RunMap(timeMap))
  }

  lemma HiddenGapTime(timeMap: VoltageFileTimeMap, good: nat, t: nat)
    requires HasHiddenGap(timeMap) && 0 < good <= 5000
    ensures t in [5000, 13000] <==> RunTime(RunMap(timeMap), t, Some(good))
  {
    if t in RunMap(timeMap) {
      var s := InMsTime(timeMap, t);
      assert s == 0 || s == 5 || s == 13;
    }
  }

  lemma HiddenGapRun(timeMap: VoltageFileTimeMap, good: nat)
    requires HasHiddenGap(timeMap) && 0 < good <= 5000
    ensures CommonRun(RunMap(timeMap), 8000, Some(good)).Some?
    ensures CommonRun(RunMap(timeMap), 8000, Some(good)).value.startMs == 5000
    ensures CommonRun(RunMap(timeMap), 8000, Some(good)).value.endMs == 21000
  {
    forall t
      ensures t in [5000, 13000] <==> RunTime(RunMap(timeMap), t, Some(good))
    {
      HiddenGapTime(timeMap, good, t);
    }
    FullTimesAre(RunMap(timeMap), Some(good), [5000, 13000]);
    RunOfTwo();
  }

  lemma RunOfTwo()
    ensures RunLength([5000, 13000], 8000) == 2
  {
    RunLengthIsLongestPrefix([5000, 13000], 8000, 2);
  }

  /** GPS second 8 has no files, but is a timestep of the rectangle after the quack time. */
  lemma HiddenGapTimestep(ts: seq<TimeStep>, timeMap: VoltageFileTimeMap, provided: seq<TimeStep>, obs: Observation, c: Common)
    returns (ti: nat)
    requires AreDataTimes(provided, timeMap.Keys, obs.clock) && IsObsTimeline(ts, provided, obs)
    requires timeMap.Keys == {0, 5, 13} && obs.StepMs() == 8000
    requires c.startUnixMs == UnixOf(5, obs.clock) && c.endUnixMs == UnixOf(21, obs.clock)
    requires c.timestepIndices == GetTimestepIndices(ts, c.startUnixMs, c.endUnixMs)
    ensures ti in c.timestepIndices && ti < |ts| && ts[ti].gpsTimeMs == 8000
  {
    HiddenGapWindow(provided, timeMap.Keys, obs.clock, c);
    RunIsLaidOut(ts, timeMap.Keys, provided, obs, c);
    var x := UnixOf(8, obs.clock);
    EightIsTimed(provided, timeMap.Keys, obs.clock, obs.metafits[|obs.metafits| - 1].unixTimeMs);
    assert IsInWindow(x, c, provided, obs.metafits[|obs.metafits| - 1].unixTimeMs, obs.StepMs());
    assert x in Times(ts);
    ti := TimestepOf(ts, obs.clock, 8);
    assert IsInWindow(ts[ti].unixTimeMs, c, provided, obs.metafits[|obs.metafits| - 1].unixTimeMs, obs.StepMs());
  }

  lemma HiddenGapWindow(provided: seq<TimeStep>, gpsSeconds: set<nat>, clock: Clock, c: Common)
    requires AreDataTimes(provided, gpsSeconds, clock) && gpsSeconds == {0, 5, 13}
    requires c.startUnixMs == UnixOf(5, clock) && c.endUnixMs == UnixOf(21, clock)
    ensures AroundData(c, provided, 8000)
  {
    BetweenDataTimes(provided, gpsSeconds, clock, 0, 13);
  }

  /** Second 8 is on the grid of the first data time, and before the last. */
  lemma EightIsTimed(provided: seq<TimeStep>, gpsSeconds: set<nat>, clock: Clock, schedEnd: nat)
    requires AreDataTimes(provided, gpsSeconds, clock) && gpsSeconds == {0, 5, 13} && provided != []
    ensures IsTimed(UnixOf(8, clock), provided, schedEnd, 8000)
  {
    BetweenDataTimes(provided, gpsSeconds, clock, 0, 13);
    FirstIsZero(provided, gpsSeconds, clock);
    EndsAfterData(provided[|provided| - 1].unixTimeMs, schedEnd, 8000);
    assert SameGrid(UnixOf(8, clock), UnixOf(0, clock), 8000);
  }

  lemma FirstIsZero(provided: seq<TimeStep>, gpsSeconds: set<nat>, clock: Clock)
    requires AreDataTimes(provided, gpsSeconds, clock) && 0 in gpsSeconds
    ensures provided != [] && provided[0].unixTimeMs == clock.startUnixMs - clock.startGpsMs
  {
    FileTimeIsProvided(provided, gpsSeconds, clock, 0);
    ProvidedTimes(provided);
    var s := SecondOf(provided, gpsSeconds, clock, provided[0]);
  }

  /** Off the grid the advertised rectangle can hold cells that cannot be read: with files at GPS
      seconds 0, 5 and 13, and a good time after 0, that is so of second 8 and every channel. */
  lemma HiddenGapIsUnreadable(view: View, files: seq<TempVoltageFile>, fs: FileSystem, provided: seq<TimeStep>, timeMap: VoltageFileTimeMap,
                              obs: Observation) returns (ti: nat)
    requires IsView(view, files, provided, timeMap, obs)
    requires HasHiddenGap(timeMap) && obs.version == VCSMWAXv2 && 0 < obs.goodGpsMs <= 5000
    ensures ti in view.commonGood.timestepIndices && ti < |view.ctx.timesteps| && view.ctx.timesteps[ti].gpsTimeMs == 8000
    ensures forall ci: nat, length: nat :: ci in view.commonGood.coarseChanIndices ==>
              ReadFileOutcome(view.ctx, fs, ti, ci, length) == Err(NoDataForTimeStepCoarseChannel(ti, ci))
  {
    HiddenGapIsCommon(view, timeMap, obs);
    ti := HiddenGapTimestep(view.ctx.timesteps, timeMap, provided, obs, view.commonGood);
    ViewHasBatches(view.ctx.batches, files);
    NothingInRow(view, files, fs, timeMap, obs, ti);
  }

  lemma HiddenGapIsCommon(view: View, timeMap: VoltageFileTimeMap, obs: Observation)
    requires AreCommon(view, timeMap, obs) && obs.clock.startGpsMs <= obs.clock.startUnixMs
    requires HasHiddenGap(timeMap) && obs.version == VCSMWAXv2 && 0 < obs.goodGpsMs <= 5000
    ensures view.commonGood.startUnixMs == UnixOf(5, obs.clock) && view.commonGood.endUnixMs == UnixOf(21, obs.clock)
    ensures view.commonGood.timestepIndices ==
            GetTimestepIndices(view.ctx.timesteps, view.commonGood.startUnixMs, view.commonGood.endUnixMs)
  {
    HiddenGapRun(timeMap, obs.goodGpsMs);
    RunIsCommon(view.commonGood, CommonRun(RunMap(timeMap), 8000, Some(obs.goodGpsMs)).value, view.ctx.timesteps, view.ctx.coarseChans,
                obs.clock);
  }

  lemma RunIsCommon(c: Common, run: ObsTimesAndChans, ts: seq<TimeStep>, chans: seq<CoarseChannel>, clock: Clock)
    requires IsCommon(c, Some(run), ts, chans, clock) && clock.startGpsMs <= clock.startUnixMs
    requires run.startMs == 5000 && run.endMs == 21000
    ensures c.startUnixMs == UnixOf(5, clock) && c.endUnixMs == UnixOf(21, clock)
    ensures c.timestepIndices == GetTimestepIndices(ts, c.startUnixMs, c.endUnixMs)
  {
  }

  lemma NothingInRow(view: View, files: seq<TempVoltageFile>, fs: FileSystem, timeMap: VoltageFileTimeMap, obs: Observation, ti: nat)
    requires AreCommon(view, timeMap, obs) && view.ctx.batches != []
    requires IsTimeMap(timeMap, files, |files|) && IsBatchList(view.ctx.batches, files) && timeMap.Keys == {0, 5, 13}
    requires ti < |view.ctx.timesteps| && view.ctx.timesteps[ti].gpsTimeMs == 8000
    ensures forall ci: nat, length: nat :: ci in view.commonGood.coarseChanIndices ==>
              ReadFileOutcome(view.ctx, fs, ti, ci, length) == Err(NoDataForTimeStepCoarseChannel(ti, ci))
  {
    forall ci: nat, length: nat | ci in view.commonGood.coarseChanIndices
      ensures ReadFileOutcome(view.ctx, fs, ti, ci, length) == Err(NoDataForTimeStepCoarseChannel(ti, ci))
    {
      RectangleIsCommon(view, timeMap, obs, view.commonGood, Some(obs.goodGpsMs), ci);
      NothingAtEight(view.ctx, files, fs, timeMap, ti, ci, length);
    }
  }

  lemma NothingAtEight(ctx: VoltageContext.Context, files: seq<TempVoltageFile>, fs: FileSystem, timeMap: VoltageFileTimeMap,
                       ti: nat, ci: nat, length: nat)
    requires IsTimeMap(timeMap, files, |files|) && IsBatchList(ctx.batches, files) && timeMap.Keys == {0, 5, 13} && ctx.batches != []
    requires ti < |ctx.timesteps| && ctx.timesteps[ti].gpsTimeMs == 8000 && ci < |ctx.coarseChans|
    ensures ReadFileOutcome(ctx, fs, ti, ci, length) == Err(NoDataForTimeStepCoarseChannel(ti, ci))
  {
    FindFileIs(ctx.batches, files, timeMap, 8000, ctx.coarseChans[ci].gpuboxNumber);
    NoEntryAtEight(timeMap);
    NotFound(ctx, fs, ti, ci, length);
  }

  lemma NotFound(ctx: VoltageContext.Context, fs: FileSystem, ti: nat, ci: nat, length: nat)
    requires ctx.batches != [] && ti < |ctx.timesteps| && ci < |ctx.coarseChans| && !IsFiled(ctx, ti, ci)
    ensures ReadFileOutcome(ctx, fs, ti, ci, length) == Err(NoDataForTimeStepCoarseChannel(ti, ci))
  {
  }

  lemma NoEntryAtEight(timeMap: VoltageFileTimeMap)
    requires timeMap.Keys == {0, 5, 13}
    ensures 8000 !in RunMap(timeMap)
  {
    MappedTime(timeMap, 8000);
  }

  lemma MappedTime(timeMap: VoltageFileTimeMap, u: nat)
    ensures u in RunMap(timeMap) ==> u % 1000 == 0 && u / 1000 in timeMap
  {
    if u in RunMap(timeMap) {
      var s := InMsTime(timeMap, u);
    }
  }
}
