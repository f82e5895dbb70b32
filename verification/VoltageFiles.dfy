/** Organising voltage files (src/voltage_files/mod.rs). */
module VoltageFiles {
  import opened Collections
  import opened CommonRuns
  import GpuboxFiles
  import opened Grid
  import opened Wrappers

  datatype VoltageFileError =
    | NoVoltageFiles
    | UnreadableFile(filename: string)
    | UnequalFileSizes
    | InvalidTimeStepIndex(max: nat)
    | InvalidCoarseChanIndex(max: nat)
    | InvalidBufferSize(got: nat, expected: nat)
    | InvalidGpsSecondStart(first: nat, last: nat)
    | InvalidGpsSecondCount(first: nat, count: nat, last: nat)
    | InvalidVoltageFileSize(got: nat, filename: string, expected: nat)
    | GpsTimeMissing(expected: nat, got: nat)
    | UnevenChannelsForGpsTime(expected: nat, got: nat)
    | NoDataForTimeStepCoarseChannel(timestepIndex: nat, coarseChanIndex: nat)

  datatype TempVoltageFile = TempVoltageFile(filename: string, channelIdentifier: nat, gpsTimeSeconds: nat)

  datatype VoltageFile = VoltageFile(filename: string, channelIdentifier: nat)

  datatype VoltageFileBatch = VoltageFileBatch(gpsTimeSeconds: nat, voltageFiles: seq<VoltageFile>)

  /** GPS second, then channel, to filename. */
  type VoltageFileTimeMap = map<nat, map<nat, string>>

  // ---------------------------------------------------------------- files of a GPS time

  /** The first `n` files that are of GPS time `t`, in order. */
  function FilesOfTime(files: seq<TempVoltageFile>, n: nat, t: nat): seq<VoltageFile>
    requires n <= |files|
  {
    if n == 0 then []
    else
      FilesOfTime(files, n - 1, t) +
      if files[n - 1].gpsTimeSeconds == t then [VoltageFile(files[n - 1].filename, files[n - 1].channelIdentifier)] else []
  }

  function GpsTimes(files: seq<TempVoltageFile>, n: nat): set<nat>
    requires n <= |files|
  {
    set k | 0 <= k < n :: files[k].gpsTimeSeconds
  }

  lemma GpsTimesNext(files: seq<TempVoltageFile>, n: nat)
    requires n < |files|
    ensures GpsTimes(files, n + 1) == GpsTimes(files, n) + {files[n].gpsTimeSeconds}
  {
  }

  lemma {:induction false} FilesOfTimeMembers(files: seq<TempVoltageFile>, n: nat, t: nat, v: VoltageFile)
    requires n <= |files|
    ensures v in FilesOfTime(files, n, t) <==>
            exists k :: 0 <= k < n && files[k] == TempVoltageFile(v.filename, v.channelIdentifier, t)
    ensures t in GpsTimes(files, n) <==> FilesOfTime(files, n, t) != []
  {
    if n > 0 {
      FilesOfTimeMembers(files, n - 1, t, v);
      GpsTimesNext(files, n - 1);
    }
  }

  // ---------------------------------------------------------------- the batch check

  /** Counts the files of each GPS time; the counters are 8 bits wide, and one more than 255 panics. */
  method CountFiles(files: seq<TempVoltageFile>) returns (r: Outcome<map<nat, nat>, ()>)
    ensures !r.Err?
    ensures r.Panic? <==> exists t :: t in GpsTimes(files, |files|) && |FilesOfTime(files, |files|, t)| > 255
    ensures r.Ok? ==> r.value.Keys == GpsTimes(files, |files|)
                      && forall t :: t in r.value ==> r.value[t] == |FilesOfTime(files, |files|, t)|
  {
    var counts: map<nat, nat> := map[];
    for k := 0 to |files|
      invariant counts.Keys == GpsTimes(files, k)
      invariant forall t :: t in counts ==> counts[t] == |FilesOfTime(files, k, t)| <= 255
      invariant forall t :: t !in counts ==> FilesOfTime(files, k, t) == []
    {
      var t := files[k].gpsTimeSeconds;
      var count := if t in counts then counts[t] else 0;
      GpsTimesNext(files, k);
      if count == 255 {
        FilesOnlyGrow(files, k + 1, |files|, t);
        assert t in GpsTimes(files, |files|);
        return Panic;
      }
      counts := counts[t := count + 1];
    }
    return Ok(counts);
  }

  lemma {:induction false} FilesOnlyGrow(files: seq<TempVoltageFile>, m: nat, n: nat, t: nat)
    requires m <= n <= |files|
    ensures |FilesOfTime(files, m, t)| <= |FilesOfTime(files, n, t)|
  {
    if m < n {
      FilesOnlyGrow(files, m, n - 1, t);
    }
  }

  /** Neighbouring times are the interval apart; a GPS time of 0 counts as no time before. */
  predicate Contiguous(times: seq<nat>, interval: nat, i: nat)
    requires 1 <= i < |times|
  {
    times[i - 1] == 0 || times[i - 1] + interval == times[i]
  }

  /** What the check accepts: no time with more than 255 files, no gaps, and as many files at every time. */
  ghost predicate GoodBatches(files: seq<TempVoltageFile>, interval: nat) {
    GoodCounts(SortedSet(GpsTimes(files, |files|)), CountsOf(files, SortedSet(GpsTimes(files, |files|))), interval)
  }

  ghost predicate GoodCounts(times: seq<nat>, counts: seq<nat>, interval: nat)
    requires |times| == |counts|
  {
    && (forall i :: 0 <= i < |counts| ==> counts[i] <= 255)
    && (forall i :: 1 <= i < |times| ==> Contiguous(times, interval, i))
    && (forall i :: 0 <= i < |counts| ==> counts[i] == counts[0])
  }

  function CountsOf(files: seq<TempVoltageFile>, times: seq<nat>): (r: seq<nat>)
    ensures |r| == |times| && forall i :: 0 <= i < |r| ==> r[i] == |FilesOfTime(files, |files|, times[i])|
  {
    seq(|times|, i requires 0 <= i < |times| => |FilesOfTime(files, |files|, times[i])|)
  }

  /** The check fails first at time `i`: there is a gap before it, or it has not as many files as the first. */
  ghost predicate FailsAt(times: seq<nat>, counts: seq<nat>, interval: nat, i: int, e: VoltageFileError)
    requires |times| == |counts|
  {
    && 1 <= i < |times|
    && (forall j :: 1 <= j < i ==> Contiguous(times, interval, j) && counts[j] == counts[0])
    && if times[i - 1] != 0 && times[i - 1] + interval != times[i] then e == GpsTimeMissing(times[i - 1] + interval, times[i])
       else counts[i] != counts[0] && e == UnevenChannelsForGpsTime(counts[0], counts[i])
  }

  /** Walks the times in order, comparing each with the one before and its count with the first. */
  method CheckTimes(times: seq<nat>, counts: seq<nat>, interval: nat) returns (r: Outcome<(), VoltageFileError>)
    requires |times| == |counts| && forall i :: 0 <= i < |counts| ==> counts[i] <= 255
    ensures !r.Panic?
    ensures r.Ok? <==> GoodCounts(times, counts, interval)
    ensures r.Err? ==> exists i :: FailsAt(times, counts, interval, i, r.error)
  {
    var fileCount: Option<nat> := None;
    var prev := 0;
    for i := 0 to |times|
      invariant prev == if i == 0 then 0 else times[i - 1]
      invariant fileCount == if i == 0 then None else Some(counts[0])
      invariant forall j :: 1 <= j < i ==> Contiguous(times, interval, j)
      invariant forall j :: 0 <= j < i ==> counts[j] == counts[0]
    {
      if prev != 0 && prev + interval != times[i] {
        assert !Contiguous(times, interval, i) && FailsAt(times, counts, interval, i, GpsTimeMissing(prev + interval, times[i]));
        return Err(GpsTimeMissing(prev + interval, times[i]));
      }
      prev := times[i];
      match fileCount
      case None => fileCount := Some(counts[i]);
      case Some(c) =>
        if c != counts[i] {
          assert FailsAt(times, counts, interval, i, UnevenChannelsForGpsTime(c, counts[i]));
          return Err(UnevenChannelsForGpsTime(c, counts[i]));
        }
    }
    return Ok(());
  }

  method CheckBatches(files: seq<TempVoltageFile>, interval: nat) returns (r: Outcome<nat, VoltageFileError>)
    ensures r.Ok? <==> GoodBatches(files, interval)
    ensures r.Ok? ==> r.value == |GpsTimes(files, |files|)|
    ensures r.Panic? <==> exists t :: t in GpsTimes(files, |files|) && |FilesOfTime(files, |files|, t)| > 255
    ensures r.Err? ==> var times := SortedSet(GpsTimes(files, |files|));
                       exists i :: FailsAt(times, CountsOf(files, times), interval, i, r.error)
  {
    var counted := CountFiles(files);
    var times := SortedSet(GpsTimes(files, |files|));
    CountsInOrder(files, times);
    if counted.Panic? { return Panic; }
    var counts := ListCounts(counted.value, files, times);
    ghost var good := GoodCounts(times, counts, interval);
    assert GoodBatches(files, interval) == good;
    var checked := CheckTimes(times, counts, interval);
    if checked.Err? { return Err(checked.error); }
    return Ok(|times|);
  }

  method ListCounts(counted: map<nat, nat>, ghost files: seq<TempVoltageFile>, times: seq<nat>) returns (counts: seq<nat>)
    requires forall t :: t in times ==> t in counted && counted[t] == |FilesOfTime(files, |files|, t)|
    ensures counts == CountsOf(files, times)
  {
    assert forall i :: 0 <= i < |times| ==> times[i] in times;
    counts := seq(|times|, i requires 0 <= i < |times| => counted[times[i]]);
  }

  lemma CountsInOrder(files: seq<TempVoltageFile>, times: seq<nat>)
    requires times == SortedSet(GpsTimes(files, |files|))
    ensures (exists t :: t in GpsTimes(files, |files|) && |FilesOfTime(files, |files|, t)| > 255) <==>
            exists i :: 0 <= i < |times| && CountsOf(files, times)[i] > 255
  {
    if t :| t in GpsTimes(files, |files|) && |FilesOfTime(files, |files|, t)| > 255 {
      assert t in times;
      var i :| 0 <= i < |times| && times[i] == t;
      assert CountsOf(files, times)[i] > 255;
    }
    if i :| 0 <= i < |times| && CountsOf(files, times)[i] > 255 {
      assert times[i] in times;
    }
  }

  ghost predicate Progression(times: seq<nat>, interval: nat) {
    forall i: nat :: i < |times| ==> times[i] == Point(times[0], interval, i)
  }

  lemma {:induction false} ContiguousProgress(times: seq<nat>, interval: nat, i: nat)
    requires forall j :: 1 <= j < |times| ==> times[j - 1] + interval == times[j]
    requires i < |times|
    ensures times[i] == Point(times[0], interval, i)
  {
    if i > 0 {
      ContiguousProgress(times, interval, i - 1);
    }
  }

  lemma NeighboursProgress(times: seq<nat>, interval: nat)
    ensures Progression(times, interval) <==> forall j :: 1 <= j < |times| ==> times[j - 1] + interval == times[j]
  {
    if forall j :: 1 <= j < |times| ==> times[j - 1] + interval == times[j] {
      forall i: nat | i < |times|
        ensures times[i] == Point(times[0], interval, i)
      {
        ContiguousProgress(times, interval, i);
      }
    }
    if Progression(times, interval) {
      forall j | 1 <= j < |times|
        ensures times[j - 1] + interval == times[j]
      {
        assert times[j] == Point(times[0], interval, j) && times[j - 1] == Point(times[0], interval, j - 1);
      }
    }
  }

  /** The times that are checked: a GPS time of 0 is not. */
  function CheckedTimes(times: seq<nat>): seq<nat> {
    if times != [] && times[0] == 0 then times[1..] else times
  }

  lemma ContiguousIffProgression(times: seq<nat>, interval: nat)
    requires Ascending(times)
    ensures (forall i :: 1 <= i < |times| ==> Contiguous(times, interval, i)) <==> Progression(CheckedTimes(times), interval)
  {
    NeighboursProgress(CheckedTimes(times), interval);
    if times != [] && times[0] == 0 {
      AfterZero(times, times[1..], interval);
    } else {
      assert forall i :: 1 <= i < |times| ==> (Contiguous(times, interval, i) <==> times[i - 1] + interval == times[i]);
    }
  }

  /** After GPS time 0 the check starts afresh. */
  lemma AfterZero(times: seq<nat>, rest: seq<nat>, interval: nat)
    requires Ascending(times) && times != [] && times[0] == 0 && rest == times[1..]
    ensures (forall i :: 1 <= i < |times| ==> Contiguous(times, interval, i)) <==>
            forall j :: 1 <= j < |rest| ==> rest[j - 1] + interval == rest[j]
  {
    if forall i :: 1 <= i < |times| ==> Contiguous(times, interval, i) {
      forall j | 1 <= j < |rest|
        ensures rest[j - 1] + interval == rest[j]
      {
        assert Contiguous(times, interval, j + 1);
      }
    }
    if forall j :: 1 <= j < |rest| ==> rest[j - 1] + interval == rest[j] {
      forall i | 1 <= i < |times|
        ensures Contiguous(times, interval, i)
      {
        if i > 1 {
          assert rest[i - 2] + interval == rest[i - 1];
        }
      }
    }
  }

  ghost predicate EvenCounts(counts: seq<nat>) {
    forall i :: 0 <= i < |counts| ==> counts[i] <= 255 && counts[i] == counts[0]
  }

  /** The check accepts exactly the files whose times, but for a GPS time of 0, are a
      progression of the interval, with equally many files at every time and at most 255. */
  lemma GoodBatchesAre(files: seq<TempVoltageFile>, interval: nat)
    ensures var times := SortedSet(GpsTimes(files, |files|));
            GoodBatches(files, interval) <==> Progression(CheckedTimes(times), interval) && EvenCounts(CountsOf(files, times))
  {
    ContiguousIffProgression(SortedSet(GpsTimes(files, |files|)), interval);
  }

  /** With no file of GPS time 0 the check means what it says. */
  lemma GoodTimesProgress(files: seq<TempVoltageFile>, interval: nat)
    requires 0 !in GpsTimes(files, |files|)
    ensures var times := SortedSet(GpsTimes(files, |files|));
            GoodBatches(files, interval) <==> Progression(times, interval) && EvenCounts(CountsOf(files, times))
  {
    var times := SortedSet(GpsTimes(files, |files|));
    GoodBatchesAre(files, interval);
    assert times != [] ==> times[0] in times;
  }

  lemma OneFileEach(files: seq<TempVoltageFile>)
    requires files == [TempVoltageFile("a", 1, 0), TempVoltageFile("b", 1, 100)]
    ensures EvenCounts(CountsOf(files, [0, 100]))
  {
    CountOfTwo(files, 0);
    CountOfTwo(files, 100);
  }

  lemma CountOfTwo(files: seq<TempVoltageFile>, t: nat)
    requires |files| == 2 && files[0].gpsTimeSeconds != files[1].gpsTimeSeconds
    requires t == files[0].gpsTimeSeconds || t == files[1].gpsTimeSeconds
    ensures |FilesOfTime(files, 2, t)| == 1
  {
    assert FilesOfTime(files, 0, t) == [];
    assert |FilesOfTime(files, 1, t)| == if files[0].gpsTimeSeconds == t then 1 else 0;
    assert |FilesOfTime(files, 2, t)| == |FilesOfTime(files, 1, t)| + if files[1].gpsTimeSeconds == t then 1 else 0;
  }

  /** A file of GPS time 0 does let a gap pass: these two files, 100 seconds apart, are
      accepted with an interval of 8. */
  lemma ZeroTimeHidesGap(files: seq<TempVoltageFile>)
    requires files == [TempVoltageFile("a", 1, 0), TempVoltageFile("b", 1, 100)]
    ensures GoodBatches(files, 8) && !Progression(SortedSet(GpsTimes(files, |files|)), 8)
  {
    TwoTimes(files);
    GoodBatchesAre(files, 8);
    OneFileEach(files);
    GapIsHidden(SortedSet(GpsTimes(files, |files|)));
  }

  lemma TwoTimes(files: seq<TempVoltageFile>)
    requires files == [TempVoltageFile("a", 1, 0), TempVoltageFile("b", 1, 100)]
    ensures SortedSet(GpsTimes(files, |files|)) == [0, 100]
  {
    assert files[0].gpsTimeSeconds == 0 && files[1].gpsTimeSeconds == 100;
    assert GpsTimes(files, |files|) == {0, 100};
    AscendingUnique(SortedSet(GpsTimes(files, |files|)), [0, 100]);
  }

  lemma GapIsHidden(times: seq<nat>)
    requires times == [0, 100]
    ensures Progression(CheckedTimes(times), 8) && !Progression(times, 8)
  {
    assert CheckedTimes(times) == [100];
    assert Point(0, 8, 1) == Mul(0, 8) + 8 == 8;
    assert times[1] != Point(times[0], 8, 1);
  }

  // ---------------------------------------------------------------- batches

  function ChannelKey(v: VoltageFile): int {
    v.channelIdentifier
  }

  /** One batch per GPS time, in order, each with its files sorted by channel. */
  ghost predicate IsBatchList(batches: seq<VoltageFileBatch>, files: seq<TempVoltageFile>) {
    var times := SortedSet(GpsTimes(files, |files|));
    && |batches| == |times|
    && forall i :: 0 <= i < |batches| ==>
         && batches[i].gpsTimeSeconds == times[i]
         && multiset(batches[i].voltageFiles) == multiset(FilesOfTime(files, |files|, times[i]))
         && SortedBy(batches[i].voltageFiles, ChannelKey)
  }

  /** Groups the files by GPS time. */
  method GroupFiles(files: seq<TempVoltageFile>) returns (batches: map<nat, VoltageFileBatch>)
    ensures batches.Keys == GpsTimes(files, |files|)
    ensures forall t :: t in batches ==> batches[t] == VoltageFileBatch(t, FilesOfTime(files, |files|, t))
  {
    batches := map[];
    for k := 0 to |files|
      invariant batches.Keys == GpsTimes(files, k)
      invariant forall t :: t in batches ==> batches[t] == VoltageFileBatch(t, [])
    {
      GpsTimesNext(files, k);
      batches := batches[files[k].gpsTimeSeconds := VoltageFileBatch(files[k].gpsTimeSeconds, [])];
    }
    for k := 0 to |files|
      invariant batches.Keys == GpsTimes(files, |files|)
      invariant forall t :: t in batches ==> batches[t] == VoltageFileBatch(t, FilesOfTime(files, k, t))
    {
      var t := files[k].gpsTimeSeconds;
      assert t in GpsTimes(files, |files|);
      var v := VoltageFile(files[k].filename, files[k].channelIdentifier);
      batches := batches[t := VoltageFileBatch(t, batches[t].voltageFiles + [v])];
    }
  }

  function SortedBatch(b: VoltageFileBatch): VoltageFileBatch {
    VoltageFileBatch(b.gpsTimeSeconds, SortBy(b.voltageFiles, ChannelKey))
  }

  method ConvertTempVoltageFiles(files: seq<TempVoltageFile>) returns (batches: seq<VoltageFileBatch>)
    ensures IsBatchList(batches, files)
  {
    var grouped := GroupFiles(files);
    batches := ListBatches(grouped, SortedSet(grouped.Keys));
  }

  /** Sorts each batch, and lists the batches in order of time. */
  method ListBatches(grouped: map<nat, VoltageFileBatch>, times: seq<nat>) returns (batches: seq<VoltageFileBatch>)
    requires forall t :: t in times ==> t in grouped
    ensures |batches| == |times| && forall i :: 0 <= i < |batches| ==> times[i] in grouped && batches[i] == SortedBatch(grouped[times[i]])
  {
    batches := [];
    for i := 0 to |times|
      invariant |batches| == i
      invariant forall j :: 0 <= j < i ==> times[j] in grouped && batches[j] == SortedBatch(grouped[times[j]])
    {
      assert times[i] in times;
      var sorted := SortedBatch(grouped[times[i]]);
      batches := batches + [sorted];
    }
  }

  lemma OneCopyMore(before: seq<TempVoltageFile>, file: TempVoltageFile, t: nat, batch: seq<VoltageFile>, v: VoltageFile)
    requires multiset(batch)[v] == multiset(before)[TempVoltageFile(v.filename, v.channelIdentifier, t)]
    ensures multiset(batch + if file.gpsTimeSeconds == t then [VoltageFile(file.filename, file.channelIdentifier)] else [])[v] ==
            multiset(before + [file])[TempVoltageFile(v.filename, v.channelIdentifier, t)]
  {
    CountAppended(before, file, TempVoltageFile(v.filename, v.channelIdentifier, t));
    if file.gpsTimeSeconds == t {
      CountAppended(batch, VoltageFile(file.filename, file.channelIdentifier), v);
    } else {
      assert batch + [] == batch;
    }
  }

  /** A file is in its batch as often as it is among the files. */
  lemma {:induction false} CopiesInBatch(files: seq<TempVoltageFile>, n: nat, t: nat, v: VoltageFile)
    requires n <= |files|
    ensures multiset(FilesOfTime(files, n, t))[v] == multiset(files[..n])[TempVoltageFile(v.filename, v.channelIdentifier, t)]
  {
    if n > 0 {
      CopiesInBatch(files, n - 1, t, v);
      OneCopyMore(files[..n - 1], files[n - 1], t, FilesOfTime(files, n - 1, t), v);
      NextPrefix(files, n - 1);
    }
  }

  /** The batches are a partition of the files: they are in order of time, none is empty, and each holds
      every file as often as it was given with that time, in order of channel. */
  ghost predicate IsPartition(batches: seq<VoltageFileBatch>, files: seq<TempVoltageFile>) {
    && (forall i, j :: 0 <= i < j < |batches| ==> batches[i].gpsTimeSeconds < batches[j].gpsTimeSeconds)
    && (forall i :: 0 <= i < |batches| ==> batches[i].voltageFiles != [])
    && (forall k :: 0 <= k < |files| ==> exists i :: 0 <= i < |batches| && batches[i].gpsTimeSeconds == files[k].gpsTimeSeconds)
    && (forall b: nat, v: VoltageFile :: b < |batches| ==>
          multiset(batches[b].voltageFiles)[v] ==
          multiset(files)[TempVoltageFile(v.filename, v.channelIdentifier, batches[b].gpsTimeSeconds)])
    && (forall b, i, j :: 0 <= b < |batches| && 0 <= i < j < |batches[b].voltageFiles| ==>
          batches[b].voltageFiles[i].channelIdentifier <= batches[b].voltageFiles[j].channelIdentifier)
  }

  lemma BatchesPartition(batches: seq<VoltageFileBatch>, files: seq<TempVoltageFile>)
    requires IsBatchList(batches, files)
    ensures IsPartition(batches, files)
  {
    var times := SortedSet(GpsTimes(files, |files|));
    assert files[..|files|] == files;
    forall b: nat, v: VoltageFile | b < |batches|
      ensures multiset(batches[b].voltageFiles)[v] ==
              multiset(files)[TempVoltageFile(v.filename, v.channelIdentifier, batches[b].gpsTimeSeconds)]
    {
      CopiesInBatch(files, |files|, times[b], v);
    }
    forall k | 0 <= k < |files|
      ensures exists i :: 0 <= i < |batches| && batches[i].gpsTimeSeconds == files[k].gpsTimeSeconds
    {
      assert files[k].gpsTimeSeconds in times;
      var i :| 0 <= i < |times| && times[i] == files[k].gpsTimeSeconds;
      assert batches[i].gpsTimeSeconds == times[i];
    }
    BatchesInOrder(batches, files);
  }

  lemma BatchesInOrder(batches: seq<VoltageFileBatch>, files: seq<TempVoltageFile>)
    requires IsBatchList(batches, files)
    ensures forall i :: 0 <= i < |batches| ==> batches[i].voltageFiles != []
    ensures forall b, i, j :: 0 <= b < |batches| && 0 <= i < j < |batches[b].voltageFiles| ==>
              batches[b].voltageFiles[i].channelIdentifier <= batches[b].voltageFiles[j].channelIdentifier
  {
    var times := SortedSet(GpsTimes(files, |files|));
    forall b | 0 <= b < |batches|
      ensures batches[b].voltageFiles != []
      ensures forall i, j :: 0 <= i < j < |batches[b].voltageFiles| ==>
                batches[b].voltageFiles[i].channelIdentifier <= batches[b].voltageFiles[j].channelIdentifier
    {
      var vs, t := batches[b].voltageFiles, times[b];
      assert t in times;
      FilesOfTimeMembers(files, |files|, t, VoltageFile("", 0));
      assert |multiset(vs)| == |vs| && |multiset(FilesOfTime(files, |files|, t))| == |FilesOfTime(files, |files|, t)|;
      forall i, j | 0 <= i < j < |vs|
        ensures vs[i].channelIdentifier <= vs[j].channelIdentifier
      {
        assert ChannelKey(vs[i]) <= ChannelKey(vs[j]);
      }
    }
  }

  ghost function PlacesOf(files: seq<TempVoltageFile>, n: nat, t: nat): set<int>
    requires n <= |files|
  {
    set k | 0 <= k < n && files[k].gpsTimeSeconds == t
  }

  lemma PlacesNext(files: seq<TempVoltageFile>, n: nat, t: nat)
    requires n < |files|
    ensures PlacesOf(files, n + 1, t) == PlacesOf(files, n, t) + if files[n].gpsTimeSeconds == t then {n as int} else {}
    ensures n !in PlacesOf(files, n, t)
  {
  }

  /** The batch check counts the places at which a time occurs. */
  lemma {:induction false} FilesOfTimeCount(files: seq<TempVoltageFile>, n: nat, t: nat)
    requires n <= |files|
    ensures |FilesOfTime(files, n, t)| == |PlacesOf(files, n, t)|
  {
    if n > 0 {
      FilesOfTimeCount(files, n - 1, t);
      PlacesNext(files, n - 1, t);
    }
  }

  // ---------------------------------------------------------------- the time map

  /** The first of the first `n` files with this time and channel. */
  function FirstFile(files: seq<TempVoltageFile>, n: nat, t: nat, c: nat): Option<string>
    requires n <= |files|
  {
    if n == 0 then None
    else
      match FirstFile(files, n - 1, t, c)
      case Some(f) => Some(f)
      case None =>
        if files[n - 1].gpsTimeSeconds == t && files[n - 1].channelIdentifier == c then Some(files[n - 1].filename) else None
  }

  ghost predicate IsTimeMap(m: VoltageFileTimeMap, files: seq<TempVoltageFile>, n: nat)
    requires n <= |files|
  {
    && m.Keys == GpsTimes(files, n)
    && forall t, c :: GpuboxFiles.Lookup(m, t, c) == FirstFile(files, n, t, c)
  }

  method CreateTimeMap(files: seq<TempVoltageFile>) returns (m: VoltageFileTimeMap)
    ensures IsTimeMap(m, files, |files|)
  {
    m := map[];
    for k := 0 to |files|
      invariant IsTimeMap(m, files, k)
    {
      AddFile(m, files, k);
      m := GpuboxFiles.InsertIfAbsent(m, files[k].gpsTimeSeconds, files[k].channelIdentifier, files[k].filename);
    }
  }

  lemma AddFile(m: VoltageFileTimeMap, files: seq<TempVoltageFile>, k: nat)
    requires k < |files| && IsTimeMap(m, files, k)
    ensures IsTimeMap(GpuboxFiles.InsertIfAbsent(m, files[k].gpsTimeSeconds, files[k].channelIdentifier, files[k].filename),
                      files, k + 1)
  {
    var m' := GpuboxFiles.InsertIfAbsent(m, files[k].gpsTimeSeconds, files[k].channelIdentifier, files[k].filename);
    GpsTimesNext(files, k);
    forall t: nat, c: nat
      ensures GpuboxFiles.Lookup(m', t, c) == FirstFile(files, k + 1, t, c)
    {
      assert GpuboxFiles.Lookup(m, t, c) == FirstFile(files, k, t, c);
    }
  }

  // ---------------------------------------------------------------- looking files up

  /** The file of a time and channel, searched for in the batches. */
  function FindFile(batches: seq<VoltageFileBatch>, gpsMs: nat, c: nat): Option<string> {
    match Position(batches, (b: VoltageFileBatch) => b.gpsTimeSeconds * 1000 == gpsMs)
    case None => None
    case Some(i) =>
      var files := batches[i].voltageFiles;
      match Position(files, (v: VoltageFile) => v.channelIdentifier == c)
      case None => None
      case Some(k) => Some(files[k].filename)
  }

  ghost predicate UniqueFiles(files: seq<TempVoltageFile>) {
    forall i, j :: 0 <= i < j < |files| ==>
      !(files[i].gpsTimeSeconds == files[j].gpsTimeSeconds && files[i].channelIdentifier == files[j].channelIdentifier)
  }

  lemma {:induction false} FirstFileSpec(files: seq<TempVoltageFile>, n: nat, t: nat, c: nat) returns (k: nat)
    requires n <= |files|
    ensures FirstFile(files, n, t, c).None? ==>
              forall j :: 0 <= j < n ==> !(files[j].gpsTimeSeconds == t && files[j].channelIdentifier == c)
    ensures FirstFile(files, n, t, c).Some? ==>
              && k < n && files[k] == TempVoltageFile(FirstFile(files, n, t, c).value, c, t)
              && forall j :: 0 <= j < k ==> !(files[j].gpsTimeSeconds == t && files[j].channelIdentifier == c)
  {
    k := 0;
    if n > 0 {
      k := FirstFileSpec(files, n - 1, t, c);
      if FirstFile(files, n - 1, t, c).None? {
        k := n - 1;
      }
    }
  }

  lemma FindBatch(batches: seq<VoltageFileBatch>, files: seq<TempVoltageFile>, t: nat)
    requires IsBatchList(batches, files)
    ensures var i := Position(batches, (b: VoltageFileBatch) => b.gpsTimeSeconds * 1000 == t * 1000);
            && (i.Some? <==> t in GpsTimes(files, |files|))
            && (i.Some? ==>
                  batches[i.value].gpsTimeSeconds == t
                  && multiset(batches[i.value].voltageFiles) == multiset(FilesOfTime(files, |files|, t)))
  {
    var times := SortedSet(GpsTimes(files, |files|));
    if t in GpsTimes(files, |files|) {
      assert t in times;
      var k :| 0 <= k < |times| && times[k] == t;
      assert batches[k].gpsTimeSeconds == t;
    }
    var i := Position(batches, (b: VoltageFileBatch) => b.gpsTimeSeconds * 1000 == t * 1000);
    if i.Some? {
      assert times[i.value] == t && times[i.value] in times;
    }
  }

  /** With at most one file per time and channel, searching the batches and looking in the
      time map come to the same. */
  lemma LookupsAgree(batches: seq<VoltageFileBatch>, m: VoltageFileTimeMap, files: seq<TempVoltageFile>, t: nat, c: nat)
    requires IsBatchList(batches, files) && IsTimeMap(m, files, |files|) && UniqueFiles(files)
    ensures FindFile(batches, t * 1000, c) == GpuboxFiles.Lookup(m, t, c)
  {
    FindBatch(batches, files, t);
    var k := FirstFileSpec(files, |files|, t, c);
    var i := Position(batches, (b: VoltageFileBatch) => b.gpsTimeSeconds * 1000 == t * 1000);
    assert GpuboxFiles.Lookup(m, t, c) == FirstFile(files, |files|, t, c);
    if i.Some? {
      FoundInBatch(batches[i.value].voltageFiles, files, t, c, k);
    } else {
      assert forall j :: 0 <= j < |files| ==> files[j].gpsTimeSeconds in GpsTimes(files, |files|);
    }
  }

  lemma BatchMembers(vs: seq<VoltageFile>, files: seq<TempVoltageFile>, t: nat, v: VoltageFile)
    requires multiset(vs) == multiset(FilesOfTime(files, |files|, t))
    ensures v in vs <==> TempVoltageFile(v.filename, v.channelIdentifier, t) in files
  {
    FilesOfTimeMembers(files, |files|, t, v);
    assert v in vs <==> v in multiset(vs);
    assert v in FilesOfTime(files, |files|, t) <==> v in multiset(FilesOfTime(files, |files|, t));
  }

  lemma FoundWithin(vs: seq<VoltageFile>, files: seq<TempVoltageFile>, t: nat, c: nat)
    requires multiset(vs) == multiset(FilesOfTime(files, |files|, t))
    ensures var p := Position(vs, (v: VoltageFile) => v.channelIdentifier == c);
            && (p.Some? <==> FirstFile(files, |files|, t, c).Some?)
            && (p.Some? ==> TempVoltageFile(vs[p.value].filename, c, t) in files)
  {
    var k := FirstFileSpec(files, |files|, t, c);
    var p := Position(vs, (v: VoltageFile) => v.channelIdentifier == c);
    if p.Some? {
      assert vs[p.value] in vs;
      BatchMembers(vs, files, t, vs[p.value]);
    } else if FirstFile(files, |files|, t, c).Some? {
      BatchMembers(vs, files, t, VoltageFile(files[k].filename, c));
    }
  }

  /** Searching the batches finds a file of that time and channel whenever there is one. */
  lemma FindFileFinds(batches: seq<VoltageFileBatch>, files: seq<TempVoltageFile>, t: nat, c: nat)
    requires IsBatchList(batches, files)
    ensures FindFile(batches, t * 1000, c).Some? <==> FirstFile(files, |files|, t, c).Some?
    ensures FindFile(batches, t * 1000, c).Some? ==> TempVoltageFile(FindFile(batches, t * 1000, c).value, c, t) in files
  {
    FindBatch(batches, files, t);
    var i := Position(batches, (b: VoltageFileBatch) => b.gpsTimeSeconds * 1000 == t * 1000);
    if i.Some? {
      FoundWithin(batches[i.value].voltageFiles, files, t, c);
    } else {
      var k := FirstFileSpec(files, |files|, t, c);
      assert forall j :: 0 <= j < |files| ==> files[j].gpsTimeSeconds in GpsTimes(files, |files|);
    }
  }

  lemma FoundInBatch(vs: seq<VoltageFile>, files: seq<TempVoltageFile>, t: nat, c: nat, k: nat)
    requires multiset(vs) == multiset(FilesOfTime(files, |files|, t)) && UniqueFiles(files)
    requires FirstFile(files, |files|, t, c).None? ==>
               forall j :: 0 <= j < |files| ==> !(files[j].gpsTimeSeconds == t && files[j].channelIdentifier == c)
    requires FirstFile(files, |files|, t, c).Some? ==>
               k < |files| && files[k] == TempVoltageFile(FirstFile(files, |files|, t, c).value, c, t)
    ensures var p := Position(vs, (v: VoltageFile) => v.channelIdentifier == c);
            FirstFile(files, |files|, t, c) == if p.Some? then Some(vs[p.value].filename) else None
  {
    var p := Position(vs, (v: VoltageFile) => v.channelIdentifier == c);
    var listed := FilesOfTime(files, |files|, t);
    forall v | v in vs
      ensures exists j :: 0 <= j < |files| && files[j] == TempVoltageFile(v.filename, v.channelIdentifier, t)
    {
      assert v in multiset(vs) && v in listed;
      FilesOfTimeMembers(files, |files|, t, v);
    }
    if FirstFile(files, |files|, t, c).Some? {
      var mine := VoltageFile(files[k].filename, c);
      FilesOfTimeMembers(files, |files|, t, mine);
      assert mine in multiset(listed) && mine in multiset(vs);
      assert p.Some? && vs[p.value] in vs;
    }
  }

  // ---------------------------------------------------------------- common times

  function Ms(seconds: nat): nat {
    seconds * 1000
  }

  /** The map with its times in milliseconds. */
  function InMs<V>(m: map<nat, map<nat, V>>): map<nat, map<nat, V>> {
    map t | t in m :: Ms(t) := m[t]
  }

  lemma InMsEntry<V>(m: map<nat, map<nat, V>>, t: nat)
    requires t in m
    ensures Ms(t) in InMs(m) && InMs(m)[Ms(t)] == m[t]
  {
  }

  lemma InMsTime<V>(m: map<nat, map<nat, V>>, u: nat) returns (t: nat)
    requires u in InMs(m)
    ensures t in m && u == Ms(t) && InMs(m)[u] == m[t]
  {
    t :| t in m && Ms(t) == u;
  }

  lemma SeenInMs<V>(m: map<nat, map<nat, V>>)
    ensures GpuboxFiles.SeenChannels(InMs(m)) == GpuboxFiles.SeenChannels(m)
  {
    var r := InMs(m);
    forall c
      ensures c in GpuboxFiles.SeenChannels(r) <==> c in GpuboxFiles.SeenChannels(m)
    {
      if t :| t in m && c in m[t] {
        InMsEntry(m, t);
      }
      if u :| u in r && c in r[u] {
        var t := InMsTime(m, u);
      }
    }
  }

  /** The same computation as for visibility files, with times in seconds: its result is that
      of the visibility files' on the map with times in milliseconds. */
  method DetermineCommonObsTimesAndChans(timeMap: VoltageFileTimeMap, durationMs: nat, goodTimeMs: Option<nat>)
    returns (r: Option<ObsTimesAndChans>)
    ensures r == CommonRun(GpuboxFiles.ChannelSets(InMs(timeMap)), durationMs, goodTimeMs)
  {
    var late := map t | t in timeMap && (goodTimeMs.None? || goodTimeMs.value <= Ms(t)) :: timeMap[t];
    var maxChans := |GpuboxFiles.SeenChannels(timeMap)|;
    ghost var m := GpuboxFiles.ChannelSets(InMs(timeMap));
    var filtered := FilterTimes(timeMap, late, maxChans, m, goodTimeMs);
    r := FollowRun(late, filtered, maxChans, m, durationMs);
  }

  ghost function AllMs(seconds: seq<nat>): (r: seq<nat>)
    requires Ascending(seconds)
    ensures |r| == |seconds| && Ascending(r) && forall i :: 0 <= i < |r| ==> r[i] == Ms(seconds[i])
  {
    seq(|seconds|, i requires 0 <= i < |seconds| => Ms(seconds[i]))
  }

  lemma AllMsMember(seconds: seq<nat>, t: nat)
    requires Ascending(seconds)
    ensures Ms(t) in AllMs(seconds) <==> t in seconds
  {
    if t in seconds {
      var i :| 0 <= i < |seconds| && seconds[i] == t;
      assert AllMs(seconds)[i] == Ms(t);
    }
  }

  /** The second `t` is one of the filtered times, and its millisecond is a full time with the same channels. */
  ghost predicate Selected(t: nat, late: VoltageFileTimeMap, maxChans: nat, m: ChannelMap) {
    t in late && |late[t]| == maxChans && Ms(t) in m && m[Ms(t)] == late[t].Keys
  }

  method FilterTimes(timeMap: VoltageFileTimeMap, late: VoltageFileTimeMap, maxChans: nat, ghost m: ChannelMap, good: Option<nat>)
    returns (filtered: seq<nat>)
    requires m == GpuboxFiles.ChannelSets(InMs(timeMap))
    requires late == map t | t in timeMap && (good.None? || good.value <= Ms(t)) :: timeMap[t]
    requires maxChans == |GpuboxFiles.SeenChannels(timeMap)|
    ensures Ascending(filtered) && AllMs(filtered) == FullTimes(m, good)
    ensures forall t :: t in AllMs(filtered) ==> t in m
    ensures forall t :: t in filtered ==> Selected(t, late, maxChans, m)
  {
    filtered := SortedSet(set t | t in late && |late[t]| == maxChans);
    forall t: nat
      ensures t in filtered <==> RunTime(m, Ms(t), good)
      ensures t in filtered ==> Selected(t, late, maxChans, m)
    {
      SecondIsFull(timeMap, late, maxChans, m, good, t);
    }
    FilteredInMs(timeMap, filtered, m, good);
  }

  lemma SecondIsFull(timeMap: VoltageFileTimeMap, late: VoltageFileTimeMap, maxChans: nat, m: ChannelMap, good: Option<nat>, t: nat)
    requires m == GpuboxFiles.ChannelSets(InMs(timeMap))
    requires late == map t | t in timeMap && (good.None? || good.value <= Ms(t)) :: timeMap[t]
    requires maxChans == |GpuboxFiles.SeenChannels(timeMap)|
    ensures RunTime(m, Ms(t), good) <==> t in late && |late[t]| == maxChans
    ensures RunTime(m, Ms(t), good) ==> Selected(t, late, maxChans, m)
  {
    FullInMs(timeMap, m, t);
  }

  lemma FullInMs(timeMap: VoltageFileTimeMap, m: ChannelMap, t: nat)
    requires m == GpuboxFiles.ChannelSets(InMs(timeMap))
    ensures Ms(t) in m <==> t in timeMap
    ensures t in timeMap ==>
              && m[Ms(t)] == timeMap[t].Keys
              && (m[Ms(t)] == AllChannels(m) <==> |timeMap[t]| == |GpuboxFiles.SeenChannels(timeMap)|)
  {
    SeenInMs(timeMap);
    GpuboxFiles.SeenAreAll(InMs(timeMap));
    if t in timeMap {
      InMsEntry(timeMap, t);
      FullHasEveryChannel(m, Ms(t));
      assert |timeMap[t].Keys| == |timeMap[t]|;
    } else if Ms(t) in m {
      var t' := InMsTime(timeMap, Ms(t));
    }
  }

  lemma FilteredInMs(timeMap: VoltageFileTimeMap, filtered: seq<nat>, m: ChannelMap, good: Option<nat>)
    requires m == GpuboxFiles.ChannelSets(InMs(timeMap)) && Ascending(filtered)
    requires forall t: nat :: t in filtered <==> RunTime(m, Ms(t), good)
    ensures AllMs(filtered) == FullTimes(m, good)
  {
    forall u: nat
      ensures u in AllMs(filtered) <==> RunTime(m, u, good)
    {
      if u in AllMs(filtered) {
        var i :| 0 <= i < |AllMs(filtered)| && AllMs(filtered)[i] == u;
        assert filtered[i] in filtered;
      }
      if RunTime(m, u, good) {
        var t := InMsTime(timeMap, u);
        AllMsMember(filtered, t);
      }
    }
    FullTimesAre(m, good, AllMs(filtered));
  }

  method FollowRun(late: VoltageFileTimeMap, filtered: seq<nat>, maxChans: nat, ghost m: ChannelMap, durationMs: nat)
    returns (r: Option<ObsTimesAndChans>)
    requires Ascending(filtered) && forall t :: t in AllMs(filtered) ==> t in m
    requires forall t :: t in filtered ==> Selected(t, late, maxChans, m)
    ensures r == RunOver(AllMs(filtered), m, durationMs)
  {
    if filtered == [] {
      return None;
    }
    ghost var full := AllMs(filtered);
    assert filtered[0] in filtered;
    var firstChans := SortedSet(late[filtered[0]].Keys);
    assert |late[filtered[0]].Keys| == |late[filtered[0]]|;
    var start := filtered[0] * 1000;
    var end := start + durationMs;
    var prev := start;
    var i := 1;
    while i < |filtered|
      invariant 1 <= i <= |filtered| && prev == full[i - 1] && end == prev + durationMs
      invariant forall j :: 1 <= j < i ==> full[j] == full[j - 1] + durationMs
    {
      var ts: nat := filtered[i];
      assert ts in filtered;
      if ts * 1000 == prev + durationMs && |firstChans| == |late[ts]| {
        end := ts * 1000 + durationMs;
        prev := ts * 1000;
      } else {
        break;
      }
      i := i + 1;
    }
    RunOfPrefix(full, m, durationMs, i);
    return Some(ObsTimesAndChans(start, end, end - start, firstChans));
  }
}
