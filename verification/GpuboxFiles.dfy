/** Organising visibility files (src/gpubox_files/mod.rs). */
module GpuboxFiles {
  import opened Collections
  import opened CommonRuns
  import opened Wrappers

  datatype GpuboxError =
    | InvalidTimeStepIndex(max: nat)
    | InvalidCoarseChanIndex(max: nat)
    | NoGpuboxes
    | NoDataForTimeStepCoarseChannel(timestepIndex: nat, coarseChanIndex: nat)
    | Fits

  /** A file as its name describes it. */
  datatype TempGpuBoxFile = TempGpuBoxFile(filename: string, channelIdentifier: nat, batchNumber: nat)

  datatype GpuBoxFile = GpuBoxFile(filename: string, channelIdentifier: nat)

  datatype GpuBoxBatch = GpuBoxBatch(batchNumber: nat, gpuboxFiles: seq<GpuBoxFile>)

  /** UNIX time in ms, then channel, to batch number and HDU index. */
  type GpuboxTimeMap = map<nat, map<nat, (nat, nat)>>

  /** What opening a file gives: its HDU index for each UNIX time, or an error. */
  type HduMap = Outcome<map<nat, nat>, GpuboxError>

  // ---------------------------------------------------------------- the time map

  function Lookup<V>(m: map<nat, map<nat, V>>, t: nat, c: nat): Option<V> {
    if t in m && c in m[t] then Some(m[t][c]) else None
  }

  ghost predicate NoEmptyTimes<V>(m: map<nat, map<nat, V>>) {
    forall t :: t in m ==> m[t] != map[]
  }

  /** Adds an entry unless there already is one. */
  function InsertIfAbsent<V>(m: map<nat, map<nat, V>>, t: nat, c: nat, v: V): (r: map<nat, map<nat, V>>)
    ensures forall t', c' :: Lookup(r, t', c') == if t' == t && c' == c && Lookup(m, t, c).None? then Some(v) else Lookup(m, t', c')
    ensures NoEmptyTimes(m) ==> NoEmptyTimes(r)
  {
    var channels := if t in m then m[t] else map[];
    var channels' := if c in channels then channels else channels[c := v];
    assert c in channels';
    m[t := channels']
  }

  /** What the first of the first `n` files with this channel and time says. */
  function FirstEntry(files: seq<TempGpuBoxFile>, hdus: seq<map<nat, nat>>, n: nat, t: nat, c: nat): Option<(nat, nat)>
    requires n <= |files| == |hdus|
  {
    if n == 0 then None
    else
      match FirstEntry(files, hdus, n - 1, t, c)
      case Some(e) => Some(e)
      case None => if Has(files, hdus, n - 1, t, c) then Some((files[n - 1].batchNumber, hdus[n - 1][t])) else None
  }

  /** File `k` is of channel `c` and has an HDU for time `t`. */
  predicate Has(files: seq<TempGpuBoxFile>, hdus: seq<map<nat, nat>>, k: nat, t: nat, c: nat)
    requires k < |files| == |hdus|
  {
    files[k].channelIdentifier == c && t in hdus[k]
  }

  /** Every cell of the map is what the first file with that channel and time says. */
  ghost predicate IsTimeMap(m: GpuboxTimeMap, files: seq<TempGpuBoxFile>, hdus: seq<map<nat, nat>>)
    requires |files| == |hdus|
  {
    && (forall t, c :: Lookup(m, t, c) == FirstEntry(files, hdus, |files|, t, c))
    && NoEmptyTimes(m)
  }

  /** Cell (t, c) after the HDUs at the times in `done` of a file have been added to `m`. */
  ghost function Merged(m: GpuboxTimeMap, file: TempGpuBoxFile, hdus: map<nat, nat>, done: seq<nat>, t: nat, c: nat):
    Option<(nat, nat)>
  {
    if c == file.channelIdentifier && t in done && t in hdus && Lookup(m, t, c).None? then Some((file.batchNumber, hdus[t]))
    else Lookup(m, t, c)
  }

  ghost predicate IsMerged(r: GpuboxTimeMap, m: GpuboxTimeMap, file: TempGpuBoxFile, hdus: map<nat, nat>, done: seq<nat>) {
    NoEmptyTimes(r) && forall t, c :: Lookup(r, t, c) == Merged(m, file, hdus, done, t, c)
  }

  lemma MergeNext(m: GpuboxTimeMap, r: GpuboxTimeMap, file: TempGpuBoxFile, hdus: map<nat, nat>, done: seq<nat>, time: nat)
    requires time in hdus && IsMerged(r, m, file, hdus, done)
    ensures IsMerged(InsertIfAbsent(r, time, file.channelIdentifier, (file.batchNumber, hdus[time])), m, file, hdus, done + [time])
  {
    var r' := InsertIfAbsent(r, time, file.channelIdentifier, (file.batchNumber, hdus[time]));
    forall t: nat, c: nat
      ensures Lookup(r', t, c) == Merged(m, file, hdus, done + [time], t, c)
    {
      assert Lookup(r, t, c) == Merged(m, file, hdus, done, t, c);
      assert t in done + [time] <==> t in done || t == time;
    }
  }

  lemma MergeStep(m: GpuboxTimeMap, r: GpuboxTimeMap, file: TempGpuBoxFile, hdus: map<nat, nat>, times: seq<nat>, k: nat)
    requires k < |times| && times[k] in hdus && IsMerged(r, m, file, hdus, times[..k])
    ensures IsMerged(InsertIfAbsent(r, times[k], file.channelIdentifier, (file.batchNumber, hdus[times[k]])), m, file, hdus, times[..k + 1])
  {
    assert times[..k + 1] == times[..k] + [times[k]];
    MergeNext(m, r, file, hdus, times[..k], times[k]);
  }

  lemma NothingMerged(m: GpuboxTimeMap, file: TempGpuBoxFile, hdus: map<nat, nat>)
    requires NoEmptyTimes(m)
    ensures IsMerged(m, m, file, hdus, [])
  {
  }

  /** Merges one file's map, entry by entry. */
  method MergeFile(m: GpuboxTimeMap, file: TempGpuBoxFile, hdus: map<nat, nat>) returns (r: GpuboxTimeMap)
    requires NoEmptyTimes(m)
    ensures IsMerged(r, m, file, hdus, SortedSet(hdus.Keys))
  {
    r := m;
    var times := SortedSet(hdus.Keys);
    NothingMerged(m, file, hdus);
    assert times[..0] == [];
    for k := 0 to |times|
      invariant IsMerged(r, m, file, hdus, times[..k])
    {
      assert times[k] in times;
      MergeStep(m, r, file, hdus, times, k);
      r := InsertIfAbsent(r, times[k], file.channelIdentifier, (file.batchNumber, hdus[times[k]]));
    }
    assert times[..|times|] == times;
  }

  /** Every cell of the map is what the first of the first `n` files with that channel and time says. */
  ghost predicate HoldsFirst(m: GpuboxTimeMap, files: seq<TempGpuBoxFile>, hdus: seq<map<nat, nat>>, n: nat)
    requires n <= |files| == |hdus|
  {
    NoEmptyTimes(m) && forall t, c :: Lookup(m, t, c) == FirstEntry(files, hdus, n, t, c)
  }

  lemma MergedFile(before: GpuboxTimeMap, m: GpuboxTimeMap, files: seq<TempGpuBoxFile>, hdus: seq<map<nat, nat>>, k: nat)
    requires k < |files| == |hdus| && HoldsFirst(before, files, hdus, k)
    requires IsMerged(m, before, files[k], hdus[k], SortedSet(hdus[k].Keys))
    ensures HoldsFirst(m, files, hdus, k + 1)
  {
    forall t: nat, c: nat
      ensures Lookup(m, t, c) == FirstEntry(files, hdus, k + 1, t, c)
    {
      assert Lookup(before, t, c) == FirstEntry(files, hdus, k, t, c);
    }
  }

  method CreateTimeMap(files: seq<TempGpuBoxFile>, maps: seq<HduMap>, ghost hdus: seq<map<nat, nat>>)
    returns (r: Outcome<GpuboxTimeMap, GpuboxError>)
    requires |files| == |maps| == |hdus|
    requires forall k :: 0 <= k < |maps| ==> !maps[k].Panic? && (maps[k].Ok? ==> hdus[k] == maps[k].value)
    ensures !r.Panic?
    ensures r.Ok? <==> forall k :: 0 <= k < |maps| ==> maps[k].Ok?
    ensures r.Ok? ==> IsTimeMap(r.value, files, hdus)
    ensures r.Err? ==> exists k :: 0 <= k < |maps| && maps[k] == Err(r.error) && forall j :: 0 <= j < k ==> maps[j].Ok?
  {
    var m: GpuboxTimeMap := map[];
    for k := 0 to |files|
      invariant forall j :: 0 <= j < k ==> maps[j].Ok?
      invariant HoldsFirst(m, files, hdus, k)
    {
      match maps[k]
      case Err(e) => return Err(e);
      case Ok(hdu) =>
        ghost var before := m;
        m := MergeFile(m, files[k], hdu);
        MergedFile(before, m, files, hdus, k);
    }
    return Ok(m);
  }

  lemma {:induction false} FirstEntrySpec(files: seq<TempGpuBoxFile>, hdus: seq<map<nat, nat>>, n: nat, t: nat, c: nat)
    returns (k: nat)
    requires n <= |files| == |hdus|
    ensures FirstEntry(files, hdus, n, t, c).None? ==> forall j :: 0 <= j < n ==> !Has(files, hdus, j, t, c)
    ensures FirstEntry(files, hdus, n, t, c).Some? ==>
              && k < n && Has(files, hdus, k, t, c)
              && FirstEntry(files, hdus, n, t, c).value == (files[k].batchNumber, hdus[k][t])
              && forall j :: 0 <= j < k ==> !Has(files, hdus, j, t, c)
  {
    k := 0;
    if n > 0 {
      k := FirstEntrySpec(files, hdus, n - 1, t, c);
      if FirstEntry(files, hdus, n - 1, t, c).None? {
        k := n - 1;
      }
    }
  }

  /** The times and channels of the map are those of the files. */
  lemma TimeMapTimes(m: GpuboxTimeMap, files: seq<TempGpuBoxFile>, hdus: seq<map<nat, nat>>, t: nat)
    requires |files| == |hdus| && IsTimeMap(m, files, hdus)
    ensures t in m <==> exists k :: 0 <= k < |files| && t in hdus[k]
  {
    if t in m {
      assert m[t] != map[];
      var c :| c in m[t];
      assert Lookup(m, t, c).Some?;
      var k := FirstEntrySpec(files, hdus, |files|, t, c);
    }
    if k :| 0 <= k < |files| && t in hdus[k] {
      var c := files[k].channelIdentifier;
      assert Has(files, hdus, k, t, c);
      var j := FirstEntrySpec(files, hdus, |files|, t, c);
      assert Lookup(m, t, c).Some?;
    }
  }

  // ---------------------------------------------------------------- batches

  function ChannelKey(f: GpuBoxFile): int {
    f.channelIdentifier
  }

  /** The first `n` files that belong to batch `b`, in order. */
  function FilesOfBatch(files: seq<TempGpuBoxFile>, n: nat, b: nat): seq<GpuBoxFile>
    requires n <= |files|
  {
    if n == 0 then []
    else
      FilesOfBatch(files, n - 1, b) +
      if files[n - 1].batchNumber == b then [GpuBoxFile(files[n - 1].filename, files[n - 1].channelIdentifier)] else []
  }

  /** One batch per number up to the largest, each with its files sorted by channel. */
  ghost predicate IsBatchList(batches: seq<GpuBoxBatch>, files: seq<TempGpuBoxFile>) {
    && (forall k :: 0 <= k < |files| ==> files[k].batchNumber < |batches|)
    && (exists k :: 0 <= k < |files| && files[k].batchNumber + 1 == |batches|)
    && forall b :: 0 <= b < |batches| ==>
         && batches[b].batchNumber == b
         && multiset(batches[b].gpuboxFiles) == multiset(FilesOfBatch(files, |files|, b))
         && SortedBy(batches[b].gpuboxFiles, ChannelKey)
  }

  method LargestBatch(files: seq<TempGpuBoxFile>) returns (max: nat)
    requires files != []
    ensures forall k :: 0 <= k < |files| ==> files[k].batchNumber <= max
    ensures exists k :: 0 <= k < |files| && files[k].batchNumber == max
  {
    max := files[0].batchNumber;
    for k := 1 to |files|
      invariant forall j :: 0 <= j < k ==> files[j].batchNumber <= max
      invariant exists j :: 0 <= j < k && files[j].batchNumber == max
    {
      if files[k].batchNumber > max { max := files[k].batchNumber; }
    }
  }

  method ConvertTempGpuboxes(files: seq<TempGpuBoxFile>) returns (batches: seq<GpuBoxBatch>)
    requires files != []
    ensures IsBatchList(batches, files)
  {
    var max := LargestBatch(files);
    var numBatches := max + 1;
    batches := [];
    for b := 0 to numBatches
      invariant |batches| == b && forall j :: 0 <= j < b ==> batches[j] == GpuBoxBatch(j, [])
    {
      batches := batches + [GpuBoxBatch(b, [])];
    }
    for k := 0 to |files|
      invariant |batches| == numBatches
      invariant forall b :: 0 <= b < |batches| ==> batches[b] == GpuBoxBatch(b, FilesOfBatch(files, k, b))
    {
      var b := files[k].batchNumber;
      var g := GpuBoxFile(files[k].filename, files[k].channelIdentifier);
      batches := batches[b := GpuBoxBatch(b, batches[b].gpuboxFiles + [g])];
    }
    batches := SortBatches(batches);
  }

  /** Sorts the files of every batch by channel. */
  method SortBatches(batches: seq<GpuBoxBatch>) returns (r: seq<GpuBoxBatch>)
    ensures |r| == |batches|
    ensures forall b :: 0 <= b < |r| ==>
              r[b] == GpuBoxBatch(batches[b].batchNumber, SortBy(batches[b].gpuboxFiles, ChannelKey))
  {
    r := batches;
    for b := 0 to |r|
      invariant |r| == |batches| && forall j :: b <= j < |r| ==> r[j] == batches[j]
      invariant forall j :: 0 <= j < b ==>
                  r[j] == GpuBoxBatch(batches[j].batchNumber, SortBy(batches[j].gpuboxFiles, ChannelKey))
    {
      r := r[b := GpuBoxBatch(r[b].batchNumber, SortBy(r[b].gpuboxFiles, ChannelKey))];
    }
  }

  lemma {:induction false} InBatch(files: seq<TempGpuBoxFile>, n: nat, b: nat, g: GpuBoxFile)
    requires n <= |files|
    ensures g in FilesOfBatch(files, n, b) <==>
            exists k :: 0 <= k < n && files[k] == TempGpuBoxFile(g.filename, g.channelIdentifier, b)
  {
    if n > 0 {
      InBatch(files, n - 1, b, g);
    }
  }

  lemma OneCopyMore(before: seq<TempGpuBoxFile>, file: TempGpuBoxFile, b: nat, batch: seq<GpuBoxFile>, g: GpuBoxFile)
    requires multiset(batch)[g] == multiset(before)[TempGpuBoxFile(g.filename, g.channelIdentifier, b)]
    ensures multiset(batch + if file.batchNumber == b then [GpuBoxFile(file.filename, file.channelIdentifier)] else [])[g] ==
            multiset(before + [file])[TempGpuBoxFile(g.filename, g.channelIdentifier, b)]
  {
    CountAppended(before, file, TempGpuBoxFile(g.filename, g.channelIdentifier, b));
    if file.batchNumber == b {
      CountAppended(batch, GpuBoxFile(file.filename, file.channelIdentifier), g);
    } else {
      assert batch + [] == batch;
    }
  }

  /** A file is in its batch as often as it is among the files. */
  lemma {:induction false} CopiesInBatch(files: seq<TempGpuBoxFile>, n: nat, b: nat, g: GpuBoxFile)
    requires n <= |files|
    ensures multiset(FilesOfBatch(files, n, b))[g] == multiset(files[..n])[TempGpuBoxFile(g.filename, g.channelIdentifier, b)]
  {
    if n > 0 {
      CopiesInBatch(files, n - 1, b, g);
      OneCopyMore(files[..n - 1], files[n - 1], b, FilesOfBatch(files, n - 1, b), g);
      NextPrefix(files, n - 1);
    }
  }

  /** The batches are a partition of the files: batch `b` is at place b and holds each file as often
      as it was given with that batch number, in order of channel. */
  ghost predicate IsPartition(batches: seq<GpuBoxBatch>, files: seq<TempGpuBoxFile>) {
    && (forall b :: 0 <= b < |batches| ==> batches[b].batchNumber == b)
    && (forall b: nat, g: GpuBoxFile :: b < |batches| ==>
          multiset(batches[b].gpuboxFiles)[g] == multiset(files)[TempGpuBoxFile(g.filename, g.channelIdentifier, b)])
    && (forall b, i, j :: 0 <= b < |batches| && 0 <= i < j < |batches[b].gpuboxFiles| ==>
          batches[b].gpuboxFiles[i].channelIdentifier <= batches[b].gpuboxFiles[j].channelIdentifier)
  }

  /** ... and there are as many batches as the largest number needs. */
  lemma BatchesPartition(batches: seq<GpuBoxBatch>, files: seq<TempGpuBoxFile>)
    ensures IsBatchList(batches, files) <==>
              && IsPartition(batches, files)
              && (forall k :: 0 <= k < |files| ==> files[k].batchNumber < |batches|)
              && exists k :: 0 <= k < |files| && files[k].batchNumber + 1 == |batches|
  {
    assert files[..|files|] == files;
    forall b: nat | b < |batches|
      ensures multiset(batches[b].gpuboxFiles) == multiset(FilesOfBatch(files, |files|, b)) <==>
              forall g: GpuBoxFile ::
                multiset(batches[b].gpuboxFiles)[g] == multiset(files)[TempGpuBoxFile(g.filename, g.channelIdentifier, b)]
    {
      forall g: GpuBoxFile
        ensures multiset(FilesOfBatch(files, |files|, b))[g] == multiset(files)[TempGpuBoxFile(g.filename, g.channelIdentifier, b)]
      {
        CopiesInBatch(files, |files|, b, g);
      }
    }
    BatchesSorted(batches);
  }

  lemma BatchesSorted(batches: seq<GpuBoxBatch>)
    ensures (forall b :: 0 <= b < |batches| ==> SortedBy(batches[b].gpuboxFiles, ChannelKey)) <==>
            forall b, i, j :: 0 <= b < |batches| && 0 <= i < j < |batches[b].gpuboxFiles| ==>
              batches[b].gpuboxFiles[i].channelIdentifier <= batches[b].gpuboxFiles[j].channelIdentifier
  {
    forall b | 0 <= b < |batches|
      ensures SortedBy(batches[b].gpuboxFiles, ChannelKey) <==>
              forall i, j :: 0 <= i < j < |batches[b].gpuboxFiles| ==>
                batches[b].gpuboxFiles[i].channelIdentifier <= batches[b].gpuboxFiles[j].channelIdentifier
    {
      ChannelsSorted(batches[b].gpuboxFiles);
    }
  }

  lemma ChannelsSorted(gs: seq<GpuBoxFile>)
    ensures SortedBy(gs, ChannelKey) <==> forall i, j :: 0 <= i < j < |gs| ==> gs[i].channelIdentifier <= gs[j].channelIdentifier
  {
    if SortedBy(gs, ChannelKey) {
      forall i, j | 0 <= i < j < |gs|
        ensures gs[i].channelIdentifier <= gs[j].channelIdentifier
      {
        assert ChannelKey(gs[i]) <= ChannelKey(gs[j]);
      }
    }
  }

  // ---------------------------------------------------------------- common times

  function ChannelSets<V>(m: map<nat, map<nat, V>>): ChannelMap {
    map t | t in m :: m[t].Keys
  }

  /** Every channel found at any time. */
  function SeenChannels<V>(m: map<nat, map<nat, V>>): set<nat> {
    set t, c | t in m && c in m[t] :: c
  }

  method DetermineCommonObsTimesAndChans(timeMap: GpuboxTimeMap, integrationMs: nat, goodTimeMs: Option<nat>)
    returns (r: Option<ObsTimesAndChans>)
    ensures r == CommonRun(ChannelSets(timeMap), integrationMs, goodTimeMs)
  {
    var late := map t | t in timeMap && (goodTimeMs.None? || goodTimeMs.value <= t) :: timeMap[t];
    var maxChans := |SeenChannels(timeMap)|;
    ghost var m := ChannelSets(timeMap);
    var filtered := FilterTimes(timeMap, late, maxChans, m, goodTimeMs);
    r := FollowRun(late, filtered, maxChans, m, integrationMs);
  }

  /** The times whose number of channels is the wanted one, in order. */
  method FilterTimes<V>(timeMap: map<nat, map<nat, V>>, late: map<nat, map<nat, V>>, maxChans: nat, ghost m: ChannelMap,
                        good: Option<nat>)
    returns (filtered: seq<nat>)
    requires m == ChannelSets(timeMap)
    requires late == map t | t in timeMap && (good.None? || good.value <= t) :: timeMap[t]
    requires maxChans == |SeenChannels(timeMap)|
    ensures filtered == FullTimes(m, good)
    ensures forall t :: t in filtered ==> t in late && |late[t]| == maxChans && m[t] == late[t].Keys
  {
    filtered := SortedSet(set t | t in late && |late[t]| == maxChans);
    FilteredTimes(timeMap, late, maxChans, filtered, m, good);
  }

  /** Takes the first of the filtered times, and goes on to the next until there is a gap or
      a time with another number of channels. */
  method FollowRun<V>(late: map<nat, map<nat, V>>, filtered: seq<nat>, maxChans: nat, ghost m: ChannelMap, integrationMs: nat)
    returns (r: Option<ObsTimesAndChans>)
    requires Ascending(filtered)
    requires forall t :: t in filtered ==> t in late && |late[t]| == maxChans && t in m && m[t] == late[t].Keys
    ensures r == RunOver(filtered, m, integrationMs)
  {
    if filtered == [] {
      return None;
    }
    assert filtered[0] in filtered;
    var start: nat := filtered[0];
    var firstChans := SortedSet(late[start].Keys);
    assert |late[start].Keys| == |late[start]|;
    var end := start + integrationMs;
    var prev := start;
    var i := 1;
    while i < |filtered|
      invariant 1 <= i <= |filtered| && prev == filtered[i - 1] && end == prev + integrationMs
      invariant forall j :: 1 <= j < i ==> filtered[j] == filtered[j - 1] + integrationMs
    {
      var ts: nat := filtered[i];
      assert ts in filtered;
      if ts == prev + integrationMs && |firstChans| == |late[ts]| {
        end := ts + integrationMs;
        prev := ts;
      } else {
        break;
      }
      i := i + 1;
    }
    RunLengthIsLongestPrefix(filtered, integrationMs, i);
    return Some(ObsTimesAndChans(start, end, end - start, firstChans));
  }

  lemma SeenAreAll<V>(timeMap: map<nat, map<nat, V>>)
    ensures SeenChannels(timeMap) == AllChannels(ChannelSets(timeMap))
  {
    var m := ChannelSets(timeMap);
    forall c
      ensures c in SeenChannels(timeMap) <==> c in AllChannels(m)
    {
      if t :| t in timeMap && c in timeMap[t] {
        assert c in m[t];
      }
      if t :| t in m && c in m[t] {
        assert c in timeMap[t];
      }
    }
  }

  lemma FilteredTimes<V>(timeMap: map<nat, map<nat, V>>, late: map<nat, map<nat, V>>, maxChans: nat, filtered: seq<nat>,
                         m: ChannelMap, good: Option<nat>)
    requires m == ChannelSets(timeMap)
    requires late == map t | t in timeMap && (good.None? || good.value <= t) :: timeMap[t]
    requires maxChans == |SeenChannels(timeMap)|
    requires Ascending(filtered) && forall t :: t in filtered <==> t in late && |late[t]| == maxChans
    ensures filtered == FullTimes(m, good)
  {
    SeenAreAll(timeMap);
    forall t
      ensures t in filtered <==> t in FullTimes(m, good)
    {
      if t in timeMap {
        assert |m[t]| == |timeMap[t]|;
      }
    }
    AscendingUnique(filtered, FullTimes(m, good));
  }
}
