/** The first unbroken run of times that hold every channel: what both
    `determine_common_obs_times_and_chans` functions compute (src/gpubox_files/mod.rs,
    src/voltage_files/mod.rs), on the channels present at each time in milliseconds. */
module CommonRuns {
  import opened Collections
  import opened Grid
  import opened Wrappers

  type ChannelMap = map<nat, set<nat>>

  /** Every channel seen at any time. */
  function AllChannels(m: ChannelMap): set<nat> {
    set t, c | t in m && c in m[t] :: c
  }

  /** The times not before the good time, if there is one. */
  predicate LateEnough(t: nat, good: Option<nat>) {
    good.None? || good.value <= t
  }

  /** The program compares numbers of channels only. */
  predicate IsFull(m: ChannelMap, t: nat) {
    t in m && |m[t]| == |AllChannels(m)|
  }

  /** Equal numbers force equal channels. */
  lemma FullHasEveryChannel(m: ChannelMap, t: nat)
    requires t in m
    ensures IsFull(m, t) <==> m[t] == AllChannels(m)
  {
    assert m[t] <= AllChannels(m);
    SubsetCount(m[t], AllChannels(m));
  }

  /** The full times in order. */
  function FullTimes(m: ChannelMap, good: Option<nat>): (r: seq<nat>)
    ensures Ascending(r)
    ensures forall t :: t in r <==> IsFull(m, t) && LateEnough(t, good)
  {
    SortedSet(set t | t in m && IsFull(m, t) && LateEnough(t, good))
  }

  /** How many of the times follow the first at intervals of exactly `d`, the first included. */
  function RunLength(times: seq<nat>, d: nat): (n: nat)
    requires times != []
    ensures 1 <= n <= |times|
  {
    if |times| > 1 && times[1] == times[0] + d then 1 + RunLength(times[1..], d) else 1
  }

  datatype ObsTimesAndChans = ObsTimesAndChans(startMs: nat, endMs: nat, durationMs: nat, channels: seq<nat>)

  function RunEnd(times: seq<nat>, d: nat): (end: nat)
    requires times != [] && Ascending(times)
    ensures times[0] + d <= end
  {
    times[RunLength(times, d) - 1] + d
  }

  function CommonRun(m: ChannelMap, d: nat, good: Option<nat>): Option<ObsTimesAndChans> {
    RunOver(FullTimes(m, good), m, d)
  }

  function RunOver(full: seq<nat>, m: ChannelMap, d: nat): Option<ObsTimesAndChans>
    requires Ascending(full) && forall t :: t in full ==> t in m
  {
    if full == [] then None
    else
      assert full[0] in full;
      Some(ObsTimesAndChans(full[0], RunEnd(full, d), RunEnd(full, d) - full[0], SortedSet(m[full[0]])))
  }

  // ---------------------------------------------------------------- what a run is

  /** `n` is the length of the longest prefix whose neighbours are exactly `d` apart. */
  ghost predicate LongestPrefix(times: seq<nat>, d: nat, n: nat) {
    && 1 <= n <= |times|
    && (forall i :: 1 <= i < n ==> times[i] == times[i - 1] + d)
    && (n < |times| ==> times[n] != times[n - 1] + d)
  }

  lemma {:induction false} RunLengthIsLongestPrefix(times: seq<nat>, d: nat, n: nat)
    requires times != []
    ensures LongestPrefix(times, d, n) <==> n == RunLength(times, d)
  {
    if |times| > 1 && times[1] == times[0] + d {
      var rest := times[1..];
      RunLengthIsLongestPrefix(rest, d, RunLength(rest, d));
      if n >= 1 {
        RunLengthIsLongestPrefix(rest, d, n - 1);
        assert LongestPrefix(times, d, n) ==> n >= 2 && LongestPrefix(rest, d, n - 1) by {
          assert forall i :: 0 <= i < |rest| ==> rest[i] == times[i + 1];
        }
        assert n - 1 == RunLength(rest, d) ==> LongestPrefix(times, d, n);
      }
    }
  }

  lemma {:induction false} PrefixTimes(times: seq<nat>, d: nat, n: nat, i: nat)
    requires LongestPrefix(times, d, n) && i < n
    ensures times[i] == times[0] + i * d
  {
    if i > 0 {
      PrefixTimes(times, d, n, i - 1);
      assert (i - 1) * d + d == i * d;
    }
  }

  lemma RunEndSpec(times: seq<nat>, d: nat)
    requires times != [] && Ascending(times)
    ensures RunEnd(times, d) == times[0] + RunLength(times, d) * d
  {
    var n := RunLength(times, d);
    RunLengthIsLongestPrefix(times, d, n);
    PrefixTimes(times, d, n, n - 1);
    assert (n - 1) * d + d == n * d;
  }

  /** Once the longest prefix is known, so is the run. */
  lemma RunOfPrefix(full: seq<nat>, m: ChannelMap, d: nat, n: nat)
    requires Ascending(full) && (forall t :: t in full ==> t in m) && LongestPrefix(full, d, n)
    ensures full[0] in m
    ensures RunOver(full, m, d) == Some(ObsTimesAndChans(full[0], full[n - 1] + d, full[n - 1] + d - full[0], SortedSet(m[full[0]])))
  {
    RunLengthIsLongestPrefix(full, d, n);
    assert full[0] in full;
  }

  /** A late enough time that holds every channel. */
  ghost predicate RunTime(m: ChannelMap, t: nat, good: Option<nat>) {
    t in m && m[t] == AllChannels(m) && (good.None? || good.value <= t)
  }

  lemma FullTimesAreRunTimes(m: ChannelMap, good: Option<nat>, t: nat)
    ensures t in FullTimes(m, good) <==> RunTime(m, t, good)
  {
    if t in m {
      FullHasEveryChannel(m, t);
    }
  }

  lemma FullTimesAre(m: ChannelMap, good: Option<nat>, times: seq<nat>)
    requires Ascending(times) && forall t :: t in times <==> RunTime(m, t, good)
    ensures FullTimes(m, good) == times
  {
    forall t
      ensures t in FullTimes(m, good) <==> t in times
    {
      FullTimesAreRunTimes(m, good, t);
    }
    AscendingUnique(FullTimes(m, good), times);
  }

  /** There is a run exactly when some late enough time holds every channel. */
  lemma CommonRunExists(m: ChannelMap, d: nat, good: Option<nat>)
    ensures CommonRun(m, d, good).Some? <==> exists t :: RunTime(m, t, good)
  {
    var full := FullTimes(m, good);
    if full != [] {
      assert full[0] in full;
      FullTimesAreRunTimes(m, good, full[0]);
      RunEndSpec(full, d);
    }
    forall t | RunTime(m, t, good)
      ensures t in full
    {
      FullTimesAreRunTimes(m, good, t);
    }
  }

  /** The run of a time map starts at the first time that holds every channel, and takes the
      longest prefix of such times at intervals of exactly `d`: `n` of them, each with the
      channels that the result lists. */
  lemma CommonRunMeaning(m: ChannelMap, d: nat, good: Option<nat>) returns (n: nat)
    requires CommonRun(m, d, good).Some?
    ensures LongestPrefix(FullTimes(m, good), d, n)
    ensures var r := CommonRun(m, d, good).value;
            && r.startMs == FullTimes(m, good)[0]
            && r.endMs == r.startMs + n * d && r.durationMs == n * d
            && r.channels == SortedSet(AllChannels(m))
    ensures forall i :: 0 <= i < n ==> RunTime(m, FullTimes(m, good)[i], good)
    ensures forall i :: 0 <= i < n ==> FullTimes(m, good)[i] == CommonRun(m, d, good).value.startMs + i * d
  {
    var full := FullTimes(m, good);
    n := RunLength(full, d);
    RunLengthIsLongestPrefix(full, d, n);
    RunEndSpec(full, d);
    forall i | 0 <= i < n
      ensures RunTime(m, full[i], good) && full[i] == full[0] + i * d
    {
      assert full[i] in full;
      FullTimesAreRunTimes(m, good, full[i]);
      PrefixTimes(full, d, n, i);
    }
    assert full[0] == full[0] + 0 * d && RunTime(m, full[0], good);
  }

  /** From `start` to `end` there are `n` steps, and a late enough time that holds every channel at each of them. */
  ghost predicate IsUnbroken(m: ChannelMap, d: nat, good: Option<nat>, start: nat, end: nat, duration: nat, n: nat) {
    && n >= 1 && end == Point(start, d, n) && duration == end - start
    && forall i: nat :: i < n ==> IsRunTimeAt(m, good, Point(start, d, i))
  }

  ghost predicate IsRunTimeAt(m: ChannelMap, good: Option<nat>, t: int) {
    t >= 0 && RunTime(m, t, good)
  }

  /** A late enough time that holds every channel makes a run, which starts no later. */
  lemma RunOfComplete(m: ChannelMap, d: nat, good: Option<nat>, t: nat) returns (n: nat, run: ObsTimesAndChans)
    requires RunTime(m, t, good)
    ensures CommonRun(m, d, good) == Some(run) && run.startMs <= t && run.channels == SortedSet(AllChannels(m))
    ensures IsUnbroken(m, d, good, run.startMs, run.endMs, run.durationMs, n)
  {
    var full := FullTimes(m, good);
    FullTimesAreRunTimes(m, good, t);
    n, run := RunOfTimes(m, d, good, full);
    FirstIsLeast(full, t);
  }

  lemma RunOfTimes(m: ChannelMap, d: nat, good: Option<nat>, full: seq<nat>) returns (n: nat, run: ObsTimesAndChans)
    requires full == FullTimes(m, good) && full != []
    ensures CommonRun(m, d, good) == Some(run) && run.startMs == full[0] && run.channels == SortedSet(AllChannels(m))
    ensures IsUnbroken(m, d, good, run.startMs, run.endMs, run.durationMs, n)
  {
    n := RunLength(full, d);
    RunLengthIsLongestPrefix(full, d, n);
    RunOfPrefix(full, m, d, n);
    assert full[0] in full;
    FullTimesAreRunTimes(m, good, full[0]);
    run := ObsTimesAndChans(full[0], full[n - 1] + d, full[n - 1] + d - full[0], SortedSet(m[full[0]]));
    PrefixIsUnbroken(m, d, good, full, n);
  }

  lemma PrefixIsUnbroken(m: ChannelMap, d: nat, good: Option<nat>, full: seq<nat>, n: nat)
    requires full == FullTimes(m, good) && LongestPrefix(full, d, n)
    ensures IsUnbroken(m, d, good, full[0], full[n - 1] + d, full[n - 1] + d - full[0], n)
  {
    PrefixPoints(full, d, n, n - 1);
    forall i: nat | i < n
      ensures IsRunTimeAt(m, good, Point(full[0], d, i))
    {
      PrefixPoints(full, d, n, i);
      assert full[i] in full;
      FullTimesAreRunTimes(m, good, full[i]);
    }
  }

  lemma {:induction false} PrefixPoints(times: seq<nat>, d: nat, n: nat, i: nat)
    requires LongestPrefix(times, d, n) && i < n
    ensures times[i] == Point(times[0], d, i)
  {
    if i > 0 {
      PrefixPoints(times, d, n, i - 1);
    }
  }

  lemma FirstIsLeast(s: seq<nat>, t: nat)
    requires Ascending(s) && t in s
    ensures s[0] <= t
  {
  }

  lemma RunStart(m: ChannelMap, d: nat, good: Option<nat>)
    requires CommonRun(m, d, good).Some?
    ensures var r := CommonRun(m, d, good).value;
            r.startMs in m && r.startMs <= r.endMs && r.channels == SortedSet(AllChannels(m))
  {
    var full := FullTimes(m, good);
    assert full[0] in full;
    FullTimesAreRunTimes(m, good, full[0]);
  }

  lemma PrefixStep(full: seq<nat>, d: nat, k: nat, t: nat)
    requires full != [] && Ascending(full) && t == full[0] + k * d && t < RunEnd(full, d)
    ensures t in full
  {
    var n := RunLength(full, d);
    RunEndSpec(full, d);
    if n <= k {
      Scale(n, k, d);
    }
    RunLengthIsLongestPrefix(full, d, n);
    PrefixTimes(full, d, n, k);
    assert full[k] in full;
  }

  /** Each step before the end of a run is one of its times. */
  lemma RunStep(m: ChannelMap, d: nat, good: Option<nat>, k: nat, t: nat)
    requires CommonRun(m, d, good).Some?
    requires t == CommonRun(m, d, good).value.startMs + k * d && t < CommonRun(m, d, good).value.endMs
    ensures RunTime(m, t, good)
  {
    PrefixStep(FullTimes(m, good), d, k, t);
    FullTimesAreRunTimes(m, good, t);
  }

  lemma RunOverEnds(full: seq<nat>, m: ChannelMap, d: nat) returns (n: nat, last: nat)
    requires Ascending(full) && full != [] && forall t :: t in full ==> t in m
    ensures n >= 1 && last in m
    ensures var r := RunOver(full, m, d).value;
            r.startMs in m && last == r.startMs + (n - 1) * d && r.endMs == r.startMs + n * d && r.durationMs == n * d
  {
    n := RunLength(full, d);
    RunEndSpec(full, d);
    RunLengthIsLongestPrefix(full, d, n);
    PrefixTimes(full, d, n, n - 1);
    last := full[n - 1];
    assert full[0] in full && last in full;
  }

  /** Both ends of a run are times of the map. */
  lemma RunEnds(m: ChannelMap, d: nat, good: Option<nat>) returns (n: nat, last: nat)
    requires CommonRun(m, d, good).Some?
    ensures n >= 1 && last in m
    ensures var r := CommonRun(m, d, good).value;
            r.startMs in m && last == r.startMs + (n - 1) * d && r.endMs == r.startMs + n * d && r.durationMs == n * d
  {
    n, last := RunOverEnds(FullTimes(m, good), m, d);
  }

  // ---------------------------------------------------------------- the run after the quack time

  lemma {:induction false} DropBelow(s: seq<nat>, x: nat) returns (k: nat)
    requires Ascending(s)
    ensures k <= |s| && forall t :: t in s[k..] <==> t in s && x <= t
    ensures forall i :: 0 <= i < k ==> s[i] < x
  {
    k := 0;
    while k < |s| && s[k] < x
      invariant k <= |s| && forall i :: 0 <= i < k ==> s[i] < x
    {
      k := k + 1;
    }
    forall t
      ensures t in s[k..] <==> t in s && x <= t
    {
      if t in s && x <= t {
        var i :| 0 <= i < |s| && s[i] == t;
        assert s[k..][i - k] == t;
      }
    }
  }

  lemma FullTimesSuffix(m: ChannelMap, good: nat) returns (k: nat)
    ensures k <= |FullTimes(m, None)| && FullTimes(m, Some(good)) == FullTimes(m, None)[k..]
    ensures forall i :: 0 <= i < k ==> FullTimes(m, None)[i] < good
  {
    var all, late := FullTimes(m, None), FullTimes(m, Some(good));
    k := DropBelow(all, good);
    forall t
      ensures t in late <==> t in all[k..]
    {
      assert t in late <==> IsFull(m, t) && good <= t;
      assert t in all <==> IsFull(m, t);
    }
    AscendingUnique(late, all[k..]);
  }

  lemma SuffixRun(times: seq<nat>, d: nat, n: nat, k: nat)
    requires LongestPrefix(times, d, n) && k < n
    ensures RunLength(times[k..], d) == n - k
  {
    RunLengthIsLongestPrefix(times[k..], d, n - k);
  }

  /** A run that starts later ends with the run of all times exactly when it starts inside it. */
  lemma SuffixEnds(times: seq<nat>, d: nat, k: nat)
    requires Ascending(times) && k < |times|
    ensures times[k] + d <= RunEnd(times, d) <==> RunEnd(times[k..], d) == RunEnd(times, d)
    ensures times[k] + d <= RunEnd(times, d) ==> times[k] == times[0] + k * d
  {
    var n := RunLength(times, d);
    RunLengthIsLongestPrefix(times, d, n);
    RunEndSpec(times, d);
    RunEndSpec(times[k..], d);
    if k < n {
      SuffixRun(times, d, n, k);
      PrefixTimes(times, d, n, k);
      assert times[k] <= times[n - 1];
    } else {
      assert times[n - 1] < times[k] == times[k..][0];
    }
  }

  /** The good run and the common run hold the same channels, and they end together exactly
      when the good run starts inside the common run: it is then the common run's suffix from
      the first of its times that is not before the good time. */
  lemma GoodRunIsSuffix(m: ChannelMap, d: nat, good: nat) returns (k: nat)
    requires CommonRun(m, d, Some(good)).Some?
    ensures CommonRun(m, d, None).Some?
    ensures var c, g := CommonRun(m, d, None).value, CommonRun(m, d, Some(good)).value;
            && g.channels == c.channels && good <= g.startMs
            && (g.startMs + d <= c.endMs <==> g.endMs == c.endMs)
            && (g.startMs + d <= c.endMs ==> g.startMs == c.startMs + k * d && g.durationMs + k * d == c.durationMs)
    ensures k < |FullTimes(m, None)| && CommonRun(m, d, Some(good)).value.startMs == FullTimes(m, None)[k]
    ensures forall i :: 0 <= i < k ==> FullTimes(m, None)[i] < good
  {
    var all, late := FullTimes(m, None), FullTimes(m, Some(good));
    k := FullTimesSuffix(m, good);
    assert late[0] == all[k];
    SuffixEnds(all, d, k);
    assert all[0] in all && late[0] in late;
    FullTimesAreRunTimes(m, None, all[0]);
    FullTimesAreRunTimes(m, Some(good), late[0]);
  }
}
