/** The timeline of an observation (src/timestep/mod.rs). */
module TimeSteps {
  import opened Collections
  import opened Grid
  import opened Misc
  import opened Wrappers

  datatype TimeStep = TimeStep(unixTimeMs: nat, gpsTimeMs: nat)

  /** Scheduled start of the observation on both clocks. */
  datatype Clock = Clock(startGpsMs: nat, startUnixMs: nat) {
    /** The conversion of `unix` to GPS time does not go below zero. */
    predicate HasGps(unix: nat) {
      ConvertUnixtimeToGpstime(unix, startGpsMs, startUnixMs).Ok?
    }

    function GpsOf(unix: nat): nat
      requires HasGps(unix)
    {
      ConvertUnixtimeToGpstime(unix, startGpsMs, startUnixMs).value
    }
  }

  function TimeKey(t: TimeStep): int {
    t.unixTimeMs
  }

  ghost function Times(ts: seq<TimeStep>): set<nat> {
    set t | t in ts :: t.unixTimeMs
  }

  ghost predicate DistinctTimes(ts: seq<TimeStep>) {
    forall i, j :: 0 <= i < j < |ts| ==> ts[i].unixTimeMs != ts[j].unixTimeMs
  }

  ghost predicate AscendingTimes(ts: seq<TimeStep>) {
    forall i, j :: 0 <= i < j < |ts| ==> ts[i].unixTimeMs < ts[j].unixTimeMs
  }

  /** Timesteps that were not provided have the GPS time that goes with their UNIX time. */
  ghost predicate Consistent(ts: seq<TimeStep>, provided: seq<TimeStep>, clock: Clock) {
    forall t :: t in ts ==> t in provided || (clock.HasGps(t.unixTimeMs) && t.gpsTimeMs == clock.GpsOf(t.unixTimeMs))
  }

  /** The timestep of a UNIX time, when that has a GPS time. */
  function NewTimeStep(unix: nat, clock: Clock): Outcome<TimeStep, ()> {
    if clock.HasGps(unix) then Ok(TimeStep(unix, clock.GpsOf(unix))) else Panic
  }

  // ---------------------------------------------------------------- the superset of timesteps

  /** The times that the timeline holds: the data; the grid of the last data time up to the
      end of the schedule; the grid of the first data time down to the start of the schedule,
      and up through the gaps. */
  ghost predicate InTimeline(x: nat, data: set<nat>, first: nat, last: nat, schedStart: nat, schedEnd: nat, d: nat)
    requires d > 0
  {
    || x in data
    || Forward(x, last, schedEnd, d)
    || Backward(x, first, schedStart, d)
    || (SameGrid(x, first, d) && first <= x < TimelineEnd(last, schedEnd, d))
  }

  predicate Forward(x: nat, last: nat, schedEnd: nat, d: nat)
    requires d > 0
  {
    last < x <= schedEnd && SameGrid(x, last, d)
  }

  predicate Backward(x: nat, first: nat, schedStart: nat, d: nat)
    requires d > 0
  {
    schedStart <= x < first && SameGrid(x, first, d)
  }

  function TimelineEnd(last: nat, schedEnd: nat, d: nat): int
    requires d > 0
  {
    if last < schedEnd then LastUpTo(schedEnd, last, d) else last
  }

  function TimelineStart(first: nat, schedStart: nat, d: nat): int
    requires d > 0
  {
    if schedStart < first then FirstFrom(schedStart, first, d) else first
  }

  ghost predicate IsTimeline(ts: seq<TimeStep>, provided: seq<TimeStep>, schedStart: nat, schedEnd: nat, clock: Clock, d: nat)
    requires |provided| > 0 && d > 0
  {
    && AscendingTimes(ts)
    && Consistent(ts, provided, clock)
    && forall x: nat :: x in Times(ts) <==>
         InTimeline(x, Times(provided), provided[0].unixTimeMs, provided[|provided| - 1].unixTimeMs, schedStart, schedEnd, d)
  }

  lemma PushTime(ts: seq<TimeStep>, t: TimeStep)
    ensures forall x: nat :: x in Times(ts + [t]) <==> x in Times(ts) || x == t.unixTimeMs
    ensures DistinctTimes(ts) && t.unixTimeMs !in Times(ts) ==> DistinctTimes(ts + [t])
  {
    forall x
      ensures x in Times(ts + [t]) <==> x in Times(ts) || x == t.unixTimeMs
    {
      assert t in ts + [t];
      assert forall u :: u in ts + [t] <==> u in ts || u == t;
    }
    assert forall i :: 0 <= i < |ts| ==> ts[i] in ts && ts[i].unixTimeMs in Times(ts);
  }

  /** Walks backwards from the first data time to the start of the schedule.  The walk
      subtracts once more than it uses, and that can take it below zero. */
  method ExtendBackwards(timesteps: seq<TimeStep>, first: nat, schedStart: nat, clock: Clock, d: nat, ghost provided: seq<TimeStep>)
    returns (r: Outcome<seq<TimeStep>, ()>)
    requires d > 0
    requires DistinctTimes(timesteps) && Consistent(timesteps, provided, clock)
    requires forall x: nat :: x in Times(timesteps) ==> first <= x
    ensures r == Panic <==>
              BackwardWalkUnderflows(first, schedStart, d) || exists x: nat :: Backward(x, first, schedStart, d) && !clock.HasGps(x)
    ensures !r.Err?
    ensures r.Ok? ==> DistinctTimes(r.value) && Consistent(r.value, provided, clock)
                      && forall x: nat :: x in Times(r.value) <==> x in Times(timesteps) || Backward(x, first, schedStart, d)
  {
    var ts := timesteps;
    if first > schedStart {
      LeastPoint(first, first, d);
      if first < d { return Panic; }
      var current: nat := first - d;
      NextPoint(first, first, d);
      while current >= schedStart
        invariant current + d <= first && SameGrid(current, first, d)
        invariant DistinctTimes(ts) && Consistent(ts, provided, clock)
        invariant forall x: nat :: x in Times(ts) <==> x in Times(timesteps) || (current < x && Backward(x, first, schedStart, d))
        invariant forall x: nat :: current < x && Backward(x, first, schedStart, d) ==> clock.HasGps(x)
      {
        var timestep := NewTimeStep(current, clock);
        assert Backward(current, first, schedStart, d);
        if timestep.Panic? { return Panic; }
        PushTime(ts, timestep.value);
        ts := ts + [timestep.value];
        LeastPoint(current, first, d);
        if current < d { return Panic; }
        NextPoint(current, first, d);
        current := current - d;
      }
      LeastPoint(current, first, d);
    }
    return Ok(ts);
  }

  /** The least point of a grid that is not negative. */
  lemma LeastPoint(x: nat, first: nat, d: nat)
    requires d > 0 && SameGrid(x, first, d)
    ensures FirstFrom(0, first, d) <= x
    ensures x < d ==> FirstFrom(0, first, d) == x
  {
    FirstFromIsFirst(0, first, d);
    NextPoint(FirstFrom(0, first, d), first, d);
  }

  method ExtendForwards(timesteps: seq<TimeStep>, last: nat, schedEnd: nat, clock: Clock, d: nat, ghost provided: seq<TimeStep>)
    returns (r: Outcome<seq<TimeStep>, ()>)
    requires d > 0
    requires DistinctTimes(timesteps) && Consistent(timesteps, provided, clock)
    requires forall x: nat :: x in Times(timesteps) ==> x <= last
    ensures r == Panic <==> exists x: nat :: Forward(x, last, schedEnd, d) && !clock.HasGps(x)
    ensures !r.Err?
    ensures r.Ok? ==> DistinctTimes(r.value) && Consistent(r.value, provided, clock)
                      && forall x: nat :: x in Times(r.value) <==> x in Times(timesteps) || Forward(x, last, schedEnd, d)
  {
    var ts := timesteps;
    if last < schedEnd {
      var current := last + d;
      NextPoint(last, last, d);
      while current <= schedEnd
        invariant last + d <= current && SameGrid(current, last, d)
        invariant DistinctTimes(ts) && Consistent(ts, provided, clock)
        invariant forall x: nat :: x in Times(ts) <==> x in Times(timesteps) || (x < current && Forward(x, last, schedEnd, d))
        invariant forall x: nat :: x < current && Forward(x, last, schedEnd, d) ==> clock.HasGps(x)
        decreases schedEnd - current
      {
        var timestep := NewTimeStep(current, clock);
        assert Forward(current, last, schedEnd, d);
        if timestep.Panic? { return Panic; }
        PushTime(ts, timestep.value);
        ts := ts + [timestep.value];
        NextPoint(current, last, d);
        current := current + d;
      }
    }
    return Ok(ts);
  }

  /** A point of the grid of `start` before `end` that no timestep has yet. */
  ghost predicate InGap(x: nat, ts: seq<TimeStep>, start: nat, end: nat, d: nat)
    requires d > 0
  {
    start <= x < end && SameGrid(x, start, d) && x !in Times(ts)
  }

  method FillGaps(timesteps: seq<TimeStep>, start: nat, end: nat, clock: Clock, d: nat, ghost provided: seq<TimeStep>)
    returns (r: Outcome<seq<TimeStep>, ()>)
    requires d > 0
    requires DistinctTimes(timesteps) && Consistent(timesteps, provided, clock)
    ensures r == Panic <==> exists x: nat :: InGap(x, timesteps, start, end, d) && !clock.HasGps(x)
    ensures !r.Err?
    ensures r.Ok? ==> DistinctTimes(r.value) && Consistent(r.value, provided, clock)
                      && forall x: nat :: x in Times(r.value) <==> x in Times(timesteps) || InGap(x, timesteps, start, end, d)
  {
    var ts := timesteps;
    var current := start;
    while current < end
      invariant start <= current && SameGrid(current, start, d)
      invariant DistinctTimes(ts) && Consistent(ts, provided, clock)
      invariant forall x: nat :: x in Times(ts) <==>
                  x in Times(timesteps) || (x < current && InGap(x, timesteps, start, end, d))
      invariant forall x: nat :: x < current && InGap(x, timesteps, start, end, d) ==> clock.HasGps(x)
    {
      if !(exists t :: t in ts && t.unixTimeMs == current) {
        var timestep := NewTimeStep(current, clock);
        assert InGap(current, timesteps, start, end, d);
        if timestep.Panic? { return Panic; }
        PushTime(ts, timestep.value);
        ts := ts + [timestep.value];
      }
      NextPoint(current, start, d);
      current := current + d;
    }
    return Ok(ts);
  }

  /** Sorting distinct timesteps by UNIX time. */
  lemma SortTimes(ts: seq<TimeStep>, provided: seq<TimeStep>, clock: Clock)
    requires DistinctTimes(ts) && Consistent(ts, provided, clock)
    ensures var r := SortBy(ts, TimeKey);
            |r| == |ts| && AscendingTimes(r) && Consistent(r, provided, clock) && Times(r) == Times(ts)
  {
    var r := SortBy(ts, TimeKey);
    var p := SameElementsReorder(ts, r);
    forall i, j | 0 <= i < j < |r|
      ensures r[i].unixTimeMs < r[j].unixTimeMs
    {
      assert TimeKey(r[i]) <= TimeKey(r[j]);
      var k, l := if p[i] < p[j] then p[i] else p[j], if p[i] < p[j] then p[j] else p[i];
      assert ts[k].unixTimeMs != ts[l].unixTimeMs;
    }
    assert forall t :: t in r <==> t in ts by {
      assert forall t :: t in r <==> t in multiset(r);
      assert forall t :: t in ts <==> t in multiset(ts);
    }
  }

  /** Some time that has to be added has no GPS time. */
  ghost predicate LacksGps(provided: seq<TimeStep>, schedStart: nat, schedEnd: nat, clock: Clock, d: nat)
    requires provided != [] && d > 0
  {
    exists x: nat :: ToAdd(x, provided, schedStart, schedEnd, d) && !clock.HasGps(x)
  }

  ghost predicate ToAdd(x: nat, provided: seq<TimeStep>, schedStart: nat, schedEnd: nat, d: nat)
    requires provided != [] && d > 0
  {
    && x !in Times(provided)
    && InTimeline(x, Times(provided), provided[0].unixTimeMs, provided[|provided| - 1].unixTimeMs, schedStart, schedEnd, d)
  }

  /** Sorts, fills the gaps between the two ends, and sorts again. */
  method FinishTimeline(extended: seq<TimeStep>, provided: seq<TimeStep>, schedStart: nat, schedEnd: nat, clock: Clock, d: nat)
    returns (r: Outcome<seq<TimeStep>, ()>)
    requires d > 0 && AscendingTimes(provided) && provided != []
    requires DistinctTimes(extended) && Consistent(extended, provided, clock)
    requires BothWays(Times(extended), Times(provided), provided[0].unixTimeMs, provided[|provided| - 1].unixTimeMs,
                      schedStart, schedEnd, d)
    ensures !r.Err? && (r == Panic <==> LacksGps(provided, schedStart, schedEnd, clock, d))
    ensures r.Ok? ==> IsTimeline(r.value, provided, schedStart, schedEnd, clock, d)
  {
    SortTimes(extended, provided, clock);
    var ts := SortBy(extended, TimeKey);
    TimelineStarts(ts, provided, schedStart, schedEnd, d);
    TimelineEnds(ts, provided, schedStart, schedEnd, d);
    var start, end := ts[0].unixTimeMs, ts[|ts| - 1].unixTimeMs;
    GapsToAdd(ts, provided, start, end, schedStart, schedEnd, clock, d);
    var filled := FillGaps(ts, start, end, clock, d, provided);
    if filled.Panic? { return Panic; }
    SortTimes(filled.value, provided, clock);
    return Ok(SortBy(filled.value, TimeKey));
  }

  /** Between its two ends the timeline lacks exactly the points of the gaps. */
  lemma GapsToAdd(ts: seq<TimeStep>, provided: seq<TimeStep>, start: nat, end: nat, schedStart: nat, schedEnd: nat, clock: Clock, d: nat)
    requires d > 0 && provided != [] && AscendingTimes(provided) && Consistent(ts, provided, clock)
    requires BothWays(Times(ts), Times(provided), provided[0].unixTimeMs, provided[|provided| - 1].unixTimeMs, schedStart, schedEnd, d)
    requires SameGrid(start, provided[0].unixTimeMs, d) && start <= provided[0].unixTimeMs
    requires schedStart <= start || start == provided[0].unixTimeMs
    requires end == TimelineEnd(provided[|provided| - 1].unixTimeMs, schedEnd, d)
    requires forall x: nat :: x in Times(ts) ==> start <= x
    ensures forall x: nat :: x in Times(ts) || InGap(x, ts, start, end, d) <==>
              InTimeline(x, Times(provided), provided[0].unixTimeMs, provided[|provided| - 1].unixTimeMs, schedStart, schedEnd, d)
    ensures LacksGps(provided, schedStart, schedEnd, clock, d) <==> exists x: nat :: InGap(x, ts, start, end, d) && !clock.HasGps(x)
  {
    var filled := Times(ts) + set x: nat | start <= x < end && SameGrid(x, start, d);
    FilledIsTimeline(Times(ts), filled, Times(provided), start, provided[0].unixTimeMs,
                     provided[|provided| - 1].unixTimeMs, schedStart, schedEnd, d);
    assert forall x: nat :: x in filled <==> x in Times(ts) || InGap(x, ts, start, end, d);
    assert forall x: nat :: InGap(x, ts, start, end, d) ==> ToAdd(x, provided, schedStart, schedEnd, d);
    assert forall x: nat :: ToAdd(x, provided, schedStart, schedEnd, d) ==> clock.HasGps(x) || InGap(x, ts, start, end, d);
  }

  /** The walk back from `first` would step below zero before it passes `schedStart`: the
      least point of its grid that is not negative is not before the schedule starts. */
  predicate BackwardWalkUnderflows(first: nat, schedStart: nat, d: nat)
    requires d > 0
  {
    schedStart < first && schedStart <= FirstFrom(0, first, d)
  }

  /** With steps of 0 a walk never ends. */
  predicate WalksForever(provided: seq<TimeStep>, metafits: seq<TimeStep>, d: nat) {
    && d == 0 && provided != [] && metafits != []
    && (metafits[0].unixTimeMs < provided[0].unixTimeMs
        || provided[|provided| - 1].unixTimeMs < metafits[|metafits| - 1].unixTimeMs)
  }

  /** What keeps the timeline from being built. */
  ghost predicate NoTimeline(provided: seq<TimeStep>, metafits: seq<TimeStep>, clock: Clock, d: nat) {
    || d == 0 || provided == [] || metafits == []
    || BackwardWalkUnderflows(provided[0].unixTimeMs, metafits[0].unixTimeMs, d)
    || LacksGps(provided, metafits[0].unixTimeMs, metafits[|metafits| - 1].unixTimeMs, clock, d)
  }

  /** Covers all the data provided, and the schedule as far as the data's own grid allows. */
  method PopulateSuperset(provided: seq<TimeStep>, metafits: seq<TimeStep>, clock: Clock, d: nat)
    returns (r: Outcome<seq<TimeStep>, ()>)
    requires AscendingTimes(provided) && !WalksForever(provided, metafits, d)
    ensures !r.Err? && (r == Panic <==> NoTimeline(provided, metafits, clock, d))
    ensures r.Ok? ==>
              IsTimeline(r.value, provided, metafits[0].unixTimeMs, metafits[|metafits| - 1].unixTimeMs, clock, d)
  {
    if provided == [] || metafits == [] { return Panic; }
    var first, last := provided[0].unixTimeMs, provided[|provided| - 1].unixTimeMs;
    var schedStart, schedEnd := metafits[0].unixTimeMs, metafits[|metafits| - 1].unixTimeMs;
    if d == 0 { return Panic; }
    ProvidedTimes(provided);
    var extended := ExtendBackwards(provided, first, schedStart, clock, d, provided);
    assert forall x: nat :: Backward(x, first, schedStart, d) || Forward(x, last, schedEnd, d) ==> ToAdd(x, provided, schedStart, schedEnd, d);
    if extended.Panic? { return Panic; }
    extended := ExtendForwards(extended.value, last, schedEnd, clock, d, provided);
    if extended.Panic? { return Panic; }
    r := FinishTimeline(extended.value, provided, schedStart, schedEnd, clock, d);
  }

  lemma ProvidedTimes(provided: seq<TimeStep>)
    requires AscendingTimes(provided) && provided != []
    ensures provided[0].unixTimeMs in Times(provided) && provided[|provided| - 1].unixTimeMs in Times(provided)
    ensures forall x: nat :: x in Times(provided) ==> provided[0].unixTimeMs <= x <= provided[|provided| - 1].unixTimeMs
  {
    assert provided[0] in provided && provided[|provided| - 1] in provided;
  }

  /** The data times and both extensions. */
  ghost predicate BothWays(ts: set<nat>, data: set<nat>, first: nat, last: nat, schedStart: nat, schedEnd: nat, d: nat)
    requires d > 0
  {
    forall x: nat :: x in ts <==> x in data || Backward(x, first, schedStart, d) || Forward(x, last, schedEnd, d)
  }

  /** After both extensions the timeline starts on the grid of the first data time ... */
  lemma TimelineStarts(ts: seq<TimeStep>, provided: seq<TimeStep>, schedStart: nat, schedEnd: nat, d: nat)
    requires d > 0 && AscendingTimes(ts) && AscendingTimes(provided) && provided != []
    requires BothWays(Times(ts), Times(provided), provided[0].unixTimeMs, provided[|provided| - 1].unixTimeMs,
                      schedStart, schedEnd, d)
    ensures ts != [] && ts[0].unixTimeMs <= provided[0].unixTimeMs && SameGrid(ts[0].unixTimeMs, provided[0].unixTimeMs, d)
    ensures schedStart <= ts[0].unixTimeMs || ts[0].unixTimeMs == provided[0].unixTimeMs
    ensures forall x: nat :: x in Times(ts) ==> ts[0].unixTimeMs <= x
  {
    var first := provided[0].unixTimeMs;
    ProvidedTimes(provided);
    assert first in Times(ts);
    ProvidedTimes(ts);
    assert ts[0].unixTimeMs in Times(ts);
  }

  /** ... and ends on its final point. */
  lemma TimelineEnds(ts: seq<TimeStep>, provided: seq<TimeStep>, schedStart: nat, schedEnd: nat, d: nat)
    requires d > 0 && AscendingTimes(ts) && AscendingTimes(provided) && provided != []
    requires BothWays(Times(ts), Times(provided), provided[0].unixTimeMs, provided[|provided| - 1].unixTimeMs,
                      schedStart, schedEnd, d)
    ensures ts != [] && ts[|ts| - 1].unixTimeMs == TimelineEnd(provided[|provided| - 1].unixTimeMs, schedEnd, d)
  {
    var last := provided[|provided| - 1].unixTimeMs;
    var end := TimelineEnd(last, schedEnd, d);
    ProvidedTimes(provided);
    assert last in Times(ts);
    ProvidedTimes(ts);
    if last < schedEnd {
      LastUpToIsLast(schedEnd, last, d);
    }
    assert last <= end && (last == end || Forward(end, last, schedEnd, d));
    assert end in Times(ts);
    var hi := ts[|ts| - 1].unixTimeMs;
    assert hi in Times(ts) && hi <= end;
  }

  lemma FilledIsTimeline(before: set<nat>, after: set<nat>, data: set<nat>, start: nat, first: nat, last: nat,
                         schedStart: nat, schedEnd: nat, d: nat)
    requires d > 0 && SameGrid(start, first, d) && start <= first && (schedStart <= start || start == first)
    requires BothWays(before, data, first, last, schedStart, schedEnd, d)
    requires forall x: nat :: x in before ==> start <= x
    requires forall x: nat :: x in after <==>
               x in before || (SameGrid(x, start, d) && start <= x < TimelineEnd(last, schedEnd, d))
    ensures forall x: nat :: x in after <==> InTimeline(x, data, first, last, schedStart, schedEnd, d)
  {
    forall x: nat
      ensures SameGrid(x, start, d) <==> SameGrid(x, first, d)
    {
      Transitive(start, first, first, d);
      Congruence(x, start, d);
      Congruence(x, first, d);
      Congruence(start, first, d);
    }
  }

  // ---------------------------------------------------------------- data on one grid

  ghost predicate DataOnGrid(provided: seq<TimeStep>, d: nat)
    requires provided != [] && d > 0
  {
    forall x: nat :: x in Times(provided) ==> SameGrid(x, provided[0].unixTimeMs, d)
  }

  /** When all data times are whole steps apart, the timeline is the unbroken progression of
      grid points from the first one the schedule or the data need to the last. */
  lemma TimelineOnGrid(ts: seq<TimeStep>, provided: seq<TimeStep>, schedStart: nat, schedEnd: nat, clock: Clock, d: nat, i: nat)
    requires provided != [] && d > 0 && AscendingTimes(provided) && DataOnGrid(provided, d)
    requires IsTimeline(ts, provided, schedStart, schedEnd, clock, d) && i < |ts|
    ensures var lo, hi := TimelineStart(provided[0].unixTimeMs, schedStart, d),
                          TimelineEnd(provided[|provided| - 1].unixTimeMs, schedEnd, d);
            ts[0].unixTimeMs == lo && ts[|ts| - 1].unixTimeMs == hi && ts[i].unixTimeMs == Point(lo, d, i)
  {
    var first, last := provided[0].unixTimeMs, provided[|provided| - 1].unixTimeMs;
    var lo, hi := TimelineStart(first, schedStart, d), TimelineEnd(last, schedEnd, d);
    GridMembers(ts, provided, schedStart, schedEnd, clock, d);
    AscendingGrid(ts, lo, hi, first, d, i);
    AscendingGrid(ts, lo, hi, first, d, 0);
    AscendingGrid(ts, lo, hi, first, d, |ts| - 1);
  }

  lemma OneLess(n: nat, d: nat)
    ensures (n - 1) * d + d == n * d
  {
  }

  lemma GridMembers(ts: seq<TimeStep>, provided: seq<TimeStep>, schedStart: nat, schedEnd: nat, clock: Clock, d: nat)
    requires provided != [] && d > 0 && AscendingTimes(provided) && DataOnGrid(provided, d)
    requires IsTimeline(ts, provided, schedStart, schedEnd, clock, d)
    ensures var first, last := provided[0].unixTimeMs, provided[|provided| - 1].unixTimeMs;
            var lo, hi := TimelineStart(first, schedStart, d), TimelineEnd(last, schedEnd, d);
            && 0 <= lo <= first && first <= hi && SameGrid(lo, first, d) && SameGrid(hi, first, d)
            && forall x: nat :: x in Times(ts) <==> SameGrid(x, first, d) && lo <= x <= hi
  {
    var first, last := provided[0].unixTimeMs, provided[|provided| - 1].unixTimeMs;
    ProvidedTimes(provided);
    if schedStart < first {
      FirstFromIsFirst(schedStart, first, d);
    }
    if last < schedEnd {
      LastUpToIsLast(schedEnd, last, d);
    }
    Transitive(TimelineEnd(last, schedEnd, d), last, first, d);
    forall x: nat
      ensures SameGrid(x, last, d) <==> SameGrid(x, first, d)
    {
      Congruence(x, last, d);
      Congruence(x, first, d);
      Congruence(last, first, d);
    }
  }

  lemma {:induction false} AscendingGrid(ts: seq<TimeStep>, lo: int, hi: int, a: int, d: nat, i: nat)
    requires d > 0 && AscendingTimes(ts) && SameGrid(lo, a, d) && SameGrid(hi, a, d) && 0 <= lo <= hi
    requires forall x: nat :: x in Times(ts) <==> SameGrid(x, a, d) && lo <= x <= hi
    requires i < |ts|
    ensures ts[i].unixTimeMs == Point(lo, d, i)
    ensures i == |ts| - 1 ==> ts[i].unixTimeMs == hi
  {
    MemberTime(ts, i);
    assert lo in Times(ts) && hi in Times(ts);
    ProvidedTimes(ts);
    if i > 0 {
      AscendingGrid(ts, lo, hi, a, d, i - 1);
      MemberTime(ts, i - 1);
      NextGridTime(ts, lo, hi, a, d, i);
    }
  }

  lemma MemberTime(ts: seq<TimeStep>, i: nat)
    requires i < |ts|
    ensures ts[i].unixTimeMs in Times(ts)
  {
    assert ts[i] in ts;
  }

  lemma NextGridTime(ts: seq<TimeStep>, lo: int, hi: int, a: int, d: nat, i: nat)
    requires d > 0 && AscendingTimes(ts)
    requires forall x: nat :: x in Times(ts) <==> SameGrid(x, a, d) && lo <= x <= hi
    requires 0 < i < |ts|
    ensures ts[i].unixTimeMs == ts[i - 1].unixTimeMs + d
  {
    MemberTime(ts, i - 1);
    MemberTime(ts, i);
    var prev := ts[i - 1].unixTimeMs;
    NextPoint(prev, a, d);
    assert prev + d in Times(ts);
    var j :| 0 <= j < |ts| && ts[j].unixTimeMs == prev + d;
  }

  // ---------------------------------------------------------------- windows of the timeline

  /** A data time, or a point of the grid of the first data time that the gaps were filled up to. */
  ghost predicate IsTimed(x: nat, provided: seq<TimeStep>, schedEnd: nat, d: nat)
    requires provided != [] && d > 0
  {
    || x in Times(provided)
    || (SameGrid(x, provided[0].unixTimeMs, d) && x < TimelineEnd(provided[|provided| - 1].unixTimeMs, schedEnd, d))
  }

  lemma EndsAfterData(last: nat, schedEnd: nat, d: nat)
    requires d > 0
    ensures last <= TimelineEnd(last, schedEnd, d)
  {
    if last < schedEnd {
      LastUpToIsLast(schedEnd, last, d);
    }
  }

  /** In a window that starts at or after the first data time, and ends no more than a step
      after the last, the timeline has nothing else. */
  lemma WindowTimes(ts: seq<TimeStep>, provided: seq<TimeStep>, schedStart: nat, schedEnd: nat, clock: Clock, d: nat, x: nat)
    requires provided != [] && d > 0 && AscendingTimes(provided)
    requires IsTimeline(ts, provided, schedStart, schedEnd, clock, d)
    requires provided[0].unixTimeMs <= x < provided[|provided| - 1].unixTimeMs + d
    ensures x in Times(ts) <==> IsTimed(x, provided, schedEnd, d)
  {
    var last := provided[|provided| - 1].unixTimeMs;
    NextPoint(last, last, d);
    assert !Forward(x, last, schedEnd, d);
  }

  // ---------------------------------------------------------------- the callers

  /** The data times with their GPS times. */
  ghost predicate IsProvided(provided: seq<TimeStep>, dataTimes: set<nat>, clock: Clock) {
    && AscendingTimes(provided) && Times(provided) == dataTimes && Consistent(provided, [], clock)
  }

  /** Timesteps of the correlator data: UNIX times, with GPS times worked out. */
  method PopulateCorrelatorTimesteps(dataTimes: set<nat>, metafits: seq<TimeStep>, clock: Clock, d: nat)
    returns (r: Outcome<Option<seq<TimeStep>>, ()>, ghost provided: seq<TimeStep>)
    requires d > 0
    ensures !r.Err? && (r == Ok(None) <==> dataTimes == {})
    ensures (exists t :: t in dataTimes && !clock.HasGps(t)) ==> r == Panic
    ensures (forall t :: t in dataTimes ==> clock.HasGps(t)) ==>
              && IsProvided(provided, dataTimes, clock)
              && (r == Panic <==> dataTimes != {} && NoTimeline(provided, metafits, clock, d))
    ensures r.Ok? && r.value.Some? ==>
              && IsProvided(provided, dataTimes, clock) && provided != [] && metafits != []
              && IsTimeline(r.value.value, provided, metafits[0].unixTimeMs, metafits[|metafits| - 1].unixTimeMs, clock, d)
  {
    provided := [];
    if dataTimes == {} {
      return Ok(None), [];
    }
    var sorted := SortedSet(dataTimes);
    var timesteps: seq<TimeStep> := [];
    for k := 0 to |sorted|
      invariant |timesteps| == k
      invariant forall i :: 0 <= i < k ==>
                  clock.HasGps(sorted[i]) && timesteps[i] == TimeStep(sorted[i], clock.GpsOf(sorted[i]))
    {
      assert sorted[k] in sorted;
      var timestep := NewTimeStep(sorted[k], clock);
      if timestep.Panic? { return Panic, []; }
      timesteps := timesteps + [timestep.value];
    }
    TimesOfList(timesteps, sorted);
    provided := timesteps;
    AllHaveGps(timesteps, sorted, dataTimes, clock);
    var superset := PopulateSuperset(timesteps, metafits, clock, d);
    if superset.Panic? {
      r := Panic;
    } else {
      r := Ok(Some(superset.value));
    }
  }

  lemma AllHaveGps(ts: seq<TimeStep>, sorted: seq<nat>, dataTimes: set<nat>, clock: Clock)
    requires |ts| == |sorted| && sorted == SortedSet(dataTimes) && dataTimes != {}
    requires forall i :: 0 <= i < |ts| ==> clock.HasGps(sorted[i]) && ts[i] == TimeStep(sorted[i], clock.GpsOf(sorted[i]))
    ensures IsProvided(ts, dataTimes, clock) && ts != []
    ensures forall t :: t in dataTimes ==> clock.HasGps(t)
  {
    TimesOfList(ts, sorted);
    forall t | t in dataTimes
      ensures clock.HasGps(t)
    {
      assert t in sorted;
      var i :| 0 <= i < |sorted| && sorted[i] == t;
    }
  }

  lemma TimesOfList(ts: seq<TimeStep>, times: seq<nat>)
    requires |ts| == |times| && forall i :: 0 <= i < |ts| ==> ts[i].unixTimeMs == times[i]
    ensures forall x: nat :: x in Times(ts) <==> x in times
  {
    forall x | x in times
      ensures x in Times(ts)
    {
      var i :| 0 <= i < |times| && times[i] == x;
      assert ts[i] in ts;
    }
  }

  /** The data times of voltage files, on both clocks. */
  ghost predicate AreDataTimes(provided: seq<TimeStep>, gpsSeconds: set<nat>, clock: Clock) {
    && clock.startGpsMs <= clock.startUnixMs
    && AscendingTimes(provided) && |provided| == |gpsSeconds|
    && forall t :: t in provided <==> IsDataTime(t, gpsSeconds, clock)
  }

  predicate IsDataTime(t: TimeStep, gpsSeconds: set<nat>, clock: Clock)
    requires clock.startGpsMs <= clock.startUnixMs
  {
    t.gpsTimeMs % 1000 == 0 && t.gpsTimeMs / 1000 in gpsSeconds && t.unixTimeMs == UnixOf(t.gpsTimeMs / 1000, clock)
  }

  /** The UNIX time in milliseconds of a GPS second. */
  function UnixOf(second: nat, clock: Clock): nat
    requires clock.startGpsMs <= clock.startUnixMs
  {
    second * 1000 + (clock.startUnixMs - clock.startGpsMs)
  }

  /** Timesteps of the voltage data: GPS seconds, with UNIX times worked out. */
  method PopulateVoltageTimesteps(gpsSeconds: set<nat>, metafits: seq<TimeStep>, clock: Clock, d: nat)
    returns (r: Outcome<Option<seq<TimeStep>>, ()>, ghost provided: seq<TimeStep>)
    requires d > 0
    ensures !r.Err? && (r == Ok(None) <==> gpsSeconds == {})
    ensures gpsSeconds != {} && clock.startUnixMs < clock.startGpsMs ==> r == Panic
    ensures clock.startGpsMs <= clock.startUnixMs ==>
              && AreDataTimes(provided, gpsSeconds, clock)
              && (r == Panic <==> gpsSeconds != {} && NoTimeline(provided, metafits, clock, d))
    ensures r.Ok? && r.value.Some? ==>
              && AreDataTimes(provided, gpsSeconds, clock) && provided != [] && metafits != []
              && IsTimeline(r.value.value, provided, metafits[0].unixTimeMs, metafits[|metafits| - 1].unixTimeMs, clock, d)
  {
    provided := [];
    if gpsSeconds == {} {
      return Ok(None), [];
    }
    var sorted := SortedSet(gpsSeconds);
    var timesteps: seq<TimeStep> := [];
    for k := 0 to |sorted|
      invariant |timesteps| == k && (k > 0 ==> clock.startGpsMs <= clock.startUnixMs)
      invariant forall i :: 0 <= i < k ==> timesteps[i] == TimeStep(UnixOf(sorted[i], clock), sorted[i] * 1000)
    {
      var unix := ConvertGpstimeToUnixtime(sorted[k] * 1000, clock.startGpsMs, clock.startUnixMs);
      if unix.Panic? { return Panic, []; }
      timesteps := timesteps + [TimeStep(unix.value, sorted[k] * 1000)];
    }
    VoltageTimes(timesteps, sorted, gpsSeconds, clock);
    provided := timesteps;
    var superset := PopulateSuperset(timesteps, metafits, clock, d);
    if superset.Panic? {
      r := Panic;
    } else {
      r := Ok(Some(superset.value));
    }
  }

  lemma VoltageTimes(ts: seq<TimeStep>, seconds: seq<nat>, gpsSeconds: set<nat>, clock: Clock)
    requires |ts| == |seconds| && seconds == SortedSet(gpsSeconds) && clock.startGpsMs <= clock.startUnixMs
    requires forall i :: 0 <= i < |ts| ==> ts[i] == TimeStep(UnixOf(seconds[i], clock), seconds[i] * 1000)
    ensures AreDataTimes(ts, gpsSeconds, clock)
  {
    SecondsAscend(ts, seconds, clock);
    forall t
      ensures t in ts <==> IsDataTime(t, gpsSeconds, clock)
    {
      if t in ts {
        var i :| 0 <= i < |ts| && ts[i] == t;
        assert seconds[i] in seconds;
        SecondIsDataTime(seconds[i], gpsSeconds, clock);
      }
      if IsDataTime(t, gpsSeconds, clock) {
        DataTimeIsListed(ts, seconds, clock, t);
      }
    }
  }

  lemma DataTimeIsListed(ts: seq<TimeStep>, seconds: seq<nat>, clock: Clock, t: TimeStep)
    requires |ts| == |seconds| && clock.startGpsMs <= clock.startUnixMs
    requires forall i :: 0 <= i < |ts| ==> ts[i] == TimeStep(UnixOf(seconds[i], clock), seconds[i] * 1000)
    requires t.gpsTimeMs % 1000 == 0 && t.gpsTimeMs / 1000 in seconds && t.unixTimeMs == UnixOf(t.gpsTimeMs / 1000, clock)
    ensures t in ts
  {
    var i :| 0 <= i < |seconds| && seconds[i] == t.gpsTimeMs / 1000;
    assert ts[i] == t;
  }

  lemma SecondsAscend(ts: seq<TimeStep>, seconds: seq<nat>, clock: Clock)
    requires |ts| == |seconds| && Ascending(seconds) && clock.startGpsMs <= clock.startUnixMs
    requires forall i :: 0 <= i < |ts| ==> ts[i] == TimeStep(UnixOf(seconds[i], clock), seconds[i] * 1000)
    ensures AscendingTimes(ts)
  {
  }

  lemma SecondIsDataTime(s: nat, gpsSeconds: set<nat>, clock: Clock)
    requires clock.startGpsMs <= clock.startUnixMs && s in gpsSeconds
    ensures IsDataTime(TimeStep(UnixOf(s, clock), s * 1000), gpsSeconds, clock)
  {
    assert s * 1000 / 1000 == s && s * 1000 % 1000 == 0;
  }

  // ---------------------------------------------------------------- the expected timesteps

  /** The timesteps the schedule promises: every interval from the start until the duration is
      used up, on both clocks. */
  method PopulateTimesteps(startGps: nat, duration: nat, interval: nat, clock: Clock) returns (r: Outcome<seq<TimeStep>, ()>)
    ensures !r.Err? && (r == Panic <==> interval == 0 || (duration > 0 && clock.startUnixMs < clock.startGpsMs))
    ensures r.Ok? ==>
              && |r.value| * interval >= duration && (|r.value| > 0 ==> (|r.value| - 1) * interval < duration)
              && forall i: nat :: i < |r.value| ==>
                   && r.value[i].gpsTimeMs == Point(startGps, interval, i)
                   && ConvertGpstimeToUnixtime(r.value[i].gpsTimeMs, clock.startGpsMs, clock.startUnixMs) == Ok(r.value[i].unixTimeMs)
  {
    if interval == 0 { return Panic; }
    var ts: seq<TimeStep> := [];
    var gps := startGps;
    while gps < startGps + duration
      invariant gps == Point(startGps, interval, |ts|) == startGps + |ts| * interval
      invariant |ts| > 0 ==> (|ts| - 1) * interval < duration && clock.startGpsMs <= clock.startUnixMs
      invariant forall i: nat :: i < |ts| ==>
                  && ts[i].gpsTimeMs == Point(startGps, interval, i)
                  && ConvertGpstimeToUnixtime(ts[i].gpsTimeMs, clock.startGpsMs, clock.startUnixMs) == Ok(ts[i].unixTimeMs)
      decreases startGps + duration - gps
    {
      var unix := ConvertGpstimeToUnixtime(gps, clock.startGpsMs, clock.startUnixMs);
      if unix.Panic? { return Panic; }
      ts := ts + [TimeStep(unix.value, gps)];
      OneLess(|ts|, interval);
      gps := gps + interval;
    }
    return Ok(ts);
  }

  // ---------------------------------------------------------------- picking a window

  function InWindow(t: TimeStep, start: nat, end: nat): bool {
    start <= t.unixTimeMs < end
  }

  function UnixTime(t: TimeStep): nat {
    t.unixTimeMs
  }

  function GpsTime(t: TimeStep): nat {
    t.gpsTimeMs
  }

  /** Index of the first timestep with this time. */
  function FirstAt(ts: seq<TimeStep>, x: nat, time: TimeStep -> nat): (r: Option<nat>)
    ensures r.Some? ==> r.value < |ts| && time(ts[r.value]) == x && forall i :: 0 <= i < r.value ==> time(ts[i]) != x
    ensures r.None? ==> forall i :: 0 <= i < |ts| ==> time(ts[i]) != x
  {
    Position(ts, (t: TimeStep) => time(t) == x)
  }

  function IndexOfTime(ts: seq<TimeStep>, unix: nat): (r: Option<nat>)
    ensures r.Some? ==> r.value < |ts| && ts[r.value].unixTimeMs == unix && forall i :: 0 <= i < r.value ==> ts[i].unixTimeMs != unix
    ensures r.None? ==> forall i :: 0 <= i < |ts| ==> ts[i].unixTimeMs != unix
  {
    assert forall i :: 0 <= i < |ts| ==> UnixTime(ts[i]) == ts[i].unixTimeMs;
    FirstAt(ts, unix, UnixTime)
  }

  /** The indices of the timesteps in [start, end), each looked up by its time, then sorted. */
  function GetTimestepIndices(ts: seq<TimeStep>, start: nat, end: nat): seq<nat> {
    SortBy(WindowIndices(ts, 0, start, end), IndexKey)
  }

  /** The window's part of `ts[from..]`. */
  function WindowIndices(ts: seq<TimeStep>, from: nat, start: nat, end: nat): seq<nat>
    requires from <= |ts|
    decreases |ts| - from
  {
    if from == |ts| then []
    else if InWindow(ts[from], start, end) then
      [IndexOfTime(ts, ts[from].unixTimeMs).value] + WindowIndices(ts, from + 1, start, end)
    else WindowIndices(ts, from + 1, start, end)
  }

  lemma {:induction false} WindowMembers(ts: seq<TimeStep>, from: nat, start: nat, end: nat)
    requires AscendingTimes(ts) && from <= |ts|
    ensures Ascending(WindowIndices(ts, from, start, end))
    ensures forall k: nat :: k in WindowIndices(ts, from, start, end) <==> from <= k < |ts| && InWindow(ts[k], start, end)
    decreases |ts| - from
  {
    if from < |ts| {
      WindowMembers(ts, from + 1, start, end);
      assert IndexOfTime(ts, ts[from].unixTimeMs) == Some(from);
      var tail := WindowIndices(ts, from + 1, start, end);
      forall i | 0 <= i < |tail|
        ensures from < tail[i]
      {
        assert tail[i] in tail;
      }
    }
  }

  /** On an ascending timeline these are exactly the indices of the window, in order. */
  lemma TimestepIndices(ts: seq<TimeStep>, start: nat, end: nat)
    requires AscendingTimes(ts)
    ensures var r := GetTimestepIndices(ts, start, end);
            Ascending(r) && forall k: nat :: k in r <==> k < |ts| && start <= ts[k].unixTimeMs < end
  {
    WindowMembers(ts, 0, start, end);
    SortSorted(WindowIndices(ts, 0, start, end), IndexKey);
  }

  // ---------------------------------------------------------------- the timesteps that there is data for

  /** The index of the first timestep with each of the times, sorted; a time that no timestep
      has panics. */
  function TimestepsAt(ts: seq<TimeStep>, times: seq<nat>, time: TimeStep -> nat): Outcome<seq<nat>, ()> {
    if exists i :: 0 <= i < |times| && FirstAt(ts, times[i], time).None? then Panic
    else Ok(SortBy(PositionsAt(ts, times, time), IndexKey))
  }

  function PositionsAt(ts: seq<TimeStep>, times: seq<nat>, time: TimeStep -> nat): (r: seq<nat>)
    requires forall i :: 0 <= i < |times| ==> FirstAt(ts, times[i], time).Some?
    ensures |r| == |times|
  {
    seq(|times|, i requires 0 <= i < |times| => FirstAt(ts, times[i], time).value)
  }

  lemma TimestepsAreFound(ts: seq<TimeStep>, times: seq<nat>, time: TimeStep -> nat)
    ensures TimestepsAt(ts, times, time).Ok? <==> forall x :: x in times ==> exists k :: 0 <= k < |ts| && time(ts[k]) == x
  {
    forall i | 0 <= i < |times|
      ensures FirstAt(ts, times[i], time).Some? <==> exists k :: 0 <= k < |ts| && time(ts[k]) == times[i]
    {
    }
    if forall x :: x in times ==> exists k :: 0 <= k < |ts| && time(ts[k]) == x {
      assert forall i :: 0 <= i < |times| ==> times[i] in times;
    }
  }

  /** On a timeline that ascends by that time, the result is, in order, exactly the indices of
      the timesteps with one of the times. */
  lemma TimestepsFound(ts: seq<TimeStep>, times: seq<nat>, time: TimeStep -> nat)
    requires (forall i, j :: 0 <= i < j < |ts| ==> time(ts[i]) < time(ts[j])) && Ascending(times)
    requires TimestepsAt(ts, times, time).Ok?
    ensures Ascending(TimestepsAt(ts, times, time).value)
    ensures forall k: nat :: k in TimestepsAt(ts, times, time).value <==> k < |ts| && time(ts[k]) in times
  {
    var indices := PositionsAt(ts, times, time);
    DistinctIndices(indices);
    forall k: nat
      ensures k in indices <==> k < |ts| && time(ts[k]) in times
    {
      PositionOfTime(ts, times, time, k);
    }
    DistinctPositions(ts, times, time);
  }

  lemma PositionOfTime(ts: seq<TimeStep>, times: seq<nat>, time: TimeStep -> nat, k: nat)
    requires forall i, j :: 0 <= i < j < |ts| ==> time(ts[i]) < time(ts[j])
    requires forall i :: 0 <= i < |times| ==> FirstAt(ts, times[i], time).Some?
    ensures k in PositionsAt(ts, times, time) <==> k < |ts| && time(ts[k]) in times
  {
    var indices := PositionsAt(ts, times, time);
    if k < |ts| && time(ts[k]) in times {
      var i :| 0 <= i < |times| && times[i] == time(ts[k]);
      assert indices[i] == k;
    }
    if k in indices {
      var i :| 0 <= i < |indices| && indices[i] == k;
    }
  }

  lemma DistinctPositions(ts: seq<TimeStep>, times: seq<nat>, time: TimeStep -> nat)
    requires Ascending(times) && forall i :: 0 <= i < |times| ==> FirstAt(ts, times[i], time).Some?
    ensures Injective(PositionsAt(ts, times, time))
  {
    var indices := PositionsAt(ts, times, time);
    forall i, j | 0 <= i < j < |indices|
      ensures indices[i] != indices[j]
    {
      assert times[i] < times[j];
    }
  }
}
