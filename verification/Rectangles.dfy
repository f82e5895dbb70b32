/** The rectangle of timesteps and coarse channels that a context advertises as common: which
    times it covers (src/correlator_context/mod.rs, src/voltage_context/mod.rs). */
module Rectangles {
  import opened CommonRuns
  import opened TimeSteps

  datatype Common = Common(
    timestepIndices: seq<nat>,
    coarseChanIndices: seq<nat>,
    startUnixMs: nat,
    endUnixMs: nat,
    startGpsMs: nat,
    endGpsMs: nat,
    durationMs: nat
  )

  /** The times that the rectangle's timesteps stand for: those of the timeline in its window. */
  ghost predicate IsInWindow(x: nat, c: Common, provided: seq<TimeStep>, schedEnd: nat, d: nat)
    requires provided != [] && d > 0
  {
    c.startUnixMs <= x < c.endUnixMs && IsTimed(x, provided, schedEnd, d)
  }

  /** There are files of every channel for that time. */
  ghost predicate IsComplete(x: nat, m: ChannelMap) {
    x in m && m[x] == AllChannels(m)
  }

  /** The window starts at or after the first data time, and ends no more than a step after the last. */
  ghost predicate AroundData(c: Common, provided: seq<TimeStep>, d: nat) {
    && provided != [] && d > 0 && AscendingTimes(provided)
    && provided[0].unixTimeMs <= c.startUnixMs
    && c.endUnixMs <= provided[|provided| - 1].unixTimeMs + d
  }

  /** The timesteps of a rectangle are those whose times are in its window. */
  lemma WindowTimesteps(ts: seq<TimeStep>, provided: seq<TimeStep>, schedStart: nat, schedEnd: nat, clock: Clock, d: nat, c: Common)
    requires AroundData(c, provided, d) && IsTimeline(ts, provided, schedStart, schedEnd, clock, d)
    requires c.timestepIndices == GetTimestepIndices(ts, c.startUnixMs, c.endUnixMs)
    ensures forall ti :: ti in c.timestepIndices <==> 0 <= ti < |ts| && IsInWindow(ts[ti].unixTimeMs, c, provided, schedEnd, d)
    ensures forall x: nat :: IsInWindow(x, c, provided, schedEnd, d) ==> x in Times(ts)
  {
    TimestepIndices(ts, c.startUnixMs, c.endUnixMs);
    forall x: nat | c.startUnixMs <= x < c.endUnixMs
      ensures x in Times(ts) <==> IsInWindow(x, c, provided, schedEnd, d)
    {
      WindowTimes(ts, provided, schedStart, schedEnd, clock, d, x);
    }
    forall ti | 0 <= ti < |ts|
      ensures ts[ti].unixTimeMs in Times(ts)
    {
      MemberTime(ts, ti);
    }
  }

  /** Something holds of all times in a window exactly when it holds of all timesteps of the rectangle. */
  lemma WindowByRows(ts: seq<TimeStep>, provided: seq<TimeStep>, schedEnd: nat, d: nat, c: Common, p: nat -> bool)
    requires provided != [] && d > 0
    requires forall ti :: ti in c.timestepIndices <==> 0 <= ti < |ts| && IsInWindow(ts[ti].unixTimeMs, c, provided, schedEnd, d)
    requires forall x: nat :: IsInWindow(x, c, provided, schedEnd, d) ==> x in Times(ts)
    ensures (forall x: nat :: IsInWindow(x, c, provided, schedEnd, d) ==> p(x)) <==>
            forall ti :: ti in c.timestepIndices ==> p(ts[ti].unixTimeMs)
  {
    if forall ti :: ti in c.timestepIndices ==> p(ts[ti].unixTimeMs) {
      forall x: nat | IsInWindow(x, c, provided, schedEnd, d)
        ensures p(x)
      {
        assert x in Times(ts);
        var ti :| 0 <= ti < |ts| && ts[ti].unixTimeMs == x;
      }
    }
  }
}
