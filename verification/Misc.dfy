/** Triangular numbering of antenna pairs, and the two clocks (src/misc/mod.rs).  The
    square-root formula of the same file is in RootFormula. */
module Misc {
  import opened Wrappers

  // ---------------------------------------------------------------- counting pairs

  /** Number of pairs (autos included) of `antennas` antennas. */
  function GetBaselineCount(antennas: nat): nat {
    antennas * (antennas + 1) / 2
  }

  /** The same number, row by row. */
  function Triangle(n: nat): nat {
    if n == 0 then 0 else Triangle(n - 1) + n
  }

  lemma {:induction false} TriangleClosed(n: nat)
    ensures 2 * Triangle(n) == n * (n + 1)
    ensures GetBaselineCount(n) == Triangle(n)
  {
    if n == 0 {
    } else {
      TriangleClosed(n - 1);
      assert n * (n + 1) == (n - 1) * n + 2 * n;
    }
  }

  lemma {:induction false} TriangleMonotone(m: nat, n: nat)
    requires m <= n
    ensures Triangle(m) + (n - m) <= Triangle(n)
  {
    if m < n {
      TriangleMonotone(m, n - 1);
    }
  }

  /** A number below the triangle of `n` is in exactly one row of it. */
  lemma {:induction false} TriangleRow(k: nat, n: nat) returns (c: nat, r: nat)
    requires k < Triangle(n)
    ensures r <= c < n && k == Triangle(c) + r
  {
    if k >= Triangle(n - 1) {
      c, r := n - 1, k - Triangle(n - 1);
    } else {
      c, r := TriangleRow(k, n - 1);
    }
  }

  lemma TriangleRowUnique(c: nat, r: nat, c': nat, r': nat)
    requires r <= c && r' <= c'
    requires Triangle(c) + r == Triangle(c') + r'
    ensures c == c' && r == r'
  {
    if c < c' {
      TriangleMonotone(c + 1, c');
    } else if c' < c {
      TriangleMonotone(c' + 1, c);
    }
  }

  // ---------------------------------------------------------------- numbering pairs

  /** Position of the pair (ant1, ant2) when the upper triangle of `n` antennas is
      listed row by row. */
  function BaselineIndex(ant1: nat, ant2: nat, n: nat): int {
    ant1 * n - Triangle(ant1) + ant2
  }

  /** Start of a row, counted from the end: the rows from `ant1` on are themselves the
      triangle of `n - ant1` antennas. */
  lemma RowStart(ant1: nat, n: nat)
    requires ant1 <= n
    ensures BaselineIndex(ant1, ant1, n) == Triangle(n) - Triangle(n - ant1)
  {
    TriangleClosed(ant1);
    TriangleClosed(n);
    TriangleClosed(n - ant1);
    assert (n - ant1) * (n - ant1 + 1) == n * (n + 1) - 2 * (ant1 * n) + ant1 * (ant1 + 1) - 2 * ant1;
  }

  lemma BaselineIndexInRange(ant1: nat, ant2: nat, n: nat)
    requires ant1 <= ant2 < n
    ensures 0 <= BaselineIndex(ant1, ant2, n) < GetBaselineCount(n)
  {
    RowStart(ant1, n);
    TriangleMonotone(n - ant1, n);
    TriangleClosed(n);
  }

  /** Reading the row backwards is the column-by-column numbering of a triangle. */
  lemma BaselineIndexMirror(ant1: nat, ant2: nat, n: nat)
    requires ant1 <= ant2 < n
    ensures BaselineIndex(ant1, ant2, n) == Triangle(n) - 1 - (Triangle(n - 1 - ant1) + (n - 1 - ant2))
  {
    RowStart(ant1, n);
  }

  /** Two pairs never share an index. */
  lemma BaselineIndexUnique(ant1: nat, ant2: nat, ant1': nat, ant2': nat, n: nat)
    requires ant1 <= ant2 < n && ant1' <= ant2' < n
    requires BaselineIndex(ant1, ant2, n) == BaselineIndex(ant1', ant2', n)
    ensures ant1 == ant1' && ant2 == ant2'
  {
    BaselineIndexMirror(ant1, ant2, n);
    BaselineIndexMirror(ant1', ant2', n);
    TriangleRowUnique(n - 1 - ant1, n - 1 - ant2, n - 1 - ant1', n - 1 - ant2');
  }

  /** Every index below the count belongs to a pair. */
  lemma BaselineIndexOnto(b: nat, n: nat) returns (ant1: nat, ant2: nat)
    requires b < GetBaselineCount(n)
    ensures ant1 <= ant2 < n && BaselineIndex(ant1, ant2, n) == b
  {
    TriangleClosed(n);
    var c, r := TriangleRow(Triangle(n) - 1 - b, n);
    ant1, ant2 := n - 1 - c, n - 1 - r;
    BaselineIndexMirror(ant1, ant2, n);
  }

  lemma NextRow(ant1: nat, n: nat)
    ensures BaselineIndex(ant1 + 1, ant1 + 1, n) == BaselineIndex(ant1, n, n)
  {
    assert (ant1 + 1) * n == ant1 * n + n;
  }

  /** The index of a pair, in the triangle order; pairs outside the triangle have none. */
  function BaselineOf(antenna1: nat, antenna2: nat, numAntennas: nat): Option<nat> {
    if antenna1 <= antenna2 < numAntennas
    then BaselineIndexInRange(antenna1, antenna2, numAntennas);
         Some(BaselineIndex(antenna1, antenna2, numAntennas))
    else None
  }

  /** Walks the triangle and counts until it meets the pair. */
  method GetBaselineFromAntennas(antenna1: nat, antenna2: nat, numAntennas: nat) returns (r: Option<nat>)
    ensures r == BaselineOf(antenna1, antenna2, numAntennas)
  {
    var baselineIndex := 0;
    for ant1 := 0 to numAntennas
      invariant baselineIndex == BaselineIndex(ant1, ant1, numAntennas)
      invariant !(antenna1 < ant1 && antenna1 <= antenna2 < numAntennas)
    {
      for ant2 := ant1 to numAntennas
        invariant baselineIndex == BaselineIndex(ant1, ant2, numAntennas)
        invariant !(antenna1 == ant1 && ant1 <= antenna2 < ant2)
      {
        if ant1 == antenna1 && ant2 == antenna2 {
          return Some(baselineIndex);
        }
        baselineIndex := baselineIndex + 1;
      }
      NextRow(ant1, numAntennas);
    }
    return None;
  }

  // ---------------------------------------------------------------- the two clocks

  /** Unsigned arithmetic throughout: a GPS reference later than the UNIX one panics. */
  function ConvertGpstimeToUnixtime(gps: nat, startGps: nat, startUnix: nat): Outcome<nat, ()> {
    if startUnix < startGps then Panic else Ok(gps + (startUnix - startGps))
  }

  /** UNIX time 0 stands for "no time" and becomes GPS time 0. */
  function ConvertUnixtimeToGpstime(unix: nat, startGps: nat, startUnix: nat): Outcome<nat, ()> {
    if unix == 0 then Ok(0)
    else if startUnix < startGps || unix < startUnix - startGps then Panic
    else Ok(unix - (startUnix - startGps))
  }

  /** The two scheduled starts are one instant, both clocks run alike, and no time is no time on either. */
  lemma ClocksAreShifted(gps: nat, unix: nat, startGps: nat, startUnix: nat)
    requires startGps <= startUnix
    ensures ConvertGpstimeToUnixtime(startGps, startGps, startUnix) == Ok(startUnix)
    ensures exists u: nat :: ConvertGpstimeToUnixtime(gps, startGps, startUnix) == Ok(u) && u - startUnix == gps - startGps
    ensures ConvertUnixtimeToGpstime(0, startGps, startUnix) == Ok(0)
    ensures unix > 0 ==> (ConvertUnixtimeToGpstime(unix, startGps, startUnix).Ok? <==> startUnix <= unix + startGps)
    ensures unix > 0 && startUnix <= unix + startGps ==>
              exists g: nat :: ConvertUnixtimeToGpstime(unix, startGps, startUnix) == Ok(g) && g - startGps == unix - startUnix
  {
    assert (gps + startUnix - startGps) - startUnix == gps - startGps;
  }

  /** From GPS and back is the identity whenever the first conversion succeeds. */
  lemma GpsRoundTrip(gps: nat, startGps: nat, startUnix: nat)
    requires ConvertGpstimeToUnixtime(gps, startGps, startUnix).Ok?
    ensures ConvertUnixtimeToGpstime(ConvertGpstimeToUnixtime(gps, startGps, startUnix).value, startGps, startUnix) == Ok(gps)
  {
  }

  /** From UNIX and back is the identity unless the time is the 0 that stands for no time
      and the clocks differ. */
  lemma UnixRoundTrip(unix: nat, startGps: nat, startUnix: nat)
    requires ConvertUnixtimeToGpstime(unix, startGps, startUnix).Ok?
    ensures ConvertGpstimeToUnixtime(ConvertUnixtimeToGpstime(unix, startGps, startUnix).value, startGps, startUnix) == Ok(unix)
            <==> unix != 0 || startGps == startUnix
  {
  }
}
