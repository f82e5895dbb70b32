/** Numbering the coarse channels of an observation (src/coarse_channel/mod.rs). */
module CoarseChannels {
  import opened Collections
  import opened Wrappers

  datatype MWAVersion = CorrOldLegacy | CorrLegacy | CorrMWAXv2 | VCSLegacyRecombined | VCSMWAXv2

  datatype CoarseChannel = CoarseChannel(corrChanNumber: nat, recChanNumber: nat, gpuboxNumber: nat)

  datatype CoarseChannelError = BothGpuboxAndVoltageTimeMapSupplied

  /** A time map, of which only the channels at each time matter here. */
  type TimeMap<V> = map<nat, map<nat, V>>

  predicate Legacy(v: MWAVersion) {
    v == CorrLegacy || v == CorrOldLegacy || v == VCSLegacyRecombined
  }

  // ---------------------------------------------------------------- one channel

  predicate Over128(recs: seq<nat>, i: nat)
    requires i < |recs|
  {
    recs[i] > 128
  }

  /** Index of the first receiver channel above 128; the length if there is none. */
  function FirstOver128(recs: seq<nat>): (f: nat)
    ensures f <= |recs| && (f < |recs| ==> Over128(recs, f))
    ensures forall i :: 0 <= i < f ==> !Over128(recs, i)
  {
    if recs == [] || recs[0] > 128 then 0
    else
      var f := FirstOver128(recs[1..]);
      assert forall i :: 1 <= i < |recs| ==> (Over128(recs, i) <==> Over128(recs[1..], i - 1));
      1 + f
  }

  /** Legacy systems count the channels above 128 from the far end. */
  function CorrNumber(v: MWAVersion, recs: seq<nat>, i: nat): (n: nat)
    requires i < |recs|
    ensures n < |recs|
  {
    if Legacy(v) && Over128(recs, i) then |recs| - 1 - (i - FirstOver128(recs)) else i
  }

  /** The channels of the earliest time. */
  function EarliestChannels<V>(m: TimeMap<V>): set<nat> {
    if m.Keys == {} then {} else m[Least(m.Keys)].Keys
  }

  /** The channel at index `i`, unless a time map leaves it out. */
  function Candidate<V, W>(v: MWAVersion, recs: seq<nat>, i: nat, gpubox: Option<TimeMap<V>>, voltage: Option<TimeMap<W>>):
    Option<CoarseChannel>
    requires i < |recs|
  {
    Selected(v, CorrNumber(v, recs, i), recs[i], gpubox, voltage)
  }

  function Selected<V, W>(v: MWAVersion, corr: nat, rec: nat, gpubox: Option<TimeMap<V>>, voltage: Option<TimeMap<W>>):
    Option<CoarseChannel>
  {
    if gpubox.Some? then
      var identifier := if Legacy(v) then corr + 1 else rec;
      if identifier in EarliestChannels(gpubox.value) then Some(CoarseChannel(corr, rec, identifier)) else None
    else if voltage.Some? then
      if rec in EarliestChannels(voltage.value) then Some(CoarseChannel(corr, rec, rec)) else None
    else if v == CorrLegacy || v == CorrOldLegacy then Some(CoarseChannel(corr, rec, corr + 1))
    else Some(CoarseChannel(corr, rec, rec))
  }

  /** The channels that the first `n` indices give. */
  function Candidates<V, W>(v: MWAVersion, recs: seq<nat>, n: nat, gpubox: Option<TimeMap<V>>, voltage: Option<TimeMap<W>>):
    seq<CoarseChannel>
    requires n <= |recs|
  {
    if n == 0 then []
    else
      Candidates(v, recs, n - 1, gpubox, voltage) +
      match Candidate(v, recs, n - 1, gpubox, voltage)
      case Some(c) => [c]
      case None => []
  }

  function RecKey(c: CoarseChannel): int {
    c.recChanNumber
  }

  // ---------------------------------------------------------------- all channels

  /** Names a channel as its system does, unless the time map leaves it out. */
  method SelectChannel<V, W>(v: MWAVersion, corr: nat, rec: nat, gpubox: Option<TimeMap<V>>, voltage: Option<TimeMap<W>>)
    returns (c: Option<CoarseChannel>)
    ensures c == Selected(v, corr, rec, gpubox, voltage)
  {
    c := None;
    if Legacy(v) {
      var gpuboxChanNumber := corr + 1;
      match gpubox {
        case Some(g) =>
          if g.Keys != {} && gpuboxChanNumber in g[Least(g.Keys)] {
            c := Some(CoarseChannel(corr, rec, gpuboxChanNumber));
          }
        case None =>
          match voltage {
            case Some(m) =>
              if m.Keys != {} && rec in m[Least(m.Keys)] {
                c := Some(CoarseChannel(corr, rec, rec));
              }
            case None =>
              if v == VCSLegacyRecombined {
                c := Some(CoarseChannel(corr, rec, rec));
              } else {
                c := Some(CoarseChannel(corr, rec, gpuboxChanNumber));
              }
          }
      }
    } else {
      match gpubox {
        case Some(g) =>
          if g.Keys != {} && rec in g[Least(g.Keys)] {
            c := Some(CoarseChannel(corr, rec, rec));
          }
        case None =>
          match voltage {
            case Some(m) =>
              if m.Keys != {} && rec in m[Least(m.Keys)] {
                c := Some(CoarseChannel(corr, rec, rec));
              }
            case None => c := Some(CoarseChannel(corr, rec, rec));
          }
      }
    }
  }

  method PopulateCoarseChannels<V, W>(v: MWAVersion, recs: seq<nat>, gpubox: Option<TimeMap<V>>, voltage: Option<TimeMap<W>>)
    returns (r: Outcome<seq<CoarseChannel>, CoarseChannelError>)
    ensures r == if gpubox.Some? && voltage.Some? then Err(BothGpuboxAndVoltageTimeMapSupplied)
                 else Ok(SortBy(Candidates(v, recs, |recs|, gpubox, voltage), RecKey))
  {
    if gpubox.Some? && voltage.Some? {
      return Err(BothGpuboxAndVoltageTimeMapSupplied);
    }
    var chans: seq<CoarseChannel> := [];
    var firstChanIndexOver128: Option<nat> := None;
    for i := 0 to |recs|
      invariant chans == Candidates(v, recs, i, gpubox, voltage)
      invariant Legacy(v) ==> firstChanIndexOver128 == if FirstOver128(recs) < i then Some(FirstOver128(recs)) else None
    {
      var corr := i;
      if Legacy(v) && recs[i] > 128 {
        if firstChanIndexOver128.None? {
          firstChanIndexOver128 := Some(i);
        }
        corr := |recs| - 1 - (i - firstChanIndexOver128.value);
      }
      var c := SelectChannel(v, corr, recs[i], gpubox, voltage);
      if c.Some? {
        chans := chans + [c.value];
      }
    }
    return Ok(SortBy(chans, RecKey));
  }

  // ---------------------------------------------------------------- legacy numbers are a bijection

  /** The channels above 128 lie symmetrically in what follows the first of them. */
  ghost predicate MirrorSymmetric(recs: seq<nat>) {
    var f := FirstOver128(recs);
    forall i :: f <= i < |recs| ==> (Over128(recs, i) <==> Over128(recs, |recs| - 1 - (i - f)))
  }

  ghost function CorrNumbers(v: MWAVersion, recs: seq<nat>): seq<nat> {
    seq(|recs|, i requires 0 <= i < |recs| => CorrNumber(v, recs, i))
  }

  /** Reversing gives every channel a number of its own exactly when the reversed channels
      lie symmetrically. */
  lemma CorrNumbersDistinct(v: MWAVersion, recs: seq<nat>)
    ensures Permutation(CorrNumbers(v, recs)) <==> !Legacy(v) || MirrorSymmetric(recs)
  {
    var numbers, n, f := CorrNumbers(v, recs), |recs|, FirstOver128(recs);
    if Legacy(v) && Permutation(numbers) {
      forall i | f <= i < n
        ensures Over128(recs, i) <==> Over128(recs, n - 1 - (i - f))
      {
        var j := n - 1 - (i - f);
        assert numbers[i] == CorrNumber(v, recs, i) && numbers[j] == CorrNumber(v, recs, j);
        assert i != j ==> numbers[i] != numbers[j];
      }
    }
    if MirrorSymmetric(recs) {
      forall i, j | 0 <= i < j < n
        ensures numbers[i] != numbers[j]
      {
        assert i >= f ==> (Over128(recs, i) <==> Over128(recs, n - 1 - (i - f)));
        assert j >= f ==> (Over128(recs, j) <==> Over128(recs, n - 1 - (j - f)));
      }
    }
  }

  /** When the channels above 128 all come last, they do: the numbers are the identity
      before the first of them and run backwards from there. */
  lemma AscendingChannelsAreNumbered(v: MWAVersion, recs: seq<nat>, i: nat)
    requires Legacy(v) && i < |recs|
    requires forall j, k :: 0 <= j < k < |recs| && Over128(recs, j) ==> Over128(recs, k)
    ensures Permutation(CorrNumbers(v, recs))
    ensures var f := FirstOver128(recs); CorrNumber(v, recs, i) == if i < f then i else |recs| - 1 - (i - f)
  {
    var f := FirstOver128(recs);
    assert forall k :: f <= k < |recs| ==> Over128(recs, k);
    CorrNumbersDistinct(v, recs);
  }

  /** A channel above 128 in front of another one breaks the numbering: both get number 1. */
  lemma CorrNumbersCollide()
    ensures CorrNumber(CorrLegacy, [129, 100], 0) == CorrNumber(CorrLegacy, [129, 100], 1) == 1
    ensures !MirrorSymmetric([129, 100])
  {
    var recs := [129, 100];
    assert FirstOver128(recs) == 0;
    assert Over128(recs, 0) && !Over128(recs, 1);
  }

  // ---------------------------------------------------------------- what the channels are

  /** How a system numbers the channel at index `i`, `f` being the first with a receiver channel over 128. */
  predicate IsNumbered(c: CoarseChannel, v: MWAVersion, recs: seq<nat>, f: nat, i: nat)
    requires i < |recs|
  {
    && c.recChanNumber == recs[i]
    && c.corrChanNumber ==
         if recs[i] >= 129 && (v == CorrLegacy || v == CorrOldLegacy || v == VCSLegacyRecombined) then |recs| - 1 - (i - f) else i
  }

  /** What the files of a channel call it. */
  predicate IsNamed<V, W>(c: CoarseChannel, v: MWAVersion, gpubox: Option<TimeMap<V>>, voltage: Option<TimeMap<W>>) {
    c.gpuboxNumber ==
    if voltage.None? && (v == CorrLegacy || v == CorrOldLegacy || (v == VCSLegacyRecombined && gpubox.Some?))
    then c.corrChanNumber + 1
    else c.recChanNumber
  }

  /** The map has the identifier at its earliest time. */
  ghost predicate AtEarliest<V>(m: TimeMap<V>, identifier: nat) {
    exists t :: t in m && identifier in m[t] && forall u :: u in m ==> t <= u
  }

  /** The map supplied, if any, has the channel. */
  ghost predicate IsListed<V, W>(c: CoarseChannel, gpubox: Option<TimeMap<V>>, voltage: Option<TimeMap<W>>) {
    (gpubox.Some? ==> AtEarliest(gpubox.value, c.gpuboxNumber)) && (voltage.Some? ==> AtEarliest(voltage.value, c.gpuboxNumber))
  }

  ghost predicate IsFirstOver128(f: nat, recs: seq<nat>) {
    && f <= |recs| && (forall i :: 0 <= i < f ==> recs[i] <= 128)
    && (f < |recs| ==> recs[f] >= 129)
  }

  /** `c` is the channel at index `i`. */
  ghost predicate IsChannel<V, W>(c: CoarseChannel, v: MWAVersion, recs: seq<nat>, f: nat, i: nat, gpubox: Option<TimeMap<V>>,
                                  voltage: Option<TimeMap<W>>)
  {
    i < |recs| && IsNumbered(c, v, recs, f, i) && IsNamed(c, v, gpubox, voltage) && IsListed(c, gpubox, voltage)
  }

  lemma EarliestIs<V>(m: TimeMap<V>, identifier: nat)
    ensures identifier in EarliestChannels(m) <==> AtEarliest(m, identifier)
  {
    if m.Keys != {} {
      assert Least(m.Keys) in m;
    }
  }

  lemma FirstOver128Is(recs: seq<nat>, f: nat)
    ensures IsFirstOver128(f, recs) <==> f == FirstOver128(recs)
  {
    var g := FirstOver128(recs);
    assert g < |recs| ==> Over128(recs, g);
    if f < g {
      assert !Over128(recs, f);
    } else if f == g {
      forall i | 0 <= i < f
        ensures recs[i] <= 128
      {
        assert !Over128(recs, i);
      }
    }
  }

  lemma ListedIs<V, W>(c: CoarseChannel, gpubox: Option<TimeMap<V>>, voltage: Option<TimeMap<W>>)
    ensures IsListed(c, gpubox, voltage) <==>
              && (gpubox.Some? ==> c.gpuboxNumber in EarliestChannels(gpubox.value))
              && (voltage.Some? ==> c.gpuboxNumber in EarliestChannels(voltage.value))
  {
    if gpubox.Some? {
      EarliestIs(gpubox.value, c.gpuboxNumber);
    }
    if voltage.Some? {
      EarliestIs(voltage.value, c.gpuboxNumber);
    }
  }

  lemma SelectedIs<V, W>(v: MWAVersion, corr: nat, rec: nat, gpubox: Option<TimeMap<V>>, voltage: Option<TimeMap<W>>, c: CoarseChannel)
    requires gpubox.None? || voltage.None?
    ensures Selected(v, corr, rec, gpubox, voltage) == Some(c) <==>
              && c.corrChanNumber == corr && c.recChanNumber == rec
              && IsNamed(c, v, gpubox, voltage) && IsListed(c, gpubox, voltage)
  {
    ListedIs(c, gpubox, voltage);
  }

  lemma CandidateIs<V, W>(v: MWAVersion, recs: seq<nat>, f: nat, i: nat, gpubox: Option<TimeMap<V>>, voltage: Option<TimeMap<W>>,
                          c: CoarseChannel)
    requires i < |recs| && IsFirstOver128(f, recs) && (gpubox.None? || voltage.None?)
    ensures Candidate(v, recs, i, gpubox, voltage) == Some(c) <==> IsChannel(c, v, recs, f, i, gpubox, voltage)
  {
    FirstOver128Is(recs, f);
    SelectedIs(v, CorrNumber(v, recs, i), recs[i], gpubox, voltage, c);
  }

  /** The channels `cs` are those at the indices `q`, which are all there are below `n`. */
  ghost predicate AreChannels<V, W>(cs: seq<CoarseChannel>, q: seq<nat>, n: nat, v: MWAVersion, recs: seq<nat>, f: nat,
                                    gpubox: Option<TimeMap<V>>, voltage: Option<TimeMap<W>>)
  {
    && |q| == |cs|
    && (forall j :: 0 <= j < |q| ==> q[j] < n && IsChannel(cs[j], v, recs, f, q[j], gpubox, voltage))
    && (forall i: nat, c :: i < n && IsChannel(c, v, recs, f, i, gpubox, voltage) ==> i in q)
  }

  lemma {:induction false} CandidatesAre<V, W>(v: MWAVersion, recs: seq<nat>, n: nat, f: nat, gpubox: Option<TimeMap<V>>,
                                               voltage: Option<TimeMap<W>>) returns (q: seq<nat>)
    requires n <= |recs| && IsFirstOver128(f, recs) && (gpubox.None? || voltage.None?)
    ensures Ascending(q) && AreChannels(Candidates(v, recs, n, gpubox, voltage), q, n, v, recs, f, gpubox, voltage)
  {
    if n == 0 {
      q := [];
    } else {
      q := CandidatesAre(v, recs, n - 1, f, gpubox, voltage);
      q := NextCandidate(v, recs, n - 1, f, gpubox, voltage, q);
    }
  }

  lemma NextCandidate<V, W>(v: MWAVersion, recs: seq<nat>, n: nat, f: nat, gpubox: Option<TimeMap<V>>, voltage: Option<TimeMap<W>>,
                            q: seq<nat>) returns (r: seq<nat>)
    requires n < |recs| && IsFirstOver128(f, recs) && (gpubox.None? || voltage.None?)
    requires Ascending(q) && AreChannels(Candidates(v, recs, n, gpubox, voltage), q, n, v, recs, f, gpubox, voltage)
    ensures Ascending(r) && AreChannels(Candidates(v, recs, n + 1, gpubox, voltage), r, n + 1, v, recs, f, gpubox, voltage)
  {
    var cs, next := Candidates(v, recs, n, gpubox, voltage), Candidate(v, recs, n, gpubox, voltage);
    forall c
      ensures next == Some(c) <==> IsChannel(c, v, recs, f, n, gpubox, voltage)
    {
      CandidateIs(v, recs, f, n, gpubox, voltage, c);
    }
    if next.Some? {
      r := q + [n];
      OneMoreChannel(cs, q, n, next.value, v, recs, f, gpubox, voltage);
    } else {
      r := q;
      assert cs + [] == cs;
    }
  }

  lemma OneMoreChannel<V, W>(cs: seq<CoarseChannel>, q: seq<nat>, n: nat, next: CoarseChannel, v: MWAVersion, recs: seq<nat>, f: nat,
                             gpubox: Option<TimeMap<V>>, voltage: Option<TimeMap<W>>)
    requires AreChannels(cs, q, n, v, recs, f, gpubox, voltage) && IsChannel(next, v, recs, f, n, gpubox, voltage)
    ensures AreChannels(cs + [next], q + [n], n + 1, v, recs, f, gpubox, voltage)
  {
    assert forall i :: i in q + [n] <==> i in q || i == n;
  }

  /** The channels of an observation, whatever the system and the map supplied: each stands for one
      index of the receiver channels, none is left out that the map has, and they are in order of
      the receiver channel, those with the same one in order of index. */
  lemma ChannelsAre<V, W>(v: MWAVersion, recs: seq<nat>, gpubox: Option<TimeMap<V>>, voltage: Option<TimeMap<W>>, r: seq<CoarseChannel>)
    returns (p: seq<nat>, f: nat)
    requires gpubox.None? || voltage.None?
    requires r == SortBy(Candidates(v, recs, |recs|, gpubox, voltage), RecKey)
    ensures IsFirstOver128(f, recs) && Injective(p)
    ensures AreChannels(r, p, |recs|, v, recs, f, gpubox, voltage)
    ensures forall i, j :: 0 <= i < j < |r| ==> r[i].recChanNumber <= r[j].recChanNumber
    ensures forall i, j :: 0 <= i < j < |r| && r[i].recChanNumber == r[j].recChanNumber ==> p[i] < p[j]
  {
    f := FirstOver128(recs);
    FirstOver128Is(recs, f);
    var cs := Candidates(v, recs, |recs|, gpubox, voltage);
    var q := CandidatesAre(v, recs, |recs|, f, gpubox, voltage);
    var s := StableSort(cs, RecKey);
    p := seq(|s|, j requires 0 <= j < |s| => q[s[j]]);
    ReadInOrder(cs, q, r, s, p);
    ChannelsReordered(cs, q, r, s, p, |recs|, v, recs, f, gpubox, voltage);
  }

  lemma ReadInOrder(cs: seq<CoarseChannel>, q: seq<nat>, r: seq<CoarseChannel>, s: seq<nat>, p: seq<nat>)
    requires Reorders(s, cs, r) && |q| == |cs| && Ascending(q) && SortedBy(r, RecKey)
    requires |p| == |s| && forall j :: 0 <= j < |p| ==> p[j] == q[s[j]]
    requires IsStable(s, r, RecKey)
    ensures Injective(p)
    ensures forall i, j :: 0 <= i < j < |r| ==> r[i].recChanNumber <= r[j].recChanNumber
    ensures forall i, j :: 0 <= i < j < |r| && r[i].recChanNumber == r[j].recChanNumber ==> p[i] < p[j]
  {
    forall i, j | 0 <= i < j < |p|
      ensures p[i] != p[j]
    {
      assert s[i] != s[j];
    }
    forall i, j | 0 <= i < j < |r|
      ensures r[i].recChanNumber <= r[j].recChanNumber
      ensures r[i].recChanNumber == r[j].recChanNumber ==> p[i] < p[j]
    {
      assert RecKey(r[i]) <= RecKey(r[j]);
    }
  }

  lemma ChannelsReordered<V, W>(cs: seq<CoarseChannel>, q: seq<nat>, r: seq<CoarseChannel>, s: seq<nat>, p: seq<nat>, n: nat, v: MWAVersion,
                                recs: seq<nat>, f: nat, gpubox: Option<TimeMap<V>>, voltage: Option<TimeMap<W>>)
    requires Reorders(s, cs, r) && AreChannels(cs, q, n, v, recs, f, gpubox, voltage)
    requires |p| == |s| && forall j :: 0 <= j < |p| ==> p[j] == q[s[j]]
    ensures AreChannels(r, p, n, v, recs, f, gpubox, voltage)
  {
    forall i | i in q
      ensures i in p
    {
      var k :| 0 <= k < |q| && q[k] == i;
      PermutationOnto(s, k);
      var j := IndexOf(s, k);
      assert p[j] == i;
    }
  }

  /** Without a map every receiver channel has its channel. */
  lemma AllChannelsAre<V, W>(v: MWAVersion, recs: seq<nat>, r: seq<CoarseChannel>) returns (p: seq<nat>, f: nat)
    requires r == SortBy(Candidates<V, W>(v, recs, |recs|, None, None), RecKey)
    ensures IsFirstOver128(f, recs) && |r| == |recs| == |p| && Permutation(p)
    ensures forall j :: 0 <= j < |r| ==> IsNumbered(r[j], v, recs, f, p[j]) && IsNamed<V, W>(r[j], v, None, None)
    ensures forall i, j :: 0 <= i < j < |r| ==> r[i].recChanNumber <= r[j].recChanNumber
    ensures forall i, j :: 0 <= i < j < |r| && r[i].recChanNumber == r[j].recChanNumber ==> p[i] < p[j]
  {
    p, f := ChannelsAre<V, W>(v, recs, None, None, r);
    AllCandidates<V, W>(v, recs, |recs|);
  }

  // ---------------------------------------------------------------- channels named by a time map

  function FilterBy<T>(s: seq<T>, keep: T -> bool): seq<T> {
    if s == [] then [] else (if keep(s[0]) then [s[0]] else []) + FilterBy(s[1..], keep)
  }

  lemma {:induction false} FilterAppend<T>(s: seq<T>, x: T, keep: T -> bool)
    ensures FilterBy(s + [x], keep) == FilterBy(s, keep) + if keep(x) then [x] else []
  {
    if s == [] {
      assert [] + [x] == [x];
    } else {
      var y, rest := s[0], s[1..];
      assert s == [y] + rest && s + [x] == [y] + (rest + [x]);
      FilterCons(y, rest + [x], keep);
      FilterCons(y, rest, keep);
      FilterAppend(rest, x, keep);
    }
  }

  lemma FilterCons<T>(y: T, rest: seq<T>, keep: T -> bool)
    ensures FilterBy([y] + rest, keep) == (if keep(y) then [y] else []) + FilterBy(rest, keep)
  {
    assert ([y] + rest)[1..] == rest;
  }

  /** With the time map of its own kind, a system gets the channels it gets without one,
      less those that the earliest time does not hold. */
  lemma {:induction false} CandidatesFiltered<V, W>(v: MWAVersion, recs: seq<nat>, n: nat, gpubox: Option<TimeMap<V>>,
                                                    voltage: Option<TimeMap<W>>, channels: set<nat>)
    requires n <= |recs|
    requires (v == CorrLegacy || v == CorrOldLegacy || v == CorrMWAXv2) ==>
               gpubox.Some? && voltage.None? && channels == EarliestChannels(gpubox.value)
    requires (v == VCSLegacyRecombined || v == VCSMWAXv2) ==>
               gpubox.None? && voltage.Some? && channels == EarliestChannels(voltage.value)
    ensures Candidates(v, recs, n, gpubox, voltage) ==
            FilterBy(Candidates<V, W>(v, recs, n, None, None), (c: CoarseChannel) => c.gpuboxNumber in channels)
  {
    if n > 0 {
      CandidatesFiltered(v, recs, n - 1, gpubox, voltage, channels);
      var all := Candidates<V, W>(v, recs, n - 1, None, None);
      FilterAppend(all, Candidate<V, W>(v, recs, n - 1, None, None).value, (c: CoarseChannel) => c.gpuboxNumber in channels);
    }
  }

  lemma {:induction false} InsertFiltered<T>(x: T, s: seq<T>, key: T -> int, keep: T -> bool)
    requires SortedBy(s, key) && SortedBy(FilterBy(s, keep), key)
    ensures FilterBy(InsertBy(x, s, key), keep) == if keep(x) then InsertBy(x, FilterBy(s, keep), key) else FilterBy(s, keep)
  {
    if s == [] || key(x) <= key(s[0]) {
      InsertAhead(x, s, key, keep);
    } else {
      assert s == [s[0]] + s[1..];
      FilterSorted(s[1..], key, keep);
      InsertFiltered(x, s[1..], key, keep);
      InsertBehind(x, s[0], s[1..], key, keep);
    }
  }

  lemma InsertAhead<T>(x: T, s: seq<T>, key: T -> int, keep: T -> bool)
    requires SortedBy(s, key) && SortedBy(FilterBy(s, keep), key) && (s == [] || key(x) <= key(s[0]))
    ensures FilterBy(InsertBy(x, s, key), keep) == if keep(x) then InsertBy(x, FilterBy(s, keep), key) else FilterBy(s, keep)
  {
    InsertFirst(x, s, key);
    FilterCons(x, s, keep);
    if keep(x) {
      FirstKept(x, s, key, keep);
    } else {
      assert [] + FilterBy(s, keep) == FilterBy(s, keep);
    }
  }

  lemma FirstKept<T>(x: T, s: seq<T>, key: T -> int, keep: T -> bool)
    requires SortedBy(s, key) && SortedBy(FilterBy(s, keep), key) && (s == [] || key(x) <= key(s[0]))
    ensures InsertBy(x, FilterBy(s, keep), key) == [x] + FilterBy(s, keep)
  {
    var f := FilterBy(s, keep);
    if f != [] {
      FilterMembers(s, keep);
      assert f[0] in s;
      var i :| 0 <= i < |s| && s[i] == f[0];
      assert key(s[0]) <= key(s[i]);
    }
    InsertFirst(x, f, key);
  }

  lemma InsertBehind<T>(x: T, y: T, rest: seq<T>, key: T -> int, keep: T -> bool)
    requires SortedBy([y] + rest, key) && SortedBy(rest, key) && key(y) < key(x)
    requires SortedBy(FilterBy(rest, keep), key) && SortedBy(FilterBy([y] + rest, keep), key)
    requires FilterBy(InsertBy(x, rest, key), keep) ==
             if keep(x) then InsertBy(x, FilterBy(rest, keep), key) else FilterBy(rest, keep)
    ensures FilterBy(InsertBy(x, [y] + rest, key), keep) ==
            if keep(x) then InsertBy(x, FilterBy([y] + rest, keep), key) else FilterBy([y] + rest, keep)
  {
    var f, inserted := FilterBy(rest, keep), InsertBy(x, rest, key);
    InsertLater(x, y, rest, key);
    FilterCons(y, inserted, keep);
    FilterCons(y, rest, keep);
    if keep(y) {
      assert FilterBy([y] + rest, keep) == [y] + f;
      InsertLater(x, y, f, key);
    } else {
      assert FilterBy([y] + rest, keep) == f;
      assert FilterBy([y] + inserted, keep) == FilterBy(inserted, keep);
    }
  }

  lemma {:induction false} FilterMembers<T>(s: seq<T>, keep: T -> bool)
    ensures forall x :: x in FilterBy(s, keep) ==> x in s
  {
    if s != [] {
      FilterMembers(s[1..], keep);
    }
  }

  lemma {:induction false} FilterSorted<T>(s: seq<T>, key: T -> int, keep: T -> bool)
    requires SortedBy(s, key)
    ensures SortedBy(FilterBy(s, keep), key)
  {
    if s != [] {
      FilterSorted(s[1..], key, keep);
      FilterMembers(s[1..], keep);
      var f := FilterBy(s[1..], keep);
      assert forall i :: 0 <= i < |f| ==> f[i] in f && f[i] in s[1..];
    }
  }

  /** Filtering and (stable) sorting commute. */
  lemma {:induction false} SortFiltered<T>(s: seq<T>, key: T -> int, keep: T -> bool)
    ensures SortBy(FilterBy(s, keep), key) == FilterBy(SortBy(s, key), keep)
  {
    if s != [] {
      var x, rest := s[0], s[1..];
      var sorted, kept := SortBy(rest, key), FilterBy(rest, keep);
      assert s == [x] + rest;
      calc {
        FilterBy(SortBy(s, key), keep);
        { SortCons(x, rest, key); }
        FilterBy(InsertBy(x, sorted, key), keep);
        { FilterSorted(sorted, key, keep); InsertFiltered(x, sorted, key, keep); }
        if keep(x) then InsertBy(x, FilterBy(sorted, keep), key) else FilterBy(sorted, keep);
        { SortFiltered(rest, key, keep); }
        if keep(x) then InsertBy(x, SortBy(kept, key), key) else SortBy(kept, key);
        { SortCons(x, kept, key); }
        SortBy(if keep(x) then [x] + kept else kept, key);
        { FilterCons(x, rest, keep); assert [] + kept == kept; }
        SortBy(FilterBy(s, keep), key);
      }
    }
  }

  /** The final list with a time map of the matching kind is the final list without one,
      filtered by the channels of the earliest time. */
  lemma ChannelsFiltered<V, W>(v: MWAVersion, recs: seq<nat>, gpubox: Option<TimeMap<V>>, voltage: Option<TimeMap<W>>,
                               channels: set<nat>)
    requires (v == CorrLegacy || v == CorrOldLegacy || v == CorrMWAXv2) ==>
               gpubox.Some? && voltage.None? && channels == EarliestChannels(gpubox.value)
    requires (v == VCSLegacyRecombined || v == VCSMWAXv2) ==>
               gpubox.None? && voltage.Some? && channels == EarliestChannels(voltage.value)
    ensures SortBy(Candidates(v, recs, |recs|, gpubox, voltage), RecKey) ==
            FilterBy(SortBy(Candidates<V, W>(v, recs, |recs|, None, None), RecKey), (c: CoarseChannel) => c.gpuboxNumber in channels)
  {
    CandidatesFiltered(v, recs, |recs|, gpubox, voltage, channels);
    SortFiltered(Candidates<V, W>(v, recs, |recs|, None, None), RecKey, (c: CoarseChannel) => c.gpuboxNumber in channels);
  }

  // ---------------------------------------------------------------- looking channels up

  /** Index of the first channel with this identifier. */
  function IndexOfChannel(chans: seq<CoarseChannel>, identifier: nat): Option<nat> {
    Position(chans, (c: CoarseChannel) => c.gpuboxNumber == identifier)
  }

  function IndicesOf(chans: seq<CoarseChannel>, identifiers: seq<nat>): (r: seq<nat>)
    requires forall i :: 0 <= i < |identifiers| ==> IndexOfChannel(chans, identifiers[i]).Some?
    ensures |r| == |identifiers|
  {
    seq(|identifiers|, i requires 0 <= i < |identifiers| => IndexOfChannel(chans, identifiers[i]).value)
  }

  /** The indices of the identified channels, sorted; an unknown identifier panics. */
  function GetCoarseChanIndices(chans: seq<CoarseChannel>, identifiers: seq<nat>): Outcome<seq<nat>, ()> {
    if exists i :: 0 <= i < |identifiers| && IndexOfChannel(chans, identifiers[i]).None? then Panic
    else Ok(SortBy(IndicesOf(chans, identifiers), IndexKey))
  }

  ghost predicate DistinctIdentifiers(chans: seq<CoarseChannel>) {
    forall i, j :: 0 <= i < j < |chans| ==> chans[i].gpuboxNumber != chans[j].gpuboxNumber
  }

  lemma IndexOfChannelFound(chans: seq<CoarseChannel>, k: nat)
    requires DistinctIdentifiers(chans) && k < |chans|
    ensures IndexOfChannel(chans, chans[k].gpuboxNumber) == Some(k)
  {
  }

  /** Every index found is that of a named channel. */
  lemma FoundChannelsAreNamed(chans: seq<CoarseChannel>, identifiers: seq<nat>)
    requires GetCoarseChanIndices(chans, identifiers).Ok?
    ensures |GetCoarseChanIndices(chans, identifiers).value| == |identifiers|
    ensures forall k :: k in GetCoarseChanIndices(chans, identifiers).value ==>
                        0 <= k < |chans| && chans[k].gpuboxNumber in identifiers
  {
    var r, indices := GetCoarseChanIndices(chans, identifiers).value, IndicesOf(chans, identifiers);
    assert |multiset(r)| == |r| && |multiset(indices)| == |indices|;
    forall k | k in r
      ensures 0 <= k < |chans| && chans[k].gpuboxNumber in identifiers
    {
      assert k in multiset(r);
      assert k in multiset(indices);
      var i :| 0 <= i < |indices| && indices[i] == k;
      assert identifiers[i] in identifiers;
    }
  }

  /** Looking up and naming are inverse: with distinct identifiers, the result holds exactly
      the indices of the named channels, one for each, in order. */
  lemma CoarseChanIndices(chans: seq<CoarseChannel>, identifiers: seq<nat>)
    requires DistinctIdentifiers(chans) && GetCoarseChanIndices(chans, identifiers).Ok?
    ensures |GetCoarseChanIndices(chans, identifiers).value| == |identifiers|
    ensures forall k :: k in GetCoarseChanIndices(chans, identifiers).value <==>
                        0 <= k < |chans| && chans[k].gpuboxNumber in identifiers
    ensures Injective(identifiers) ==> Ascending(GetCoarseChanIndices(chans, identifiers).value)
  {
    FoundChannelsAreNamed(chans, identifiers);
    DistinctIndices(IndicesOf(chans, identifiers));
    var r, indices := GetCoarseChanIndices(chans, identifiers).value, IndicesOf(chans, identifiers);
    forall k | 0 <= k < |chans| && chans[k].gpuboxNumber in identifiers
      ensures k in r
    {
      IndexOfChannelFound(chans, k);
      var i :| 0 <= i < |identifiers| && identifiers[i] == chans[k].gpuboxNumber;
      assert indices[i] == k && k in multiset(indices) && k in multiset(r);
    }
  }

  /** Every name leads to a channel of that name. */
  lemma NamedChannelIsFound(chans: seq<CoarseChannel>, identifiers: seq<nat>, identifier: nat) returns (k: nat)
    requires GetCoarseChanIndices(chans, identifiers).Ok? && identifier in identifiers
    ensures k in GetCoarseChanIndices(chans, identifiers).value
    ensures k < |chans| && chans[k].gpuboxNumber == identifier
  {
    var indices := IndicesOf(chans, identifiers);
    var i :| 0 <= i < |identifiers| && identifiers[i] == identifier;
    k := indices[i];
    assert k in multiset(indices) && k in multiset(SortBy(indices, IndexKey));
  }

  /** The lookup succeeds when every identifier belongs to some channel. */
  lemma ChannelsAreFound(chans: seq<CoarseChannel>, identifiers: seq<nat>)
    ensures GetCoarseChanIndices(chans, identifiers).Ok? <==>
            forall i :: 0 <= i < |identifiers| ==> exists k :: 0 <= k < |chans| && chans[k].gpuboxNumber == identifiers[i]
  {
    forall i | 0 <= i < |identifiers|
      ensures IndexOfChannel(chans, identifiers[i]).Some? <==> exists k :: 0 <= k < |chans| && chans[k].gpuboxNumber == identifiers[i]
    {
    }
  }

  // ---------------------------------------------------------------- identifiers without a time map

  lemma {:induction false} AllCandidates<V, W>(v: MWAVersion, recs: seq<nat>, n: nat)
    requires n <= |recs|
    ensures var c := Candidates<V, W>(v, recs, n, None, None);
            |c| == n && forall i :: 0 <= i < n ==> Some(c[i]) == Candidate<V, W>(v, recs, i, None, None)
  {
    if n > 0 {
      AllCandidates<V, W>(v, recs, n - 1);
    }
  }

  /** The identifiers of an observation are distinct exactly when, for the legacy correlator, its
      receiver channels lie symmetrically above 128, and for the others when they are distinct. */
  lemma IdentifiersDistinct<V, W>(v: MWAVersion, recs: seq<nat>)
    ensures DistinctIdentifiers(SortBy(Candidates<V, W>(v, recs, |recs|, None, None), RecKey)) <==>
            if v == CorrLegacy || v == CorrOldLegacy then MirrorSymmetric(recs) else Injective(recs)
  {
    var c := Candidates<V, W>(v, recs, |recs|, None, None);
    var r := SortBy(c, RecKey);
    CandidatesDistinct<V, W>(v, recs);
    var p := SameElementsReorder(c, r);
    if DistinctIdentifiers(c) {
      ReorderedDistinct(c, r, p);
    }
    var q := SameElementsReorder(r, c);
    if DistinctIdentifiers(r) {
      ReorderedDistinct(r, c, q);
    }
  }

  lemma CandidatesDistinct<V, W>(v: MWAVersion, recs: seq<nat>)
    ensures DistinctIdentifiers(Candidates<V, W>(v, recs, |recs|, None, None)) <==>
            if v == CorrLegacy || v == CorrOldLegacy then MirrorSymmetric(recs) else Injective(recs)
  {
    var c := Candidates<V, W>(v, recs, |recs|, None, None);
    CandidateIdentifiers<V, W>(v, recs);
    if v == CorrLegacy || v == CorrOldLegacy {
      CorrNumbersDistinct(v, recs);
      DistinctAs(c, CorrNumbers(v, recs), 1);
    } else {
      DistinctAs(c, recs, 0);
    }
  }

  lemma DistinctAs(c: seq<CoarseChannel>, numbers: seq<nat>, base: nat)
    requires |c| == |numbers| && forall i :: 0 <= i < |c| ==> c[i].gpuboxNumber == numbers[i] + base
    ensures DistinctIdentifiers(c) <==> Injective(numbers)
  {
  }

  lemma CandidateIdentifiers<V, W>(v: MWAVersion, recs: seq<nat>)
    ensures var c := Candidates<V, W>(v, recs, |recs|, None, None);
            |c| == |recs| && forall i :: 0 <= i < |c| ==>
              c[i].gpuboxNumber == if v == CorrLegacy || v == CorrOldLegacy then CorrNumber(v, recs, i) + 1 else recs[i]
  {
    var c := Candidates<V, W>(v, recs, |recs|, None, None);
    AllCandidates<V, W>(v, recs, |recs|);
    forall i | 0 <= i < |c|
      ensures c[i].gpuboxNumber == if v == CorrLegacy || v == CorrOldLegacy then CorrNumber(v, recs, i) + 1 else recs[i]
    {
      IdentifierOf<V, W>(v, recs, i, c[i]);
    }
  }

  lemma IdentifierOf<V, W>(v: MWAVersion, recs: seq<nat>, i: nat, c: CoarseChannel)
    requires i < |recs| && Some(c) == Candidate<V, W>(v, recs, i, None, None)
    ensures c.gpuboxNumber == if v == CorrLegacy || v == CorrOldLegacy then CorrNumber(v, recs, i) + 1 else recs[i]
  {
  }

  lemma ReorderedDistinct(c: seq<CoarseChannel>, r: seq<CoarseChannel>, p: seq<nat>)
    requires Reorders(p, c, r) && DistinctIdentifiers(c)
    ensures DistinctIdentifiers(r)
  {
    forall i, j | 0 <= i < j < |r|
      ensures r[i].gpuboxNumber != r[j].gpuboxNumber
    {
      var k, l := if p[i] < p[j] then p[i] else p[j], if p[i] < p[j] then p[j] else p[i];
      assert c[k].gpuboxNumber != c[l].gpuboxNumber;
    }
  }
}
