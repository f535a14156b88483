/**
 * The minute/hour/day records of the roll-up, the in-memory record store that stands in for
 * the object database, and the per-minute accumulator, as values and functions. `Advance`
 * is what one publishing tick of `SampleValues` does to the accumulator and the three stores;
 * `Engine.Sampler.Tick` is proved to do exactly that.
 */
module History {
  import opened Wrappers

  // ---------------------------------------------------------------------------------------
  // Time: integer seconds since 0001-01-01 00:00 local time (DateTime.MinValue is 0)

  const MinTime: int := 0
  const SecondsPerMinute: int := 60
  const SecondsPerHour: int := 3600
  const SecondsPerDay: int := 86400
  /** Each resolution keeps 100 of its own units (`AddMinutes(-100)`, `AddHours(-100)`, `AddDays(-100)`). */
  const Retention: int := 100
  /** `Find<LastMinute>(0, 60, ...)` and `Find<LastHour>(0, 24, ...)`. */
  const MinutesPerHour: nat := 60
  const HoursPerDay: nat := 24

  /** `DateTime.Minute`. */
  function MinuteOf(t: int): int { (t / 60) % 60 }
  /** `DateTime.Hour`. */
  function HourOf(t: int): int { (t / 3600) % 24 }
  /** `new DateTime(Year, Month, Day, Hour, 0, 0)`. */
  function HourStart(t: int): int { t / 3600 * 3600 }
  /** `new DateTime(Year, Month, Day, 0, 0, 0)`. */
  function Midnight(t: int): int { t / 86400 * 86400 }

  // ---------------------------------------------------------------------------------------
  // Records

  /**
   * `LastMinute`, `LastHour` and `LastDay` share this shape (`History/Base.cs`): the closing
   * tick's time, light and motion pin, the light minimum and maximum with their timestamps,
   * and the averages of light and of motion (as a percentage), each possibly absent.
   */
  datatype Record = Record(
    timestamp: int,
    light: real,
    motion: bool,
    minLight: Option<real>,
    minLightAt: int,
    maxLight: Option<real>,
    maxLightAt: int,
    avgLight: Option<real>,
    avgMotion: Option<real>)

  /** The records of `s` that `keep` accepts, in store order. */
  function Filter(s: seq<Record>, keep: Record -> bool): seq<Record>
  {
    if s == [] then []
    else
      var last := s[|s| - 1];
      Filter(s[..|s| - 1], keep) + (if keep(last) then [last] else [])
  }

  lemma {:induction false} FilterMembers(s: seq<Record>, keep: Record -> bool)
    ensures forall x :: x in Filter(s, keep) <==> x in s && keep(x)
  {
    if s != [] {
      FilterMembers(s[..|s| - 1], keep);
      assert s == s[..|s| - 1] + [s[|s| - 1]];
    }
  }

  /** Retention: drop every record whose timestamp is strictly earlier than `cutoff`. */
  function Prune(s: seq<Record>, cutoff: int): seq<Record>
  {
    Filter(s, (x: Record) => x.timestamp >= cutoff)
  }

  /** Pruning keeps exactly the stored records at or after the cut-off. */
  lemma PruneKeeps(s: seq<Record>, cutoff: int)
    ensures forall x :: x in Prune(s, cutoff) <==> x in s && x.timestamp >= cutoff
  {
    FilterMembers(s, (x: Record) => x.timestamp >= cutoff);
  }

  /** At most the first `n` records (the `maxCount` argument of `Find`). */
  function Take(s: seq<Record>, n: nat): (r: seq<Record>)
    ensures |r| <= n && r <= s
    ensures |s| <= n ==> r == s
  {
    if |s| <= n then s else s[..n]
  }

  /** `Find(0, limit, Timestamp >= from AND Timestamp < to)`: the compaction query. */
  function FindHalfOpen(s: seq<Record>, from: int, to: int, limit: nat): seq<Record>
  {
    Take(Filter(s, (x: Record) => from <= x.timestamp < to), limit)
  }

  predicate SortedByTime(s: seq<Record>)
  {
    forall i, j :: 0 <= i < j < |s| ==> s[i].timestamp <= s[j].timestamp
  }

  /** `x` placed before the first record of `s` that is not earlier than it. */
  function InsertByTime(x: Record, s: seq<Record>): seq<Record>
  {
    if s == [] then [x]
    else if x.timestamp <= s[0].timestamp then [x] + s
    else [s[0]] + InsertByTime(x, s[1..])
  }

  /** The store's ordering by `Timestamp` (the `"Timestamp"` sort argument of `Find`). */
  function SortByTime(s: seq<Record>): seq<Record>
  {
    if s == [] then [] else InsertByTime(s[|s| - 1], SortByTime(s[..|s| - 1]))
  }

  /** Inserting adds exactly `x` and keeps a time-ordered sequence time-ordered. */
  lemma {:induction false} InsertByTimeFacts(x: Record, s: seq<Record>)
    ensures multiset(InsertByTime(x, s)) == multiset(s) + multiset{x}
    ensures SortedByTime(s) ==> SortedByTime(InsertByTime(x, s))
  {
    if s != [] && x.timestamp > s[0].timestamp {
      var rest := InsertByTime(x, s[1..]);
      InsertByTimeFacts(x, s[1..]);
      assert s == [s[0]] + s[1..];
      if SortedByTime(s) {
        forall y | y in rest
          ensures s[0].timestamp <= y.timestamp
        {
          assert y in multiset(rest);
          assert y == x || y in s[1..];
        }
      }
    }
  }

  /** Sorting orders by time and is a permutation of the store. */
  lemma {:induction false} SortByTimeFacts(s: seq<Record>)
    ensures SortedByTime(SortByTime(s))
    ensures multiset(SortByTime(s)) == multiset(s)
  {
    if s != [] {
      SortByTimeFacts(s[..|s| - 1]);
      InsertByTimeFacts(s[|s| - 1], SortByTime(s[..|s| - 1]));
      assert s == s[..|s| - 1] + [s[|s| - 1]];
    }
  }

  /**
   * `Find(Timestamp >= from AND Timestamp <= to, "Timestamp")`: the historical readout query,
   * inclusive at both ends and ordered by time.
   */
  function Query(s: seq<Record>, from: int, to: int): (r: seq<Record>)
    ensures SortedByTime(r)
    ensures forall x :: x in r <==> x in s && from <= x.timestamp <= to
  {
    var m := Filter(s, (x: Record) => from <= x.timestamp <= to);
    FilterMembers(s, (x: Record) => from <= x.timestamp <= to);
    var r := SortByTime(m);
    SortByTimeFacts(m);
    assert forall x :: x in r <==> x in m by {
      forall x ensures x in r <==> x in m {
        assert x in r <==> x in multiset(r);
        assert x in m <==> x in multiset(m);
      }
    }
    r
  }

  // ---------------------------------------------------------------------------------------
  // Means and extremes over optional values

  /** Which optional figure of a record a fold reads. */
  datatype Measure = MinLight | MaxLight | AvgLight | AvgMotion

  function Get(r: Record, m: Measure): Option<real>
  {
    match m
    case MinLight => r.minLight
    case MaxLight => r.maxLight
    case AvgLight => r.avgLight
    case AvgMotion => r.avgMotion
  }

  /** Sum of the present values of `m` in `recs`. */
  function PresentSum(recs: seq<Record>, m: Measure): real
  {
    if recs == [] then 0.0 else PresentSum(recs[..|recs| - 1], m) + Get(recs[|recs| - 1], m).GetOr(0.0)
  }

  /** Number of records of `recs` in which `m` is present. */
  function PresentCount(recs: seq<Record>, m: Measure): nat
  {
    if recs == [] then 0
    else PresentCount(recs[..|recs| - 1], m) + (if Get(recs[|recs| - 1], m).Some? then 1 else 0)
  }

  /** Mean of the present values, absent values excluded from sum and divisor; absent if none. */
  function MeanOfPresent(recs: seq<Record>, m: Measure): Option<real>
  {
    var n := PresentCount(recs, m);
    if n == 0 then None else Some(PresentSum(recs, m) / n as real)
  }

  /** A light extreme together with the timestamp that goes with it. */
  datatype Extreme = Extreme(value: Option<real>, at: int)

  /**
   * The compaction loop's extreme tracking as written: a record's value replaces the running
   * one when `x < acc` under C#'s lifted comparison (false when either side is absent), and
   * the timestamp then becomes `at`. The source uses this same `<` test for the minimum and
   * for the maximum.
   */
  function LowerFold(seed: Extreme, recs: seq<Record>, m: Measure, at: int): Extreme
  {
    if recs == [] then seed
    else
      var acc := LowerFold(seed, recs[..|recs| - 1], m, at);
      var x := Get(recs[|recs| - 1], m);
      if x.Some? && acc.value.Some? && x.value < acc.value.value then Extreme(x, at) else acc
  }

  /**
   * The hour (or day) record built from the finer records `recs`: closing tick's time, light
   * and motion; extremes seeded from `seed` and, when replaced, stamped with `at`'s
   * timestamps; averages as means of the present finer averages.
   */
  function Compact(t: int, light: real, motion: bool, seed: Record, at: Record, recs: seq<Record>): Record
  {
    var lo := LowerFold(Extreme(seed.minLight, seed.minLightAt), recs, MinLight, at.minLightAt);
    var hi := LowerFold(Extreme(seed.maxLight, seed.maxLightAt), recs, MaxLight, at.maxLightAt);
    Record(t, light, motion, lo.value, lo.at, hi.value, hi.at,
           MeanOfPresent(recs, AvgLight), MeanOfPresent(recs, AvgMotion))
  }

  /**
   * The compaction loop of `SampleValues`: sums and counts the present averages, folds the
   * extremes, then divides (or leaves the average absent when nothing was present).
   */
  method CompactRecords(t: int, light: real, motion: bool, seed: Record, at: Record, recs: seq<Record>)
    returns (r: Record)
    ensures r == Compact(t, light, motion, seed, at, recs)
  {
    var sumLight, sumMotion := 0.0, 0.0;
    var nLight, nMotion := 0, 0;
    var lo := Extreme(seed.minLight, seed.minLightAt);
    var hi := Extreme(seed.maxLight, seed.maxLightAt);
    var i := 0;
    while i < |recs|
      invariant 0 <= i <= |recs|
      invariant sumLight == PresentSum(recs[..i], AvgLight) && nLight == PresentCount(recs[..i], AvgLight)
      invariant sumMotion == PresentSum(recs[..i], AvgMotion) && nMotion == PresentCount(recs[..i], AvgMotion)
      invariant lo == LowerFold(Extreme(seed.minLight, seed.minLightAt), recs[..i], MinLight, at.minLightAt)
      invariant hi == LowerFold(Extreme(seed.maxLight, seed.maxLightAt), recs[..i], MaxLight, at.maxLightAt)
    {
      var rec := recs[i];
      assert recs[..i + 1][..i] == recs[..i];
      if rec.avgLight.Some? {
        sumLight := sumLight + rec.avgLight.value;
        nLight := nLight + 1;
      }
      if rec.avgMotion.Some? {
        sumMotion := sumMotion + rec.avgMotion.value;
        nMotion := nMotion + 1;
      }
      if rec.minLight.Some? && lo.value.Some? && rec.minLight.value < lo.value.value {
        lo := Extreme(rec.minLight, at.minLightAt);
      }
      if rec.maxLight.Some? && hi.value.Some? && rec.maxLight.value < hi.value.value {
        hi := Extreme(rec.maxLight, at.maxLightAt);
      }
      i := i + 1;
    }
    assert recs[..i] == recs;
    var avgLight := if nLight == 0 then None else Some(sumLight / nLight as real);
    var avgMotion := if nMotion == 0 then None else Some(sumMotion / nMotion as real);
    r := Record(t, light, motion, lo.value, lo.at, hi.value, hi.at, avgLight, avgMotion);
  }

  // ---------------------------------------------------------------------------------------
  // The minute accumulator

  /**
   * The fields `sumLight`, `sumMotion`, `nrTerms`, `minLight`/`minLightAt` and
   * `maxLight`/`maxLightAt` of the application object.
   */
  datatype Accumulator = Accumulator(
    sumLight: real,
    sumMotion: int,
    nrTerms: int,
    minLight: Option<real>,
    minLightAt: int,
    maxLight: Option<real>,
    maxLightAt: int)

  function EmptyAccumulator(): Accumulator
  {
    Accumulator(0.0, 0, 0, None, MinTime, None, MinTime)
  }

  /**
   * What the accumulator always satisfies: motion counted at most once per term, extremes
   * present exactly when some term was added, and the mean between them.
   */
  ghost predicate AccValid(a: Accumulator)
  {
    && 0 <= a.sumMotion <= a.nrTerms
    && (a.nrTerms == 0 ==> a.sumLight == 0.0)
    && (a.nrTerms == 0 <==> a.minLight.None?)
    && (a.nrTerms == 0 <==> a.maxLight.None?)
    && (a.nrTerms > 0 ==>
         Scaled(a.minLight.value, a.nrTerms) <= a.sumLight <= Scaled(a.maxLight.value, a.nrTerms))
  }

  /** One published tick: add the light, count motion, update the extremes (first one wins ties). */
  function Accumulate(a: Accumulator, light: real, motion: bool, t: int): Accumulator
  {
    var lowered := a.minLight.None? || light < a.minLight.value;
    var raised := a.maxLight.None? || light > a.maxLight.value;
    Accumulator(
      a.sumLight + light,
      a.sumMotion + (if motion then 1 else 0),
      a.nrTerms + 1,
      if lowered then Some(light) else a.minLight,
      if lowered then t else a.minLightAt,
      if raised then Some(light) else a.maxLight,
      if raised then t else a.maxLightAt)
  }

  /**
   * The record written when the minute changes. `integerMotionAverage` selects SensorMqtt's
   * integer division `sumMovement / nrTerms` instead of `sumMotion * 100.0 / nrTerms`.
   */
  function MinuteRecord(a: Accumulator, t: int, light: real, motion: bool, integerMotionAverage: bool): Record
  {
    Record(t, light, motion, a.minLight, a.minLightAt, a.maxLight, a.maxLightAt,
      if a.nrTerms == 0 then None else Some(a.sumLight / a.nrTerms as real),
      if a.nrTerms == 0 then None
      else if integerMotionAverage then Some((a.sumMotion / a.nrTerms) as real)
      else Some((a.sumMotion as real * 100.0) / a.nrTerms as real))
  }

  // ---------------------------------------------------------------------------------------
  // One publishing tick

  /** The roll-up state: last seen minute-of-hour, the open minute, and the three stores. */
  datatype Rollup = Rollup(
    lastMinute: Option<int>,
    acc: Accumulator,
    minutes: seq<Record>,
    hours: seq<Record>,
    days: seq<Record>)

  /** The hour record built at minute 0 of hour `HourOf(t)` from the previous hour's minutes. */
  function HourRecord(minutes: seq<Record>, rec: Record, t: int, light: real, motion: bool): Record
  {
    var from := HourStart(t) - SecondsPerHour;
    Compact(t, light, motion, rec, rec, FindHalfOpen(minutes, from, from + SecondsPerHour, MinutesPerHour))
  }

  /** The day record built at midnight from the previous day's hour records. */
  function DayRecord(hours: seq<Record>, hourRec: Record, rec: Record, t: int, light: real, motion: bool): Record
  {
    var from := Midnight(t) - SecondsPerDay;
    Compact(t, light, motion, hourRec, rec, FindHalfOpen(hours, from, from + SecondsPerDay, HoursPerDay))
  }

  /** The hour store after a rollover at `t`: unchanged unless `t` is at minute 0. */
  function NextHours(hours: seq<Record>, minutes: seq<Record>, rec: Record, t: int, light: real, motion: bool): seq<Record>
  {
    if MinuteOf(t) != 0 then hours
    else Prune(hours + [HourRecord(minutes, rec, t, light, motion)], t - Retention * SecondsPerHour)
  }

  /** The day store after a rollover at `t`: unchanged unless `t` is at midnight. */
  function NextDays(days: seq<Record>, hours: seq<Record>, minutes: seq<Record>, rec: Record, t: int, light: real, motion: bool): seq<Record>
  {
    if MinuteOf(t) != 0 || HourOf(t) != 0 then days
    else
      var hourRec := HourRecord(minutes, rec, t, light, motion);
      Prune(days + [DayRecord(hours, hourRec, rec, t, light, motion)], t - Retention * SecondsPerDay)
  }

  /**
   * Minute rollover after the tick at `t` has been accumulated: store the minute record,
   * reset the accumulator, prune minutes; at minute 0 compact the previous hour and prune
   * hours; at hour 0 as well compact the previous day (from the updated hour store) and
   * prune days.
   */
  function Rollover(s: Rollup, t: int, light: real, motion: bool, integerMotionAverage: bool): Rollup
  {
    var rec := MinuteRecord(s.acc, t, light, motion, integerMotionAverage);
    var minutes := Prune(s.minutes + [rec], t - Retention * SecondsPerMinute);
    var hours := NextHours(s.hours, minutes, rec, t, light, motion);
    Rollup(Some(MinuteOf(t)), EmptyAccumulator(), minutes, hours,
           NextDays(s.days, hours, minutes, rec, t, light, motion))
  }

  /** Everything a tick that published `light` does after publishing. */
  function Advance(s: Rollup, t: int, light: real, motion: bool, integerMotionAverage: bool): Rollup
  {
    var s' := s.(acc := Accumulate(s.acc, light, motion, t));
    if s.lastMinute.None? then s'.(lastMinute := Some(MinuteOf(t)))
    else if s.lastMinute.value == MinuteOf(t) then s'
    else Rollover(s', t, light, motion, integerMotionAverage)
  }
  // ---------------------------------------------------------------------------------------
  // Properties

  /** `x` added `n` times: the product `x * n` built by addition, so that bounds stay linear. */
  function Scaled(x: real, n: nat): real
  {
    if n == 0 then 0.0 else Scaled(x, n - 1) + x
  }

  lemma {:induction false} ScaledIsProduct(x: real, n: nat)
    ensures Scaled(x, n) == x * n as real
  {
    if n > 0 {
      ScaledIsProduct(x, n - 1);
      assert x * n as real == x * (n - 1) as real + x;
    }
  }

  lemma {:induction false} PresentSumBounds(recs: seq<Record>, m: Measure, lo: real, hi: real)
    requires forall r :: r in recs && Get(r, m).Some? ==> lo <= Get(r, m).value <= hi
    ensures Scaled(lo, PresentCount(recs, m)) <= PresentSum(recs, m) <= Scaled(hi, PresentCount(recs, m))
  {
    if recs != [] {
      var init := recs[..|recs| - 1];
      assert forall r :: r in init ==> r in recs;
      assert recs[|recs| - 1] in recs;
      PresentSumBounds(init, m, lo, hi);
    }
  }

  /** A mean is absent exactly when no record has the value present. */
  lemma {:induction false} MeanAbsentIffAllAbsent(recs: seq<Record>, m: Measure)
    ensures MeanOfPresent(recs, m).None? <==> forall r :: r in recs ==> Get(r, m).None?
  {
    if recs != [] {
      var init := recs[..|recs| - 1];
      MeanAbsentIffAllAbsent(init, m);
      assert recs == init + [recs[|recs| - 1]];
    }
  }

  /** A mean of present values lies between any bounds of those values. */
  lemma MeanBetween(recs: seq<Record>, m: Measure, lo: real, hi: real)
    requires forall r :: r in recs && Get(r, m).Some? ==> lo <= Get(r, m).value <= hi
    ensures MeanOfPresent(recs, m).Some? ==> lo <= MeanOfPresent(recs, m).value <= hi
  {
    PresentSumBounds(recs, m, lo, hi);
    var n := PresentCount(recs, m);
    if n > 0 {
      MeanWithin(PresentSum(recs, m), n, lo, hi);
    }
  }

  lemma MeanWithin(sum: real, n: nat, lo: real, hi: real)
    requires n > 0 && Scaled(lo, n) <= sum <= Scaled(hi, n)
    ensures lo <= sum / n as real <= hi
  {
    ScaledIsProduct(lo, n);
    ScaledIsProduct(hi, n);
    DivideBounds(sum, n as real, lo, hi);
  }

  lemma DivideBounds(sum: real, n: real, lo: real, hi: real)
    requires n > 0.0 && lo * n <= sum <= hi * n
    ensures lo <= sum / n <= hi
  {
  }

  /**
   * The extreme fold: an absent seed stays absent; a present seed ends at a value no greater
   * than the seed and than every present value folded in, and equal to the seed or to one of
   * those values (then stamped with `at`).
   */
  lemma {:induction false} LowerFoldFacts(seed: Extreme, recs: seq<Record>, m: Measure, at: int)
    ensures seed.value.None? ==> LowerFold(seed, recs, m, at) == seed
    ensures seed.value.Some? ==>
      && LowerFold(seed, recs, m, at).value.Some?
      && LowerFold(seed, recs, m, at).value.value <= seed.value.value
      && forall r :: r in recs && Get(r, m).Some? ==> LowerFold(seed, recs, m, at).value.value <= Get(r, m).value
    ensures LowerFold(seed, recs, m, at) == seed
      || (LowerFold(seed, recs, m, at).at == at
          && exists r :: r in recs && LowerFold(seed, recs, m, at).value == Get(r, m))
  {
    if recs != [] {
      var init := recs[..|recs| - 1];
      LowerFoldFacts(seed, init, m, at);
      assert recs == init + [recs[|recs| - 1]];
    }
  }

  /**
   * Compaction's extremes: the minimum is the least of the seed's and of every finer record's
   * minimum and is one of them. The maximum, compared with `<` as written, is likewise never
   * more than the seed's maximum nor more than any finer record's maximum, and is one of
   * them. A replaced
   * extreme carries `at`'s timestamp.
   */
  lemma CompactExtremes(t: int, light: real, motion: bool, seed: Record, at: Record, recs: seq<Record>)
    requires seed.minLight.Some? && seed.maxLight.Some?
    ensures var c := Compact(t, light, motion, seed, at, recs);
      && c.minLight.Some? && c.maxLight.Some?
      && c.minLight.value <= seed.minLight.value
      && (forall r :: r in recs && r.minLight.Some? ==> c.minLight.value <= r.minLight.value)
      && (c.minLight == seed.minLight || exists r :: r in recs && c.minLight == r.minLight)
      && c.maxLight.value <= seed.maxLight.value
      && (forall r :: r in recs && r.maxLight.Some? ==> c.maxLight.value <= r.maxLight.value)
      && (c.maxLight == seed.maxLight || exists r :: r in recs && c.maxLight == r.maxLight)
      && (c.minLightAt == seed.minLightAt || c.minLightAt == at.minLightAt)
      && (c.maxLightAt == seed.maxLightAt || c.maxLightAt == at.maxLightAt)
  {
    LowerFoldFacts(Extreme(seed.minLight, seed.minLightAt), recs, MinLight, at.minLightAt);
    LowerFoldFacts(Extreme(seed.maxLight, seed.maxLightAt), recs, MaxLight, at.maxLightAt);
  }

  /** Compaction's averages are absent exactly when no finer record has one. */
  lemma CompactAverages(t: int, light: real, motion: bool, seed: Record, at: Record, recs: seq<Record>)
    ensures var c := Compact(t, light, motion, seed, at, recs);
      && (c.avgLight.None? <==> forall r :: r in recs ==> r.avgLight.None?)
      && (c.avgMotion.None? <==> forall r :: r in recs ==> r.avgMotion.None?)
  {
    MeanAbsentIffAllAbsent(recs, AvgLight);
    MeanAbsentIffAllAbsent(recs, AvgMotion);
  }

  /**
   * When the seed's timestamps are `at`'s, so are the compacted record's, whichever record
   * supplied the extreme: the loop stamps a replaced extreme with `at`'s timestamp.
   */
  lemma CompactStamps(t: int, light: real, motion: bool, seed: Record, at: Record, recs: seq<Record>)
    requires seed.minLightAt == at.minLightAt && seed.maxLightAt == at.maxLightAt
    ensures var c := Compact(t, light, motion, seed, at, recs);
      c.minLightAt == at.minLightAt && c.maxLightAt == at.maxLightAt
  {
    LowerFoldFacts(Extreme(seed.minLight, seed.minLightAt), recs, MinLight, at.minLightAt);
    LowerFoldFacts(Extreme(seed.maxLight, seed.maxLightAt), recs, MaxLight, at.maxLightAt);
  }

  /** A compacted average lies within any bounds of the finer averages it is made of. */
  lemma CompactAverageBounds(t: int, light: real, motion: bool, seed: Record, at: Record, recs: seq<Record>, lo: real, hi: real)
    requires forall r :: r in recs && r.avgLight.Some? ==> lo <= r.avgLight.value <= hi
    ensures var c := Compact(t, light, motion, seed, at, recs);
      c.avgLight.Some? ==> lo <= c.avgLight.value <= hi
  {
    MeanBetween(recs, AvgLight, lo, hi);
  }

  /** The compaction query returns at most `limit` records, all stored and inside `[from, to)`. */
  lemma FindHalfOpenFacts(s: seq<Record>, from: int, to: int, limit: nat)
    ensures var r := FindHalfOpen(s, from, to, limit);
      && |r| <= limit
      && (forall x :: x in r ==> x in s && from <= x.timestamp < to)
      && (|Filter(s, (x: Record) => from <= x.timestamp < to)| <= limit ==>
            forall x :: x in s && from <= x.timestamp < to ==> x in r)
  {
    var m := Filter(s, (x: Record) => from <= x.timestamp < to);
    FilterMembers(s, (x: Record) => from <= x.timestamp < to);
    var r := Take(m, limit);
    assert forall x :: x in r ==> x in m by {
      forall x | x in r ensures x in m {
        var i :| 0 <= i < |r| && r[i] == x;
        assert m[i] == x;
      }
    }
  }

  /** One sample of a minute: the published light, the motion pin, the tick's time. */
  datatype Sample = Sample(light: real, motion: bool, t: int)

  function AccumulateAll(a: Accumulator, samples: seq<Sample>): Accumulator
  {
    if samples == [] then a
    else
      var last := samples[|samples| - 1];
      Accumulate(AccumulateAll(a, samples[..|samples| - 1]), last.light, last.motion, last.t)
  }

  function MotionTicks(samples: seq<Sample>): nat
  {
    if samples == [] then 0
    else MotionTicks(samples[..|samples| - 1]) + (if samples[|samples| - 1].motion then 1 else 0)
  }

  lemma {:induction false} ScaledMonotone(x: real, y: real, n: nat)
    requires x <= y
    ensures Scaled(x, n) <= Scaled(y, n)
  {
    if n > 0 {
      ScaledMonotone(x, y, n - 1);
    }
  }

  /** Accumulating one tick keeps the accumulator's invariant. */
  lemma AccumulateKeepsValid(a: Accumulator, light: real, motion: bool, t: int)
    requires AccValid(a)
    ensures AccValid(Accumulate(a, light, motion, t))
  {
    var b := Accumulate(a, light, motion, t);
    if a.nrTerms > 0 {
      ScaledMonotone(b.minLight.value, a.minLight.value, a.nrTerms);
      ScaledMonotone(a.maxLight.value, b.maxLight.value, a.nrTerms);
    }
    assert Scaled(b.minLight.value, b.nrTerms) == Scaled(b.minLight.value, a.nrTerms) + b.minLight.value;
    assert Scaled(b.maxLight.value, b.nrTerms) == Scaled(b.maxLight.value, a.nrTerms) + b.maxLight.value;
  }

  /**
   * A minute's accumulator, from empty, counts the ticks and the ticks with motion and keeps
   * its invariant.
   */
  lemma {:induction false} MinuteCounts(samples: seq<Sample>)
    ensures var a := AccumulateAll(EmptyAccumulator(), samples);
      && AccValid(a)
      && a.nrTerms == |samples|
      && a.sumMotion == MotionTicks(samples)
  {
    if samples != [] {
      var init := samples[..|samples| - 1];
      var last := samples[|samples| - 1];
      MinuteCounts(init);
      AccumulateKeepsValid(AccumulateAll(EmptyAccumulator(), init), last.light, last.motion, last.t);
    }
  }

  /**
   * A minute's minimum and maximum bound every sample of the minute, and each is the light
   * of one of its samples, carrying that sample's time: the first sample with that light,
   * since a later equal value does not replace it.
   */
  lemma {:induction false} MinuteExtremes(samples: seq<Sample>)
    requires samples != []
    ensures var a := AccumulateAll(EmptyAccumulator(), samples);
      && a.minLight.Some? && a.maxLight.Some?
      && (forall i :: 0 <= i < |samples| ==> a.minLight.value <= samples[i].light <= a.maxLight.value)
      && (exists i :: 0 <= i < |samples| && a.minLight == Some(samples[i].light) && a.minLightAt == samples[i].t
            && forall j :: 0 <= j < i ==> samples[j].light > samples[i].light)
      && (exists i :: 0 <= i < |samples| && a.maxLight == Some(samples[i].light) && a.maxLightAt == samples[i].t
            && forall j :: 0 <= j < i ==> samples[j].light < samples[i].light)
  {
    var init := samples[..|samples| - 1];
    var last := samples[|samples| - 1];
    var n := |samples| - 1;
    if init == [] {
      assert AccumulateAll(EmptyAccumulator(), init) == EmptyAccumulator();
    } else {
      MinuteExtremes(init);
      var a0 := AccumulateAll(EmptyAccumulator(), init);
      var a := Accumulate(a0, last.light, last.motion, last.t);
      assert forall i :: 0 <= i < n ==> init[i] == samples[i];
      if last.light < a0.minLight.value {
        assert forall j :: 0 <= j < n ==> samples[j].light > samples[n].light;
      } else {
        var i :| 0 <= i < n && a0.minLight == Some(init[i].light) && a0.minLightAt == init[i].t
          && forall j :: 0 <= j < i ==> init[j].light > init[i].light;
        assert a.minLight == Some(samples[i].light) && a.minLightAt == samples[i].t;
        assert forall j :: 0 <= j < i ==> samples[j].light > samples[i].light;
      }
      if last.light > a0.maxLight.value {
        assert forall j :: 0 <= j < n ==> samples[j].light < samples[n].light;
      } else {
        var i :| 0 <= i < n && a0.maxLight == Some(init[i].light) && a0.maxLightAt == init[i].t
          && forall j :: 0 <= j < i ==> init[j].light < init[i].light;
        assert a.maxLight == Some(samples[i].light) && a.maxLightAt == samples[i].t;
        assert forall j :: 0 <= j < i ==> samples[j].light < samples[i].light;
      }
    }
  }

  /**
   * A minute record written after at least one tick: every field present, the average light
   * between the minimum and the maximum, and the motion average a percentage; with integer
   * division it is 1 when the pin was high on every tick and 0 otherwise.
   */
  lemma MinuteRecordWellFormed(a: Accumulator, t: int, light: real, motion: bool, integerMotionAverage: bool)
    requires AccValid(a) && a.nrTerms > 0
    ensures var r := MinuteRecord(a, t, light, motion, integerMotionAverage);
      && r.minLight.Some? && r.maxLight.Some? && r.avgLight.Some? && r.avgMotion.Some?
      && r.minLight.value <= r.avgLight.value <= r.maxLight.value
      && (!integerMotionAverage ==> 0.0 <= r.avgMotion.value <= 100.0)
      && (integerMotionAverage ==>
            (r.avgMotion.value == 1.0 <==> a.sumMotion == a.nrTerms)
            && (r.avgMotion.value == 0.0 <==> a.sumMotion < a.nrTerms))
  {
    MeanWithin(a.sumLight, a.nrTerms, a.minLight.value, a.maxLight.value);
    DivideBounds(a.sumMotion as real * 100.0, a.nrTerms as real, 0.0, 100.0);
    if a.sumMotion < a.nrTerms {
      assert a.sumMotion / a.nrTerms == 0;
    } else {
      assert a.sumMotion / a.nrTerms == 1;
    }
  }

  /** Ticks within the same minute only accumulate; the stores do not change. */
  lemma SameMinuteOnlyAccumulates(s: Rollup, t: int, light: real, motion: bool, integerMotionAverage: bool)
    requires s.lastMinute.None? || s.lastMinute == Some(MinuteOf(t))
    ensures var r := Advance(s, t, light, motion, integerMotionAverage);
      && r.acc == Accumulate(s.acc, light, motion, t)
      && r.minutes == s.minutes && r.hours == s.hours && r.days == s.days
      && r.lastMinute == Some(MinuteOf(t))
  {
  }

  /**
   * A change of minute stores a complete minute record that includes the tick itself,
   * restarts the accumulator, and leaves only minute records of the last 100 minutes.
   */
  lemma RolloverStoresMinute(s: Rollup, t: int, light: real, motion: bool, integerMotionAverage: bool)
    requires AccValid(s.acc)
    requires s.lastMinute.Some? && s.lastMinute.value != MinuteOf(t)
    ensures var r := Advance(s, t, light, motion, integerMotionAverage);
      var rec := MinuteRecord(Accumulate(s.acc, light, motion, t), t, light, motion, integerMotionAverage);
      && r.acc == EmptyAccumulator()
      && r.lastMinute == Some(MinuteOf(t))
      && rec in r.minutes
      && rec.avgLight.Some? && rec.avgMotion.Some?
      && rec.minLight.value <= light <= rec.maxLight.value
      && (forall x :: x in r.minutes ==> x.timestamp >= t - Retention * SecondsPerMinute)
      && (forall x :: x in r.minutes ==> x == rec || x in s.minutes)
  {
    var a := Accumulate(s.acc, light, motion, t);
    AccumulateKeepsValid(s.acc, light, motion, t);
    MinuteRecordWellFormed(a, t, light, motion, integerMotionAverage);
    PruneKeeps(s.minutes + [MinuteRecord(a, t, light, motion, integerMotionAverage)], t - Retention * SecondsPerMinute);
  }

  /** Hour records are written only at minute 0 of an hour, day records only at midnight. */
  lemma CoarseStoresChangeOnSchedule(s: Rollup, t: int, light: real, motion: bool, integerMotionAverage: bool)
    ensures var r := Advance(s, t, light, motion, integerMotionAverage);
      && (r.hours != s.hours ==> MinuteOf(t) == 0 && s.lastMinute.Some? && s.lastMinute.value != 0)
      && (r.days != s.days ==> MinuteOf(t) == 0 && HourOf(t) == 0 && s.lastMinute.Some? && s.lastMinute.value != 0)
  {
  }

  /**
   * At minute 0 the new hour record is stored: it closes at `t`, is made of the previous
   * hour's minute records only, has an average light exactly when one of those has, and every
   * hour record kept is of the last 100 hours.
   */
  lemma HourlyCompaction(s: Rollup, t: int, light: real, motion: bool, integerMotionAverage: bool)
    requires s.lastMinute.Some? && s.lastMinute.value != 0 && MinuteOf(t) == 0
    ensures var r := Advance(s, t, light, motion, integerMotionAverage);
      var rec := MinuteRecord(Accumulate(s.acc, light, motion, t), t, light, motion, integerMotionAverage);
      var from := HourStart(t) - SecondsPerHour;
      var used := FindHalfOpen(r.minutes, from, HourStart(t), MinutesPerHour);
      var h := HourRecord(r.minutes, rec, t, light, motion);
      && h in r.hours
      && h.timestamp == t
      && (h.avgLight.None? <==> forall x :: x in used ==> x.avgLight.None?)
      && (h.avgMotion.None? <==> forall x :: x in used ==> x.avgMotion.None?)
      && h.minLightAt == rec.minLightAt && h.maxLightAt == rec.maxLightAt
      && (forall x :: x in used ==> x in r.minutes && from <= x.timestamp < HourStart(t))
      && (forall x :: x in r.hours ==> x.timestamp >= t - Retention * SecondsPerHour)
  {
    var a := Accumulate(s.acc, light, motion, t);
    var rec := MinuteRecord(a, t, light, motion, integerMotionAverage);
    var r := Advance(s, t, light, motion, integerMotionAverage);
    assert r == Rollover(s.(acc := a), t, light, motion, integerMotionAverage);
    var minutes := Prune(s.minutes + [rec], t - Retention * SecondsPerMinute);
    assert r.minutes == minutes;
    var from := HourStart(t) - SecondsPerHour;
    var used := FindHalfOpen(minutes, from, HourStart(t), MinutesPerHour);
    var h := HourRecord(minutes, rec, t, light, motion);
    assert r.hours == Prune(s.hours + [h], t - Retention * SecondsPerHour);
    assert h in s.hours + [h];
    PruneKeeps(s.hours + [h], t - Retention * SecondsPerHour);
    FindHalfOpenFacts(minutes, from, HourStart(t), MinutesPerHour);
    CompactAverages(t, light, motion, rec, rec, used);
    CompactStamps(t, light, motion, rec, rec, used);
  }

  /**
   * At midnight the new day record is stored as well: it closes at `t`, is made of the
   * previous day's hour records only (from the hour store that already holds the new hour
   * record), has each average exactly when one of those has, carries the closing minute
   * record's extreme timestamps, and every day record kept is of the last 100 days.
   */
  lemma DailyCompaction(s: Rollup, t: int, light: real, motion: bool, integerMotionAverage: bool)
    requires s.lastMinute.Some? && s.lastMinute.value != 0 && MinuteOf(t) == 0 && HourOf(t) == 0
    ensures var r := Advance(s, t, light, motion, integerMotionAverage);
      var rec := MinuteRecord(Accumulate(s.acc, light, motion, t), t, light, motion, integerMotionAverage);
      var from := Midnight(t) - SecondsPerDay;
      var used := FindHalfOpen(r.hours, from, Midnight(t), HoursPerDay);
      var d := DayRecord(r.hours, HourRecord(r.minutes, rec, t, light, motion), rec, t, light, motion);
      && d in r.days
      && d.timestamp == t
      && (d.avgLight.None? <==> forall x :: x in used ==> x.avgLight.None?)
      && (d.avgMotion.None? <==> forall x :: x in used ==> x.avgMotion.None?)
      && d.minLightAt == rec.minLightAt && d.maxLightAt == rec.maxLightAt
      && (forall x :: x in used ==> x in r.hours && from <= x.timestamp < Midnight(t))
      && (forall x :: x in r.days ==> x.timestamp >= t - Retention * SecondsPerDay)
  {
    var a := Accumulate(s.acc, light, motion, t);
    var rec := MinuteRecord(a, t, light, motion, integerMotionAverage);
    var r := Advance(s, t, light, motion, integerMotionAverage);
    assert r == Rollover(s.(acc := a), t, light, motion, integerMotionAverage);
    var minutes := Prune(s.minutes + [rec], t - Retention * SecondsPerMinute);
    assert r.minutes == minutes;
    var h := HourRecord(minutes, rec, t, light, motion);
    var hours := Prune(s.hours + [h], t - Retention * SecondsPerHour);
    assert r.hours == hours;
    var from := Midnight(t) - SecondsPerDay;
    var used := FindHalfOpen(hours, from, Midnight(t), HoursPerDay);
    var d := DayRecord(hours, h, rec, t, light, motion);
    assert r.days == Prune(s.days + [d], t - Retention * SecondsPerDay);
    assert d in s.days + [d];
    PruneKeeps(s.days + [d], t - Retention * SecondsPerDay);
    FindHalfOpenFacts(hours, from, Midnight(t), HoursPerDay);
    CompactAverages(t, light, motion, h, rec, used);
    CompactStamps(t, light, motion, rec, rec, FindHalfOpen(minutes, HourStart(t) - SecondsPerHour, HourStart(t), MinutesPerHour));
    CompactStamps(t, light, motion, h, rec, used);
  }
}
