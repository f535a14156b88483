/**
 * The sampling engine shared by every sensor application (`SampleValues` in Sensor,
 * SensorHttp, SensorXmpp, SensorMqtt, SensorLwm2m and ConcentratorXmpp): the ten-slot window
 * in an array with its running sum and count, the minute accumulator, and the three record
 * stores. `Tick` is one timer tick; it is proved to do what `Window.Step`,
 * `Window.Published` and `History.Advance` say.
 */
module Engine {
  import opened Wrappers
  import Window
  import opened History

  /**
   * Sum and count of the present slots in `0 .. SpikePos-1`: the loop that recomputes the
   * published mean.
   */
  method PrefixTotals(w: array<Option<int>>) returns (n: int, total: int)
    requires w.Length == Window.Size
    ensures n == Window.Count(w[..Window.SpikePos])
    ensures total == Window.Sum(w[..Window.SpikePos])
  {
    n, total := 0, 0;
    var i := 0;
    while i < Window.SpikePos
      invariant 0 <= i <= Window.SpikePos
      invariant n == Window.Count(w[..i]) && total == Window.Sum(w[..i])
    {
      assert w[..i + 1][..i] == w[..i];
      if w[i].Some? {
        n := n + 1;
        total := total + w[i].value;
      }
      i := i + 1;
    }
  }

  /**
   * The `NrLt`/`NrGt` loop: how many present slots lie strictly below and strictly above the
   * mean `sum / n`, compared as the source does, in floating point.
   */
  method CountOutliers(w: array<Option<int>>, sum: int, n: int) returns (lt: int, gt: int)
    requires n > 0
    ensures lt == Window.CountSide(w[..], sum, n, -1)
    ensures gt == Window.CountSide(w[..], sum, n, 1)
  {
    var avg := (sum as real) / (n as real);
    lt, gt := 0, 0;
    var i := 0;
    while i < w.Length
      invariant 0 <= i <= w.Length
      invariant lt == Window.CountSide(w[..i], sum, n, -1)
      invariant gt == Window.CountSide(w[..i], sum, n, 1)
    {
      assert w[..i + 1][..i] == w[..i];
      var v := w[i];
      if v.Some? {
        Window.CrossMultiplication(v.value, sum, n);
        if (v.value as real) < avg {
          lt := lt + 1;
        } else if (v.value as real) > avg {
          gt := gt + 1;
        }
      }
      i := i + 1;
    }
    assert w[..i] == w[..];
  }

  /**
   * The hour step of a rollover: at minute 0, compact the previous hour's minute records
   * into an hour record, store it and prune the hour store.
   */
  method CloseHour(hours: seq<Record>, minutes: seq<Record>, rec: Record, now: int, light: real, motion: bool)
    returns (newHours: seq<Record>)
    ensures newHours == NextHours(hours, minutes, rec, now, light, motion)
  {
    newHours := hours;
    if MinuteOf(now) == 0 {
      var from := HourStart(now) - SecondsPerHour;
      var hourRec := CompactRecords(now, light, motion, rec, rec,
        FindHalfOpen(minutes, from, from + SecondsPerHour, MinutesPerHour));
      newHours := Prune(hours + [hourRec], now - Retention * SecondsPerHour);
    }
  }

  /**
   * The day step of a rollover: at midnight, compact the previous day's hour records into a
   * day record, store it and prune the day store.
   */
  method CloseDay(days: seq<Record>, hours: seq<Record>, minutes: seq<Record>, rec: Record, now: int, light: real, motion: bool)
    returns (newDays: seq<Record>)
    ensures newDays == NextDays(days, hours, minutes, rec, now, light, motion)
  {
    newDays := days;
    if MinuteOf(now) == 0 && HourOf(now) == 0 {
      var from := HourStart(now) - SecondsPerHour;
      var hourRec := CompactRecords(now, light, motion, rec, rec,
        FindHalfOpen(minutes, from, from + SecondsPerHour, MinutesPerHour));
      var dayFrom := Midnight(now) - SecondsPerDay;
      var dayRec := CompactRecords(now, light, motion, hourRec, rec,
        FindHalfOpen(hours, dayFrom, dayFrom + SecondsPerDay, HoursPerDay));
      newDays := Prune(days + [dayRec], now - Retention * SecondsPerDay);
    }
  }

  class Sampler {
    /** SensorMqtt averages motion with integer division; the others as a percentage. */
    const integerMotionAverage: bool
    /** `windowA0`. */
    const window: array<Option<int>>
    var sumA0: int
    var nrA0: int

    var lastMinute: Option<int>
    var minLight: Option<real>
    var maxLight: Option<real>
    var sumLight: real
    var sumMotion: int
    var nrTerms: int
    var minLightAt: int
    var maxLightAt: int

    /** The `LastMinute`, `LastHour` and `LastDay` collections of the object database. */
    var minutes: seq<Record>
    var hours: seq<Record>
    var days: seq<Record>

    /** The minute accumulator held in the fields. */
    function Acc(): Accumulator
      reads this
    {
      Accumulator(sumLight, sumMotion, nrTerms, minLight, minLightAt, maxLight, maxLightAt)
    }

    /** The roll-up state held in the fields. */
    function State(): Rollup
      reads this
    {
      Rollup(lastMinute, Acc(), minutes, hours, days)
    }

    /** The running fields agree with the window, and the accumulator is consistent. */
    ghost predicate Valid()
      reads this, window
    {
      && window.Length == Window.Size
      && sumA0 == Window.Sum(window[..])
      && nrA0 == Window.Count(window[..])
      && AccValid(Acc())
    }

    /**
     * The running count `nrA0` stays within the 10 slots, and it is 0 exactly when every slot
     * of the window is empty.
     */
    lemma CountInRange()
      requires Valid()
      ensures 0 <= nrA0 <= Window.Size
      ensures nrA0 == 0 <==> forall i :: 0 <= i < Window.Size ==> window[i].None?
    {
      if nrA0 == 0 {
        forall i | 0 <= i < Window.Size
          ensures window[i].None?
        {
          if window[i].Some? {
            Window.CountSomePresent(window[..], i);
          }
        }
      } else if forall i :: 0 <= i < Window.Size ==> window[i].None? {
        Window.CountAllNone(window[..]);
      }
    }

    constructor (integerMotionAverage: bool)
      ensures Valid()
      ensures this.integerMotionAverage == integerMotionAverage
      ensures fresh(window)
      ensures window[..] == Window.Empty()
      ensures State() == Rollup(None, EmptyAccumulator(), [], [], [])
    {
      this.integerMotionAverage := integerMotionAverage;
      window := new Option<int>[Window.Size](_ => None);
      sumA0, nrA0 := 0, 0;
      lastMinute := None;
      minLight, maxLight := None, None;
      sumLight, sumMotion, nrTerms := 0.0, 0, 0;
      minLightAt, maxLightAt := MinTime, MinTime;
      minutes, hours, days := [], [], [];
      new;
      assert window[..] == Window.Empty();
      Window.CountAllNone(window[..]);
      assert Window.Sum(window[..]) == 0 by {
        Window.SumBounds(window[..], 0);
      }
    }

    /** Evict slot 0 (subtracting it when present), shift, and append the new reading. */
    method Push(a0: int)
      requires Valid()
      modifies this, window
      ensures Valid()
      ensures window[..] == Window.Shifted(old(window[..]), a0)
      ensures State() == old(State())
    {
      if window[0].Some? {
        sumA0 := sumA0 - window[0].value;
        nrA0 := nrA0 - 1;
      }
      // Array.Copy(windowA0, 1, windowA0, 0, windowSize - 1)
      forall i | 0 <= i < Window.Size - 1 {
        window[i] := window[i + 1];
      }
      window[Window.Size - 1] := Some(a0);
      sumA0 := sumA0 + a0;
      nrA0 := nrA0 + 1;
      assert window[..] == Window.Shifted(old(window[..]), a0);
      Window.PushAccounting(old(window[..]), a0);
    }

    /** The spike filter: clear slot `SpikePos` when it holds the window's unique outlier. */
    method FilterSpike()
      requires Valid() && nrA0 > 0
      modifies this, window
      ensures Valid()
      ensures window[..] == Window.RemoveSpike(old(window[..]))
      ensures State() == old(State())
    {
      var avg := (sumA0 as real) / (nrA0 as real);
      if nrA0 >= Window.Size - 2 {
        var lt, gt := CountOutliers(window, sumA0, nrA0);
        if lt == 1 || gt == 1 {
          var v := window[Window.SpikePos];
          if v.Some? {
            Window.CrossMultiplication(v.value, sumA0, nrA0);
            if (lt == 1 && (v.value as real) < avg) || (gt == 1 && (v.value as real) > avg) {
              Window.RemovalAccounting(window[..], Window.SpikePos);
              sumA0 := sumA0 - v.value;
              nrA0 := nrA0 - 1;
              window[Window.SpikePos] := None;
              assert window[..] == old(window[..])[Window.SpikePos := None];
            }
          }
        }
      }
    }

    /** Store the closed minute and, on schedule, the closed hour and day; prune each store. */
    method Roll(now: int, light: real, motion: bool)
      modifies this
      ensures State() == History.Rollover(old(State()), now, light, motion, integerMotionAverage)
      ensures unchanged(`sumA0) && unchanged(`nrA0)
    {
      var rec := MinuteRecord(Acc(), now, light, motion, integerMotionAverage);
      var newMinutes := Prune(minutes + [rec], now - Retention * SecondsPerMinute);
      var newHours := CloseHour(hours, newMinutes, rec, now, light, motion);
      var newDays := CloseDay(days, newHours, newMinutes, rec, now, light, motion);
      lastMinute := Some(MinuteOf(now));
      minutes, hours, days := newMinutes, newHours, newDays;
      minLight, minLightAt := None, MinTime;
      maxLight, maxLightAt := None, MinTime;
      sumLight, sumMotion, nrTerms := 0.0, 0, 0;
    }

    /** Add a published light level to the open minute. */
    method AddToMinute(value: real, motion: bool, now: int)
      requires AccValid(Acc())
      modifies this
      ensures AccValid(Acc())
      ensures State() == old(State()).(acc := Accumulate(old(Acc()), value, motion, now))
      ensures unchanged(`sumA0) && unchanged(`nrA0)
    {
      AccumulateKeepsValid(Acc(), value, motion, now);
      sumLight := sumLight + value;
      sumMotion := sumMotion + (if motion then 1 else 0);
      nrTerms := nrTerms + 1;
      if minLight.None? || value < minLight.value {
        minLight, minLightAt := Some(value), now;
      }
      if maxLight.None? || value > maxLight.value {
        maxLight, maxLightAt := Some(value), now;
      }
    }

    /** Everything after the light level `value` has been published. */
    method Record(value: real, motion: bool, now: int)
      requires AccValid(Acc())
      modifies this
      ensures AccValid(Acc())
      ensures State() == Advance(old(State()), now, value, motion, integerMotionAverage)
      ensures unchanged(`sumA0) && unchanged(`nrA0)
    {
      AddToMinute(value, motion, now);
      if lastMinute.None? {
        lastMinute := Some(MinuteOf(now));
      } else if lastMinute.value != MinuteOf(now) {
        Roll(now, value, motion);
      }
    }

    /**
     * One timer tick with analog reading `a0`, motion pin `motion`, at time `now`. The window
     * moves by `Window.Step`; the published light is `Window.Published` of the new window;
     * when something is published the roll-up advances by `History.Advance`, and otherwise
     * it is left as it was.
     */
    method Tick(a0: int, motion: bool, now: int) returns (light: Option<real>)
      requires Valid()
      modifies this, window
      ensures Valid()
      ensures window[..] == Window.Step(old(window[..]), a0)
      ensures light == Window.Published(window[..])
      ensures light.None? ==> State() == old(State())
      ensures light.Some? ==> State() == Advance(old(State()), now, light.value, motion, integerMotionAverage)
    {
      Push(a0);
      FilterSpike();
      ghost var stepped := window[..];
      assert stepped == Window.Step(old(window[..]), a0);
      var n, total := PrefixTotals(window);
      if n == 0 {
        light := None;
      } else {
        var value := 100.0 * ((total as real) / (n as real)) / 1024.0;
        light := Some(value);
        Record(value, motion, now);
      }
      assert window[..] == stepped;
    }
  }
}
