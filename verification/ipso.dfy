/**
 * The IPSO Smart Object instances the LWM2M sensor and actuator expose (OMA LwM2M registry
 * objects 3300 Generic Sensor with its subclasses 3301 Illuminance and 3320 Percentage,
 * 3202 Analog Input, 3200 Digital Input, 3201 Digital Output and 3306 Actuation). Each
 * resource value is an optional field; the notifications the source triggers after a change
 * are not modelled.
 */
module Ipso {
  import opened Wrappers

  // ---------------------------------------------------------------------------------------
  // Measured values with minimum and maximum (3300, 3301, 3320, 3202)
  // ---------------------------------------------------------------------------------------

  predicate IsLeast(x: real, s: seq<real>)
  {
    x in s && forall y :: y in s ==> x <= y
  }

  predicate IsGreatest(x: real, s: seq<real>)
  {
    x in s && forall y :: y in s ==> y <= x
  }

  /**
   * `GenericSensorInstance` and `AnalogInputInstance`: the two classes keep their sensor
   * value, minimum and maximum measured value by the same rules, so one class models both;
   * `objectId` tells them apart.
   */
  class MeasuredInstance {
    const objectId: int
    /** Sensor Value (5700) or Analog Input Current Value (5600). */
    var current: Option<real>
    /** Min Measured Value (5601). */
    var min: Option<real>
    /** Max Measured Value (5602). */
    var max: Option<real>
    /** The values measured since construction or the last reset of the minimum and maximum. */
    ghost var seen: seq<real>

    /** The minimum and maximum are the least and greatest value seen, and the current one is among them. */
    ghost predicate Valid()
      reads this
    {
      && (current.None? ==> seen == [])
      && (current.Some? ==> current.value in seen)
      && (min.Some? <==> seen != []) && (min.Some? ==> IsLeast(min.value, seen))
      && (max.Some? <==> seen != []) && (max.Some? ==> IsGreatest(max.value, seen))
    }

    /** Minimum and maximum start out as the initial value. */
    constructor (objectId: int, currentValue: Option<real>)
      ensures Valid()
      ensures this.objectId == objectId
      ensures current == currentValue && min == currentValue && max == currentValue
    {
      this.objectId := objectId;
      current, min, max := currentValue, currentValue, currentValue;
      seen := if currentValue.Some? then [currentValue.value] else [];
    }

    /** Whenever a value is known, it lies between the minimum and the maximum. */
    lemma CurrentWithinMinMax()
      requires Valid()
      ensures current.Some? ==> min.Some? && max.Some? && min.value <= current.value <= max.value
    {
    }

    /**
     * `Set`: a value equal to the current one changes nothing; any other becomes the current
     * value, and lowers the minimum or raises the maximum when it lies beyond them.
     */
    method Set(value: real)
      requires Valid()
      modifies this
      ensures Valid()
      ensures old(current) == Some(value) ==> current == old(current) && min == old(min) && max == old(max)
      ensures old(current) != Some(value) ==>
        && current == Some(value)
        && seen == old(seen) + [value]
        && min == (if old(min).None? || value < old(min).value then Some(value) else old(min))
        && max == (if old(max).None? || value > old(max).value then Some(value) else old(max))
    {
      if current.None? || current.value != value {
        current := Some(value);
        seen := seen + [value];
        if min.None? || value < min.value {
          min := Some(value);
        }
        if max.None? || value > max.value {
          max := Some(value);
        }
      }
    }

    /** Reset Min and Max Measured Values (5605): both become the current value. */
    method ResetMinMax()
      requires Valid()
      modifies this
      ensures Valid()
      ensures min == current && max == current && current == old(current)
    {
      min := current;
      max := current;
      seen := if current.Some? then [current.value] else [];
    }
  }

  // ---------------------------------------------------------------------------------------
  // Digital input with a counter of rising edges (3200)
  // ---------------------------------------------------------------------------------------

  /** The state after the inputs `xs`, starting from `start`. */
  function StateAfter(start: Option<bool>, xs: seq<bool>): Option<bool>
  {
    if xs == [] then start else Some(xs[|xs| - 1])
  }

  /** How many of the inputs `xs` turned the state to true from anything else. */
  function Rises(start: Option<bool>, xs: seq<bool>): nat
  {
    if xs == [] then 0
    else
      var before := xs[..|xs| - 1];
      Rises(start, before) + (if xs[|xs| - 1] && StateAfter(start, before) != Some(true) then 1 else 0)
  }

  /** Setting the same value again never counts as a rise. */
  lemma {:induction false} RepeatedInputNoRise(start: Option<bool>, xs: seq<bool>, v: bool)
    requires StateAfter(start, xs) == Some(v)
    ensures Rises(start, xs + [v]) == Rises(start, xs)
  {
    assert (xs + [v])[..|xs + [v]| - 1] == xs;
  }

  /** Each rise needs a false or unknown state before it: at most one rise per two inputs, rounded up. */
  lemma {:induction false} RisesBound(start: Option<bool>, xs: seq<bool>)
    ensures 2 * Rises(start, xs) <= |xs| + (if StateAfter(start, xs) == Some(true) then 1 else 0)
    decreases |xs|
  {
    if xs != [] {
      var before := xs[..|xs| - 1];
      RisesBound(start, before);
    }
  }

  class DigitalInputInstance {
    /** Digital Input State (5500). */
    var state: Option<bool>
    /** Digital Input Counter (5501). */
    var counter: int
    /** The state when the counter was last reset (or at construction). */
    ghost var stateAtReset: Option<bool>
    /** Every value passed to `Set` since then. */
    ghost var inputs: seq<bool>

    /** The counter is the number of transitions to true since the last reset. */
    ghost predicate Valid()
      reads this
    {
      state == StateAfter(stateAtReset, inputs) && counter == Rises(stateAtReset, inputs)
    }

    constructor (currentState: Option<bool>)
      ensures Valid()
      ensures state == currentState && counter == 0
    {
      state, counter := currentState, 0;
      stateAtReset, inputs := currentState, [];
    }

    /** `Set`: a change of state to true increments the counter by one. */
    method Set(value: bool)
      requires Valid()
      modifies this
      ensures Valid()
      ensures inputs == old(inputs) + [value] && stateAtReset == old(stateAtReset)
      ensures state == Some(value)
      ensures counter == old(counter) + (if value && old(state) != Some(true) then 1 else 0)
    {
      assert (inputs + [value])[..|inputs|] == inputs;
      if state.None? || state.value != value {
        state := Some(value);
        if value {
          counter := counter + 1;
        }
      }
      inputs := inputs + [value];
    }

    /** Digital Input Counter Reset (5505): the counter restarts at zero; the state is kept. */
    method CounterReset()
      requires Valid()
      modifies this
      ensures Valid()
      ensures counter == 0 && state == old(state)
    {
      counter := 0;
      stateAtReset, inputs := state, [];
    }
  }

  // ---------------------------------------------------------------------------------------
  // Digital output (3201)
  // ---------------------------------------------------------------------------------------

  class DigitalOutputInstance {
    /** Digital Output State (5550). */
    var state: Option<bool>

    constructor (currentState: Option<bool>)
      ensures state == currentState
    {
      state := currentState;
    }

    /** `Value`: true only when the state is known to be on. */
    function Value(): (on: bool)
      reads this
      ensures on ==> state == Some(true)
      ensures state.None? ==> !on
    {
      state.Some? && state.value
    }

    /** `Set`: afterwards the state is `value`; setting the present state changes nothing. */
    method Set(value: bool)
      modifies this
      ensures state == Some(value)
      ensures Value() == value
      ensures old(state) == Some(value) ==> state == old(state)
    {
      if state.None? || state.value != value {
        state := Some(value);
      }
    }
  }

  // ---------------------------------------------------------------------------------------
  // Actuation with on-time (3306)
  // ---------------------------------------------------------------------------------------

  /** `DateTime` counts time in ticks of 100 ns. */
  const TicksPerSecond: int := 10_000_000

  /** The conversion `(long)x`: truncation toward zero. */
  function TruncateToLong(x: real): (n: int)
    ensures x >= 0.0 ==> n as real <= x < n as real + 1.0
    ensures x < 0.0 ==> n as real - 1.0 < x <= n as real
  {
    if x >= 0.0 then x.Floor else -((-x).Floor)
  }

  /** Whole seconds elapsed since `lastSet` while on, rounded by adding 0.5 and truncating. */
  function OnTimeAt(onOff: Option<bool>, lastSet: int, now: int): int
  {
    if onOff.Some? && onOff.value then
      TruncateToLong(((now - lastSet) as real) / (TicksPerSecond as real) + 0.5)
    else 0
  }

  /** Off or unknown reads as zero; on, the elapsed seconds are rounded half up. */
  lemma OnTimeRounding(onOff: Option<bool>, lastSet: int, now: int)
    ensures onOff != Some(true) ==> OnTimeAt(onOff, lastSet, now) == 0
    ensures onOff == Some(true) && now >= lastSet ==>
      var elapsed := ((now - lastSet) as real) / (TicksPerSecond as real);
      elapsed - 0.5 < OnTimeAt(onOff, lastSet, now) as real <= elapsed + 0.5
  {
  }

  /** Writing on-time `t >= 0` and reading it at the same instant gives `t` back. */
  lemma OnTimeRoundTrip(t: int, now: int)
    requires t >= 0
    ensures OnTimeAt(Some(true), now - t * TicksPerSecond, now) == t
  {
    var elapsed := ((now - (now - t * TicksPerSecond)) as real) / (TicksPerSecond as real);
    assert elapsed == t as real;
  }

  class ActuationInstance {
    /** On/Off (5850). */
    var onOff: Option<bool>
    /** On Time (5852), in seconds. */
    var onTime: Option<int>
    /** When the output was last switched, in ticks. */
    var lastSet: int

    /** The clock reading `now` stands for `DateTime.Now` at construction. */
    constructor (currentState: Option<bool>, now: int)
      ensures onOff == currentState && onTime == Some(0) && lastSet == now
    {
      onOff, onTime, lastSet := currentState, Some(0), now;
    }

    function Value(): (on: bool)
      reads this
      ensures on ==> onOff == Some(true)
      ensures onOff.None? ==> !on
    {
      onOff.Some? && onOff.value
    }

    /** `Set`: a change of state records the time of the change. */
    method Set(value: bool, now: int)
      modifies this
      ensures onOff == Some(value) && Value() == value && onTime == old(onTime)
      ensures lastSet == (if old(onOff) == Some(value) then old(lastSet) else now)
    {
      if onOff.None? || onOff.value != value {
        lastSet := now;
        onOff := Some(value);
      }
    }

    /** Reading On Time: the resource is refreshed from the clock first. */
    method ReadOnTime(now: int) returns (seconds: int)
      modifies this
      ensures seconds == OnTimeAt(onOff, lastSet, now)
      ensures onTime == Some(seconds) && onOff == old(onOff) && lastSet == old(lastSet)
    {
      if onOff.Some? && onOff.value {
        onTime := Some(TruncateToLong(((now - lastSet) as real) / (TicksPerSecond as real) + 0.5));
      } else {
        onTime := Some(0);
      }
      seconds := onTime.value;
    }

    /** Writing On Time moves the switching time back by that many seconds (or to now, if empty). */
    method WriteOnTime(value: Option<int>, now: int)
      modifies this
      ensures onTime == value && onOff == old(onOff)
      ensures lastSet == (if value.Some? then now - value.value * TicksPerSecond else now)
    {
      onTime := value;
      if value.Some? {
        lastSet := now - value.value * TicksPerSecond;
      } else {
        lastSet := now;
      }
    }
  }
}
