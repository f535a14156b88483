/**
 * The SensorHttp application: the sampling engine plus the state the web pages read, the last
 * light level and the last movement state, the `Light` and `Movement` status texts and the
 * ordered reads of the three record stores.
 */
module SensorHttpApp {
  import opened Wrappers
  import opened History
  import Window
  import Engine

  class App {
    const engine: Engine.Sampler
    var lastLight: Option<real>
    var lastMovement: Option<bool>

    ghost predicate Valid()
      reads this, engine, engine.window
    {
      engine.Valid() && !engine.integerMotionAverage
    }

    constructor ()
      ensures Valid() && fresh(engine) && fresh(engine.window)
      ensures lastLight.None? && lastMovement.None?
      ensures engine.State() == Rollup(None, EmptyAccumulator(), [], [], [])
    {
      engine := new Engine.Sampler(false);
      lastLight, lastMovement := None, None;
    }

    /**
     * `SampleValues`: one timer tick with A0 reading `a0` and pin D0 `movement`. `lastLight`
     * changes only on a tick that publishes, to the published level.
     */
    method Tick(a0: int, movement: bool, now: int) returns (light: Option<real>)
      requires Valid()
      modifies this, engine, engine.window
      ensures Valid()
      ensures engine.window[..] == Window.Step(old(engine.window[..]), a0)
      ensures light == Window.Published(engine.window[..])
      ensures lastLight == (if light.Some? then light else old(lastLight))
      ensures lastMovement == old(lastMovement)
      ensures light.None? ==> engine.State() == old(engine.State())
      ensures light.Some? ==> engine.State() == Advance(old(engine.State()), now, light.value, movement, false)
    {
      light := engine.Tick(a0, movement, now);
      if light.Some? {
        lastLight := light;
      }
    }

    /** A change on digital pin `pin`; pin 0 is the PIR sensor. */
    method DigitalPinUpdated(pin: int, high: bool)
      modifies this
      ensures lastMovement == (if pin == 0 then Some(high) else old(lastMovement))
      ensures lastLight == old(lastLight)
    {
      if pin == 0 {
        lastMovement := Some(high);
      }
    }

    /** The `Light` status text: the level with two decimals (by `fmt`) and "%", or empty. */
    function LightText(fmt: real -> string): (s: string)
      reads this
      ensures s == "" <==> lastLight.None?
      ensures lastLight.Some? ==> s[|s| - 1] == '%' && s[..|s| - 1] == fmt(lastLight.value)
    {
      if lastLight.Some? then fmt(lastLight.value) + "%" else ""
    }

    /** The `Movement` status text. */
    function MovementText(): (s: string)
      reads this
      ensures s == "" <==> lastMovement.None?
      ensures s == "Detected" <==> lastMovement == Some(true)
      ensures s == "Not detected" <==> lastMovement == Some(false)
    {
      if lastMovement.Some? then (if lastMovement.value then "Detected" else "Not detected") else ""
    }

    /** `GetLastMinutesAsync`. */
    method LastMinutes() returns (r: seq<Record>)
      ensures SortedByTime(r) && multiset(r) == multiset(engine.minutes)
    {
      r := CollectSorted(engine.minutes);
    }

    /** `GetLastHoursAsync`. */
    method LastHours() returns (r: seq<Record>)
      ensures SortedByTime(r) && multiset(r) == multiset(engine.hours)
    {
      r := CollectSorted(engine.hours);
    }

    /** `GetLastDaysAsync`. */
    method LastDays() returns (r: seq<Record>)
      ensures SortedByTime(r) && multiset(r) == multiset(engine.days)
    {
      r := CollectSorted(engine.days);
    }
  }

  /**
   * The loop of the `GetLast*Async` methods: every record found, ordered by `Timestamp`,
   * added to a list. The result holds all the stored records, and only them, in order of time.
   */
  method CollectSorted(store: seq<Record>) returns (r: seq<Record>)
    ensures r == SortByTime(store)
    ensures SortedByTime(r) && multiset(r) == multiset(store)
  {
    var found := SortByTime(store);
    r := [];
    var i := 0;
    while i < |found|
      invariant 0 <= i <= |found|
      invariant r == found[..i]
    {
      r := r + [found[i]];
      i := i + 1;
    }
    assert found[..i] == found;
    SortByTimeFacts(store);
  }
}
