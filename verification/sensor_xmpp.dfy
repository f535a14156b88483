/**
 * The SensorXmpp application: the sampling engine, the last light level and motion state,
 * the momentary events of the sensor server, and the sensor-data readout over the record
 * stores. A light event goes out on every publishing tick and a motion event on every update
 * of pin 0; `PublishMomentaryValues` returns at once, so it neither sends anything nor moves
 * `lastPublish`.
 */
module SensorXmppApp {
  import opened Wrappers
  import opened History
  import Window
  import Engine
  import Readout

  /** Seconds between attempts to publish momentary values. */
  const PublishInterval: int := 5

  class App {
    const engine: Engine.Sampler
    const deviceId: string
    var lastLight: Option<real>
    var lastMotion: Option<bool>
    /** When momentary values were last published. */
    var lastPublish: int
    /** The fields given to the sensor server's `NewMomentaryValues`, in order. */
    var momentaryEvents: seq<Readout.Field>

    ghost predicate Valid()
      reads this, engine, engine.window
    {
      engine.Valid() && !engine.integerMotionAverage
    }

    constructor (deviceId: string)
      ensures Valid() && fresh(engine) && fresh(engine.window)
      ensures this.deviceId == deviceId
      ensures lastLight.None? && lastMotion.None? && lastPublish == MinTime && momentaryEvents == []
      ensures engine.State() == Rollup(None, EmptyAccumulator(), [], [], [])
    {
      engine := new Engine.Sampler(false);
      this.deviceId := deviceId;
      lastLight, lastMotion, lastPublish := None, None, MinTime;
      momentaryEvents := [];
    }

    /**
     * `PublishMomentaryValues` returns before doing anything: it publishes nothing and, having
     * no `modifies` clause, changes no state.
     */
    method PublishMomentaryValues() returns (published: bool)
      ensures !published
    {
      published := false;
    }

    /**
     * `SampleValues`: one timer tick. A publishing tick records the light level, sends it as a
     * momentary light event and, when five seconds have passed since `lastPublish`, asks for a
     * publication, which leaves `lastPublish` as it was.
     */
    method Tick(a0: int, motion: bool, now: int) returns (light: Option<real>)
      requires Valid()
      modifies this, engine, engine.window
      ensures Valid()
      ensures engine.window[..] == Window.Step(old(engine.window[..]), a0)
      ensures light == Window.Published(engine.window[..])
      ensures lastLight == (if light.Some? then light else old(lastLight))
      ensures lastMotion == old(lastMotion) && lastPublish == old(lastPublish)
      ensures momentaryEvents == old(momentaryEvents) + (if light.Some? then [Readout.LightField(now, light.value)] else [])
      ensures light.None? ==> engine.State() == old(engine.State())
      ensures light.Some? ==> engine.State() == Advance(old(engine.State()), now, light.value, motion, false)
    {
      light := engine.Tick(a0, motion, now);
      if light.Some? {
        lastLight := light;
        momentaryEvents := momentaryEvents + [Readout.LightField(now, light.value)];
        if now - lastPublish >= PublishInterval {
          var _ := PublishMomentaryValues();
        }
      }
    }

    /**
     * A change on digital pin `pin`; pin 0 is the PIR sensor. Every update of pin 0, changed
     * or not, becomes the motion state and goes out as a momentary motion event stamped with
     * `lastPublish`.
     */
    method DigitalPinUpdated(pin: int, high: bool)
      modifies this
      ensures lastMotion == (if pin == 0 then Some(high) else old(lastMotion))
      ensures lastLight == old(lastLight) && lastPublish == old(lastPublish)
      ensures momentaryEvents == old(momentaryEvents) + (if pin == 0 then [Readout.MotionField(lastPublish, high)] else [])
    {
      if pin == 0 {
        lastMotion := Some(high);
        var _ := PublishMomentaryValues();
        momentaryEvents := momentaryEvents + [Readout.MotionField(lastPublish, high)];
      }
    }

    /**
     * The readout handler: the momentary fields of the last light level and motion state,
     * then, when historical values are requested, the records of each store with timestamps
     * in `[req.from, req.to]`, in batches.
     */
    method ExecuteReadout(req: Readout.Request, now: int) returns (reports: seq<Readout.Report>)
      ensures |reports| >= 1 && reports[|reports| - 1].done
      ensures forall i :: 0 <= i < |reports| - 1 ==> !reports[i].done
      ensures !req.historical ==>
        reports == [Readout.Report(true, Readout.MomentaryFields(req, now, deviceId, lastLight, lastMotion))]
      ensures req.historical ==>
        && |reports| >= 2
        && reports[0] == Readout.Report(false, Readout.MomentaryFields(req, now, deviceId, lastLight, lastMotion))
        && Readout.Flatten(reports[1..])
             == Readout.HistoricalFields(req, Readout.SensorXmpp, engine.minutes, engine.hours, engine.days)
        && forall i :: 1 <= i < |reports| - 1 ==> Readout.BatchLimit < |reports[i].fields| <= Readout.BatchLimit + 4
    {
      reports := Readout.ReadoutFields(Readout.SensorXmpp, req, now, deviceId, lastLight, lastMotion,
        engine.minutes, engine.hours, engine.days);
    }
  }
}
