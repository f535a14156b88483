/**
 * The ConcentratorXmpp application: the sampling engine, the last light level and motion
 * state, the momentary events of the sensor node, change detection on the motion pin, and the
 * readout of its sensor node. A light event goes out on every publishing tick and a motion
 * event on every change of the motion state; the 5 s / 60 s throttle only decides when
 * `PublishMomentaryValues` runs, and that records the publication time and level without
 * sending anything. The connection state and the clock are parameters.
 */
module ConcentratorXmppApp {
  import opened Wrappers
  import opened History
  import Window
  import Engine
  import Readout

  /** Seconds after which a change of at least 1 is published. */
  const ChangeInterval: int := 5
  /** Seconds after which the values are published even when unchanged. */
  const RepublishInterval: int := 60

  function Abs(x: real): real
  {
    if x < 0.0 then -x else x
  }

  /** The tick's test for running `PublishMomentaryValues`. */
  predicate PublishDue(lastPublishedLight: Option<real>, lastPublished: int, light: real, now: int)
  {
    var seconds := now - lastPublished;
    || lastPublishedLight.None?
    || (seconds >= ChangeInterval && Abs(lastPublishedLight.value - light) >= 1.0)
    || seconds >= RepublishInterval
  }

  /**
   * `PublishMomentaryValues` does not run again within 5 s of its last run; between 5 and 60 s
   * only for a change of at least 1; after 60 s always.
   */
  lemma PublishThrottle(lastPublishedLight: Option<real>, lastPublished: int, light: real, now: int)
    ensures lastPublishedLight.None? ==> PublishDue(lastPublishedLight, lastPublished, light, now)
    ensures lastPublishedLight.Some? && now - lastPublished < ChangeInterval ==>
      !PublishDue(lastPublishedLight, lastPublished, light, now)
    ensures lastPublishedLight.Some? && ChangeInterval <= now - lastPublished < RepublishInterval ==>
      (PublishDue(lastPublishedLight, lastPublished, light, now) <==>
        (light <= lastPublishedLight.value - 1.0 || light >= lastPublishedLight.value + 1.0))
    ensures now - lastPublished >= RepublishInterval ==> PublishDue(lastPublishedLight, lastPublished, light, now)
  {
  }

  class App {
    const engine: Engine.Sampler
    const deviceId: string
    var lastLight: Option<real>
    var lastMotion: Option<bool>
    var lastPublished: int
    var lastPublishedLight: Option<real>
    /** The fields given to the concentrator's `NewMomentaryValues`, in order. */
    var momentaryEvents: seq<Readout.Field>

    ghost predicate Valid()
      reads this, engine, engine.window
    {
      engine.Valid() && !engine.integerMotionAverage
    }

    constructor (deviceId: string)
      ensures Valid() && fresh(engine) && fresh(engine.window)
      ensures this.deviceId == deviceId
      ensures lastLight.None? && lastMotion.None?
      ensures lastPublished == MinTime && lastPublishedLight.None? && momentaryEvents == []
      ensures engine.State() == Rollup(None, EmptyAccumulator(), [], [], [])
    {
      engine := new Engine.Sampler(false);
      this.deviceId := deviceId;
      lastLight, lastMotion := None, None;
      lastPublished, lastPublishedLight := MinTime, None;
      momentaryEvents := [];
    }

    /**
     * `PublishMomentaryValues`: when connected with both values known, the publication time
     * and the published level are recorded; otherwise nothing changes. It sends nothing: the
     * presence update that would carry the values is not made.
     */
    method PublishMomentaryValues(now: int, connected: bool) returns (published: bool)
      modifies this`lastPublished, this`lastPublishedLight
      ensures published <==> connected && lastLight.Some? && lastMotion.Some?
      ensures published ==> lastPublished == now && lastPublishedLight == lastLight
      ensures !published ==> lastPublished == old(lastPublished) && lastPublishedLight == old(lastPublishedLight)
    {
      published := connected && lastLight.Some? && lastMotion.Some?;
      if published {
        lastPublished := now;
        lastPublishedLight := Some(lastLight.value);
      }
    }

    /**
     * `SampleValues`: one timer tick. A published level becomes the last light level and goes
     * out at once as a momentary light event; when due, `PublishMomentaryValues` then runs.
     */
    method Tick(a0: int, motion: bool, now: int, connected: bool) returns (light: Option<real>, published: bool)
      requires Valid()
      modifies this, engine, engine.window
      ensures Valid()
      ensures engine.window[..] == Window.Step(old(engine.window[..]), a0)
      ensures light == Window.Published(engine.window[..])
      ensures lastLight == (if light.Some? then light else old(lastLight))
      ensures lastMotion == old(lastMotion)
      ensures published <==>
        light.Some? && PublishDue(old(lastPublishedLight), old(lastPublished), light.value, now)
        && connected && lastMotion.Some?
      ensures published ==> lastPublished == now && lastPublishedLight == light
      ensures !published ==> lastPublished == old(lastPublished) && lastPublishedLight == old(lastPublishedLight)
      ensures momentaryEvents == old(momentaryEvents) + (if light.Some? then [Readout.LightField(now, light.value)] else [])
      ensures light.None? ==> engine.State() == old(engine.State())
      ensures light.Some? ==> engine.State() == Advance(old(engine.State()), now, light.value, motion, false)
    {
      light := engine.Tick(a0, motion, now);
      published := false;
      if light.Some? {
        lastLight := light;
        momentaryEvents := momentaryEvents + [Readout.LightField(now, light.value)];
        if PublishDue(lastPublishedLight, lastPublished, light.value, now) {
          published := PublishMomentaryValues(now, connected);
        }
      }
    }

    /**
     * A change on digital pin `pin`; pin 0 is the PIR sensor. Only a motion state different
     * from the last one (or the first one) is recorded; it runs `PublishMomentaryValues` and
     * then goes out as a momentary motion event stamped with `lastPublished` as that left it.
     */
    method DigitalPinUpdated(pin: int, high: bool, now: int, connected: bool) returns (changed: bool, published: bool)
      modifies this
      ensures changed <==> pin == 0 && old(lastMotion) != Some(high)
      ensures lastMotion == (if changed then Some(high) else old(lastMotion))
      ensures lastLight == old(lastLight)
      ensures published <==> changed && connected && lastLight.Some?
      ensures published ==> lastPublished == now && lastPublishedLight == lastLight
      ensures !published ==> lastPublished == old(lastPublished) && lastPublishedLight == old(lastPublishedLight)
      ensures momentaryEvents == old(momentaryEvents) + (if changed then [Readout.MotionField(lastPublished, high)] else [])
    {
      changed, published := false, false;
      if pin == 0 {
        if lastMotion.None? || lastMotion.value != high {
          changed := true;
          lastMotion := Some(high);
          published := PublishMomentaryValues(now, connected);
          momentaryEvents := momentaryEvents + [Readout.MotionField(lastPublished, high)];
        }
      }
    }
  }

  /**
   * `SensorNode.StartReadout`: the node reads the application's last values and record
   * stores; a record's historical fields carry unit "%" for motion, leftover minute fields are
   * reported before any hour field, and the last report is the done one.
   */
  method StartReadout(app: App, req: Readout.Request, now: int) returns (reports: seq<Readout.Report>)
    ensures |reports| >= 1 && reports[|reports| - 1].done
    ensures forall i :: 0 <= i < |reports| - 1 ==> !reports[i].done
    ensures !req.historical ==>
      reports == [Readout.Report(true, Readout.MomentaryFields(req, now, app.deviceId, app.lastLight, app.lastMotion))]
    ensures req.historical ==>
      && |reports| >= 2
      && reports[0] == Readout.Report(false, Readout.MomentaryFields(req, now, app.deviceId, app.lastLight, app.lastMotion))
      && Readout.Flatten(reports[1..])
           == Readout.HistoricalFields(req, Readout.ConcentratorNode, app.engine.minutes, app.engine.hours, app.engine.days)
      && (forall i :: 1 <= i < |reports| ==> |reports[i].fields| <= Readout.BatchLimit + 4)
      && exists k :: 1 <= k < |reports| &&
           Readout.Flatten(reports[1..k])
             == Readout.AllFields(Query(app.engine.minutes, req.from, req.to), Readout.Minute, Readout.Percent)
  {
    reports := Readout.ReadoutFields(Readout.ConcentratorNode, req, now, app.deviceId, app.lastLight, app.lastMotion,
      app.engine.minutes, app.engine.hours, app.engine.days);
  }
}
