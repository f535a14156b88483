/**
 * The SensorMqtt application: the sampling engine (with its integer motion average), and the
 * publication of the light level and the movement state to the broker, each throttled, each
 * followed by the JSON document of both. What is handed to the broker is kept in `outbox`; the
 * connection state and the clock are parameters.
 */
module SensorMqttApp {
  import opened Wrappers
  import opened History
  import Window
  import Engine
  import Payload

  /** Seconds after which a value is published again even when unchanged. */
  const RepublishInterval: int := 15

  /** A message handed to the broker, on the topics `.../Light`, `.../Movement` and `.../JSON`. */
  datatype Publication =
    | LightMessage(level: real)
    | MovementMessage(on: bool)
    | JsonMessage(light: Option<real>, movement: Option<bool>)

  function Abs(x: real): real
  {
    if x < 0.0 then -x else x
  }

  /** The throttle of `PublishLight`: nothing published yet, a change of at least 1, or 15 s. */
  predicate LightDue(lastPublished: Option<real>, lastTime: int, light: real, now: int)
  {
    lastPublished.None? || Abs(lastPublished.value - light) >= 1.0 || now - lastTime >= RepublishInterval
  }

  /** The throttle of `PublishMovement`: nothing published yet, a different state, or 15 s. */
  predicate MovementDue(lastPublished: Option<bool>, lastTime: int, on: bool, now: int)
  {
    lastPublished.None? || lastPublished.value != on || now - lastTime >= RepublishInterval
  }

  /**
   * Between two light publications less than 15 s apart the level moved by at least 1; a
   * level within 1 of the last one published is not republished for 15 s.
   */
  lemma LightThrottle(lastPublished: Option<real>, lastTime: int, light: real, now: int)
    ensures lastPublished.None? ==> LightDue(lastPublished, lastTime, light, now)
    ensures now - lastTime >= RepublishInterval ==> LightDue(lastPublished, lastTime, light, now)
    ensures lastPublished.Some? && now - lastTime < RepublishInterval ==>
      (LightDue(lastPublished, lastTime, light, now) <==>
        (light <= lastPublished.value - 1.0 || light >= lastPublished.value + 1.0))
  {
  }

  /** The same movement state is not republished for 15 s; a change always is. */
  lemma MovementThrottle(lastPublished: Option<bool>, lastTime: int, on: bool, now: int)
    ensures lastPublished != Some(on) ==> MovementDue(lastPublished, lastTime, on, now)
    ensures lastPublished == Some(on) ==>
      (MovementDue(lastPublished, lastTime, on, now) <==> now - lastTime >= RepublishInterval)
  {
  }

  /** The text of a JSON message, with the timestamp `ts` and the number format `fmt`. */
  function JsonText(m: Publication, ts: string, fmt: real -> string): (s: string)
    requires m.JsonMessage?
    ensures Payload.Header(Payload.Json(Payload.MqttKeys), ts) <= s && s[|s| - 1] == '}'
  {
    Payload.Render(Payload.Json(Payload.MqttKeys), ts, Payload.MomentaryItems(m.light, m.movement), fmt)
  }

  class App {
    const engine: Engine.Sampler
    var lastLight: Option<real>
    var lastMovement: Option<bool>
    var lastPublishedLight: Option<real>
    var lastPublishedMovement: Option<bool>
    var lastLightPublishTime: int
    var lastMovementPublishTime: int
    var outbox: seq<Publication>

    ghost predicate Valid()
      reads this, engine, engine.window
    {
      engine.Valid() && engine.integerMotionAverage
    }

    constructor ()
      ensures Valid() && fresh(engine) && fresh(engine.window)
      ensures lastLight.None? && lastMovement.None?
      ensures lastPublishedLight.None? && lastPublishedMovement.None?
      ensures lastLightPublishTime == MinTime && lastMovementPublishTime == MinTime
      ensures outbox == []
      ensures engine.State() == Rollup(None, EmptyAccumulator(), [], [], [])
    {
      engine := new Engine.Sampler(true);
      lastLight, lastMovement := None, None;
      lastPublishedLight, lastPublishedMovement := None, None;
      lastLightPublishTime, lastMovementPublishTime := MinTime, MinTime;
      outbox := [];
    }

    /** `PublishLastJson`: the document of whatever is known now. */
    method PublishLastJson()
      modifies this`outbox
      ensures outbox == old(outbox) + [JsonMessage(lastLight, lastMovement)]
    {
      outbox := outbox + [JsonMessage(lastLight, lastMovement)];
    }

    /**
     * `PublishLight`: the level always becomes `lastLight`; it is published, and remembered as
     * published, only when connected and due.
     */
    method PublishLight(light: real, now: int, connected: bool) returns (published: bool)
      modifies this
      ensures published <==> connected && LightDue(old(lastPublishedLight), old(lastLightPublishTime), light, now)
      ensures lastLight == Some(light)
      ensures published ==>
        && lastPublishedLight == Some(light) && lastLightPublishTime == now
        && outbox == old(outbox) + [LightMessage(light), JsonMessage(Some(light), lastMovement)]
      ensures !published ==>
        lastPublishedLight == old(lastPublishedLight) && lastLightPublishTime == old(lastLightPublishTime)
        && outbox == old(outbox)
      ensures lastMovement == old(lastMovement) && lastPublishedMovement == old(lastPublishedMovement)
      ensures lastMovementPublishTime == old(lastMovementPublishTime)
    {
      lastLight := Some(light);
      published := connected && LightDue(lastPublishedLight, lastLightPublishTime, light, now);
      if published {
        lastPublishedLight := Some(light);
        lastLightPublishTime := now;
        outbox := outbox + [LightMessage(light)];
        PublishLastJson();
      }
    }

    /**
     * `PublishMovement`: the state always becomes `lastMovement`; it is published only when
     * connected and due.
     */
    method PublishMovement(on: bool, now: int, connected: bool) returns (published: bool)
      modifies this
      ensures published <==> connected && MovementDue(old(lastPublishedMovement), old(lastMovementPublishTime), on, now)
      ensures lastMovement == Some(on)
      ensures published ==>
        && lastPublishedMovement == Some(on) && lastMovementPublishTime == now
        && outbox == old(outbox) + [MovementMessage(on), JsonMessage(lastLight, Some(on))]
      ensures !published ==>
        lastPublishedMovement == old(lastPublishedMovement) && lastMovementPublishTime == old(lastMovementPublishTime)
        && outbox == old(outbox)
      ensures lastLight == old(lastLight) && lastPublishedLight == old(lastPublishedLight)
      ensures lastLightPublishTime == old(lastLightPublishTime)
    {
      lastMovement := Some(on);
      published := connected && MovementDue(lastPublishedMovement, lastMovementPublishTime, on, now);
      if published {
        lastPublishedMovement := Some(on);
        lastMovementPublishTime := now;
        outbox := outbox + [MovementMessage(on)];
        PublishLastJson();
      }
    }

    /** `SampleValues`: one timer tick; a published level goes through `PublishLight`. */
    method Tick(a0: int, movement: bool, now: int, connected: bool) returns (light: Option<real>)
      requires Valid()
      modifies this, engine, engine.window
      ensures Valid()
      ensures engine.window[..] == Window.Step(old(engine.window[..]), a0)
      ensures light == Window.Published(engine.window[..])
      ensures lastLight == (if light.Some? then light else old(lastLight))
      ensures var due := light.Some? && connected
          && LightDue(old(lastPublishedLight), old(lastLightPublishTime), light.value, now);
        && (due ==>
              && lastPublishedLight == light && lastLightPublishTime == now
              && outbox == old(outbox) + [LightMessage(light.value), JsonMessage(light, lastMovement)])
        && (!due ==>
              && lastPublishedLight == old(lastPublishedLight) && lastLightPublishTime == old(lastLightPublishTime)
              && outbox == old(outbox))
      ensures lastMovement == old(lastMovement) && lastPublishedMovement == old(lastPublishedMovement)
      ensures lastMovementPublishTime == old(lastMovementPublishTime)
      ensures light.None? ==> engine.State() == old(engine.State())
      ensures light.Some? ==> engine.State() == Advance(old(engine.State()), now, light.value, movement, true)
    {
      light := engine.Tick(a0, movement, now);
      if light.Some? {
        var _ := PublishLight(light.value, now, connected);
      }
    }

    /** A change on digital pin `pin`; pin 0 is the PIR sensor. */
    method DigitalPinUpdated(pin: int, high: bool, now: int, connected: bool)
      modifies this
      ensures lastMovement == (if pin == 0 then Some(high) else old(lastMovement))
      ensures var due := pin == 0 && connected
          && MovementDue(old(lastPublishedMovement), old(lastMovementPublishTime), high, now);
        && (due ==>
              && lastPublishedMovement == Some(high) && lastMovementPublishTime == now
              && outbox == old(outbox) + [MovementMessage(high), JsonMessage(lastLight, Some(high))])
        && (!due ==>
              && lastPublishedMovement == old(lastPublishedMovement)
              && lastMovementPublishTime == old(lastMovementPublishTime)
              && outbox == old(outbox))
      ensures lastLight == old(lastLight) && lastPublishedLight == old(lastPublishedLight)
      ensures lastLightPublishTime == old(lastLightPublishTime)
    {
      if pin == 0 {
        var _ := PublishMovement(high, now, connected);
      }
    }
  }
}
