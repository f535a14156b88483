/**
 * The SensorLwm2m application: the sampling engine, the last light level and motion state,
 * the IPSO object instances that mirror them, and the CoAP answers of `/Light`, `/Motion` and
 * `/Momentary`. The timestamp text and the number format are parameters.
 */
module SensorLwm2mApp {
  import opened Wrappers
  import opened History
  import Window
  import Engine
  import Ipso
  import Payload

  /** Content formats a `/Momentary` request may accept. */
  datatype ContentFormat = XmlFormat | JsonFormat | PlainTextFormat

  /**
   * The content negotiation of `/Momentary`: XML, then JSON, then plain text, whichever the
   * request accepts first; with no acceptable format, plain text when the request names no
   * format at all, and None (Not Acceptable) when it names one.
   */
  function MomentaryFormat(acceptable: set<ContentFormat>, hasAccept: bool): (f: Option<ContentFormat>)
    ensures f.None? <==> hasAccept && acceptable !! {XmlFormat, JsonFormat, PlainTextFormat}
    ensures f.Some? && f.value != PlainTextFormat ==> f.value in acceptable
    ensures XmlFormat in acceptable ==> f == Some(XmlFormat)
    ensures f == Some(JsonFormat) ==> XmlFormat !in acceptable
  {
    if XmlFormat in acceptable then Some(XmlFormat)
    else if JsonFormat in acceptable then Some(JsonFormat)
    else if PlainTextFormat in acceptable then Some(PlainTextFormat)
    else if hasAccept then None
    else Some(PlainTextFormat)
  }

  function PayloadFormat(f: ContentFormat): Payload.Format
  {
    match f
    case XmlFormat => Payload.Xml
    case JsonFormat => Payload.Json(Payload.Lwm2mKeys)
    case PlainTextFormat => Payload.PlainText
  }

  class App {
    const engine: Engine.Sampler
    var lastLight: Option<real>
    var lastMotion: Option<bool>

    /** The motion detector as Digital Input 0 and as Generic Sensor 0 (1 or 0). */
    const digitalInput0: Ipso.DigitalInputInstance
    const genericSensor0: Ipso.MeasuredInstance
    /** The light level as Analog Input 0, Generic Sensor 1, Illuminance 0 and Percentage 0. */
    const analogInput0: Ipso.MeasuredInstance
    const genericSensor1: Ipso.MeasuredInstance
    const illuminanceSensor0: Ipso.MeasuredInstance
    const percentageSensor0: Ipso.MeasuredInstance

    /** The five measured instances are distinct objects. */
    ghost predicate Distinct()
      reads this
    {
      && genericSensor0 != analogInput0 && genericSensor0 != genericSensor1
      && genericSensor0 != illuminanceSensor0 && genericSensor0 != percentageSensor0
      && analogInput0 != genericSensor1 && analogInput0 != illuminanceSensor0 && analogInput0 != percentageSensor0
      && genericSensor1 != illuminanceSensor0 && genericSensor1 != percentageSensor0
      && illuminanceSensor0 != percentageSensor0
    }

    ghost predicate Valid()
      reads this, engine, engine.window, digitalInput0, genericSensor0
      reads analogInput0, genericSensor1, illuminanceSensor0, percentageSensor0
    {
      && engine.Valid() && !engine.integerMotionAverage
      && Distinct()
      && digitalInput0.Valid() && genericSensor0.Valid()
      && analogInput0.Valid() && genericSensor1.Valid() && illuminanceSensor0.Valid() && percentageSensor0.Valid()
    }

    /** Every light instance holds `light`. */
    ghost predicate LightInstancesHold(light: real)
      reads this, analogInput0, genericSensor1, illuminanceSensor0, percentageSensor0
    {
      && analogInput0.current == Some(light) && genericSensor1.current == Some(light)
      && illuminanceSensor0.current == Some(light) && percentageSensor0.current == Some(light)
    }

    constructor ()
      ensures Valid() && fresh(engine) && fresh(engine.window)
      ensures fresh(digitalInput0) && fresh(genericSensor0)
      ensures fresh(analogInput0) && fresh(genericSensor1) && fresh(illuminanceSensor0) && fresh(percentageSensor0)
      ensures lastLight.None? && lastMotion.None?
      ensures engine.State() == Rollup(None, EmptyAccumulator(), [], [], [])
    {
      engine := new Engine.Sampler(false);
      lastLight, lastMotion := None, None;
      digitalInput0 := new Ipso.DigitalInputInstance(None);
      analogInput0 := new Ipso.MeasuredInstance(3202, None);
      genericSensor0 := new Ipso.MeasuredInstance(3300, None);
      genericSensor1 := new Ipso.MeasuredInstance(3300, None);
      illuminanceSensor0 := new Ipso.MeasuredInstance(3301, None);
      percentageSensor0 := new Ipso.MeasuredInstance(3320, None);
    }

    /** Set every light instance to `light`. */
    method SetLightInstances(light: real)
      requires Valid()
      modifies analogInput0, genericSensor1, illuminanceSensor0, percentageSensor0
      ensures Valid()
      ensures LightInstancesHold(light)
    {
      analogInput0.Set(light);
      genericSensor1.Set(light);
      illuminanceSensor0.Set(light);
      percentageSensor0.Set(light);
    }

    /**
     * `SampleValues`: one timer tick. A published level becomes `lastLight` and the current
     * value of every light instance.
     */
    method Tick(a0: int, motion: bool, now: int) returns (light: Option<real>)
      requires Valid()
      modifies this, engine, engine.window, analogInput0, genericSensor1, illuminanceSensor0, percentageSensor0
      ensures Valid()
      ensures engine.window[..] == Window.Step(old(engine.window[..]), a0)
      ensures light == Window.Published(engine.window[..])
      ensures lastLight == (if light.Some? then light else old(lastLight))
      ensures lastMotion == old(lastMotion)
      ensures light.Some? ==> LightInstancesHold(light.value)
      ensures light.None? ==> engine.State() == old(engine.State())
      ensures light.Some? ==> engine.State() == Advance(old(engine.State()), now, light.value, motion, false)
    {
      light := engine.Tick(a0, motion, now);
      if light.Some? {
        lastLight := light;
        SetLightInstances(light.value);
      }
    }

    /**
     * A change on digital pin `pin`; pin 0 is the PIR sensor: the state becomes `lastMotion`,
     * the digital input and generic sensor 0 (as 1 or 0).
     */
    method DigitalPinUpdated(pin: int, high: bool)
      requires Valid()
      modifies this, digitalInput0, genericSensor0
      ensures Valid()
      ensures lastMotion == (if pin == 0 then Some(high) else old(lastMotion))
      ensures lastLight == old(lastLight)
      ensures pin == 0 ==> digitalInput0.state == Some(high) && genericSensor0.current == Some(if high then 1.0 else 0.0)
      ensures pin == 0 ==>
        digitalInput0.counter == old(digitalInput0.counter) + (if high && old(digitalInput0.state) != Some(true) then 1 else 0)
    {
      if pin == 0 {
        lastMotion := Some(high);
        digitalInput0.Set(high);
        genericSensor0.Set(if high then 1.0 else 0.0);
      }
    }

    /** The `/Light` resource: the level with two decimals and " %", or "-" when unknown. */
    function LightResource(fmt: real -> string): (s: string)
      reads this
      ensures s == "-" <==> lastLight.None?
      ensures lastLight.Some? ==> s == fmt(lastLight.value) + " %"
    {
      if lastLight.Some? then fmt(lastLight.value) + " %" else "-"
    }

    /** The `/Motion` resource. */
    function MotionResource(): (s: string)
      reads this
      ensures s == "-" <==> lastMotion.None?
      ensures s == "true" <==> lastMotion == Some(true)
      ensures s == "false" <==> lastMotion == Some(false)
    {
      if lastMotion.Some? then Payload.BoolText(lastMotion.value) else "-"
    }

    /**
     * The `/Momentary` resource in the negotiated format (None: Not Acceptable). The light
     * part is present exactly when a level is known, the motion part exactly when a state is.
     */
    function Momentary(acceptable: set<ContentFormat>, hasAccept: bool, ts: string, fmt: real -> string)
      : (answer: Option<string>)
      reads this
      ensures answer.None? <==> MomentaryFormat(acceptable, hasAccept).None?
      ensures answer.Some? ==>
        Payload.Header(PayloadFormat(MomentaryFormat(acceptable, hasAccept).value), ts) <= answer.value
    {
      var f := MomentaryFormat(acceptable, hasAccept);
      if f.None? then None
      else Some(Payload.Render(PayloadFormat(f.value), ts, Payload.MomentaryItems(lastLight, lastMotion), fmt))
    }
  }
}
