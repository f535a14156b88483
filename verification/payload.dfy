/**
 * The momentary payloads built with a `StringBuilder` from the last light level and the last
 * motion state: SensorMqtt's JSON document and SensorLwm2m's XML, JSON and plain-text
 * answers. Each payload is a header with the timestamp, an optional light part, an optional
 * motion part and a closer. Which optional parts appear is decided once, by
 * `MomentaryItems`; the renderers only spell them out. The timestamp text and the decimal
 * formatting of the light level (`ToString(Light, 2)`) are parameters.
 */
module Payload {
  import opened Wrappers

  datatype Item = LightItem(value: real) | MotionItem(detected: bool)

  /** The optional parts: light (when known) before motion (when known). */
  function MomentaryItems(light: Option<real>, motion: Option<bool>): (items: seq<Item>)
    ensures |items| == (if light.Some? then 1 else 0) + (if motion.Some? then 1 else 0)
    ensures forall v :: LightItem(v) in items <==> light == Some(v)
    ensures forall b :: MotionItem(b) in items <==> motion == Some(b)
    ensures light.Some? ==> items[0] == LightItem(light.value)
  {
    (if light.Some? then [LightItem(light.value)] else [])
    + (if motion.Some? then [MotionItem(motion.value)] else [])
  }

  /** A payload has a light part exactly when a light level is known. */
  lemma LightPartIffKnown(light: Option<real>, motion: Option<bool>)
    ensures (exists i :: i in MomentaryItems(light, motion) && i.LightItem?) <==> light.Some?
  {
    if light.Some? {
      assert LightItem(light.value) in MomentaryItems(light, motion);
    }
  }

  /** A payload has a motion part exactly when the motion state is known. */
  lemma MotionPartIffKnown(light: Option<real>, motion: Option<bool>)
    ensures (exists i :: i in MomentaryItems(light, motion) && i.MotionItem?) <==> motion.Some?
  {
    if motion.Some? {
      assert MotionItem(motion.value) in MomentaryItems(light, motion);
    }
  }

  function BoolText(b: bool): string
  {
    if b then "true" else "false"
  }

  /** The member names of a JSON payload: SensorMqtt writes them out, SensorLwm2m abbreviates. */
  datatype JsonKeys = JsonKeys(light: string, value: string, unit: string, motion: string)

  const MqttKeys := JsonKeys("light", "value", "unit", "movement")
  const Lwm2mKeys := JsonKeys("l", "v", "u", "md")

  function Quoted(s: string): string
  {
    "\"" + s + "\""
  }

  function JsonItemText(keys: JsonKeys, item: Item, fmt: real -> string): string
  {
    match item
    case LightItem(v) =>
      "," + Quoted(keys.light) + ":{" + Quoted(keys.value) + ":" + fmt(v) + "," + Quoted(keys.unit) + ":\"%\"}"
    case MotionItem(b) => "," + Quoted(keys.motion) + ":" + BoolText(b)
  }

  function XmlItemText(item: Item, fmt: real -> string): string
  {
    match item
    case LightItem(v) => "<l u='%'>" + fmt(v) + "</l>"
    case MotionItem(b) => "<md>" + BoolText(b) + "</md>"
  }

  /** `AppendLine` ends a line with the platform's newline, carriage return and line feed on Windows. */
  const NewLine: string := "\r\n"

  function PlainItemText(item: Item, fmt: real -> string): string
  {
    match item
    case LightItem(v) => "Light: " + fmt(v) + " %" + NewLine
    case MotionItem(b) => "Motion detected: " + BoolText(b) + NewLine
  }

  datatype Format = Json(keys: JsonKeys) | Xml | PlainText

  function ItemText(format: Format, item: Item, fmt: real -> string): string
  {
    match format
    case Json(keys) => JsonItemText(keys, item, fmt)
    case Xml => XmlItemText(item, fmt)
    case PlainText => PlainItemText(item, fmt)
  }

  function Header(format: Format, ts: string): string
  {
    match format
    case Json(_) => "{" + Quoted("ts") + ":" + Quoted(ts)
    case Xml => "<m ts='" + ts + "'>"
    case PlainText => "Timestamp: " + ts + NewLine
  }

  function Closer(format: Format): string
  {
    match format
    case Json(_) => "}"
    case Xml => "</m>"
    case PlainText => ""
  }

  function ItemsText(format: Format, items: seq<Item>, fmt: real -> string): string
  {
    if items == [] then "" else ItemsText(format, items[..|items| - 1], fmt) + ItemText(format, items[|items| - 1], fmt)
  }

  /** The payload: header, the items in order, closer. */
  function Render(format: Format, ts: string, items: seq<Item>, fmt: real -> string): (s: string)
    ensures Header(format, ts) <= s
    ensures |s| >= |Header(format, ts)| + |Closer(format)|
    ensures s[|s| - |Closer(format)|..] == Closer(format)
  {
    Header(format, ts) + ItemsText(format, items, fmt) + Closer(format)
  }

  /**
   * Each item is rendered in place: the payload of `items + [i]` is the payload of `items`
   * with the text of `i` inserted before the closer.
   */
  lemma RenderAppend(format: Format, ts: string, items: seq<Item>, i: Item, fmt: real -> string)
    ensures var s := Render(format, ts, items, fmt);
      Render(format, ts, items + [i], fmt)
        == s[..|s| - |Closer(format)|] + ItemText(format, i, fmt) + Closer(format)
  {
    var h, a, b, c := Header(format, ts), ItemsText(format, items, fmt), ItemText(format, i, fmt), Closer(format);
    assert (items + [i])[..|items|] == items;
    assert ItemsText(format, items + [i], fmt) == a + b;
    Spliced(h, a, b, c);
  }

  lemma Spliced<T>(h: seq<T>, a: seq<T>, b: seq<T>, c: seq<T>)
    ensures var s := h + a + c;
      h + (a + b) + c == s[..|s| - |c|] + b + c
  {
    var s := h + a + c;
    assert s[..|s| - |c|] == h + a;
  }

  /** Nothing known: the payload is the timestamp alone. */
  lemma RenderEmpty(format: Format, ts: string, fmt: real -> string)
    ensures Render(format, ts, MomentaryItems(None, None), fmt) == Header(format, ts) + Closer(format)
  {
  }
}
