/**
 * The ControllerXmpp application: the thing references it keeps in roster groups
 * (`Prefix`, `Prefix.nid:…`, `Prefix.sid:…`, `Prefix.prt:…`), the output rule it applies to
 * the sensor's fields, and the once-a-minute limit on its search for friends. The roster,
 * the presence of the actuator and the clock are parameters.
 */
module ControllerXmppApp {
  import opened Wrappers

  // ---------------------------------------------------------------------------------------
  // Thing references in roster groups
  // ---------------------------------------------------------------------------------------

  /** `ThingReference(NodeId, SourceId, Partition)`; an empty string is an absent part. */
  datatype ThingReference = ThingReference(nodeId: string, sourceId: string, partition: string)

  const EmptyReference := ThingReference("", "", "")

  /** `s.IndexOf(c)`: the first position of `c` in `s`, or -1. */
  function IndexOf(s: string, c: char): (i: int)
    ensures -1 <= i < |s|
    ensures i >= 0 ==> s[i] == c && c !in s[..i]
    ensures i < 0 <==> c !in s
  {
    if s == [] then -1
    else if s[0] == c then 0
    else
      var j := IndexOf(s[1..], c);
      assert s[1..][..if j < 0 then 0 else j] == s[1..1 + if j < 0 then 0 else j];
      if j < 0 then -1 else j + 1
  }

  /** `ToLower` on the letters A to Z. */
  function LowerChar(c: char): char
  {
    if 'A' <= c <= 'Z' then (c as int - 'A' as int + 'a' as int) as char else c
  }

  function Lower(s: string): (r: string)
    ensures |r| == |s|
    ensures forall i :: 0 <= i < |s| ==> r[i] == LowerChar(s[i])
  {
    if s == [] then [] else [LowerChar(s[0])] + Lower(s[1..])
  }

  /** The effect of one roster group on the reference being read: the loop body of `GetReference`. */
  function Apply(r: ThingReference, prefix: string, group: string): ThingReference
  {
    var p := prefix + ".";
    if !(p <= group) then r
    else
      var s := group[|p|..];
      var i := IndexOf(s, ':');
      if i < 0 then r
      else
        var key := Lower(s[..i]);
        var value := s[i + 1..];
        if key == "nid" then r.(nodeId := value)
        else if key == "sid" then r.(sourceId := value)
        else if key == "prt" then r.(partition := value)
        else r
  }

  /** The reference read from `groups` starting from `r`, groups applied in order. */
  function ApplyAll(r: ThingReference, prefix: string, groups: seq<string>): ThingReference
  {
    if groups == [] then r
    else Apply(ApplyAll(r, prefix, groups[..|groups| - 1]), prefix, groups[|groups| - 1])
  }

  /** `GetReference`: the groups of a roster item, read from an empty reference. */
  method GetReference(groups: seq<string>, prefix: string) returns (r: ThingReference)
    ensures r == ApplyAll(EmptyReference, prefix, groups)
  {
    var nodeId, sourceId, partition := "", "", "";
    var p := prefix + ".";
    for i := 0 to |groups|
      invariant ThingReference(nodeId, sourceId, partition) == ApplyAll(EmptyReference, prefix, groups[..i])
    {
      assert groups[..i + 1][..i] == groups[..i];
      var group := groups[i];
      if p <= group {
        var s := group[|p|..];
        var j := IndexOf(s, ':');
        if j >= 0 {
          var key := Lower(s[..j]);
          if key == "nid" {
            nodeId := s[j + 1..];
          } else if key == "sid" {
            sourceId := s[j + 1..];
          } else if key == "prt" {
            partition := s[j + 1..];
          }
        }
      }
    }
    assert groups[..|groups|] == groups;
    r := ThingReference(nodeId, sourceId, partition);
  }

  /** Reading groups one after the other is reading their concatenation. */
  lemma {:induction false} ApplyAllAppend(r: ThingReference, prefix: string, xs: seq<string>, ys: seq<string>)
    ensures ApplyAll(r, prefix, xs + ys) == ApplyAll(ApplyAll(r, prefix, xs), prefix, ys)
    decreases |ys|
  {
    if ys == [] {
      assert xs + ys == xs;
    } else {
      var n := |ys| - 1;
      assert (xs + ys)[..|xs + ys| - 1] == xs + ys[..n];
      ApplyAllAppend(r, prefix, xs, ys[..n]);
    }
  }

  /** Groups that do not start with `prefix` + "." leave the reference as it is. */
  lemma {:induction false} ForeignGroupsIgnored(r: ThingReference, prefix: string, groups: seq<string>)
    requires forall g :: g in groups ==> !(prefix + "." <= g)
    ensures ApplyAll(r, prefix, groups) == r
    decreases |groups|
  {
    if groups != [] {
      var n := |groups| - 1;
      assert forall g :: g in groups[..n] ==> g in groups;
      ForeignGroupsIgnored(r, prefix, groups[..n]);
      assert groups[n] in groups;
    }
  }

  /** The groups that do not start with `prefix`, in their order. */
  function Unprefixed(groups: seq<string>, prefix: string): seq<string>
  {
    if groups == [] then []
    else
      var last := groups[|groups| - 1];
      Unprefixed(groups[..|groups| - 1], prefix) + (if prefix <= last then [] else [last])
  }

  lemma {:induction false} UnprefixedMembers(groups: seq<string>, prefix: string)
    ensures forall g :: g in Unprefixed(groups, prefix) <==> g in groups && !(prefix <= g)
    decreases |groups|
  {
    if groups != [] {
      var n := |groups| - 1;
      UnprefixedMembers(groups[..n], prefix);
      assert groups == groups[..n] + [groups[n]];
    }
  }

  lemma {:induction false} UnprefixedAppend(xs: seq<string>, ys: seq<string>, prefix: string)
    ensures Unprefixed(xs + ys, prefix) == Unprefixed(xs, prefix) + Unprefixed(ys, prefix)
    decreases |ys|
  {
    if ys == [] {
      assert xs + ys == xs;
    } else {
      var n := |ys| - 1;
      assert (xs + ys)[..|xs + ys| - 1] == xs + ys[..n];
      UnprefixedAppend(xs, ys[..n], prefix);
    }
  }

  /** Removing twice removes nothing more. */
  lemma {:induction false} UnprefixedIdempotent(groups: seq<string>, prefix: string)
    ensures Unprefixed(Unprefixed(groups, prefix), prefix) == Unprefixed(groups, prefix)
    decreases |groups|
  {
    if groups != [] {
      var n := |groups| - 1;
      var last := if prefix <= groups[n] then [] else [groups[n]];
      UnprefixedIdempotent(groups[..n], prefix);
      UnprefixedAppend(Unprefixed(groups[..n], prefix), last, prefix);
    }
  }

  /** The `RemoveReference` loop, with `groups` possibly null. */
  method RemoveReference(groups: Option<seq<string>>, prefix: string) returns (result: seq<string>)
    ensures result == Unprefixed(groups.GetOr([]), prefix)
  {
    result := [];
    if groups.Some? {
      var gs := groups.value;
      for i := 0 to |gs|
        invariant result == Unprefixed(gs[..i], prefix)
      {
        assert gs[..i + 1][..i] == gs[..i];
        if !(prefix <= gs[i]) {
          result := result + [gs[i]];
        }
      }
      assert gs[..|gs|] == gs;
    }
  }

  /** The group `Prefix.key:value`. */
  function KeyGroup(prefix: string, key: string, value: string): string
  {
    prefix + "." + key + ":" + value
  }

  /** The group for one part of a reference, when that part is not empty. */
  function KeyGroups(prefix: string, key: string, value: string): seq<string>
  {
    if value != "" then [KeyGroup(prefix, key, value)] else []
  }

  /** The groups naming the parts of `r` that are not empty. */
  function ReferenceGroups(prefix: string, r: ThingReference): seq<string>
  {
    KeyGroups(prefix, "nid", r.nodeId) + KeyGroups(prefix, "sid", r.sourceId) + KeyGroups(prefix, "prt", r.partition)
  }

  /** What `AddReference` returns. */
  function WithReference(groups: Option<seq<string>>, prefix: string, r: ThingReference): seq<string>
  {
    [prefix] + ReferenceGroups(prefix, r) + Unprefixed(groups.GetOr([]), prefix)
  }

  /** `AddReference`: the prefix, the non-empty parts of the reference, then the other groups. */
  method AddReference(groups: Option<seq<string>>, prefix: string, r: ThingReference) returns (result: seq<string>)
    ensures result == WithReference(groups, prefix, r)
  {
    result := [prefix];
    if r.nodeId != "" {
      result := result + [KeyGroup(prefix, "nid", r.nodeId)];
    }
    if r.sourceId != "" {
      result := result + [KeyGroup(prefix, "sid", r.sourceId)];
    }
    if r.partition != "" {
      result := result + [KeyGroup(prefix, "prt", r.partition)];
    }
    ghost var head := result;
    assert head == [prefix] + ReferenceGroups(prefix, r);
    var rest := RemoveReference(groups, prefix);
    result := result + rest;
  }

  /** The first `c` of `a + [c] + b` is at `|a|` when `a` holds none. */
  lemma {:induction false} IndexOfFirst(a: string, c: char, b: string)
    requires c !in a
    ensures IndexOf(a + [c] + b, c) == |a|
    decreases |a|
  {
    if a != [] {
      assert (a + [c] + b)[1..] == a[1..] + [c] + b;
      IndexOfFirst(a[1..], c, b);
    }
  }

  lemma DropPrefix(p: string, x: string)
    ensures p <= p + x && (p + x)[|p|..] == x
  {
  }

  /** A group written for key `key` reads back as that key's value. */
  lemma KeyGroupRead(r: ThingReference, prefix: string, key: string, value: string)
    requires key == "nid" || key == "sid" || key == "prt"
    ensures Apply(r, prefix, KeyGroup(prefix, key, value)) == if key == "nid" then r.(nodeId := value)
                              else if key == "sid" then r.(sourceId := value)
                              else r.(partition := value)
  {
    assert ':' !in key;
    KeyGroupParts(prefix, key, value);
    assert Lower(key) == key;
  }

  /** A group written for `key` splits, after the prefix, at the colon that follows `key`. */
  lemma KeyGroupParts(prefix: string, key: string, value: string)
    requires ':' !in key
    ensures var p := prefix + "."; var g := KeyGroup(prefix, key, value);
      && p <= g
      && IndexOf(g[|p|..], ':') == |key|
      && g[|p|..][..|key|] == key && g[|p|..][|key| + 1..] == value
  {
    var p := prefix + ".";
    var x := key + [':'] + value;
    assert KeyGroup(prefix, key, value) == p + x;
    DropPrefix(p, x);
    IndexOfFirst(key, ':', value);
    assert x[..|key|] == key && x[|key| + 1..] == value;
  }

  lemma ApplyAllSingle(r: ThingReference, prefix: string, g: string)
    ensures ApplyAll(r, prefix, [g]) == Apply(r, prefix, g)
  {
    assert [g][..0] == [];
  }

  /** The group of one part, if any, sets that part. */
  lemma KeyGroupsRead(r: ThingReference, prefix: string, key: string, value: string)
    requires key == "nid" || key == "sid" || key == "prt"
    ensures value == "" ==> ApplyAll(r, prefix, KeyGroups(prefix, key, value)) == r
    ensures value != "" ==>
      ApplyAll(r, prefix, KeyGroups(prefix, key, value)) ==
      (if key == "nid" then r.(nodeId := value) else if key == "sid" then r.(sourceId := value) else r.(partition := value))
  {
    if value != "" {
      ApplyAllSingle(r, prefix, KeyGroup(prefix, key, value));
      KeyGroupRead(r, prefix, key, value);
    }
  }

  /** The groups of a reference read back as that reference. */
  lemma ReferenceGroupsRead(prefix: string, r: ThingReference)
    ensures ApplyAll(EmptyReference, prefix, [prefix] + ReferenceGroups(prefix, r)) == r
  {
    assert !(prefix + "." <= prefix);
    ApplyAllSingle(EmptyReference, prefix, prefix);
    var n, s, t := KeyGroups(prefix, "nid", r.nodeId), KeyGroups(prefix, "sid", r.sourceId), KeyGroups(prefix, "prt", r.partition);
    var a := EmptyReference;
    KeyGroupsRead(a, prefix, "nid", r.nodeId);
    var b := a.(nodeId := r.nodeId);
    KeyGroupsRead(b, prefix, "sid", r.sourceId);
    var c := b.(sourceId := r.sourceId);
    KeyGroupsRead(c, prefix, "prt", r.partition);
    ApplyAllAppend(EmptyReference, prefix, [prefix], n + s + t);
    ApplyAllAppend(a, prefix, n + s, t);
    ApplyAllAppend(a, prefix, n, s);
  }

  /** Every group starting with the prefix is removed. */
  lemma {:induction false} PrefixedRemoved(groups: seq<string>, prefix: string)
    requires forall g :: g in groups ==> prefix <= g
    ensures Unprefixed(groups, prefix) == []
    decreases |groups|
  {
    if groups != [] {
      var n := |groups| - 1;
      assert groups[n] in groups;
      assert forall g :: g in groups[..n] ==> g in groups;
      PrefixedRemoved(groups[..n], prefix);
    }
  }

  /** Round trip: reading back the groups `AddReference` writes gives the reference written. */
  lemma AddThenGet(groups: Option<seq<string>>, prefix: string, r: ThingReference)
    ensures ApplyAll(EmptyReference, prefix, WithReference(groups, prefix, r)) == r
  {
    var rest := Unprefixed(groups.GetOr([]), prefix);
    UnprefixedMembers(groups.GetOr([]), prefix);
    assert forall g :: g in rest ==> !(prefix + "." <= g);
    ReferenceGroupsRead(prefix, r);
    ApplyAllAppend(EmptyReference, prefix, [prefix] + ReferenceGroups(prefix, r), rest);
    ForeignGroupsIgnored(r, prefix, rest);
  }

  /** Removing after adding is removing: `AddReference` keeps nothing else under the prefix. */
  lemma AddThenRemove(groups: Option<seq<string>>, prefix: string, r: ThingReference)
    ensures Unprefixed(WithReference(groups, prefix, r), prefix) == Unprefixed(groups.GetOr([]), prefix)
  {
    var head := [prefix] + ReferenceGroups(prefix, r);
    var rest := Unprefixed(groups.GetOr([]), prefix);
    forall g | g in head
      ensures prefix <= g
    {
      assert g == prefix || g[..|prefix|] == prefix;
    }
    PrefixedRemoved(head, prefix);
    UnprefixedAppend(head, rest, prefix);
    UnprefixedIdempotent(groups.GetOr([]), prefix);
  }

  /** After `RemoveReference` no reference under the prefix is left. */
  lemma RemovedReadsEmpty(groups: Option<seq<string>>, prefix: string)
    ensures ApplyAll(EmptyReference, prefix, Unprefixed(groups.GetOr([]), prefix)) == EmptyReference
  {
    var rest := Unprefixed(groups.GetOr([]), prefix);
    UnprefixedMembers(groups.GetOr([]), prefix);
    assert forall g :: g in rest ==> !(prefix + "." <= g);
    ForeignGroupsIgnored(EmptyReference, prefix, rest);
  }

  // ---------------------------------------------------------------------------------------
  // The output rule
  // ---------------------------------------------------------------------------------------

  /** The light level below which, with motion, the output is switched on. */
  const DarkLevel: real := 25.0

  datatype FieldValue = QuantityValue(value: real, unit: string) | BooleanValue(flag: bool) | OtherValue

  /** A field received from the sensor subscription. */
  datatype SensorField = SensorField(name: string, value: FieldValue)

  /** The controller's view of the sensor, and whether a field of interest arrived. */
  datatype Readings = Readings(light: Option<real>, motion: Option<bool>, recalc: bool)

  /** A field that sets the light level: a "Light" quantity in "%". */
  predicate TakesLight(f: SensorField)
  {
    f.name == "Light" && f.value.QuantityValue? && f.value.unit == "%"
  }

  /** One received field: a "Light" quantity in "%" or a "Motion" boolean is taken. */
  function Absorb(r: Readings, f: SensorField): Readings
  {
    if TakesLight(f) then
      r.(light := Some(f.value.value), recalc := true)
    else if f.name == "Motion" && f.value.BooleanValue? then
      r.(motion := Some(f.value.flag), recalc := true)
    else r
  }

  function AbsorbAll(r: Readings, fields: seq<SensorField>): Readings
  {
    if fields == [] then r else Absorb(AbsorbAll(r, fields[..|fields| - 1]), fields[|fields| - 1])
  }

  /** Field `i` sets the light level and no later field does. */
  predicate LastLightField(fields: seq<SensorField>, i: int)
  {
    0 <= i < |fields| && TakesLight(fields[i]) && forall j :: i < j < |fields| ==> !TakesLight(fields[j])
  }

  /** A light level is only ever taken from a "Light" field in "%", and is the last such one. */
  lemma {:induction false} LightFromPercentFields(r: Readings, fields: seq<SensorField>)
    ensures var a := AbsorbAll(r, fields);
      a.light == r.light || (a.light.Some? &&
      exists i :: LastLightField(fields, i) && fields[i].name == "Light" && fields[i].value == QuantityValue(a.light.value, "%"))
    decreases |fields|
  {
    if fields != [] {
      var n := |fields| - 1;
      var init := fields[..n];
      LightFromPercentFields(r, init);
      var a0 := AbsorbAll(r, init);
      if TakesLight(fields[n]) {
        assert LastLightField(fields, n);
      } else if a0.light != r.light {
        var i :| LastLightField(init, i) && init[i].name == "Light" && init[i].value == QuantityValue(a0.light.value, "%");
        assert fields[i] == init[i];
        assert forall j :: i < j < n ==> fields[j] == init[j];
        assert LastLightField(fields, i);
      }
    }
  }

  /** The desired output: on exactly when there is motion and it is darker than 25 %. */
  function DesiredOutput(motion: bool, light: real): (on: bool)
    ensures on ==> motion
    ensures motion ==> (on <==> light < DarkLevel)
  {
    motion && light < DarkLevel
  }

  /** The rate limit of `FindFriends`, in milliseconds. */
  const SearchInterval: int := 60000
  /** `DateTime` ticks (100 ns) per millisecond. */
  const TicksPerMillisecond: int := 10000

  /** `Math.Ceiling`, cast to an integer. */
  function Ceiling(x: real): (n: int)
    ensures n as real - 1.0 < x <= n as real
  {
    -((-x).Floor)
  }

  /** The delay of a search asked for `elapsed` ticks after the last one, if it must wait. */
  function SearchDelay(elapsed: int): (delay: Option<int>)
    ensures delay.None? <==> elapsed >= SearchInterval * TicksPerMillisecond
    ensures delay.Some? ==> delay.value >= 1
  {
    var ms := (elapsed as real) / (TicksPerMillisecond as real);
    if ms < SearchInterval as real then Some(Ceiling(SearchInterval as real - ms)) else None
  }

  /** A search delayed by `SearchDelay` is not delayed again: at its time a minute has passed. */
  lemma DelayedSearchRuns(elapsed: int)
    requires SearchDelay(elapsed).Some?
    ensures SearchDelay(elapsed + SearchDelay(elapsed).value * TicksPerMillisecond).None?
  {
    var ms := (elapsed as real) / (TicksPerMillisecond as real);
    var d := SearchDelay(elapsed).value;
    assert d as real >= SearchInterval as real - ms;
    var later := elapsed + d * TicksPerMillisecond;
    assert (later as real) / (TicksPerMillisecond as real) == ms + d as real;
  }

  // ---------------------------------------------------------------------------------------
  // The roster
  // ---------------------------------------------------------------------------------------

  /** The roster group, and group prefix, of the sensor and of the actuator. */
  const SensorGroup: string := "Sensor"
  const ActuatorGroup: string := "Actuator"

  /** A roster entry: its bare JID, its name and its groups. */
  datatype RosterItem = RosterItem(bareJid: string, name: string, groups: seq<string>)

  /** An `UpdateRosterItem(BareJid, Name, Groups)` request; `None` is a null JID. */
  datatype RosterUpdate = RosterUpdate(jid: Option<string>, name: string, groups: seq<string>)

  /** `!string.IsNullOrEmpty(jid)`. */
  predicate NonEmpty(jid: Option<string>)
  {
    jid.Some? && jid.value != ""
  }

  /** `xmppClient[jid]`: the roster entry of `jid`, or None (null). */
  function Lookup(roster: seq<RosterItem>, jid: string): (item: Option<RosterItem>)
    ensures item.None? <==> forall i :: 0 <= i < |roster| ==> roster[i].bareJid != jid
    ensures item.Some? ==> item.value in roster && item.value.bareJid == jid
  {
    if roster == [] then None
    else if roster[0].bareJid == jid then Some(roster[0])
    else Lookup(roster[1..], jid)
  }

  /** The last roster entry in `group`: the one the scan of `FindFriends` ends with. */
  function LastInGroup(roster: seq<RosterItem>, group: string): Option<RosterItem>
  {
    if roster == [] then None
    else if group in roster[|roster| - 1].groups then Some(roster[|roster| - 1])
    else LastInGroup(roster[..|roster| - 1], group)
  }

  /** The scan finds nothing exactly when no entry is in the group, and otherwise the last one that is. */
  lemma {:induction false} LastInGroupFacts(roster: seq<RosterItem>, group: string)
    ensures LastInGroup(roster, group).None? <==> forall i :: 0 <= i < |roster| ==> group !in roster[i].groups
    ensures LastInGroup(roster, group).Some? ==>
      exists i :: 0 <= i < |roster| && roster[i] == LastInGroup(roster, group).value && group in roster[i].groups
        && forall j :: i < j < |roster| ==> group !in roster[j].groups
    decreases |roster|
  {
    if roster != [] {
      var n := |roster| - 1;
      var init := roster[..n];
      if group !in roster[n].groups {
        LastInGroupFacts(init, group);
        assert forall i :: 0 <= i < n ==> init[i] == roster[i];
        if LastInGroup(init, group).Some? {
          var i :| 0 <= i < n && init[i] == LastInGroup(init, group).value && group in init[i].groups
            && forall j :: i < j < n ==> group !in init[j].groups;
          assert roster[i] == init[i];
        }
      }
    }
  }

  /** The JID the scan leaves in `sensorJid` or `actuatorJid`. */
  function JidOf(found: Option<RosterItem>): Option<string>
  {
    if found.Some? then Some(found.value.bareJid) else None
  }

  /** The reference the scan leaves in `sensor` or `actuator`: `GetReference(Item, prefix)`. */
  function ReferenceOf(found: Option<RosterItem>, prefix: string): Option<ThingReference>
  {
    if found.Some? then Some(ApplyAll(EmptyReference, prefix, found.value.groups)) else None
  }

  /** `DateTime` ticks (100 ns) per second. */
  const TicksPerSecond: int := 10000000
  /** Seconds without an event after which the subscription is renewed. */
  const ResubscribeAfter: int := 70
  /** Seconds (a day) without an event or output after which a friend is dropped. */
  const StaleAfter: int := 60 * 60 * 24

  /** `Math.Min` of the ticks since the last fields and since the last errors. */
  function SinceLastEvent(now: int, lastEventFields: int, lastEventErrors: int): int
  {
    if now - lastEventFields <= now - lastEventErrors then now - lastEventFields else now - lastEventErrors
  }

  /**
   * The roster update of the timer's stale-friend path for the friend `jid` in group `prefix`:
   * the JID field is cleared before the update is made, so the update carries a null JID, and
   * the entry's groups without the reference.
   */
  function StaleUpdate(stale: bool, jid: Option<string>, roster: seq<RosterItem>, prefix: string): seq<RosterUpdate>
  {
    if stale && NonEmpty(jid) && Lookup(roster, jid.value).Some? then
      var item := Lookup(roster, jid.value).value;
      [RosterUpdate(None, item.name, Unprefixed(item.groups, prefix))]
    else []
  }

  /**
   * A stale-friend update names no JID at all, and carries exactly the dropped friend's other
   * groups: those of its roster entry that do not start with the prefix.
   */
  lemma StaleUpdateHasNoJid(stale: bool, jid: Option<string>, roster: seq<RosterItem>, prefix: string)
    ensures |StaleUpdate(stale, jid, roster, prefix)| <= 1
    ensures forall u :: u in StaleUpdate(stale, jid, roster, prefix) ==>
      && u.jid.None?
      && exists item :: item in roster && item.bareJid == jid.value && item.name == u.name
           && forall g :: g in u.groups <==> g in item.groups && !(prefix <= g)
  {
    if stale && NonEmpty(jid) && Lookup(roster, jid.value).Some? {
      var item := Lookup(roster, jid.value).value;
      UnprefixedMembers(item.groups, prefix);
    }
  }

  class Controller {
    var light: Option<real>
    var motion: Option<bool>
    var output: Option<bool>
    /** The friends found: bare JIDs and thing references (None: null). */
    var sensorJid: Option<string>
    var actuatorJid: Option<string>
    var sensor: Option<ThingReference>
    var actuator: Option<ThingReference>
    /** When fields, errors and an output were last seen or sent, in ticks. */
    var lastEventFields: int
    var lastEventErrors: int
    var lastOutput: int
    /** When the last search for friends ran, in ticks. */
    var lastFindFriends: int
    /** The output values sent to the actuator, in order. */
    var commands: seq<bool>
    /** The roster updates requested, in order. */
    var rosterUpdates: seq<RosterUpdate>

    /** The clock reading `now` stands for `DateTime.Now` when the fields are initialised. */
    constructor (now: int)
      ensures light.None? && motion.None? && output.None?
      ensures sensorJid.None? && actuatorJid.None? && sensor.None? && actuator.None?
      ensures lastEventFields == now && lastEventErrors == now && lastOutput == now
      ensures lastFindFriends == 0 && commands == [] && rosterUpdates == []
    {
      light, motion, output, lastFindFriends, commands := None, None, None, 0, [];
      sensorJid, actuatorJid, sensor, actuator := None, None, None, None;
      lastEventFields, lastEventErrors, lastOutput := now, now, now;
      rosterUpdates := [];
    }

    /**
     * `Subscription_OnFieldsReceived` at time `now`. When a field of interest arrived and both
     * values are known, the desired output is sent if an actuator JID is known, its roster
     * entry is online (`actuatorOnline`) and the output is unknown or different; only then
     * are `output` and `lastOutput` updated.
     */
    method OnFieldsReceived(fields: seq<SensorField>, actuatorOnline: bool, now: int) returns (sent: Option<bool>)
      modifies this`light, this`motion, this`output, this`commands, this`lastEventFields, this`lastOutput
      ensures var a := AbsorbAll(Readings(old(light), old(motion), false), fields);
        && light == a.light && motion == a.motion
        && (sent.Some? <==>
             a.recalc && a.light.Some? && a.motion.Some? && NonEmpty(actuatorJid) && actuatorOnline
             && old(output) != Some(DesiredOutput(a.motion.value, a.light.value)))
        && (sent.Some? ==> sent.value == DesiredOutput(a.motion.value, a.light.value))
      ensures lastEventFields == now
      ensures sent.Some? ==> output == sent && commands == old(commands) + [sent.value] && lastOutput == now
      ensures sent.None? ==> output == old(output) && commands == old(commands) && lastOutput == old(lastOutput)
    {
      lastEventFields := now;
      var recalc := false;
      for i := 0 to |fields|
        invariant Readings(light, motion, recalc) == AbsorbAll(Readings(old(light), old(motion), false), fields[..i])
        invariant output == old(output) && commands == old(commands) && lastOutput == old(lastOutput)
        invariant lastEventFields == now
      {
        assert fields[..i + 1][..i] == fields[..i];
        var f := fields[i];
        if f.name == "Light" {
          if f.value.QuantityValue? && f.value.unit == "%" {
            light := Some(f.value.value);
            recalc := true;
          }
        } else if f.name == "Motion" {
          if f.value.BooleanValue? {
            motion := Some(f.value.flag);
            recalc := true;
          }
        }
      }
      assert fields[..|fields|] == fields;
      sent := None;
      if recalc && motion.Some? && light.Some? {
        var desired := DesiredOutput(motion.value, light.value);
        if NonEmpty(actuatorJid) && (output.None? || output.value != desired) && actuatorOnline {
          commands := commands + [desired];
          output := Some(desired);
          lastOutput := now;
          sent := Some(desired);
        }
      }
    }

    /** `Subscription_OnErrorsReceived` at time `now`: only the time is kept. */
    method OnErrorsReceived(now: int)
      modifies this`lastEventErrors
      ensures lastEventErrors == now
    {
      lastEventErrors := now;
    }

    /**
     * `FindFriends` at time `now` (ticks): within a minute of the last search it only asks to
     * be called again after the returned delay (ms); otherwise the search is timed, the
     * friends are forgotten and the roster is scanned: the last entry in group "Sensor" (and
     * "Actuator") becomes the sensor (actuator), with the reference its groups hold.
     */
    method FindFriends(now: int, roster: seq<RosterItem>) returns (delay: Option<int>)
      modifies this`lastFindFriends, this`sensorJid, this`sensor, this`actuatorJid, this`actuator
      ensures delay == SearchDelay(now - old(lastFindFriends))
      ensures lastFindFriends == if delay.Some? then old(lastFindFriends) else now
      ensures delay.Some? ==>
        sensorJid == old(sensorJid) && sensor == old(sensor) && actuatorJid == old(actuatorJid) && actuator == old(actuator)
      ensures delay.None? ==>
        && sensorJid == JidOf(LastInGroup(roster, SensorGroup))
        && sensor == ReferenceOf(LastInGroup(roster, SensorGroup), SensorGroup)
        && actuatorJid == JidOf(LastInGroup(roster, ActuatorGroup))
        && actuator == ReferenceOf(LastInGroup(roster, ActuatorGroup), ActuatorGroup)
    {
      var ms := ((now - lastFindFriends) as real) / (TicksPerMillisecond as real);
      if ms < SearchInterval as real {
        delay := Some(Ceiling(SearchInterval as real - ms));
        return;
      }
      delay := None;
      lastFindFriends := now;
      sensorJid, sensor, actuatorJid, actuator := None, None, None, None;
      for i := 0 to |roster|
        invariant lastFindFriends == now
        invariant sensorJid == JidOf(LastInGroup(roster[..i], SensorGroup))
        invariant sensor == ReferenceOf(LastInGroup(roster[..i], SensorGroup), SensorGroup)
        invariant actuatorJid == JidOf(LastInGroup(roster[..i], ActuatorGroup))
        invariant actuator == ReferenceOf(LastInGroup(roster[..i], ActuatorGroup), ActuatorGroup)
      {
        assert roster[..i + 1][..i] == roster[..i];
        var item := roster[i];
        if SensorGroup in item.groups {
          sensorJid := Some(item.bareJid);
          var r := GetReference(item.groups, SensorGroup);
          sensor := Some(r);
        }
        if ActuatorGroup in item.groups {
          actuatorJid := Some(item.bareJid);
          var r := GetReference(item.groups, ActuatorGroup);
          actuator := Some(r);
        }
      }
      assert roster[..|roster|] == roster;
    }

    /**
     * The once-a-second timer at time `now`. With a subscription (`subscribed`) and more than
     * 70 s without fields or errors it only renews the subscription (`resubscribe`); otherwise,
     * after a day without them the sensor is dropped, and after a day without output the
     * actuator is: its JID and reference are cleared first, and then its roster entry, when
     * found, is updated with the cleared (null) JID and its groups without the reference. A
     * dropped friend starts a new registration and search (`search`).
     */
    method SecondTimer(now: int, subscribed: bool, roster: seq<RosterItem>) returns (resubscribe: bool, search: bool)
      modifies this`sensorJid, this`sensor, this`actuatorJid, this`actuator, this`rosterUpdates
      ensures var since := SinceLastEvent(now, lastEventFields, lastEventErrors);
        var staleSensor := !(subscribed && since > ResubscribeAfter * TicksPerSecond) && since > StaleAfter * TicksPerSecond;
        var staleActuator := now - lastOutput > StaleAfter * TicksPerSecond;
        && (resubscribe <==> subscribed && since > ResubscribeAfter * TicksPerSecond)
        && (search <==> staleSensor || staleActuator)
        && (if staleSensor && NonEmpty(old(sensorJid)) then sensorJid.None? && sensor.None?
            else sensorJid == old(sensorJid) && sensor == old(sensor))
        && (if staleActuator && NonEmpty(old(actuatorJid)) then actuatorJid.None? && actuator.None?
            else actuatorJid == old(actuatorJid) && actuator == old(actuator))
        && rosterUpdates == old(rosterUpdates)
             + StaleUpdate(staleSensor, old(sensorJid), roster, SensorGroup)
             + StaleUpdate(staleActuator, old(actuatorJid), roster, ActuatorGroup)
    {
      var since := SinceLastEvent(now, lastEventFields, lastEventErrors);
      var sinceOutput := now - lastOutput;
      search := false;
      resubscribe := subscribed && since > ResubscribeAfter * TicksPerSecond;
      if !resubscribe && since > StaleAfter * TicksPerSecond {
        if NonEmpty(sensorJid) {
          var item := Lookup(roster, sensorJid.value);
          sensor := None;
          sensorJid := None;
          if item.Some? {
            var groups := RemoveReference(Some(item.value.groups), SensorGroup);
            rosterUpdates := rosterUpdates + [RosterUpdate(sensorJid, item.value.name, groups)];
          }
        }
        search := true;
      }
      if sinceOutput > StaleAfter * TicksPerSecond {
        if NonEmpty(actuatorJid) {
          var item := Lookup(roster, actuatorJid.value);
          actuator := None;
          actuatorJid := None;
          if item.Some? {
            var groups := RemoveReference(Some(item.value.groups), ActuatorGroup);
            rosterUpdates := rosterUpdates + [RosterUpdate(actuatorJid, item.value.name, groups)];
          }
        }
        search := true;
      }
    }
  }
}
