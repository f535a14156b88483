/**
 * The sensor-data readout of SensorXmpp (the `OnExecuteReadoutRequest` handler) and of the
 * concentrator's sensor node (`SensorNode.StartReadout`): the momentary fields, then, when
 * historical values are requested, one field per present average, minimum and maximum of
 * every stored minute, hour and day record in the requested range, reported in batches.
 *
 * A call of `ReportFields(done, fields)` on the request is modelled as one `Report` appended
 * to the returned sequence of reports.
 */
module Readout {
  import opened Wrappers
  import opened History

  /** The field types the readout uses (`Computed | Historical` is one kind here). */
  datatype Kind = Identity | Momentary | ComputedHistorical

  /** The resolutions of the record stores. */
  datatype Resolution = Minute | Hour | Day

  /** The units the readout attaches to quantities. */
  datatype Unit = Percent | Unitless

  /**
   * The field names the readout uses; `NameText` gives the text that is sent. Keeping the
   * names symbolic lets the model compare them without reasoning about strings.
   */
  datatype Name = DeviceId | Light | Motion | Historical(measure: Measure, resolution: Resolution)

  datatype Value =
    | Text(text: string)
    | Quantity(amount: real, unit: Unit)
    | Boolean(flag: bool)

  datatype Field = Field(timestamp: int, name: Name, value: Value, kind: Kind)

  /** One `ReportFields(done, fields)` call. */
  datatype Report = Report(done: bool, fields: seq<Field>)

  /** A pending batch is reported once it holds more than this many fields. */
  const BatchLimit: nat := 50

  /** The parts of the readout request the handler consults. */
  datatype Request = Request(identity: bool, historical: bool, from: int, to: int)

  /** The two hosts of the readout; they differ in the motion unit and in one flush. */
  datatype Host = SensorXmpp | ConcentratorNode

  /** The unit of the motion averages: none in SensorXmpp, "%" in the concentrator. */
  function MotionUnit(host: Host): Unit
  {
    if host == SensorXmpp then Unitless else Percent
  }

  function UnitText(u: Unit): string
  {
    if u == Percent then "%" else ""
  }

  function ResolutionText(r: Resolution): string
  {
    match r
    case Minute => "Minute"
    case Hour => "Hour"
    case Day => "Day"
  }

  function QuantityText(m: Measure): string
  {
    if m == AvgMotion then "Motion" else "Light"
  }

  function StatisticText(m: Measure): string
  {
    match m
    case MinLight => "Minimum"
    case MaxLight => "Maximum"
    case _ => "Average"
  }

  /** The field name as sent: "Device ID", "Light", "Motion", "Light, Minute, Average", ... */
  function NameText(n: Name): string
  {
    match n
    case DeviceId => "Device ID"
    case Light => "Light"
    case Motion => "Motion"
    case Historical(m, r) => QuantityText(m) + ", " + ResolutionText(r) + ", " + StatisticText(m)
  }

  /** Different historical fields are sent under different names. */
  lemma HistoricalNamesDistinct(n1: Name, n2: Name)
    requires n1.Historical? && n2.Historical?
    ensures NameText(n1) == NameText(n2) <==> n1 == n2
  {
    if n1 != n2 {
      var t1, t2 := NameText(n1), NameText(n2);
      var q1, q2 := QuantityText(n1.measure), QuantityText(n2.measure);
      var r1, r2 := ResolutionText(n1.resolution), ResolutionText(n2.resolution);
      if q1 != q2 {
        assert t1[1] != t2[1];
      } else if r1 != r2 {
        assert t1[|q1| + 2] == r1[0];
        assert t2[|q2| + 2] == r2[0];
      } else {
        assert t1[|q1| + |r1| + 5] == StatisticText(n1.measure)[1];
        assert t2[|q2| + |r2| + 5] == StatisticText(n2.measure)[1];
      }
    }
  }

  // ---------------------------------------------------------------------------------------
  // Fields of one record
  // ---------------------------------------------------------------------------------------

  /** The time stamp of a measure's field: minima and maxima carry the time they were seen. */
  function StampOf(rec: Record, m: Measure): int
  {
    match m
    case MinLight => rec.minLightAt
    case MaxLight => rec.maxLightAt
    case _ => rec.timestamp
  }

  /** The field reporting measure `m` of `rec`, which must be present. */
  function MeasureField(rec: Record, resolution: Resolution, motionUnit: Unit, m: Measure): (f: Field)
    requires Get(rec, m).Some?
    ensures f.name == Historical(m, resolution) && f.kind == ComputedHistorical
    ensures f.value.Quantity? && f.value.amount == Get(rec, m).value
    ensures f.value.unit == (if m == AvgMotion then motionUnit else Percent)
  {
    Field(StampOf(rec, m), Historical(m, resolution),
      Quantity(Get(rec, m).value, if m == AvgMotion then motionUnit else Percent), ComputedHistorical)
  }

  /** The field of measure `m` when it is present, and nothing otherwise. */
  function FieldIfPresent(rec: Record, resolution: Resolution, motionUnit: Unit, m: Measure): seq<Field>
  {
    if Get(rec, m).Some? then [MeasureField(rec, resolution, motionUnit, m)] else []
  }

  /** The fields one stored record contributes: average light, average motion, minimum, maximum. */
  function RecordFields(rec: Record, resolution: Resolution, motionUnit: Unit): (r: seq<Field>)
    ensures |r| <= 4
  {
    FieldIfPresent(rec, resolution, motionUnit, AvgLight)
    + FieldIfPresent(rec, resolution, motionUnit, AvgMotion)
    + FieldIfPresent(rec, resolution, motionUnit, MinLight)
    + FieldIfPresent(rec, resolution, motionUnit, MaxLight)
  }

  /**
   * A record yields a field for measure `m` exactly when `m` is present, and that field
   * carries the measure's value, unit and time stamp.
   */
  lemma FieldForMeasure(rec: Record, resolution: Resolution, motionUnit: Unit, m: Measure, f: Field)
    requires f.name == Historical(m, resolution)
    ensures f in RecordFields(rec, resolution, motionUnit) <==>
      Get(rec, m).Some? && f == MeasureField(rec, resolution, motionUnit, m)
  {
  }

  /** Every field of a record reports one present measure of it, at the record's resolution. */
  lemma RecordFieldsOnlyMeasures(rec: Record, resolution: Resolution, motionUnit: Unit, f: Field)
    requires f in RecordFields(rec, resolution, motionUnit)
    ensures exists m: Measure :: Get(rec, m).Some? && f == MeasureField(rec, resolution, motionUnit, m)
  {
  }

  // ---------------------------------------------------------------------------------------
  // Batching
  // ---------------------------------------------------------------------------------------

  /** The fields of a sequence of reports, in order. */
  function Flatten(reports: seq<Report>): seq<Field>
  {
    if reports == [] then [] else reports[0].fields + Flatten(reports[1..])
  }

  lemma {:induction false} FlattenAppend(a: seq<Report>, b: seq<Report>)
    ensures Flatten(a + b) == Flatten(a) + Flatten(b)
    decreases |a|
  {
    if a == [] {
      assert a + b == b;
    } else {
      assert (a + b)[1..] == a[1..] + b;
      FlattenAppend(a[1..], b);
    }
  }

  datatype Batches = Batches(reports: seq<Report>, pending: seq<Field>)

  /** The field groups of a sequence of records, one group per record. */
  function RecordGroups(recs: seq<Record>, resolution: Resolution, motionUnit: Unit): (g: seq<seq<Field>>)
    ensures |g| == |recs|
    ensures forall i :: 0 <= i < |recs| ==> g[i] == RecordFields(recs[i], resolution, motionUnit)
  {
    seq(|recs|, i requires 0 <= i < |recs| => RecordFields(recs[i], resolution, motionUnit))
  }

  /** The fields of a sequence of groups, in order. */
  function Concat(groups: seq<seq<Field>>): seq<Field>
  {
    if groups == [] then [] else groups[0] + Concat(groups[1..])
  }

  /**
   * The loop over one resolution's records, given each record's fields as a group: before
   * each group, a pending list of more than `BatchLimit` fields is reported (not done) and
   * cleared; then the group is added.
   */
  function Batch(pending: seq<Field>, groups: seq<seq<Field>>): Batches
    decreases |groups|
  {
    if groups == [] then Batches([], pending)
    else if |pending| > BatchLimit then
      var rest := Batch(groups[0], groups[1..]);
      Batches([Report(false, pending)] + rest.reports, rest.pending)
    else
      Batch(pending + groups[0], groups[1..])
  }

  /** Batching loses, duplicates and reorders no field. */
  lemma {:induction false} BatchKeepsFields(pending: seq<Field>, groups: seq<seq<Field>>)
    ensures var b := Batch(pending, groups); Flatten(b.reports) + b.pending == pending + Concat(groups)
    decreases |groups|
  {
    if groups == [] {
      assert Flatten([]) + pending == pending + [];
    } else if |pending| > BatchLimit {
      BatchKeepsFields(groups[0], groups[1..]);
      var rest := Batch(groups[0], groups[1..]);
      FlattenAppend([Report(false, pending)], rest.reports);
      assert Flatten([Report(false, pending)]) == pending + Flatten([]);
      assert Concat(groups) == groups[0] + Concat(groups[1..]);
    } else {
      BatchKeepsFields(pending + groups[0], groups[1..]);
      assert Concat(groups) == groups[0] + Concat(groups[1..]);
    }
  }

  /**
   * Every batch reported by the loop is not done and holds more than `BatchLimit` fields; if
   * the loop starts with at most `BatchLimit + 4` pending fields and no group exceeds four
   * fields, no batch and no leftover exceeds `BatchLimit + 4` either.
   */
  lemma {:induction false} BatchSizes(pending: seq<Field>, groups: seq<seq<Field>>)
    ensures forall r :: r in Batch(pending, groups).reports ==> !r.done && |r.fields| > BatchLimit
    ensures |pending| <= BatchLimit + 4 && (forall g :: g in groups ==> |g| <= 4) ==>
      var b := Batch(pending, groups);
      |b.pending| <= BatchLimit + 4 && forall r :: r in b.reports ==> |r.fields| <= BatchLimit + 4
    decreases |groups|
  {
    if groups != [] {
      assert forall g :: g in groups[1..] ==> g in groups;
      if |pending| > BatchLimit {
        BatchSizes(groups[0], groups[1..]);
      } else {
        BatchSizes(pending + groups[0], groups[1..]);
      }
    }
  }

  /**
   * The `foreach` loop over one resolution's records, filling and flushing the pending field
   * list as the handler does.
   */
  method ReportRecords(fields: seq<Field>, recs: seq<Record>, resolution: Resolution, motionUnit: Unit)
    returns (reports: seq<Report>, pending: seq<Field>)
    ensures Batches(reports, pending) == Batch(fields, RecordGroups(recs, resolution, motionUnit))
  {
    ghost var groups := RecordGroups(recs, resolution, motionUnit);
    reports, pending := [], fields;
    var i := 0;
    while i < |recs|
      invariant 0 <= i <= |recs|
      invariant reports + Batch(pending, groups[i..]).reports == Batch(fields, groups).reports
      invariant Batch(pending, groups[i..]).pending == Batch(fields, groups).pending
    {
      assert groups[i..][1..] == groups[i + 1..];
      ghost var rest := Batch(pending, groups[i..]);
      if |pending| > BatchLimit {
        assert rest.reports == [Report(false, pending)] + Batch(groups[i], groups[i + 1..]).reports;
        assert reports + rest.reports == (reports + [Report(false, pending)]) + Batch(groups[i], groups[i + 1..]).reports;
        reports := reports + [Report(false, pending)];
        pending := [];
      }
      pending := AddRecordFields(pending, recs[i], resolution, motionUnit);
      assert [] + groups[i] == groups[i];
      i := i + 1;
    }
  }

  /** The body of the `foreach` loop after the flush: one `Fields.Add` per present measure. */
  method AddRecordFields(fields: seq<Field>, rec: Record, resolution: Resolution, motionUnit: Unit)
    returns (pending: seq<Field>)
    ensures pending == fields + RecordFields(rec, resolution, motionUnit)
  {
    pending := fields;
    if rec.avgLight.Some? {
      pending := pending + [MeasureField(rec, resolution, motionUnit, AvgLight)];
    }
    ghost var a := FieldIfPresent(rec, resolution, motionUnit, AvgLight);
    assert pending == fields + a;
    if rec.avgMotion.Some? {
      pending := pending + [MeasureField(rec, resolution, motionUnit, AvgMotion)];
    }
    ghost var b := FieldIfPresent(rec, resolution, motionUnit, AvgMotion);
    assert pending == fields + a + b;
    if rec.minLight.Some? {
      pending := pending + [MeasureField(rec, resolution, motionUnit, MinLight)];
    }
    ghost var c := FieldIfPresent(rec, resolution, motionUnit, MinLight);
    assert pending == fields + a + b + c;
    if rec.maxLight.Some? {
      pending := pending + [MeasureField(rec, resolution, motionUnit, MaxLight)];
    }
    ghost var d := FieldIfPresent(rec, resolution, motionUnit, MaxLight);
    assert pending == fields + a + b + c + d;
    AppendGroups(fields, a, b, c, d);
  }

  lemma AppendGroups(f: seq<Field>, a: seq<Field>, b: seq<Field>, c: seq<Field>, d: seq<Field>)
    ensures f + a + b + c + d == f + (a + b + c + d)
  {
  }

  // ---------------------------------------------------------------------------------------
  // The readout
  // ---------------------------------------------------------------------------------------

  /**
   * The momentary part: the device identity when requested, then the last light level and
   * the last motion state, each only when known, all stamped with the readout time `now`.
   */
  function MomentaryFields(req: Request, now: int, deviceId: string, light: Option<real>, motion: Option<bool>)
    : (r: seq<Field>)
    ensures |r| <= 3
    ensures (exists f :: f in r && f.name == Light) <==> light.Some?
    ensures light.Some? ==> Field(now, Light, Quantity(light.value, Percent), Momentary) in r
    ensures (exists f :: f in r && f.name == Motion) <==> motion.Some?
    ensures (exists f :: f in r && f.kind == Identity) <==> req.identity
  {
    (if req.identity then [Field(now, DeviceId, Text(deviceId), Identity)] else [])
    + (if light.Some? then [Field(now, Light, Quantity(light.value, Percent), Momentary)] else [])
    + (if motion.Some? then [Field(now, Motion, Boolean(motion.value), Momentary)] else [])
  }

  /** The momentary light field of a `NewMomentaryValues` event: the level `light` in "%", stamped `t`. */
  function LightField(t: int, light: real): Field
  {
    Field(t, Light, Quantity(light, Percent), Momentary)
  }

  /** The momentary motion field of a `NewMomentaryValues` event: the state `motion`, stamped `t`. */
  function MotionField(t: int, motion: bool): Field
  {
    Field(t, Motion, Boolean(motion), Momentary)
  }

  /** The fields of a sequence of records, in order. */
  function AllFields(recs: seq<Record>, resolution: Resolution, motionUnit: Unit): seq<Field>
  {
    Concat(RecordGroups(recs, resolution, motionUnit))
  }

  /** A historical field comes from one of the records, and every record's fields are sent. */
  lemma {:induction false} AllFieldsMembers(recs: seq<Record>, resolution: Resolution, motionUnit: Unit, f: Field)
    ensures f in AllFields(recs, resolution, motionUnit) <==>
      exists rec :: rec in recs && f in RecordFields(rec, resolution, motionUnit)
    decreases |recs|
  {
    if recs != [] {
      var groups := RecordGroups(recs, resolution, motionUnit);
      assert groups[1..] == RecordGroups(recs[1..], resolution, motionUnit);
      AllFieldsMembers(recs[1..], resolution, motionUnit, f);
      assert forall rec :: rec in recs <==> rec == recs[0] || rec in recs[1..];
    }
  }

  /**
   * The loop over one resolution's records with the pending list starting at `fields`:
   * batches of more than `BatchLimit` fields, none longer than `BatchLimit + 4`, and no field
   * lost or reordered.
   */
  method ReportResolution(fields: seq<Field>, recs: seq<Record>, resolution: Resolution, motionUnit: Unit)
    returns (batches: seq<Report>, pending: seq<Field>)
    requires |fields| <= BatchLimit + 4
    ensures Flatten(batches) + pending == fields + AllFields(recs, resolution, motionUnit)
    ensures forall r :: r in batches ==> !r.done && BatchLimit < |r.fields| <= BatchLimit + 4
    ensures |pending| <= BatchLimit + 4
  {
    ghost var groups := RecordGroups(recs, resolution, motionUnit);
    batches, pending := ReportRecords(fields, recs, resolution, motionUnit);
    BatchKeepsFields(fields, groups);
    BatchSizes(fields, groups);
  }

  /**
   * The minute loop. The concentrator then reports any leftover minute fields on their own,
   * so that the hour fields start a new batch.
   */
  method ReportMinutes(flushAfter: bool, recs: seq<Record>, motionUnit: Unit)
    returns (batches: seq<Report>, pending: seq<Field>)
    ensures Flatten(batches) + pending == AllFields(recs, Minute, motionUnit)
    ensures forall r :: r in batches ==> !r.done && |r.fields| <= BatchLimit + 4
    ensures |pending| <= BatchLimit + 4
    ensures !flushAfter ==> forall r :: r in batches ==> |r.fields| > BatchLimit
    ensures flushAfter ==> pending == []
  {
    batches, pending := ReportResolution([], recs, Minute, motionUnit);
    assert [] + AllFields(recs, Minute, motionUnit) == AllFields(recs, Minute, motionUnit);
    if flushAfter && |pending| > 0 {
      var last := [Report(false, pending)];
      FlattenAppend(batches, last);
      assert Flatten(last) == pending + Flatten([]);
      assert forall r :: r in batches + last ==> r in batches || r == last[0];
      batches, pending := batches + last, [];
    }
  }

  /** Two loops handing their pending fields on, and a final report of the last leftover. */
  lemma FlattenStages(b: seq<Report>, c: seq<Report>, p1: seq<Field>, p2: seq<Field>,
    p3: seq<Field>, fb: seq<Field>, fc: seq<Field>)
    requires Flatten(b) + p2 == p1 + fb && Flatten(c) + p3 == p2 + fc
    ensures Flatten(b + c + [Report(true, p3)]) == p1 + fb + fc
  {
    assert Flatten([Report(true, p3)]) == p3 + Flatten([]);
    FlattenAppend(b, c);
    FlattenAppend(b + c, [Report(true, p3)]);
    calc {
      Flatten(b + c + [Report(true, p3)]);
      Flatten(b) + (Flatten(c) + p3);
      (Flatten(b) + p2) + fc;
    }
  }

  /**
   * The hour and day loops, starting from the fields the minute loop left pending, and the
   * final done report.
   */
  method ReportHoursAndDays(pending: seq<Field>, hourRecs: seq<Record>, dayRecs: seq<Record>, motionUnit: Unit)
    returns (batches: seq<Report>)
    requires |pending| <= BatchLimit + 4
    ensures |batches| >= 1 && batches[|batches| - 1].done
    ensures forall i :: 0 <= i < |batches| - 1 ==> !batches[i].done && |batches[i].fields| > BatchLimit
    ensures forall i :: 0 <= i < |batches| ==> |batches[i].fields| <= BatchLimit + 4
    ensures Flatten(batches) == pending + AllFields(hourRecs, Hour, motionUnit) + AllFields(dayRecs, Day, motionUnit)
  {
    var hourBatches, pending2 := ReportResolution(pending, hourRecs, Hour, motionUnit);
    var dayBatches, pending3 := ReportResolution(pending2, dayRecs, Day, motionUnit);
    batches := hourBatches + dayBatches + [Report(true, pending3)];
    FlattenStages(hourBatches, dayBatches, pending, pending2, pending3,
      AllFields(hourRecs, Hour, motionUnit), AllFields(dayRecs, Day, motionUnit));
    assert forall i :: 0 <= i < |hourBatches| ==> batches[i] in hourBatches;
    assert forall i :: |hourBatches| <= i < |batches| - 1 ==> batches[i] in dayBatches;
  }

  /** The minute batches followed by the hour and day batches. */
  lemma JoinStages(a: seq<Report>, b: seq<Report>, p: seq<Field>, fa: seq<Field>, fb: seq<Field>, fc: seq<Field>)
    requires Flatten(a) + p == fa && Flatten(b) == p + fb + fc
    ensures Flatten(a + b) == fa + fb + fc
  {
    FlattenAppend(a, b);
    assert Flatten(a) + (p + fb + fc) == (Flatten(a) + p) + fb + fc;
  }

  /**
   * The historical part of the readout after the momentary report: minutes, hours and days
   * in batches, ending with one done report of the remaining fields.
   */
  method ReportHistory(flushAfterMinutes: bool, minuteRecs: seq<Record>, hourRecs: seq<Record>,
    dayRecs: seq<Record>, motionUnit: Unit)
    returns (batches: seq<Report>)
    ensures |batches| >= 1 && batches[|batches| - 1].done
    ensures forall i :: 0 <= i < |batches| - 1 ==> !batches[i].done
    ensures Flatten(batches) == AllFields(minuteRecs, Minute, motionUnit)
      + AllFields(hourRecs, Hour, motionUnit) + AllFields(dayRecs, Day, motionUnit)
    ensures forall i :: 0 <= i < |batches| ==> |batches[i].fields| <= BatchLimit + 4
    ensures !flushAfterMinutes ==> forall i :: 0 <= i < |batches| - 1 ==> |batches[i].fields| > BatchLimit
    ensures flushAfterMinutes ==>
      exists k :: 0 <= k < |batches| && Flatten(batches[..k]) == AllFields(minuteRecs, Minute, motionUnit)
  {
    var minuteBatches, pending := ReportMinutes(flushAfterMinutes, minuteRecs, motionUnit);
    var later := ReportHoursAndDays(pending, hourRecs, dayRecs, motionUnit);
    batches := minuteBatches + later;
    JoinStages(minuteBatches, later, pending, AllFields(minuteRecs, Minute, motionUnit),
      AllFields(hourRecs, Hour, motionUnit), AllFields(dayRecs, Day, motionUnit));
    assert forall i :: 0 <= i < |minuteBatches| ==> batches[i] in minuteBatches;
    assert forall i :: |minuteBatches| <= i < |batches| ==> batches[i] == later[i - |minuteBatches|];
    if flushAfterMinutes {
      assert batches[..|minuteBatches|] == minuteBatches;
      assert AllFields(minuteRecs, Minute, motionUnit) == Flatten(minuteBatches) + [];
    }
  }

  /** The historical fields of every stored record in `[from, to]`, minutes, hours, then days. */
  function HistoricalFields(req: Request, host: Host, minutes: seq<Record>, hours: seq<Record>, days: seq<Record>)
    : seq<Field>
  {
    AllFields(Query(minutes, req.from, req.to), Minute, MotionUnit(host))
    + AllFields(Query(hours, req.from, req.to), Hour, MotionUnit(host))
    + AllFields(Query(days, req.from, req.to), Day, MotionUnit(host))
  }

    /** The reports after a first one are the later batches, in place. */
  lemma Prepended(first: Report, batches: seq<Report>)
    ensures ([first] + batches)[1..] == batches
    ensures forall i :: 1 <= i < |batches| + 1 ==> ([first] + batches)[i] == batches[i - 1]
  {
  }

/**
   * The readout handler. Without historical values it reports the momentary fields once, as
   * done. Otherwise it first reports the momentary fields alone, then every historical field
   * in order, in batches of more than `BatchLimit` fields, and finishes with one done report
   * of the rest. The concentrator also reports the minute fields before any hour field.
   */
  method ReadoutFields(host: Host, req: Request, now: int, deviceId: string, light: Option<real>,
    motion: Option<bool>, minutes: seq<Record>, hours: seq<Record>, days: seq<Record>)
    returns (reports: seq<Report>)
    ensures |reports| >= 1 && reports[|reports| - 1].done
    ensures forall i :: 0 <= i < |reports| - 1 ==> !reports[i].done
    ensures !req.historical ==> reports == [Report(true, MomentaryFields(req, now, deviceId, light, motion))]
    ensures req.historical ==>
      && |reports| >= 2
      && reports[0] == Report(false, MomentaryFields(req, now, deviceId, light, motion))
      && Flatten(reports[1..]) == HistoricalFields(req, host, minutes, hours, days)
    ensures req.historical ==> forall i :: 1 <= i < |reports| ==> |reports[i].fields| <= BatchLimit + 4
    ensures req.historical && host == SensorXmpp ==>
      forall i :: 1 <= i < |reports| - 1 ==> |reports[i].fields| > BatchLimit
    ensures req.historical && host == ConcentratorNode ==>
      exists k :: 1 <= k < |reports| &&
        Flatten(reports[1..k]) == AllFields(Query(minutes, req.from, req.to), Minute, MotionUnit(host))
  {
    var fields := MomentaryFields(req, now, deviceId, light, motion);
    if !req.historical {
      reports := [Report(true, fields)];
    } else {
      var unit := MotionUnit(host);
      var minuteRecs := Query(minutes, req.from, req.to);
      var batches := ReportHistory(host == ConcentratorNode, minuteRecs,
        Query(hours, req.from, req.to), Query(days, req.from, req.to), unit);
      reports := [Report(false, fields)] + batches;
      Prepended(Report(false, fields), batches);
      if host == ConcentratorNode {
        ghost var k :| 0 <= k < |batches| && Flatten(batches[..k]) == AllFields(minuteRecs, Minute, unit);
        assert reports[1..k + 1] == batches[..k];
      }
    }
  }
}
