# MIoT sensor, concentrator, controller and actuator core in Dafny

This project models the shared core of the MIoT sample applications.

**The sampling engine (`SampleValues`).** Every Raspberry Pi sensor application runs the same loop:
- It reads the light sensor on analog pin A0 once a second into a 10-slot window.
- It removes a single outlier ("spike") at slot 5 when at least 8 samples are present.
- It publishes the light level `100·mean/1024` of the present samples in slots 0..4 whenever at least one of those five slots holds a sample, whether or not slot 5 was cleared as a spike.
- It accumulates a minute record (minimum, maximum and their times, average light, average motion).
- It stores each minute record in an object database, compacts the previous hour's minute records into an hour record at minute 0, and the previous day's hour records into a day record at midnight.
- Each store is pruned to its last 100 units.

Apart from SensorMqtt, which takes the motion average with integer division, the engine is the same in every application. It is modelled once:
- `Window` holds the window as a value (`Step`, `Published`).
- `History` holds the record stores and the roll-up as functions (`Advance`).
- `Engine.Sampler` is the class that updates a window array and the stores in place. Its `Tick` is proved against `Window.Step` and `History.Advance`.

**The applications.** Each application is a class holding the engine and its own state:
- Sensor (engine only).
- SensorHttp: the `/Light` and `/Movement` texts and the history queries sorted by timestamp.
- SensorXmpp: momentary light and motion events, and the sensor-data readout with historical fields in batches.
- SensorMqtt: throttled light and movement topics plus a JSON summary.
- SensorLwm2m: IPSO objects, and the `/Light`, `/Motion` and `/Momentary` CoAP resources with content negotiation and XML/JSON/plain-text rendering.
- ConcentratorXmpp: momentary light and motion events of its sensor node, the throttled bookkeeping of `PublishMomentaryValues` (which sends nothing), and the readout of the node.
- ControllerXmpp: thing references kept as roster groups, the output rule "motion and light below 25 %", and the once-a-minute friend search.

**Shared pieces.**
- The IPSO object instances: generic sensor, analog input, digital input, digital output and actuation.
- The hex dump used by the communication log sniffers.

**Modelling choices.**
- **Time.** Time is an integer count of seconds since `DateTime.MinValue`. The actuation on-time and the friend-search delay instead use 100-ns ticks, because those computations round fractions of a second or a millisecond.
- **Numbers.** Light levels and averages are real numbers.
- **Parameters.**
  - Text formatting of numbers and timestamps is a parameter (`fmt`, `ts`).
  - The clock, the pin readings and the connection state are parameters of the methods that use them.
- **Behaviour kept as the code has it.**
  - The light level divides the scaled mean by 1024 (Sensor/App.xaml.cs:275).
  - Hour and day compaction update the maximum with the same `<` comparison as the minimum (Sensor/App.xaml.cs:370 and 434), so a compacted "maximum" is the least of the maxima.
  - The extreme timestamps of a compacted record are taken from the closing minute (or hour) record `Rec`, not from the finer record `Rec2` that set the extreme (Sensor/App.xaml.cs:367, 373, 431 and 437).
  - The compaction query is half-open, `Timestamp >= From AND Timestamp < To` (Sensor/App.xaml.cs:348-350).
  - SensorXmpp's `PublishMomentaryValues` returns at once (SensorXmpp/App.xaml.cs:481-483).
  - ControllerXmpp's once-a-second timer clears a stale friend's JID before it updates that friend's roster entry, so the update names a null JID (ControllerXmpp/App.xaml.cs:1180-1183 and 1196-1199).

## Model

| member | source | states |
|---|---|---|
| Window.PushAccounting | Sensor/App.xaml.cs:211-220 | shifting in a sample removes slot 0's value from the running sum and count and adds the new one |
| Window.RemovalAccounting | Sensor/App.xaml.cs:241-251 | clearing a present slot lowers the sum by its value and the count by one |
| Window.CrossMultiplication | Sensor/App.xaml.cs:227-239 | comparing a sample with the mean `sum/n` is the integer comparison `v·n` against `sum`, both sides |
| Window.SpikeIsUniqueOutlier | Sensor/App.xaml.cs:225-259 | a removed spike has at least 8 samples present and slot 5 is the only sample on its side of the mean |
| Window.UniqueOutlierIsSpike | Sensor/App.xaml.cs:225-259 | conversely, a slot 5 alone on its side of the mean with at least 8 samples present is removed, and only slot 5 is cleared |
| Window.NoFilterBelowThreshold | Sensor/App.xaml.cs:225 | with fewer than 8 samples the window is left alone |
| Window.FilterTouchesOnlySpikePos | Sensor/App.xaml.cs:241-251 | the filter changes no slot but slot 5, and that one only to empty |
| Window.TwoOnSide | Sensor/App.xaml.cs:227-239 | two samples on one side of the mean make that side's count at least 2 |
| Window.OnlyOnSide | Sensor/App.xaml.cs:227-239 | a sample alone on its side makes that side's count exactly 1 |
| Window.LeadingSlotsEmpty | Sensor/App.xaml.cs:211-220 | after k ≤ 10 ticks from empty, the first 10−k slots are still empty |
| Window.FirstTicksSilent | Sensor/App.xaml.cs:263-276 | nothing is published during the first five ticks |
| Window.FillPhase | Sensor/App.xaml.cs:211-259 | during the first seven ticks the samples sit, unfiltered, in the last slots and are all counted |
| Window.SixthTickPublishes | Sensor/App.xaml.cs:263-276 | the sixth tick from empty publishes a light level |
| Window.PublishedSlotsShiftDown | Sensor/App.xaml.cs:217 | a tick moves slots 1..5 down to 0..4 |
| Window.ClearedSlotNeverPublished | Sensor/App.xaml.cs:263-276 | a spike cleared at slot 5 is still empty in the slot it has moved to for the next five ticks, so it never enters a published mean |
| Window.SumBounds | Sensor/App.xaml.cs:222 | the sum of samples in 0..hi lies between 0 and hi times their count |
| Window.PublishedIsPercentage | Sensor/App.xaml.cs:272-276 | with 10-bit samples (0..1023) a published light level lies in [0, 100) |
| Window.Shifted | Sensor/App.xaml.cs:211-220 | defines the push: slot 0 ages out and the reading enters last (facts: `PushAccounting`, `PublishedSlotsShiftDown`) |
| Window.IsSpike | Sensor/App.xaml.cs:225-239 | defines the spike test: at least 8 samples, and slot 5 the only sample strictly below, or strictly above, the mean (facts: `SpikeIsUniqueOutlier`, `UniqueOutlierIsSpike`) |
| Window.RemoveSpike | Sensor/App.xaml.cs:241-251 | defines the filter: slot 5 cleared exactly when it holds a spike (facts: `FilterTouchesOnlySpikePos`, `NoFilterBelowThreshold`) |
| Window.Step | Sensor/App.xaml.cs:211-259 | one tick's window, push then filter, keeps the 10 slots |
| Window.Published | Sensor/App.xaml.cs:263-276 | defines the level `100·mean/1024` of the present samples in slots 0..4, none when all five are empty (facts: `FirstTicksSilent`, `SixthTickPublishes`, `PublishedIsPercentage`) |
| Engine.PrefixTotals | Sensor/App.xaml.cs:263-270 | the loop counts the present samples in slots 0..4 and sums them |
| Engine.CountOutliers | Sensor/App.xaml.cs:227-239 | the loop counts the samples strictly below and strictly above the mean |
| Engine.CloseHour | Sensor/App.xaml.cs:328-390 | the hour store after the hour's compaction, pruning included |
| Engine.CloseDay | Sensor/App.xaml.cs:392-454 | the day store after the day's compaction, pruning included |
| Engine.Sampler.CountInRange | Sensor/App.xaml.cs:211-259 | the running count `nrA0` stays between 0 and the 10 slots, and is 0 exactly when every slot of the window is empty |
| Engine.Sampler.constructor | Sensor/App.xaml.cs:44-57 | an empty window, no open minute and empty stores |
| Engine.Sampler.Push | Sensor/App.xaml.cs:211-220 | the window shifted by one with the new sample last, running totals kept |
| Engine.Sampler.FilterSpike | Sensor/App.xaml.cs:225-259 | the window with its spike removed, running totals kept |
| Engine.Sampler.Roll | Sensor/App.xaml.cs:296-454 | the stores after a change of minute, as `History.Rollover` |
| Engine.Sampler.AddToMinute | Sensor/App.xaml.cs:278-294 | the open minute after one more published tick, keeping the accumulator invariant |
| Engine.Sampler.Record | Sensor/App.xaml.cs:278-454 | the roll-up state after a published tick, as `History.Advance` |
| Engine.Sampler.Tick | Sensor/App.xaml.cs:204-454 | the window after one step, the published level, and stores that change only when a level is published |
| History.FilterMembers | Sensor/App.xaml.cs:348-350 | a store query keeps exactly the records its condition accepts |
| History.PruneKeeps | Sensor/App.xaml.cs:325-326 | pruning keeps exactly the records at or after the cut-off |
| History.Prune | Sensor/App.xaml.cs:325-326 | defines retention: the records strictly before the cut-off are deleted (facts: `PruneKeeps`) |
| History.Take | Sensor/App.xaml.cs:348-350 | `maxCount` keeps at most n records, a prefix of the matches, and all of them when there are no more |
| History.InsertByTimeFacts | SensorHttp/App.xaml.cs:1011-1019 | inserting adds exactly one record and keeps time order |
| History.SortByTimeFacts | SensorHttp/App.xaml.cs:1011-1019 | sorting by `Timestamp` orders by time and is a permutation of the store |
| History.Query | SensorXmpp/App.xaml.cs:343-346 | the readout query returns, in time order, exactly the stored records with `From ≤ Timestamp ≤ To` |
| History.PresentSumBounds | Sensor/App.xaml.cs:352-362 | the sum of present values lies between count·lo and count·hi |
| History.MeanAbsentIffAllAbsent | Sensor/App.xaml.cs:377-385 | an average is absent exactly when no finer record carries one |
| History.MeanBetween | Sensor/App.xaml.cs:377-385 | an average of present values lies within any bounds of those values |
| History.LowerFoldFacts | Sensor/App.xaml.cs:364-374 | the extreme loop ends no greater than its seed and than every value folded in, and equal to one of them |
| History.CompactExtremes | Sensor/App.xaml.cs:335-374 | the compacted minimum is the least of the seed's and the finer minima and one of them; the compacted maximum, compared with `<`, is at most every one of them and one of them |
| History.CompactStamps | Sensor/App.xaml.cs:335-374 | the compacted extreme timestamps are those of the closing minute record |
| History.CompactAverages | Sensor/App.xaml.cs:377-385 | the compacted averages are absent exactly when all finer averages are |
| History.CompactAverageBounds | Sensor/App.xaml.cs:377-385 | a compacted light average stays within any bounds of the finer ones |
| History.CompactRecords | Sensor/App.xaml.cs:352-385 | the compaction loop computes the compacted record |
| History.FindHalfOpenFacts | Sensor/App.xaml.cs:330-350 | the compaction query returns at most its limit of stored records, all in `[From, To)`, and all of them when there are no more |
| History.FindHalfOpen | Sensor/App.xaml.cs:348-350 | defines the compaction query `From <= Timestamp < To` with its limit (facts: `FindHalfOpenFacts`) |
| History.LowerFold | Sensor/App.xaml.cs:364-374 | defines the extreme loop: a strictly lower value replaces the extreme and takes the closing record's time (facts: `LowerFoldFacts`) |
| History.Compact | Sensor/App.xaml.cs:335-385 | defines the compacted record: closing time and values, folded extremes, averages of present averages (facts: `CompactExtremes`, `CompactStamps`, `CompactAverages`, `CompactAverageBounds`) |
| History.MeanWithin | Sensor/App.xaml.cs:377-385 | a sum between n·lo and n·hi averages to a value between lo and hi |
| History.AccumulateKeepsValid | Sensor/App.xaml.cs:278-294 | one tick keeps the minute invariant: counts agree and every value lies between the extremes |
| History.MinuteCounts | Sensor/App.xaml.cs:278-294 | a minute counts its ticks and the ticks with motion |
| History.MinuteExtremes | Sensor/App.xaml.cs:282-292 | a minute's minimum and maximum bound every sample and are samples stamped with their times, the first occurrence of the extreme winning ties |
| History.Accumulate | Sensor/App.xaml.cs:278-294 | defines one published tick's effect on the open minute (facts: `AccumulateKeepsValid`, `MinuteCounts`, `MinuteExtremes`) |
| History.MinuteRecord | Sensor/App.xaml.cs:302-313 | defines the minute record, with SensorMqtt's integer motion average as an option (facts: `MinuteRecordWellFormed`) |
| History.MinuteRecordWellFormed | Sensor/App.xaml.cs:302-313 | a minute record has every field, average light between its extremes and a motion percentage; with integer division (SensorMqtt) the motion average is 1 exactly when motion was seen on every tick, and 0 otherwise |
| History.SameMinuteOnlyAccumulates | Sensor/App.xaml.cs:296-298 | a tick in the same minute only accumulates and leaves the stores unchanged |
| History.RolloverStoresMinute | Sensor/App.xaml.cs:298-326 | a change of minute stores a record that includes the tick, restarts the minute and keeps 100 minutes |
| History.CoarseStoresChangeOnSchedule | Sensor/App.xaml.cs:328-392 | the hour store changes only at minute 0 and the day store only at midnight |
| History.HourlyCompaction | Sensor/App.xaml.cs:328-390 | at minute 0 the hour record is stored, closes at the tick, comes only from the previous hour's minute records, and 100 hours are kept |
| History.DailyCompaction | Sensor/App.xaml.cs:392-454 | at midnight the day record is stored, comes only from the previous day's hour records, and 100 days are kept |
| History.NextHours | Sensor/App.xaml.cs:328-390 | defines the hour store after a rollover (facts: `CoarseStoresChangeOnSchedule`, `HourlyCompaction`) |
| History.NextDays | Sensor/App.xaml.cs:392-454 | defines the day store after a rollover (facts: `CoarseStoresChangeOnSchedule`, `DailyCompaction`) |
| History.Rollover | Sensor/App.xaml.cs:296-454 | defines the change of minute: store the minute record, restart the minute, compact hours and days on schedule, prune (facts: `RolloverStoresMinute`) |
| History.Advance | Sensor/App.xaml.cs:278-454 | defines a published tick after publishing: accumulate in the same minute, roll over otherwise (facts: `SameMinuteOnlyAccumulates`, `RolloverStoresMinute`) |
| Ipso.MeasuredInstance.constructor | SensorLwm2m/IPSO/GenericSensorInstance.cs:24-67 | the current, minimum and maximum values all start at the initial value |
| Ipso.MeasuredInstance.CurrentWithinMinMax | SensorLwm2m/IPSO/GenericSensorInstance.cs:79-101 | the current value lies between the minimum and maximum measured values |
| Ipso.MeasuredInstance.Set | SensorLwm2m/IPSO/GenericSensorInstance.cs:79-101 | a repeated value changes nothing; a new one becomes current and extends the minimum or maximum |
| Ipso.MeasuredInstance.ResetMinMax | SensorLwm2m/IPSO/AnalogInputInstance.cs:29-38 | reset sets the minimum and maximum to the current value |
| Ipso.RepeatedInputNoRise | SensorLwm2m/IPSO/DigitalInputInstance.cs:62-78 | repeating the current state does not count |
| Ipso.RisesBound | SensorLwm2m/IPSO/DigitalInputInstance.cs:62-78 | rising edges are at most half the inputs, rounded up when the state ends high |
| Ipso.Rises | SensorLwm2m/IPSO/DigitalInputInstance.cs:62-78 | defines the count of inputs that turn the state to true from anything else (facts: `RepeatedInputNoRise`, `RisesBound`) |
| Ipso.DigitalInputInstance.constructor | SensorLwm2m/IPSO/DigitalInputInstance.cs:20-45 | the initial state with the counter at 0 |
| Ipso.DigitalInputInstance.Set | SensorLwm2m/IPSO/DigitalInputInstance.cs:62-78 | the counter counts transitions to high, and the invariant that it counts rising edges since reset is kept |
| Ipso.DigitalInputInstance.CounterReset | SensorLwm2m/IPSO/DigitalInputInstance.cs:33-40 | the counter is zeroed and the state kept |
| Ipso.DigitalOutputInstance.constructor | ActuatorLwm2m/IPSO/DigitalOutputInstance.cs:19-48 | the initial output state |
| Ipso.DigitalOutputInstance.Value | ActuatorLwm2m/IPSO/DigitalOutputInstance.cs:52-55 | the output is on only when the state is known to be on |
| Ipso.DigitalOutputInstance.Set | ActuatorLwm2m/IPSO/DigitalOutputInstance.cs:65-74 | the state becomes the value, and reads back as it |
| Ipso.TruncateToLong | ActuatorLwm2m/IPSO/ActuationInstance.cs:47 | a `(long)` cast truncates toward zero |
| Ipso.OnTimeRounding | ActuatorLwm2m/IPSO/ActuationInstance.cs:44-50 | on-time is 0 when not on, otherwise the elapsed seconds rounded half up |
| Ipso.OnTimeRoundTrip | ActuatorLwm2m/IPSO/ActuationInstance.cs:52-58 | writing an on-time of t seconds reads back as t |
| Ipso.OnTimeAt | ActuatorLwm2m/IPSO/ActuationInstance.cs:44-50 | defines the on-time read: 0 unless on, else elapsed seconds plus 0.5 truncated (facts: `OnTimeRounding`, `OnTimeRoundTrip`) |
| Ipso.ActuationInstance.constructor | ActuatorLwm2m/IPSO/ActuationInstance.cs:13-27 | the initial state, on-time 0 and the last switch time at construction |
| Ipso.ActuationInstance.Value | ActuatorLwm2m/IPSO/ActuationInstance.cs:69-72 | the output is on only when the state is known to be on |
| Ipso.ActuationInstance.Set | ActuatorLwm2m/IPSO/ActuationInstance.cs:83-93 | the state becomes the value; the switch time restarts only on a change |
| Ipso.ActuationInstance.ReadOnTime | ActuatorLwm2m/IPSO/ActuationInstance.cs:44-50 | reading the on-time stores and returns the rounded time since the last switch |
| Ipso.ActuationInstance.WriteOnTime | ActuatorLwm2m/IPSO/ActuationInstance.cs:52-58 | writing an on-time moves the last switch time that far back; an empty write restarts it |
| LogSniffer.Digit | ActuatorXmpp2/LogSniffer.cs:61-79 | a nibble prints as an upper-case hexadecimal digit |
| LogSniffer.DigitRoundTrip | ActuatorXmpp2/LogSniffer.cs:61-79 | a printed digit reads back as its nibble |
| LogSniffer.HexToken | ActuatorXmpp2/LogSniffer.cs:66-76 | `X2` prints a byte as two characters |
| LogSniffer.HexTokenRoundTrip | ActuatorXmpp2/LogSniffer.cs:66-76 | the two characters read back as the byte |
| LogSniffer.HexDumpLength | ActuatorXmpp2/LogSniffer.cs:61-79 | n bytes print as 3n−1 characters, none for no bytes |
| LogSniffer.HexDumpLayout | ActuatorXmpp2/LogSniffer.cs:61-79 | byte i prints at positions 3i and 3i+1, followed by a single space when another byte follows |
| LogSniffer.HexDumpAlphabet | ActuatorXmpp2/LogSniffer.cs:61-79 | a dump holds only hexadecimal digits and spaces |
| LogSniffer.HexDump | ActuatorXmpp2/LogSniffer.cs:61-79 | defines the dump: the bytes' two-digit tokens separated by single spaces (facts: `HexDumpLength`, `HexDumpLayout`, `HexDumpAlphabet`) |
| LogSniffer.ToString | ConcentratorXmpp/LogSniffer.cs:61-78 | the loop prints exactly the hex dump of `Data[Offset..Offset+Count)`, or nothing when Count ≤ 0 |
| Payload.MomentaryItems | SensorLwm2m/App.xaml.cs:456-530 | a light item exactly when a level is known and a motion item exactly when a state is, light first |
| Payload.LightPartIffKnown | SensorLwm2m/App.xaml.cs:462-468 | the light part is rendered if and only if a level is known |
| Payload.MotionPartIffKnown | SensorLwm2m/App.xaml.cs:470-476 | the motion part is rendered if and only if a state is known |
| Payload.Render | SensorLwm2m/App.xaml.cs:456-530 | a rendering starts with the format's header and ends with its closer |
| Payload.RenderAppend | SensorLwm2m/App.xaml.cs:456-530 | one more item adds its text just before the closer |
| Payload.RenderEmpty | SensorLwm2m/App.xaml.cs:456-530 | with nothing known, only the header and the closer are rendered |
| Payload.Header | SensorLwm2m/App.xaml.cs:456-514 | defines each format's opening: `{"ts":"…"`, `<m ts='…'>`, or a `Timestamp:` line (facts: `Render`, `RenderEmpty`) |
| Payload.Closer | SensorLwm2m/App.xaml.cs:478-529 | defines each format's closing: `}`, `</m>`, or nothing for plain text (facts: `Render`, `RenderEmpty`) |
| Payload.JsonItemText | SensorLwm2m/App.xaml.cs:491-502 | defines a JSON item: the light object with value and unit "%", or the motion member `true`/`false`, with the member names SensorLwm2m or SensorMqtt uses (SensorMqtt/App.xaml.cs:542-553) |
| Payload.XmlItemText | SensorLwm2m/App.xaml.cs:464-476 | defines an XML item: `<l u='%'>…</l>` or `<md>true</md>`/`<md>false</md>` |
| Payload.PlainItemText | SensorLwm2m/App.xaml.cs:516-527 | defines a plain-text item: a `Light: … %` or `Motion detected: …` line |
| Payload.ItemText | SensorLwm2m/App.xaml.cs:456-530 | selects the item text of the negotiated format (facts: `RenderAppend`) |
| Readout.HistoricalNamesDistinct | SensorXmpp/App.xaml.cs:354-376 | historical field names differ exactly when the measure or the resolution differs |
| Readout.MeasureField | SensorXmpp/App.xaml.cs:354-376 | a measure's field carries its name, value, and unit "%" (motion: the host's unit) |
| Readout.RecordFields | SensorXmpp/App.xaml.cs:354-376 | a record gives at most four fields |
| Readout.FieldForMeasure | SensorXmpp/App.xaml.cs:354-376 | a record has a field for a measure exactly when that measure is present, and then it is that measure's field |
| Readout.RecordFieldsOnlyMeasures | SensorXmpp/App.xaml.cs:354-376 | every field of a record is the field of one of its present measures |
| Readout.RecordGroups | SensorXmpp/App.xaml.cs:343-376 | one field group per record, in store order |
| Readout.BatchKeepsFields | SensorXmpp/App.xaml.cs:348-352 | batching loses, adds and reorders no field |
| Readout.BatchSizes | SensorXmpp/App.xaml.cs:348-352 | a batch is sent only after it exceeds 50 fields, and never holds more than 54 |
| Readout.Batch | SensorXmpp/App.xaml.cs:348-352 | defines the batching: before each record's group, more than 50 pending fields are reported, not done, and cleared (facts: `BatchKeepsFields`, `BatchSizes`) |
| Readout.ReportRecords | SensorXmpp/App.xaml.cs:343-376 | the record loop sends exactly `Batch` of the records' field groups |
| Readout.AddRecordFields | SensorXmpp/App.xaml.cs:354-376 | a record's present measures are appended to the pending fields |
| Readout.LightField | ConcentratorXmpp/App.xaml.cs:587-589 | defines the light field of a momentary event: the level in "%", stamped |
| Readout.MotionField | ConcentratorXmpp/App.xaml.cs:231-233 | defines a momentary motion field: the state, stamped |
| Readout.MomentaryFields | SensorXmpp/App.xaml.cs:323-336 | at most three momentary fields: light exactly when known, motion exactly when known, identity exactly when asked |
| Readout.AllFieldsMembers | SensorXmpp/App.xaml.cs:343-376 | a field is reported for a resolution exactly when some record gives it |
| Readout.ReportResolution | SensorXmpp/App.xaml.cs:379-413 | one resolution's fields are all reported in order, in batches of 51 to 54 |
| Readout.ReportMinutes | ConcentratorXmpp/Topology/SensorNode.cs:145-185 | the minute fields in order; the node flushes what is left before the hour records |
| Readout.ReportHoursAndDays | SensorXmpp/App.xaml.cs:379-452 | hour then day fields after the pending ones, ending with the one done report |
| Readout.ReportHistory | SensorXmpp/App.xaml.cs:343-452 | all minute, hour and day fields in order, in bounded batches, the last one done |
| Readout.ReadoutFields | SensorXmpp/App.xaml.cs:314-458 | momentary fields first, then every queried historical field in order, the last report done |
| Readout.HistoricalFields | SensorXmpp/App.xaml.cs:338-452 | defines the historical fields of the queried minute, hour and day records, in that order (facts: `AllFieldsMembers`, `ReportHistory`) |
| SensorHttpApp.App.constructor | SensorHttp/App.xaml.cs:62-78 | no light level or movement known, empty engine |
| SensorHttpApp.App.Tick | SensorHttp/App.xaml.cs:519-524 | a published level becomes the last light level; the engine advances as `Engine.Sampler.Tick` |
| SensorHttpApp.App.DigitalPinUpdated | SensorHttp/App.xaml.cs:189-195 | a change on pin 0 becomes the last movement state |
| SensorHttpApp.App.LightText | SensorHttp/App.xaml.cs:982-991 | empty when unknown, otherwise the formatted level followed by "%" |
| SensorHttpApp.App.MovementText | SensorHttp/App.xaml.cs:993-1002 | "Detected", "Not detected" or empty, exactly as the state is true, false or unknown |
| SensorHttpApp.App.LastMinutes | SensorHttp/App.xaml.cs:1011-1019 | the minute records sorted by timestamp, none lost or added |
| SensorHttpApp.App.LastHours | SensorHttp/App.xaml.cs:1028-1036 | the hour records sorted by timestamp, none lost or added |
| SensorHttpApp.App.LastDays | SensorHttp/App.xaml.cs:1045-1053 | the day records sorted by timestamp, none lost or added |
| SensorHttpApp.CollectSorted | SensorHttp/App.xaml.cs:1011-1019 | the sorted collection is ordered by time and a permutation of the store |
| SensorXmppApp.App.constructor | SensorXmpp/App.xaml.cs:52-71 | nothing known, nothing published and no momentary events yet |
| SensorXmppApp.App.PublishMomentaryValues | SensorXmpp/App.xaml.cs:479-500 | returns before publishing anything |
| SensorXmppApp.App.Tick | SensorXmpp/App.xaml.cs:606-635 | a published level becomes the last light level and goes out as a momentary light event; `lastPublish` never moves; the engine advances as `Engine.Sampler.Tick` |
| SensorXmppApp.App.DigitalPinUpdated | SensorXmpp/App.xaml.cs:183-195 | every update of pin 0 becomes the last motion state and goes out as a momentary motion event stamped with `lastPublish`; other pins change nothing |
| SensorXmppApp.App.ExecuteReadout | SensorXmpp/App.xaml.cs:314-458 | momentary fields, then every historical field in batches of 51 to 54, the last report done |
| SensorMqttApp.LightThrottle | SensorMqtt/App.xaml.cs:489-492 | light is published when none was published yet, 15 s or more after the last publication, or on a change of at least 1 |
| SensorMqttApp.MovementThrottle | SensorMqtt/App.xaml.cs:519-522 | movement is published when none was published yet, on a change, or unchanged 15 s or more after the last publication |
| SensorMqttApp.LightDue | SensorMqtt/App.xaml.cs:489-492 | defines the light throttle (facts: `LightThrottle`) |
| SensorMqttApp.MovementDue | SensorMqtt/App.xaml.cs:519-522 | defines the movement throttle (facts: `MovementThrottle`) |
| SensorMqttApp.JsonText | SensorMqtt/App.xaml.cs:534-559 | the summary is a JSON object starting with the timestamp |
| SensorMqttApp.App.constructor | SensorMqtt/App.xaml.cs:62-67 | nothing known, nothing published, an empty engine |
| SensorMqttApp.App.PublishLastJson | SensorMqtt/App.xaml.cs:534-559 | one JSON summary of the last values is published |
| SensorMqttApp.App.PublishLight | SensorMqtt/App.xaml.cs:483-506 | a due light level is published with a JSON summary and remembered; otherwise nothing is sent |
| SensorMqttApp.App.PublishMovement | SensorMqtt/App.xaml.cs:513-532 | a due movement state is published with a JSON summary and remembered; otherwise nothing is sent |
| SensorMqttApp.App.Tick | SensorMqtt/App.xaml.cs:285-323 | the engine advances with an integer motion average; a published level becomes the last light level, and exactly when it is due (`LightDue`) and the client is connected it is published with a JSON summary and its value and time are remembered; otherwise nothing is sent; movement state is untouched |
| SensorMqttApp.App.DigitalPinUpdated | SensorMqtt/App.xaml.cs:171-177 | a change on pin 0 becomes the movement state, and exactly when it is due (`MovementDue`) and the client is connected it is published with a JSON summary of the last light and the new state and remembered; other pins change nothing |
| SensorLwm2mApp.MomentaryFormat | SensorLwm2m/App.xaml.cs:297-311 | XML, then JSON, then plain text as accepted; plain text when no format is named; Not Acceptable otherwise |
| SensorLwm2mApp.App.constructor | SensorLwm2m/App.xaml.cs:320-326 | six distinct IPSO instances with no value, an empty engine |
| SensorLwm2mApp.App.SetLightInstances | SensorLwm2m/App.xaml.cs:600-608 | every light instance holds the level |
| SensorLwm2mApp.App.Tick | SensorLwm2m/App.xaml.cs:600-608 | a published level becomes the last light level and the value of every light instance |
| SensorLwm2mApp.App.DigitalPinUpdated | SensorLwm2m/App.xaml.cs:193-206 | pin 0 sets the motion state, the digital input (counting rising edges) and the generic sensor as 1 or 0 |
| SensorLwm2mApp.App.LightResource | SensorLwm2m/App.xaml.cs:265-276 | "-" exactly when no level is known, otherwise the level followed by " %" |
| SensorLwm2mApp.App.MotionResource | SensorLwm2m/App.xaml.cs:281-293 | "-", "true" or "false" exactly as the state is unknown, true or false |
| SensorLwm2mApp.App.Momentary | SensorLwm2m/App.xaml.cs:297-311 | Not Acceptable exactly when negotiation fails, otherwise a rendering in the negotiated format |
| ConcentratorXmppApp.PublishThrottle | ConcentratorXmpp/App.xaml.cs:603-609 | `PublishMomentaryValues` does not run within 5 s of its last run; between 5 and 60 s it runs only on a change of at least 1; after 60 s always |
| ConcentratorXmppApp.PublishDue | ConcentratorXmpp/App.xaml.cs:603-609 | defines the tick's test for running `PublishMomentaryValues` (facts: `PublishThrottle`) |
| ConcentratorXmppApp.App.constructor | ConcentratorXmpp/App.xaml.cs:75-82 | nothing known, nothing published, no momentary events, an empty engine |
| ConcentratorXmppApp.App.PublishMomentaryValues | ConcentratorXmpp/App.xaml.cs:393-415 | when connected with both values known, the publication time and level are recorded; otherwise nothing changes; nothing is sent |
| ConcentratorXmppApp.App.Tick | ConcentratorXmpp/App.xaml.cs:578-609 | a published level becomes the last light level and goes out as a momentary light event on every publishing tick; `PublishMomentaryValues` records it exactly when due, connected and motion known; the engine advances as `Engine.Sampler.Tick` |
| ConcentratorXmppApp.App.DigitalPinUpdated | ConcentratorXmpp/App.xaml.cs:219-234 | only a new motion state on pin 0 is recorded; it runs `PublishMomentaryValues` and goes out as a momentary motion event stamped with `lastPublished` as that left it |
| ConcentratorXmppApp.StartReadout | ConcentratorXmpp/Topology/SensorNode.cs:116-266 | momentary fields first, then the queried minute fields, flushed, before hour and day fields; motion unit "%" |
| ControllerXmppApp.IndexOf | ControllerXmpp/App.xaml.cs:900 | the first position of the character, or −1 exactly when absent |
| ControllerXmppApp.Lower | ControllerXmpp/App.xaml.cs:904 | the key is lower-cased character by character |
| ControllerXmppApp.GetReference | ControllerXmpp/App.xaml.cs:887-922 | the loop's reference equals the fold `ApplyAll` of `Apply` over the groups, from the empty reference |
| ControllerXmppApp.ApplyAllAppend | ControllerXmpp/App.xaml.cs:895-919 | reading groups in two parts reads them in one pass |
| ControllerXmppApp.Apply | ControllerXmpp/App.xaml.cs:897-917 | defines one group's effect on the reference being read (facts: `ForeignGroupsIgnored`, `KeyGroupRead`) |
| ControllerXmppApp.ApplyAll | ControllerXmpp/App.xaml.cs:895-919 | defines the reference read from groups in order (facts: `ApplyAllAppend`, `ReferenceGroupsRead`, `AddThenGet`) |
| ControllerXmppApp.ForeignGroupsIgnored | ControllerXmpp/App.xaml.cs:897 | groups without the prefix change nothing |
| ControllerXmppApp.UnprefixedMembers | ControllerXmpp/App.xaml.cs:1214-1228 | exactly the groups not starting with the prefix are kept |
| ControllerXmppApp.UnprefixedAppend | ControllerXmpp/App.xaml.cs:1218-1225 | filtering distributes over concatenation |
| ControllerXmppApp.UnprefixedIdempotent | ControllerXmpp/App.xaml.cs:1214-1228 | removing a reference twice equals removing it once |
| ControllerXmppApp.Unprefixed | ControllerXmpp/App.xaml.cs:1218-1225 | defines the groups without the prefix, in order (facts: `UnprefixedMembers`, `UnprefixedAppend`, `UnprefixedIdempotent`) |
| ControllerXmppApp.RemoveReference | ControllerXmpp/App.xaml.cs:1214-1228 | the loop keeps the groups without the prefix, none for missing groups |
| ControllerXmppApp.AddReference | ControllerXmpp/App.xaml.cs:924-950 | the loop returns the prefix, the non-empty key groups and the other groups |
| ControllerXmppApp.WithReference | ControllerXmpp/App.xaml.cs:924-950 | defines what `AddReference` returns (facts: `AddThenGet`, `AddThenRemove`) |
| ControllerXmppApp.IndexOfFirst | ControllerXmpp/App.xaml.cs:900 | the separator is found at the end of a key without one |
| ControllerXmppApp.KeyGroupRead | ControllerXmpp/App.xaml.cs:904-917 | a "nid", "sid" or "prt" group sets exactly that part |
| ControllerXmppApp.KeyGroupParts | ControllerXmpp/App.xaml.cs:897-907 | a key group starts with the prefix and a dot, and splits at its first colon into key and value |
| ControllerXmppApp.KeyGroupsRead | ControllerXmpp/App.xaml.cs:931-938 | an empty part writes no group; a non-empty one is read back |
| ControllerXmppApp.ReferenceGroupsRead | ControllerXmpp/App.xaml.cs:924-939 | the groups written for a reference read back as it |
| ControllerXmppApp.PrefixedRemoved | ControllerXmpp/App.xaml.cs:1222 | groups that all carry the prefix are all removed |
| ControllerXmppApp.AddThenGet | ControllerXmpp/App.xaml.cs:924-950 | a reference added to any groups reads back unchanged |
| ControllerXmppApp.AddThenRemove | ControllerXmpp/App.xaml.cs:924-950 | adding then removing a reference leaves the other groups as removing alone would |
| ControllerXmppApp.RemovedReadsEmpty | ControllerXmpp/App.xaml.cs:1214-1228 | after removal the reference reads as empty |
| ControllerXmppApp.LightFromPercentFields | ControllerXmpp/App.xaml.cs:1083-1107 | the light level is unchanged or comes from the last "Light" field with unit "%" |
| ControllerXmppApp.Absorb | ControllerXmpp/App.xaml.cs:1087-1107 | defines one received field's effect on the readings (facts: `LightFromPercentFields`) |
| ControllerXmppApp.AbsorbAll | ControllerXmpp/App.xaml.cs:1083-1107 | defines the readings after the fields in order (facts: `LightFromPercentFields`) |
| ControllerXmppApp.DesiredOutput | ControllerXmpp/App.xaml.cs:1112 | the output is on exactly when there is motion and light below 25 |
| ControllerXmppApp.Ceiling | ControllerXmpp/App.xaml.cs:746 | `Math.Ceiling` gives the least integer not below its argument |
| ControllerXmppApp.SearchDelay | ControllerXmpp/App.xaml.cs:741-767 | the search runs once a minute has elapsed, otherwise it is delayed by at least 1 ms |
| ControllerXmppApp.DelayedSearchRuns | ControllerXmpp/App.xaml.cs:744-762 | a delayed search runs when its timer fires |
| ControllerXmppApp.Controller.constructor | ControllerXmpp/App.xaml.cs:52-64 | nothing known, no friends, no output, nothing sent or updated; the event and output times start at construction and the last search at `DateTime.MinValue` |
| ControllerXmppApp.Controller.OnFieldsReceived | ControllerXmpp/App.xaml.cs:1077-1147 | the readings absorb the fields (`AbsorbAll`) and the event time is recorded; a command is sent, and the output time recorded, exactly when a reading changed, both are known, an actuator JID is known and online, and the desired output differs from the last sent |
| ControllerXmppApp.Controller.FindFriends | ControllerXmpp/App.xaml.cs:741-786 | within a minute of the last search only a delay is returned and nothing changes; otherwise the search is timed and the sensor and actuator become the last roster entries in groups "Sensor" and "Actuator" (`LastInGroup`), with the references their groups hold, or none |
| ControllerXmppApp.Controller.OnErrorsReceived | ControllerXmpp/App.xaml.cs:1149-1157 | the time of the errors is recorded and nothing else changes |
| ControllerXmppApp.Controller.SecondTimer | ControllerXmpp/App.xaml.cs:1159-1212 | with a subscription and more than 70 s without events only the subscription is renewed; otherwise after a day without events a known sensor, and after a day without output a known actuator, is dropped: JID and reference cleared, then its roster entry updated (`StaleUpdate`) with a null JID and its groups without the reference; a dropped friend starts a new search |
| ControllerXmppApp.Lookup | ControllerXmpp/App.xaml.cs:1177 | the roster entry of a JID is found exactly when one has that bare JID, and is then such an entry |
| ControllerXmppApp.LastInGroupFacts | ControllerXmpp/App.xaml.cs:773-786 | the scan finds nothing exactly when no entry is in the group, and otherwise an entry in the group after which none is |
| ControllerXmppApp.StaleUpdateHasNoJid | ControllerXmpp/App.xaml.cs:1175-1200 | a stale friend gives at most one roster update; it names no JID, carries the friend's entry name, and exactly the entry's groups not starting with the prefix |

## Left out

- Hardware and operating-system I/O are not modelled: the Arduino over USB, the pin reads, timers and their overlapping callbacks, the user interface and log output. Pin readings and the clock are method parameters.
- The object database is an in-memory sequence per resolution. Persistence, object identifiers and database failures are not modelled.
- The transport plumbing is not modelled: XMPP, MQTT, CoAP, LWM2M and HTTP connections, registration, roster and presence handling, and `TriggerAll` and `AfterRegister` notifications. A connection state or an "actuator online" flag is a parameter where it decides behaviour.
- `PresenceSensorInstance` (IPSO 3302, created at SensorLwm2m/App.xaml.cs:325 and set on each motion change at :202) is not modelled.
- ConcentratorXmpp `FindDevice` and node registration are plumbing. Its `SetPresence` call in `PublishMomentaryValues` is commented out in the program, so that method sends nothing.
- The momentary events are recorded as the fields given to `NewMomentaryValues` (ConcentratorXmpp/App.xaml.cs:231 and 587, SensorXmpp/App.xaml.cs:192 and 619). Their delivery to subscribers is XMPP plumbing. The events are recorded even when the server does not exist yet, which the `?.` calls skip.
- ControllerXmpp friends: the roster is a parameter; the subscription to the sensor, the thing-registry search and registration that follow a search or a dropped friend are not modelled (`resubscribe` and `search` only say that they start). Clearing a JID when a friend removes the friendship (ControllerXmpp/App.xaml.cs:961-981) and the request to the actuator for its state are presence plumbing, not modelled.
- ControllerXmppApp.Lookup: JIDs are compared exactly; the case-insensitive lookup of the roster is not modelled.
- ControllerXmppApp.Controller.OnFieldsReceived: whether the actuator's roster entry is online is the parameter `actuatorOnline`.
- Text formatting of numbers (`ToString("F2")`), of booleans and of timestamps (`ToString("s")` and `XmlConvert`) is a parameter or a symbolic name, not the .NET formatter. Doubles are real numbers, with no IEEE rounding.
- Calendar and time zone are not modelled: a day is 86 400 seconds and there is no daylight-saving time.
- ControllerXmppApp.Lower: lower-cases only A–Z, as the keys compared against are ASCII; culture rules are not modelled.
- ControllerXmppApp.Apply, ControllerXmppApp.Unprefixed and ControllerXmppApp.WithReference: the roster-group prefix test is ordinal (`prefix <= group`). The program's `StartsWith(Prefix)` compares by the current culture and can ignore zero-width characters, and `Substring(Prefix.Length)` then cuts at a different place. These culture rules are not modelled.
- Ipso.OnTimeRoundTrip: proved for non-negative on-times only; a negative written value is left out.
- Ipso.ActuationInstance: a remote on/off update through LWM2M (ActuationInstance.cs lines 29-42) does not restart `lastSet`; the remote-write event plumbing is not modelled.
- SensorLwm2mApp.App.Momentary and Payload.Render: only the header and closer are stated about the rendered text; the item texts are given by their rendering functions.
- SensorMqttApp.JsonText: only the header and closing brace are stated; the movement text is kept symbolic.
- SensorLwm2mApp.App.constructor: the instances start with no value; the startup read of the sensors into them is not modelled.
- The SensorMqtt log sniffer and the other user-interface pieces are not modelled.
