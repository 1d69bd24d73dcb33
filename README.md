# IoT sensor listener: save/skip decision model

A Dafny model of the message handler of an MQTT-to-MySQL bridge (`server.js`).
Each MQTT message carries one JSON reading from a room sensor. The reading has three continuous
values: temperature (`suhu`), `gas` and smoke (`asap`). It also has four discrete ones: fire status
(`status_api`), fan (`kipas`), `buzzer` and pump (`pompa`). The handler
compares the reading with the last one it recorded (`lastReceivedData`). It inserts the
reading into `sensor_data` only when one of these holds:

- it is the first reading, detected by a `null` temperature in the record;
- a discrete field differs by strict inequality;
- a continuous value moved by at least its threshold (temperature 2.0, gas 10, smoke 5; inclusive).

After the insert, the handler overwrites the record with the reading.

Modules:

- `Wrappers` (`wrappers.dfy`): `Option`.
- `Telemetry` (`telemetry.dfy`): `Reading`, the record `Baseline` as the JavaScript object it is
  (seven nullable fields, all `null` at start), and the seven values bound to the insert's
  placeholders.
- `Classifier` (`classifier.dfy`): the thresholds and `Classify` as a pure function, with lemmas for
  each decision rule.
- `Ingestion` (`ingestion.dfy`): one run of the handler as the function `Step`, the serial run over
  a message sequence `Run`, the class `Listener` whose `Handle` method changes the record in place,
  and lemmas about sequences of messages.

The handler's `try` covers parsing, the three awaited database calls
(`createConnection`, `execute`, `end`) and the baseline update. An exception anywhere
jumps to the `catch`, which only logs. So:

- a payload that does not parse changes nothing;
- a save whose database work fails leaves the baseline at the older record, and the handler carries
  on with the next message without retrying;
- if only `end()` fails, the row has already been written but the baseline is still not updated.
  The same reading delivered again is written a second time (`CloseFailureDuplicatesRow`).

A skipped reading does become the baseline. The baseline is therefore the last reading that got through
to line 112, not the last one saved, so a slow drift in small steps is never recorded
(`SmallStepsAreNotRecorded`, illustrated by `DriftIsNotRecorded`).

## Model

| member | source | states |
|---|---|---|
| Telemetry.Of | server.js:112 | the record after `lastReceivedData = newData` has a non-null temperature, so, with the sensor values of a parsed payload taken to be numbers, it is never again the initial record |
| Telemetry.OfInjective | server.js:112 | the record determines the reading it was set from |
| Telemetry.ToNumber | server.js:78-80 | JavaScript's conversion of a recorded value inside `-`: a number is itself, `null` is 0 |
| Telemetry.Values | server.js:98-103 | seven placeholder values; the i-th is the reading's field named by the i-th column of the insert's column list |
| Telemetry.ValuesRoundTrip | server.js:98-103 | a written row reads back as exactly the reading it came from |
| Telemetry.ValuesInjective | server.js:98-103 | different readings give different rows |
| Classifier.Abs | server.js:78-80 | `Math.abs`: non-negative and equal to the argument or its negation |
| Classifier.IsStateChange | server.js:71-75 | true exactly when the reading's (status, fan, buzzer, pump) differs from the record's |
| Classifier.IsSignificantJump | server.js:77-80 | false exactly when every sensor's delta lies strictly inside (−threshold, threshold) |
| Classifier.Classify | server.js:60-89 | Save(FirstReading) exactly when the recorded temperature is null; otherwise Skip exactly when no discrete field differs and every delta is below its threshold; a state change takes precedence over a jump as the reason |
| Classifier.FirstReadingIsSaved | server.js:67-69 | with no recorded temperature (as in the initial record), every reading is saved as the first |
| Classifier.StateChangeIsSaved | server.js:71-84 | against a recorded reading, a difference in any one of fan, buzzer, pump or fire status saves, whatever the sensor values |
| Classifier.JumpIsSavedIffAtThreshold | server.js:61-88 | with equal discrete state, saved if and only if some sensor moved by at least 2.0 / 10 / 5 |
| Classifier.ThresholdIsInclusive | server.js:77-80 | a jump of exactly the threshold, up or down, saves |
| Classifier.BelowThresholdsIsSkipped | server.js:65-88 | equal discrete state and all deltas strictly below the thresholds: skipped |
| Classifier.RepeatIsSkipped | server.js:65-88 | a reading identical to the recorded one is skipped |
| Classifier.ConcreteScenario | server.js:61-88 | from {25.0, 50, 10, "OK", 0, 0, 0}: temperature 27.0 saves as a jump, 26.9 is skipped |
| Ingestion.Step | server.js:53-117 | a parse failure changes nothing; a row is appended exactly when the reading is classified Save and the insert statement succeeds, and it is that reading's row; the baseline becomes the reading exactly when it parsed and was skipped or fully saved; the outcome is Dropped exactly for a parse failure, Saved exactly when a Save fully succeeds, SaveFailed (with the database outcome) exactly when a Save's database work fails, with the classifier's reason; a failed save keeps the old baseline |
| Ingestion.Run | server.js:53-117 | serial handling never removes or rewrites rows and adds at most one row per message |
| Ingestion.StepKeepsWellFormed | server.js:22-30 | the record is always either the all-null initial record or a full reading |
| Ingestion.RecordedHasNoNulls | server.js:78-80 | in a reachable record with a recorded temperature, gas and smoke are recorded too, so the jump test never subtracts a `null` |
| Ingestion.BaselineIsLastCommitted | server.js:57-116 | after any message sequence the baseline is the reading of the last message that reached the baseline update, or the starting record if none did |
| Ingestion.RowsComeFromMessages | server.js:91-110 | every row added is the insert of some delivered reading |
| Ingestion.DecodeFailureIsIsolated | server.js:57-116 | an unparseable payload leaves the state unchanged, so a following repeat of the recorded reading is still skipped |
| Ingestion.FailedSaveKeepsOldBaseline | server.js:106-116 | a save whose database work fails keeps the old baseline; the next message is classified against that record, and the same reading again is not skipped |
| Ingestion.CloseFailureDuplicatesRow | server.js:106-112 | when only closing the connection fails, the reading is written, the baseline stays, and a redelivery writes it again |
| Ingestion.SkipAdvancesBaseline | server.js:91-112 | a skipped reading becomes the baseline and writes nothing |
| Ingestion.SmallStepsAreNotRecorded | server.js:77-112 | from a recorded reading, any run of parsed messages with the same discrete state, each below every threshold relative to the one before, writes no row whatever the database would answer, and leaves the last reading as the baseline however far it has drifted |
| Ingestion.DriftIsNotRecorded | server.js:77-112 | readings 26.5 then 28.0 after a recorded 25.0 are both skipped, though 28.0 is a 3.0 jump from the last saved reading |
| Ingestion.Listener.constructor | server.js:22-30 | the process starts with the all-null record and writes nothing |
| Ingestion.Listener.Handle | server.js:53-117 | one message changes the record and the table exactly as `Step` says, keeping the record well formed |

## Left out

- MQTT connection, subscription, error and close events (`server.js:39-51`, `120-126`): transport wiring. Messages arrive as a sequence.
- Environment configuration and the start-up exit when database settings are missing (`server.js:8-18`, `32-36`).
- JSON parsing: a payload is given as already parsed (`Some(reading)`) or as unparseable (`None`). A parsed payload is assumed to carry all seven fields; `undefined` fields, and the `NaN` they cause in `Math.abs`, are not modelled.
- Discrete fields are JSON primitives compared structurally. Objects or arrays, which `!==` compares by reference, are not modelled.
- A parsed payload's sensor values (`suhu`, `gas`, `asap`) are taken to be numbers. A JSON `null` there is not modelled: line 112 would store a `null` temperature, and line 67 would then treat the next reading as a first reading; a `null` gas or smoke value would count as 0 in the subtraction at lines 79-80.
- Sensor values are mathematical reals, not IEEE doubles: rounding at the threshold boundary is not modelled.
- The SQL text, the connection lifecycle and the driver: each insert is a single given outcome (connect, execute or close failure, or success). The database is a ghost sequence of rows. The `waktu` column filled by `NOW()` and the returned `insertId` are not modelled (clock and server-assigned identity).
- Console logging, including the logged reason; the reason is kept in the decision and the outcome.
- Concurrency: the handler is `async`, and its awaits let another message start before the current one reaches line 112. The model handles messages strictly one at a time.
