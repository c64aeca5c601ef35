# HopkinsPD Android: capture streams, test orchestration and the medication log

HopkinsPD is an Android app that runs timed assessments for Parkinson's
disease and records sensor streams. This project models four of its parts
and proves properties of them.

- **The reaction-test touch recorder** (`ReactCapture`). Every touch event
  during a recording becomes a frame of five channels: time in seconds, X,
  Y, whether the button is visible, and whether it is pressed. Frames go
  into a buffer of 100 rows. A full buffer is written to the session's file
  as one batch. Stopping writes the partly filled buffer and closes the
  file. The model proves that the batches of a session, read back in
  order, are exactly its frames in arrival order. There are N/100 full
  batches, then one remainder batch when N is not a multiple of 100.
- **The ambient-light stream writer** (`LightWriter`). While recording,
  each light reading is written as the frame [seconds since the previous
  reading, lux]. The model proves that the deltas written to one stream
  file add up to the time of the last reading minus the file's start. It
  also states the start, stop, restart and destroy state machine and its
  text-log lines.
- **Test orchestration** (`TestConfig`, `BalanceTestConfig`).
  - The enabled tests are an order-preserving selection from a fixed
    table of 13 tests, picked by boolean preferences.
  - The list is computed on first use and cached afterwards, together with
    the gyroscope switch taken from the gait preference.
  - The balance test starts an accelerometer capture, and a gyroscope
    capture when that switch is on. Completing or cancelling it stops and
    releases the captures.
- **The medication/dose selection** (`MedDoseAdapter`).
  - Selections are a map from medication to (status, dose).
  - They are stored in one preference as `med;status;dose` records joined
    by `|`, and read back with Java's `String.split` semantics, which the
    model writes out.
  - The model proves that loading what was saved gives the same map,
    whatever order the hash map visits its keys in.
  - An update reports whether the checked status changed, and saves only
    when the entry really changed.

Modules: `Wrappers` (Option, Result), `Streams` (frames and the stream file
sink), `ReactCapturing`, `LightStream`, `TestConfigs`, `BalanceTesting`,
`JavaStrings` (split and join), `MedDose`.

Modelling choices:

- **Stream files.** A stream file is an object that records the batches
  written to it, in order, and whether it is closed.
- **Preferences.** The boolean preferences are a total function from test
  name to bool.
- **Stored selection and update date.** These are fields of a
  `Preferences` object.
- **Clocks.** Every clock reading is a millisecond parameter. Seconds are
  that value divided by 1000, as a real.
- **Doubles and NaN.** Doubles are reals, and a NaN channel is the
  `Channel.NaN` value.
- **Stopping the touch recorder twice.** `stopRecording` does not reset the
  buffer count. A second stop therefore writes the same remainder again to
  the already closed file, and the contract of
  `ReactCapturing.ReactCapture.StopRecording` says so. What the file service
  does with such a write is not part of this model.

## Model

| member | source | states |
|---|---|---|
| `Streams.FlattenAppend` | src/edu/jhu/hopkinspd/test/ReactCapture.java:91-96 | writing one more batch adds its frames after all earlier ones |
| `Streams.Rows` | src/edu/jhu/hopkinspd/test/ReactCapture.java:94 | the frames a write of the first n buffer rows sends: n rows, each holding every channel of its buffer row |
| `Streams.RowsAre` | src/edu/jhu/hopkinspd/test/ReactCapture.java:85-94 | a frame sequence that agrees with the buffer cell by cell is what the write sends |
| `Streams.CloseStreamFile` | src/edu/jhu/hopkinspd/stream/LightWriter.java:95 | closing reports true exactly when there is a file, and closes it without writing |
| `ReactCapturing.TouchFrame` | src/edu/jhu/hopkinspd/test/ReactCapture.java:67-89 | five channels. Time is millis/1000. Button-visible is 1 iff buttonStatus, else 0. Without an event, X, Y and pressed are NaN. With one, X and Y are the event's, and pressed is 1 iff the action is DOWN or MOVE, else 0 |
| `ReactCapturing.BatchesFlatten` | src/edu/jhu/hopkinspd/test/ReactCapture.java:91-96 | the batches read back in order are exactly the recorded frames |
| `ReactCapturing.BatchesShape` | src/edu/jhu/hopkinspd/test/ReactCapture.java:18 | for n frames there are n/100 full batches of 100, then one batch of n mod 100 frames if that is non-zero |
| `ReactCapturing.BatchesAppend` | src/edu/jhu/hopkinspd/test/ReactCapture.java:56-59 | frames recorded after a whole number of full buffers are batched on their own, so the final remainder write completes the batching |
| `ReactCapturing.ReactCapture.constructor` | src/edu/jhu/hopkinspd/test/ReactCapture.java:29-35 | not recording, buffer count 0, a fresh 100×5 buffer, no file |
| `ReactCapturing.ReactCapture.StartRecording` | src/edu/jhu/hopkinspd/test/ReactCapture.java:41-49 | a fresh "react" file for the start time, buffer count 0, recording on |
| `ReactCapturing.ReactCapture.StopRecording` | src/edu/jhu/hopkinspd/test/ReactCapture.java:51-61 | recording off. The remaining buffered frames are written only if there are some. The file is closed. The count is kept. After a recording, the file holds exactly the batches of every recorded frame |
| `ReactCapturing.ReactCapture.PutFrame` | src/edu/jhu/hopkinspd/test/ReactCapture.java:85-89 | the frame goes into row bufferItems, and every other row is unchanged |
| `ReactCapturing.ReactCapture.HandleTouchEvent` | src/edu/jhu/hopkinspd/test/ReactCapture.java:63-99 | always returns true. When not recording, nothing changes. When recording: exactly one row is written with the frame, and the count becomes (count+1) mod 100. When the buffer fills, the 100 frames are written as one batch; otherwise nothing is written. The invariant 0 ≤ count < 100 is kept |
| `ReactCapturing.SessionFramesAt` | src/edu/jhu/hopkinspd/test/ReactCapture.java:63-91 | one frame per event, the j-th made from the j-th event |
| `ReactCapturing.SessionBatches` | src/edu/jhu/hopkinspd/test/ReactCapture.java:56-59 | a session's batches concatenate to its frames in arrival order; their number is N/100 plus one when N mod 100 ≠ 0 |
| `ReactCapturing.FeedEvents` | src/edu/jhu/hopkinspd/test/ReactCapture.java:63-99 | feeding events to a recording session records exactly their frames, in order |
| `ReactCapturing.RecordSession` | src/edu/jhu/hopkinspd/test/ReactCapture.java:41-99 | start, N events, stop: the closed file holds the batches of the N frames |
| `LightStream.LightFrames` | src/edu/jhu/hopkinspd/stream/LightWriter.java:120-128 | one two-channel frame per reading: [time − previous reading's time (the session start for the first), lux] |
| `LightStream.LightFramesSnoc` | src/edu/jhu/hopkinspd/stream/LightWriter.java:120-128 | a new reading adds one frame whose delta is measured from the last reading or the session start, and becomes the new reference |
| `LightStream.DeltasTelescope` | src/edu/jhu/hopkinspd/stream/LightWriter.java:120-122 | the deltas of a session sum to the last reading's time minus the session start |
| `LightStream.SensorManager.RegisterListener` | src/edu/jhu/hopkinspd/stream/LightWriter.java:70 | the listener is registered at the given rate |
| `LightStream.SensorManager.UnregisterListener` | src/edu/jhu/hopkinspd/stream/LightWriter.java:76 | the listener is no longer registered |
| `LightStream.LightWriter.constructor` | src/edu/jhu/hopkinspd/stream/LightWriter.java:56-66 | the configured rate and manager, the light sensor, no stream, the "Created … instance" log line |
| `LightStream.LightWriter.Init` | src/edu/jhu/hopkinspd/stream/LightWriter.java:68-72 | registers this writer at the configured rate |
| `LightStream.LightWriter.Destroy` | src/edu/jhu/hopkinspd/stream/LightWriter.java:74-79 | unregisters, and sets the manager and the sensor to null; nothing else changes |
| `LightStream.LightWriter.Start` | src/edu/jhu/hopkinspd/stream/LightWriter.java:81-90 | the clock reference is the start time in seconds. A fresh "light" file for that time is opened, or none when it cannot be opened. Recording is on, and the "started" line is logged |
| `LightStream.LightWriter.Stop` | src/edu/jhu/hopkinspd/stream/LightWriter.java:92-99 | recording off, the stream closed and kept; the "stopped" line is logged only when there was a stream to close |
| `LightStream.LightWriter.Restart` | src/edu/jhu/hopkinspd/stream/LightWriter.java:101-111 | the new file is opened before the old one is closed. The clock reference moves to the new time. The recording state is unchanged. The "restarted" line is logged only when the old stream was closed |
| `LightStream.LightWriter.OnSensorChanged` | src/edu/jhu/hopkinspd/stream/LightWriter.java:113-130 | changes nothing unless there is a stream and recording is on. In that case it writes [now − previous, values[0]], and now becomes the reference |
| `LightStream.LightWriter.WriteReading` | src/edu/jhu/hopkinspd/stream/LightWriter.java:117-128 | the recording branch: one frame appended, the reference moved, the stream invariant kept |
| `LightStream.LightWriter.WrittenDeltasTelescope` | src/edu/jhu/hopkinspd/stream/LightWriter.java:117-128 | the deltas written to the current file sum to the clock reference minus the file's start |
| `LightStream.LightWriter.ToString` | src/edu/jhu/hopkinspd/stream/LightWriter.java:132-134 | always the stream name "light" |
| `TestConfigs.TablesParallel` | src/edu/jhu/hopkinspd/test/conf/TestConfig.java:14-44 | the name table and the test table are parallel, 13 entries each |
| `TestConfigs.EnabledSelection` | src/edu/jhu/hopkinspd/test/conf/TestConfig.java:64-69 | the enabled list is the table entries at strictly increasing positions; a position is chosen iff its test's preference is set |
| `TestConfigs.AllEnabledIsTable` | src/edu/jhu/hopkinspd/test/conf/TestConfig.java:64-69 | with every preference set, the list is the whole table in order |
| `TestConfigs.NoneEnabledIsEmpty` | src/edu/jhu/hopkinspd/test/conf/TestConfig.java:64-69 | with no preference set, the list is empty |
| `TestConfigs.TestConfigStatics.constructor` | src/edu/jhu/hopkinspd/test/conf/TestConfig.java:57-58 | no cached list, gyroscope switch off |
| `TestConfigs.TestConfigStatics.EnabledBounded` | src/edu/jhu/hopkinspd/test/conf/TestConfig.java:60-73 | a cached list, like a fresh one, has at most 13 entries, because the cache only ever holds a list the preferences produced |
| `TestConfigs.TestConfigStatics.GetEnabledTests` | src/edu/jhu/hopkinspd/test/conf/TestConfig.java:60-73 | the first call builds the filtered list and sets the gyroscope switch from the gait preference. Later calls return the cached list and leave the switch alone, whatever the preferences now say |
| `TestConfigs.TestConfigStatics.GetNumberOfTests` | src/edu/jhu/hopkinspd/test/conf/TestConfig.java:75-78 | the size of the enabled list, at most 13, on every call. The first call caches the list built from the preferences and sets the gyroscope switch from the gait preference. Later calls keep the cached list and the switch |
| `TestConfigs.TestConfigStatics.GetTestConfig` | src/edu/jhu/hopkinspd/test/conf/TestConfig.java:80-83 | the n-th enabled test when 0 ≤ n < size, otherwise None (the lookup throws). Like the other lookups, the first call caches the list and sets the gyroscope switch from the gait preference, and later calls keep both |
| `BalanceTesting.Capture.Call` | src/edu/jhu/hopkinspd/test/conf/BalanceTestConfig.java:63 | each call on a capture is recorded after the earlier ones |
| `BalanceTesting.StopAndDestroy` | src/edu/jhu/hopkinspd/test/conf/BalanceTestConfig.java:73-74 | stop, then destroy |
| `BalanceTesting.BalanceTestConfig.constructor` | src/edu/jhu/hopkinspd/test/conf/BalanceTestConfig.java:42-57 | pause before 5, pause after 0, capture 20, both vibrations on, the help link, both capture slots empty |
| `BalanceTesting.BalanceTestConfig.RunTest` | src/edu/jhu/hopkinspd/test/conf/BalanceTestConfig.java:59-69 | always a new, started accelerometer capture. A new, started gyroscope capture exactly when the switch is on; otherwise the gyroscope slot is untouched |
| `BalanceTesting.BalanceTestConfig.CompleteTest` | src/edu/jhu/hopkinspd/test/conf/BalanceTestConfig.java:70-80 | the accelerometer capture, if any, is stopped then destroyed. So is the gyroscope capture, but only when the switch is on; otherwise it is untouched |
| `BalanceTesting.BalanceTestConfig.CancelTest` | src/edu/jhu/hopkinspd/test/conf/BalanceTestConfig.java:81-91 | exactly the effect of CompleteTest |
| `BalanceTesting.RunAndComplete` | src/edu/jhu/hopkinspd/test/conf/BalanceTestConfig.java:59-80 | run then complete: accelerometer started, stopped, destroyed; the gyroscope likewise exactly when the gait switch is on |
| `BalanceTesting.CancelBeforeRun` | src/edu/jhu/hopkinspd/test/conf/BalanceTestConfig.java:56-57 | completing or cancelling before running touches no capture |
| `JavaStrings.JavaSplit` | src/edu/jhu/hopkinspd/medlog/MedDoseAdapter.java:94 | the whole string when the separator is absent. Otherwise the fields in order, with only trailing empty fields dropped, and a non-empty last field |
| `JavaStrings.Fields` | src/edu/jhu/hopkinspd/medlog/MedDoseAdapter.java:94-96 | at least one field, none containing the separator |
| `JavaStrings.DropTrailingEmpty` | src/edu/jhu/hopkinspd/medlog/MedDoseAdapter.java:94-96 | a prefix of the fields whose last is non-empty, with only empty fields removed |
| `JavaStrings.JoinSnoc` | src/edu/jhu/hopkinspd/medlog/MedDoseAdapter.java:110-114 | appending a piece puts exactly one separator before it, none before the first |
| `JavaStrings.FieldsOfJoin` | src/edu/jhu/hopkinspd/medlog/MedDoseAdapter.java:94-96 | splitting a join of separator-free pieces gives the pieces back |
| `JavaStrings.JoinOfFields` | src/edu/jhu/hopkinspd/medlog/MedDoseAdapter.java:94-96 | joining the fields of a string gives the string back |
| `JavaStrings.SplitOfJoin` | src/edu/jhu/hopkinspd/medlog/MedDoseAdapter.java:94-96 | Java's split inverts the join when the pieces are separator-free and the last is non-empty |
| `MedDose.RecordTextIs` | src/edu/jhu/hopkinspd/medlog/MedDoseAdapter.java:113-114 | a record is med;status;dose |
| `MedDose.Records` | src/edu/jhu/hopkinspd/medlog/MedDoseAdapter.java:109-115 | one record per visited key, in visiting order |
| `MedDose.Load` | src/edu/jhu/hopkinspd/medlog/MedDoseAdapter.java:79-105 | without a stored string: succeeds iff every row names a medication, and then maps every medication to the default. With one: succeeds iff every bar-separated record has at least three fields |
| `MedDose.ParseRecord` | src/edu/jhu/hopkinspd/medlog/MedDoseAdapter.java:96-100 | a record reads iff it has at least three fields, otherwise fails naming the record. The medication, status and dose hold no semicolon |
| `MedDose.ParseFromSucceeds` | src/edu/jhu/hopkinspd/medlog/MedDoseAdapter.java:94-102 | reading the records of any stored string succeeds iff every record has at least three fields. Otherwise the error names the first short record |
| `MedDose.ParseFromSnoc` | src/edu/jhu/hopkinspd/medlog/MedDoseAdapter.java:95-102 | a record read after the others overwrites its medication's earlier selection and leaves every other entry, for any records. The read fails iff an earlier record or this one is short |
| `MedDose.DefaultsSpec` | src/edu/jhu/hopkinspd/medlog/MedDoseAdapter.java:82-91 | without a stored string, loading succeeds iff every row names a medication. The keys are then exactly the medication names, each unchecked with an unknown dose |
| `MedDose.ParseRecordText` | src/edu/jhu/hopkinspd/medlog/MedDoseAdapter.java:96-101 | a storable record reads back as its medication and selection |
| `MedDose.JoinAvoids` | src/edu/jhu/hopkinspd/medlog/MedDoseAdapter.java:113-114 | a record whose fields have no bar character has none either |
| `MedDose.ParseRecords` | src/edu/jhu/hopkinspd/medlog/MedDoseAdapter.java:95-102 | reading the records of distinct keys of a storable map adds exactly those medications, with their selections, to what was there |
| `MedDose.SplitSerialized` | src/edu/jhu/hopkinspd/medlog/MedDoseAdapter.java:94 | splitting a saved string at the bar gives its records |
| `MedDose.ParseAllRecords` | src/edu/jhu/hopkinspd/medlog/MedDoseAdapter.java:95-102 | reading the records of every key gives the map |
| `MedDose.RoundTrip` | src/edu/jhu/hopkinspd/medlog/MedDoseAdapter.java:92-115 | loading what was saved gives back the same non-empty map, in any key order, when no field holds a separator and no dose is empty |
| `MedDose.Updated` | src/edu/jhu/hopkinspd/medlog/MedDoseAdapter.java:122-129 | same keys. The status is "checked" or "unchecked" from the flag. The dose is replaced only when one is given. Every other entry is unchanged |
| `MedDose.UpdateSettles` | src/edu/jhu/hopkinspd/medlog/MedDoseAdapter.java:122-134 | repeating an update changes nothing more |
| `MedDose.UpdateStorable` | src/edu/jhu/hopkinspd/medlog/MedDoseAdapter.java:122-129 | an update with a storable dose keeps the map storable, so the round trip still holds |
| `MedDose.WithDefault` | src/edu/jhu/hopkinspd/medlog/MedDoseAdapter.java:206-214 | a missing medication gets ("unchecked", "unknown"); existing entries are untouched |
| `MedDose.SerializeSnoc` | src/edu/jhu/hopkinspd/medlog/MedDoseAdapter.java:110-114 | visiting one more key appends a bar (none before the first record), then med;status;dose |
| `MedDose.Preferences.constructor` | src/edu/jhu/hopkinspd/medlog/MedDoseAdapter.java:81 | the store holds the given preference values |
| `MedDose.MedDoseAdapter.Empty` | src/edu/jhu/hopkinspd/medlog/MedDoseAdapter.java:66-71 | the rows and the store, and an empty selection map |
| `MedDose.MedDoseAdapter.LoadMedDoseSelected` | src/edu/jhu/hopkinspd/medlog/MedDoseAdapter.java:79-105 | succeeds exactly when Load does, and then holds Load's map: defaults without a stored string, parsed records with one |
| `MedDose.MedDoseAdapter.SaveMedDoseSelected` | src/edu/jhu/hopkinspd/medlog/MedDoseAdapter.java:107-120 | stores the records of every key, each visited once in some order, and records the update time |
| `MedDose.MedDoseAdapter.UpdateSelected` | src/edu/jhu/hopkinspd/medlog/MedDoseAdapter.java:122-135 | the map becomes Updated. The result is true iff the status changed. The map is saved iff the entry changed, and otherwise the store is untouched. Afterwards the same update would change nothing |
| `MedDose.MedDoseAdapter.EnsureEntry` | src/edu/jhu/hopkinspd/medlog/MedDoseAdapter.java:206-214 | the map becomes WithDefault; nothing is saved |
| `MedDose.UpdateTwice` | src/edu/jhu/hopkinspd/medlog/MedDoseAdapter.java:122-135 | the same update made twice: the second reports no status change and does not save, so the update date is the first call's |
| `MedDose.Create` | src/edu/jhu/hopkinspd/medlog/MedDoseAdapter.java:66-75 | an adapter holding Load's map exactly when loading does not throw |

## Left out

- Output formats are not modelled. Stream file names, timestamps and the
  text or binary frame encoding come from `StreamWriter` and `GlobalApp`,
  which are not part of this model. A stream file records the frames
  handed to each write.
- IEEE doubles are modelled as exact reals. Rounding in time/1000 and in
  the deltas is not modelled.
- Callbacks run one at a time, in sequence. The sensor and touch callbacks
  are asynchronous on the device, and no threading is modelled.
- The touch buffer is modelled as owned by the `ReactCapture` instance.
  On the device it is a process-wide shared buffer that `allocateStreamBuffer`
  provides, so aliasing with other users of that buffer is not captured.
- ReactCapturing.ReactCapture.StartRecording: assumes the test stream file
  opens. What `openTestStreamFile` returns on failure, and what the writes
  then do, is not visible. The test name and the filename are not modelled.
- `ReactCapture.destroy` has an empty body and is not modelled.
- LightStream.LightWriter.Init: requires a sensor manager. After `destroy`
  has set it to null, the source throws a NullPointerException; that path
  is not modelled.
- LightStream.LightWriter.Destroy: requires a sensor manager. A second
  `destroy` throws a NullPointerException in the source; that path is not
  modelled.
- Streams.CloseStreamFile: `closeStreamFile` is not part of this model.
  The model assumes it returns true exactly when there is a file, and
  closes that file. The log-line contracts of `Stop` and `Restart` rest
  on that assumption.
- LightStream.LightWriter.constructor: assumes the device has a light
  sensor. On a device without one, the source throws at
  `sensor.getMaximumRange`. The sensor rate is a parameter, not parsed from
  the preference. The `Log.i`, `Log.v` and `Log.d` calls are not modelled;
  only the stream's own text log lines are.
- Android services are inputs. The sensor service is a listener-to-rate
  map, the clock is a millisecond parameter, and the touch event is an
  optional (action, x, y). `OnSensorChanged` requires at least one value
  in the event, as every light reading has one.
- The other test configurations and the capture recorders are not
  modelled. Voice, Gait, Tap, Reaction, RestTremor and PosturalTremor are
  table entries only. AccelCapture and GyroCapture are objects that record
  the calls made on them. The string-resource fields (texts, icons, views,
  audio) and `createTest` are UI. The preference lookup is a total
  function from test name to bool. `getDisplayName` is not modelled.
- The gyroscope switch is passed to the balance test as a parameter. In
  the source it is a static field of the test configurations, and
  `RunAndComplete` ties the two together.
- MedDose.MedDoseAdapter.UpdateSelected: requires the medication to be in
  the map. The source would throw otherwise, and both of its callers
  ensure the medication is present.
- The UI parts of `MedDoseAdapter` are left out: `getView`, and the
  checkbox, spinner, colour and toast handling of `updateView`.
- Each map entry is a (status, dose) value, not the mutable two-element
  array of the source. The array is reachable only through the map, so
  updating it in place and replacing the entry have the same effect.
- The update date is the millisecond parameter given to the save.
- HashMap iteration order is unspecified. The save visits the keys in an
  arbitrary order, and its contract holds for every such order.
