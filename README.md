# Kelvyn temperature monitor: a Dafny model of its core

The app connects to one low-power wireless temperature sensor, which poses
as a Heart Rate monitor (service 0x180D, measurement characteristic
0x2A37, position characteristic 0x2A38). It decodes each notification into
a Celsius reading, keeps the newest 1000 readings in memory and summarises
them for the gauge and the chart. This project models the three parts of
it that carry logic, and proves what they promise:

- **The reading store** (`DataManager`, module `Store`). The class
  `ReadingStore` holds the readings, oldest first, as a `seq`.
  `SaveTemperature` appends a reading and evicts the oldest readings
  until at most 1000 remain. `DeleteOldReadings` keeps the readings
  stamped at or after a cutoff. The queries are functions: the last N
  readings, the readings in a closed time interval sorted by time, the
  latest reading, and whether there is any. The clock (`Date()`) and the
  calendar are parameters. The caller passes the instant a reading is
  taken, the cutoff instant, and the start and end of a day, week or
  month (the today, week and month queries are `FetchReadings` with
  those bounds).
- **Statistics and units** (`TemperatureStats`, `TemperatureScale`;
  modules `Stats`, `Scale`, with the reading record and the time sort in
  `Readings`). These are pure functions over exact reals:
  - current, minimum, maximum, average and trend;
  - Celsius/Fahrenheit conversion;
  - the gauge bounds.
- **The connection supervisor and the payload decoder**
  (`BluetoothManager`, module `Bluetooth`). The class
  `ConnectionSupervisor` has one method per event:
  - each delegate callback of the central manager and the peripheral;
  - each firing of the reconnection timer (`TimerTick`);
  - each block the source schedules with `asyncAfter` (the `Run*`
    methods). Such a block can run only while it is in `pending`, in any
    order the caller picks. Blocks sent with `main.async` run inline.

  The supervisor does not call the radio stack. Each request it makes is
  appended to the ghost trace `commands`:
  - scan (filtered or not) and stop scan;
  - connect and cancel;
  - discover services and characteristics;
  - subscribe and read.

  Each value assigned to `connectionStatus` is appended to the ghost
  trace `statusTrace`. The repeating timer is numbered: `reconnectTimer`
  refers to one timer, and `liveTimers` holds the timers the run loop
  will still fire. The invariant `Valid()` states:
  - at most one timer is live, and it is the one `reconnectTimer` names;
  - a live timer implies `shouldReconnect`;
  - `shouldReconnect` implies a remembered peripheral;
  - the remembered peripheral is the connected one.

  Every event method keeps `Valid()`.

Module `Scenarios` drives the supervisor through event sequences and proves
the outcome from the method contracts alone.

Some consequences of the code that are easy to overlook:

- 0x68 is 104 °F, so the payload `[0x0E, 0x68]` decodes to 40 °C. A
  212 °F (100 °C) reading is sent as 0xD4 (`DecodeExamples`).
- There is no connection-state enumeration. The connection state is the
  fields `isScanning`, `isConnected`, `shouldReconnect`,
  `reconnectAttempts` and the timer.
- Giving up is not final, and the attempt counter can pass the ceiling.
  The give-up branch (BluetoothManager.swift:122-125) clears neither
  `isScanning` nor `shouldReconnect`. Each tick up to the ceiling starts
  a scan, whose 30-second timeout block stays pending (lines 67-73). After
  the 101st tick gives up, such a block still finds the scan running and
  starts a new timer. That timer's tick counts attempt 102 and gives up
  again (`GiveUpIsNotFinal`).
- The tick's "Reconnecting... (attempt N)" status is at once replaced
  by the status of the scan it starts. Both values are in `statusTrace`,
  in order (`TimerTick`).
- The immediate-reconnect block (lines 241-246) does not look at
  `shouldReconnect`. After `disconnect()` it still asks to connect, and
  the sensor is connected again with the flag clear (`UserDisconnect`).

## Model

| member | source | states |
|---|---|---|
| Readings.InsertByTimeSorted | DataManager.swift:34 | inserting into a time-sorted list keeps it sorted, and the new head is the inserted reading or the old head |
| Readings.InsertByTimePermutes | DataManager.swift:34 | insertion adds exactly the one reading: the result's multiset is the input's plus it |
| Readings.ConsSorted | DataManager.swift:34 | a reading no newer than the head of a time-sorted list, put in front, keeps it sorted |
| Readings.SortByTime | TemperatureData.swift:40 | `sorted { $0.timestamp < $1.timestamp }`, as insertion sort: the result has the input's length; its order and contents are SortByTimeCorrect's |
| Readings.SortByTimeCorrect | TemperatureData.swift:40 | the sort's result is ordered by nondecreasing timestamp and is a permutation (same multiset) of the input |
| Readings.SortOfSorted | TemperatureData.swift:40 | sorting a list that is already in time order returns it unchanged |
| Readings.LastOfSortIsNewest | TemperatureData.swift:43 | the last reading after sorting is one of the input readings, and no input reading is newer |
| Readings.Suffix | DataManager.swift:28 | `suffix(n)` has min(n, count) elements and is what remains after dropping a prefix |
| Readings.Filter | DataManager.swift:32-33 | `filter` by a test: the result is no longer than the input; what it keeps is FilterKeeps', the order FilterConcat's |
| Readings.FilterKeeps | DataManager.swift:32-33 | every kept reading passes the test; each reading passing it is kept as often as it occurs, the others never |
| Readings.FilterConcat | DataManager.swift:63 | filtering a concatenation is the concatenation of the filtered parts, so relative order is preserved |
| Readings.FilterSingle | DataManager.swift:63 | a single reading is kept exactly when it passes the test |
| Readings.Between | DataManager.swift:32-33 | a reading's multiplicity in the result is its multiplicity in the input when start <= timestamp <= end (both ends included), and zero otherwise |
| Readings.NotOlderThan | DataManager.swift:63 | every kept reading is stamped at or after the cutoff; each such reading of the input is kept, none other |
| Scale.ToFahrenheit | TemperatureData.swift:75-77 | the result is the Fahrenheit value whose Celsius equivalent (f − 32)·5/9 is the input |
| Scale.ToCelsius | TemperatureData.swift:79-81 | the result is the Celsius value whose Fahrenheit equivalent c·9/5 + 32 is the input |
| Scale.GetMinMax | TemperatureData.swift:83-89 | the gauge range for either unit is a proper interval (min < max) |
| Scale.CelsiusRoundTrip | TemperatureData.swift:75-81 | converting Celsius to Fahrenheit and back gives the original value |
| Scale.FahrenheitRoundTrip | TemperatureData.swift:75-81 | converting Fahrenheit to Celsius and back gives the original value |
| Scale.ConversionMonotone | TemperatureData.swift:75-77 | conversion preserves both strict and non-strict order, in both directions |
| Scale.GaugeBoundsAgree | TemperatureData.swift:70-73 | the bounds are (14, 122) °F and (-10, 50) °C, and each Celsius bound converts exactly to the matching Fahrenheit bound and back |
| Stats.MinTemperature | TemperatureData.swift:44 | the minimum is the temperature of some reading and no reading is colder |
| Stats.MaxTemperature | TemperatureData.swift:45 | the maximum is the temperature of some reading and no reading is warmer |
| Stats.SumTemperatures | TemperatureData.swift:46 | the fold of the temperatures from 0, which is non-negative when every temperature is; its bounds are proved in SumBetween and its relation to the average in Average |
| Stats.SumBetween | TemperatureData.swift:46 | if every temperature lies in [lo, hi], the sum lies in [n·lo, n·hi] |
| Stats.AverageBetween | TemperatureData.swift:46 | the average lies between the minimum and the maximum temperature |
| Stats.Average | TemperatureData.swift:46 | the average times the count is the sum |
| Stats.Current | TemperatureData.swift:43 | the current temperature is that of a reading no other reading postdates |
| Stats.TrendOf | TemperatureData.swift:50-64 | rising iff at least two readings and last − first >= 0.5; falling iff at least two and last − first <= −0.5; stable iff fewer than two or the change is strictly between −0.5 and 0.5 |
| Stats.StatsTrend | TemperatureData.swift:40-49 | fewer than two readings give stable; on any list the trend is that of the last five readings of a time-ordered permutation of it, and on a list already in time order that of its own last five |
| Stats.TrendUsesNewestFive | TemperatureData.swift:49 | on a time-ordered list of five or more readings, dropping all but the newest five leaves the trend unchanged |
| Stats.ComputeStats | TemperatureData.swift:30-65 | empty input gives all zeros and stable. Otherwise min and max are attained temperatures bounding all others, average = sum / count, min <= average <= max, current is the temperature of the newest reading (Current) and lies between min and max, and the trend is StatsTrend's |
| Store.Retained | DataManager.swift:19-21 | at most 1000 readings remain, and they are the newest ones: the input is a dropped prefix followed by the result |
| Store.RetainedKeepsTimeOrder | DataManager.swift:15-21 | a store in time order that receives a reading no older than any stored one stays in time order after eviction |
| Store.AppendNewestSorted | DataManager.swift:15-16 | appending a reading no older than any stored one keeps a time-ordered store in time order |
| Store.SuffixSorted | DataManager.swift:19-21 | what remains of a time-ordered store after removing its oldest readings is in time order |
| Store.NotOlderThanOfSortedIsSuffix | DataManager.swift:63 | on a store in time order, deleting readings older than the cutoff removes a prefix |
| Store.NothingOlderKeepsAll | DataManager.swift:63 | when the oldest reading of a time-ordered store is not older than the cutoff, nothing is deleted |
| Store.FilterAll | DataManager.swift:63 | when every reading passes the test, the filter keeps the whole list |
| Store.ReadingStore.constructor | DataManager.swift:7-12 | the store starts empty |
| Store.ReadingStore.SaveTemperature | DataManager.swift:14-25 | the new store is the newest at most 1000 readings of old + [reading]. Below capacity that is old + [reading]; at capacity exactly the oldest reading is dropped. The latest reading is the one saved, and the store is non-empty |
| Store.ReadingStore.FetchRecentReadings | DataManager.swift:27-29 | the result is the last min(limit, count) readings in stored order |
| Store.ReadingStore.FetchReadings | DataManager.swift:31-35 | sorted by time; exactly the stored readings with start <= timestamp <= end, counted with multiplicity |
| Store.ReadingStore.DeleteOldReadings | DataManager.swift:61-65 | the new store is the old one filtered to the readings stamped at or after the cutoff, in their original order |
| Store.ReadingStore.LatestReading | DataManager.swift:71-73 | absent iff the store is empty, otherwise the last stored reading |
| Store.ReadingStore.HasReadings | DataManager.swift:75-77 | true iff the store is non-empty |
| Bluetooth.DecodeTemperature | BluetoothManager.swift:135-145 | a value exists iff the payload has at least 2 bytes. It is byte 1 read as Fahrenheit and converted with the scale's toCelsius, so it lies between toCelsius(0) and toCelsius(255) |
| Bluetooth.DecodeIgnoresFlags | BluetoothManager.swift:141-142 | replacing byte 0 does not change the decoded value |
| Bluetooth.DecodeRoundTrip | BluetoothManager.swift:142-145 | converting the decoded value back to Fahrenheit gives byte 1 |
| Bluetooth.DecodeExamples | BluetoothManager.swift:136-145 | [0x0E, 0x68] gives 40 °C, [0x0E, 0xD4] gives 100 °C, a one-byte payload gives nothing |
| Bluetooth.NatToString | BluetoothManager.swift:112 | the attempt number interpolated into the status is a non-empty string of decimal digits, starting with 0 only for 0 (no leading zeros) |
| Bluetooth.NatToStringValue | BluetoothManager.swift:112 | those digits, read as a decimal number, give the attempt number back |
| Bluetooth.KelvynTempImpliesKelvyn | BluetoothManager.swift:194-196 | a name containing "KelvynTemp" contains "Kelvyn" |
| Bluetooth.IsTargetDevice | BluetoothManager.swift:194-201 | accepted iff a service-UUID list is advertised, or the name contains "Kelvyn" or "FT7" |
| Bluetooth.CharacteristicDiscovery | BluetoothManager.swift:278-282 | every request is for a Heart Rate service of the list, asking for its measurement and position characteristics, and every Heart Rate service of the list gets one |
| Bluetooth.CharacteristicDiscoveryConcat | BluetoothManager.swift:278-282 | the requests follow the order of the services: those for a concatenation are those for each part, in turn |
| Bluetooth.CharacteristicSetup | BluetoothManager.swift:288-304 | each request is a subscription to a measurement characteristic or a read of a position characteristic |
| Bluetooth.CharacteristicSetupComplete | BluetoothManager.swift:288-304 | the requests are for this peripheral and for listed characteristics; every measurement characteristic is subscribed to and every position characteristic read |
| Bluetooth.CharacteristicSetupConcat | BluetoothManager.swift:288-304 | the requests follow the order of the characteristics |
| Bluetooth.LastOfKind | BluetoothManager.swift:289-297 | a matching characteristic of the list, or the previous one when none has the UUID |
| Bluetooth.LastOfKindIsLast | BluetoothManager.swift:289-297 | when some characteristic has the UUID, one is remembered, and no characteristic after it has the UUID |
| Bluetooth.ConnectionSupervisor.constructor | BluetoothManager.swift:14-38 | starts disconnected, not scanning, status "Disconnected", temperature and humidity 0, no update time, no peripheral or characteristics, radio state unknown, flag clear, counter 0, no timer, nothing pending |
| Bluetooth.ConnectionSupervisor.StartScanning | BluetoothManager.swift:42-74 | radio off: status "Bluetooth not available" and nothing else changes. Radio on: scanning, status "Scanning for ESP32...", one filtered scan request, the fallback scan and the timeout scheduled |
| Bluetooth.ConnectionSupervisor.StopScanning | BluetoothManager.swift:76-79 | not scanning, one stop-scan request |
| Bluetooth.ConnectionSupervisor.Disconnect | BluetoothManager.swift:81-88 | the flag is cleared, no timer is live, and the connected peripheral (if any) is cancelled |
| Bluetooth.ConnectionSupervisor.InvalidateTimer | BluetoothManager.swift:83 | the referenced timer, and only it, stops being live |
| Bluetooth.ConnectionSupervisor.ConnectToPeripheral | BluetoothManager.swift:92-99 | the peripheral becomes both connected and remembered, one connect request, status "Connecting to ESP32...", counter reset to 0 |
| Bluetooth.ConnectionSupervisor.StartReconnectionTimer | BluetoothManager.swift:101-105 | flag clear: nothing changes. Flag set: a fresh timer replaces the old one and is the only live timer |
| Bluetooth.ConnectionSupervisor.StopReconnectionTimer | BluetoothManager.swift:130-133 | no timer referenced, none live |
| Bluetooth.ConnectionSupervisor.TimerTick | BluetoothManager.swift:105-127 | counter +1. Up to 100: reports the attempt, connects to the remembered peripheral, rescans (so the status ends as the scan's), the timer stays. Beyond 100: "Unable to reconnect. Please restart app.", no request, the timer is stopped |
| Bluetooth.ConnectionSupervisor.DidUpdateState | BluetoothManager.swift:166-187 | records the radio state and reports it; powered off clears isConnected; powered on with the flag set also starts a scan, and the status ends as "Scanning for ESP32..." |
| Bluetooth.ConnectionSupervisor.DidDiscover | BluetoothManager.swift:189-207 | an accepted device stops the scan, sets the flag and is connected to; any other device changes nothing |
| Bluetooth.ConnectionSupervisor.DidConnect | BluetoothManager.swift:209-222 | the timer is stopped, the counter is 0, connected, and the Heart Rate service discovered |
| Bluetooth.ConnectionSupervisor.DidDisconnect | BluetoothManager.swift:224-254 | not connected, measurement characteristic forgotten; with the flag set the immediate reconnect and the timer start are both scheduled |
| Bluetooth.ConnectionSupervisor.DidFailToConnect | BluetoothManager.swift:256-269 | reports the failure; with the flag set the timer start is scheduled |
| Bluetooth.ConnectionSupervisor.RunFallbackScan | BluetoothManager.swift:58-64 | consumes the block; an unfiltered scan is requested iff still scanning |
| Bluetooth.ConnectionSupervisor.RunScanTimeout | BluetoothManager.swift:67-73 | consumes the block; if still scanning it stops, reports "ESP32 not found. Will retry..." and starts the timer (when the flag is set); otherwise nothing else changes |
| Bluetooth.ConnectionSupervisor.RunImmediateReconnect | BluetoothManager.swift:241-246 | consumes the block and requests a connection to the remembered peripheral |
| Bluetooth.ConnectionSupervisor.RunResumeAfterDisconnect | BluetoothManager.swift:249-252 | consumes the block, reports that the sensor may be sleeping, starts the timer when the flag is set |
| Bluetooth.ConnectionSupervisor.RunRetryAfterFailure | BluetoothManager.swift:265-267 | consumes the block and starts the timer when the flag is set |
| Bluetooth.ConnectionSupervisor.DidDiscoverServices | BluetoothManager.swift:275-283 | requests characteristic discovery for exactly the Heart Rate services, in order; none when the list is absent |
| Bluetooth.ConnectionSupervisor.DidDiscoverCharacteristics | BluetoothManager.swift:285-305 | subscribes to each measurement characteristic and reads each position characteristic, in order, remembering the last of each kind |
| Bluetooth.DiscoveryStep | BluetoothManager.swift:278-282 | one more service appends a characteristic discovery request exactly when it is a Heart Rate service |
| Bluetooth.ConnectionSupervisor.HandleService | BluetoothManager.swift:279-281 | a Heart Rate service gets one discovery request for the measurement and position characteristics, any other service nothing |
| Bluetooth.SetupStep | BluetoothManager.swift:288-304 | one more characteristic appends a subscription for a measurement, a read for a position, nothing for any other |
| Bluetooth.LastOfKindStep | BluetoothManager.swift:289-297 | one more characteristic becomes the remembered one exactly when its UUID matches |
| Bluetooth.ConnectionSupervisor.HandleCharacteristic | BluetoothManager.swift:289-303 | a measurement characteristic is remembered and subscribed to, a position characteristic remembered and read, any other changes nothing |
| Bluetooth.ConnectionSupervisor.DidUpdateValue | BluetoothManager.swift:307-313 | only a present value of the measurement characteristic reaches the decoder, which sets temperature, humidity 45, update time and the stored reading; everything else changes nothing |
| Bluetooth.ConnectionSupervisor.HandleHeartRateData | BluetoothManager.swift:135-160 | under 2 bytes nothing changes. Otherwise the current temperature is toCelsius(byte 1), humidity 45, and the store gains that reading stamped now (with eviction), which is its latest |
| Scenarios.Discovered | BluetoothManager.swift:166-201 | radio on, scan started, a Heart Rate device discovered: the requests so far are exactly the Heart Rate scan, its stop and Connect(p); reconnect flag set, counter 0, no timer, and the scan's fallback and timeout blocks pending |
| Scenarios.Linked | BluetoothManager.swift:166-222 | the discovered device connects: linked to it, reconnect flag set, counter 0, no timer and no scan running, with the scan's fallback and timeout blocks still pending |
| Scenarios.Dropped | BluetoothManager.swift:224-254 | the linked device disconnects with the flag set: no longer connected, still remembered, and the immediate reconnect and the timer start pending beside the scan's two blocks |
| Scenarios.SleepingSensor | BluetoothManager.swift:224-254 | after connect and an unexpected disconnect, the remembered peripheral is the sensor and exactly one timer is live once the delayed blocks have run |
| Scenarios.UserDisconnect | BluetoothManager.swift:81-88 | after disconnect(), the blocks the last disconnection scheduled start no timer, yet the immediate reconnect still asks to connect, leaving the sensor connected with the flag clear |
| Scenarios.Rescanning | BluetoothManager.swift:105-121 | the dropped device's timer ticks once: a new scan is running and two scan timeouts are pending, the first scan's and the new one's |
| Scenarios.StaleScanTimeout | BluetoothManager.swift:67-73 | that stale timeout stops the tick's new scan, reports "ESP32 not found. Will retry..." and leaves exactly one live timer |
| Scenarios.TickToCeiling | BluetoothManager.swift:105-121 | a sensor that never answers: 100 ticks leave the counter at the ceiling, the timer live and a scan timeout pending |
| Scenarios.GiveUpIsNotFinal | BluetoothManager.swift:67-73 | after giving up, a pending scan timeout restarts one timer, whose tick counts attempt 102 and gives up again |

## Left out

- Real timing: the 1 s, 2 s and 30 s delays and the 5 s timer period. Delayed blocks and timer firings are events the caller may run in any order, so the model allows more interleavings than the clock does.
- Concurrency and queues: every event runs to completion. `main.async` bodies run inline, before the handler returns.
- CoreBluetooth itself: the objects, the delegate assignment, and the scan options. The supervisor's requests are entries of a ghost command trace.
- `didUpdateNotificationStateFor`: it only logs.
- Logging (`print`), Combine's `objectWillChange` and `@Published` notifications, the `UUID` identity of readings, and `Codable`.
- `Date()`, `Calendar.current` and `dateInterval(of:)`. The instant of a reading, the cutoff of `deleteOldReadings(olderThan:)`, and the bounds of the today, week and month queries are parameters. Instants are integers. `HandleHeartRateData` takes one instant `now` and uses it both for `lastUpdateTime` and for the saved reading's timestamp, where the source reads the clock twice (BluetoothManager.swift:153 and DataManager.swift:15), so the two may differ there by the time between the reads.
- `Double` is modelled as exact `real`. The conversion round trips and the average bounds hold only in exact arithmetic. NaN and infinities do not arise.
- Readings.SortByTime: Swift does not document that `sorted` is stable. The model uses a stable sort. The contracts say only that the result is a time-sorted permutation, so which of two equally stamped readings counts as current is left open.
- `getTemperatureStats(for:)`: it only forwards to `Stats.ComputeStats`.
- `Contains`: Swift's `String.contains` compares Unicode characters (grapheme clusters); the model compares runs of code points, with no normalisation.
- FetchRecentReadings: the limit is a `nat`. `suffix` traps on a negative limit, so a negative limit is not modelled.
- The default arguments (humidity 0.0 in `saveTemperature`, limit 100 in `fetchRecentReadings`, 30 days in `deleteOldReadings`) are not modelled; callers pass every argument.
- The SwiftUI views (chart, gauge, needle angle, stat cards, app entry point): they are presentation only.
