/**
 * BluetoothManager: the supervisor of the link to the temperature sensor
 * (discovery, connection, service set-up, automatic reconnection) and the
 * decoder of its notifications.
 *
 * The radio stack is not modelled. Every request the supervisor makes of it
 * is appended to the ghost trace `commands`; every event it delivers is a
 * method of ConnectionSupervisor. The delayed blocks the source schedules
 * with `asyncAfter` are kept in `pending` and run by their own Run* methods,
 * in whatever order the caller chooses; blocks sent with `main.async` run
 * inline. The repeating reconnection timer is a numbered timer: `liveTimers`
 * holds the timers the run loop will still fire, and TimerTick fires one.
 */
module Bluetooth {
  import opened Wrappers
  import opened Readings
  import Scale
  import Store

  newtype byte = x: int | 0 <= x < 256

  /** A 16-bit Bluetooth assigned number. */
  type Uuid = x: nat | x < 0x1_0000

  /** The Heart Rate service and its two characteristics, which the sensor borrows. */
  const HeartRateService: Uuid := 0x180D
  const HeartRateMeasurement: Uuid := 0x2A37
  const SensorPosition: Uuid := 0x2A38

  /** The timer gives up after this many attempts. */
  const MaxReconnectAttempts: nat := 100
  /** The sensor sends no humidity; every reading carries this value. */
  const HumidityPlaceholder: real := 45.0

  const StatusDisconnected := "Disconnected"
  const StatusNotAvailable := "Bluetooth not available"
  const StatusScanning := "Scanning for ESP32..."
  const StatusNotFound := "ESP32 not found. Will retry..."
  const StatusConnecting := "Connecting to ESP32..."
  const StatusGaveUp := "Unable to reconnect. Please restart app."
  const StatusConnected := "Connected to Temperature Monitor"
  const StatusLinkLost := "Disconnected - Reconnecting..."
  const StatusSleeping := "ESP32 may be sleeping... Reconnecting..."
  const StatusConnectFailed := "Connection failed. Retrying..."

  /** `centralManager.state`. */
  datatype RadioState = PoweredOn | PoweredOff | Unauthorized | Unsupported | Resetting | Unknown

  /** A peripheral as the radio stack identifies it, with its advertised name if any. */
  datatype Peripheral = Peripheral(id: nat, name: Option<string>)
  datatype Service = Service(id: nat, uuid: Uuid)
  datatype Characteristic = Characteristic(id: nat, uuid: Uuid)

  /** The requests made of the radio stack, in place of the CoreBluetooth calls. */
  datatype RadioCommand =
    | ScanForServices(services: seq<Uuid>)
    | ScanAll
    | StopScan
    | Connect(peripheral: Peripheral)
    | CancelConnection(peripheral: Peripheral)
    | DiscoverServices(peripheral: Peripheral, services: seq<Uuid>)
    | DiscoverCharacteristics(peripheral: Peripheral, service: Service, characteristics: seq<Uuid>)
    | SubscribeNotifications(peripheral: Peripheral, characteristic: Characteristic)
    | ReadValue(peripheral: Peripheral, characteristic: Characteristic)

  /** The blocks scheduled with `asyncAfter`. */
  datatype DelayedTask =
    | FallbackScan           // startScanning, after 1 s: scan without a service filter
    | ScanTimeout            // startScanning, after 30 s: give up this scan, start the timer
    | ImmediateReconnect     // didDisconnectPeripheral, after 1 s: connect to the last peripheral
    | ResumeAfterDisconnect  // didDisconnectPeripheral, after 2 s: start the timer
    | RetryAfterFailure      // didFailToConnect, after 2 s: start the timer

  // ---------------------------------------------------------------------
  // Payload decoding

  /**
   * `handleHeartRateData`'s arithmetic: byte 0 (the flags) is ignored,
   * byte 1 is a whole Fahrenheit temperature, converted to Celsius.
   * Payloads shorter than two bytes give nothing.
   */
  function DecodeTemperature(payload: seq<byte>): (celsius: Option<real>)
    ensures celsius.Some? <==> |payload| >= 2
    ensures celsius.Some? ==> celsius.value == Scale.ToCelsius(payload[1] as real)
    ensures celsius.Some? ==> Scale.ToCelsius(0.0) <= celsius.value <= Scale.ToCelsius(255.0)
  {
    if |payload| < 2 then
      None
    else
      var temperatureF := payload[1] as real;
      Some((temperatureF - 32.0) * 5.0 / 9.0)
  }

  /** The flags byte does not influence the result. */
  lemma DecodeIgnoresFlags(payload: seq<byte>, flags: byte)
    requires |payload| >= 1
    ensures DecodeTemperature([flags] + payload[1..]) == DecodeTemperature(payload)
  {
    assert ([flags] + payload[1..])[1..] == payload[1..];
    if |payload| >= 2 {
      assert ([flags] + payload[1..])[1] == payload[1];
    }
  }

  /** Converting the decoded value back gives the Fahrenheit byte the sensor sent. */
  lemma DecodeRoundTrip(flags: byte, fahrenheit: byte)
    ensures DecodeTemperature([flags, fahrenheit]).Some?
    ensures Scale.ToFahrenheit(DecodeTemperature([flags, fahrenheit]).value) == fahrenheit as real
  {
    Scale.FahrenheitRoundTrip(fahrenheit as real);
  }

  /** The payload [0x0E, 0x68] carries 104 °F, which is 40 °C; boiling water, 212 °F, is sent as 0xD4. */
  lemma DecodeExamples()
    ensures DecodeTemperature([0x0E, 0x68]) == Some(40.0)
    ensures DecodeTemperature([0x0E, 0xD4]) == Some(100.0)
    ensures DecodeTemperature([0x0E]) == None
  {
  }

  // ---------------------------------------------------------------------
  // Device filter

  /** `name.contains(part)`: part occurs in name as a contiguous run of characters. */
  predicate Contains(name: string, part: string)
  {
    exists i :: 0 <= i <= |name| - |part| && OccursAt(name, part, i)
  }

  /** part occurs in name starting at index i. */
  predicate OccursAt(name: string, part: string, i: int)
  {
    0 <= i <= |name| - |part| && name[i..i + |part|] == part
  }

  /** A name containing "KelvynTemp" contains "Kelvyn", so the longer test adds nothing. */
  lemma KelvynTempImpliesKelvyn(name: string)
    ensures Contains(name, "KelvynTemp") ==> Contains(name, "Kelvyn")
  {
    if Contains(name, "KelvynTemp") {
      var i :| 0 <= i <= |name| - 10 && OccursAt(name, "KelvynTemp", i);
      assert name[i..i + 6] == name[i..i + 10][..6];
      assert OccursAt(name, "Kelvyn", i);
    }
  }

  /**
   * didDiscover's filter: a name containing "Kelvyn", "KelvynTemp" or
   * "FT7", or an advertisement carrying a service UUID list (whose contents
   * are not looked at).
   */
  function IsTargetDevice(name: Option<string>, advertisesServices: bool): (accepted: bool)
    ensures accepted <==> advertisesServices || (name.Some? && (Contains(name.value, "Kelvyn") || Contains(name.value, "FT7")))
  {
    var isKelvynDevice :=
      name.Some? && (Contains(name.value, "Kelvyn") || Contains(name.value, "KelvynTemp") || Contains(name.value, "FT7"));
    if name.Some? then KelvynTempImpliesKelvyn(name.value); isKelvynDevice || advertisesServices
    else isKelvynDevice || advertisesServices
  }

  // ---------------------------------------------------------------------
  // Status strings and the effects the handlers share

  /** Decimal digits of n, as string interpolation writes them. */
  function NatToString(n: nat): (s: string)
    ensures |s| >= 1
    ensures forall i :: 0 <= i < |s| ==> '0' <= s[i] <= '9'
    ensures s[0] == '0' <==> n == 0
  {
    if n < 10 then ["0123456789"[n]] else NatToString(n / 10) + ["0123456789"[n % 10]]
  }

  /** The number a string of decimal digits denotes, most significant digit first. */
  function DigitsValue(s: string): nat
    requires forall i :: 0 <= i < |s| ==> '0' <= s[i] <= '9'
  {
    if s == [] then 0 else DigitsValue(s[..|s| - 1]) * 10 + (s[|s| - 1] as int - '0' as int)
  }

  /** NatToString writes the decimal form of n: its digits denote n again. */
  lemma {:induction false} NatToStringValue(n: nat)
    ensures DigitsValue(NatToString(n)) == n
    decreases n
  {
    var d := "0123456789"[n % 10];
    assert d as int - '0' as int == n % 10;
    if n >= 10 {
      var prefix := NatToString(n / 10);
      assert NatToString(n)[..|NatToString(n)| - 1] == prefix;
      NatToStringValue(n / 10);
    }
  }

  function AttemptStatus(attempt: nat): string
  {
    "Reconnecting... (attempt " + NatToString(attempt) + ")"
  }

  /** The status didUpdateState shows for each radio state. */
  function StateStatus(state: RadioState): string
  {
    match state
    case PoweredOn => "Ready to connect"
    case PoweredOff => "Bluetooth is off"
    case Unauthorized => "Bluetooth permission denied"
    case Unsupported => "Bluetooth not supported"
    case Resetting => "Bluetooth resetting"
    case Unknown => "Bluetooth state unknown"
  }

  /** What startScanning shows, requests and schedules in a given radio state. */
  function ScanStatus(state: RadioState): string
  {
    if state == PoweredOn then StatusScanning else StatusNotAvailable
  }

  function ScanCommands(state: RadioState): seq<RadioCommand>
  {
    if state == PoweredOn then [ScanForServices([HeartRateService])] else []
  }

  function ScanTasks(state: RadioState): multiset<DelayedTask>
  {
    if state == PoweredOn then multiset{FallbackScan, ScanTimeout} else multiset{}
  }

  /** A connection request to the remembered peripheral, if there is one. */
  function ReconnectCommands(last: Option<Peripheral>): seq<RadioCommand>
  {
    if last.Some? then [Connect(last.value)] else []
  }

  /**
   * The characteristic discovery requested for each Heart Rate service
   * among services: every request is for a Heart Rate service of the list,
   * and every Heart Rate service of the list gets one.
   */
  function CharacteristicDiscovery(p: Peripheral, services: seq<Service>): (r: seq<RadioCommand>)
    ensures |r| <= |services|
    ensures forall k :: 0 <= k < |r| ==>
      r[k].DiscoverCharacteristics? && r[k].peripheral == p && r[k].service in services &&
      r[k].service.uuid == HeartRateService && r[k].characteristics == [HeartRateMeasurement, SensorPosition]
    ensures forall sv :: sv in services && sv.uuid == HeartRateService ==>
      DiscoverCharacteristics(p, sv, [HeartRateMeasurement, SensorPosition]) in r
  {
    if services == [] then
      []
    else
      var last := services[|services| - 1];
      var front := services[..|services| - 1];
      assert forall sv :: sv in services ==> sv in front || sv == last;
      CharacteristicDiscovery(p, front) +
      (if last.uuid == HeartRateService then [DiscoverCharacteristics(p, last, [HeartRateMeasurement, SensorPosition])] else [])
  }

  /**
   * Requests follow the order of the services: discovering over two lists
   * one after the other asks for the first list's requests, then the second's.
   */
  lemma {:induction false} CharacteristicDiscoveryConcat(p: Peripheral, xs: seq<Service>, ys: seq<Service>)
    ensures CharacteristicDiscovery(p, xs + ys) == CharacteristicDiscovery(p, xs) + CharacteristicDiscovery(p, ys)
    decreases |ys|
  {
    if ys == [] {
      assert xs + ys == xs;
    } else {
      var front := ys[..|ys| - 1];
      assert (xs + ys)[..|xs + ys| - 1] == xs + front;
      assert (xs + ys)[|xs + ys| - 1] == ys[|ys| - 1];
      CharacteristicDiscoveryConcat(p, xs, front);
    }
  }

  /**
   * The subscription or read requested for each discovered characteristic:
   * every request is a subscription to a measurement characteristic or a
   * read of a position characteristic (CharacteristicSetupComplete: each of
   * those gets one, and nothing else does).
   */
  function CharacteristicSetup(p: Peripheral, cs: seq<Characteristic>): (r: seq<RadioCommand>)
    ensures |r| <= |cs|
    ensures forall k :: 0 <= k < |r| ==>
      (r[k].SubscribeNotifications? && r[k].characteristic.uuid == HeartRateMeasurement) ||
      (r[k].ReadValue? && r[k].characteristic.uuid == SensorPosition)
  {
    if cs == [] then
      []
    else
      var c := cs[|cs| - 1];
      CharacteristicSetup(p, cs[..|cs| - 1]) +
      (if c.uuid == HeartRateMeasurement then [SubscribeNotifications(p, c)]
       else if c.uuid == SensorPosition then [ReadValue(p, c)]
       else [])
  }

  /**
   * The requests are for this peripheral and for characteristics of the
   * list, and each measurement characteristic is subscribed to and each
   * position characteristic read.
   */
  lemma {:induction false} CharacteristicSetupComplete(p: Peripheral, cs: seq<Characteristic>)
    ensures forall k :: 0 <= k < |CharacteristicSetup(p, cs)| ==>
      CharacteristicSetup(p, cs)[k].peripheral == p && CharacteristicSetup(p, cs)[k].characteristic in cs
    ensures forall c :: c in cs && c.uuid == HeartRateMeasurement ==> SubscribeNotifications(p, c) in CharacteristicSetup(p, cs)
    ensures forall c :: c in cs && c.uuid == SensorPosition ==> ReadValue(p, c) in CharacteristicSetup(p, cs)
  {
    if cs != [] {
      var front := cs[..|cs| - 1];
      assert cs == front + [cs[|cs| - 1]];
      CharacteristicSetupComplete(p, front);
    }
  }

  /** Requests follow the order of the characteristics, as for CharacteristicDiscoveryConcat. */
  lemma {:induction false} CharacteristicSetupConcat(p: Peripheral, xs: seq<Characteristic>, ys: seq<Characteristic>)
    ensures CharacteristicSetup(p, xs + ys) == CharacteristicSetup(p, xs) + CharacteristicSetup(p, ys)
    decreases |ys|
  {
    if ys == [] {
      assert xs + ys == xs;
    } else {
      var front := ys[..|ys| - 1];
      assert (xs + ys)[..|xs + ys| - 1] == xs + front;
      assert (xs + ys)[|xs + ys| - 1] == ys[|ys| - 1];
      CharacteristicSetupConcat(p, xs, front);
    }
  }

  /**
   * The last characteristic of cs with the given UUID, or otherwise when
   * there is none (LastOfKindIsLast: with a match, the last matching one).
   */
  function LastOfKind(cs: seq<Characteristic>, uuid: Uuid, otherwise: Option<Characteristic>): (r: Option<Characteristic>)
    ensures r == otherwise || (r.Some? && r.value in cs && r.value.uuid == uuid)
    ensures (forall k :: 0 <= k < |cs| ==> cs[k].uuid != uuid) ==> r == otherwise
  {
    if cs == [] then otherwise
    else if cs[|cs| - 1].uuid == uuid then Some(cs[|cs| - 1])
    else LastOfKind(cs[..|cs| - 1], uuid, otherwise)
  }

  /** When some characteristic has the UUID, one is chosen, and it is the last of them: none after it matches. */
  lemma {:induction false} LastOfKindIsLast(cs: seq<Characteristic>, uuid: Uuid, otherwise: Option<Characteristic>)
    requires exists k :: 0 <= k < |cs| && cs[k].uuid == uuid
    ensures LastOfKind(cs, uuid, otherwise).Some? && LastOfKind(cs, uuid, otherwise).value.uuid == uuid
    ensures exists k ::
      && 0 <= k < |cs| && cs[k] == LastOfKind(cs, uuid, otherwise).value
      && forall j :: k < j < |cs| ==> cs[j].uuid != uuid
  {
    var n := |cs| - 1;
    var r := LastOfKind(cs, uuid, otherwise);
    if cs[n].uuid == uuid {
      assert cs[n] == r.value;
    } else {
      var front := cs[..n];
      assert r == LastOfKind(front, uuid, otherwise);
      var k0 :| 0 <= k0 < |cs| && cs[k0].uuid == uuid;
      assert front[k0].uuid == uuid;
      LastOfKindIsLast(front, uuid, otherwise);
      var k :| 0 <= k < n && front[k] == r.value && forall j :: k < j < n ==> front[j].uuid != uuid;
      forall j | k < j < |cs| ensures cs[j].uuid != uuid {
        if j < n {
          assert cs[j] == front[j];
        }
      }
      assert cs[k] == front[k];
    }
  }

  /** One more service appends its discovery request exactly when it is a Heart Rate service. */
  lemma DiscoveryStep(p: Peripheral, services: seq<Service>, sv: Service)
    ensures CharacteristicDiscovery(p, services + [sv]) == CharacteristicDiscovery(p, services) +
      (if sv.uuid == HeartRateService then [DiscoverCharacteristics(p, sv, [HeartRateMeasurement, SensorPosition])] else [])
  {
    assert (services + [sv])[..|services|] == services;
  }

  /** Handling one more characteristic appends the request it calls for. */
  lemma SetupStep(p: Peripheral, cs: seq<Characteristic>, c: Characteristic)
    ensures CharacteristicSetup(p, cs + [c]) == CharacteristicSetup(p, cs) +
      (if c.uuid == HeartRateMeasurement then [SubscribeNotifications(p, c)]
       else if c.uuid == SensorPosition then [ReadValue(p, c)]
       else [])
  {
    assert (cs + [c])[..|cs|] == cs;
  }

  /** One more characteristic replaces the remembered one exactly when its UUID matches. */
  lemma LastOfKindStep(cs: seq<Characteristic>, c: Characteristic, uuid: Uuid, otherwise: Option<Characteristic>)
    ensures LastOfKind(cs + [c], uuid, otherwise) == if c.uuid == uuid then Some(c) else LastOfKind(cs, uuid, otherwise)
  {
    assert (cs + [c])[..|cs|] == cs;
  }

  // ---------------------------------------------------------------------
  // The supervisor

  class ConnectionSupervisor {
    // State shown to the user interface.
    var isConnected: bool
    var isScanning: bool
    var currentTemperature: real
    var currentHumidity: real
    var connectionStatus: string
    var lastUpdateTime: Option<int>

    // The radio and the objects it handed out.
    var radioState: RadioState
    var connectedPeripheral: Option<Peripheral>
    var heartRateCharacteristic: Option<Characteristic>
    var sensorPositionCharacteristic: Option<Characteristic>

    // Reconnection.
    var reconnectTimer: Option<nat>
    var shouldReconnect: bool
    var lastKnownPeripheral: Option<Peripheral>
    var reconnectAttempts: nat

    // The run loop: timers that will still fire, the next timer's number, the delayed blocks.
    var liveTimers: set<nat>
    var nextTimerId: nat
    var pending: multiset<DelayedTask>

    /** The reading sink (`DataManager.shared`). */
    const store: Store.ReadingStore

    /** Every request made of the radio, oldest first. */
    ghost var commands: seq<RadioCommand>
    /** Every value assigned to connectionStatus, oldest first. */
    ghost var statusTrace: seq<string>

    /**
     * The supervisor's invariant. At most one timer is live, and it is the
     * one reconnectTimer refers to; a live timer implies the reconnect flag;
     * the flag implies a remembered peripheral; the remembered peripheral is
     * the connected one.
     */
    ghost predicate Valid()
      reads this, store
    {
      && store.Valid()
      && (liveTimers == {} || (reconnectTimer.Some? && liveTimers == {reconnectTimer.value}))
      && (reconnectTimer.Some? ==> reconnectTimer.value < nextTimerId)
      && (liveTimers != {} ==> shouldReconnect)
      && (shouldReconnect ==> lastKnownPeripheral.Some?)
      && lastKnownPeripheral == connectedPeripheral
    }

    constructor (store: Store.ReadingStore)
      requires store.Valid()
      ensures Valid() && this.store == store
      ensures !isConnected && !isScanning && connectionStatus == StatusDisconnected
      ensures radioState == Unknown && !shouldReconnect && reconnectAttempts == 0
      ensures reconnectTimer == None && liveTimers == {} && pending == multiset{}
      ensures connectedPeripheral == None && lastKnownPeripheral == None
      ensures currentTemperature == 0.0 && currentHumidity == 0.0 && lastUpdateTime == None
      ensures heartRateCharacteristic == None && sensorPositionCharacteristic == None
      ensures commands == [] && statusTrace == []
    {
      isConnected, isScanning := false, false;
      currentTemperature, currentHumidity := 0.0, 0.0;
      connectionStatus, lastUpdateTime := StatusDisconnected, None;
      radioState := Unknown;
      connectedPeripheral, heartRateCharacteristic, sensorPositionCharacteristic := None, None, None;
      reconnectTimer, shouldReconnect, lastKnownPeripheral, reconnectAttempts := None, false, None, 0;
      liveTimers, nextTimerId, pending := {}, 0, multiset{};
      this.store := store;
      commands, statusTrace := [], [];
    }

    method SetStatus(status: string)
      modifies this`connectionStatus, this`statusTrace
      ensures connectionStatus == status && statusTrace == old(statusTrace) + [status]
    {
      connectionStatus := status;
      statusTrace := statusTrace + [status];
    }

    /** `startScanning()`: with the radio off it only reports so; otherwise it scans for the Heart Rate service and schedules the fallback scan and the 30 s timeout. */
    method StartScanning()
      requires Valid()
      modifies this`isScanning, this`connectionStatus, this`statusTrace, this`commands, this`pending
      ensures Valid()
      ensures connectionStatus == ScanStatus(radioState) && statusTrace == old(statusTrace) + [ScanStatus(radioState)]
      ensures isScanning == (old(isScanning) || radioState == PoweredOn)
      ensures commands == old(commands) + ScanCommands(radioState)
      ensures pending == old(pending) + ScanTasks(radioState)
    {
      if radioState != PoweredOn {
        SetStatus(StatusNotAvailable);
        return;
      }
      isScanning := true;
      SetStatus(StatusScanning);
      commands := commands + [ScanForServices([HeartRateService])];
      pending := pending + multiset{FallbackScan, ScanTimeout};
    }

    /** `stopScanning()`. */
    method StopScanning()
      requires Valid()
      modifies this`isScanning, this`commands
      ensures Valid()
      ensures !isScanning && commands == old(commands) + [StopScan]
    {
      commands := commands + [StopScan];
      isScanning := false;
    }

    /** `disconnect()`: no more automatic reconnection, the timer is invalidated (its reference is kept), the connection cancelled. */
    method Disconnect()
      requires Valid()
      modifies this`shouldReconnect, this`liveTimers, this`commands
      ensures Valid()
      ensures !shouldReconnect && liveTimers == {}
      ensures commands == old(commands) + (if connectedPeripheral.Some? then [CancelConnection(connectedPeripheral.value)] else [])
    {
      shouldReconnect := false;
      InvalidateTimer();
      if connectedPeripheral.Some? {
        commands := commands + [CancelConnection(connectedPeripheral.value)];
      }
    }

    /** `reconnectTimer?.invalidate()`. */
    method InvalidateTimer()
      modifies this`liveTimers
      ensures liveTimers == if reconnectTimer.Some? then old(liveTimers) - {reconnectTimer.value} else old(liveTimers)
    {
      if reconnectTimer.Some? {
        liveTimers := liveTimers - {reconnectTimer.value};
      }
    }

    /** `connectToPeripheral(_:)`: remembers the peripheral, asks to connect and resets the attempt counter. */
    method ConnectToPeripheral(p: Peripheral)
      modifies this`connectedPeripheral, this`lastKnownPeripheral, this`commands
      modifies this`connectionStatus, this`statusTrace, this`reconnectAttempts
      ensures connectedPeripheral == Some(p) && lastKnownPeripheral == Some(p)
      ensures commands == old(commands) + [Connect(p)]
      ensures connectionStatus == StatusConnecting && statusTrace == old(statusTrace) + [StatusConnecting]
      ensures reconnectAttempts == 0
    {
      connectedPeripheral := Some(p);
      lastKnownPeripheral := Some(p);
      commands := commands + [Connect(p)];
      SetStatus(StatusConnecting);
      reconnectAttempts := 0;
    }

    /**
     * `startReconnectionTimer()`: nothing unless the reconnect flag is set;
     * otherwise the old timer is invalidated before a new one is created,
     * so the new timer is the only live one.
     */
    method StartReconnectionTimer()
      requires Valid()
      modifies this`reconnectTimer, this`liveTimers, this`nextTimerId
      ensures Valid()
      ensures !shouldReconnect ==> reconnectTimer == old(reconnectTimer) && liveTimers == old(liveTimers) && nextTimerId == old(nextTimerId)
      ensures shouldReconnect ==>
        && old(nextTimerId) !in old(liveTimers)
        && reconnectTimer == Some(old(nextTimerId)) && liveTimers == {old(nextTimerId)}
        && nextTimerId == old(nextTimerId) + 1
    {
      if !shouldReconnect {
        return;
      }
      InvalidateTimer();
      var timer := nextTimerId;
      nextTimerId := nextTimerId + 1;
      reconnectTimer := Some(timer);
      liveTimers := liveTimers + {timer};
    }

    /** `stopReconnectionTimer()`. */
    method StopReconnectionTimer()
      requires Valid()
      modifies this`reconnectTimer, this`liveTimers
      ensures Valid()
      ensures reconnectTimer == None && liveTimers == {}
    {
      InvalidateTimer();
      reconnectTimer := None;
    }

    /**
     * One firing of the reconnection timer. The counter goes up by one.
     * Up to the ceiling the tick reports the attempt, asks to connect to the
     * remembered peripheral (there always is one while a timer is live) and
     * starts a scan, whose own status then replaces the attempt message.
     * Past the ceiling it reports failure and stops the timer.
     */
    method TimerTick(timer: nat)
      requires Valid() && timer in liveTimers
      modifies this`reconnectAttempts, this`connectionStatus, this`statusTrace, this`commands
      modifies this`isScanning, this`pending, this`liveTimers, this`reconnectTimer
      ensures Valid()
      ensures reconnectAttempts == old(reconnectAttempts) + 1
      ensures reconnectAttempts <= MaxReconnectAttempts ==>
        && connectionStatus == ScanStatus(radioState)
        && statusTrace == old(statusTrace) + [AttemptStatus(reconnectAttempts), ScanStatus(radioState)]
        && commands == old(commands) + [Connect(lastKnownPeripheral.value)] + ScanCommands(radioState)
        && pending == old(pending) + ScanTasks(radioState)
        && isScanning == (old(isScanning) || radioState == PoweredOn)
        && reconnectTimer == old(reconnectTimer) && liveTimers == old(liveTimers)
      ensures reconnectAttempts > MaxReconnectAttempts ==>
        && connectionStatus == StatusGaveUp && statusTrace == old(statusTrace) + [StatusGaveUp]
        && commands == old(commands) && pending == old(pending) && isScanning == old(isScanning)
        && reconnectTimer == None && liveTimers == {}
    {
      reconnectAttempts := reconnectAttempts + 1;
      if reconnectAttempts <= MaxReconnectAttempts {
        SetStatus(AttemptStatus(reconnectAttempts));
        if lastKnownPeripheral.Some? {
          commands := commands + [Connect(lastKnownPeripheral.value)];
        }
        StartScanning();
      } else {
        SetStatus(StatusGaveUp);
        StopReconnectionTimer();
      }
    }

    // -------------------------------------------------------------------
    // Central manager events

    /** `centralManagerDidUpdateState`: report the state; when powered on with the flag set, scan again. */
    method DidUpdateState(state: RadioState)
      requires Valid()
      modifies this`radioState, this`connectionStatus, this`statusTrace, this`isConnected
      modifies this`isScanning, this`commands, this`pending
      ensures Valid() && radioState == state
      ensures isConnected == (old(isConnected) && state != PoweredOff)
      ensures state == PoweredOn && shouldReconnect ==>
        && connectionStatus == StatusScanning
        && statusTrace == old(statusTrace) + [StateStatus(PoweredOn), StatusScanning]
        && isScanning
        && commands == old(commands) + [ScanForServices([HeartRateService])]
        && pending == old(pending) + multiset{FallbackScan, ScanTimeout}
      ensures !(state == PoweredOn && shouldReconnect) ==>
        && connectionStatus == StateStatus(state) && statusTrace == old(statusTrace) + [StateStatus(state)]
        && isScanning == old(isScanning) && commands == old(commands) && pending == old(pending)
    {
      radioState := state;
      match state
      case PoweredOn =>
        SetStatus(StateStatus(PoweredOn));
        if shouldReconnect {
          StartScanning();
        }
      case PoweredOff =>
        SetStatus(StateStatus(PoweredOff));
        isConnected := false;
      case _ =>
        SetStatus(StateStatus(state));
    }

    /**
     * `didDiscover`: the first device that passes the filter ends the scan,
     * sets the reconnect flag and is connected to; any other device changes nothing.
     */
    method DidDiscover(p: Peripheral, advertisesServices: bool)
      requires Valid()
      modifies this`isScanning, this`commands, this`shouldReconnect, this`connectedPeripheral
      modifies this`lastKnownPeripheral, this`connectionStatus, this`statusTrace, this`reconnectAttempts
      ensures Valid()
      ensures IsTargetDevice(p.name, advertisesServices) ==>
        && !isScanning && shouldReconnect
        && connectedPeripheral == Some(p) && lastKnownPeripheral == Some(p) && reconnectAttempts == 0
        && commands == old(commands) + [StopScan, Connect(p)]
        && connectionStatus == StatusConnecting && statusTrace == old(statusTrace) + [StatusConnecting]
      ensures !IsTargetDevice(p.name, advertisesServices) ==>
        && isScanning == old(isScanning) && shouldReconnect == old(shouldReconnect)
        && connectedPeripheral == old(connectedPeripheral) && lastKnownPeripheral == old(lastKnownPeripheral)
        && reconnectAttempts == old(reconnectAttempts) && commands == old(commands)
        && connectionStatus == old(connectionStatus) && statusTrace == old(statusTrace)
    {
      if IsTargetDevice(p.name, advertisesServices) {
        StopScanning();
        shouldReconnect := true;
        ConnectToPeripheral(p);
      }
    }

    /** `didConnect`: stop the timer, reset the counter, mark connected and discover the Heart Rate service. */
    method DidConnect(p: Peripheral)
      requires Valid()
      modifies this`liveTimers, this`reconnectTimer, this`reconnectAttempts, this`isConnected
      modifies this`connectionStatus, this`statusTrace, this`commands
      ensures Valid()
      ensures liveTimers == {} && reconnectTimer == None && reconnectAttempts == 0
      ensures isConnected && connectionStatus == StatusConnected && statusTrace == old(statusTrace) + [StatusConnected]
      ensures commands == old(commands) + [DiscoverServices(p, [HeartRateService])]
    {
      StopReconnectionTimer();
      reconnectAttempts := 0;
      isConnected := true;
      SetStatus(StatusConnected);
      commands := commands + [DiscoverServices(p, [HeartRateService])];
    }

    /**
     * `didDisconnectPeripheral`: mark disconnected and forget the
     * measurement characteristic; with the flag set, schedule both the
     * immediate reconnection and the timer start.
     */
    method DidDisconnect(p: Peripheral)
      requires Valid()
      modifies this`isConnected, this`connectionStatus, this`statusTrace, this`heartRateCharacteristic, this`pending
      ensures Valid()
      ensures !isConnected && heartRateCharacteristic == None
      ensures connectionStatus == StatusLinkLost && statusTrace == old(statusTrace) + [StatusLinkLost]
      ensures pending == old(pending) + (if shouldReconnect then multiset{ImmediateReconnect, ResumeAfterDisconnect} else multiset{})
    {
      isConnected := false;
      SetStatus(StatusLinkLost);
      heartRateCharacteristic := None;
      if shouldReconnect {
        pending := pending + multiset{ImmediateReconnect, ResumeAfterDisconnect};
      }
    }

    /** `didFailToConnect`: report it; with the flag set, schedule the timer start. */
    method DidFailToConnect(p: Peripheral)
      requires Valid()
      modifies this`connectionStatus, this`statusTrace, this`pending
      ensures Valid()
      ensures connectionStatus == StatusConnectFailed && statusTrace == old(statusTrace) + [StatusConnectFailed]
      ensures pending == old(pending) + (if shouldReconnect then multiset{RetryAfterFailure} else multiset{})
    {
      SetStatus(StatusConnectFailed);
      if shouldReconnect {
        pending := pending + multiset{RetryAfterFailure};
      }
    }

    // -------------------------------------------------------------------
    // Delayed blocks

    /** startScanning's block after 1 s: while still scanning, scan for every peripheral. */
    method RunFallbackScan()
      requires Valid() && FallbackScan in pending
      modifies this`pending, this`commands
      ensures Valid()
      ensures pending == old(pending) - multiset{FallbackScan}
      ensures commands == old(commands) + (if isScanning then [ScanAll] else [])
    {
      pending := pending - multiset{FallbackScan};
      if isScanning {
        commands := commands + [ScanAll];
      }
    }

    /** startScanning's block after 30 s: if still scanning, stop, report and start the timer. */
    method RunScanTimeout()
      requires Valid() && ScanTimeout in pending
      modifies this`pending, this`isScanning, this`commands, this`connectionStatus, this`statusTrace
      modifies this`reconnectTimer, this`liveTimers, this`nextTimerId
      ensures Valid()
      ensures pending == old(pending) - multiset{ScanTimeout}
      ensures old(isScanning) ==>
        && !isScanning && commands == old(commands) + [StopScan]
        && connectionStatus == StatusNotFound && statusTrace == old(statusTrace) + [StatusNotFound]
        && (shouldReconnect ==> reconnectTimer == Some(old(nextTimerId)) && liveTimers == {old(nextTimerId)})
        && (!shouldReconnect ==> reconnectTimer == old(reconnectTimer) && liveTimers == old(liveTimers))
      ensures !old(isScanning) ==>
        && !isScanning && commands == old(commands)
        && connectionStatus == old(connectionStatus) && statusTrace == old(statusTrace)
        && reconnectTimer == old(reconnectTimer) && liveTimers == old(liveTimers) && nextTimerId == old(nextTimerId)
    {
      pending := pending - multiset{ScanTimeout};
      if isScanning {
        StopScanning();
        SetStatus(StatusNotFound);
        StartReconnectionTimer();
      }
    }

    /** didDisconnectPeripheral's block after 1 s: ask to connect to the remembered peripheral. */
    method RunImmediateReconnect()
      requires Valid() && ImmediateReconnect in pending
      modifies this`pending, this`commands
      ensures Valid()
      ensures pending == old(pending) - multiset{ImmediateReconnect}
      ensures commands == old(commands) + ReconnectCommands(lastKnownPeripheral)
    {
      pending := pending - multiset{ImmediateReconnect};
      if lastKnownPeripheral.Some? {
        commands := commands + [Connect(lastKnownPeripheral.value)];
      }
    }

    /** didDisconnectPeripheral's block after 2 s: report that the sensor may sleep and start the timer. */
    method RunResumeAfterDisconnect()
      requires Valid() && ResumeAfterDisconnect in pending
      modifies this`pending, this`connectionStatus, this`statusTrace
      modifies this`reconnectTimer, this`liveTimers, this`nextTimerId
      ensures Valid()
      ensures pending == old(pending) - multiset{ResumeAfterDisconnect}
      ensures connectionStatus == StatusSleeping && statusTrace == old(statusTrace) + [StatusSleeping]
      ensures shouldReconnect ==> reconnectTimer == Some(old(nextTimerId)) && liveTimers == {old(nextTimerId)}
      ensures !shouldReconnect ==> reconnectTimer == old(reconnectTimer) && liveTimers == old(liveTimers)
    {
      pending := pending - multiset{ResumeAfterDisconnect};
      SetStatus(StatusSleeping);
      StartReconnectionTimer();
    }

    /** didFailToConnect's block after 2 s: start the timer. */
    method RunRetryAfterFailure()
      requires Valid() && RetryAfterFailure in pending
      modifies this`pending, this`reconnectTimer, this`liveTimers, this`nextTimerId
      ensures Valid()
      ensures pending == old(pending) - multiset{RetryAfterFailure}
      ensures shouldReconnect ==> reconnectTimer == Some(old(nextTimerId)) && liveTimers == {old(nextTimerId)}
      ensures !shouldReconnect ==> reconnectTimer == old(reconnectTimer) && liveTimers == old(liveTimers)
    {
      pending := pending - multiset{RetryAfterFailure};
      StartReconnectionTimer();
    }

    // -------------------------------------------------------------------
    // Peripheral events

    /** `didDiscoverServices`: for each Heart Rate service, discover its two characteristics. */
    method DidDiscoverServices(p: Peripheral, services: Option<seq<Service>>)
      requires Valid()
      modifies this`commands
      ensures Valid()
      ensures commands == old(commands) + (if services.Some? then CharacteristicDiscovery(p, services.value) else [])
    {
      if services.None? {
        return;
      }
      var all := services.value;
      var i := 0;
      while i < |all|
        invariant 0 <= i <= |all|
        invariant commands == old(commands) + CharacteristicDiscovery(p, all[..i])
      {
        var sv := all[i];
        assert all[..i + 1] == all[..i] + [sv];
        DiscoveryStep(p, all[..i], sv);
        HandleService(p, sv);
        i := i + 1;
      }
      assert all[..i] == all;
    }

    /** The body of the loop in `didDiscoverServices`, for one service. */
    method HandleService(p: Peripheral, sv: Service)
      modifies this`commands
      ensures commands == old(commands) +
        (if sv.uuid == HeartRateService then [DiscoverCharacteristics(p, sv, [HeartRateMeasurement, SensorPosition])] else [])
    {
      if sv.uuid == HeartRateService {
        commands := commands + [DiscoverCharacteristics(p, sv, [HeartRateMeasurement, SensorPosition])];
      }
    }

    /** `didDiscoverCharacteristicsFor`: subscribe to the measurement, read the position. */
    method DidDiscoverCharacteristics(p: Peripheral, service: Service, characteristics: Option<seq<Characteristic>>)
      requires Valid()
      modifies this`heartRateCharacteristic, this`sensorPositionCharacteristic, this`commands
      ensures Valid()
      ensures characteristics.None? ==>
        && commands == old(commands)
        && heartRateCharacteristic == old(heartRateCharacteristic)
        && sensorPositionCharacteristic == old(sensorPositionCharacteristic)
      ensures characteristics.Some? ==>
        && commands == old(commands) + CharacteristicSetup(p, characteristics.value)
        && heartRateCharacteristic == LastOfKind(characteristics.value, HeartRateMeasurement, old(heartRateCharacteristic))
        && sensorPositionCharacteristic == LastOfKind(characteristics.value, SensorPosition, old(sensorPositionCharacteristic))
    {
      if characteristics.None? {
        return;
      }
      var all := characteristics.value;
      var i := 0;
      while i < |all|
        invariant 0 <= i <= |all|
        invariant commands == old(commands) + CharacteristicSetup(p, all[..i])
        invariant heartRateCharacteristic == LastOfKind(all[..i], HeartRateMeasurement, old(heartRateCharacteristic))
        invariant sensorPositionCharacteristic == LastOfKind(all[..i], SensorPosition, old(sensorPositionCharacteristic))
      {
        var c := all[i];
        assert all[..i + 1] == all[..i] + [c];
        SetupStep(p, all[..i], c);
        LastOfKindStep(all[..i], c, HeartRateMeasurement, old(heartRateCharacteristic));
        LastOfKindStep(all[..i], c, SensorPosition, old(sensorPositionCharacteristic));
        HandleCharacteristic(p, c);
        i := i + 1;
      }
      assert all[..i] == all;
    }

    /** The body of the loop in `didDiscoverCharacteristicsFor`, for one characteristic. */
    method HandleCharacteristic(p: Peripheral, c: Characteristic)
      modifies this`heartRateCharacteristic, this`sensorPositionCharacteristic, this`commands
      ensures c.uuid == HeartRateMeasurement ==>
        heartRateCharacteristic == Some(c) && sensorPositionCharacteristic == old(sensorPositionCharacteristic)
      ensures c.uuid == SensorPosition ==>
        heartRateCharacteristic == old(heartRateCharacteristic) && sensorPositionCharacteristic == Some(c)
      ensures c.uuid != HeartRateMeasurement && c.uuid != SensorPosition ==>
        heartRateCharacteristic == old(heartRateCharacteristic) && sensorPositionCharacteristic == old(sensorPositionCharacteristic)
      ensures commands == old(commands) +
        (if c.uuid == HeartRateMeasurement then [SubscribeNotifications(p, c)]
         else if c.uuid == SensorPosition then [ReadValue(p, c)]
         else [])
    {
      if c.uuid == HeartRateMeasurement {
        heartRateCharacteristic := Some(c);
        commands := commands + [SubscribeNotifications(p, c)];
      } else if c.uuid == SensorPosition {
        sensorPositionCharacteristic := Some(c);
        commands := commands + [ReadValue(p, c)];
      }
    }

    /** `didUpdateValueFor`: a value of the measurement characteristic goes to the decoder. */
    method DidUpdateValue(c: Characteristic, value: Option<seq<byte>>, now: int)
      requires Valid()
      modifies this`currentTemperature, this`currentHumidity, this`lastUpdateTime, store
      ensures Valid()
      ensures (value.None? || c.uuid != HeartRateMeasurement) ==>
        && currentTemperature == old(currentTemperature) && currentHumidity == old(currentHumidity)
        && lastUpdateTime == old(lastUpdateTime) && store.readings == old(store.readings)
      ensures value.Some? && c.uuid == HeartRateMeasurement ==>
        match DecodeTemperature(value.value)
        case None =>
          currentTemperature == old(currentTemperature) && currentHumidity == old(currentHumidity) &&
          lastUpdateTime == old(lastUpdateTime) && store.readings == old(store.readings)
        case Some(celsius) =>
          currentTemperature == celsius && currentHumidity == HumidityPlaceholder && lastUpdateTime == Some(now) &&
          store.readings == Store.Retained(old(store.readings) + [Reading(celsius, HumidityPlaceholder, now)])
    {
      if value.None? {
        return;
      }
      if c.uuid == HeartRateMeasurement {
        HandleHeartRateData(value.value, now);
      }
    }

    /**
     * `handleHeartRateData(_:)`: a payload shorter than two bytes changes
     * nothing; otherwise the decoded temperature becomes the current one and
     * is saved, with the placeholder humidity, as a reading stamped now.
     */
    method HandleHeartRateData(data: seq<byte>, now: int)
      requires Valid()
      modifies this`currentTemperature, this`currentHumidity, this`lastUpdateTime, store
      ensures Valid()
      ensures |data| < 2 ==>
        && currentTemperature == old(currentTemperature) && currentHumidity == old(currentHumidity)
        && lastUpdateTime == old(lastUpdateTime) && store.readings == old(store.readings)
      ensures |data| >= 2 ==>
        var celsius := Scale.ToCelsius(data[1] as real);
        && currentTemperature == celsius && currentHumidity == HumidityPlaceholder && lastUpdateTime == Some(now)
        && store.readings == Store.Retained(old(store.readings) + [Reading(celsius, HumidityPlaceholder, now)])
        && store.LatestReading() == Some(Reading(celsius, HumidityPlaceholder, now))
    {
      var decoded := DecodeTemperature(data);
      if decoded.None? {
        return;
      }
      var temperatureC := decoded.value;
      var humidity := HumidityPlaceholder;
      currentTemperature := temperatureC;
      currentHumidity := humidity;
      lastUpdateTime := Some(now);
      store.SaveTemperature(temperatureC, humidity, now);
    }
  }
}
