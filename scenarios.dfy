/**
 * Client code that drives the supervisor through event sequences and
 * checks, from the method contracts alone, what the source's behaviour
 * implies for them.
 */
module Scenarios {
  import opened Wrappers
  import opened Bluetooth
  import Store

  /**
   * The radio powers on, the app starts scanning, and a sensor advertising
   * the Heart Rate service is discovered: the scan stops, the reconnect
   * flag is set and a connection is requested, while the scan's fallback
   * and timeout blocks are still pending.
   */
  method Discovered(p: Peripheral) returns (supervisor: ConnectionSupervisor)
    ensures fresh(supervisor) && supervisor.Valid()
    ensures supervisor.shouldReconnect && supervisor.reconnectAttempts == 0
    ensures supervisor.connectedPeripheral == Some(p) && supervisor.lastKnownPeripheral == Some(p)
    ensures supervisor.radioState == PoweredOn && !supervisor.isScanning && supervisor.liveTimers == {}
    ensures supervisor.pending == multiset{FallbackScan, ScanTimeout}
    ensures supervisor.commands == [ScanForServices([HeartRateService]), StopScan, Connect(p)]
  {
    var store := new Store.ReadingStore();
    supervisor := new ConnectionSupervisor(store);
    supervisor.DidUpdateState(PoweredOn);
    supervisor.StartScanning();
    supervisor.DidDiscover(p, true);
  }

  /**
   * The discovered sensor connects: the supervisor is linked to it, will
   * reconnect to it and has no timer, but the scan's fallback and timeout
   * blocks are still pending.
   */
  method Linked(p: Peripheral) returns (supervisor: ConnectionSupervisor)
    ensures fresh(supervisor) && supervisor.Valid()
    ensures supervisor.isConnected && supervisor.shouldReconnect && supervisor.reconnectAttempts == 0
    ensures supervisor.connectedPeripheral == Some(p) && supervisor.lastKnownPeripheral == Some(p)
    ensures supervisor.radioState == PoweredOn && !supervisor.isScanning && supervisor.liveTimers == {}
    ensures supervisor.pending == multiset{FallbackScan, ScanTimeout}
  {
    supervisor := Discovered(p);
    supervisor.DidConnect(p);
  }

  /**
   * The linked sensor goes to sleep and the link drops: with the flag set,
   * the immediate reconnect and the timer start join the scan's blocks.
   */
  method Dropped(p: Peripheral) returns (supervisor: ConnectionSupervisor)
    ensures fresh(supervisor) && supervisor.Valid()
    ensures !supervisor.isConnected && supervisor.shouldReconnect && supervisor.reconnectAttempts == 0
    ensures supervisor.connectedPeripheral == Some(p) && supervisor.lastKnownPeripheral == Some(p)
    ensures supervisor.radioState == PoweredOn && !supervisor.isScanning && supervisor.liveTimers == {}
    ensures supervisor.pending == multiset{FallbackScan, ScanTimeout, ImmediateReconnect, ResumeAfterDisconnect}
  {
    supervisor := Linked(p);
    supervisor.DidDisconnect(p);
  }

  /**
   * A connected sensor goes to sleep: the link drops with the reconnect
   * flag set, the supervisor asks to reconnect to the same peripheral one
   * second later and starts exactly one reconnection timer after two.
   */
  method SleepingSensor(p: Peripheral) returns (target: Option<Peripheral>, timers: nat)
    ensures target == Some(p) && timers == 1
  {
    var supervisor := Dropped(p);
    supervisor.RunImmediateReconnect();
    assert supervisor.commands[|supervisor.commands| - 1] == Connect(p);
    target := supervisor.lastKnownPeripheral;
    assert ResumeAfterDisconnect in supervisor.pending;
    supervisor.RunResumeAfterDisconnect();
    timers := |supervisor.liveTimers|;
  }

  /**
   * After the user disconnects, the blocks the disconnection event
   * scheduled still run. No timer is started, but the immediate reconnect
   * does not look at the cleared flag: it still asks to connect, and when
   * the sensor answers the supervisor is connected again with the flag
   * still clear.
   */
  method UserDisconnect(p: Peripheral) returns (timers: nat, connected: bool, willReconnect: bool)
    ensures timers == 0 && connected && !willReconnect
  {
    var supervisor := Dropped(p);
    supervisor.Disconnect();
    assert supervisor.commands[|supervisor.commands| - 1] == CancelConnection(p);
    supervisor.RunResumeAfterDisconnect();
    assert ImmediateReconnect in supervisor.pending;
    supervisor.RunImmediateReconnect();
    assert supervisor.commands[|supervisor.commands| - 1] == Connect(p);
    timers := |supervisor.liveTimers|;
    supervisor.DidConnect(p);
    connected, willReconnect := supervisor.isConnected, supervisor.shouldReconnect;
  }

  /**
   * The dropped sensor's timer starts and ticks once: a new scan is
   * running while the first scan's timeout is still pending.
   */
  method Rescanning(p: Peripheral) returns (supervisor: ConnectionSupervisor)
    ensures fresh(supervisor) && supervisor.Valid()
    ensures supervisor.shouldReconnect && supervisor.isScanning && ScanTimeout in supervisor.pending
    ensures supervisor.pending[ScanTimeout] == 2
  {
    supervisor := Dropped(p);
    supervisor.RunResumeAfterDisconnect();
    var timer := supervisor.reconnectTimer.value;
    supervisor.TimerTick(timer);
  }

  /**
   * The timeout of the scan that found the sensor is still pending after
   * the link is made. When it runs after the sensor has gone to sleep and
   * the first timer tick has started a new scan, it stops that scan and
   * reports the sensor as not found, then starts a fresh timer.
   */
  method StaleScanTimeout(p: Peripheral) returns (scanning: bool, status: string, timers: nat)
    ensures !scanning && status == StatusNotFound && timers == 1
  {
    var supervisor := Rescanning(p);
    supervisor.RunScanTimeout();
    scanning, status, timers := supervisor.isScanning, supervisor.connectionStatus, |supervisor.liveTimers|;
  }

  /** A sensor that never answers: the timer runs until the counter reaches the ceiling. */
  method TickToCeiling(p: Peripheral) returns (supervisor: ConnectionSupervisor, timer: nat)
    ensures fresh(supervisor) && supervisor.Valid()
    ensures supervisor.liveTimers == {timer} && supervisor.reconnectAttempts == MaxReconnectAttempts
    ensures supervisor.radioState == PoweredOn && supervisor.isScanning && ScanTimeout in supervisor.pending
  {
    supervisor := Discovered(p);
    supervisor.DidFailToConnect(p);
    supervisor.RunRetryAfterFailure();
    timer := supervisor.reconnectTimer.value;
    while supervisor.reconnectAttempts < MaxReconnectAttempts
      invariant fresh(supervisor) && supervisor.Valid()
      invariant supervisor.liveTimers == {timer} && supervisor.radioState == PoweredOn
      invariant supervisor.reconnectAttempts <= MaxReconnectAttempts
      invariant supervisor.reconnectAttempts > 0 ==> supervisor.isScanning && ScanTimeout in supervisor.pending
      decreases MaxReconnectAttempts - supervisor.reconnectAttempts
    {
      supervisor.TimerTick(timer);
    }
  }

  /**
   * The give-up after MaxReconnectAttempts ticks is not final: each tick
   * up to the ceiling started a scan whose 30 s timeout is still pending,
   * and the first of those to run finds the scan still going and starts a
   * new timer, whose tick counts attempt 102 and gives up again.
   */
  method GiveUpIsNotFinal(p: Peripheral) returns (restartedTimers: nat, finalAttempts: nat, finalStatus: string)
    ensures restartedTimers == 1
    ensures finalAttempts == MaxReconnectAttempts + 2 && finalStatus == StatusGaveUp
  {
    var supervisor, timer := TickToCeiling(p);
    supervisor.TimerTick(timer);
    assert supervisor.reconnectAttempts == MaxReconnectAttempts + 1;
    assert supervisor.connectionStatus == StatusGaveUp && supervisor.liveTimers == {};

    supervisor.RunScanTimeout();
    assert supervisor.connectionStatus == StatusNotFound;
    var restarted := supervisor.reconnectTimer.value;
    assert supervisor.liveTimers == {restarted};
    restartedTimers := |supervisor.liveTimers|;

    supervisor.TimerTick(restarted);
    assert supervisor.liveTimers == {};
    finalAttempts, finalStatus := supervisor.reconnectAttempts, supervisor.connectionStatus;
  }
}
