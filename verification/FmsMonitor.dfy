/** The FOTA monitory service: one slot for a request, and the monitors that wait for it. */
module FmsMonitor {
  import opened Common

  // Commands, which are also the reasons and kinds of what is monitored.
  const NO_INTERRUPT := 0
  const USER_INTERRUPT := 10
  const NETWORK_INTERRUPT := 11
  const MEMORY_INTERRUPT := 12
  const GENERAL_INTERRUPT := 13
  const BATTERY := 20
  const CALL_END := 22
  /** The reason in the record that is written when a kind of interrupt is not monitored. */
  const DUMMY := -1

  const MAX_BATTERY_LEVEL := 7

  datatype Bearer = Gprs | Wcdma | Wlan

  /** Which interrupts this variant monitors. */
  datatype Config = Config(charger: bool, network: bool, memory: bool, phoneRestart: bool)

  /** What the service finds out from its surroundings while it handles one event. */
  datatype World = World(
    networkUp: bool,
    phoneOnline: bool,
    spaceCritical: bool,
    fileServerOk: bool,
    telephonyOk: bool,
    callActive: bool,
    remindersOk: bool,
    charging: bool,
    statusOk: bool,
    supported: bool,
    available: bool,
    batteryLevel: Option<int>,
    bearer: Option<Bearer>,
    wlanSession: bool,
    sizeOk: bool)

  datatype RequestKind =
    | UserInterrupt | NetworkInterrupt | MemoryInterrupt | GeneralInterrupt
    | StartUp | Cancel | MonitorBattery(level: int) | PhoneCallActive | MonitorCallEnd | UnknownRequest

  datatype Timer = NoTimer | NetworkTimer | CallEndTimer

  // ------------------------------------------------------------------------------------------
  // Starting monitors
  // ------------------------------------------------------------------------------------------

  /** The slot, what is armed (active object, connection notification, network poll), the pending
      timer, what is monitored, and the reason in the record file, if it is not empty. */
  datatype Monitor = Monitor(
    count: int,
    running: bool,
    active: bool,
    notified: bool,
    polling: bool,
    timer: Timer,
    interrupt: int,
    update: int,
    charge: int,
    bearer: Option<Bearer>,
    reason: Option<int>)

  /** The slot is taken, unless the scheduler has been stopped. */
  predicate Locked(m: Monitor) {
    m.running ==> m.count == 1
  }

  /** The new monitor, and whether the code left. */
  datatype Outcome = Outcome(m: Monitor, ok: bool)

  /** Nothing but what is armed, and the kind of monitor, changes; the slot stays as it is unless the
      scheduler stops. */
  predicate Continues(m: Monitor, r: Monitor) {
    && r.reason == m.reason && r.timer == m.timer
    && (r.running ==> m.running && r.count == m.count)
  }

  function Stop(m: Monitor): (r: Monitor)
    ensures !r.running && Continues(m, r)
  {
    m.(count := 0, running := false)
  }

  function StartL(m: Monitor, kind: int, c: Config, w: World): (r: Outcome)
    ensures Continues(m, r.m)
  {
    var n := m.(interrupt := kind);
    if kind == USER_INTERRUPT && c.charger then Outcome(n.(active := true), true)
    else if kind == NETWORK_INTERRUPT && c.network then
      if n.active then Outcome(n, true)
      else if (n.bearer == Some(Gprs) || n.bearer == Some(Wcdma)) && w.phoneOnline then
        Outcome(n.(notified := true), true)
      else if n.bearer == Some(Wlan) then Outcome(n.(active := true), true)
      else Outcome(Stop(n), true)
    else if kind == MEMORY_INTERRUPT && c.memory then
      if n.active then Outcome(n, true)
      else if !w.fileServerOk then Outcome(n, false)
      else if w.spaceCritical then Outcome(n.(active := true), true)
      else Outcome(Stop(n), true)
    else Outcome(Stop(n), true)
  }

  /** Takes the slot and starts a monitor, if the slot is free. */
  function StartMonitoring(m: Monitor, kind: int, c: Config, w: World): (r: Outcome)
    ensures r.m.reason == m.reason && r.m.timer == m.timer
    ensures 0 <= m.count <= 1 ==> Locked(r.m)
    ensures m.count != 0 ==> r == Outcome(m, true)
  {
    if m.count == 0 then StartL(m.(count := m.count + 1), kind, c, w) else Outcome(m, true)
  }

  function CheckBattery(m: Monitor, w: World): (r: Monitor)
    ensures Continues(m, r)
  {
    var n := if w.batteryLevel.None? then Stop(m) else m;
    var level := if w.batteryLevel.None? then 0 else w.batteryLevel.value;
    if level >= m.charge then Stop(n.(update := NO_INTERRUPT)) else n.(active := true)
  }

  function StartBattery(m: Monitor, level: int, w: World): (r: Outcome)
    ensures r.m.reason == m.reason && r.m.timer == m.timer
    ensures 0 <= m.count <= 1 ==> Locked(r.m)
    ensures m.count != 0 ==> r == Outcome(m, true)
  {
    if m.count != 0 then Outcome(m, true)
    else
      var n := m.(count := m.count + 1);
      if !(0 < level <= MAX_BATTERY_LEVEL) then Outcome(n, false)
      else Outcome(CheckBattery(n.(update := BATTERY, charge := level), w), true)
  }

  function StartCallEnd(m: Monitor, w: World): (r: Outcome)
    ensures Continues(m, r.m)
  {
    if m.active then Outcome(m, true)
    else
      var n := m.(update := CALL_END);
      if !w.telephonyOk then Outcome(n, false) else Outcome(n.(active := true), true)
  }

  /** Writes the record, unless a request holds the slot. */
  function WriteToFile(m: Monitor, reason: int): Monitor {
    if m.count == 0 then m.(reason := Some(reason)) else m
  }

  // ------------------------------------------------------------------------------------------
  // Monitors that complete
  // ------------------------------------------------------------------------------------------

  /** The awaited condition holds; the network may have to be waited for as well. */
  function ConditionMet(m: Monitor, c: Config, w: World): (r: Monitor)
    ensures m.count != 0 ==> Continues(m, r)
  {
    if c.network && !w.networkUp then StartL(WriteToFile(m, NETWORK_INTERRUPT), NETWORK_INTERRUPT, c, w).m
    else Stop(m)
  }

  /** The active object completes. */
  function RunL(m: Monitor, c: Config, w: World): (r: Monitor)
    ensures m.count != 0 ==> Continues(m, r)
  {
    var n := m.(active := false);
    if n.update == CALL_END then
      if w.statusOk && !w.callActive then Stop(n) else n.(active := true)
    else if n.update == BATTERY then CheckBattery(n, w)
    else if n.interrupt == USER_INTERRUPT then
      if w.charging then ConditionMet(n, c, w) else n.(active := true)
    else if n.interrupt == NETWORK_INTERRUPT then
      if n.bearer != Some(Wlan) then n
      else if (w.available && w.statusOk) || !w.supported then Stop(n)
      else n.(active := true)
    else if n.interrupt == MEMORY_INTERRUPT then
      if !w.statusOk then Stop(n)
      else if w.spaceCritical then n.(active := true)
      else ConditionMet(n, c, w)
    else n
  }

  /** The connection monitor reports, or the network is polled. */
  function NetworkEvent(m: Monitor, w: World): (r: Monitor)
    ensures Continues(m, r)
  {
    if w.available && w.networkUp then Stop(m) else m
  }

  function Poll(m: Monitor, w: World): (r: Monitor)
    ensures Continues(m, r)
  {
    if w.networkUp then Stop(m.(polling := false)) else m
  }

  function TimerFires(m: Monitor, c: Config, w: World): Monitor {
    (match m.timer
     case NetworkTimer => StartMonitoring(m, NETWORK_INTERRUPT, c, w).m
     case CallEndTimer => StartCallEnd(m, w).m
     case NoTimer => m).(timer := NoTimer)
  }

  // ------------------------------------------------------------------------------------------
  // Requests
  // ------------------------------------------------------------------------------------------

  /** The new monitor, whether the code left, and whether the session is to stop the server when it
      ends. */
  datatype Reply = Reply(m: Monitor, ok: bool, stop: bool)

  function NetworkType(m: Monitor, bearer: Bearer): Monitor {
    if m.count == 0 then m.(bearer := Some(bearer)) else m
  }

  /** This kind of interrupt is not monitored. */
  function NotMonitored(m: Monitor): Reply {
    Reply(WriteToFile(m, DUMMY), true, true)
  }

  function Monitored(m: Monitor, kind: int, stop: bool, c: Config, w: World): Reply {
    var r := StartMonitoring(WriteToFile(m, kind), kind, c, w);
    Reply(r.m, r.ok, stop)
  }

  /** A request for a download interrupt, once its bearer is known. */
  function DownloadInterrupt(m: Monitor, kind: RequestKind, stop: bool, c: Config, w: World): Reply {
    match kind
    case UserInterrupt =>
      if !w.remindersOk then Reply(m, false, stop)
      else if c.charger then Monitored(m, USER_INTERRUPT, stop, c, w)
      else NotMonitored(m)
    case GeneralInterrupt => if c.charger then Monitored(m, USER_INTERRUPT, stop, c, w) else NotMonitored(m)
    case MemoryInterrupt =>
      if !c.memory then NotMonitored(m)
      else if !w.sizeOk then Reply(m, false, stop)
      else Monitored(m, MEMORY_INTERRUPT, stop, c, w)
    case NetworkInterrupt =>
      if !c.network || (w.wlanSession && w.networkUp) then NotMonitored(m)
      else Reply(WriteToFile(m, NETWORK_INTERRUPT).(timer := NetworkTimer), true, stop)
    case _ => Reply(m, false, true)
  }

  /** The phone has started without a record of an interrupt. */
  function TriggerFota(m: Monitor, c: Config, w: World): Monitor {
    if c.network && !w.networkUp && w.phoneOnline then m.(polling := true) else Stop(m)
  }

  /** The phone has started, and the record names an interrupt. */
  function ResumeInterrupt(m: Monitor, reason: int, stop: bool, c: Config, w: World): Reply {
    if w.bearer.None? || (w.bearer == Some(Wlan) && reason == NETWORK_INTERRUPT)
       || reason < USER_INTERRUPT || reason > GENERAL_INTERRUPT
    then Reply(if w.bearer.Some? then NetworkType(m, w.bearer.value) else m, true, true)
    else
      var n := NetworkType(m, w.bearer.value);
      if reason != USER_INTERRUPT && reason != GENERAL_INTERRUPT then
        var r := StartMonitoring(n, reason, c, w);
        Reply(r.m, r.ok, stop)
      else if !c.network || w.networkUp then Reply(Stop(n), true, stop)
      else
        var r := StartMonitoring(WriteToFile(n, NETWORK_INTERRUPT), NETWORK_INTERRUPT, c, w);
        Reply(r.m, r.ok, stop)
  }

  function OnStartUp(m: Monitor, stop: bool, c: Config, w: World): Reply {
    if !c.phoneRestart then Reply(m, true, true)
    else if m.reason.None? then
      var n := NetworkType(m, if w.bearer == Some(Wcdma) then Wcdma else Gprs);
      Reply(TriggerFota(n.(count := n.count + 1), c, w), true, stop)
    else ResumeInterrupt(m, m.reason.value, stop, c, w)
  }

  function OnCallEnd(m: Monitor, w: World): Reply {
    if w.callActive then Reply(m.(count := m.count + 1, timer := CallEndTimer), true, false)
    else Reply(m.(count := 0), true, true)
  }

  function Dispatch(m: Monitor, kind: RequestKind, stop: bool, c: Config, w: World): Reply {
    match kind
    case StartUp => OnStartUp(m, stop, c, w)
    case Cancel => Reply(m, true, true)
    case MonitorBattery(level) =>
      var r := StartBattery(m, level, w);
      Reply(r.m, r.ok, stop)
    case PhoneCallActive => Reply(m.(count := 0), true, true)
    case MonitorCallEnd => OnCallEnd(m, w)
    case _ =>
      if w.bearer.None? then Reply(m, false, true)
      else DownloadInterrupt(NetworkType(m, w.bearer.value), kind, stop, c, w)
  }

  // ------------------------------------------------------------------------------------------
  // The state machine
  // ------------------------------------------------------------------------------------------

  /** The monitor, and for every session whether it stops the server when it ends. */
  datatype Server = Server(m: Monitor, sessions: map<nat, bool>)

  datatype Event =
    | Connects(id: nat)
    | Request(id: nat, kind: RequestKind, permitted: bool)
    | Closes(id: nat)
    | ActiveObjectRuns
    | ConnectionEvent
    | PollTimer
    | RequestTimer

  const INITIAL: Server :=
    Server(Monitor(0, true, false, false, false, NoTimer, NO_INTERRUPT, NO_INTERRUPT, 0, None, None), map[])

  function Service(s: Server, id: nat, kind: RequestKind, permitted: bool, c: Config, w: World): Server
    requires id in s.sessions
  {
    if !permitted then s.(sessions := s.sessions[id := true])
    else if s.m.count > 0 && kind != Cancel then s
    else
      var r := Dispatch(s.m, kind, s.sessions[id], c, w);
      Server(r.m, s.sessions[id := r.stop || !r.ok])
  }

  predicate Enabled(s: Server, e: Event) {
    && s.m.running
    && match e
       case Connects(id) => id !in s.sessions
       case Request(id, _, _) => id in s.sessions
       case Closes(id) => id in s.sessions
       case ActiveObjectRuns => s.m.active
       case ConnectionEvent => s.m.notified
       case PollTimer => s.m.polling
       case RequestTimer => s.m.timer != NoTimer
  }

  function Step(s: Server, e: Event, c: Config, w: World): Server
    requires Enabled(s, e)
  {
    match e
    case Connects(id) => s.(sessions := s.sessions[id := false])
    case Request(id, kind, permitted) => Service(s, id, kind, permitted, c, w)
    case Closes(id) => Server(if s.sessions[id] then Stop(s.m) else s.m, s.sessions - {id})
    case ActiveObjectRuns => s.(m := RunL(s.m, c, w))
    case ConnectionEvent => s.(m := NetworkEvent(s.m, w))
    case PollTimer => s.(m := Poll(s.m, w))
    case RequestTimer => s.(m := TimerFires(s.m, c, w))
  }

  // ------------------------------------------------------------------------------------------
  // One monitor at a time
  // ------------------------------------------------------------------------------------------

  predicate Armed(m: Monitor) {
    m.active || m.notified || m.polling
  }

  /** While the scheduler runs, the slot holds at most one request, and a monitor that is armed, or
      about to be armed for the end of a call, holds it. */
  predicate OneMonitor(m: Monitor) {
    m.running ==> 0 <= m.count <= 1 && (Armed(m) || m.timer == CallEndTimer ==> m.count == 1)
  }

  lemma DownloadInterruptKeeps(m: Monitor, kind: RequestKind, stop: bool, c: Config, w: World)
    requires OneMonitor(m) && m.running && m.count == 0
    ensures OneMonitor(DownloadInterrupt(m, kind, stop, c, w).m)
  {
    hide StartMonitoring;
  }

  lemma StartUpKeeps(m: Monitor, stop: bool, c: Config, w: World)
    requires OneMonitor(m) && m.running && m.count == 0
    ensures OneMonitor(OnStartUp(m, stop, c, w).m)
  {
    hide StartMonitoring;
  }

  lemma DispatchKeeps(m: Monitor, kind: RequestKind, stop: bool, c: Config, w: World)
    requires OneMonitor(m) && m.running && (m.count == 0 || kind == Cancel)
    ensures OneMonitor(Dispatch(m, kind, stop, c, w).m)
  {
    hide OnStartUp;
    hide DownloadInterrupt;
    hide StartBattery;
    match kind
    case StartUp => StartUpKeeps(m, stop, c, w);
    case Cancel =>
    case MonitorBattery(level) =>
    case PhoneCallActive =>
    case MonitorCallEnd =>
    case _ =>
      if w.bearer.Some? {
        DownloadInterruptKeeps(NetworkType(m, w.bearer.value), kind, stop, c, w);
      }
  }

  lemma StepKeeps(s: Server, e: Event, c: Config, w: World)
    requires OneMonitor(s.m) && Enabled(s, e)
    ensures OneMonitor(Step(s, e, c, w).m)
  {
    hide Dispatch;
    hide RunL;
    hide StartMonitoring;
    hide StartCallEnd;
    match e
    case Request(_, kind, permitted) =>
      if permitted && (s.m.count == 0 || kind == Cancel) {
        DispatchKeeps(s.m, kind, s.sessions[e.id], c, w);
      }
    case _ =>
  }

  /** One event and what the service finds out while handling it. */
  datatype Occurrence = Occurrence(event: Event, world: World)

  predicate IsRun(states: seq<Server>, es: seq<Occurrence>, c: Config) {
    && |states| == |es| + 1 && states[0] == INITIAL
    && forall i :: 0 <= i < |es| ==>
         Enabled(states[i], es[i].event) && states[i + 1] == Step(states[i], es[i].event, c, es[i].world)
  }

  /** In every state of every run there is at most one monitor, and it holds the slot. */
  lemma {:induction false} RunsKeepOneMonitor(states: seq<Server>, es: seq<Occurrence>, c: Config, n: nat)
    requires IsRun(states, es, c) && n <= |es|
    ensures OneMonitor(states[n].m)
  {
    hide Step;
    hide Enabled;
    hide OneMonitor;
    if n == 0 {
      assert OneMonitor(INITIAL.m) by {
        InitialIsOne();
      }
    } else {
      RunsKeepOneMonitor(states, es, c, n - 1);
      StepKeeps(states[n - 1], es[n - 1].event, c, es[n - 1].world);
      assert states[n - 1 + 1] == Step(states[n - 1], es[n - 1].event, c, es[n - 1].world);
    }
  }

  lemma InitialIsOne()
    ensures OneMonitor(INITIAL.m)
  {
  }

  /** Once a monitor is armed, or about to be armed for the end of a call, and until the service stops,
      the request holds the slot; every permitted request but the cancel is refused without any
      effect; and whatever happens, the record keeps the reason of the interrupt. */
  lemma {:induction false} BusyMonitor(states: seq<Server>, es: seq<Occurrence>, c: Config, n: nat, k: nat)
    requires IsRun(states, es, c) && n <= k <= |es|
    requires Armed(states[n].m) || states[n].m.timer == CallEndTimer
    requires states[k].m.running
    ensures states[k].m.count == 1 && states[k].m.reason == states[n].m.reason
    ensures k < |es| && es[k].event.Request? && es[k].event.permitted && es[k].event.kind != Cancel ==>
              states[k + 1] == states[k]
    decreases k
  {
    hide Step;
    if k == n {
      RunsKeepOneMonitor(states, es, c, n);
    } else {
      var i := k - 1;
      assert Enabled(states[i], es[i].event) && states[i + 1] == Step(states[i], es[i].event, c, es[i].world);
      BusyMonitor(states, es, c, n, i);
      BusyStep(states[i], es[i].event, c, es[i].world);
    }
    if k < |es| {
      assert Enabled(states[k], es[k].event) && states[k + 1] == Step(states[k], es[k].event, c, es[k].world);
      BusyStep(states[k], es[k].event, c, es[k].world);
    }
  }

  lemma BusyStep(s: Server, e: Event, c: Config, w: World)
    requires Enabled(s, e) && s.m.count == 1
    ensures var t := Step(s, e, c, w);
            && (e.Request? && e.permitted && e.kind != Cancel ==> t == s)
            && (t.m.running ==> t.m.reason == s.m.reason && t.m.count == 1)
  {
    hide RunL;
    hide StartMonitoring;
    hide StartCallEnd;
  }

  /** The network timer, in contrast, leaves the slot free: a request for a network interrupt that is
      to be monitored is admitted, and so is any request after it. */
  lemma NetworkTimerLeavesSlotFree(m: Monitor, stop: bool, c: Config, w: World)
    requires m.running && m.count == 0 && c.network && w.bearer.Some? && !(w.wlanSession && w.networkUp)
    ensures var r := Dispatch(m, NetworkInterrupt, stop, c, w);
            r.ok && r.m.timer == NetworkTimer && r.m.count == 0 && r.m.reason == Some(NETWORK_INTERRUPT)
  {
  }

  // ------------------------------------------------------------------------------------------
  // What each monitor waits for
  // ------------------------------------------------------------------------------------------

  predicate Mobile(m: Monitor) {
    m.bearer == Some(Gprs) || m.bearer == Some(Wcdma)
  }

  /** The network can be waited for: a mobile one while the phone is on line, a WLAN always. */
  predicate Awaitable(m: Monitor, w: World) {
    m.bearer == Some(Wlan) || (Mobile(m) && w.phoneOnline)
  }

  /** Waiting for the network: the connection monitor notifies of a mobile one, the active object waits
      for a WLAN, and without either the service stops. */
  lemma NetworkWait(m: Monitor, c: Config, w: World)
    requires m.running && c.network && !m.active
    ensures var r := StartL(m, NETWORK_INTERRUPT, c, w);
            && r.ok && r.m.interrupt == NETWORK_INTERRUPT
            && (r.m.running <==> Awaitable(m, w))
            && (r.m.notified <==> m.notified || (Mobile(m) && w.phoneOnline))
            && (r.m.active <==> m.bearer == Some(Wlan))
  {
  }

  /** Waiting for the charger, and for space on the drive. */
  lemma ChargerOrSpaceWait(m: Monitor, c: Config, w: World)
    requires m.running && !m.active
    ensures var r := StartL(m, USER_INTERRUPT, c, w);
            r.ok && r.m.interrupt == USER_INTERRUPT && (r.m.running <==> c.charger) && (r.m.active <==> c.charger)
    ensures var r := StartL(m, MEMORY_INTERRUPT, c, w);
            && r.m.interrupt == MEMORY_INTERRUPT
            && (!r.ok <==> c.memory && !w.fileServerOk)
            && (r.m.active <==> c.memory && w.fileServerOk && w.spaceCritical)
            && (r.m.running <==> c.memory && (!w.fileServerOk || w.spaceCritical))
  {
  }

  /** While something is active, starting one of the monitors of this variant changes only the kind. */
  lemma StartKeepsActive(m: Monitor, kind: int, c: Config, w: World)
    requires m.active
    requires || (kind == USER_INTERRUPT && c.charger) || (kind == NETWORK_INTERRUPT && c.network)
             || (kind == MEMORY_INTERRUPT && c.memory)
    ensures StartL(m, kind, c, w) == Outcome(m.(interrupt := kind), true)
  {
  }

  /** The timer of a network request: in a free slot it starts the wait for the network, and otherwise
      only the timer ends. */
  lemma NetworkTimerFires(m: Monitor, c: Config, w: World)
    requires m.running && m.timer == NetworkTimer && c.network && !m.active
    ensures var t := TimerFires(m, c, w);
            && t.timer == NoTimer && t.reason == m.reason
            && (m.count != 0 ==> t == m.(timer := NoTimer))
            && (m.count == 0 ==>
                  && t.interrupt == NETWORK_INTERRUPT && (t.running <==> Awaitable(m, w))
                  && (t.running ==> t.count == 1)
                  && (t.notified <==> m.notified || (Mobile(m) && w.phoneOnline))
                  && (t.active <==> m.bearer == Some(Wlan)))
  {
    if m.count == 0 {
      NetworkWait(m.(count := m.count + 1), c, w);
    }
  }

  /** The charger: without it the monitor stays as it is; with it the service stops, unless the network
      is to be waited for as well. */
  lemma ChargerAwaited(m: Monitor, c: Config, w: World)
    requires m.running && m.active && m.count == 1
    requires m.update !in {CALL_END, BATTERY} && m.interrupt == USER_INTERRUPT
    ensures var r := RunL(m, c, w);
            && (!w.charging ==> r == m)
            && (w.charging && (!c.network || w.networkUp) ==> !r.running)
            && (w.charging && c.network && !w.networkUp ==>
                  && r.interrupt == NETWORK_INTERRUPT && (r.running <==> Awaitable(m, w))
                  && (r.active <==> m.bearer == Some(Wlan))
                  && (r.notified <==> m.notified || (Mobile(m) && w.phoneOnline)))
  {
  }

  /** Space on the drive: while it is critical the monitor stays as it is; a failed watch stops the
      service; and with space it goes on as with the charger. */
  lemma SpaceAwaited(m: Monitor, c: Config, w: World)
    requires m.running && m.active && m.count == 1
    requires m.update !in {CALL_END, BATTERY} && m.interrupt == MEMORY_INTERRUPT
    ensures var r := RunL(m, c, w);
            && (w.statusOk && w.spaceCritical ==> r == m)
            && (!w.statusOk || (!w.spaceCritical && (!c.network || w.networkUp)) ==> !r.running)
            && (w.statusOk && !w.spaceCritical && c.network && !w.networkUp ==>
                  && r.interrupt == NETWORK_INTERRUPT && (r.running <==> Awaitable(m, w))
                  && (r.active <==> m.bearer == Some(Wlan))
                  && (r.notified <==> m.notified || (Mobile(m) && w.phoneOnline)))
  {
  }

  /** A mobile network is not waited for by the active object, which then only ends. */
  lemma MobileRuns(m: Monitor, c: Config, w: World)
    requires m.update !in {CALL_END, BATTERY} && m.interrupt == NETWORK_INTERRUPT && m.bearer != Some(Wlan)
    ensures RunL(m, c, w) == m.(active := false)
  {
  }

  /** A WLAN: the service stops when one is available, or when the phone does not support it, and waits
      otherwise. */
  lemma WlanAwaited(m: Monitor, c: Config, w: World)
    requires m.running && m.active && m.update !in {CALL_END, BATTERY} && m.interrupt == NETWORK_INTERRUPT
    requires m.bearer == Some(Wlan)
    ensures var r := RunL(m, c, w);
            && (r.running <==> w.supported && !(w.available && w.statusOk))
            && (r.running ==> r == m)
  {
  }

  /** The end of a call, and the level of the battery; a level that cannot be read stops the service. */
  lemma CallOrBatteryAwaited(m: Monitor, c: Config, w: World)
    requires m.running && m.active
    ensures m.update == CALL_END ==>
              var r := RunL(m, c, w); (r.running <==> w.callActive || !w.statusOk) && (r.running ==> r == m)
    ensures m.update == BATTERY ==>
              var r := RunL(m, c, w);
              && (r.running <==> w.batteryLevel.Some? && w.batteryLevel.value < m.charge)
              && (r.running ==> r == m)
  {
  }

  /** Asking for a battery level: the slot is taken, and the monitor waits exactly when the battery is
      lower; a level out of range takes the slot, and nothing is armed. */
  lemma BatteryRequest(m: Monitor, level: int, w: World)
    requires m.running && m.count == 0 && !Armed(m)
    ensures var r := StartBattery(m, level, w);
            && (r.ok <==> 1 <= level <= 7)
            && (!r.ok ==> r.m == m.(count := 1))
            && (r.ok ==>
                  && (r.m.running <==> w.batteryLevel.Some? && w.batteryLevel.value < level)
                  && (r.m.running ==> r.m.active && r.m.update == BATTERY && r.m.charge == level))
  {
  }

  /** Asking for the end of a call: without a call the slot stays free, and the session stops the
      server; with one the timer arms the monitor, unless telephony fails: then nothing is armed, and
      the slot stays taken. */
  lemma CallEndRequest(m: Monitor, c: Config, w: World, later: World)
    requires m.running && m.count == 0 && !Armed(m)
    ensures var r := OnCallEnd(m, w);
            && r.ok && (r.stop <==> !w.callActive)
            && (!w.callActive ==> r.m == m)
            && (w.callActive ==>
                  var t := TimerFires(r.m, c, later);
                  t.running && t.count == 1 && t.timer == NoTimer && t.update == CALL_END
                  && (Armed(t) <==> later.telephonyOk) && (t.active <==> later.telephonyOk))
  {
  }

  /** The connection monitor's report, and the poll of the network, stop the service exactly when the
      network is there. */
  lemma NetworkReported(m: Monitor, w: World)
    requires m.running
    ensures var r := NetworkEvent(m, w); (r.running <==> !(w.available && w.networkUp)) && (r.running ==> r == m)
    ensures var r := Poll(m, w); (r.running <==> !w.networkUp) && (r.running ==> r == m)
  {
  }

  /** The active object's condition holds, or can no longer be watched. */
  predicate Fulfilled(m: Monitor, w: World) {
    if m.update == CALL_END then w.statusOk && !w.callActive
    else if m.update == BATTERY then w.batteryLevel.None? || w.batteryLevel.value >= m.charge
    else if m.interrupt == USER_INTERRUPT then w.charging
    else if m.interrupt == MEMORY_INTERRUPT then !(w.statusOk && w.spaceCritical)
    else !(m.interrupt == NETWORK_INTERRUPT && m.bearer == Some(Wlan)
           && w.supported && !(w.available && w.statusOk))
  }

  /** The active object, and it alone, is armed. */
  predicate Waiting(m: Monitor) {
    m.running && m.count == 1 && m.active && !m.notified && !m.polling
  }

  /** The event lets the wait go on. */
  predicate Undisturbed(s: Server, e: Event, w: World) {
    && (e == ActiveObjectRuns ==> !Fulfilled(s.m, w))
    && (e.Closes? && e.id in s.sessions ==> !s.sessions[e.id])
  }

  lemma WaitStep(s: Server, e: Event, c: Config, w: World)
    requires Waiting(s.m) && Enabled(s, e)
    ensures var t := Step(s, e, c, w).m;
            Undisturbed(s, e, w) <==> t == s.m.(timer := t.timer)
  {
    hide RunL;
    hide OnStartUp;
    hide DownloadInterrupt;
    if e == ActiveObjectRuns {
      WaitEndsIff(s.m, c, w);
    }
  }

  /** The active object waits again, and nothing else changes, exactly when its condition does not hold. */
  lemma WaitEndsIff(m: Monitor, c: Config, w: World)
    requires Waiting(m)
    ensures var r := RunL(m, c, w); !Fulfilled(m, w) <==> r == m.(timer := r.timer)
  {
  }

  /** Over every run: what is waited for does not change, and the wait neither ends early nor is it given
      up, as long as the condition does not hold when the active object runs and no session that stops
      the server ends; and the first event of the other kind ends the wait. */
  lemma {:induction false} WaitsUntilFulfilled(states: seq<Server>, es: seq<Occurrence>, c: Config, n: nat, k: nat)
    requires IsRun(states, es, c) && n <= k <= |es| && Waiting(states[n].m)
    requires forall i :: n <= i < k ==> Undisturbed(states[i], es[i].event, es[i].world)
    ensures states[k].m == states[n].m.(timer := states[k].m.timer)
    ensures k < |es| ==>
              (Undisturbed(states[k], es[k].event, es[k].world) <==>
               states[k + 1].m == states[k].m.(timer := states[k + 1].m.timer))
  {
    hide Step;
    hide Undisturbed;
    hide Enabled;
    if k > n {
      WaitsUntilFulfilled(states, es, c, n, k - 1);
    }
    if k < |es| {
      assert Enabled(states[k], es[k].event) && states[k + 1] == Step(states[k], es[k].event, c, es[k].world);
      WaitStep(states[k], es[k].event, c, es[k].world);
    }
  }

  // ------------------------------------------------------------------------------------------
  // Interrupts and restarts of the phone
  // ------------------------------------------------------------------------------------------

  /** What a request for an interrupt leaves in the record: the kind that is monitored, the dummy if this
      variant does not monitor it, and the old record if the request fails before. */
  lemma InterruptRecorded(m: Monitor, kind: RequestKind, stop: bool, c: Config, w: World)
    requires m.running && m.count == 0
    ensures var r := DownloadInterrupt(m, kind, stop, c, w);
            && (kind == UserInterrupt && !w.remindersOk ==> r == Reply(m, false, stop))
            && ((kind == UserInterrupt && w.remindersOk) || kind == GeneralInterrupt ==>
                  r.m.reason == Some(if c.charger then USER_INTERRUPT else DUMMY))
            && (kind == MemoryInterrupt ==>
                  if c.memory && !w.sizeOk then r == Reply(m, false, stop)
                  else r.m.reason == Some(if c.memory then MEMORY_INTERRUPT else DUMMY))
            && (kind == NetworkInterrupt ==>
                  if c.network && !(w.wlanSession && w.networkUp)
                  then r.m.reason == Some(NETWORK_INTERRUPT) && r.m.timer == NetworkTimer
                  else r.m.reason == Some(DUMMY) && r.stop)
  {
    hide StartL;
  }

  /** What a request for an interrupt starts: with the charger to wait for, the active object; with space
      to wait for, the active object exactly while it is critical, and nothing but the taken slot if the
      drive cannot be watched; and nothing at all if this variant does not monitor the interrupt. */
  lemma InterruptStarts(m: Monitor, kind: RequestKind, stop: bool, c: Config, w: World)
    requires m.running && m.count == 0 && !m.active
    ensures var r := DownloadInterrupt(m, kind, stop, c, w);
            && ((kind == UserInterrupt && w.remindersOk) || kind == GeneralInterrupt ==>
                  if c.charger then
                    r == Reply(m.(count := 1, active := true, interrupt := USER_INTERRUPT,
                                  reason := Some(USER_INTERRUPT)), true, stop)
                  else r == Reply(m.(reason := Some(DUMMY)), true, true))
            && (kind == MemoryInterrupt && !c.memory ==> r == Reply(m.(reason := Some(DUMMY)), true, true))
            && (kind == MemoryInterrupt && c.memory && w.sizeOk ==>
                  && r.m.interrupt == MEMORY_INTERRUPT && r.stop == stop && (r.ok <==> w.fileServerOk)
                  && (r.m.active <==> w.fileServerOk && w.spaceCritical)
                  && (r.m.running <==> !w.fileServerOk || w.spaceCritical) && (r.m.running ==> r.m.count == 1))
            && (kind == NetworkInterrupt && c.network && !(w.wlanSession && w.networkUp) ==>
                  r == Reply(m.(reason := Some(NETWORK_INTERRUPT), timer := NetworkTimer), true, stop))
  {
  }

  /** A service that starts with the phone, and finds a record. */
  function StartedWith(reason: Option<int>): Monitor {
    INITIAL.m.(reason := reason)
  }

  /** The service that starts with the phone goes on with the recorded interrupt: it waits for space, or
      for a mobile network.  After a user's or a general interrupt the phone has been charged, so only
      the network can still be waited for; any other record, or one of a WLAN, is left alone. */
  lemma StartResumes(reason: int, c: Config, w: World, stop: bool)
    requires w.bearer.Some? && c.phoneRestart
    ensures var m := StartedWith(Some(reason)).(bearer := w.bearer);
            var r := OnStartUp(StartedWith(Some(reason)), stop, c, w);
            if reason == MEMORY_INTERRUPT then
              var t := StartMonitoring(m, MEMORY_INTERRUPT, c, w);
              r == Reply(t.m, t.ok, stop)
            else if reason == NETWORK_INTERRUPT && w.bearer != Some(Wlan) then
              var t := StartMonitoring(m, NETWORK_INTERRUPT, c, w);
              r == Reply(t.m, t.ok, stop)
            else if (reason == USER_INTERRUPT || reason == GENERAL_INTERRUPT) && (!c.network || w.networkUp) then
              r == Reply(Stop(m), true, stop)
            else if reason == USER_INTERRUPT || reason == GENERAL_INTERRUPT then
              var t := StartMonitoring(m.(reason := Some(NETWORK_INTERRUPT)), NETWORK_INTERRUPT, c, w);
              r == Reply(t.m, t.ok, stop)
            else r == Reply(m, true, true)
  {
    hide StartMonitoring;
  }

  /** A memory interrupt, and a network interrupt of a mobile network, survive a restart of the phone:
      the service that starts with it waits again for what the request had asked for. */
  lemma InterruptSurvivesRestart(m: Monitor, kind: RequestKind, c: Config, w: World, later: World, stop: bool)
    requires m.running && m.count == 0 && later.bearer.Some? && c.phoneRestart
    ensures var r := OnStartUp(StartedWith(DownloadInterrupt(m, kind, stop, c, w).m.reason), stop, c, later);
            && (kind == MemoryInterrupt && c.memory && w.sizeOk ==>
                  && r.m.interrupt == MEMORY_INTERRUPT
                  && (r.m.active <==> later.fileServerOk && later.spaceCritical)
                  && (r.m.running <==> !later.fileServerOk || later.spaceCritical))
            && (kind == NetworkInterrupt && c.network && !(w.wlanSession && w.networkUp)
                && later.bearer != Some(Wlan) ==>
                  && r.m.interrupt == NETWORK_INTERRUPT
                  && (r.m.running <==> later.phoneOnline) && (r.m.notified <==> later.phoneOnline))
  {
    InterruptRecorded(m, kind, stop, c, w);
    hide DownloadInterrupt;
    hide OnStartUp;
    StartResumes(MEMORY_INTERRUPT, c, later, stop);
    StartResumes(NETWORK_INTERRUPT, c, later, stop);
    var n := INITIAL.m.(bearer := later.bearer, count := 1);
    ChargerOrSpaceWait(n.(reason := Some(MEMORY_INTERRUPT)), c, later);
    if c.network && later.bearer != Some(Wlan) {
      assert later.bearer.value.Gprs? || later.bearer.value.Wcdma?;
      NetworkWait(n.(reason := Some(NETWORK_INTERRUPT)), c, later);
    }
    hide StartL;
  }

  /** Without a record the service polls the network exactly when it is to be waited for and the phone is
      on line, and stops otherwise. */
  lemma StartWithoutRecord(c: Config, w: World, stop: bool)
    ensures var r := OnStartUp(StartedWith(None), stop, c, w);
            if !c.phoneRestart then r == Reply(INITIAL.m, true, true)
            else
              && (r.m.running <==> c.network && !w.networkUp && w.phoneOnline)
              && (r.m.polling <==> r.m.running) && (r.m.running ==> r.m.count == 1) && r.stop == stop
              && r.m.bearer == (if w.bearer == Some(Wcdma) then Some(Wcdma) else Some(Gprs))
  {
  }

  // ------------------------------------------------------------------------------------------
  // Sessions
  // ------------------------------------------------------------------------------------------

  /** The request is admitted: it is permitted, and nothing is pending, or it is the cancel. */
  predicate Admitted(m: Monitor, kind: RequestKind, permitted: bool) {
    permitted && (m.count <= 0 || kind == Cancel)
  }

  /** A start with the phone fails, or finds nothing to do. */
  predicate StartsNothing(m: Monitor, c: Config, w: World) {
    || !c.phoneRestart
    || (m.reason.Some?
        && (w.bearer.None? || (w.bearer == Some(Wlan) && m.reason.value == NETWORK_INTERRUPT)
            || m.reason.value < 10 || m.reason.value > 13
            || (m.reason.value == MEMORY_INTERRUPT && c.memory && !m.active && !w.fileServerOk && m.count == 0)))
  }

  /** An admitted request asks its session to stop the server when it ends, or leaves, with the same
      effect. */
  predicate AsksToStop(m: Monitor, kind: RequestKind, flag: bool, c: Config, w: World) {
    match kind
    case StartUp => flag || StartsNothing(m, c, w)
    case Cancel => true
    case MonitorBattery(level) => flag || level < 1 || level > 7
    case PhoneCallActive => true
    case MonitorCallEnd => !w.callActive
    case UnknownRequest => true
    case UserInterrupt => flag || w.bearer.None? || !w.remindersOk || !c.charger
    case GeneralInterrupt => flag || w.bearer.None? || !c.charger
    case MemoryInterrupt => flag || w.bearer.None? || !c.memory || !w.sizeOk || (!m.active && !w.fileServerOk)
    case NetworkInterrupt => flag || w.bearer.None? || !c.network || (w.wlanSession && w.networkUp)
  }

  /** Exactly when the end of the session will stop the server: a request that is not permitted sets the
      flag, one that is not admitted leaves it, and neither touches a monitor or another session. */
  lemma SessionStopsIff(s: Server, id: nat, kind: RequestKind, permitted: bool, c: Config, w: World)
    requires id in s.sessions && 0 <= s.m.count
    ensures var flag, t := s.sessions[id], Service(s, id, kind, permitted, c, w);
            && t.sessions == s.sessions[id := t.sessions[id]]
            && (t.sessions[id] <==>
                  !permitted || if Admitted(s.m, kind, permitted) then AsksToStop(s.m, kind, flag, c, w) else flag)
            && (!Admitted(s.m, kind, permitted) ==> t.m == s.m)
  {
    if Admitted(s.m, kind, permitted) {
      DispatchStops(s.m, kind, s.sessions[id], c, w);
    }
    hide AsksToStop;
    hide Dispatch;
  }

  lemma DispatchStops(m: Monitor, kind: RequestKind, stop: bool, c: Config, w: World)
    requires m.count == 0 || kind == Cancel
    ensures var r := Dispatch(m, kind, stop, c, w); (r.stop || !r.ok) <==> AsksToStop(m, kind, stop, c, w)
  {
    match kind
    case StartUp =>
      StartUpStops(m, stop, c, w);
      hide StartsNothing;
      hide OnStartUp;
    case MonitorBattery(_) => hide CheckBattery;
    case Cancel =>
    case PhoneCallActive =>
    case MonitorCallEnd =>
    case _ =>
      if w.bearer.Some? {
        InterruptStops(NetworkType(m, w.bearer.value), kind, stop, c, w);
      }
      hide DownloadInterrupt;
  }

  lemma InterruptStops(m: Monitor, kind: RequestKind, stop: bool, c: Config, w: World)
    requires m.count == 0 && w.bearer.Some?
    requires kind in {UserInterrupt, GeneralInterrupt, MemoryInterrupt, NetworkInterrupt, UnknownRequest}
    ensures var r := DownloadInterrupt(m, kind, stop, c, w); (r.stop || !r.ok) <==> AsksToStop(m, kind, stop, c, w)
  {
  }

  lemma StartUpStops(m: Monitor, stop: bool, c: Config, w: World)
    requires m.count == 0
    ensures var r := OnStartUp(m, stop, c, w); (r.stop || !r.ok) <==> stop || StartsNothing(m, c, w)
  {
  }

  /** Requests that touch no monitor, and the beginning and the end of a session: the cancel, and the
      question for a call, leave the monitor alone; a session begins without the flag; and its end stops
      the service exactly when the flag is set. */
  lemma SessionSteps(s: Server, id: nat, c: Config, w: World, stop: bool)
    requires s.m.running
    ensures Dispatch(s.m, Cancel, stop, c, w).m == s.m
    ensures s.m.count == 0 ==> Dispatch(s.m, PhoneCallActive, stop, c, w).m == s.m
    ensures w.bearer.None? ==>
              forall kind :: kind in {UserInterrupt, NetworkInterrupt, MemoryInterrupt, GeneralInterrupt} ==>
                Dispatch(s.m, kind, stop, c, w).m == s.m
    ensures id !in s.sessions ==> Step(s, Connects(id), c, w) == s.(sessions := s.sessions[id := false])
    ensures id in s.sessions ==>
              var t := Step(s, Closes(id), c, w);
              && t.sessions == s.sessions - {id} && (t.m.running <==> !s.sessions[id])
              && (t.m.running ==> t.m == s.m)
  {
  }

  /** A cancel is admitted at any time; it changes nothing by itself, and the end of its session then
      stops the service, whatever is waited for. */
  lemma CancelStops(s: Server, id: nat, c: Config, w: World)
    requires s.m.running && id in s.sessions
    ensures var t := Step(s, Request(id, Cancel, true), c, w);
            && t.m == s.m && Enabled(t, Closes(id)) && !Step(t, Closes(id), c, w).m.running
  {
  }

  // ------------------------------------------------------------------------------------------
  // The service as objects
  // ------------------------------------------------------------------------------------------

  /** The server with its active object. */
  class FmsServer {
    const config: Config
    var sessionCount: int
    var running: bool
    var active: bool
    var notified: bool
    var polling: bool
    var timer: Timer
    var interruptType: int
    var updInterruptType: int
    var chargeToMonitor: int
    var bearer: Option<Bearer>
    var reason: Option<int>

    constructor (config: Config)
      ensures this.config == config && Snapshot() == INITIAL.m
    {
      this.config := config;
      sessionCount, running, active, notified, polling, timer := 0, true, false, false, false, NoTimer;
      interruptType, updInterruptType, chargeToMonitor := NO_INTERRUPT, NO_INTERRUPT, 0;
      bearer, reason := None, None;
    }

    function Snapshot(): Monitor
      reads this
    {
      Monitor(sessionCount, running, active, notified, polling, timer, interruptType, updInterruptType, chargeToMonitor,
              bearer, reason)
    }

    method StopServer()
      modifies this`sessionCount, this`running
      ensures Snapshot() == Stop(old(Snapshot()))
    {
      sessionCount := 0;
      running := false;
    }

    /** Arms the monitor of a download interrupt; false stands for a leave. */
    method Start(kind: int, w: World) returns (ok: bool)
      modifies this
      ensures Outcome(Snapshot(), ok) == StartL(old(Snapshot()), kind, config, w)
    {
      ok := true;
      interruptType := kind;
      if kind == USER_INTERRUPT && config.charger {
        if !active {
          active := true;
        }
      } else if kind == NETWORK_INTERRUPT && config.network {
        if !active {
          if (bearer == Some(Gprs) || bearer == Some(Wcdma)) && w.phoneOnline {
            notified := true;
          } else if bearer == Some(Wlan) {
            active := true;
          } else {
            StopServer();
          }
        }
      } else if kind == MEMORY_INTERRUPT && config.memory {
        if !active {
          if !w.fileServerOk {
            return false;
          }
          if w.spaceCritical {
            active := true;
          } else {
            StopServer();
          }
        }
      } else {
        StopServer();
      }
    }

    method StartMonitoringL(kind: int, w: World) returns (ok: bool)
      modifies this
      ensures Outcome(Snapshot(), ok) == StartMonitoring(old(Snapshot()), kind, config, w)
    {
      hide StartL;
      ok := true;
      if sessionCount == 0 {
        sessionCount := sessionCount + 1;
        ok := Start(kind, w);
      }
    }

    /** Compares the battery with the wanted level, and waits for a change if it is lower. */
    method CheckBatteryLevel(w: World)
      modifies this`sessionCount, this`running, this`active, this`updInterruptType
      ensures Snapshot() == CheckBattery(old(Snapshot()), w)
    {
      var value := 0;
      if w.batteryLevel.None? {
        StopServer();
      } else {
        value := w.batteryLevel.value;
      }
      if value >= chargeToMonitor {
        updInterruptType := NO_INTERRUPT;
        StopServer();
      } else if !active {
        active := true;
      }
    }

    method StartBatteryMonitoringL(level: int, w: World) returns (ok: bool)
      modifies this
      ensures Outcome(Snapshot(), ok) == StartBattery(old(Snapshot()), level, w)
    {
      hide CheckBattery;
      ok := true;
      if sessionCount == 0 {
        sessionCount := sessionCount + 1;
        if !(0 < level <= MAX_BATTERY_LEVEL) {
          return false;
        }
        updInterruptType := BATTERY;
        chargeToMonitor := level;
        CheckBatteryLevel(w);
      }
    }

    method StartCallEndMonitoringL(w: World) returns (ok: bool)
      modifies this`active, this`updInterruptType
      ensures Outcome(Snapshot(), ok) == StartCallEnd(old(Snapshot()), w)
    {
      ok := true;
      if !active {
        updInterruptType := CALL_END;
        if !w.telephonyOk {
          return false;
        }
        active := true;
      }
    }

    method WriteRecord(value: int)
      modifies this`reason
      ensures Snapshot() == WriteToFile(old(Snapshot()), value)
    {
      if sessionCount == 0 {
        reason := Some(value);
      }
    }

    /** The charger is connected, or there is space: go on, or wait for the network. */
    method HandleConditionMet(w: World)
      modifies this
      ensures Snapshot() == ConditionMet(old(Snapshot()), config, w)
    {
      hide StartL;
      if config.network {
        if w.networkUp {
          StopServer();
        } else {
          WriteRecord(NETWORK_INTERRUPT);
          var _ := Start(NETWORK_INTERRUPT, w);
        }
      } else {
        StopServer();
      }
    }

    /** The active object runs. */
    method Run(w: World)
      modifies this
      ensures Snapshot() == RunL(old(Snapshot()), config, w)
    {
      hide ConditionMet;
      hide CheckBattery;
      active := false;
      if updInterruptType == CALL_END {
        if w.statusOk && !w.callActive {
          StopServer();
        } else {
          active := true;
        }
      } else if updInterruptType == BATTERY {
        CheckBatteryLevel(w);
      } else if interruptType == USER_INTERRUPT {
        if w.charging {
          HandleConditionMet(w);
        } else {
          active := true;
        }
      } else if interruptType == NETWORK_INTERRUPT {
        if bearer == Some(Wlan) {
          if w.available && w.statusOk {
            StopServer();
          } else if !w.supported {
            StopServer();
          } else {
            active := true;
          }
        }
      } else if interruptType == MEMORY_INTERRUPT {
        if w.statusOk {
          if !w.spaceCritical {
            HandleConditionMet(w);
          } else {
            active := true;
          }
        } else {
          StopServer();
        }
      }
    }

    /** The connection monitor reports an event. */
    method EventL(w: World)
      modifies this`sessionCount, this`running
      ensures Snapshot() == NetworkEvent(old(Snapshot()), w)
    {
      if w.available {
        if w.networkUp {
          StopServer();
        }
      }
    }

    method NetworkRegistryCheckL(w: World)
      modifies this`sessionCount, this`running, this`polling
      ensures Snapshot() == Poll(old(Snapshot()), w)
    {
      if w.networkUp {
        polling := false;
        StopServer();
      }
    }

    /** The timer that a request has started. */
    method LogRequest(w: World)
      modifies this
      ensures Snapshot() == TimerFires(old(Snapshot()), config, w)
    {
      hide StartMonitoring;
      hide StartCallEnd;
      var ok;
      if timer == NetworkTimer {
        ok := StartMonitoringL(NETWORK_INTERRUPT, w);
      } else if timer == CallEndTimer {
        ok := StartCallEndMonitoringL(w);
      }
      timer := NoTimer;
    }

    method NetworkTypeL(value: Bearer)
      modifies this`bearer
      ensures Snapshot() == NetworkType(old(Snapshot()), value)
    {
      if sessionCount == 0 {
        bearer := Some(value);
      }
    }

    method WriteAndMonitor(kind: int, w: World) returns (ok: bool)
      modifies this
      ensures forall stop :: Reply(Snapshot(), ok, stop) == Monitored(old(Snapshot()), kind, stop, config, w)
    {
      hide StartMonitoring;
      WriteRecord(kind);
      ok := StartMonitoringL(kind, w);
    }

    /** A download was interrupted; the bearer of the download is known. */
    method HandleDownloadInterrupt(kind: RequestKind, stop: bool, w: World) returns (ok: bool, stop': bool)
      modifies this
      ensures Reply(Snapshot(), ok, stop') == DownloadInterrupt(old(Snapshot()), kind, stop, config, w)
    {
      hide Monitored;
      ok, stop' := true, stop;
      if kind.UserInterrupt? || kind.GeneralInterrupt? {
        if kind.UserInterrupt? && !w.remindersOk {
          return false, stop;
        }
        if config.charger {
          ok := WriteAndMonitor(USER_INTERRUPT, w);
        } else {
          WriteRecord(DUMMY);
          stop' := true;
        }
      } else if kind.MemoryInterrupt? {
        if !config.memory {
          WriteRecord(DUMMY);
          stop' := true;
        } else if !w.sizeOk {
          ok := false;
        } else {
          ok := WriteAndMonitor(MEMORY_INTERRUPT, w);
        }
      } else if kind.NetworkInterrupt? {
        if !config.network || (w.wlanSession && w.networkUp) {
          WriteRecord(DUMMY);
          stop' := true;
        } else {
          WriteRecord(NETWORK_INTERRUPT);
          timer := NetworkTimer;
        }
      } else {
        return false, true;
      }
    }

    /** The phone has started without a record. */
    method TriggerFotaL(w: World)
      modifies this`polling, this`sessionCount, this`running
      ensures Snapshot() == TriggerFota(old(Snapshot()), config, w)
    {
      if config.network {
        if !w.networkUp {
          if w.phoneOnline {
            polling := true;
            return;
          }
        }
      }
      StopServer();
    }

    method ResumeRecorded(value: int, stop: bool, w: World) returns (ok: bool, stop': bool)
      modifies this
      ensures Reply(Snapshot(), ok, stop') == ResumeInterrupt(old(Snapshot()), value, stop, config, w)
    {
      hide StartMonitoring;
      ok, stop' := true, stop;
      if w.bearer.None? {
        return true, true;
      }
      NetworkTypeL(w.bearer.value);
      if w.bearer == Some(Wlan) && value == NETWORK_INTERRUPT {
        return true, true;
      }
      if value < USER_INTERRUPT || value > GENERAL_INTERRUPT {
        return true, true;
      }
      if value == USER_INTERRUPT || value == GENERAL_INTERRUPT {
        if config.network && !w.networkUp {
          WriteRecord(NETWORK_INTERRUPT);
          ok := StartMonitoringL(NETWORK_INTERRUPT, w);
        } else {
          StopServer();
        }
      } else {
        ok := StartMonitoringL(value, w);
      }
    }

    method StartUpPlugin(stop: bool, w: World) returns (ok: bool, stop': bool)
      modifies this
      ensures Reply(Snapshot(), ok, stop') == OnStartUp(old(Snapshot()), stop, config, w)
    {
      hide TriggerFota;
      hide ResumeInterrupt;
      ok, stop' := true, stop;
      if !config.phoneRestart {
        return true, true;
      }
      if reason.None? {
        NetworkTypeL(if w.bearer == Some(Wcdma) then Wcdma else Gprs);
        sessionCount := sessionCount + 1;
        TriggerFotaL(w);
      } else {
        ok, stop' := ResumeRecorded(reason.value, stop, w);
      }
    }

    /** Handles an admitted request of a session. */
    method DispatchMessageL(kind: RequestKind, stop: bool, w: World) returns (ok: bool, stop': bool)
      modifies this
      ensures Reply(Snapshot(), ok, stop') == Dispatch(old(Snapshot()), kind, stop, config, w)
    {
      hide OnStartUp;
      hide DownloadInterrupt;
      hide StartBattery;
      ok, stop' := true, stop;
      match kind
      case StartUp =>
        ok, stop' := StartUpPlugin(stop, w);
      case Cancel =>
        stop' := true;
      case MonitorBattery(level) =>
        ok := StartBatteryMonitoringL(level, w);
      case PhoneCallActive =>
        sessionCount := sessionCount + 1;
        sessionCount := 0;
        stop' := true;
      case MonitorCallEnd =>
        sessionCount := sessionCount + 1;
        if w.callActive {
          timer := CallEndTimer;
          stop' := false;
        } else {
          stop' := true;
          sessionCount := 0;
        }
      case _ =>
        if w.bearer.None? {
          return false, true;
        }
        NetworkTypeL(w.bearer.value);
        ok, stop' := HandleDownloadInterrupt(kind, stop, w);
    }

    /** A request of a session arrives; returns the session's flag for stopping the server. */
    method ServiceL(kind: RequestKind, permitted: bool, stop: bool, w: World) returns (stop': bool)
      modifies this
      ensures forall id: nat :: Server(Snapshot(), map[id := stop']) ==
                Service(Server(old(Snapshot()), map[id := stop]), id, kind, permitted, config, w)
    {
      hide Dispatch;
      if !permitted {
        return true;
      }
      if sessionCount > 0 && kind != Cancel {
        return stop;
      }
      var ok;
      ok, stop' := DispatchMessageL(kind, stop, w);
      stop' := stop' || !ok;
      assert forall id: nat :: map[id := stop][id := stop'] == map[id := stop'];
    }
  }
}
