/** The time-slot barrier of src/timer.c as a labelled transition system.

    One timer thread and the devices it has attached run in lockstep.  Every
    statement of `timer_routine`, `next_slot` and `detach_event` that touches
    shared state is one step; so is each way the main thread takes part in
    stopping the timer.  A thread inside `pthread_cond_wait` has given its lock
    back and sits at a `Wait` program point; a signal, or a spurious wakeup,
    moves it to the matching `Woken` point, from where it must take the lock
    again.  Only device `i` ever waits on its own `timer_cond` and only the
    timer ever waits on an `event_cond`, so those program points are the wait sets. */
module Barrier {

  // Who holds a mutex.
  datatype Owner = Free | ByTimer | ByDevice

  datatype DevPc =
    | Running        // the device's own code, outside the barrier
    | LockEvent      // next_slot
    | SetDone
    | SignalEvent
    | UnlockEvent
    | LockTimer
    | TestDone
    | WaitTimer      // in the wait set of timer_cond
    | WokenTimer
    | UnlockTimer
    | DetachLock     // detach_event
    | DetachSet
    | DetachSignal
    | DetachUnlock
    | Exited

  // `calls`, `released` and `returned` are histories: the calls of next_slot, the
  // times the timer took this device's `done` flag down, and the returns of next_slot.
  datatype Device = Device(
    done: bool,
    fsh: bool,
    eventLock: Owner,
    timerLock: Owner,
    pc: DevPc,
    calls: nat,
    released: nat,
    returned: nat)
  {
    /** The device is inside a call of next_slot. */
    predicate InSlot() {
      pc.LockEvent? || pc.SetDone? || pc.SignalEvent? || pc.UnlockEvent? || Parked() || pc.UnlockTimer?
    }

    /** The device has reported its slot and is on its way to, or in, the second wait. */
    predicate Parked() {
      pc.LockTimer? || pc.TestDone? || pc.WaitTimer? || pc.WokenTimer?
    }

    predicate HoldsEvent() {
      pc.SetDone? || pc.SignalEvent? || pc.UnlockEvent? || pc.DetachSet? || pc.DetachSignal? || pc.DetachUnlock?
    }

    predicate HoldsTimer() {
      pc.TestDone? || pc.UnlockTimer?
    }
  }

  datatype TimerPc =
    | Loop
    | ScanLock | ScanTest | ScanWait | ScanWoken | ScanCount | ScanUnlock
    | Tick
    | ResetLock | ResetClear | ResetSignal | ResetUnlock
    | Judge
    | TimerExited

  // `k` is the position in dev_list; `fsh` and `event` are the locals of timer_routine.
  datatype TimerThread = TimerThread(pc: TimerPc, k: nat, fsh: nat, event: nat)
  {
    /** The timer holds the event lock of the device at position j. */
    predicate HoldsEvent(j: nat) {
      k == j && (pc.ScanTest? || pc.ScanCount? || pc.ScanUnlock?)
    }

    predicate HoldsTimer(j: nat) {
      k == j && (pc.ResetClear? || pc.ResetSignal? || pc.ResetUnlock?)
    }

    predicate Scanning() {
      pc.ScanLock? || pc.ScanTest? || pc.ScanWait? || pc.ScanWoken? || pc.ScanCount? || pc.ScanUnlock?
    }

    /** In this scan pass the timer has already found device j done or finished. */
    predicate Scanned(j: nat) {
      (Scanning() && j < k) || (k == j && (pc.ScanCount? || pc.ScanUnlock?)) || pc.Tick?
    }

    /** The clock has moved on, but the reset pass has not reached device j yet. */
    predicate Owes(j: nat) {
      ((pc.ResetLock? || pc.ResetClear?) && k <= j) || ((pc.ResetSignal? || pc.ResetUnlock?) && k < j)
    }
  }

  datatype MainPc = JoinDevices | SetStop | JoinTimer | MainDone

  datatype State = State(
    devs: seq<Device>,    // in dev_list order
    time: nat,            // _time
    timer: TimerThread,
    stop: bool,           // timer_stop
    main: MainPc)

  datatype Label =
    | TimerStep
    | DeviceStep(i: nat)
    | CallNextSlot(i: nat)   // the device's code enters next_slot
    | CallDetach(i: nat)     // the device's code enters detach_event
    | MainStep
    | SpuriousTimer
    | SpuriousDevice(i: nat)
  {
    predicate IsSpurious() { SpuriousTimer? || SpuriousDevice? }
  }

  const FRESH_DEVICE := Device(false, false, Free, Free, Running, 0, 0, 0)

  /** attach_event has built the list and start_timer has been called. */
  ghost predicate Init(s: State) {
    && (forall i :: 0 <= i < |s.devs| ==> s.devs[i] == FRESH_DEVICE)
    && s.time == 0
    && s.timer == TimerThread(Loop, 0, 0, 0)
    && !s.stop
    && s.main == JoinDevices
  }

  // ---------------------------------------------------------------- the timer

  /** The device at the timer's position; of no consequence once the pass is over. */
  function Target(s: State): Device {
    if s.timer.k < |s.devs| then s.devs[s.timer.k] else FRESH_DEVICE
  }

  /** The timer can take its next step: n devices are attached, d is the one at its position. */
  predicate TimerReady(t: TimerThread, n: nat, d: Device) {
    match t.pc
    case ScanWait => false
    case TimerExited => false
    case ScanLock => t.k < n ==> d.eventLock == Free
    case ScanWoken => d.eventLock == Free
    case ResetLock => t.k < n ==> d.timerLock == Free
    case _ => true
  }

  /** What the timer's next step does to the timer itself. */
  function Advance(t: TimerThread, n: nat, d: Device, stop: bool): TimerThread
    requires TimerReady(t, n, d)
  {
    match t.pc
    case Loop => if stop then t.(pc := TimerExited) else TimerThread(ScanLock, 0, 0, 0)
    case ScanLock => t.(pc := if t.k < n then ScanTest else Tick)
    case ScanTest => t.(pc := if !d.done && !d.fsh then ScanWait else ScanCount)
    case ScanWoken => t.(pc := ScanTest)
    case ScanCount => t.(pc := ScanUnlock, fsh := t.fsh + (if d.fsh then 1 else 0), event := t.event + 1)
    case ScanUnlock => t.(pc := ScanLock, k := t.k + 1)
    case Tick => t.(pc := ResetLock, k := 0)
    case ResetLock => t.(pc := if t.k < n then ResetClear else Judge)
    case ResetClear => t.(pc := ResetSignal)
    case ResetSignal => t.(pc := ResetUnlock)
    case ResetUnlock => t.(pc := ResetLock, k := t.k + 1)
    case Judge => t.(pc := if t.fsh == t.event then TimerExited else Loop)
  }

  /** What the same step does to the device at the timer's position. */
  function Handled(t: TimerThread, d: Device): Device {
    match t.pc
    case ScanLock => d.(eventLock := ByTimer)
    case ScanTest => if !d.done && !d.fsh then d.(eventLock := Free) else d
    case ScanWoken => d.(eventLock := ByTimer)
    case ScanUnlock => d.(eventLock := Free)
    case ResetLock => d.(timerLock := ByTimer)
    case ResetClear => d.(done := false, released := d.released + (if d.done then 1 else 0))
    case ResetSignal => if d.pc.WaitTimer? then d.(pc := WokenTimer) else d
    case ResetUnlock => d.(timerLock := Free)
    case _ => d
  }

  predicate TimerEnabled(s: State) {
    TimerReady(s.timer, |s.devs|, Target(s))
  }

  function TimerNext(s: State): State
    requires TimerEnabled(s)
  {
    var t := s.timer;
    s.(devs := if t.k < |s.devs| then s.devs[t.k := Handled(t, s.devs[t.k])] else s.devs,
       time := if t.pc.Tick? then s.time + 1 else s.time,
       timer := Advance(t, |s.devs|, Target(s), s.stop))
  }

  // --------------------------------------------------------------- the devices

  predicate DeviceReady(d: Device) {
    match d.pc
    case Running => false
    case WaitTimer => false
    case Exited => false
    case LockEvent => d.eventLock == Free
    case DetachLock => d.eventLock == Free
    case LockTimer => d.timerLock == Free
    case WokenTimer => d.timerLock == Free
    case _ => true
  }

  /** What a device's next step inside next_slot or detach_event does to the device. */
  function Stepped(d: Device): Device
    requires DeviceReady(d)
  {
    match d.pc
    case LockEvent => d.(eventLock := ByDevice, pc := SetDone)
    case SetDone => d.(done := true, pc := SignalEvent)
    case SignalEvent => d.(pc := UnlockEvent)
    case UnlockEvent => d.(eventLock := Free, pc := LockTimer)
    case LockTimer => d.(timerLock := ByDevice, pc := TestDone)
    case TestDone => if d.done then d.(timerLock := Free, pc := WaitTimer) else d.(pc := UnlockTimer)
    case WokenTimer => d.(timerLock := ByDevice, pc := TestDone)
    case UnlockTimer => d.(timerLock := Free, pc := Running, returned := d.returned + 1)
    case DetachLock => d.(eventLock := ByDevice, pc := DetachSet)
    case DetachSet => d.(fsh := true, pc := DetachSignal)
    case DetachSignal => d.(pc := DetachUnlock)
    case DetachUnlock => d.(eventLock := Free, pc := Exited)
  }

  /** What it does to the timer: pthread_cond_signal on the event_cond of device i. */
  function Signalled(t: TimerThread, d: Device, i: nat): TimerThread {
    if (d.pc.SignalEvent? || d.pc.DetachSignal?) && t.pc.ScanWait? && t.k == i then t.(pc := ScanWoken) else t
  }

  predicate DeviceEnabled(s: State, i: nat) {
    i < |s.devs| && DeviceReady(s.devs[i])
  }

  function DeviceNext(s: State, i: nat): State
    requires DeviceEnabled(s, i)
  {
    WithDevice(s, i, Stepped(s.devs[i])).(timer := Signalled(s.timer, s.devs[i], i))
  }

  function WithDevice(s: State, i: nat, d: Device): State
    requires i < |s.devs|
  {
    s.(devs := s.devs[i := d])
  }

  // ----------------------------------------------------------- all the steps

  predicate MainEnabled(s: State) {
    match s.main
    case JoinDevices => forall i :: 0 <= i < |s.devs| ==> s.devs[i].pc.Exited?
    case SetStop => true
    case JoinTimer => s.timer.pc.TimerExited?
    case MainDone => false
  }

  function MainNext(s: State): State
    requires MainEnabled(s)
  {
    match s.main
    case JoinDevices => s.(main := SetStop)
    case SetStop => s.(stop := true, main := JoinTimer)
    case JoinTimer => s.(main := MainDone)
  }

  predicate Enabled(s: State, l: Label) {
    match l
    case TimerStep => TimerEnabled(s)
    case DeviceStep(i) => DeviceEnabled(s, i)
    case CallNextSlot(i) => i < |s.devs| && s.devs[i].pc.Running?
    case CallDetach(i) => i < |s.devs| && s.devs[i].pc.Running?
    case MainStep => MainEnabled(s)
    case SpuriousTimer => s.timer.pc.ScanWait?
    case SpuriousDevice(i) => i < |s.devs| && s.devs[i].pc.WaitTimer?
  }

  function Apply(s: State, l: Label): State
    requires Enabled(s, l)
  {
    match l
    case TimerStep => TimerNext(s)
    case DeviceStep(i) => DeviceNext(s, i)
    case CallNextSlot(i) => WithDevice(s, i, s.devs[i].(pc := LockEvent, calls := s.devs[i].calls + 1))
    case CallDetach(i) => WithDevice(s, i, s.devs[i].(pc := DetachLock))
    case MainStep => MainNext(s)
    case SpuriousTimer => s.(timer := s.timer.(pc := ScanWoken))
    case SpuriousDevice(i) => WithDevice(s, i, s.devs[i].(pc := WokenTimer))
  }

  /** ss is a run from an initial state in which step n is the one labelled ls[n]. */
  ghost predicate IsRun(ss: seq<State>, ls: seq<Label>) {
    && |ss| == |ls| + 1
    && Init(ss[0])
    && forall n :: 0 <= n < |ls| ==> Enabled(ss[n], ls[n]) && ss[n + 1] == Apply(ss[n], ls[n])
  }
}
