/** Progress of the barrier: nothing but a device's own code can hold it up, and
    between two ticks of the clock only a bounded number of steps can be taken. */
module BarrierProgress {
  import opened Barrier
  import opened BarrierSafety
  import T = Telescopes

  // ------------------------------------------------------- absence of deadlock

  /** A step of the protocol itself: not a spurious wakeup, and not a decision of a
      device's own code to enter next_slot or detach_event. */
  predicate IsProtocolStep(l: Label) {
    l.TimerStep? || l.DeviceStep? || l.MainStep?
  }

  ghost predicate CanStep(s: State) {
    exists l: Label :: IsProtocolStep(l) && Enabled(s, l)
  }

  /** The timer is waiting for one particular device, and that device is running its own code. */
  predicate WaitsForRunningDevice(s: State) {
    s.timer.pc.ScanWait? && s.timer.k < |s.devs| && s.devs[s.timer.k].pc.Running?
  }

  /** Whoever holds a lock the timer wants is at a step it can take. */
  lemma TimerBlockedByDevice(s: State)
    requires Inv(s) && s.timer.k < |s.devs| && !TimerEnabled(s)
    requires s.timer.pc.ScanLock? || s.timer.pc.ScanWoken? || s.timer.pc.ResetLock?
    ensures Enabled(s, DeviceStep(s.timer.k))
  {
    assert DeviceInv(s.devs[s.timer.k], s.timer.k, s.timer, s.time);
  }

  /** A device the timer waits for can move unless its own code is running. */
  lemma AwaitedDeviceMoves(s: State)
    requires Inv(s) && s.timer.pc.ScanWait?
    ensures s.devs[s.timer.k].pc.Running? || Enabled(s, DeviceStep(s.timer.k))
  {
    assert DeviceInv(s.devs[s.timer.k], s.timer.k, s.timer, s.time);
  }

  /** No deadlock: in every state that keeps the invariant, some protocol step can be taken,
      or the timer waits for a device that is running its own code, or all is over. */
  lemma NoDeadlock(s: State)
    requires Inv(s)
    ensures CanStep(s) || WaitsForRunningDevice(s) || s.main.MainDone?
  {
    if s.timer.pc.TimerExited? {
      if !s.main.MainDone? {
        assert IsProtocolStep(MainStep) && Enabled(s, MainStep);
      }
    } else if TimerEnabled(s) {
      assert IsProtocolStep(TimerStep) && Enabled(s, TimerStep);
    } else {
      var l := DeviceStep(s.timer.k);
      if s.timer.pc.ScanWait? {
        AwaitedDeviceMoves(s);
        assert Enabled(s, l) ==> IsProtocolStep(l) && Enabled(s, l);
      } else {
        TimerBlockedByDevice(s);
        assert IsProtocolStep(l) && Enabled(s, l);
      }
    }
  }

  // -------------------------------------------------------- bounded rounds

  /** How far a device still is from its next park.  A device the timer owes a reset ranks
      above one that has been reset, which ranks above one that has reported again. */
  function DeviceRank(d: Device, owed: bool): nat {
    match d.pc
    case LockTimer => if !d.done then 27 else if owed then 34 else 17
    case WokenTimer => if !d.done then 25 else if owed then 33 else 16
    case TestDone => if !d.done then 24 else if owed then 32 else 15
    case WaitTimer => if !d.done then 26 else if owed then 31 else 14
    case UnlockTimer => 23
    case Running => 22
    case LockEvent => 21
    case SetDone => 20
    case SignalEvent => 19
    case UnlockEvent => 18
    case DetachLock => 8
    case DetachSet => 7
    case DetachSignal => 6
    case DetachUnlock => 5
    case Exited => 0
  }

  /** How far the timer still is from its next tick; d is the device at its position. */
  function TimerRank(t: TimerThread, n: nat, d: Device): nat {
    var reported := d.done || d.fsh;
    var left := if t.k < n then n - t.k else 0;
    match t.pc
    case ResetLock => 12 * n + 20 + 4 * left
    case ResetClear => 12 * n + 19 + 4 * left
    case ResetSignal => 12 * n + 18 + 4 * left
    case ResetUnlock => 12 * n + 17 + 4 * left
    case Judge => 12 * n + 16
    case Loop => 12 * n + 15
    case ScanLock => 12 * left + 11
    case ScanWoken => 12 * left + (if reported then 6 else 10)
    case ScanTest => 12 * left + (if reported then 5 else 9)
    case ScanWait => 12 * left + (if reported then 7 else 8)
    case ScanCount => 12 * left + 4
    case ScanUnlock => 12 * left + 3
    case Tick => 1
    case TimerExited => 0
  }

  function MainRank(m: MainPc): nat {
    match m
    case JoinDevices => 3
    case SetStop => 2
    case JoinTimer => 1
    case MainDone => 0
  }

  function DeviceRanks(devs: seq<Device>, t: TimerThread): nat {
    if devs == [] then 0
    else
      var last := |devs| - 1;
      DeviceRanks(devs[..last], t) + DeviceRank(devs[last], t.Owes(last))
  }

  function Measure(s: State): nat {
    DeviceRanks(s.devs, s.timer) + TimerRank(s.timer, |s.devs|, Target(s)) + MainRank(s.main)
  }

  /** Changing one device, and the timer in a way the other devices do not see,
      changes the sum by the change of that device's rank. */
  lemma {:induction false} DeviceRanksUpdate(devs: seq<Device>, i: nat, d: Device, t: TimerThread, t': TimerThread)
    requires i < |devs|
    requires forall j: nat :: j < |devs| && j != i ==> t.Owes(j) == t'.Owes(j)
    ensures DeviceRanks(devs[i := d], t') + DeviceRank(devs[i], t.Owes(i))
         == DeviceRanks(devs, t) + DeviceRank(d, t'.Owes(i))
  {
    var last := |devs| - 1;
    if i == last {
      assert devs[i := d][..last] == devs[..last];
      DeviceRanksSame(devs[..last], t, t');
    } else {
      assert devs[i := d][..last] == devs[..last][i := d];
      DeviceRanksUpdate(devs[..last], i, d, t, t');
    }
  }

  lemma {:induction false} DeviceRanksSame(devs: seq<Device>, t: TimerThread, t': TimerThread)
    requires forall j: nat :: j < |devs| ==> t.Owes(j) == t'.Owes(j)
    ensures DeviceRanks(devs, t) == DeviceRanks(devs, t')
  {
    if devs != [] {
      DeviceRanksSame(devs[..|devs| - 1], t, t');
    }
  }

  lemma {:induction false} DeviceRanksBound(devs: seq<Device>, t: TimerThread)
    ensures DeviceRanks(devs, t) <= 34 * |devs|
  {
    if devs != [] {
      DeviceRanksBound(devs[..|devs| - 1], t);
    }
  }

  /** The measure never exceeds a bound that is linear in the number of devices. */
  lemma MeasureBound(s: State)
    ensures Measure(s) <= 50 * |s.devs| + 23
  {
    DeviceRanksBound(s.devs, s.timer);
  }

  lemma TimerRankFalls(t: TimerThread, n: nat, d: Device, next: Device, stop: bool)
    requires t.k <= n && TimerReady(t, n, d) && !t.pc.Tick?
    requires (t.Scanning() && !t.pc.ScanLock?) || t.pc.ResetClear? || t.pc.ResetSignal? || t.pc.ResetUnlock? ==> t.k < n
    ensures
      var t' := Advance(t, n, d, stop);
      var d' := if t'.k != t.k then next else if t.k < n then Handled(t, d) else d;
      TimerRank(t', n, d') < TimerRank(t, n, d)
  {
  }

  lemma TimerStepFalls(s: State)
    requires Inv(s) && TimerEnabled(s) && !s.timer.pc.Tick?
    ensures Measure(TimerNext(s)) < Measure(s)
  {
    var s' := TimerNext(s);
    var t := s.timer;
    TimerRankFalls(t, |s.devs|, Target(s), Target(s'), s.stop);
    if t.k < |s.devs| {
      var d := s.devs[t.k];
      assert DeviceInv(d, t.k, t, s.time);
      assert forall j: nat :: j < |s.devs| && j != t.k ==> t.Owes(j) == s'.timer.Owes(j);
      DeviceRanksUpdate(s.devs, t.k, Handled(t, d), t, s'.timer);
      TimerLowersTarget(d, t, |s.devs|, s.stop, s.time);
    } else {
      DeviceRanksSame(s.devs, t, s'.timer);
    }
  }

  lemma TimerLowersTarget(d: Device, t: TimerThread, n: nat, stop: bool, time: nat)
    requires t.k < n && TimerReady(t, n, d) && DeviceInv(d, t.k, t, time) && !t.pc.Tick?
    ensures DeviceRank(Handled(t, d), Advance(t, n, d, stop).Owes(t.k)) <= DeviceRank(d, t.Owes(t.k))
  {
  }

  lemma DeviceRankFalls(d: Device, i: nat, t: TimerThread, n: nat, time: nat)
    requires DeviceReady(d) && DeviceInv(d, i, t, time)
    ensures DeviceRank(Stepped(d), t.Owes(i)) < DeviceRank(d, t.Owes(i))
    ensures t.k == i ==> TimerRank(Signalled(t, d, i), n, Stepped(d)) <= TimerRank(t, n, d)
  {
  }

  lemma DeviceStepFalls(s: State, i: nat)
    requires Inv(s) && DeviceEnabled(s, i)
    ensures Measure(DeviceNext(s, i)) < Measure(s)
  {
    var s' := DeviceNext(s, i);
    assert DeviceInv(s.devs[i], i, s.timer, s.time);
    DeviceRankFalls(s.devs[i], i, s.timer, |s.devs|, s.time);
    DeviceRanksUpdate(s.devs, i, Stepped(s.devs[i]), s.timer, s'.timer);
  }

  /** Entering next_slot or detach_event. */
  lemma EntryFalls(s: State, i: nat, d: Device)
    requires Inv(s) && i < |s.devs| && s.devs[i].pc.Running?
    requires d.pc.LockEvent? || d.pc.DetachLock?
    requires d.done == s.devs[i].done && d.fsh == s.devs[i].fsh
    ensures Measure(WithDevice(s, i, d)) < Measure(s)
  {
    DeviceRanksUpdate(s.devs, i, d, s.timer, s.timer);
  }

  lemma SpuriousTimerRises(s: State)
    requires Inv(s) && s.timer.pc.ScanWait?
    ensures Measure(s.(timer := s.timer.(pc := ScanWoken))) <= Measure(s) + 2
  {
    DeviceRanksSame(s.devs, s.timer, s.timer.(pc := ScanWoken));
  }

  lemma WokenRank(d: Device, owed: bool)
    requires d.pc.WaitTimer?
    ensures DeviceRank(d.(pc := WokenTimer), owed) <= DeviceRank(d, owed) + 2
  {
  }

  lemma SpuriousDeviceRises(s: State, i: nat)
    requires i < |s.devs| && s.devs[i].pc.WaitTimer?
    ensures Measure(WithDevice(s, i, s.devs[i].(pc := WokenTimer))) <= Measure(s) + 2
  {
    WokenRank(s.devs[i], s.timer.Owes(i));
    DeviceRanksUpdate(s.devs, i, s.devs[i].(pc := WokenTimer), s.timer, s.timer);
  }

  /** Every step either moves the clock or lowers the measure; a spurious wakeup may
      raise it, by at most two. */
  lemma StepFalls(s: State, l: Label)
    requires Inv(s) && Enabled(s, l)
    ensures
      var s' := Apply(s, l);
      || s'.time == s.time + 1
      || (s'.time == s.time && Measure(s') + 1 <= Measure(s) + (if l.IsSpurious() then 3 else 0))
  {
    match l
    case TimerStep => if !s.timer.pc.Tick? { TimerStepFalls(s); }
    case DeviceStep(i) => DeviceStepFalls(s, i);
    case CallNextSlot(i) => EntryFalls(s, i, s.devs[i].(pc := LockEvent, calls := s.devs[i].calls + 1));
    case CallDetach(i) => EntryFalls(s, i, s.devs[i].(pc := DetachLock));
    case MainStep =>
    case SpuriousTimer => SpuriousTimerRises(s);
    case SpuriousDevice(i) => SpuriousDeviceRises(s, i);
  }

  /** The spurious wakeups among steps a, ..., b - 1. */
  function SpuriousCount(ls: seq<Label>, a: nat, b: nat): nat
    requires a <= b <= |ls|
  {
    T.Count(Spurious(ls), a, b)
  }

  function Spurious(ls: seq<Label>): (marks: seq<bool>)
    ensures |marks| == |ls|
  {
    seq(|ls|, n requires 0 <= n < |ls| => ls[n].IsSpurious())
  }

  lemma RoundRunStep(ss: seq<State>, ls: seq<Label>, n: nat)
    requires IsRun(ss, ls) && n < |ls|
    ensures
      || ss[n + 1].time == ss[n].time + 1
      || (ss[n + 1].time == ss[n].time
          && Measure(ss[n + 1]) + 1 <= Measure(ss[n]) + (if ls[n].IsSpurious() then 3 else 0))
  {
    RunInv(ss, ls, n);
    StepFalls(ss[n], ls[n]);
  }

  lemma RoundRun(ss: seq<State>, ls: seq<Label>, a: nat, b: nat)
    requires IsRun(ss, ls) && a <= b < |ss| && ss[b].time == ss[a].time
    ensures Measure(ss[b]) + (b - a) <= Measure(ss[a]) + 3 * SpuriousCount(ls, a, b)
  {
    var m := seq(|ss|, n requires 0 <= n < |ss| => Measure(ss[n]));
    var t := seq(|ss|, n requires 0 <= n < |ss| => ss[n].time);
    forall n | a <= n < b ensures T.TicksOrFalls(m, t, Spurious(ls), n, 3) {
      RoundRunStep(ss, ls, n);
    }
    T.SlotTelescope(m, t, Spurious(ls), a, b, 3);
  }

  /** Every round is short: if the clock does not move between two states of a run, at most
      50 * n + 23 steps lie between them, plus three for each spurious wakeup among them. */
  lemma RoundsAreBounded(ss: seq<State>, ls: seq<Label>, a: nat, b: nat)
    requires IsRun(ss, ls) && a <= b < |ss| && ss[b].time == ss[a].time
    ensures b - a <= 50 * |ss[a].devs| + 23 + 3 * SpuriousCount(ls, a, b)
  {
    RoundRun(ss, ls, a, b);
    MeasureBound(ss[a]);
  }
}
