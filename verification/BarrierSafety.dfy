/** What every interleaving of the barrier keeps: the phase invariant that makes
    the two-lock handling of `done` correct, and lockstep. */
module BarrierSafety {
  import opened Barrier

  /** What holds of the device at position j, given where the timer is. */
  ghost predicate DeviceInv(d: Device, j: nat, t: TimerThread, time: nat) {
    // locks
    && (d.eventLock == ByDevice <==> d.HoldsEvent())
    && (d.eventLock == ByTimer <==> t.HoldsEvent(j))
    && (d.timerLock == ByDevice <==> d.HoldsTimer())
    && (d.timerLock == ByTimer <==> t.HoldsTimer(j))
    // flags
    && (d.fsh <==> d.pc.DetachSignal? || d.pc.DetachUnlock? || d.pc.Exited?)
    && (d.done ==> d.pc.SignalEvent? || d.pc.UnlockEvent? || d.Parked())
    && (d.pc.SignalEvent? || d.pc.UnlockEvent? ==> d.done)
    // the phase: a device the timer has passed, or still has to reset, is parked with done up
    && (t.Scanned(j) || t.Owes(j) ==> d.pc.Exited? || (d.done && d.Parked()))
    && (t.HoldsTimer(j) && !t.pc.ResetClear? ==> !d.done && (d.pc.Exited? || d.Parked()))
    // no lost wakeup, in either direction
    && (d.pc.WaitTimer? && !d.done ==> t.pc.ResetSignal? && t.k == j)
    && (t.pc.ScanWait? && t.k == j && (d.done || d.fsh) ==> d.pc.SignalEvent? || d.pc.DetachSignal?)
    // slot counts
    && d.calls == d.returned + (if d.InSlot() then 1 else 0)
    && d.released == d.returned + (if !d.done && (d.Parked() || d.pc.UnlockTimer?) then 1 else 0)
    && (!d.fsh ==> time == d.released + (if t.Owes(j) then 1 else 0))
  }

  ghost predicate TimerInv(s: State) {
    var t := s.timer;
    && t.k <= |s.devs|
    && ((t.Scanning() && !t.pc.ScanLock?) || t.pc.ResetClear? || t.pc.ResetSignal? || t.pc.ResetUnlock?
        ==> t.k < |s.devs|)
    && (t.Scanning() ==> t.event == t.k + (if t.pc.ScanUnlock? then 1 else 0))
    && (t.pc.Tick? || t.pc.ResetLock? || t.pc.ResetClear? || t.pc.ResetSignal? || t.pc.ResetUnlock? || t.pc.Judge?
        ==> t.event == |s.devs|)
    && t.fsh <= t.event <= |s.devs|
    // a full count of finished devices is only reached when all that were counted have exited
    && (t.fsh == t.event ==> forall j :: 0 <= j < t.event ==> s.devs[j].pc.Exited?)
    && (t.pc.TimerExited? ==> AllExited(s))
    && (s.stop <==> s.main.JoinTimer? || s.main.MainDone?)
    && (!s.main.JoinDevices? ==> AllExited(s))
    && (s.main.MainDone? ==> t.pc.TimerExited?)
  }

  ghost predicate AllExited(s: State) {
    forall j :: 0 <= j < |s.devs| ==> s.devs[j].pc.Exited?
  }

  ghost predicate Inv(s: State) {
    && TimerInv(s)
    && forall j :: 0 <= j < |s.devs| ==> DeviceInv(s.devs[j], j, s.timer, s.time)
  }

  // ------------------------------------------------------------ preservation

  lemma InitInv(s: State)
    requires Init(s)
    ensures Inv(s)
  {
  }

  /** The timer's step, seen from the device it is looking at. */
  lemma TimerKeepsTarget(d: Device, t: TimerThread, n: nat, stop: bool, time: nat)
    requires t.k < n && TimerReady(t, n, d) && DeviceInv(d, t.k, t, time)
    ensures DeviceInv(Handled(t, d), t.k, Advance(t, n, d, stop), if t.pc.Tick? then time + 1 else time)
  {
  }

  /** The timer's step, seen from any other device. */
  lemma TimerKeepsOthers(d: Device, j: nat, t: TimerThread, n: nat, target: Device, stop: bool, time: nat)
    requires j != t.k && j < n && TimerReady(t, n, target) && DeviceInv(d, j, t, time)
    ensures DeviceInv(d, j, Advance(t, n, target, stop), if t.pc.Tick? then time + 1 else time)
  {
  }

  lemma TimerStepTimerInv(s: State)
    requires Inv(s) && TimerEnabled(s)
    ensures TimerInv(TimerNext(s))
  {
    var t := s.timer;
    if t.k < |s.devs| {
      assert DeviceInv(s.devs[t.k], t.k, t, s.time);
    }
  }

  lemma TimerStepInv(s: State)
    requires Inv(s) && TimerEnabled(s)
    ensures Inv(TimerNext(s))
  {
    var s' := TimerNext(s);
    TimerStepTimerInv(s);
    forall j | 0 <= j < |s'.devs| ensures DeviceInv(s'.devs[j], j, s'.timer, s'.time) {
      if j == s.timer.k {
        TimerKeepsTarget(s.devs[j], s.timer, |s.devs|, s.stop, s.time);
      } else {
        TimerKeepsOthers(s.devs[j], j, s.timer, |s.devs|, Target(s), s.stop, s.time);
      }
    }
  }

  /** A device's step, seen from the device itself. */
  lemma DeviceKeepsItself(d: Device, i: nat, t: TimerThread, time: nat)
    requires DeviceReady(d) && DeviceInv(d, i, t, time)
    ensures DeviceInv(Stepped(d), i, Signalled(t, d, i), time)
  {
  }

  lemma DeviceStepInv(s: State, i: nat)
    requires Inv(s) && DeviceEnabled(s, i)
    ensures Inv(DeviceNext(s, i))
  {
    var s' := DeviceNext(s, i);
    forall j | 0 <= j < |s'.devs| ensures DeviceInv(s'.devs[j], j, s'.timer, s'.time) {
      assert DeviceInv(s.devs[j], j, s.timer, s.time);
      if j == i {
        DeviceKeepsItself(s.devs[i], i, s.timer, s.time);
      }
    }
  }

  /** A device's code entering next_slot or detach_event, and a device woken for no reason. */
  lemma EntryInv(s: State, i: nat, d: Device)
    requires Inv(s) && i < |s.devs|
    requires
      || (s.devs[i].pc.Running? && d == s.devs[i].(pc := LockEvent, calls := s.devs[i].calls + 1))
      || (s.devs[i].pc.Running? && d == s.devs[i].(pc := DetachLock))
      || (s.devs[i].pc.WaitTimer? && d == s.devs[i].(pc := WokenTimer))
    ensures Inv(WithDevice(s, i, d))
  {
    var s' := WithDevice(s, i, d);
    forall j | 0 <= j < |s'.devs| ensures DeviceInv(s'.devs[j], j, s'.timer, s'.time) {
      assert DeviceInv(s.devs[j], j, s.timer, s.time);
    }
  }

  lemma SpuriousTimerInv(s: State)
    requires Inv(s) && s.timer.pc.ScanWait?
    ensures Inv(s.(timer := s.timer.(pc := ScanWoken)))
  {
    var s' := s.(timer := s.timer.(pc := ScanWoken));
    forall j | 0 <= j < |s'.devs| ensures DeviceInv(s'.devs[j], j, s'.timer, s'.time) {
      assert DeviceInv(s.devs[j], j, s.timer, s.time);
    }
  }

  lemma MainStepInv(s: State)
    requires Inv(s) && MainEnabled(s)
    ensures Inv(MainNext(s))
  {
    var s' := MainNext(s);
    forall j | 0 <= j < |s'.devs| ensures DeviceInv(s'.devs[j], j, s'.timer, s'.time) {
      assert DeviceInv(s.devs[j], j, s.timer, s.time);
    }
  }

  /** Every step of every thread keeps the invariant. */
  lemma StepInv(s: State, l: Label)
    requires Inv(s) && Enabled(s, l)
    ensures Inv(Apply(s, l))
  {
    match l
    case TimerStep => TimerStepInv(s);
    case DeviceStep(i) => DeviceStepInv(s, i);
    case CallNextSlot(i) => EntryInv(s, i, s.devs[i].(pc := LockEvent, calls := s.devs[i].calls + 1));
    case CallDetach(i) => EntryInv(s, i, s.devs[i].(pc := DetachLock));
    case SpuriousDevice(i) => EntryInv(s, i, s.devs[i].(pc := WokenTimer));
    case SpuriousTimer => SpuriousTimerInv(s);
    case MainStep => MainStepInv(s);
  }

  /** The invariant holds in every state of every run. */
  lemma {:induction false} RunInv(ss: seq<State>, ls: seq<Label>, n: nat)
    requires IsRun(ss, ls) && n < |ss|
    ensures Inv(ss[n])
  {
    if n == 0 {
      InitInv(ss[0]);
    } else {
      RunInv(ss, ls, n - 1);
      StepInv(ss[n - 1], ls[n - 1]);
    }
  }

  // ---------------------------------------------------------------- theorems

  /** Lockstep.  A device that has not finished has been released in every slot the
      clock has counted, except that it is one behind exactly while the timer's reset
      pass has still to reach it.  Running code therefore always reads a `_time` equal
      to the number of its own completed calls of next_slot. */
  lemma Lockstep(ss: seq<State>, ls: seq<Label>, n: nat, i: nat)
    requires IsRun(ss, ls) && n < |ss| && i < |ss[n].devs| && !ss[n].devs[i].fsh
    ensures
      var s := ss[n];
      var d := s.devs[i];
      && d.released == (if s.timer.Owes(i) then s.time - 1 else s.time)
      && (d.pc.Running? ==> d.returned == d.calls == s.time)
  {
    RunInv(ss, ls, n);
    assert DeviceInv(ss[n].devs[i], i, ss[n].timer, ss[n].time);
  }

  /** Two devices that have not finished are never more than one slot apart. */
  lemma NeverTwoSlotsApart(ss: seq<State>, ls: seq<Label>, n: nat, i: nat, j: nat)
    requires IsRun(ss, ls) && n < |ss| && i < |ss[n].devs| && j < |ss[n].devs|
    requires !ss[n].devs[i].fsh && !ss[n].devs[j].fsh
    ensures -1 <= ss[n].devs[i].released - ss[n].devs[j].released <= 1
  {
    Lockstep(ss, ls, n, i);
    Lockstep(ss, ls, n, j);
  }

  /** The clock moves only in the timer's Tick, by one, and only when every device has
      reported its slot or has gone: no device's own code is running at that moment. */
  lemma ClockMovesOnlyAtRest(ss: seq<State>, ls: seq<Label>, n: nat, i: nat)
    requires IsRun(ss, ls) && n < |ls| && ss[n + 1].time != ss[n].time && i < |ss[n].devs|
    ensures ss[n + 1].time == ss[n].time + 1
    ensures ss[n].devs[i].pc.Exited? || (ss[n].devs[i].done && ss[n].devs[i].Parked())
  {
    RunInv(ss, ls, n);
    assert DeviceInv(ss[n].devs[i], i, ss[n].timer, ss[n].time);
  }

  /** `done` is written under event_lock by its device and under timer_lock by the timer,
      yet the two writes never compete: when the timer is about to clear the flag of a
      device that has not finished, the flag is up and the device is past its own write. */
  lemma DoneIsNeverContended(ss: seq<State>, ls: seq<Label>, n: nat)
    requires IsRun(ss, ls) && n < |ss| && ss[n].timer.pc.ResetClear?
    ensures
      var d := Target(ss[n]);
      d.pc.Exited? || (d.done && (d.pc.LockTimer? || d.pc.WaitTimer? || d.pc.WokenTimer?))
  {
    RunInv(ss, ls, n);
    assert DeviceInv(ss[n].devs[ss[n].timer.k], ss[n].timer.k, ss[n].timer, ss[n].time);
  }

  /** No lost wakeup.  A device in the wait set of its timer_cond either still has its
      flag up, so the reset pass has yet to come for it, or is about to be signalled by the
      timer holding its lock; a timer waiting on event_cond waits for a device that has set
      neither flag, or is about to be signalled by that device. */
  lemma NoLostWakeup(ss: seq<State>, ls: seq<Label>, n: nat, i: nat)
    requires IsRun(ss, ls) && n < |ss| && i < |ss[n].devs|
    ensures
      var s := ss[n];
      var d := s.devs[i];
      && (d.pc.WaitTimer? ==> d.done || (s.timer.pc.ResetSignal? && s.timer.k == i))
      && (s.timer.pc.ScanWait? && s.timer.k == i ==>
            (!d.done && !d.fsh) || d.pc.SignalEvent? || d.pc.DetachSignal?)
  {
    RunInv(ss, ls, n);
    assert DeviceInv(ss[n].devs[i], i, ss[n].timer, ss[n].time);
  }

  /** The timer never gives up on a device: when its thread ends, all devices have exited. */
  lemma TimerOutlivesDevices(ss: seq<State>, ls: seq<Label>, n: nat)
    requires IsRun(ss, ls) && n < |ss|
    ensures ss[n].timer.pc.TimerExited? ==> AllExited(ss[n])
    ensures ss[n].main.MainDone? ==> ss[n].timer.pc.TimerExited?
  {
    RunInv(ss, ls, n);
  }

  /** The ticks still to come once `timer_stop` is set: a scan pass begun before is finished. */
  function TicksAfterStop(t: TimerThread): nat {
    if t.Scanning() || t.pc.Tick? then 1 else 0
  }

  lemma StopStep(s: State, l: Label)
    requires Inv(s) && Enabled(s, l) && s.stop
    ensures
      var s' := Apply(s, l);
      s'.stop && s'.time + TicksAfterStop(s'.timer) == s.time + TicksAfterStop(s.timer)
  {
  }

  /** `timer_stop` stops the clock.  Once it is set no further scan pass begins: the clock ends
      where it is, or one slot later if the timer was in a scan pass at that moment. */
  lemma {:induction false} StopSettlesClock(ss: seq<State>, ls: seq<Label>, a: nat, b: nat)
    requires IsRun(ss, ls) && a <= b < |ss| && ss[a].stop
    ensures ss[b].stop && ss[b].time + TicksAfterStop(ss[b].timer) == ss[a].time + TicksAfterStop(ss[a].timer)
    ensures ss[b].timer.pc.TimerExited? ==> ss[b].time == ss[a].time + TicksAfterStop(ss[a].timer)
    decreases b
  {
    if a < b {
      StopSettlesClock(ss, ls, a, b - 1);
      RunInv(ss, ls, b - 1);
      StopStep(ss[b - 1], ls[b - 1]);
    }
  }
}
