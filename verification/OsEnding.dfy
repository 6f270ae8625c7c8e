/** How the simulation ends: every run gets to the point where `done` is set and all processes
    have finished or all CPUs leave; from there it ends within two more ticks of the clock
    exactly if no CPU idles at that moment. */
module OsEnding {
  import opened Options
  import B = Barrier
  import BS = BarrierSafety
  import BP = BarrierProgress
  import T = Telescopes
  import opened Os
  import opened OsSafety
  import opened OsShutdown
  import opened OsLiveness
  import opened OsProgress

  // ------------------------------------------------- no device uses the barrier again

  /** Every device runs code that will not call next_slot again, or has gone. */
  ghost predicate NoMoreSlots(b: B.State) {
    forall i :: 0 <= i < |b.devs| ==> b.devs[i].pc.Running? || Gone(b.devs[i])
  }

  /** How many ticks the timer can still make then: it stops after a scan pass in which every
      device it counted had finished. */
  function TicksLeft(t: B.TimerThread): nat {
    if t.pc.TimerExited? then 0
    else if t.pc.Loop? then 1
    else if t.Scanning() || t.pc.Tick? then if t.fsh == t.event then 1 else 2
    else if t.fsh == t.event then 0 else 1
  }

  lemma TimerTicks(b: B.State)
    requires BS.Inv(b) && NoMoreSlots(b) && B.TimerEnabled(b)
    ensures B.TimerNext(b).time + TicksLeft(B.TimerNext(b).timer) <= b.time + TicksLeft(b.timer)
  {
    if b.timer.k < |b.devs| {
      assert BS.DeviceInv(b.devs[b.timer.k], b.timer.k, b.timer, b.time);
    }
  }

  lemma BarrierTicks(b: B.State, l: B.Label)
    requires BS.Inv(b) && NoMoreSlots(b) && B.Enabled(b, l)
    ensures B.Apply(b, l).time + TicksLeft(B.Apply(b, l).timer) <= b.time + TicksLeft(b.timer)
  {
    if l.TimerStep? {
      TimerTicks(b);
    }
  }

  // ----------------------------------------------------------- the end of a run

  ghost predicate SomeIdling(s: State) {
    exists c :: 0 <= c < |s.cpus| && Idling(s.cpus[c])
  }

  /** The matter is settled, and every CPU is on its way out. */
  ghost predicate Ending(s: State) {
    Settled(s) && !SomeIdling(s)
  }

  /** A CPU that idles is open: if the matter is settled, it is because all processes have finished. */
  lemma IdlingIsOpen(s: State, c: nat)
    requires Settled(s) && c < |s.cpus| && Idling(s.cpus[c])
    ensures AllFinished(s)
  {
    assert Open(s.cpus[c]);
  }

  lemma NothingHeld(s: State, c: nat)
    requires Inv(s) && Settled(s) && c < |s.cpus|
    ensures s.cpus[c].proc.None?
  {
    assert CpuAt(s, c);
    if AllFinished(s) {
      if s.cpus[c].proc.Some? {
        HeldAlone(s, c);
      }
    } else {
      assert !Open(s.cpus[c]);
    }
  }

  lemma EndingUsesNoSlot(s: State)
    requires Inv(s) && Ending(s)
    ensures NoMoreSlots(s.b)
  {
    forall i | 0 <= i < |s.b.devs| ensures s.b.devs[i].pc.Running? || Gone(s.b.devs[i]) {
      if i > 0 {
        NothingHeld(s, i - 1);
        assert CpuAt(s, i - 1);
        assert !Idling(s.cpus[i - 1]);
      }
    }
  }

  /** A CPU that holds nothing and does not idle, once `done` is set and nothing is ready, leaves. */
  lemma CpuLeaves(u: Cpu, p: Process, timeSlot: int)
    requires u.proc.None? && !Idling(u) && !u.pc.Execute?
    ensures !Idling(CpuAfter(u, p, None, true, timeSlot))
  {
  }

  /** No CPU starts to idle once everything has finished. */
  lemma FinishedCpuStep(s: State, c: nat, pick: Option<nat>)
    requires Inv(s) && Ending(s) && AllFinished(s) && CpuEnabled(s, c, pick)
    ensures !SomeIdling(CpuNext(s, c, pick))
  {
    NothingToPick(s, c, pick);
    NothingHeld(s, c);
    CpuStepKeeps(s, c, pick);
    assert CpuAt(s, c) && !Idling(s.cpus[c]);
    CpuLeaves(s.cpus[c], Held(s.cpus[c], s.procs), s.cfg.timeSlot);
    forall e | 0 <= e < |s.cpus| && e != c ensures !Idling(CpuNext(s, c, pick).cpus[e]) {
      assert !Idling(s.cpus[e]);
    }
  }

  lemma FinishedEndingStep(s: State, l: Label)
    requires Inv(s) && Ending(s) && AllFinished(s) && Enabled(s, l)
    ensures Ending(Apply(s, l))
  {
    FinishedForGood(s, l);
    match l
    case Barrier(_) => assert Apply(s, l).cpus == s.cpus;
    case CpuStep(c, pick) => FinishedCpuStep(s, c, pick); CpuStepKeeps(s, c, pick);
    case LoaderStep => assert Apply(s, l).cpus == s.cpus;
  }

  lemma ClosedIsEnding(s: State)
    requires Closed(s)
    ensures Ending(s)
  {
    forall c | 0 <= c < |s.cpus| ensures !Idling(s.cpus[c]) {
      assert !Open(s.cpus[c]);
    }
  }

  lemma ClosedStep(s: State, l: Label)
    requires Inv(s) && Closed(s) && Enabled(s, l)
    ensures Closed(Apply(s, l))
  {
    match l
    case Barrier(_) => assert Apply(s, l).cpus == s.cpus;
    case CpuStep(c, pick) => CpuStaysClosed(s, c, pick);
    case LoaderStep => assert Apply(s, l).cpus == s.cpus;
  }

  lemma EndingStep(s: State, l: Label)
    requires Inv(s) && Ending(s) && Enabled(s, l)
    ensures Ending(Apply(s, l))
  {
    if AllFinished(s) {
      FinishedEndingStep(s, l);
    } else {
      ClosedStep(s, l);
      ClosedIsEnding(Apply(s, l));
    }
  }

  lemma CpuLeavesTimer(u: Cpu, b: B.State, i: nat)
    requires i < |b.devs| && b.devs[i].pc.Running?
    ensures BarrierAfter(u, b, i).time == b.time && BarrierAfter(u, b, i).timer == b.timer
  {
  }

  lemma LoaderLeavesTimer(ld: Loader, b: B.State)
    requires 0 < |b.devs| && b.devs[0].pc.Running?
    ensures LoaderBarrier(ld, b).time == b.time && LoaderBarrier(ld, b).timer == b.timer
  {
  }

  lemma CpuStepTimer(s: State, c: nat, pick: Option<nat>)
    requires CpuEnabled(s, c, pick)
    ensures CpuNext(s, c, pick).b.time == s.b.time && CpuNext(s, c, pick).b.timer == s.b.timer
  {
    CpuLeavesTimer(s.cpus[c], s.b, c + 1);
  }

  lemma LoaderStepTimer(s: State)
    requires LoaderEnabled(s)
    ensures LoaderNext(s).b.time == s.b.time && LoaderNext(s).b.timer == s.b.timer
  {
    LoaderLeavesTimer(s.ld, s.b);
  }

  lemma EndingTicks(s: State, l: Label)
    requires Inv(s) && Ending(s) && Enabled(s, l)
    ensures Apply(s, l).b.time + TicksLeft(Apply(s, l).b.timer) <= s.b.time + TicksLeft(s.b.timer)
  {
    match l
    case Barrier(bl) => EndingUsesNoSlot(s); BarrierTicks(s.b, bl);
    case CpuStep(c, pick) => CpuStepTimer(s, c, pick);
    case LoaderStep => LoaderStepTimer(s);
  }

  // --------------------------------------------------------- counting the steps

  function SlotBound(cpus: nat): nat { 506 * cpus + 736 }

  lemma MeasureIsBounded(s: State)
    requires Inv(s)
    ensures Measure(s) <= SlotBound(|s.cpus|)
  {
    BP.MeasureBound(s.b);
    CpuRanksBound(s.cpus);
  }

  /** The steps left, for a slot of at most k steps. */
  function StepsLeft(s: State, k: nat): nat {
    var r := TicksLeft(s.b.timer);
    Measure(s) + (if r >= 1 then k else 0) + (if r >= 2 then k else 0)
  }

  lemma MeasureAfter(s: State, l: Label)
    requires Inv(s) && Enabled(s, l)
    ensures |Apply(s, l).cpus| == |s.cpus| && Measure(Apply(s, l)) <= SlotBound(|s.cpus|)
  {
    CfgStaysStep(s, l);
    StepInv(s, l);
    MeasureIsBounded(Apply(s, l));
  }

  lemma EndingFalls(s: State, l: Label)
    requires Inv(s) && Ending(s) && Enabled(s, l)
    ensures |Apply(s, l).cpus| == |s.cpus|
    ensures
      var k := SlotBound(|s.cpus|) + 1;
      StepsLeft(Apply(s, l), k) + 1 <= StepsLeft(s, k) + (if l.IsSpurious() then 21 else 0)
  {
    EndingTicks(s, l);
    StepFalls(s, l);
    MeasureAfter(s, l);
  }

  lemma EndingRunStep(ss: seq<State>, ls: seq<Label>, n: nat, k: nat)
    requires IsRun(ss, ls) && n < |ls| && Ending(ss[n]) && k == SlotBound(|ss[n].cpus|) + 1
    ensures Ending(ss[n + 1]) && |ss[n + 1].cpus| == |ss[n].cpus|
    ensures StepsLeft(ss[n + 1], k) + 1 <= StepsLeft(ss[n], k) + (if ls[n].IsSpurious() then 21 else 0)
  {
    RunInv(ss, ls, n);
    EndingStep(ss[n], ls[n]);
    EndingFalls(ss[n], ls[n]);
  }

  lemma {:induction false} EndingForGood(ss: seq<State>, ls: seq<Label>, a: nat, b: nat)
    requires IsRun(ss, ls) && a <= b < |ss| && Ending(ss[a])
    ensures Ending(ss[b]) && |ss[b].cpus| == |ss[a].cpus|
    decreases b
  {
    if a < b {
      EndingForGood(ss, ls, a, b - 1);
      EndingRunStep(ss, ls, b - 1, SlotBound(|ss[a].cpus|) + 1);
    }
  }

  lemma EndingRun(ss: seq<State>, ls: seq<Label>, a: nat, b: nat, k: nat)
    requires IsRun(ss, ls) && a <= b < |ss| && Ending(ss[a]) && k == SlotBound(|ss[a].cpus|) + 1
    ensures StepsLeft(ss[b], k) + (b - a) <= StepsLeft(ss[a], k) + 21 * SpuriousCount(ls, a, b)
  {
    var m := seq(|ss|, n requires 0 <= n < |ss| => StepsLeft(ss[n], k));
    var t := seq(|ss|, _ => 0);
    forall n | a <= n < b ensures T.TicksOrFalls(m, t, Spurious(ls), n, 21) {
      EndingForGood(ss, ls, a, n);
      EndingRunStep(ss, ls, n, k);
    }
    T.SlotTelescope(m, t, Spurious(ls), a, b, 21);
  }

  /** Once the matter is settled, a run in which no CPU idles ends: at most three slots' worth
      of steps can still be taken, and until main has returned there always is one to take. */
  lemma EndsUnlessIdling(ss: seq<State>, ls: seq<Label>, a: nat, b: nat)
    requires IsRun(ss, ls) && a <= b < |ss| && Settled(ss[a]) && !SomeIdling(ss[a])
    ensures b - a <= 3 * (SlotBound(|ss[a].cpus|) + 1) + 21 * SpuriousCount(ls, a, b)
    ensures CanStep(ss[b]) || ss[b].b.main.MainDone?
  {
    EndingRun(ss, ls, a, b, SlotBound(|ss[a].cpus|) + 1);
    RunInv(ss, ls, a);
    MeasureIsBounded(ss[a]);
    NeverStuck(ss, ls, b);
  }

  // ---------------------------------------------------------- every run is settled

  lemma RunMeasure(ss: seq<State>, ls: seq<Label>, n: nat)
    requires IsRun(ss, ls) && n < |ss|
    ensures Measure(ss[n]) <= SlotBound(ss[0].cfg.cpus)
  {
    RunInv(ss, ls, n);
    MeasureIsBounded(ss[n]);
    CfgStays(ss, ls, n);
  }

  /** The clock keeps up with the steps: each slot lasts at most k steps and spurious wakeups. */
  lemma ClockKeepsUp(ss: seq<State>, ls: seq<Label>, n: nat, k: nat)
    requires IsRun(ss, ls) && n < |ss| && k == SlotBound(ss[0].cfg.cpus) + 1
    ensures n <= T.Slots(ss[n].b.time + 1, k) + 21 * SpuriousCount(ls, 0, n)
  {
    var m := seq(|ss|, i requires 0 <= i < |ss| => Measure(ss[i]));
    var t := seq(|ss|, i requires 0 <= i < |ss| => ss[i].b.time);
    forall i | 0 <= i <= n ensures m[i] < k {
      RunMeasure(ss, ls, i);
    }
    forall i | 0 <= i < n ensures T.TicksOrFalls(m, t, Spurious(ls), i, 21) {
      SlotRunStep(ss, ls, i);
    }
    T.ClockTelescope(m, t, Spurious(ls), n, k, 21);
  }

  lemma LateClock(ss: seq<State>, ls: seq<Label>, n: nat, deadline: nat, bound: nat)
    requires IsRun(ss, ls) && n < |ss|
    requires bound == (deadline + 1) * (SlotBound(ss[0].cfg.cpus) + 1)
    requires n > bound + 21 * SpuriousCount(ls, 0, n)
    ensures ss[n].b.time > deadline
  {
    var k := SlotBound(ss[0].cfg.cpus) + 1;
    ClockKeepsUp(ss, ls, n, k);
    T.SlotsAreProducts(ss[n].b.time + 1, k);
    if ss[n].b.time <= deadline {
      T.TimesGrows(ss[n].b.time + 1, deadline + 1, k);
    }
  }

  /** As many steps as fit into the slots up to the deadline and `failures` more. */
  function StepBound(cfg: Config, failures: nat): nat {
    (Deadline(cfg) + failures + 1) * (SlotBound(cfg.cpus) + 1)
  }

  /** Every run is settled within a bounded number of steps, under any interleaving and any
      choice of processes; each slot in which get_proc fails may put that off by one slot. */
  lemma EveryRunIsSettled(ss: seq<State>, ls: seq<Label>, n: nat)
    requires IsRun(ss, ls) && n < |ss| && ss[0].cfg.cpus >= 1
    requires n > StepBound(ss[0].cfg, |ss[n].failed|) + 21 * SpuriousCount(ls, 0, n)
    ensures Settled(ss[n])
  {
    LateClock(ss, ls, n, Deadline(ss[0].cfg) + |ss[n].failed|, StepBound(ss[0].cfg, |ss[n].failed|));
    SettledInTime(ss, ls, n);
  }

  /** If get_proc never fails while something is ready, every process finishes within a bounded
      number of steps. */
  lemma EveryProcessFinishes(ss: seq<State>, ls: seq<Label>, n: nat)
    requires IsWorkConservingRun(ss, ls) && n < |ss| && ss[0].cfg.cpus >= 1
    requires n > StepBound(ss[0].cfg, 0) + 21 * SpuriousCount(ls, 0, n)
    ensures AllFinished(ss[n]) && ss[n].done
  {
    NeverFails(ss, ls, n);
    EveryRunIsSettled(ss, ls, n);
    SettledAllFinish(ss, ls, n);
  }

  /** Once main has joined its threads, all processes have finished exactly if nothing is left
      ready: the only way to lose one is a get_proc that fails. */
  lemma ShutdownIsCleanIff(ss: seq<State>, ls: seq<Label>, n: nat)
    requires IsRun(ss, ls) && n < |ss| && !ss[n].b.main.JoinDevices?
    ensures AllFinished(ss[n]) <==> ss[n].ready == multiset{}
  {
    RunInv(ss, ls, n);
    JoinedMeansStopped(ss[n]);
    ClosedFinishedIff(ss, ls, n);
  }

  /** The end is decided once the matter is settled: main returns in some continuation only if
      no CPU idles at that moment, and then it returns in every continuation, since only so many
      steps other than spurious wakeups can be put off. */
  lemma EndIsDecided(ss: seq<State>, ls: seq<Label>, a: nat, b: nat)
    requires IsRun(ss, ls) && a <= b < |ss| && Settled(ss[a])
    requires b - a > 3 * (SlotBound(|ss[a].cpus|) + 1) + 21 * SpuriousCount(ls, a, b) || !CanStep(ss[b])
    ensures ss[b].b.main.MainDone? <==> !SomeIdling(ss[a])
  {
    if SomeIdling(ss[a]) {
      var c :| 0 <= c < |ss[a].cpus| && Idling(ss[a].cpus[c]);
      IdlingIsOpen(ss[a], c);
      IdleCpuNeverStops(ss, ls, a, b, c);
    } else {
      EndsUnlessIdling(ss, ls, a, b);
    }
  }
}
