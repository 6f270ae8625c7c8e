/** The whole simulation keeps moving: it cannot deadlock, and the clock ticks after a
    bounded number of steps whatever the CPUs and the loader do. */
module OsProgress {
  import opened Options
  import B = Barrier
  import BS = BarrierSafety
  import BP = BarrierProgress
  import T = Telescopes
  import opened Os
  import opened OsSafety

  /** A step that is no spurious wakeup, and in which get_proc returns NULL only if it must. */
  ghost predicate CanStep(s: State) {
    exists l: Label :: !l.IsSpurious() && Enabled(s, l) && WorkConserving(s, l)
  }

  /** A program always has a step to take while its device runs. */
  lemma RunningDeviceMoves(s: State, i: nat)
    requires Inv(s) && i < |s.b.devs| && s.b.devs[i].pc.Running?
    ensures CanStep(s)
  {
    var l := LoaderStep;
    if i > 0 {
      assert CpuAt(s, i - 1);
      if Getting(s.cpus[i - 1]) && s.ready != multiset{} {
        var p :| p in s.ready;
        l := CpuStep(i - 1, Some(p));
      } else {
        l := CpuStep(i - 1, None);
      }
    }
    assert !l.IsSpurious() && Enabled(s, l) && WorkConserving(s, l);
  }

  /** No deadlock: in every state of every run some step other than a spurious wakeup can be
      taken, until main has returned. */
  lemma NeverStuck(ss: seq<State>, ls: seq<Label>, n: nat)
    requires IsRun(ss, ls) && n < |ss|
    ensures CanStep(ss[n]) || ss[n].b.main.MainDone?
  {
    var s := ss[n];
    RunInv(ss, ls, n);
    BP.NoDeadlock(s.b);
    if BP.CanStep(s.b) {
      var bl :| BP.IsProtocolStep(bl) && B.Enabled(s.b, bl);
      var l := Barrier(bl);
      assert !l.IsSpurious() && Enabled(s, l) && WorkConserving(s, l);
    } else if BP.WaitsForRunningDevice(s.b) {
      RunningDeviceMoves(s, s.b.timer.k);
    }
  }

  // ---------------------------------------------------------- bounded slots

  function CpuRank(u: Cpu): nat {
    match u.pc
    case AtHead => 6
    case GetIdle => 5
    case GetAfterFinish => 5
    case GetAfterPut => 5
    case Recheck => 4
    case Execute => 3
    case EndSlot => 2
    case Stop => 2
    case Stopped => 0
  }

  function CpuRanks(cpus: seq<Cpu>): nat {
    if cpus == [] then 0 else CpuRanks(cpus[..|cpus| - 1]) + CpuRank(cpus[|cpus| - 1])
  }

  function LoaderRank(ld: Loader): nat {
    match ld.pc
    case LdHead => 6
    case LdCheck => 5
    case LdSleep => 4
    case LdAdmit => 4
    case LdEnd => 3
    case LdSetDone => 5
    case LdDetach => 4
    case LdStopped => 0
  }

  /** A step of a program lowers its rank, or enters the barrier, which weighs ten times as much. */
  function Measure(s: State): nat {
    10 * BP.Measure(s.b) + CpuRanks(s.cpus) + LoaderRank(s.ld)
  }

  lemma {:induction false} CpuRanksUpdate(cpus: seq<Cpu>, c: nat, u: Cpu)
    requires c < |cpus|
    ensures CpuRanks(cpus[c := u]) + CpuRank(cpus[c]) == CpuRanks(cpus) + CpuRank(u)
  {
    var last := |cpus| - 1;
    if c == last {
      assert cpus[c := u][..last] == cpus[..last];
    } else {
      assert cpus[c := u][..last] == cpus[..last][c := u];
      CpuRanksUpdate(cpus[..last], c, u);
    }
  }

  lemma {:induction false} CpuRanksBound(cpus: seq<Cpu>)
    ensures CpuRanks(cpus) <= 6 * |cpus|
  {
    if cpus != [] {
      CpuRanksBound(cpus[..|cpus| - 1]);
    }
  }

  lemma CpuRankFalls(u: Cpu, p: Process, pick: Option<nat>, done: bool, timeSlot: int)
    requires !u.pc.Stopped?
    ensures
      var u' := CpuAfter(u, p, pick, done, timeSlot);
      CpuRank(u') < CpuRank(u) + (if u.pc.EndSlot? || u.pc.Stop? then 10 else 0)
  {
  }

  lemma CallFalls(b: B.State, l: B.Label)
    requires BS.Inv(b) && B.Enabled(b, l) && (l.CallNextSlot? || l.CallDetach?)
    ensures BP.Measure(B.Apply(b, l)) < BP.Measure(b) && B.Apply(b, l).time == b.time
  {
    BP.StepFalls(b, l);
  }

  lemma CpuBarrierFalls(u: Cpu, b: B.State, i: nat)
    requires BS.Inv(b) && i < |b.devs| && b.devs[i].pc.Running?
    ensures BP.Measure(BarrierAfter(u, b, i)) + (if u.pc.EndSlot? || u.pc.Stop? then 1 else 0) <= BP.Measure(b)
  {
    if u.pc.EndSlot? { CallFalls(b, B.CallNextSlot(i)); }
    if u.pc.Stop? { CallFalls(b, B.CallDetach(i)); }
  }

  lemma CpuStepFalls(s: State, c: nat, pick: Option<nat>)
    requires BS.Inv(s.b) && CpuEnabled(s, c, pick)
    ensures Measure(CpuNext(s, c, pick)) < Measure(s) && CpuNext(s, c, pick).b.time == s.b.time
  {
    var u := s.cpus[c];
    var u' := CpuAfter(u, Held(u, s.procs), pick, s.done, s.cfg.timeSlot);
    CpuStepKeeps(s, c, pick);
    CpuRankFalls(u, Held(u, s.procs), pick, s.done, s.cfg.timeSlot);
    CpuRanksUpdate(s.cpus, c, u');
    CpuBarrierFalls(u, s.b, c + 1);
  }

  predicate LoaderCalls(ld: Loader) { ld.pc.LdSleep? || ld.pc.LdEnd? || ld.pc.LdDetach? }

  lemma LoaderRankFalls(ld: Loader, start: seq<nat>, time: nat)
    requires !ld.pc.LdStopped?
    ensures LoaderRank(LoaderAfter(ld, start, time)) < LoaderRank(ld) + (if LoaderCalls(ld) then 10 else 0)
  {
  }

  lemma LoaderBarrierFalls(ld: Loader, b: B.State)
    requires BS.Inv(b) && 0 < |b.devs| && b.devs[0].pc.Running?
    ensures BP.Measure(LoaderBarrier(ld, b)) + (if LoaderCalls(ld) then 1 else 0) <= BP.Measure(b)
    ensures LoaderBarrier(ld, b).time == b.time
  {
    if ld.pc.LdSleep? || ld.pc.LdEnd? { CallFalls(b, B.CallNextSlot(0)); }
    if ld.pc.LdDetach? { CallFalls(b, B.CallDetach(0)); }
  }

  lemma LoaderStepFalls(s: State)
    requires Inv(s) && LoaderEnabled(s)
    ensures Measure(LoaderNext(s)) < Measure(s) && LoaderNext(s).b.time == s.b.time
  {
    LoaderRankFalls(s.ld, s.cfg.start, s.b.time);
    LoaderBarrierFalls(s.ld, s.b);
  }

  lemma StepFalls(s: State, l: Label)
    requires Inv(s) && Enabled(s, l)
    ensures
      var s' := Apply(s, l);
      || s'.b.time == s.b.time + 1
      || (s'.b.time == s.b.time && Measure(s') + 1 <= Measure(s) + (if l.IsSpurious() then 21 else 0))
  {
    match l
    case Barrier(bl) => BP.StepFalls(s.b, bl);
    case CpuStep(c, pick) => CpuStepFalls(s, c, pick);
    case LoaderStep => LoaderStepFalls(s);
  }

  /** The spurious wakeups among steps a, ..., b - 1. */
  function SpuriousCount(ls: seq<Label>, a: nat, b: nat): nat
    requires a <= b <= |ls|
  {
    T.Count(Spurious(ls), a, b)
  }

  function Spurious(ls: seq<Label>): (marks: seq<bool>)
    ensures |marks| == |ls|
  {
    seq(|ls|, n requires 0 <= n < |ls| => ls[n].IsSpurious())
  }

  lemma SlotRunStep(ss: seq<State>, ls: seq<Label>, n: nat)
    requires IsRun(ss, ls) && n < |ls|
    ensures
      || ss[n + 1].b.time == ss[n].b.time + 1
      || (ss[n + 1].b.time == ss[n].b.time
          && Measure(ss[n + 1]) + 1 <= Measure(ss[n]) + (if ls[n].IsSpurious() then 21 else 0))
  {
    RunInv(ss, ls, n);
    StepFalls(ss[n], ls[n]);
  }

  lemma SlotRun(ss: seq<State>, ls: seq<Label>, a: nat, b: nat)
    requires IsRun(ss, ls) && a <= b < |ss| && ss[b].b.time == ss[a].b.time
    ensures Measure(ss[b]) + (b - a) <= Measure(ss[a]) + 21 * SpuriousCount(ls, a, b)
  {
    var m := seq(|ss|, n requires 0 <= n < |ss| => Measure(ss[n]));
    var t := seq(|ss|, n requires 0 <= n < |ss| => ss[n].b.time);
    forall n | a <= n < b ensures T.TicksOrFalls(m, t, Spurious(ls), n, 21) {
      SlotRunStep(ss, ls, n);
    }
    T.SlotTelescope(m, t, Spurious(ls), a, b, 21);
  }

  /** The clock keeps ticking: between two states with the same clock reading lie at most
      506 * cpus + 736 steps, plus 21 for each spurious wakeup among them.  With NeverStuck,
      a run that has not ended always goes on, and always reaches another tick. */
  lemma SlotsAreBounded(ss: seq<State>, ls: seq<Label>, a: nat, b: nat)
    requires IsRun(ss, ls) && a <= b < |ss| && ss[b].b.time == ss[a].b.time
    ensures b - a <= 506 * |ss[a].cpus| + 736 + 21 * SpuriousCount(ls, a, b)
  {
    SlotRun(ss, ls, a, b);
    RunInv(ss, ls, a);
    BP.MeasureBound(ss[a].b);
    CpuRanksBound(ss[a].cpus);
  }
}
