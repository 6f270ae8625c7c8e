/** Every process finishes, or all CPUs leave: in each slot that passes, some CPU runs a process,
    or the loader has just added one or still waits for a start time, or get_proc has failed. */
module OsLiveness {
  import opened Options
  import B = Barrier
  import BS = BarrierSafety
  import T = Telescopes
  import opened Os
  import opened OsSafety
  import opened OsShutdown

  // ---------------------------------------------------------------- the deadline

  function MaxStart(start: seq<nat>): nat {
    if start == [] then 0
    else
      var m, last := MaxStart(start[..|start| - 1]), start[|start| - 1];
      if last <= m then m else last
  }

  /** How often `run` is called on the processes: a process without instructions is run once too. */
  function RunsNeeded(sizes: seq<nat>): nat {
    if sizes == [] then 0
    else
      var last := sizes[|sizes| - 1];
      RunsNeeded(sizes[..|sizes| - 1]) + (if last == 0 then 1 else last)
  }

  function Deadline(cfg: Config): nat {
    RunsNeeded(cfg.sizes) + |cfg.start| + MaxStart(cfg.start)
  }

  lemma {:induction false} MaxStartBounds(start: seq<nat>, i: nat)
    requires i < |start|
    ensures start[i] <= MaxStart(start)
  {
    if i < |start| - 1 {
      MaxStartBounds(start[..|start| - 1], i);
    }
  }

  lemma {:induction false} AdmittedSoon(start: seq<nat>, i: nat)
    requires i < |start|
    ensures AdmissionTime(start, i) <= MaxStart(start) + i
  {
    MaxStartBounds(start, i);
    if i > 0 {
      AdmittedSoon(start, i - 1);
    }
  }

  // -------------------------------------------------------- what a slot is used for

  /** A CPU that holds a process and has used the current slot has run the process in it. */
  ghost predicate BusyInv(s: State)
    requires |s.b.devs| == |s.cpus| + 1
  {
    forall c :: 0 <= c < |s.cpus| && s.cpus[c].proc.Some? && s.b.time < Due(s.cpus[c], s.b.devs[c + 1])
      ==> s.b.time in s.busy
  }

  /** The CPU is still to act in this slot, and not on its way out. */
  predicate Pending(u: Cpu, d: B.Device, time: nat) {
    Open(u) && Due(u, d) <= time
  }

  ghost predicate SomePending(s: State)
    requires |s.b.devs| == |s.cpus| + 1
  {
    exists c :: 0 <= c < |s.cpus| && Pending(s.cpus[c], s.b.devs[c + 1], s.b.time)
  }

  /** Every CPU is on its way out or has left. */
  ghost predicate Closed(s: State) {
    s.done && !SomeOpen(s)
  }

  /** Whatever is in the bag, this slot is used, or a CPU is still to look into the bag, or all
      CPUs leave. */
  ghost predicate ReadySoon(s: State)
    requires |s.b.devs| == |s.cpus| + 1
  {
    || s.ready == multiset{} || AddedJustNow(s) || s.b.time in s.busy || s.b.time in s.failed
    || SomePending(s) || Closed(s)
  }

  /** Slot t was used: a process was run, or one was added, or the loader still waited; or
      get_proc failed in it. */
  ghost predicate Accounted(s: State, t: nat) {
    t in s.busy || t in s.ld.admitted || t < MaxStart(s.cfg.start) || t in s.failed
  }

  ghost predicate Live(s: State) {
    && |s.b.devs| == |s.cpus| + 1
    && BusyInv(s)
    && ReadySoon(s)
    && (AllFinished(s) || Closed(s) || forall t: nat :: t < s.b.time ==> Accounted(s, t))
  }

  // ---------------------------------------------------------- the tick of the clock

  /** At a tick every CPU has stopped, or waits at the head of its loop with the slot used. */
  lemma AtTick(s: State, c: nat)
    requires Inv(s) && s.b.timer.pc.Tick? && c < |s.cpus|
    ensures (s.cpus[c].pc.Stopped? && s.cpus[c].proc.None?)
         || (s.cpus[c].pc.AtHead? && Due(s.cpus[c], s.b.devs[c + 1]) == s.b.time + 1)
  {
    assert CpuAt(s, c);
    assert BS.DeviceInv(s.b.devs[c + 1], c + 1, s.b.timer, s.b.time);
  }

  /** If not all processes are admitted at a tick, the loader has added one in this slot, or
      waits for a start time. */
  lemma LoaderAtTick(s: State)
    requires Inv(s) && s.b.timer.pc.Tick? && |s.ld.admitted| < |s.cfg.start|
    ensures s.b.time in s.ld.admitted || s.b.time < MaxStart(s.cfg.start)
  {
    assert BS.DeviceInv(s.b.devs[0], 0, s.b.timer, s.b.time);
    MaxStartBounds(s.cfg.start, |s.ld.admitted|);
  }

  /** If a process is ready at a tick, the slot was used. */
  lemma ReadyAtTick(s: State)
    requires Inv(s) && Live(s) && s.b.timer.pc.Tick? && s.ready != multiset{} && !Closed(s)
    ensures Accounted(s, s.b.time)
  {
    if SomePending(s) {
      var c :| 0 <= c < |s.cpus| && Pending(s.cpus[c], s.b.devs[c + 1], s.b.time);
      AtTick(s, c);
    }
  }

  /** If a process is held at a tick, the slot was used. */
  lemma HeldAtTick(s: State, c: nat)
    requires Inv(s) && Live(s) && s.b.timer.pc.Tick? && c < |s.cpus| && s.cpus[c].proc.Some?
    ensures Accounted(s, s.b.time)
  {
    AtTick(s, c);
  }

  lemma SlotWasUsed(s: State)
    requires Inv(s) && Live(s) && s.b.timer.pc.Tick? && !AllFinished(s) && !Closed(s)
    ensures Accounted(s, s.b.time)
  {
    var p: nat :| p < |s.procs| && p !in s.finished;
    assert Placed(s, p);
    if |s.ld.admitted| <= p {
      LoaderAtTick(s);
    } else if p in s.ready {
      ReadyAtTick(s);
    } else if c: nat :| c < |s.cpus| && s.cpus[c].proc == Some(p) {
      HeldAtTick(s, c);
    } else {
      NoHolders(s.cpus, p);
    }
  }

  /** After a tick an open CPU is pending. */
  lemma OpenIsPending(s: State, s': State)
    requires Inv(s) && s.b.timer.pc.Tick? && |s.cpus| >= 1 && s'.done == s.done
    requires |s'.b.devs| == |s.b.devs| && s'.cpus == s.cpus && s'.ready == s.ready && s'.b.time == s.b.time + 1
    requires forall i :: 0 <= i < |s.b.devs| ==> s'.b.devs[i].calls == s.b.devs[i].calls
    ensures ReadySoon(s')
  {
    if s.ready != multiset{} {
      if !s.done {
        OpenAtTick(s, 0);
        AtTick(s, 0);
        assert Pending(s'.cpus[0], s'.b.devs[1], s'.b.time);
      } else if SomeOpen(s) {
        var c :| 0 <= c < |s.cpus| && Open(s.cpus[c]);
        AtTick(s, c);
        assert Pending(s'.cpus[c], s'.b.devs[c + 1], s'.b.time);
      }
    }
  }

  lemma LiveTick(s: State)
    requires Inv(s) && Live(s) && |s.cpus| >= 1
    requires s.b.timer.pc.Tick? && Enabled(s, Barrier(B.TimerStep))
    ensures Live(Apply(s, Barrier(B.TimerStep)))
  {
    var s' := Apply(s, Barrier(B.TimerStep));
    forall i | 0 <= i < |s.b.devs| ensures s'.b.devs[i].calls == s.b.devs[i].calls {
      BarrierStepSeen(s.b, B.TimerStep, i);
    }
    forall c | 0 <= c < |s'.cpus| ensures Due(s'.cpus[c], s'.b.devs[c + 1]) <= s'.b.time || s'.cpus[c].proc.None? {
      AtTick(s, c);
    }
    OpenIsPending(s, s');
    if !AllFinished(s) && !Closed(s) {
      SlotWasUsed(s);
      forall t: nat | t < s'.b.time ensures Accounted(s', t) {
        assert Accounted(s, t);
      }
    }
  }

  // --------------------------------------------------------------- all other steps

  /** A step that touches no CPU and no count of calls, and takes nothing out of the bag's reach. */
  lemma SlotStays(s: State, s': State)
    requires |s.b.devs| == |s.cpus| + 1 && BusyInv(s) && ReadySoon(s)
    requires |s'.b.devs| == |s.b.devs| && s'.b.time == s.b.time && s'.cpus == s.cpus && s'.busy == s.busy
    requires s'.failed == s.failed && (s.done ==> s'.done)
    requires forall i :: 0 < i < |s.b.devs| ==> s'.b.devs[i].calls == s.b.devs[i].calls
    requires AddedJustNow(s') || (s'.ready == s.ready && !AddedJustNow(s))
    ensures BusyInv(s') && ReadySoon(s')
  {
    if SomePending(s) {
      var c :| 0 <= c < |s.cpus| && Pending(s.cpus[c], s.b.devs[c + 1], s.b.time);
      assert Pending(s'.cpus[c], s'.b.devs[c + 1], s'.b.time);
    }
  }

  lemma LiveBarrier(s: State, l: B.Label)
    requires Inv(s) && Live(s) && Enabled(s, Barrier(l)) && B.Apply(s.b, l).time == s.b.time
    ensures Live(Apply(s, Barrier(l)))
  {
    var s' := Apply(s, Barrier(l));
    BarrierStepSeen(s.b, l, 0);
    forall i | 0 <= i < |s.b.devs| ensures s'.b.devs[i].calls == s.b.devs[i].calls {
      BarrierStepSeen(s.b, l, i);
    }
    SlotStays(s, s');
    LedgerStays(s, s');
  }

  /** While the clock does not move, slots accounted for remain so. */
  lemma LedgerStays(s: State, s': State)
    requires Live(s) && s'.b.time == s.b.time && s'.cfg == s.cfg && |s'.procs| == |s.procs|
    requires s.busy <= s'.busy && s.failed <= s'.failed && s.ld.admitted <= s'.ld.admitted
    requires forall p: nat :: p in s.finished ==> p in s'.finished
    requires Closed(s) ==> Closed(s')
    ensures AllFinished(s') || Closed(s') || forall t: nat :: t < s'.b.time ==> Accounted(s', t)
  {
    if !AllFinished(s) && !Closed(s) {
      forall t: nat | t < s'.b.time ensures Accounted(s', t) {
        assert Accounted(s, t);
      }
    }
  }

  /** CPUs that leave do not come back. */
  lemma CpuStaysClosed(s: State, c: nat, pick: Option<nat>)
    requires Inv(s) && CpuEnabled(s, c, pick) && Closed(s)
    ensures Closed(CpuNext(s, c, pick))
  {
    var s' := CpuNext(s, c, pick);
    assert CpuAt(s, c) && !Open(s.cpus[c]);
    forall e | 0 <= e < |s'.cpus| ensures !Open(s'.cpus[e]) {
      assert !Open(s.cpus[e]);
    }
  }

  /** A CPU that steps without running a process: if it holds one afterwards, it has not used
      the slot; if it was pending, or puts a process back, it is pending unless get_proc fails. */
  lemma CpuSlot(u: Cpu, d: B.Device, p: Process, pick: Option<nat>, done: bool, timeSlot: int, time: nat)
    requires !u.pc.Execute? && d.calls == time
    requires u.proc.Some? ==> u.pc.AtHead? || u.pc.Recheck? || u.pc.Execute? || u.pc.EndSlot?
    ensures
      var u', d' := CpuAfter(u, p, pick, done, timeSlot), DeviceAfter(u, d);
      && (u'.proc.Some? && time < Due(u', d') ==> u.proc.Some? && time < Due(u, d))
      && (Pending(u, d, time) && !(Getting(u) && pick.None?) ==> Pending(u', d', time))
      && (PutsBack(u, p) ==> Pending(u, d, time))
  {
  }

  /** A step of CPU c, which runs, leaves the invariant of its slot to be checked on values. */
  ghost predicate OwnStep(s: State, c: nat, pick: Option<nat>) {
    && CpuEnabled(s, c, pick) && |s.b.devs| == |s.cpus| + 1
    && s.b.devs[c + 1].calls == s.b.time
    && (s.cpus[c].proc.Some? ==> !Getting(s.cpus[c]) && !s.cpus[c].pc.Stop? && !s.cpus[c].pc.Stopped?)
    && CpuNext(s, c, pick).b.time == s.b.time
    && CpuNext(s, c, pick).b.devs == s.b.devs[c + 1 := DeviceAfter(s.cpus[c], s.b.devs[c + 1])]
  }

  lemma IsOwnStep(s: State, c: nat, pick: Option<nat>)
    requires Inv(s) && CpuEnabled(s, c, pick)
    ensures OwnStep(s, c, pick)
  {
    assert CpuAt(s, c);
    RunningReadsClock(s.b, c + 1);
    BarrierAfterSeen(s.cpus[c], s.b, c + 1);
  }

  lemma CpuBusy(s: State, c: nat, pick: Option<nat>)
    requires OwnStep(s, c, pick) && BusyInv(s)
    ensures BusyInv(CpuNext(s, c, pick))
  {
    var u := s.cpus[c];
    CpuStepKeeps(s, c, pick);
    if !u.pc.Execute? {
      CpuSlot(u, s.b.devs[c + 1], Held(u, s.procs), pick, s.done, s.cfg.timeSlot, s.b.time);
    }
  }

  /** The bag is filled by putting back only. */
  lemma BagAfter(s: State, c: nat, pick: Option<nat>)
    requires CpuEnabled(s, c, pick) && !PutsBack(s.cpus[c], Held(s.cpus[c], s.procs)) && s.ready == multiset{}
    ensures CpuNext(s, c, pick).ready == multiset{}
  {
  }

  /** What keeps the bag attended does so after a step of a CPU that was not itself pending. */
  lemma OthersPending(s: State, s': State, c: nat)
    requires |s.b.devs| == |s.cpus| + 1 && c < |s.cpus| && ReadySoon(s)
    requires |s'.b.devs| == |s.b.devs| && |s'.cpus| == |s.cpus|
    requires !Pending(s.cpus[c], s.b.devs[c + 1], s.b.time)
    requires s'.b.time == s.b.time && s'.ld == s.ld && s.busy <= s'.busy && s.failed <= s'.failed
    requires Closed(s) ==> Closed(s')
    requires s'.cpus == s.cpus[c := s'.cpus[c]] && s'.b.devs == s.b.devs[c + 1 := s'.b.devs[c + 1]]
    requires s.ready == multiset{} ==> s'.ready == multiset{}
    ensures ReadySoon(s')
  {
    if SomePending(s) {
      var e :| 0 <= e < |s.cpus| && Pending(s.cpus[e], s.b.devs[e + 1], s.b.time);
      assert Pending(s'.cpus[e], s'.b.devs[e + 1], s'.b.time);
    }
  }

  lemma CpuReadySoon(s: State, c: nat, pick: Option<nat>)
    requires OwnStep(s, c, pick) && ReadySoon(s)
    requires Closed(s) ==> Closed(CpuNext(s, c, pick))
    ensures ReadySoon(CpuNext(s, c, pick))
  {
    var u, d, p, s' := s.cpus[c], s.b.devs[c + 1], Held(s.cpus[c], s.procs), CpuNext(s, c, pick);
    CpuStepKeeps(s, c, pick);
    if !u.pc.Execute? {
      CpuSlot(u, d, p, pick, s.done, s.cfg.timeSlot, s.b.time);
      if Getting(u) && pick.None? {
        if s.ready == multiset{} { BagAfter(s, c, pick); }
      } else if Pending(u, d, s.b.time) {
        assert Pending(s'.cpus[c], s'.b.devs[c + 1], s'.b.time);
      } else {
        if s.ready == multiset{} { BagAfter(s, c, pick); }
        OthersPending(s, s', c);
      }
    }
  }

  /** A CPU's step only adds to what slots are accounted for by. */
  lemma CpuLedger(s: State, c: nat, pick: Option<nat>)
    requires CpuEnabled(s, c, pick)
    ensures
      var s' := CpuNext(s, c, pick);
      && s.busy <= s'.busy && s.failed <= s'.failed
      && forall p: nat :: p in s.finished ==> p in s'.finished
  {
  }

  lemma LiveCpu(s: State, c: nat, pick: Option<nat>)
    requires Inv(s) && Live(s) && CpuEnabled(s, c, pick)
    ensures Live(CpuNext(s, c, pick))
  {
    IsOwnStep(s, c, pick);
    if Closed(s) { CpuStaysClosed(s, c, pick); }
    CpuBusy(s, c, pick);
    CpuReadySoon(s, c, pick);
    CpuStepKeeps(s, c, pick);
    CpuLedger(s, c, pick);
    LedgerStays(s, CpuNext(s, c, pick));
  }

  lemma LoaderAdds(s: State)
    requires LoaderEnabled(s)
    ensures s.ld.admitted <= LoaderNext(s).ld.admitted
    ensures s.ld.pc.LdAdmit? ==> LoaderNext(s).ld.admitted == s.ld.admitted + [s.b.time]
    ensures !s.ld.pc.LdAdmit? ==> LoaderNext(s).ld.admitted == s.ld.admitted && LoaderNext(s).ready == s.ready
  {
  }

  lemma LiveLoader(s: State)
    requires Inv(s) && Live(s) && LoaderEnabled(s)
    ensures Live(LoaderNext(s))
  {
    var s' := LoaderNext(s);
    LoaderBarrierSeen(s.ld, s.b);
    LoaderAdds(s);
    SlotStays(s, s');
    LedgerStays(s, s');
  }

  lemma LiveStep(s: State, l: Label)
    requires Inv(s) && Live(s) && |s.cpus| >= 1 && Enabled(s, l)
    ensures Live(Apply(s, l))
  {
    match l
    case Barrier(bl) =>
      if bl.TimerStep? && s.b.timer.pc.Tick? { LiveTick(s); } else { LiveBarrier(s, bl); }
    case CpuStep(c, pick) => LiveCpu(s, c, pick);
    case LoaderStep => LiveLoader(s);
  }

  lemma LiveInit(s: State)
    requires Init(s)
    ensures Live(s)
  {
  }

  lemma LiveRunStep(ss: seq<State>, ls: seq<Label>, n: nat)
    requires IsRun(ss, ls) && n < |ls| && |ss[n].cpus| >= 1 && Live(ss[n])
    ensures Live(ss[n + 1])
  {
    RunInv(ss, ls, n);
    LiveStep(ss[n], ls[n]);
  }

  lemma LiveRun(ss: seq<State>, ls: seq<Label>, n: nat)
    requires IsRun(ss, ls) && n < |ss| && ss[0].cfg.cpus >= 1
    ensures Live(ss[n])
  {
    ghost var holds := seq(|ss|, i requires 0 <= i < |ss| => Live(ss[i]));
    LiveInit(ss[0]);
    forall i | 0 <= i < n && holds[i] ensures holds[i + 1] {
      CfgStays(ss, ls, i);
      LiveRunStep(ss, ls, i);
    }
    T.Carry(holds, 0, n);
  }

  /** No slot passes for nothing: in every run, until all processes have finished or all CPUs
      leave, each slot that has passed was used to run a process, or to add one, or lay before
      the latest start time, or had a get_proc fail. */
  lemma EverySlotIsUsed(ss: seq<State>, ls: seq<Label>, n: nat, t: nat)
    requires IsRun(ss, ls) && n < |ss| && ss[0].cfg.cpus >= 1 && t < ss[n].b.time
    ensures AllFinished(ss[n]) || Closed(ss[n]) || Accounted(ss[n], t)
  {
    LiveRun(ss, ls, n);
  }

  // ------------------------------------------------------------- counting the slots

  function TotalRuns(procs: seq<Process>): nat {
    if procs == [] then 0 else TotalRuns(procs[..|procs| - 1]) + procs[|procs| - 1].runs
  }

  lemma {:induction false} TotalRunsUpdate(procs: seq<Process>, p: nat, q: Process)
    requires p < |procs|
    ensures TotalRuns(procs[p := q]) + procs[p].runs == TotalRuns(procs) + q.runs
  {
    var last := |procs| - 1;
    if p == last {
      assert procs[p := q][..last] == procs[..last];
    } else {
      assert procs[p := q][..last] == procs[..last][p := q];
      TotalRunsUpdate(procs[..last], p, q);
    }
  }

  lemma {:induction false} TotalRunsBound(procs: seq<Process>, sizes: seq<nat>)
    requires |procs| == |sizes|
    requires forall p :: 0 <= p < |procs| ==> ProcInv(procs[p], sizes[p])
    ensures TotalRuns(procs) <= RunsNeeded(sizes)
  {
    if procs != [] {
      var last := |procs| - 1;
      TotalRunsBound(procs[..last], sizes[..last]);
      assert ProcInv(procs[last], sizes[last]);
    }
  }

  lemma BusyStep(s: State, l: Label)
    requires Inv(s) && Enabled(s, l) && |s.busy| <= TotalRuns(s.procs)
    ensures |Apply(s, l).busy| <= TotalRuns(Apply(s, l).procs)
  {
    if l.CpuStep? {
      var u := s.cpus[l.c];
      assert CpuAt(s, l.c);
      if u.proc.Some? {
        TotalRunsUpdate(s.procs, u.proc.value, ProcAfter(u, Held(u, s.procs), l.c, s.b.time));
      }
    }
  }

  lemma BusyRunStep(ss: seq<State>, ls: seq<Label>, n: nat)
    requires IsRun(ss, ls) && n < |ls| && |ss[n].busy| <= TotalRuns(ss[n].procs)
    ensures |ss[n + 1].busy| <= TotalRuns(ss[n + 1].procs)
  {
    RunInv(ss, ls, n);
    BusyStep(ss[n], ls[n]);
  }

  /** Each slot in which a process was run took a call of `run` of its own. */
  lemma {:induction false} BusySlotsAreRuns(ss: seq<State>, ls: seq<Label>, n: nat)
    requires IsRun(ss, ls) && n < |ss|
    ensures |ss[n].busy| <= TotalRuns(ss[n].procs)
  {
    if n > 0 {
      BusySlotsAreRuns(ss, ls, n - 1);
      BusyRunStep(ss, ls, n - 1);
    }
  }

  /** The numbers below n cannot outnumber those that cover them. */
  lemma {:induction false} CoverBound(n: nat, xs: set<nat>, ys: seq<nat>, m: nat)
    requires forall t: nat :: t < n ==> t in xs || t in ys || t < m
    ensures n <= |xs| + |ys| + m
  {
    if n > m {
      var last := n - 1;
      if last in xs {
        CoverBound(last, xs - {last}, ys, m);
      } else {
        var i :| 0 <= i < |ys| && ys[i] == last;
        var rest := ys[..i] + ys[i + 1..];
        forall t: nat | t < last && t in ys ensures t in rest {
          var j :| 0 <= j < |ys| && ys[j] == t;
          assert rest[if j < i then j else j - 1] == t;
        }
        CoverBound(last, xs, rest, m);
      }
    }
  }

  lemma {:induction false} UnionBound(xs: set<nat>, ys: set<nat>)
    ensures |xs + ys| <= |xs| + |ys|
    decreases ys
  {
    if ys == {} {
      assert xs + ys == xs;
    } else {
      var y :| y in ys;
      UnionBound(xs, ys - {y});
      assert xs + ys == (xs + (ys - {y})) + {y};
    }
  }

  lemma UnfinishedInTime(s: State)
    requires Inv(s) && Live(s) && !AllFinished(s) && !Closed(s) && |s.busy| <= TotalRuns(s.procs)
    ensures s.b.time <= Deadline(s.cfg) + |s.failed|
  {
    TotalRunsBound(s.procs, s.cfg.sizes);
    forall t: nat | t < s.b.time ensures t in s.busy + s.failed || t in s.ld.admitted || t < MaxStart(s.cfg.start) {
      assert Accounted(s, t);
    }
    CoverBound(s.b.time, s.busy + s.failed, s.ld.admitted, MaxStart(s.cfg.start));
    UnionBound(s.busy, s.failed);
  }

  /** The matter is settled: all processes have finished, or all CPUs leave. */
  ghost predicate Settled(s: State) {
    s.done && (AllFinished(s) || !SomeOpen(s))
  }

  /** Every run is settled in time: once the clock is past the deadline, which is the number of
      instructions to execute (one for a process without any) plus the number of processes plus
      the latest start time, plus the number of slots in which get_proc failed, every process
      has finished or all CPUs leave, whatever the scheduling. */
  lemma SettledInTime(ss: seq<State>, ls: seq<Label>, n: nat)
    requires IsRun(ss, ls) && n < |ss| && ss[0].cfg.cpus >= 1
    requires ss[n].b.time > Deadline(ss[0].cfg) + |ss[n].failed|
    ensures Settled(ss[n])
  {
    RunInv(ss, ls, n);
    CfgStays(ss, ls, n);
    LiveRun(ss, ls, n);
    BusySlotsAreRuns(ss, ls, n);
    if !AllFinished(ss[n]) && !Closed(ss[n]) {
      UnfinishedInTime(ss[n]);
    }
    if AllFinished(ss[n]) {
      DoneInTime(ss[n]);
    }
  }

  /** When all CPUs leave, all processes have finished exactly if nothing is left ready. */
  lemma ClosedFinishedIff(ss: seq<State>, ls: seq<Label>, n: nat)
    requires IsRun(ss, ls) && n < |ss| && Closed(ss[n])
    ensures AllFinished(ss[n]) <==> ss[n].ready == multiset{}
  {
    var s := ss[n];
    RunInv(ss, ls, n);
    forall p: nat | p < |s.procs| ensures (p in s.finished) != (p in s.ready) {
      ClosedPlace(s, p);
    }
    assert ReadyInv(s);
  }

  lemma ClosedPlace(s: State, p: nat)
    requires Inv(s) && Closed(s) && p < |s.procs|
    ensures (p in s.finished) != (p in s.ready)
  {
    forall c | 0 <= c < |s.cpus| ensures s.cpus[c].proc != Some(p) {
      assert CpuAt(s, c) && !Open(s.cpus[c]);
    }
    NoHolders(s.cpus, p);
    assert Placed(s, p);
  }

  lemma {:induction false} NeverFails(ss: seq<State>, ls: seq<Label>, n: nat)
    requires IsWorkConservingRun(ss, ls) && n < |ss|
    ensures ss[n].failed == {}
  {
    if n > 0 {
      NeverFails(ss, ls, n - 1);
      NoFailure(ss[n - 1], ls[n - 1]);
    }
  }

  lemma NoFailure(s: State, l: Label)
    requires Enabled(s, l) && WorkConserving(s, l)
    ensures Apply(s, l).failed == s.failed
  {
  }

  /** If get_proc never fails while something is ready, all processes finish by the deadline. */
  lemma AllFinishInTime(ss: seq<State>, ls: seq<Label>, n: nat)
    requires IsWorkConservingRun(ss, ls) && n < |ss| && ss[0].cfg.cpus >= 1
    requires ss[n].b.time > Deadline(ss[0].cfg)
    ensures AllFinished(ss[n]) && ss[n].done
  {
    NeverFails(ss, ls, n);
    SettledInTime(ss, ls, n);
    SettledAllFinish(ss, ls, n);
  }

  lemma SettledAllFinish(ss: seq<State>, ls: seq<Label>, n: nat)
    requires IsWorkConservingRun(ss, ls) && n < |ss| && ss[0].cfg.cpus >= 1 && Settled(ss[n])
    ensures AllFinished(ss[n])
  {
    if !SomeOpen(ss[n]) {
      AttendedRun(ss, ls, n);
      ClosedFinishedIff(ss, ls, n);
    }
  }

  /** Once the clock is past the deadline and all processes have finished, `done` is set. */
  lemma DoneInTime(s: State)
    requires Inv(s) && AllFinished(s) && s.b.time > Deadline(s.cfg)
    ensures s.done
  {
    assert BS.DeviceInv(s.b.devs[0], 0, s.b.timer, s.b.time);
    assert Placed(s, |s.ld.admitted|);
    LoaderDoneInTime(s.ld, s.b.devs[0], s.cfg.start, s.done);
  }

  lemma LoaderDoneInTime(ld: Loader, d: B.Device, start: seq<nat>, done: bool)
    requires LoaderInv(ld, d, start, done) && |ld.admitted| == |start|
    ensures done || d.calls <= |start| + MaxStart(start)
  {
    if |start| > 0 {
      AdmittedSoon(start, |start| - 1);
    }
  }
}
