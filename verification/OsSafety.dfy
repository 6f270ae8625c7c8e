/** What every interleaving of the CPUs, the loader and the timer keeps. */
module OsSafety {
  import opened Options
  import B = Barrier
  import BS = BarrierSafety
  import opened Os

  // ---------------------------------------------------------------- the CPUs

  predicate Gone(d: B.Device) {
    d.pc.DetachLock? || d.pc.DetachSet? || d.pc.DetachSignal? || d.pc.DetachUnlock? || d.pc.Exited?
  }

  /** The slot in which the CPU will next act on a process: it has already used the
      current one once it has called run. */
  function Due(u: Cpu, d: B.Device): nat {
    d.calls + (if u.pc.EndSlot? then 1 else 0)
  }

  predicate Before(p: Process, slot: nat) {
    forall k :: 0 <= k < |p.trace| ==> p.trace[k].slot < slot
  }

  /** The process can be dispatched: it has instructions left, or never had any and was never run. */
  predicate Runnable(p: Process) {
    p.pc < p.size || (p.size == 0 && p.runs == 0)
  }

  /** The CPU holds a process it has dispatched and not put back. */
  predicate InSlice(u: Cpu) {
    u.proc.Some? && (u.pc.Recheck? ==> u.timeLeft != 0)
  }

  /** The last n entries of the trace were executed by CPU c in the n slots before `due`. */
  predicate Streak(p: Process, c: nat, n: nat, due: nat) {
    && n <= |p.trace| && n <= due
    && forall k :: |p.trace| - n <= k < |p.trace| ==>
         p.trace[k].cpu == c && p.trace[k].slot == due - |p.trace| + k
  }

  /** What holds of CPU c, with d its device and p the process it holds, if any. */
  ghost predicate CpuInv(timeSlot: int, c: nat, u: Cpu, d: B.Device, p: Process, done: bool) {
    // the program and the device agree
    && (d.pc.Running? || u.pc.AtHead? || u.pc.Stopped?)
    && (u.pc.Stopped? <==> Gone(d))
    && u.loops == d.calls + (if u.pc.AtHead? then 0 else 1)
    // what is held
    && (u.proc.Some? ==> u.pc.AtHead? || u.pc.Recheck? || u.pc.Execute? || u.pc.EndSlot?)
    && (u.pc.Execute? ==> u.proc.Some?)
    && (u.pc.Stop? || u.pc.Stopped? ==> done)
    && (u.pc.GetAfterFinish? || u.pc.GetAfterPut? || u.pc.Stop? || u.pc.Stopped? || (u.pc.Recheck? && u.proc.None?)
        ==> u.dispatches > 0)
    // the time slice
    && (u.proc.None? && !u.pc.GetAfterFinish? ==> u.timeLeft == 0)
    && (u.pc.GetAfterFinish? && timeSlot >= 1 ==> 0 <= u.timeLeft <= timeSlot)
    && (InSlice(u) ==> SliceInv(timeSlot, u))
    // the process
    && (u.proc.Some? ==>
          && Before(p, Due(u, d))
          && (u.pc.Recheck? || u.pc.Execute? ==> Runnable(p))
          && (InSlice(u) && p.size > 0 ==> Streak(p, c, u.burst, Due(u, d))))
  }

  ghost predicate CpuAt(s: State, c: nat)
    requires |s.b.devs| == |s.cpus| + 1 && c < |s.cpus|
  {
    && (s.cpus[c].proc.Some? ==> s.cpus[c].proc.value < |s.procs|)
    && CpuInv(s.cfg.timeSlot, c, s.cpus[c], s.b.devs[c + 1], Held(s.cpus[c], s.procs), s.done)
  }

  predicate SliceInv(timeSlot: int, u: Cpu) {
    && u.timeLeft + u.burst == timeSlot
    && u.dispatches > 0
    && (timeSlot >= 1 ==> 0 <= u.timeLeft <= timeSlot && (u.pc.Execute? ==> 1 <= u.timeLeft))
    && (u.pc.AtHead? || u.pc.EndSlot? ==> u.burst > 0)
  }

  // ----------------------------------------------------------- the processes

  ghost predicate ProcInv(p: Process, size: nat) {
    && p.size == size
    && |p.trace| == p.pc <= p.size
    && (if p.size > 0 then p.runs == p.pc else p.runs <= 1)
    && (forall k :: 0 <= k < |p.trace| ==> p.trace[k].index == k)
    && (forall k, m :: 0 <= k < m < |p.trace| ==> p.trace[k].slot < p.trace[m].slot)
  }

  /** How many CPUs hold process p. */
  function Holders(cpus: seq<Cpu>, p: nat): nat {
    if cpus == [] then 0
    else Holders(cpus[..|cpus| - 1], p) + (if cpus[|cpus| - 1].proc == Some(p) then 1 else 0)
  }

  /** Process p is at exactly one place once it has been admitted, and nowhere before. */
  ghost predicate Placed(s: State, p: nat) {
    s.ready[p] + Holders(s.cpus, p) + s.finished[p] == if p < |s.ld.admitted| then 1 else 0
  }

  ghost predicate ReadyInv(s: State) {
    forall p: nat :: p in s.ready ==> p < |s.procs| && Runnable(s.procs[p]) && Before(s.procs[p], s.b.time)
  }

  ghost predicate FinishedInv(s: State) {
    forall p: nat :: p in s.finished ==> p < |s.procs| && s.procs[p].pc == s.procs[p].size
  }

  ghost predicate UntouchedInv(s: State) {
    forall p: nat :: |s.ld.admitted| <= p < |s.procs| ==> s.procs[p].trace == [] && s.procs[p].runs == 0
  }

  ghost predicate PoolInv(s: State) {
    && (forall p: nat :: Placed(s, p))
    && ReadyInv(s)
    && FinishedInv(s)
    && UntouchedInv(s)
  }

  // --------------------------------------------------------------- the loader

  /** When process i should be added: at its start time, but never in the slot of its predecessor. */
  function AdmissionTime(start: seq<nat>, i: nat): nat
    requires i < |start|
  {
    if i == 0 then start[0]
    else
      var next := AdmissionTime(start, i - 1) + 1;
      if start[i] <= next then next else start[i]
  }

  /** The first slot in which the loader can look at process |admitted|. */
  function NextAdmission(admitted: seq<nat>): nat {
    if admitted == [] then 0 else admitted[|admitted| - 1] + 1
  }

  predicate OnSchedule(admitted: seq<nat>, start: seq<nat>) {
    && |admitted| <= |start|
    && forall m :: 0 <= m < |admitted| ==> admitted[m] == AdmissionTime(start, m)
  }

  ghost predicate LoaderInv(ld: Loader, d: B.Device, start: seq<nat>, done: bool) {
    var i := |ld.admitted|;
    var first := NextAdmission(ld.admitted);
    && OnSchedule(ld.admitted, start)
    && (d.pc.Running? || ld.pc.LdHead? || ld.pc.LdCheck? || ld.pc.LdStopped?)
    && (ld.pc.LdStopped? <==> Gone(d))
    && (done <==> ld.pc.LdDetach? || ld.pc.LdStopped?)
    && match ld.pc
       case LdHead => d.calls == first
       case LdCheck => i < |start| && (d.calls == first || first <= d.calls <= start[i])
       case LdSleep => i < |start| && first <= d.calls < start[i]
       case LdAdmit => i < |start| && d.calls == AdmissionTime(start, i)
       case LdEnd => i > 0 && d.calls + 1 == first
       case _ => i == |start| && d.calls == first
  }

  ghost predicate Inv(s: State) {
    && BS.Inv(s.b)
    && |s.b.devs| == |s.cpus| + 1 && |s.procs| == |s.cfg.sizes| == |s.cfg.start|
    && (forall c :: 0 <= c < |s.cpus| ==> CpuAt(s, c))
    && (forall p :: 0 <= p < |s.procs| ==> ProcInv(s.procs[p], s.cfg.sizes[p]))
    && PoolInv(s)
    && LoaderInv(s.ld, s.b.devs[0], s.cfg.start, s.done)
  }

  // ------------------------------------------------------- holders of a process

  lemma {:induction false} HoldersUpdate(cpus: seq<Cpu>, c: nat, u: Cpu, p: nat)
    requires c < |cpus|
    ensures Holders(cpus[c := u], p) + (if cpus[c].proc == Some(p) then 1 else 0)
         == Holders(cpus, p) + (if u.proc == Some(p) then 1 else 0)
  {
    var last := |cpus| - 1;
    if c == last {
      assert cpus[c := u][..last] == cpus[..last];
    } else {
      assert cpus[c := u][..last] == cpus[..last][c := u];
      HoldersUpdate(cpus[..last], c, u, p);
    }
  }

  lemma {:induction false} HolderCounts(cpus: seq<Cpu>, c: nat, p: nat)
    requires c < |cpus| && cpus[c].proc == Some(p)
    ensures Holders(cpus, p) >= 1
    ensures forall e :: 0 <= e < |cpus| && e != c && cpus[e].proc == Some(p) ==> Holders(cpus, p) >= 2
  {
    var last := |cpus| - 1;
    if c < last {
      HolderCounts(cpus[..last], c, p);
    } else {
      forall e | 0 <= e < last && cpus[e].proc == Some(p) ensures Holders(cpus[..last], p) >= 1 {
        HolderCounts(cpus[..last], e, p);
      }
    }
  }

  lemma {:induction false} NoHolders(cpus: seq<Cpu>, p: nat)
    requires forall c :: 0 <= c < |cpus| ==> cpus[c].proc != Some(p)
    ensures Holders(cpus, p) == 0
  {
    if cpus != [] {
      NoHolders(cpus[..|cpus| - 1], p);
    }
  }

  // ------------------------------------------------------------- initial state

  lemma InitInv(s: State)
    requires Init(s)
    ensures Inv(s)
  {
    BS.InitInv(s.b);
    forall p: nat ensures Placed(s, p) {
      NoHolders(s.cpus, p);
    }
  }

  // ---------------------------------------------------- steps of the barrier

  /** Running code reads the clock as the number of its own calls of next_slot. */
  lemma RunningReadsClock(b: B.State, j: nat)
    requires BS.Inv(b) && j < |b.devs| && b.devs[j].pc.Running?
    ensures b.devs[j].calls == b.time
  {
    assert BS.DeviceInv(b.devs[j], j, b.timer, b.time);
  }

  /** What the programs see of a device: its calls, whether it runs, whether it has gone. */
  predicate SeenAlike(d: B.Device, d': B.Device) {
    d'.calls == d.calls && (d.pc.Running? ==> d'.pc.Running?) && Gone(d') == Gone(d)
  }

  lemma TimerSeen(t: B.TimerThread, d: B.Device)
    ensures SeenAlike(d, B.Handled(t, d))
  {
  }

  lemma DeviceSeen(d: B.Device)
    requires B.DeviceReady(d)
    ensures SeenAlike(d, B.Stepped(d))
  {
  }

  lemma BarrierStepSeen(b: B.State, l: B.Label, j: nat)
    requires B.Enabled(b, l) && !l.CallNextSlot? && !l.CallDetach? && j < |b.devs|
    ensures
      var b' := B.Apply(b, l);
      |b'.devs| == |b.devs| && b.time <= b'.time && SeenAlike(b.devs[j], b'.devs[j])
  {
    match l
    case TimerStep => TimerSeen(b.timer, b.devs[j]);
    case DeviceStep(i) => DeviceSeen(b.devs[i]);
    case _ =>
  }

  lemma CpuInvSees(timeSlot: int, c: nat, u: Cpu, d: B.Device, d': B.Device, p: Process, done: bool)
    requires CpuInv(timeSlot, c, u, d, p, done) && SeenAlike(d, d')
    ensures CpuInv(timeSlot, c, u, d', p, done)
  {
  }

  lemma LoaderInvSees(ld: Loader, d: B.Device, d': B.Device, start: seq<nat>, done: bool)
    requires LoaderInv(ld, d, start, done) && SeenAlike(d, d')
    ensures LoaderInv(ld, d', start, done)
  {
  }

  /** Only the barrier has changed, and only as the programs cannot see. */
  lemma PoolInvSees(s: State, b: B.State)
    requires PoolInv(s) && s.b.time <= b.time
    ensures PoolInv(s.(b := b))
  {
    var s' := s.(b := b);
    forall p: nat ensures Placed(s', p) {
      assert Placed(s, p);
    }
  }

  lemma BarrierKeepsCpu(s: State, l: B.Label, c: nat)
    requires |s.b.devs| == |s.cpus| + 1 && c < |s.cpus| && CpuAt(s, c) && Enabled(s, Barrier(l))
    ensures |Apply(s, Barrier(l)).b.devs| == |s.b.devs| && CpuAt(Apply(s, Barrier(l)), c)
  {
    var d' := Apply(s, Barrier(l)).b.devs[c + 1];
    BarrierStepSeen(s.b, l, c + 1);
    CpuInvSees(s.cfg.timeSlot, c, s.cpus[c], s.b.devs[c + 1], d', Held(s.cpus[c], s.procs), s.done);
  }

  lemma BarrierStepInv(s: State, l: B.Label)
    requires Inv(s) && Enabled(s, Barrier(l))
    ensures Inv(Apply(s, Barrier(l)))
  {
    var s' := Apply(s, Barrier(l));
    BS.StepInv(s.b, l);
    BarrierStepSeen(s.b, l, 0);
    forall c | 0 <= c < |s'.cpus| ensures CpuAt(s', c) {
      BarrierKeepsCpu(s, l, c);
    }
    LoaderInvSees(s.ld, s.b.devs[0], s'.b.devs[0], s.cfg.start, s.done);
    PoolInvSees(s, s'.b);
  }

  // ---------------------------------------------------------- steps of a CPU

  /** A held process is held by one CPU only, and is neither ready nor finished. */
  lemma HeldAlone(s: State, c: nat)
    requires PoolInv(s) && c < |s.cpus| && s.cpus[c].proc.Some?
    ensures s.cpus[c].proc.value !in s.ready && s.cpus[c].proc.value !in s.finished
    ensures forall e :: 0 <= e < |s.cpus| && e != c ==> s.cpus[e].proc != s.cpus[c].proc
  {
    assert Placed(s, s.cpus[c].proc.value);
    HolderCounts(s.cpus, c, s.cpus[c].proc.value);
  }

  /** The device of a CPU after one step of its program. */
  function DeviceAfter(u: Cpu, d: B.Device): B.Device {
    match u.pc
    case EndSlot => d.(pc := B.LockEvent, calls := d.calls + 1)
    case Stop => d.(pc := B.DetachLock)
    case _ => d
  }

  lemma BarrierAfterSeen(u: Cpu, b: B.State, i: nat)
    requires BS.Inv(b) && i < |b.devs| && b.devs[i].pc.Running?
    ensures
      var b' := BarrierAfter(u, b, i);
      && BS.Inv(b') && b'.time == b.time && |b'.devs| == |b.devs|
      && b'.devs == b.devs[i := DeviceAfter(u, b.devs[i])]
  {
    if u.pc.EndSlot? {
      BS.StepInv(b, B.CallNextSlot(i));
    } else if u.pc.Stop? {
      BS.StepInv(b, B.CallDetach(i));
    } else {
      assert b.devs == b.devs[i := b.devs[i]];
    }
  }

  lemma RunKeeps(p: Process, size: nat, cpu: nat, slot: nat)
    requires ProcInv(p, size) && Before(p, slot) && Runnable(p)
    ensures ProcInv(Run(p, cpu, slot), size) && Before(Run(p, cpu, slot), slot + 1)
  {
  }

  lemma StreakGrows(p: Process, cpu: nat, n: nat, slot: nat)
    requires |p.trace| == p.pc < p.size && Streak(p, cpu, n, slot)
    ensures Streak(Run(p, cpu, slot), cpu, n + 1, slot + 1)
  {
  }

  /** A step that takes no process: everything but the get_proc steps that succeed. */
  lemma CpuKeepsItself(timeSlot: int, c: nat, u: Cpu, d: B.Device, p: Process, size: nat, done: bool)
    requires CpuInv(timeSlot, c, u, d, p, done) && d.pc.Running? && !u.pc.Execute?
    requires u.proc.Some? ==> ProcInv(p, size)
    ensures CpuInv(timeSlot, c, CpuAfter(u, p, None, done, timeSlot), DeviceAfter(u, d), p, done)
  {
  }

  lemma CpuExecutes(timeSlot: int, c: nat, u: Cpu, d: B.Device, p: Process, size: nat, done: bool)
    requires CpuInv(timeSlot, c, u, d, p, done) && d.pc.Running? && u.pc.Execute? && ProcInv(p, size)
    ensures CpuInv(timeSlot, c, CpuAfter(u, p, None, done, timeSlot), d, Run(p, c, d.calls), done)
  {
    RunKeeps(p, size, c, d.calls);
    if p.size > 0 {
      StreakGrows(p, c, u.burst, d.calls);
    }
  }

  lemma CpuTakes(timeSlot: int, c: nat, u: Cpu, d: B.Device, p: Process, q: Process, pick: Option<nat>, done: bool)
    requires CpuInv(timeSlot, c, u, d, p, done) && d.pc.Running? && Getting(u) && pick.Some?
    requires Runnable(q) && Before(q, d.calls)
    ensures CpuInv(timeSlot, c, CpuAfter(u, p, pick, done, timeSlot), d, q, done)
  {
  }

  /** What a CPU's step does to the CPUs, and what it leaves alone. */
  lemma CpuStepKeeps(s: State, c: nat, pick: Option<nat>)
    requires CpuEnabled(s, c, pick)
    ensures
      var u, s' := s.cpus[c], CpuNext(s, c, pick);
      && s'.cpus == s.cpus[c := CpuAfter(u, Held(u, s.procs), pick, s.done, s.cfg.timeSlot)]
      && s'.b == BarrierAfter(u, s.b, c + 1) && s'.b.time == s.b.time
      && s'.cfg == s.cfg && s'.ld == s.ld && s'.done == s.done && |s'.procs| == |s.procs|
  {
  }

  /** The process held after a step: the one picked, or the one held before, run if it was run. */
  lemma HeldAfter(s: State, c: nat, pick: Option<nat>)
    requires CpuEnabled(s, c, pick)
    requires s.cpus[c].proc.Some? ==> s.cpus[c].proc.value < |s.procs|
    requires Getting(s.cpus[c]) ==> s.cpus[c].proc.None?
    requires pick.Some? ==> pick.value < |s.procs|
    ensures
      var u, s' := s.cpus[c], CpuNext(s, c, pick);
      && (pick.Some? ==> s'.cpus[c].proc == pick && Held(s'.cpus[c], s'.procs) == s.procs[pick.value])
      && (pick.None? && s'.cpus[c].proc.Some? ==>
            s'.cpus[c].proc == u.proc && Held(s'.cpus[c], s'.procs) == ProcAfter(u, Held(u, s.procs), c, s.b.time))
  {
  }

  /** CpuInv says nothing of the process when none is held. */
  lemma NoProcessNoMatter(timeSlot: int, c: nat, u: Cpu, d: B.Device, p: Process, q: Process, done: bool)
    requires CpuInv(timeSlot, c, u, d, p, done) && (u.proc.Some? ==> p == q)
    ensures CpuInv(timeSlot, c, u, d, q, done)
  {
  }

  lemma OwnCpuInv(s: State, c: nat, pick: Option<nat>, q: Process)
    requires Inv(s) && CpuEnabled(s, c, pick)
    requires pick.Some? ==> pick.value < |s.procs| && q == s.procs[pick.value]
    requires pick.None? ==> q == ProcAfter(s.cpus[c], Held(s.cpus[c], s.procs), c, s.b.time)
    ensures
      var u, d, p := s.cpus[c], s.b.devs[c + 1], Held(s.cpus[c], s.procs);
      CpuInv(s.cfg.timeSlot, c, CpuAfter(u, p, pick, s.done, s.cfg.timeSlot), DeviceAfter(u, d), q, s.done)
  {
    assert CpuAt(s, c);
    RunningReadsClock(s.b, c + 1);
    var u, d, p := s.cpus[c], s.b.devs[c + 1], Held(s.cpus[c], s.procs);
    var ts := s.cfg.timeSlot;
    if pick.Some? {
      CpuTakes(ts, c, u, d, p, q, pick, s.done);
    } else if u.pc.Execute? {
      CpuExecutes(ts, c, u, d, p, s.cfg.sizes[u.proc.value], s.done);
    } else {
      CpuKeepsItself(ts, c, u, d, p, if u.proc.Some? then s.cfg.sizes[u.proc.value] else 0, s.done);
    }
  }

  lemma OwnCpu(s: State, c: nat, pick: Option<nat>)
    requires Inv(s) && CpuEnabled(s, c, pick)
    requires |CpuNext(s, c, pick).b.devs| == |s.b.devs|
    requires CpuNext(s, c, pick).b.devs[c + 1] == DeviceAfter(s.cpus[c], s.b.devs[c + 1])
    ensures CpuAt(CpuNext(s, c, pick), c)
  {
    var u, s' := s.cpus[c], CpuNext(s, c, pick);
    PickExists(s, c, pick);
    var q := if pick.Some? then s.procs[pick.value] else ProcAfter(u, Held(u, s.procs), c, s.b.time);
    OwnCpuInv(s, c, pick, q);
    OwnHeldAfter(s, s', c, pick, q);
  }

  lemma PickExists(s: State, c: nat, pick: Option<nat>)
    requires Inv(s) && CpuEnabled(s, c, pick)
    ensures pick.Some? ==> pick.value < |s.procs|
    ensures s.cpus[c].proc.Some? ==> s.cpus[c].proc.value < |s.procs|
    ensures Getting(s.cpus[c]) ==> s.cpus[c].proc.None?
  {
    assert CpuAt(s, c);
  }

  lemma OwnHeldAfter(s: State, s': State, c: nat, pick: Option<nat>, q: Process)
    requires CpuEnabled(s, c, pick) && s' == CpuNext(s, c, pick) && |s.b.devs| == |s.cpus| + 1
    requires |s'.b.devs| == |s.b.devs| && s'.b.devs[c + 1] == DeviceAfter(s.cpus[c], s.b.devs[c + 1])
    requires s.cpus[c].proc.Some? ==> s.cpus[c].proc.value < |s.procs|
    requires Getting(s.cpus[c]) ==> s.cpus[c].proc.None?
    requires pick.Some? ==> pick.value < |s.procs|
    requires q == if pick.Some? then s.procs[pick.value]
                  else ProcAfter(s.cpus[c], Held(s.cpus[c], s.procs), c, s.b.time)
    requires
      var u, d, p := s.cpus[c], s.b.devs[c + 1], Held(s.cpus[c], s.procs);
      CpuInv(s.cfg.timeSlot, c, CpuAfter(u, p, pick, s.done, s.cfg.timeSlot), DeviceAfter(u, d), q, s.done)
    ensures CpuAt(s', c)
  {
    CpuStepKeeps(s, c, pick);
    HeldAfter(s, c, pick);
    NoProcessNoMatter(s.cfg.timeSlot, c, s'.cpus[c], s'.b.devs[c + 1], q, Held(s'.cpus[c], s'.procs), s.done);
  }

  lemma OtherCpu(s: State, c: nat, pick: Option<nat>, e: nat)
    requires Inv(s) && CpuEnabled(s, c, pick) && e < |s.cpus| && e != c
    requires |CpuNext(s, c, pick).b.devs| == |s.b.devs|
    requires CpuNext(s, c, pick).b.devs[e + 1] == s.b.devs[e + 1]
    ensures CpuAt(CpuNext(s, c, pick), e)
  {
    assert CpuAt(s, e);
    if s.cpus[e].proc.Some? {
      HeldAlone(s, e);
    }
  }

  /** What a step does to the processes: one held process may be run, the others stay. */
  lemma ProcsAfter(s: State, c: nat, pick: Option<nat>, p: nat)
    requires CpuEnabled(s, c, pick) && p < |s.procs|
    ensures
      var u, s' := s.cpus[c], CpuNext(s, c, pick);
      && |s'.procs| == |s.procs|
      && s'.procs[p] == if u.proc == Some(p) then ProcAfter(u, s.procs[p], c, s.b.time) else s.procs[p]
  {
  }

  lemma CpuProcs(s: State, c: nat, pick: Option<nat>, p: nat)
    requires Inv(s) && CpuEnabled(s, c, pick) && p < |s.procs|
    ensures |CpuNext(s, c, pick).procs| == |s.procs|
    ensures ProcInv(CpuNext(s, c, pick).procs[p], s.cfg.sizes[p])
  {
    ProcsAfter(s, c, pick, p);
    assert ProcInv(s.procs[p], s.cfg.sizes[p]);
    if s.cpus[c].pc.Execute? && s.cpus[c].proc == Some(p) {
      assert CpuAt(s, c);
      RunningReadsClock(s.b, c + 1);
      RunKeeps(s.procs[p], s.cfg.sizes[p], c, s.b.time);
    }
  }

  /** What a step does to the counts of one process in the bag and among the finished. */
  lemma CountsAfter(s: State, c: nat, pick: Option<nat>, q: nat)
    requires CpuEnabled(s, c, pick)
    ensures
      var u, p, s' := s.cpus[c], Held(s.cpus[c], s.procs), CpuNext(s, c, pick);
      && s'.ready[q] == s.ready[q] - (if pick == Some(q) then 1 else 0)
                      + (if PutsBack(u, p) && u.proc == Some(q) then 1 else 0)
      && s'.finished[q] == s.finished[q] + (if Finishes(u, p) && u.proc == Some(q) then 1 else 0)
  {
  }

  lemma CpuPlaces(s: State, c: nat, pick: Option<nat>, q: nat)
    requires Inv(s) && CpuEnabled(s, c, pick)
    ensures Placed(CpuNext(s, c, pick), q)
  {
    var u, p, s' := s.cpus[c], Held(s.cpus[c], s.procs), CpuNext(s, c, pick);
    assert CpuAt(s, c);
    assert Placed(s, q);
    CountsAfter(s, c, pick, q);
    HoldersUpdate(s.cpus, c, s'.cpus[c], q);
    assert s'.cpus == s.cpus[c := s'.cpus[c]];
    ProcAccount(u, p, pick, s.done, s.cfg.timeSlot, q);
  }

  /** A CPU takes hold of what it picks, and lets go of what it puts back or frees. */
  lemma ProcAccount(u: Cpu, p: Process, pick: Option<nat>, done: bool, timeSlot: int, q: nat)
    requires pick.Some? ==> Getting(u)
    requires Getting(u) ==> u.proc.None?
    ensures
      var u' := CpuAfter(u, p, pick, done, timeSlot);
      (if u'.proc == Some(q) then 1 else 0) ==
        (if u.proc == Some(q) then 1 else 0) + (if pick == Some(q) then 1 else 0)
        - (if PutsBack(u, p) && u.proc == Some(q) then 1 else 0)
        - (if Finishes(u, p) && u.proc == Some(q) then 1 else 0)
  {
  }

  /** The bag after a CPU's step holds what it held before, and what the step put back. */
  lemma ReadyAfter(s: State, c: nat, pick: Option<nat>, q: nat)
    requires Inv(s) && CpuEnabled(s, c, pick) && q in CpuNext(s, c, pick).ready
    ensures q < |s.procs| && Runnable(s.procs[q]) && Before(s.procs[q], s.b.time)
    ensures s.cpus[c].proc == Some(q) ==> !s.cpus[c].pc.Execute?
  {
    var u, p := s.cpus[c], Held(s.cpus[c], s.procs);
    assert CpuAt(s, c);
    if u.proc.Some? {
      HeldAlone(s, c);
    }
    if PutsBack(u, p) && u.proc == Some(q) {
      RunningReadsClock(s.b, c + 1);
      assert ProcInv(p, s.cfg.sizes[q]);
    } else {
      assert q in s.ready;
    }
  }

  lemma FinishedAfter(s: State, c: nat, pick: Option<nat>, q: nat)
    requires Inv(s) && CpuEnabled(s, c, pick) && q in CpuNext(s, c, pick).finished
    ensures q < |s.procs| && s.procs[q].pc == s.procs[q].size
    ensures s.cpus[c].proc == Some(q) ==> !s.cpus[c].pc.Execute?
  {
    var u, p := s.cpus[c], Held(s.cpus[c], s.procs);
    assert CpuAt(s, c);
    if u.proc.Some? {
      HeldAlone(s, c);
    }
    if !(Finishes(u, p) && u.proc == Some(q)) {
      assert q in s.finished;
    }
  }

  /** A process not admitted is held by no CPU. */
  lemma NotAdmittedNotHeld(s: State, c: nat, p: nat)
    requires PoolInv(s) && c < |s.cpus| && |s.ld.admitted| <= p
    ensures s.cpus[c].proc != Some(p) && p !in s.ready && p !in s.finished
  {
    assert Placed(s, p);
    if s.cpus[c].proc == Some(p) {
      HolderCounts(s.cpus, c, p);
    }
  }

  lemma CpuReady(s: State, c: nat, pick: Option<nat>)
    requires Inv(s) && CpuEnabled(s, c, pick) && CpuNext(s, c, pick).b.time == s.b.time
    ensures ReadyInv(CpuNext(s, c, pick))
  {
    var s' := CpuNext(s, c, pick);
    forall q: nat | q in s'.ready
      ensures q < |s'.procs| && Runnable(s'.procs[q]) && Before(s'.procs[q], s'.b.time)
    {
      ReadyAfter(s, c, pick, q);
    }
  }

  lemma CpuFinished(s: State, c: nat, pick: Option<nat>)
    requires Inv(s) && CpuEnabled(s, c, pick)
    ensures FinishedInv(CpuNext(s, c, pick))
  {
    var s' := CpuNext(s, c, pick);
    forall q: nat | q in s'.finished ensures q < |s'.procs| && s'.procs[q].pc == s'.procs[q].size {
      FinishedAfter(s, c, pick, q);
    }
  }

  lemma CpuUntouched(s: State, c: nat, pick: Option<nat>)
    requires Inv(s) && CpuEnabled(s, c, pick)
    ensures UntouchedInv(CpuNext(s, c, pick))
  {
    var s' := CpuNext(s, c, pick);
    forall q: nat | |s'.ld.admitted| <= q < |s'.procs| ensures s'.procs[q].trace == [] && s'.procs[q].runs == 0 {
      NotAdmittedNotHeld(s, c, q);
    }
  }

  lemma CpuPool(s: State, c: nat, pick: Option<nat>)
    requires Inv(s) && CpuEnabled(s, c, pick) && CpuNext(s, c, pick).b.time == s.b.time
    ensures PoolInv(CpuNext(s, c, pick))
  {
    forall q: nat ensures Placed(CpuNext(s, c, pick), q) {
      CpuPlaces(s, c, pick, q);
    }
    CpuReady(s, c, pick);
    CpuFinished(s, c, pick);
    CpuUntouched(s, c, pick);
  }

  lemma CpuStepInv(s: State, c: nat, pick: Option<nat>)
    requires Inv(s) && CpuEnabled(s, c, pick)
    ensures Inv(CpuNext(s, c, pick))
  {
    var s' := CpuNext(s, c, pick);
    BarrierAfterSeen(s.cpus[c], s.b, c + 1);
    forall e | 0 <= e < |s'.cpus| ensures CpuAt(s', e) {
      if e == c { OwnCpu(s, c, pick); } else { OtherCpu(s, c, pick, e); }
    }
    forall p | 0 <= p < |s'.procs| ensures ProcInv(s'.procs[p], s'.cfg.sizes[p]) {
      CpuProcs(s, c, pick, p);
    }
    CpuPool(s, c, pick);
  }

  // ---------------------------------------------------- steps of the loader

  /** The loader's device after one step of its program. */
  function LoaderDevice(ld: Loader, d: B.Device): B.Device {
    match ld.pc
    case LdSleep => d.(pc := B.LockEvent, calls := d.calls + 1)
    case LdEnd => d.(pc := B.LockEvent, calls := d.calls + 1)
    case LdDetach => d.(pc := B.DetachLock)
    case _ => d
  }

  lemma LoaderBarrierSeen(ld: Loader, b: B.State)
    requires BS.Inv(b) && 0 < |b.devs| && b.devs[0].pc.Running?
    ensures
      var b' := LoaderBarrier(ld, b);
      && BS.Inv(b') && b'.time == b.time
      && b'.devs == b.devs[0 := LoaderDevice(ld, b.devs[0])]
  {
    if ld.pc.LdSleep? || ld.pc.LdEnd? {
      BS.StepInv(b, B.CallNextSlot(0));
    } else if ld.pc.LdDetach? {
      BS.StepInv(b, B.CallDetach(0));
    } else {
      assert b.devs == b.devs[0 := b.devs[0]];
    }
  }

  lemma AdmissionIsNext(ld: Loader, start: seq<nat>)
    requires |ld.admitted| < |start| && OnSchedule(ld.admitted, start)
    ensures
      var i, first := |ld.admitted|, NextAdmission(ld.admitted);
      AdmissionTime(start, i) == if start[i] <= first then first else start[i]
  {
  }

  lemma LoaderAdmits(ld: Loader, d: B.Device, start: seq<nat>, done: bool)
    requires LoaderInv(ld, d, start, done) && d.pc.Running? && ld.pc.LdAdmit?
    ensures LoaderInv(LoaderAfter(ld, start, d.calls), d, start, done)
  {
    var i, ld' := |ld.admitted|, LoaderAfter(ld, start, d.calls);
    assert ld'.admitted[..i] == ld.admitted && ld'.admitted[i] == AdmissionTime(start, i);
    assert OnSchedule(ld'.admitted, start);
  }

  lemma LoaderItself(ld: Loader, d: B.Device, start: seq<nat>, done: bool)
    requires LoaderInv(ld, d, start, done) && d.pc.Running?
    ensures LoaderInv(LoaderAfter(ld, start, d.calls), LoaderDevice(ld, d), start, done || ld.pc.LdSetDone?)
  {
    if ld.pc.LdAdmit? {
      LoaderAdmits(ld, d, start, done);
    } else if ld.pc.LdCheck? {
      AdmissionIsNext(ld, start);
    }
  }

  lemma LoaderPool(s: State)
    requires Inv(s) && LoaderEnabled(s) && LoaderNext(s).b.time == s.b.time
    ensures PoolInv(LoaderNext(s))
  {
    var s' := LoaderNext(s);
    var i := |s.ld.admitted|;
    forall p: nat ensures Placed(s', p) {
      assert Placed(s, p);
    }
    if s.ld.pc.LdAdmit? {
      assert Placed(s, i);
      NeverRun(s, i);
    }
  }

  /** A process that has not been admitted has not been touched. */
  lemma NeverRun(s: State, i: nat)
    requires Inv(s) && |s.ld.admitted| <= i < |s.procs|
    ensures Runnable(s.procs[i]) && Before(s.procs[i], s.b.time)
  {
  }

  lemma LoaderStepInv(s: State)
    requires Inv(s) && LoaderEnabled(s)
    ensures Inv(LoaderNext(s))
  {
    var s' := LoaderNext(s);
    LoaderBarrierSeen(s.ld, s.b);
    forall c | 0 <= c < |s'.cpus| ensures CpuAt(s', c) {
      assert CpuAt(s, c);
    }
    RunningReadsClock(s.b, 0);
    LoaderItself(s.ld, s.b.devs[0], s.cfg.start, s.done);
    LoaderPool(s);
  }

  // --------------------------------------------------------------- every run

  /** Every step of every thread keeps the invariant. */
  lemma StepInv(s: State, l: Label)
    requires Inv(s) && Enabled(s, l)
    ensures Inv(Apply(s, l))
  {
    match l
    case Barrier(bl) => BarrierStepInv(s, bl);
    case CpuStep(c, pick) => CpuStepInv(s, c, pick);
    case LoaderStep => LoaderStepInv(s);
  }

  lemma {:induction false} RunInv(ss: seq<State>, ls: seq<Label>, n: nat)
    requires IsRun(ss, ls) && n < |ss|
    ensures Inv(ss[n])
  {
    if n == 0 {
      InitInv(ss[0]);
    } else {
      RunInv(ss, ls, n - 1);
      StepInv(ss[n - 1], ls[n - 1]);
    }
  }

  /** The configuration and the number of CPUs never change. */
  lemma {:induction false} CfgStays(ss: seq<State>, ls: seq<Label>, n: nat)
    requires IsRun(ss, ls) && n < |ss|
    ensures ss[n].cfg == ss[0].cfg && |ss[n].cpus| == |ss[0].cpus| == ss[0].cfg.cpus
  {
    if n > 0 {
      CfgStays(ss, ls, n - 1);
      CfgStaysStep(ss[n - 1], ls[n - 1]);
    }
  }

  lemma CfgStaysStep(s: State, l: Label)
    requires Enabled(s, l)
    ensures Apply(s, l).cfg == s.cfg && |Apply(s, l).cpus| == |s.cpus|
  {
  }
}
