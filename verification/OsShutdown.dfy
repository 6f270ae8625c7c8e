/** How the simulation ends: with every process finished, if it ends at all. */
module OsShutdown {
  import opened Options
  import B = Barrier
  import BS = BarrierSafety
  import T = Telescopes
  import opened Os
  import opened OsSafety

  // ------------------------------------------------------------ clean shutdown

  /** The CPU has not yet found the bag empty on its way out. */
  predicate Open(u: Cpu) {
    !(u.pc.Stop? || u.pc.Stopped? || (u.pc.Recheck? && u.proc.None?))
  }

  ghost predicate SomeOpen(s: State) {
    exists c :: 0 <= c < |s.cpus| && Open(s.cpus[c])
  }

  /** The loader added a process in the current slot. */
  predicate AddedJustNow(s: State) {
    s.ld.admitted != [] && s.ld.admitted[|s.ld.admitted| - 1] == s.b.time
  }

  /** Whatever is in the bag, a CPU is left to fetch it, or the loader has only just added
      it and cannot have set `done` before the next slot. */
  ghost predicate Attended(s: State) {
    s.ready == multiset{} || SomeOpen(s) || (!s.done && AddedJustNow(s))
  }

  /** When the clock ticks before `done` is set, every CPU is at the head of its loop. */
  lemma OpenAtTick(s: State, c: nat)
    requires Inv(s) && s.b.timer.pc.Tick? && !s.done && c < |s.cpus|
    ensures Open(s.cpus[c])
  {
    assert CpuAt(s, c);
    assert BS.DeviceInv(s.b.devs[c + 1], c + 1, s.b.timer, s.b.time);
  }

  lemma AttendedBarrier(s: State, l: B.Label)
    requires Inv(s) && Enabled(s, Barrier(l)) && Attended(s) && |s.cpus| >= 1
    ensures Attended(Apply(s, Barrier(l)))
  {
    var s' := Apply(s, Barrier(l));
    assert s'.cpus == s.cpus;
    if l.TimerStep? && s.b.timer.pc.Tick? {
      if !s.done {
        OpenAtTick(s, 0);
        assert Open(s'.cpus[0]);
      } else if SomeOpen(s) {
        var c :| 0 <= c < |s.cpus| && Open(s.cpus[c]);
        assert Open(s'.cpus[c]);
      }
    } else {
      assert s'.b.time == s.b.time;
    }
  }

  /** A fetch that finds nothing leaves nothing behind. */
  lemma EmptyFetch(s: State, c: nat)
    requires CpuEnabled(s, c, None) && Getting(s.cpus[c]) && s.ready == multiset{}
    ensures CpuNext(s, c, None).ready == multiset{}
  {
  }

  /** A CPU that closes without fetching was already closed: the open ones are the others. */
  lemma AttendedByOthers(s: State, c: nat, pick: Option<nat>)
    requires CpuEnabled(s, c, pick) && !Open(s.cpus[c]) && Attended(s)
    ensures Attended(CpuNext(s, c, pick))
  {
    var s' := CpuNext(s, c, pick);
    CpuStepKeeps(s, c, pick);
    if SomeOpen(s) {
      var e :| 0 <= e < |s.cpus| && Open(s.cpus[e]);
      assert Open(s'.cpus[e]);
    }
  }

  lemma CpuStaysOpen(u: Cpu, p: Process, pick: Option<nat>, done: bool, timeSlot: int)
    requires Open(u) && !(Getting(u) && pick.None?)
    ensures Open(CpuAfter(u, p, pick, done, timeSlot))
  {
  }

  lemma AttendedCpu(s: State, c: nat, pick: Option<nat>)
    requires CpuEnabled(s, c, pick) && WorkConserving(s, CpuStep(c, pick)) && Attended(s)
    ensures Attended(CpuNext(s, c, pick))
  {
    var u := s.cpus[c];
    if Getting(u) && pick.None? {
      EmptyFetch(s, c);
    } else if Open(u) {
      CpuStaysOpen(u, Held(u, s.procs), pick, s.done, s.cfg.timeSlot);
      assert Open(CpuNext(s, c, pick).cpus[c]);
    } else {
      AttendedByOthers(s, c, pick);
    }
  }

  lemma AttendedLoader(s: State)
    requires Inv(s) && LoaderEnabled(s) && Attended(s)
    ensures Attended(LoaderNext(s))
  {
    var s' := LoaderNext(s);
    RunningReadsClock(s.b, 0);
    LoaderBarrierSeen(s.ld, s.b);
    assert s'.cpus == s.cpus;
  }

  lemma AttendedStep(s: State, l: Label)
    requires Inv(s) && Enabled(s, l) && WorkConserving(s, l) && Attended(s) && |s.cpus| >= 1
    ensures Attended(Apply(s, l)) && |Apply(s, l).cpus| == |s.cpus|
  {
    match l
    case Barrier(bl) => AttendedBarrier(s, bl);
    case CpuStep(c, pick) => AttendedCpu(s, c, pick);
    case LoaderStep => AttendedLoader(s);
  }

  lemma AttendedRunStep(ss: seq<State>, ls: seq<Label>, n: nat)
    requires IsWorkConservingRun(ss, ls) && n < |ls| && |ss[n].cpus| >= 1 && Attended(ss[n])
    ensures Attended(ss[n + 1])
  {
    RunInv(ss, ls, n);
    AttendedStep(ss[n], ls[n]);
  }

  lemma AttendedRun(ss: seq<State>, ls: seq<Label>, n: nat)
    requires IsWorkConservingRun(ss, ls) && n < |ss| && ss[0].cfg.cpus >= 1
    ensures Attended(ss[n])
  {
    ghost var holds := seq(|ss|, i requires 0 <= i < |ss| => Attended(ss[i]));
    forall i | 0 <= i < n && holds[i] ensures holds[i + 1] {
      CfgStays(ss, ls, i);
      AttendedRunStep(ss, ls, i);
    }
    T.Carry(holds, 0, n);
  }

  /** Once main has joined its threads, every CPU and the loader have stopped. */
  lemma JoinedMeansStopped(s: State)
    requires Inv(s) && !s.b.main.JoinDevices?
    ensures s.ld.pc.LdStopped? && forall c :: 0 <= c < |s.cpus| ==> s.cpus[c].pc.Stopped? && s.cpus[c].proc.None?
  {
    assert s.b.devs[0].pc.Exited?;
    forall c | 0 <= c < |s.cpus| ensures s.cpus[c].pc.Stopped? && s.cpus[c].proc.None? {
      assert CpuAt(s, c);
      assert s.b.devs[c + 1].pc.Exited?;
    }
  }

  /** Clean shutdown: if get_proc returns NULL only when nothing is ready, then at the moment
      main has joined its threads nothing is ready or held, and every process of the
      configuration has finished, having executed all its instructions.  A CPU that leaves
      cannot strand a process the loader is adding, because the loader sets `done` at the
      earliest one slot after its last admission. */
  lemma CleanShutdown(ss: seq<State>, ls: seq<Label>, n: nat, p: nat)
    requires IsWorkConservingRun(ss, ls) && n < |ss| && ss[0].cfg.cpus >= 1
    requires !ss[n].b.main.JoinDevices? && p < |ss[n].procs|
    ensures ss[n].ready == multiset{}
    ensures ss[n].finished[p] == 1
    ensures |ss[n].procs[p].trace| == ss[n].procs[p].pc == ss[n].procs[p].size
  {
    var s := ss[n];
    RunInv(ss, ls, n);
    AttendedRun(ss, ls, n);
    JoinedMeansStopped(s);
    assert s.done && !SomeOpen(s);
    assert Placed(s, p);
    NoHolders(s.cpus, p);
    assert s.finished[p] == 1;
    assert ProcInv(s.procs[p], s.cfg.sizes[p]);
  }

  // ------------------------------------------------------ CPUs that never stop

  /** The CPU holds nothing and is in the branch of the loop that does not look at `done`. */
  predicate Idling(u: Cpu) {
    u.proc.None? && (u.pc.AtHead? || u.pc.GetIdle? || u.pc.EndSlot?)
  }

  ghost predicate AllFinished(s: State) {
    forall p: nat :: p < |s.procs| ==> p in s.finished
  }

  /** Every process has finished and CPU c idles. */
  ghost predicate IdleAtEnd(s: State, c: nat) {
    AllFinished(s) && c < |s.cpus| && Idling(s.cpus[c])
  }

  lemma NothingReady(s: State, p: nat)
    requires Inv(s) && AllFinished(s)
    ensures p !in s.ready
  {
    assert Placed(s, p);
  }

  lemma FinishedForGood(s: State, l: Label)
    requires Enabled(s, l) && AllFinished(s)
    ensures AllFinished(Apply(s, l))
  {
  }

  /** A CPU that idles and gets no process goes on idling, whatever `done` is. */
  lemma IdleCpuIdles(u: Cpu, p: Process, done: bool, timeSlot: int)
    requires Idling(u)
    ensures Idling(CpuAfter(u, p, None, done, timeSlot))
  {
  }

  /** Once all processes have finished, get_proc returns NULL. */
  lemma NothingToPick(s: State, c: nat, pick: Option<nat>)
    requires Inv(s) && AllFinished(s) && CpuEnabled(s, c, pick)
    ensures pick.None?
  {
    if pick.Some? {
      NothingReady(s, pick.value);
    }
  }

  lemma IdleStep(s: State, l: Label, c: nat)
    requires Inv(s) && Enabled(s, l) && IdleAtEnd(s, c)
    ensures IdleAtEnd(Apply(s, l), c)
  {
    FinishedForGood(s, l);
    if l.CpuStep? {
      NothingToPick(s, l.c, l.pick);
      CpuStepKeeps(s, l.c, l.pick);
      if l.c == c {
        IdleCpuIdles(s.cpus[c], Held(s.cpus[c], s.procs), s.done, s.cfg.timeSlot);
      }
    }
  }

  lemma IdleRunStep(ss: seq<State>, ls: seq<Label>, n: nat, c: nat)
    requires IsRun(ss, ls) && n < |ls| && IdleAtEnd(ss[n], c)
    ensures IdleAtEnd(ss[n + 1], c)
  {
    RunInv(ss, ls, n);
    IdleStep(ss[n], ls[n], c);
  }

  lemma IdleRun(ss: seq<State>, ls: seq<Label>, a: nat, b: nat, c: nat)
    requires IsRun(ss, ls) && a <= b < |ss| && IdleAtEnd(ss[a], c)
    ensures IdleAtEnd(ss[b], c)
  {
    ghost var holds := seq(|ss|, i requires 0 <= i < |ss| => IdleAtEnd(ss[i], c));
    forall i | a <= i < b && holds[i] ensures holds[i + 1] {
      IdleRunStep(ss, ls, i, c);
    }
    T.Carry(holds, a, b);
  }

  /** A CPU that holds no process when the last one finishes never stops: the idle branch of
      its loop does not read `done`.  From then on, in every continuation, main waits for it. */
  lemma IdleCpuNeverStops(ss: seq<State>, ls: seq<Label>, a: nat, b: nat, c: nat)
    requires IsRun(ss, ls) && a <= b < |ss| && IdleAtEnd(ss[a], c)
    ensures c < |ss[b].cpus| && !ss[b].cpus[c].pc.Stopped?
    ensures ss[b].b.main == B.JoinDevices
  {
    IdleRun(ss, ls, a, b, c);
    RunInv(ss, ls, b);
    if !ss[b].b.main.JoinDevices? {
      JoinedMeansStopped(ss[b]);
    }
  }

  /** A configuration without processes therefore never ends. */
  lemma NoProcessesNeverEnds(ss: seq<State>, ls: seq<Label>, n: nat)
    requires IsRun(ss, ls) && n < |ss| && ss[0].cfg.sizes == [] && ss[0].cfg.cpus >= 1
    ensures ss[n].b.main == B.JoinDevices
  {
    IdleCpuNeverStops(ss, ls, 0, n, 0);
  }

  /** Every CPU that stops has been given a process before, and found `done` set. */
  lemma StoppedCpuHasWorked(ss: seq<State>, ls: seq<Label>, n: nat, c: nat)
    requires IsRun(ss, ls) && n < |ss| && c < |ss[n].cpus| && ss[n].cpus[c].pc.Stopped?
    ensures ss[n].cpus[c].dispatches > 0 && ss[n].done
    ensures |ss[n].ld.admitted| == |ss[n].procs|
  {
    RunInv(ss, ls, n);
    assert CpuAt(ss[n], c);
  }
}
