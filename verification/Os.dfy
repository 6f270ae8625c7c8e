/** The programs src/os.c runs on the barrier: `cpu_routine` on every CPU device and
    `ld_routine` on the loader device, sharing the ready queue and the `done` flag.

    The loader is attached last, so it heads dev_list and is device 0; cpus[c] is device
    c + 1.  The queue behind get_proc, put_proc and add_proc is not written in the
    repository (src/queue.c, src/sched.c): it is taken to be a bag, each of the three an
    atomic step.  get_proc may hand out any process of the bag, whatever the policy. */
module Os {
  import opened Options
  import B = Barrier

  // ------------------------------------------------------------- processes

  // Instruction `index` was executed by CPU `cpu` while the clock showed `slot`.
  datatype Exec = Exec(index: nat, cpu: nat, slot: nat)

  // Histories: `runs` counts the calls of run, `trace` lists the executed instructions.
  datatype Process = Process(size: nat, pc: nat, runs: nat, trace: seq<Exec>)

  /** `run` of src/cpu.c: the guard on the program counter, the fetch and the increment. */
  function Run(p: Process, cpu: nat, slot: nat): Process {
    if p.pc >= p.size then p.(runs := p.runs + 1)
    else p.(pc := p.pc + 1, runs := p.runs + 1, trace := p.trace + [Exec(p.pc, cpu, slot)])
  }

  // --------------------------------------------------------------- programs

  datatype CpuPc =
    | AtHead          // while (1)
    | GetIdle         // get_proc when no process is held
    | GetAfterFinish  // get_proc after freeing a finished process
    | GetAfterPut     // get_proc after putting the process back
    | Recheck
    | Execute
    | EndSlot         // about to call next_slot
    | Stop            // about to call detach_event
    | Stopped

  // `burst`, `dispatches` and `loops` are histories: calls of run since the last
  // dispatch, dispatches so far, and loop iterations begun.
  datatype Cpu = Cpu(pc: CpuPc, proc: Option<nat>, timeLeft: int, burst: nat, dispatches: nat, loops: nat)

  datatype LoaderPc =
    | LdHead      // while (i < num_processes)
    | LdCheck     // while (current_time() < start_time[i])
    | LdSleep     // about to call next_slot in that loop
    | LdAdmit     // add_proc
    | LdEnd       // about to call next_slot after it
    | LdSetDone
    | LdDetach
    | LdStopped

  // `admitted[i]` is the time at which process i was added; the local `i` is |admitted|.
  datatype Loader = Loader(pc: LoaderPc, admitted: seq<nat>)

  // timeSlot as read from the configuration, unchecked; sizes and start times per process.
  datatype Config = Config(timeSlot: int, sizes: seq<nat>, start: seq<nat>, cpus: nat)

  // Histories: `busy` are the slots in which some CPU called run, `failed` those in which
  // get_proc returned NULL although a process was ready, `dispatched` how often each
  // process has been dispatched.
  datatype State = State(
    cfg: Config,
    b: B.State,
    cpus: seq<Cpu>,
    ld: Loader,
    procs: seq<Process>,
    ready: multiset<nat>,
    finished: multiset<nat>,
    done: bool,
    busy: set<nat>,
    failed: set<nat>,
    dispatched: seq<nat>)

  datatype Label =
    | Barrier(l: B.Label)
    | CpuStep(c: nat, pick: Option<nat>)   // pick is what get_proc returns
    | LoaderStep
  {
    predicate IsSpurious() { Barrier? && l.IsSpurious() }
  }

  const FRESH_CPU := Cpu(AtHead, None, 0, 0, 0, 0)

  ghost predicate Init(s: State) {
    && B.Init(s.b) && |s.b.devs| == s.cfg.cpus + 1
    && |s.cpus| == s.cfg.cpus
    && (forall c :: 0 <= c < |s.cpus| ==> s.cpus[c] == FRESH_CPU)
    && s.ld == Loader(LdHead, [])
    && |s.procs| == |s.cfg.sizes| == |s.cfg.start|
    && (forall p :: 0 <= p < |s.procs| ==> s.procs[p] == Process(s.cfg.sizes[p], 0, 0, []))
    && s.ready == s.finished == multiset{}
    && !s.done && s.busy == s.failed == {}
    && s.dispatched == seq(|s.cfg.sizes|, _ => 0)
  }

  // ---------------------------------------------------------- cpu_routine

  predicate Getting(u: Cpu) {
    u.pc.GetIdle? || u.pc.GetAfterFinish? || u.pc.GetAfterPut?
  }

  /** The loop test finds that the held process p has no instruction left. */
  predicate Finishes(u: Cpu, p: Process) {
    u.pc.AtHead? && u.proc.Some? && p.pc == p.size
  }

  /** The loop test finds that the held process p has used up its time slice. */
  predicate PutsBack(u: Cpu, p: Process) {
    u.pc.AtHead? && u.proc.Some? && p.pc != p.size && u.timeLeft == 0
  }

  /** get_proc returns NULL although a process is ready. */
  predicate Fails(u: Cpu, pick: Option<nat>, ready: multiset<nat>) {
    Getting(u) && pick.None? && ready != multiset{}
  }

  /** The CPU is about to start a new time slice for the process it holds. */
  predicate Dispatches(u: Cpu) {
    u.pc.Recheck? && u.proc.Some? && u.timeLeft == 0
  }

  /** One step of cpu_routine on its own variables: p is the process it holds, if any,
      pick what get_proc returns, done and timeSlot the globals it reads. */
  function CpuAfter(u: Cpu, p: Process, pick: Option<nat>, done: bool, timeSlot: int): Cpu {
    match u.pc
    case AtHead =>
      var v := u.(loops := u.loops + 1);
      if u.proc.None? then v.(pc := GetIdle)
      else if Finishes(u, p) then v.(pc := GetAfterFinish, proc := None)
      else if PutsBack(u, p) then v.(pc := GetAfterPut, proc := None)
      else v.(pc := Recheck)
    case GetIdle => u.(pc := if pick.None? then EndSlot else Recheck, proc := pick)
    case GetAfterFinish => u.(pc := Recheck, proc := pick, timeLeft := 0)
    case GetAfterPut => u.(pc := Recheck, proc := pick)
    case Recheck =>
      if u.proc.None? then u.(pc := if done then Stop else EndSlot)
      else if u.timeLeft == 0 then
        u.(pc := Execute, timeLeft := timeSlot, burst := 0, dispatches := u.dispatches + 1)
      else u.(pc := Execute)
    case Execute => u.(pc := EndSlot, timeLeft := u.timeLeft - 1, burst := u.burst + 1)
    case EndSlot => u.(pc := AtHead)
    case Stop => u.(pc := Stopped)
    case Stopped => u
  }

  /** The same step's effect on the process it holds. */
  function ProcAfter(u: Cpu, p: Process, cpu: nat, time: nat): Process {
    if u.pc.Execute? then Run(p, cpu, time) else p
  }

  /** The same step's effect on the barrier: the entries into next_slot and detach_event. */
  function BarrierAfter(u: Cpu, b: B.State, i: nat): B.State
    requires i < |b.devs| && b.devs[i].pc.Running?
  {
    match u.pc
    case EndSlot => B.Apply(b, B.CallNextSlot(i))
    case Stop => B.Apply(b, B.CallDetach(i))
    case _ => b
  }

  const NO_PROCESS := Process(0, 0, 0, [])

  /** The process the CPU holds; of no consequence if it holds none. */
  function Held(u: Cpu, procs: seq<Process>): Process {
    if u.proc.Some? && u.proc.value < |procs| then procs[u.proc.value] else NO_PROCESS
  }

  function Single(present: bool, p: Option<nat>): multiset<nat> {
    if present && p.Some? then multiset{p.value} else multiset{}
  }

  predicate CpuEnabled(s: State, c: nat, pick: Option<nat>) {
    && c < |s.cpus| && c + 1 < |s.b.devs| && s.b.devs[c + 1].pc.Running?
    && !s.cpus[c].pc.Stopped?
    && (pick.Some? ==> Getting(s.cpus[c]) && pick.value in s.ready)
  }

  function CpuNext(s: State, c: nat, pick: Option<nat>): State
    requires CpuEnabled(s, c, pick)
  {
    var u := s.cpus[c];
    var p := Held(u, s.procs);
    s.(b := BarrierAfter(u, s.b, c + 1),
       cpus := s.cpus[c := CpuAfter(u, p, pick, s.done, s.cfg.timeSlot)],
       procs := if u.proc.Some? && u.proc.value < |s.procs|
                then s.procs[u.proc.value := ProcAfter(u, p, c, s.b.time)] else s.procs,
       ready := s.ready - Single(true, pick) + Single(PutsBack(u, p), u.proc),
       finished := s.finished + Single(Finishes(u, p), u.proc),
       busy := if u.pc.Execute? then s.busy + {s.b.time} else s.busy,
       failed := if Fails(u, pick, s.ready) then s.failed + {s.b.time} else s.failed,
       dispatched := if Dispatches(u) && u.proc.value < |s.dispatched|
                     then s.dispatched[u.proc.value := s.dispatched[u.proc.value] + 1] else s.dispatched)
  }

  // ----------------------------------------------------------- ld_routine

  /** One step of ld_routine on its own variables. */
  function LoaderAfter(ld: Loader, start: seq<nat>, time: nat): Loader {
    var i := |ld.admitted|;
    match ld.pc
    case LdHead => ld.(pc := if i < |start| then LdCheck else LdSetDone)
    case LdCheck => ld.(pc := if i < |start| && time < start[i] then LdSleep else LdAdmit)
    case LdSleep => ld.(pc := LdCheck)
    case LdAdmit => Loader(LdEnd, ld.admitted + [time])
    case LdEnd => ld.(pc := LdHead)
    case LdSetDone => ld.(pc := LdDetach)
    case LdDetach => ld.(pc := LdStopped)
    case LdStopped => ld
  }

  function LoaderBarrier(ld: Loader, b: B.State): B.State
    requires 0 < |b.devs| && b.devs[0].pc.Running?
  {
    match ld.pc
    case LdSleep => B.Apply(b, B.CallNextSlot(0))
    case LdEnd => B.Apply(b, B.CallNextSlot(0))
    case LdDetach => B.Apply(b, B.CallDetach(0))
    case _ => b
  }

  predicate LoaderEnabled(s: State) {
    0 < |s.b.devs| && s.b.devs[0].pc.Running? && !s.ld.pc.LdStopped?
  }

  function LoaderNext(s: State): State
    requires LoaderEnabled(s)
  {
    s.(b := LoaderBarrier(s.ld, s.b),
       ld := LoaderAfter(s.ld, s.cfg.start, s.b.time),
       ready := s.ready + Single(s.ld.pc.LdAdmit?, Some(|s.ld.admitted|)),
       done := s.done || s.ld.pc.LdSetDone?)
  }

  // -------------------------------------------------------------- all steps

  predicate Enabled(s: State, l: Label) {
    match l
    case Barrier(bl) => !bl.CallNextSlot? && !bl.CallDetach? && B.Enabled(s.b, bl)
    case CpuStep(c, pick) => CpuEnabled(s, c, pick)
    case LoaderStep => LoaderEnabled(s)
  }

  function Apply(s: State, l: Label): State
    requires Enabled(s, l)
  {
    match l
    case Barrier(bl) => s.(b := B.Apply(s.b, bl))
    case CpuStep(c, pick) => CpuNext(s, c, pick)
    case LoaderStep => LoaderNext(s)
  }

  ghost predicate IsRun(ss: seq<State>, ls: seq<Label>) {
    && |ss| == |ls| + 1
    && Init(ss[0])
    && forall n :: 0 <= n < |ls| ==> Enabled(ss[n], ls[n]) && ss[n + 1] == Apply(ss[n], ls[n])
  }

  /** get_proc returns NULL only when the bag is empty. */
  ghost predicate WorkConserving(s: State, l: Label) {
    l.CpuStep? && l.c < |s.cpus| ==> !Fails(s.cpus[l.c], l.pick, s.ready)
  }

  ghost predicate IsWorkConservingRun(ss: seq<State>, ls: seq<Label>) {
    IsRun(ss, ls) && forall n :: 0 <= n < |ls| ==> WorkConserving(ss[n], ls[n])
  }
}
