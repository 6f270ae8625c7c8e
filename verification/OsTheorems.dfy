/** What the system promises over whole runs: no process is lost or run twice at once,
    every process runs its program in order, slices and admission times are exact. */
module OsTheorems {
  import opened Options
  import B = Barrier
  import BS = BarrierSafety
  import T = Telescopes
  import opened Os
  import opened OsSafety

  // ------------------------------------------------------------ conservation

  datatype Place = NotAdmitted | Ready | HeldBy(cpu: nat) | Finished

  /** Process p is at this place. */
  ghost predicate IsAt(s: State, p: nat, place: Place) {
    match place
    case NotAdmitted => |s.ld.admitted| <= p
    case Ready => s.ready[p] > 0
    case HeldBy(c) => c < |s.cpus| && s.cpus[c].proc == Some(p)
    case Finished => s.finished[p] > 0
  }

  /** Conservation of processes: at every moment of every run each process is at exactly one
      place, and the bag and the finished processes hold it at most once. */
  lemma OnePlaceEach(ss: seq<State>, ls: seq<Label>, n: nat, p: nat)
    requires IsRun(ss, ls) && n < |ss|
    ensures exists place :: IsAt(ss[n], p, place)
    ensures forall x, y :: IsAt(ss[n], p, x) && IsAt(ss[n], p, y) ==> x == y
    ensures ss[n].ready[p] <= 1 && ss[n].finished[p] <= 1
  {
    RunInv(ss, ls, n);
    var s := ss[n];
    assert Placed(s, p);
    if c: nat :| c < |s.cpus| && s.cpus[c].proc == Some(p) {
      HolderCounts(s.cpus, c, p);
      assert IsAt(s, p, HeldBy(c));
    } else {
      NoHolders(s.cpus, p);
      assert IsAt(s, p, if |s.ld.admitted| <= p then NotAdmitted else if s.ready[p] > 0 then Ready else Finished);
    }
  }

  // ------------------------------------------------------- order of execution

  /** However often it was preempted and moved, a process has executed its instructions
      0, 1, ... in order, each once, in strictly later slots: never two in one slot. */
  lemma ExecutedInOrder(ss: seq<State>, ls: seq<Label>, n: nat, p: nat)
    requires IsRun(ss, ls) && n < |ss| && p < |ss[n].procs|
    ensures
      var q := ss[n].procs[p];
      && |q.trace| == q.pc <= q.size
      && (forall k :: 0 <= k < |q.trace| ==> q.trace[k].index == k)
      && (forall k, m :: 0 <= k < m < |q.trace| ==> q.trace[k].slot < q.trace[m].slot)
    ensures p in ss[n].finished ==> |ss[n].procs[p].trace| == ss[n].procs[p].size
  {
    RunInv(ss, ls, n);
    assert ProcInv(ss[n].procs[p], ss[n].cfg.sizes[p]);
  }

  // ------------------------------------------------------ one per CPU and slot

  /** Every instruction in the trace was executed by a CPU that has since moved on. */
  ghost predicate Past(p: Process, cpus: seq<Cpu>, devs: seq<B.Device>)
    requires |devs| == |cpus| + 1
  {
    forall k :: 0 <= k < |p.trace| ==>
      var e := p.trace[k];
      e.cpu < |cpus| && e.slot < Due(cpus[e.cpu], devs[e.cpu + 1])
  }

  /** No instruction of p was executed by the same CPU in the same slot as one of q. */
  ghost predicate Apart(p: Process, q: Process) {
    forall k, m :: 0 <= k < |p.trace| && 0 <= m < |q.trace| && p.trace[k].cpu == q.trace[m].cpu
      ==> p.trace[k].slot != q.trace[m].slot
  }

  ghost predicate SlotsInv(s: State)
    requires |s.b.devs| == |s.cpus| + 1
  {
    && (forall p :: 0 <= p < |s.procs| ==> Past(s.procs[p], s.cpus, s.b.devs))
    && (forall p, q :: 0 <= p < |s.procs| && 0 <= q < |s.procs| && p != q ==> Apart(s.procs[p], s.procs[q]))
  }

  lemma CpuDueNeverFalls(u: Cpu, d: B.Device, p: Process, pick: Option<nat>, done: bool, timeSlot: int)
    ensures Due(u, d) <= Due(CpuAfter(u, p, pick, done, timeSlot), DeviceAfter(u, d))
  {
  }

  lemma BarrierDue(s: State, l: B.Label, c: nat)
    requires BS.Inv(s.b) && |s.b.devs| == |s.cpus| + 1 && Enabled(s, Barrier(l)) && c < |s.cpus|
    ensures
      var s' := Apply(s, Barrier(l));
      && |s'.b.devs| == |s.b.devs| && s'.cpus == s.cpus
      && Due(s.cpus[c], s.b.devs[c + 1]) <= Due(s'.cpus[c], s'.b.devs[c + 1])
  {
    BarrierStepSeen(s.b, l, c + 1);
  }

  lemma CpuDue(s: State, e: nat, pick: Option<nat>, c: nat)
    requires BS.Inv(s.b) && |s.b.devs| == |s.cpus| + 1 && CpuEnabled(s, e, pick) && c < |s.cpus|
    ensures
      var s' := CpuNext(s, e, pick);
      && |s'.b.devs| == |s.b.devs| && |s'.cpus| == |s.cpus|
      && Due(s.cpus[c], s.b.devs[c + 1]) <= Due(s'.cpus[c], s'.b.devs[c + 1])
  {
    BarrierAfterSeen(s.cpus[e], s.b, e + 1);
    CpuDueNeverFalls(s.cpus[e], s.b.devs[e + 1], Held(s.cpus[e], s.procs), pick, s.done, s.cfg.timeSlot);
  }

  lemma LoaderDue(s: State, c: nat)
    requires BS.Inv(s.b) && |s.b.devs| == |s.cpus| + 1 && LoaderEnabled(s) && c < |s.cpus|
    ensures
      var s' := LoaderNext(s);
      && |s'.b.devs| == |s.b.devs| && s'.cpus == s.cpus
      && Due(s.cpus[c], s.b.devs[c + 1]) <= Due(s'.cpus[c], s'.b.devs[c + 1])
  {
    LoaderBarrierSeen(s.ld, s.b);
  }

  lemma DueNeverFalls(s: State, l: Label, c: nat)
    requires BS.Inv(s.b) && |s.b.devs| == |s.cpus| + 1 && Enabled(s, l) && c < |s.cpus|
    ensures
      var s' := Apply(s, l);
      && |s'.cpus| == |s.cpus| && |s'.b.devs| == |s.b.devs|
      && Due(s.cpus[c], s.b.devs[c + 1]) <= Due(s'.cpus[c], s'.b.devs[c + 1])
  {
    match l
    case Barrier(bl) => BarrierDue(s, bl, c);
    case CpuStep(e, pick) => CpuDue(s, e, pick, c);
    case LoaderStep => LoaderDue(s, c);
  }

  lemma PastGrows(p: Process, cpus: seq<Cpu>, devs: seq<B.Device>, cpus': seq<Cpu>, devs': seq<B.Device>)
    requires |devs| == |cpus| + 1 == |devs'| && |cpus'| == |cpus|
    requires forall c :: 0 <= c < |cpus| ==> Due(cpus[c], devs[c + 1]) <= Due(cpus'[c], devs'[c + 1])
    requires Past(p, cpus, devs)
    ensures Past(p, cpus', devs')
  {
  }

  lemma SizesStay(s: State, l: Label)
    requires Inv(s) && Enabled(s, l)
    ensures |Apply(s, l).cpus| == |s.cpus| && |Apply(s, l).b.devs| == |Apply(s, l).cpus| + 1
  {
    StepInv(s, l);
  }

  lemma PastStays(p: Process, s: State, l: Label)
    requires Inv(s) && Enabled(s, l) && Past(p, s.cpus, s.b.devs)
    ensures |Apply(s, l).b.devs| == |Apply(s, l).cpus| + 1
    ensures Past(p, Apply(s, l).cpus, Apply(s, l).b.devs)
  {
    var s' := Apply(s, l);
    SizesStay(s, l);
    forall c | 0 <= c < |s.cpus|
      ensures Due(s.cpus[c], s.b.devs[c + 1]) <= Due(s'.cpus[c], s'.b.devs[c + 1])
    {
      DueNeverFalls(s, l, c);
    }
    PastGrows(p, s.cpus, s.b.devs, s'.cpus, s'.b.devs);
  }

  /** What one step does to one process: nothing, or one `run` by a CPU that then owes the slot. */
  lemma ProcStep(s: State, l: Label, p: nat)
    requires Enabled(s, l) && p < |s.procs|
    ensures
      var s' := Apply(s, l);
      && |s'.procs| == |s.procs|
      && (s'.procs[p] == s.procs[p] || Executes(s, l, p))
  {
  }

  /** Step l runs process p. */
  ghost predicate Executes(s: State, l: Label, p: nat) {
    && Enabled(s, l) && l.CpuStep? && p < |s.procs|
    && s.cpus[l.c].pc.Execute? && s.cpus[l.c].proc == Some(p)
    && Apply(s, l).procs == s.procs[p := Run(s.procs[p], l.c, s.b.time)]
  }

  lemma RunStaysApart(p: Process, q: Process, c: nat, slot: nat)
    requires Apart(p, q)
    requires forall m :: 0 <= m < |q.trace| && q.trace[m].cpu == c ==> q.trace[m].slot < slot
    ensures Apart(Run(p, c, slot), q) && Apart(q, Run(p, c, slot))
  {
  }

  lemma PastIsBefore(q: Process, cpus: seq<Cpu>, devs: seq<B.Device>, c: nat)
    requires |devs| == |cpus| + 1 && c < |cpus| && Past(q, cpus, devs)
    ensures forall m :: 0 <= m < |q.trace| && q.trace[m].cpu == c ==> q.trace[m].slot < Due(cpus[c], devs[c + 1])
  {
  }

  /** A CPU that runs a process in this slot had not used the slot before. */
  lemma SlotIsFresh(s: State, c: nat, q: Process)
    requires BS.Inv(s.b) && |s.b.devs| == |s.cpus| + 1 && c < |s.cpus| && Past(q, s.cpus, s.b.devs)
    requires s.b.devs[c + 1].pc.Running? && s.cpus[c].pc.Execute?
    ensures forall m :: 0 <= m < |q.trace| && q.trace[m].cpu == c ==> q.trace[m].slot < s.b.time
  {
    RunningReadsClock(s.b, c + 1);
    PastIsBefore(q, s.cpus, s.b.devs, c);
  }

  lemma ExecuterIsFresh(s: State, l: Label, p: nat, q: nat)
    requires Inv(s) && SlotsInv(s) && Executes(s, l, p) && q < |s.procs|
    ensures forall m :: 0 <= m < |s.procs[q].trace| && s.procs[q].trace[m].cpu == l.c
              ==> s.procs[q].trace[m].slot < s.b.time
  {
    assert Past(s.procs[q], s.cpus, s.b.devs);
    SlotIsFresh(s, l.c, s.procs[q]);
  }

  lemma RunIsPast(p: Process, c: nat, slot: nat, cpus: seq<Cpu>, devs: seq<B.Device>)
    requires |devs| == |cpus| + 1 && c < |cpus| && slot < Due(cpus[c], devs[c + 1]) && Past(p, cpus, devs)
    ensures Past(Run(p, c, slot), cpus, devs)
  {
  }

  /** A CPU that has run a process owes the slot. */
  lemma ExecutedOwes(s: State, l: Label, p: nat)
    requires Inv(s) && Executes(s, l, p)
    ensures
      var s' := Apply(s, l);
      |s'.cpus| == |s.cpus| && |s'.b.devs| == |s.b.devs| && s.b.time < Due(s'.cpus[l.c], s'.b.devs[l.c + 1])
  {
    RunningReadsClock(s.b, l.c + 1);
  }

  lemma ExecutedIsPast(s: State, l: Label, p: nat)
    requires Inv(s) && SlotsInv(s) && Executes(s, l, p)
    ensures |Apply(s, l).b.devs| == |Apply(s, l).cpus| + 1
    ensures Past(Apply(s, l).procs[p], Apply(s, l).cpus, Apply(s, l).b.devs)
  {
    PastStays(s.procs[p], s, l);
    ExecutedOwes(s, l, p);
    RunIsPast(s.procs[p], l.c, s.b.time, Apply(s, l).cpus, Apply(s, l).b.devs);
  }

  lemma ApartStep(s: State, l: Label, p: nat, q: nat)
    requires Inv(s) && SlotsInv(s) && Enabled(s, l)
    requires p < |s.procs| && q < |s.procs| && p != q && |Apply(s, l).procs| == |s.procs|
    ensures Apart(Apply(s, l).procs[p], Apply(s, l).procs[q])
  {
    ProcStep(s, l, p);
    ProcStep(s, l, q);
    assert Apart(s.procs[p], s.procs[q]) && Apart(s.procs[q], s.procs[p]);
    if Executes(s, l, p) {
      ExecuterIsFresh(s, l, p, q);
      RunStaysApart(s.procs[p], s.procs[q], l.c, s.b.time);
    } else if Executes(s, l, q) {
      ExecuterIsFresh(s, l, q, p);
      RunStaysApart(s.procs[q], s.procs[p], l.c, s.b.time);
    }
  }

  lemma PastStep(s: State, l: Label, p: nat)
    requires Inv(s) && SlotsInv(s) && Enabled(s, l)
    requires p < |s.procs| && |Apply(s, l).procs| == |s.procs| && |Apply(s, l).b.devs| == |Apply(s, l).cpus| + 1
    ensures Past(Apply(s, l).procs[p], Apply(s, l).cpus, Apply(s, l).b.devs)
  {
    ProcStep(s, l, p);
    assert Past(s.procs[p], s.cpus, s.b.devs);
    if Executes(s, l, p) { ExecutedIsPast(s, l, p); } else { PastStays(s.procs[p], s, l); }
  }

  lemma ProcsStay(s: State, l: Label)
    requires Enabled(s, l)
    ensures |Apply(s, l).procs| == |s.procs|
  {
  }

  lemma SlotsStep(s: State, l: Label)
    requires Inv(s) && SlotsInv(s) && Enabled(s, l)
    ensures |Apply(s, l).b.devs| == |Apply(s, l).cpus| + 1 && SlotsInv(Apply(s, l))
  {
    var s' := Apply(s, l);
    SizesStay(s, l);
    ProcsStay(s, l);
    forall p | 0 <= p < |s'.procs| ensures Past(s'.procs[p], s'.cpus, s'.b.devs) {
      PastStep(s, l, p);
    }
    forall p, q | 0 <= p < |s'.procs| && 0 <= q < |s'.procs| && p != q ensures Apart(s'.procs[p], s'.procs[q]) {
      ApartStep(s, l, p, q);
    }
  }

  ghost predicate SlotsAt(s: State) {
    |s.b.devs| == |s.cpus| + 1 && SlotsInv(s)
  }

  lemma SlotsRunStep(ss: seq<State>, ls: seq<Label>, n: nat)
    requires IsRun(ss, ls) && n < |ls| && SlotsAt(ss[n])
    ensures SlotsAt(ss[n + 1])
  {
    RunInv(ss, ls, n);
    SlotsStep(ss[n], ls[n]);
  }

  lemma SlotsInit(s: State)
    requires Init(s)
    ensures SlotsAt(s)
  {
  }

  lemma SlotsRun(ss: seq<State>, ls: seq<Label>, n: nat)
    requires IsRun(ss, ls) && n < |ss|
    ensures SlotsAt(ss[n])
  {
    ghost var holds := seq(|ss|, i requires 0 <= i < |ss| => SlotsAt(ss[i]));
    SlotsInit(ss[0]);
    forall i | 0 <= i < n && holds[i] ensures holds[i + 1] {
      SlotsRunStep(ss, ls, i);
    }
    T.Carry(holds, 0, n);
  }

  /** A CPU executes at most one instruction in a slot, whichever processes it runs. */
  lemma OneInstructionPerCpuAndSlot(ss: seq<State>, ls: seq<Label>, n: nat, p: nat, k: nat, q: nat, m: nat)
    requires IsRun(ss, ls) && n < |ss|
    requires p < |ss[n].procs| && k < |ss[n].procs[p].trace| && q < |ss[n].procs| && m < |ss[n].procs[q].trace|
    requires ss[n].procs[p].trace[k].cpu == ss[n].procs[q].trace[m].cpu
    requires ss[n].procs[p].trace[k].slot == ss[n].procs[q].trace[m].slot
    ensures p == q && k == m
  {
    var x, y := ss[n].procs[p], ss[n].procs[q];
    RunInv(ss, ls, n);
    SlotsRun(ss, ls, n);
    assert ProcInv(x, ss[n].cfg.sizes[p]);
    assert p != q ==> Apart(x, y);
  }

  // -------------------------------------------------------------- time slices

  /** Whenever a CPU puts a process back, it has run it for exactly time_slot calls of `run`,
      in time_slot consecutive slots ending with the one just over. */
  lemma PutBackAfterFullSlice(ss: seq<State>, ls: seq<Label>, n: nat, c: nat)
    requires IsRun(ss, ls) && n < |ss| && CpuEnabled(ss[n], c, None)
    requires PutsBack(ss[n].cpus[c], Held(ss[n].cpus[c], ss[n].procs))
    ensures
      var s := ss[n];
      var p := Held(s.cpus[c], s.procs);
      var slot := s.cfg.timeSlot;
      && slot >= 1 && s.cpus[c].burst == slot <= |p.trace| && slot <= s.b.time
      && |p.trace| == p.pc
      && forall k :: p.pc - slot <= k < p.pc ==> p.trace[k] == Exec(k, c, s.b.time - p.pc + k)
  {
    RunInv(ss, ls, n);
    var s := ss[n];
    assert CpuAt(s, c);
    var v := s.cpus[c].proc.value;
    assert ProcInv(s.procs[v], s.cfg.sizes[v]);
    RunningReadsClock(s.b, c + 1);
  }

  /** With a positive time_slot, time_left stays within 0..time_slot and a dispatched process
      never runs more than time_slot times before it is put back or finishes. */
  lemma SliceNeverExceeded(ss: seq<State>, ls: seq<Label>, n: nat, c: nat)
    requires IsRun(ss, ls) && n < |ss| && c < |ss[n].cpus| && ss[n].cfg.timeSlot >= 1
    ensures
      var u := ss[n].cpus[c];
      && 0 <= u.timeLeft <= ss[n].cfg.timeSlot
      && (InSlice(u) ==> u.burst <= ss[n].cfg.timeSlot)
  {
    RunInv(ss, ls, n);
    assert CpuAt(ss[n], c);
  }

  /** Preemption happens only if time_slot is at least one: the configuration is not checked,
      and with time_slot <= 0 a dispatched process runs to its end. */
  lemma NoPreemptionWithoutSlice(ss: seq<State>, ls: seq<Label>, n: nat, c: nat)
    requires IsRun(ss, ls) && n < |ss| && CpuEnabled(ss[n], c, None) && ss[n].cfg.timeSlot < 1
    ensures !PutsBack(ss[n].cpus[c], Held(ss[n].cpus[c], ss[n].procs))
  {
    if PutsBack(ss[n].cpus[c], Held(ss[n].cpus[c], ss[n].procs)) {
      PutBackAfterFullSlice(ss, ls, n, c);
    }
  }

  /** Every loop iteration that does not leave the loop enters next_slot exactly once. */
  lemma OneNextSlotPerIteration(ss: seq<State>, ls: seq<Label>, n: nat, c: nat)
    requires IsRun(ss, ls) && n < |ss| && c < |ss[n].cpus|
    ensures |ss[n].b.devs| == |ss[n].cpus| + 1
    ensures ss[n].cpus[c].loops == ss[n].b.devs[c + 1].calls + (if ss[n].cpus[c].pc.AtHead? then 0 else 1)
  {
    RunInv(ss, ls, n);
    assert CpuAt(ss[n], c);
  }

  // ---------------------------------------------------------------- admission

  /** Process i is added when the clock shows max(start_i, time of its predecessor + 1),
      process 0 when it shows start_0, whatever the interleaving. */
  lemma AdmissionTimesAreExact(ss: seq<State>, ls: seq<Label>, n: nat, i: nat)
    requires IsRun(ss, ls) && n < |ss| && i < |ss[n].ld.admitted|
    ensures |ss[n].ld.admitted| <= |ss[n].cfg.start|
    ensures ss[n].ld.admitted[i] == AdmissionTime(ss[n].cfg.start, i)
    ensures i == 0 ==> ss[n].ld.admitted[i] == ss[n].cfg.start[0]
    ensures i > 0 ==>
      var earliest := ss[n].ld.admitted[i - 1] + 1;
      ss[n].ld.admitted[i] == if ss[n].cfg.start[i] <= earliest then earliest else ss[n].cfg.start[i]
  {
    RunInv(ss, ls, n);
  }
}
