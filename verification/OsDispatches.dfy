/** How often processes are dispatched, and what follows for the end of the simulation: a CPU
    stops only after it has been dispatched, so with more CPUs than dispatches `main` never returns. */
module OsDispatches {
  import opened Options
  import B = Barrier
  import T = Telescopes
  import opened Os
  import opened OsSafety
  import opened OsShutdown

  /** The slices of timeSlot instructions that k instructions take. */
  function Slices(k: int, timeSlot: int): nat
    decreases if k > 0 then k else 0
  {
    if k <= 0 then 0 else if timeSlot < 1 then 1 else 1 + Slices(k - timeSlot, timeSlot)
  }

  /** That is the quotient rounded up. */
  lemma {:induction false} SlicesRoundUp(k: int, timeSlot: int)
    requires k > 0 && timeSlot >= 1
    ensures (Slices(k, timeSlot) - 1) * timeSlot < k <= Slices(k, timeSlot) * timeSlot
    decreases k
  {
    if k > timeSlot {
      SlicesRoundUp(k - timeSlot, timeSlot);
      var n := Slices(k - timeSlot, timeSlot);
      assert (n + 1) * timeSlot == n * timeSlot + timeSlot;
    } else {
      assert Slices(k - timeSlot, timeSlot) == 0;
    }
  }

  /** How often a process is dispatched at most: once if it has no instructions or if slices are
      not limited, else once a slice. */
  function Dispatchable(size: nat, timeSlot: int): nat {
    if size == 0 then 1 else Slices(size, timeSlot)
  }

  function Sum(ns: seq<nat>): nat {
    if ns == [] then 0 else Sum(ns[..|ns| - 1]) + ns[|ns| - 1]
  }

  /** The dispatches that a configuration has work for. */
  function DispatchBound(sizes: seq<nat>, timeSlot: int): nat {
    if sizes == [] then 0
    else DispatchBound(sizes[..|sizes| - 1], timeSlot) + Dispatchable(sizes[|sizes| - 1], timeSlot)
  }

  function CpuDispatches(cpus: seq<Cpu>): nat {
    if cpus == [] then 0 else CpuDispatches(cpus[..|cpus| - 1]) + cpus[|cpus| - 1].dispatches
  }

  // ------------------------------------------------------------- one process

  /** Dispatched d times so far and waiting for the next: the rest takes the dispatches left. */
  predicate Waiting(p: Process, d: nat, timeSlot: int) {
    if p.size == 0 then d == 0 else d + Slices(p.size - p.pc, timeSlot) <= Slices(p.size, timeSlot)
  }

  /** Dispatched d times, the last one burst instructions ago: what remains after this slice
      takes the dispatches left. */
  predicate Sliced(p: Process, d: nat, burst: nat, timeSlot: int) {
    if p.size == 0 then d <= 1
    else
      d + (if timeSlot >= 1 then Slices(p.size - p.pc + burst - timeSlot, timeSlot) else 0) <= Slices(p.size, timeSlot)
  }

  lemma DispatchStarts(p: Process, d: nat, timeSlot: int)
    requires Waiting(p, d, timeSlot) && Runnable(p)
    ensures Sliced(p, d + 1, 0, timeSlot)
  {
  }

  lemma RunKeepsSlice(p: Process, d: nat, burst: nat, timeSlot: int, cpu: nat, slot: nat)
    requires Sliced(p, d, burst, timeSlot) && Runnable(p)
    ensures Sliced(Run(p, cpu, slot), d, burst + 1, timeSlot)
  {
  }

  lemma SliceEnds(p: Process, d: nat, burst: nat, timeSlot: int)
    requires Sliced(p, d, burst, timeSlot) && burst == timeSlot >= 1 && p.size > 0
    ensures Waiting(p, d, timeSlot)
  {
  }

  lemma SoFarBounded(p: Process, d: nat, burst: nat, timeSlot: int)
    requires Waiting(p, d, timeSlot) || Sliced(p, d, burst, timeSlot)
    ensures d <= Dispatchable(p.size, timeSlot)
  {
  }

  // --------------------------------------------------------------- one CPU

  /** What a CPU knows of the dispatches of the process p it holds, d of them so far. */
  predicate HeldInv(u: Cpu, p: Process, d: nat, timeSlot: int) {
    u.proc.Some? ==> if InSlice(u) then Sliced(p, d, u.burst, timeSlot) else Waiting(p, d, timeSlot)
  }

  /** A CPU that keeps its process. */
  lemma KeepsHeldInv(timeSlot: int, c: nat, u: Cpu, dev: B.Device, p: Process, d: nat, pick: Option<nat>,
      done: bool, time: nat)
    requires CpuInv(timeSlot, c, u, dev, p, done) && HeldInv(u, p, d, timeSlot) && u.proc.Some?
    ensures
      var u' := CpuAfter(u, p, pick, done, timeSlot);
      u'.proc == u.proc ==>
        HeldInv(u', ProcAfter(u, p, c, time), d + (if Dispatches(u) then 1 else 0), timeSlot)
  {
    if Dispatches(u) {
      DispatchStarts(p, d, timeSlot);
    } else if u.pc.Execute? {
      RunKeepsSlice(p, d, u.burst, timeSlot, c, time);
    }
  }

  /** A process put back waits for its next dispatch. */
  lemma PutBackWaits(timeSlot: int, c: nat, u: Cpu, dev: B.Device, p: Process, d: nat, done: bool)
    requires CpuInv(timeSlot, c, u, dev, p, done) && HeldInv(u, p, d, timeSlot) && PutsBack(u, p)
    requires p.pc <= p.size
    ensures Waiting(p, d, timeSlot)
  {
    SliceEnds(p, d, u.burst, timeSlot);
  }

  // ---------------------------------------------------------- the whole system

  ghost predicate Known(s: State) {
    |s.dispatched| == |s.procs| == |s.cfg.sizes|
  }

  /** Processes that are ready or still to be admitted wait for a dispatch. */
  ghost predicate WaitingInv(s: State)
    requires Known(s)
  {
    forall p: nat :: p < |s.procs| && (p in s.ready || |s.ld.admitted| <= p)
      ==> Waiting(s.procs[p], s.dispatched[p], s.cfg.timeSlot)
  }

  ghost predicate HeldAt(s: State, c: nat)
    requires Known(s) && c < |s.cpus|
  {
    var u := s.cpus[c];
    u.proc.Some? && u.proc.value < |s.procs| ==>
      HeldInv(u, s.procs[u.proc.value], s.dispatched[u.proc.value], s.cfg.timeSlot)
  }

  ghost predicate BoundedAt(s: State, p: nat)
    requires Known(s) && p < |s.procs|
  {
    s.dispatched[p] <= Dispatchable(s.cfg.sizes[p], s.cfg.timeSlot)
  }

  ghost predicate DispatchInv(s: State) {
    && Known(s)
    && WaitingInv(s)
    && (forall c :: 0 <= c < |s.cpus| ==> HeldAt(s, c))
    && (forall p :: 0 <= p < |s.procs| ==> BoundedAt(s, p))
    && CpuDispatches(s.cpus) == Sum(s.dispatched)
  }

  lemma {:induction false} SumUpdate(ns: seq<nat>, i: nat, n: nat)
    requires i < |ns|
    ensures Sum(ns[i := n]) + ns[i] == Sum(ns) + n
  {
    var last := |ns| - 1;
    if i == last {
      assert ns[i := n][..last] == ns[..last];
    } else {
      assert ns[i := n][..last] == ns[..last][i := n];
      SumUpdate(ns[..last], i, n);
    }
  }

  lemma {:induction false} CpuDispatchesUpdate(cpus: seq<Cpu>, c: nat, u: Cpu)
    requires c < |cpus|
    ensures CpuDispatches(cpus[c := u]) + cpus[c].dispatches == CpuDispatches(cpus) + u.dispatches
  {
    var last := |cpus| - 1;
    if c == last {
      assert cpus[c := u][..last] == cpus[..last];
    } else {
      assert cpus[c := u][..last] == cpus[..last][c := u];
      CpuDispatchesUpdate(cpus[..last], c, u);
    }
  }

  lemma {:induction false} SumOfZeros(ns: seq<nat>)
    requires forall i :: 0 <= i < |ns| ==> ns[i] == 0
    ensures Sum(ns) == 0
  {
    if ns != [] { SumOfZeros(ns[..|ns| - 1]); }
  }

  lemma {:induction false} NoDispatches(cpus: seq<Cpu>)
    requires forall c :: 0 <= c < |cpus| ==> cpus[c].dispatches == 0
    ensures CpuDispatches(cpus) == 0
  {
    if cpus != [] { NoDispatches(cpus[..|cpus| - 1]); }
  }

  lemma DispatchInit(s: State)
    requires Init(s)
    ensures DispatchInv(s)
  {
    SumOfZeros(s.dispatched);
    NoDispatches(s.cpus);
  }

  /** What a CPU's step does to the processes and their dispatches. */
  lemma TablesAfter(s: State, c: nat, pick: Option<nat>, p: nat)
    requires Known(s) && CpuEnabled(s, c, pick) && p < |s.procs|
    ensures
      var u, s' := s.cpus[c], CpuNext(s, c, pick);
      && Known(s')
      && (u.proc != Some(p) ==> s'.procs[p] == s.procs[p] && s'.dispatched[p] == s.dispatched[p])
      && (u.proc == Some(p) ==>
            && s'.procs[p] == ProcAfter(u, s.procs[p], c, s.b.time)
            && s'.dispatched[p] == s.dispatched[p] + (if Dispatches(u) then 1 else 0))
  {
  }

  lemma OthersKeepHeld(s: State, c: nat, pick: Option<nat>, e: nat)
    requires Inv(s) && DispatchInv(s) && CpuEnabled(s, c, pick) && e < |s.cpus| && e != c
    requires Known(CpuNext(s, c, pick))
    ensures HeldAt(CpuNext(s, c, pick), e)
  {
    assert HeldAt(s, e) && CpuAt(s, e);
    if s.cpus[e].proc.Some? {
      TablesAfter(s, c, pick, s.cpus[e].proc.value);
      HeldAlone(s, e);
    }
  }

  lemma OwnHeld(s: State, c: nat, pick: Option<nat>)
    requires Inv(s) && DispatchInv(s) && CpuEnabled(s, c, pick)
    requires Known(CpuNext(s, c, pick))
    ensures HeldAt(CpuNext(s, c, pick), c)
  {
    if pick.Some? {
      PickedWaits(s, c, pick.value);
      TablesAfter(s, c, pick, pick.value);
      CpuStepKeeps(s, c, pick);
    } else {
      assert CpuAt(s, c) && HeldAt(s, c);
      KeptHeld(s, c);
    }
  }

  lemma KeptHeld(s: State, c: nat)
    requires Known(s) && CpuEnabled(s, c, None) && |s.b.devs| == |s.cpus| + 1 && CpuAt(s, c) && HeldAt(s, c)
    requires Known(CpuNext(s, c, None))
    ensures HeldAt(CpuNext(s, c, None), c)
  {
    var u, s' := s.cpus[c], CpuNext(s, c, None);
    CpuStepKeeps(s, c, None);
    if s'.cpus[c].proc.Some? && u.proc.Some? {
      var v := u.proc.value;
      TablesAfter(s, c, None, v);
      KeepsHeldInv(s.cfg.timeSlot, c, u, s.b.devs[c + 1], s.procs[v], s.dispatched[v], None, s.done, s.b.time);
    }
  }

  /** A process just fetched waits for its dispatch. */
  lemma PickedWaits(s: State, c: nat, v: nat)
    requires Inv(s) && DispatchInv(s) && CpuEnabled(s, c, Some(v))
    ensures v < |s.procs| && s.cpus[c].proc != Some(v) && Waiting(s.procs[v], s.dispatched[v], s.cfg.timeSlot)
    ensures !InSlice(CpuNext(s, c, Some(v)).cpus[c])
  {
    assert CpuAt(s, c);
  }

  lemma WaitingAfterStep(s: State, c: nat, pick: Option<nat>, p: nat)
    requires Inv(s) && DispatchInv(s) && CpuEnabled(s, c, pick) && p < |s.procs|
    requires Known(CpuNext(s, c, pick)) && (p in CpuNext(s, c, pick).ready || |s.ld.admitted| <= p)
    ensures Waiting(CpuNext(s, c, pick).procs[p], CpuNext(s, c, pick).dispatched[p], s.cfg.timeSlot)
  {
    var u := s.cpus[c];
    TablesAfter(s, c, pick, p);
    assert CpuAt(s, c) && HeldAt(s, c);
    CountsAfter(s, c, pick, p);
    if u.proc == Some(p) {
      HeldAlone(s, c);
      assert Placed(s, p);
      HolderCounts(s.cpus, c, p);
      assert ProcInv(s.procs[p], s.cfg.sizes[p]);
      PutBackWaits(s.cfg.timeSlot, c, u, s.b.devs[c + 1], s.procs[p], s.dispatched[p], s.done);
    }
  }

  lemma BoundedAfterStep(s: State, c: nat, pick: Option<nat>, p: nat)
    requires Inv(s) && DispatchInv(s) && CpuEnabled(s, c, pick) && p < |s.procs|
    requires Known(CpuNext(s, c, pick))
    ensures BoundedAt(CpuNext(s, c, pick), p)
  {
    var u := s.cpus[c];
    TablesAfter(s, c, pick, p);
    assert BoundedAt(s, p);
    if u.proc == Some(p) && Dispatches(u) {
      assert CpuAt(s, c) && HeldAt(s, c);
      DispatchStarts(s.procs[p], s.dispatched[p], s.cfg.timeSlot);
      assert ProcInv(s.procs[p], s.cfg.sizes[p]);
      SoFarBounded(s.procs[p], s.dispatched[p] + 1, 0, s.cfg.timeSlot);
    }
  }

  lemma DispatchCounted(u: Cpu, p: Process, pick: Option<nat>, done: bool, timeSlot: int)
    ensures CpuAfter(u, p, pick, done, timeSlot).dispatches == u.dispatches + (if Dispatches(u) then 1 else 0)
  {
  }

  lemma SumsAfterStep(s: State, c: nat, pick: Option<nat>)
    requires CpuEnabled(s, c, pick) && CpuDispatches(s.cpus) == Sum(s.dispatched)
    requires Dispatches(s.cpus[c]) ==> s.cpus[c].proc.value < |s.dispatched|
    ensures CpuDispatches(CpuNext(s, c, pick).cpus) == Sum(CpuNext(s, c, pick).dispatched)
  {
    var u := s.cpus[c];
    CpuStepKeeps(s, c, pick);
    DispatchCounted(u, Held(u, s.procs), pick, s.done, s.cfg.timeSlot);
    CpuDispatchesUpdate(s.cpus, c, CpuAfter(u, Held(u, s.procs), pick, s.done, s.cfg.timeSlot));
    if Dispatches(u) {
      SumUpdate(s.dispatched, u.proc.value, s.dispatched[u.proc.value] + 1);
    }
  }

  lemma CpuDispatchStep(s: State, c: nat, pick: Option<nat>)
    requires Inv(s) && DispatchInv(s) && CpuEnabled(s, c, pick)
    ensures DispatchInv(CpuNext(s, c, pick))
  {
    var s' := CpuNext(s, c, pick);
    assert Known(s');
    forall p: nat | p < |s'.procs| && (p in s'.ready || |s'.ld.admitted| <= p)
      ensures Waiting(s'.procs[p], s'.dispatched[p], s'.cfg.timeSlot)
    {
      WaitingAfterStep(s, c, pick, p);
    }
    forall e | 0 <= e < |s'.cpus| ensures HeldAt(s', e) {
      if e == c { OwnHeld(s, c, pick); } else { OthersKeepHeld(s, c, pick, e); }
    }
    forall p | 0 <= p < |s'.procs| ensures BoundedAt(s', p) {
      BoundedAfterStep(s, c, pick, p);
    }
    PickExists(s, c, pick);
    SumsAfterStep(s, c, pick);
  }

  lemma QuietStep(s: State, s': State)
    requires DispatchInv(s) && s'.cpus == s.cpus && s'.procs == s.procs
    requires s'.dispatched == s.dispatched && s'.cfg == s.cfg
    requires forall p: nat :: p in s'.ready || |s'.ld.admitted| <= p ==> p in s.ready || |s.ld.admitted| <= p
    ensures DispatchInv(s')
  {
    forall c | 0 <= c < |s'.cpus| ensures HeldAt(s', c) {
      assert HeldAt(s, c);
    }
    forall p | 0 <= p < |s'.procs| ensures BoundedAt(s', p) {
      assert BoundedAt(s, p);
    }
  }

  /** A process the loader adds was waiting already. */
  lemma LoaderDispatchStep(s: State)
    requires Inv(s) && DispatchInv(s) && LoaderEnabled(s)
    ensures DispatchInv(LoaderNext(s))
  {
    var s' := LoaderNext(s);
    assert s'.procs == s.procs && s'.dispatched == s.dispatched;
    QuietStep(s, s');
  }

  lemma BarrierDispatchStep(s: State, l: B.Label)
    requires DispatchInv(s) && Enabled(s, Barrier(l))
    ensures DispatchInv(Apply(s, Barrier(l)))
  {
    QuietStep(s, Apply(s, Barrier(l)));
  }

  lemma DispatchStep(s: State, l: Label)
    requires Inv(s) && DispatchInv(s) && Enabled(s, l)
    ensures DispatchInv(Apply(s, l))
  {
    match l
    case Barrier(bl) => BarrierDispatchStep(s, bl);
    case CpuStep(c, pick) => CpuDispatchStep(s, c, pick);
    case LoaderStep => LoaderDispatchStep(s);
  }

  lemma DispatchRunStep(ss: seq<State>, ls: seq<Label>, n: nat)
    requires IsRun(ss, ls) && n < |ls| && DispatchInv(ss[n])
    ensures DispatchInv(ss[n + 1])
  {
    RunInv(ss, ls, n);
    DispatchStep(ss[n], ls[n]);
  }

  lemma DispatchRun(ss: seq<State>, ls: seq<Label>, n: nat)
    requires IsRun(ss, ls) && n < |ss|
    ensures DispatchInv(ss[n])
  {
    ghost var holds := seq(|ss|, i requires 0 <= i < |ss| => DispatchInv(ss[i]));
    DispatchInit(ss[0]);
    forall i | 0 <= i < n && holds[i] ensures holds[i + 1] {
      DispatchRunStep(ss, ls, i);
    }
    T.Carry(holds, 0, n);
  }

  /** A process is dispatched at most once for every slice its instructions take. */
  lemma DispatchedOncePerSlice(ss: seq<State>, ls: seq<Label>, n: nat, p: nat)
    requires IsRun(ss, ls) && n < |ss| && p < |ss[n].dispatched|
    ensures p < |ss[n].cfg.sizes|
    ensures ss[n].dispatched[p] <= Dispatchable(ss[n].cfg.sizes[p], ss[n].cfg.timeSlot)
  {
    DispatchRun(ss, ls, n);
    assert BoundedAt(ss[n], p);
  }

  // --------------------------------------------------- too many CPUs for the work

  lemma {:induction false} SumBounded(ns: seq<nat>, sizes: seq<nat>, timeSlot: int)
    requires |ns| == |sizes|
    requires forall p :: 0 <= p < |ns| ==> ns[p] <= Dispatchable(sizes[p], timeSlot)
    ensures Sum(ns) <= DispatchBound(sizes, timeSlot)
  {
    if ns != [] {
      SumBounded(ns[..|ns| - 1], sizes[..|sizes| - 1], timeSlot);
    }
  }

  lemma {:induction false} EachDispatched(cpus: seq<Cpu>)
    requires forall c :: 0 <= c < |cpus| ==> cpus[c].dispatches > 0
    ensures |cpus| <= CpuDispatches(cpus)
  {
    if cpus != [] {
      EachDispatched(cpus[..|cpus| - 1]);
    }
  }

  lemma StoppedAllDispatched(s: State)
    requires Inv(s) && !s.b.main.JoinDevices?
    ensures forall c :: 0 <= c < |s.cpus| ==> s.cpus[c].dispatches > 0
  {
    JoinedMeansStopped(s);
    forall c | 0 <= c < |s.cpus| ensures s.cpus[c].dispatches > 0 {
      assert CpuAt(s, c);
    }
  }

  /** With more CPUs than there are slices of work, one for a process without instructions,
      main never returns, in any run: some CPU is never dispatched and so never stops. */
  lemma TooManyCpusNeverEnd(ss: seq<State>, ls: seq<Label>, n: nat)
    requires IsRun(ss, ls) && n < |ss|
    requires ss[0].cfg.cpus > DispatchBound(ss[0].cfg.sizes, ss[0].cfg.timeSlot)
    ensures ss[n].b.main == B.JoinDevices
  {
    var s := ss[n];
    CfgStays(ss, ls, n);
    RunInv(ss, ls, n);
    DispatchRun(ss, ls, n);
    forall p | 0 <= p < |s.dispatched| ensures s.dispatched[p] <= Dispatchable(s.cfg.sizes[p], s.cfg.timeSlot) {
      assert BoundedAt(s, p);
    }
    SumBounded(s.dispatched, s.cfg.sizes, s.cfg.timeSlot);
    if !s.b.main.JoinDevices? {
      StoppedAllDispatched(s);
      EachDispatched(s.cpus);
    }
  }
}
