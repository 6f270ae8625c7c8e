/** Physical memory as independent pages: the specification that src/mm-memphy.c and the page
    copy of src/mm64.c are proved against in FrameDevice.dfy.

    A device is seen as a free list of frames, the set of frames its users hold, and one page
    of bytes per frame. */
module Frames {
  import opened Options

  type byte = bv8
  type Page = seq<byte>

  const PAGE_SIZE: nat := 256   // PAGING_PAGESZ

  // `held` is a history: the frames handed out and not given back.
  datatype Device = Device(free: seq<nat>, held: set<nat>, pages: seq<Page>)

  /** Every frame is on the free list or held, once and not both. */
  ghost predicate Partition(d: Device) {
    forall f: nat :: multiset(d.free)[f] + (if f in d.held then 1 else 0) == if f < |d.pages| then 1 else 0
  }

  // -------------------------------------------------------------- formatting

  function Counting(n: nat): seq<nat> {
    seq(n, i => i)
  }

  /** A device just formatted: all its frames free, in order. */
  function Formatted(pages: seq<Page>): Device {
    Device(Counting(|pages|), {}, pages)
  }

  lemma {:induction false} CountingCounts(n: nat, f: nat)
    ensures multiset(Counting(n))[f] == if f < n then 1 else 0
  {
    if n > 0 {
      CountingCounts(n - 1, f);
      assert Counting(n) == Counting(n - 1) + [n - 1];
    }
  }

  /** Formatting partitions the frames: all free, each once, none held. */
  lemma FormattedPartition(pages: seq<Page>)
    ensures Partition(Formatted(pages))
  {
    forall f: nat ensures multiset(Counting(|pages|))[f] == if f < |pages| then 1 else 0 {
      CountingCounts(|pages|, f);
    }
  }

  // ------------------------------------------------------------- operations

  function Get(d: Device): (Option<nat>, Device) {
    if d.free == [] then (None, d)
    else (Some(d.free[0]), d.(free := d.free[1..], held := d.held + {d.free[0]}))
  }

  function Put(d: Device, f: nat): Device {
    d.(free := [f] + d.free, held := d.held - {f})
  }

  function Fill(d: Device, f: nat, page: Page): Device
    requires f < |d.pages|
  {
    d.(pages := d.pages[f := page])
  }

  lemma GetKeepsPartition(d: Device)
    requires Partition(d)
    ensures Partition(Get(d).1)
    ensures Get(d).0.Some? ==> Get(d).0.value !in d.held && Get(d).0.value < |d.pages|
  {
    if d.free != [] {
      assert d.free == [d.free[0]] + d.free[1..];
      assert multiset(d.free)[d.free[0]] >= 1;
    }
  }

  /** Giving a frame back keeps the partition exactly when it is a frame that is held:
      MEMPHY_put_freefp does not look, and anything else puts a frame on the list twice
      or one that does not exist. */
  lemma PutKeepsPartitionIff(d: Device, f: nat)
    requires Partition(d)
    ensures Partition(Put(d, f)) <==> f in d.held
  {
    var d' := Put(d, f);
    assert multiset(d'.free)[f] == multiset(d.free)[f] + 1;
    if f in d.held {
      forall g: nat
        ensures multiset(d'.free)[g] + (if g in d'.held then 1 else 0) == if g < |d'.pages| then 1 else 0
      {
        assert multiset(d.free)[g] + (if g in d.held then 1 else 0) == if g < |d.pages| then 1 else 0;
      }
    } else {
      assert multiset(d.free)[f] == if f < |d.pages| then 1 else 0;
      assert multiset(d'.free)[f] + (if f in d'.held then 1 else 0) != if f < |d'.pages| then 1 else 0;
    }
  }

  /** get fails exactly when all frames are held. */
  lemma GetFailsIffAllHeld(d: Device)
    requires Partition(d)
    ensures Get(d).0.None? <==> forall f :: 0 <= f < |d.pages| ==> f in d.held
  {
    if d.free != [] {
      var f := d.free[0];
      assert multiset(d.free)[f] >= 1;
      assert f < |d.pages| && f !in d.held;
    } else {
      forall f | 0 <= f < |d.pages| ensures f in d.held {
        assert multiset(d.free)[f] == 0;
      }
    }
  }

  /** Giving a held frame back and getting one again returns that very frame and restores the
      device: the list is a stack. */
  lemma PutThenGet(d: Device, f: nat)
    ensures Get(Put(d, f)).0 == Some(f) && Get(Put(d, f)).1.free == d.free
    ensures f in d.held ==> Get(Put(d, f)).1 == d
  {
    assert f in d.held ==> d.held - {f} + {f} == d.held;
  }

  /** Getting a frame and giving it back restores the device. */
  lemma GetThenPut(d: Device)
    requires Partition(d) && d.free != []
    ensures Put(Get(d).1, Get(d).0.value) == d
  {
    GetKeepsPartition(d);
    assert d.held + {d.free[0]} - {d.free[0]} == d.held;
  }

  // --------------------------------------------- runs over a RAM and a swap device

  // swp selects the device: the RAM or the swap.
  datatype System = System(ram: Device, swp: Device)

  datatype Op =
    | DoGet(swp: bool)
    | DoPut(swp: bool, f: nat)
    | DoCopy(fromSwp: bool, src: nat, toSwp: bool, dst: nat)

  function On(s: System, swp: bool): Device { if swp then s.swp else s.ram }

  function With(s: System, swp: bool, d: Device): System { if swp then s.(swp := d) else s.(ram := d) }

  /** The operation is used as intended: only held frames are given back or written to. */
  predicate Allowed(s: System, op: Op) {
    match op
    case DoGet(_) => true
    case DoPut(swp, f) => f in On(s, swp).held
    case DoCopy(fromSwp, src, toSwp, dst) => src in On(s, fromSwp).held && dst in On(s, toSwp).held
  }

  ghost predicate Valid(s: System) {
    Partition(s.ram) && Partition(s.swp)
  }

  lemma HeldExists(d: Device, f: nat)
    requires Partition(d) && f in d.held
    ensures f < |d.pages| && f !in d.free
  {
    assert multiset(d.free)[f] + 1 == if f < |d.pages| then 1 else 0;
  }

  predicate InRange(s: System, op: Op) {
    op.DoCopy? ==> op.src < |On(s, op.fromSwp).pages| && op.dst < |On(s, op.toSwp).pages|
  }

  function Do(s: System, op: Op): System
    requires InRange(s, op)
  {
    match op
    case DoGet(swp) => With(s, swp, Get(On(s, swp)).1)
    case DoPut(swp, f) => With(s, swp, Put(On(s, swp), f))
    case DoCopy(fromSwp, src, toSwp, dst) => With(s, toSwp, Fill(On(s, toSwp), dst, On(s, fromSwp).pages[src]))
  }

  ghost predicate IsRun(ss: seq<System>, ops: seq<Op>) {
    && |ss| == |ops| + 1
    && Valid(ss[0])
    && forall n :: 0 <= n < |ops| ==> Allowed(ss[n], ops[n]) && InRange(ss[n], ops[n]) && ss[n + 1] == Do(ss[n], ops[n])
  }

  lemma StepValid(s: System, op: Op)
    requires Valid(s) && Allowed(s, op)
    ensures InRange(s, op) && Valid(Do(s, op))
  {
    match op
    case DoGet(swp) => GetKeepsPartition(On(s, swp));
    case DoPut(swp, f) => PutKeepsPartitionIff(On(s, swp), f);
    case DoCopy(fromSwp, src, toSwp, dst) =>
      HeldExists(On(s, fromSwp), src);
      HeldExists(On(s, toSwp), dst);
      FillKeepsPartition(On(s, toSwp), dst, On(s, fromSwp).pages[src]);
  }

  lemma FillKeepsPartition(d: Device, f: nat, page: Page)
    requires Partition(d) && f < |d.pages|
    ensures Partition(Fill(d, f, page))
  {
  }

  /** Frame conservation: under any gets, puts of held frames and copies between held frames,
      the free list and the held frames of both devices partition their frames. */
  lemma {:induction false} RunValid(ss: seq<System>, ops: seq<Op>, n: nat)
    requires IsRun(ss, ops) && n < |ss|
    ensures Valid(ss[n])
  {
    if n > 0 {
      RunValid(ss, ops, n - 1);
      StepValid(ss[n - 1], ops[n - 1]);
    }
  }

  /** In particular they do from the moment both devices have been formatted. */
  lemma FormattedRunValid(ss: seq<System>, ops: seq<Op>, n: nat)
    requires |ss| == |ops| + 1 && n < |ss|
    requires ss[0].ram == Formatted(ss[0].ram.pages) && ss[0].swp == Formatted(ss[0].swp.pages)
    requires forall m :: 0 <= m < |ops| ==>
      Allowed(ss[m], ops[m]) && InRange(ss[m], ops[m]) && ss[m + 1] == Do(ss[m], ops[m])
    ensures IsRun(ss, ops) && Valid(ss[n])
  {
    FormattedPartition(ss[0].ram.pages);
    FormattedPartition(ss[0].swp.pages);
    RunValid(ss, ops, n);
  }

  /** `below` is what lies at the bottom of the free list. */
  predicate EndsWith(free: seq<nat>, below: seq<nat>) {
    |below| <= |free| && free[|free| - |below|..] == below
  }

  /** What one operation does to the free list of a device: it takes the first frame, or puts one
      there, or leaves the list alone. */
  lemma FreeAfter(s: System, op: Op, swp: bool)
    requires InRange(s, op)
    ensures
      On(Do(s, op), swp).free ==
        if op == DoGet(swp) then (if On(s, swp).free == [] then [] else On(s, swp).free[1..])
        else if op.DoPut? && op.swp == swp then [op.f] + On(s, swp).free
        else On(s, swp).free
  {
  }

  lemma EndStays(free: seq<nat>, free': seq<nat>, below: seq<nat>)
    requires EndsWith(free, below) && |below| <= |free'|
    requires free' == free || (free != [] && free' == free[1..]) || (free' != [] && free == free'[1..])
    ensures EndsWith(free', below)
  {
  }

  lemma StackStep(s: System, op: Op, swp: bool, below: seq<nat>)
    requires InRange(s, op) && EndsWith(On(s, swp).free, below) && |below| <= |On(Do(s, op), swp).free|
    ensures EndsWith(On(Do(s, op), swp).free, below)
  {
    FreeAfter(s, op, swp);
    EndStays(On(s, swp).free, On(Do(s, op), swp).free, below);
  }

  /** What lies on the free list stays, in its order, until all that was put on top of it has
      been taken again. */
  lemma {:induction false} StackDiscipline(ss: seq<System>, ops: seq<Op>, a: nat, b: nat, swp: bool)
    requires IsRun(ss, ops) && a <= b < |ss|
    requires forall n :: a <= n <= b ==> |On(ss[a], swp).free| <= |On(ss[n], swp).free|
    ensures EndsWith(On(ss[b], swp).free, On(ss[a], swp).free)
    decreases b
  {
    if a < b {
      StackDiscipline(ss, ops, a, b - 1, swp);
      RunStep(ss, ops, b - 1);
      StackStep(ss[b - 1], ops[b - 1], swp, On(ss[a], swp).free);
    }
  }

  /** Last in, first out: a get that finds as many free frames as there were just after a put,
      with never fewer in between, returns the frame of that put, on either device and whatever
      else went on. */
  lemma LastInFirstOut(ss: seq<System>, ops: seq<Op>, a: nat, b: nat, swp: bool, f: nat)
    requires IsRun(ss, ops) && a < b < |ss| && ops[a] == DoPut(swp, f)
    requires forall n :: a < n <= b ==> |On(ss[a + 1], swp).free| <= |On(ss[n], swp).free|
    requires |On(ss[b], swp).free| == |On(ss[a + 1], swp).free|
    ensures Get(On(ss[b], swp)).0 == Some(f)
  {
    RunStep(ss, ops, a);
    StackDiscipline(ss, ops, a + 1, b, swp);
    assert On(ss[b], swp).free == On(ss[a + 1], swp).free;
  }

  /** How many of the first n operations get a frame of the device. */
  function Gets(ops: seq<Op>, n: nat, swp: bool): nat
    requires n <= |ops|
  {
    if n == 0 then 0 else Gets(ops, n - 1, swp) + (if ops[n - 1] == DoGet(swp) then 1 else 0)
  }

  /** A formatted device hands its frames out in order, 0 first, and then no more, as long as none
      is given back. */
  lemma {:induction false} FramesComeInOrder(ss: seq<System>, ops: seq<Op>, n: nat, swp: bool, pages: seq<Page>)
    requires IsRun(ss, ops) && n < |ss| && On(ss[0], swp) == Formatted(pages)
    requires forall m :: 0 <= m < n ==> !(ops[m].DoPut? && ops[m].swp == swp)
    ensures
      var g := Gets(ops, n, swp);
      && |On(ss[n], swp).free| == (if g < |pages| then |pages| - g else 0)
      && (forall k :: 0 <= k < |On(ss[n], swp).free| ==> On(ss[n], swp).free[k] == g + k)
      && Get(On(ss[n], swp)).0 == if g < |pages| then Some(g) else None
  {
    if n > 0 {
      FramesComeInOrder(ss, ops, n - 1, swp, pages);
      RunStep(ss, ops, n - 1);
      FreeAfter(ss[n - 1], ops[n - 1], swp);
    }
  }

  /** The operation neither gives this frame back nor copies into it. */
  predicate Spares(op: Op, swp: bool, f: nat) {
    match op
    case DoGet(_) => true
    case DoPut(onSwp, g) => !(onSwp == swp && g == f)
    case DoCopy(_, _, toSwp, dst) => !(toSwp == swp && dst == f)
  }

  lemma SparedStep(s: System, op: Op, swp: bool, f: nat)
    requires Valid(s) && Allowed(s, op) && InRange(s, op) && Spares(op, swp, f) && f in On(s, swp).held
    ensures f < |On(s, swp).pages| == |On(Do(s, op), swp).pages|
    ensures f in On(Do(s, op), swp).held && On(Do(s, op), swp).pages[f] == On(s, swp).pages[f]
    ensures op == DoGet(swp) ==> Get(On(s, swp)).0 != Some(f)
  {
    HeldExists(On(s, swp), f);
  }

  lemma RunStep(ss: seq<System>, ops: seq<Op>, n: nat)
    requires IsRun(ss, ops) && n < |ops|
    ensures Allowed(ss[n], ops[n]) && InRange(ss[n], ops[n]) && ss[n + 1] == Do(ss[n], ops[n])
  {
  }

  lemma SparedRunStep(ss: seq<System>, ops: seq<Op>, n: nat, swp: bool, f: nat)
    requires IsRun(ss, ops) && n < |ops| && Spares(ops[n], swp, f) && f in On(ss[n], swp).held
    ensures f < |On(ss[n], swp).pages| == |On(ss[n + 1], swp).pages|
    ensures f in On(ss[n + 1], swp).held && On(ss[n + 1], swp).pages[f] == On(ss[n], swp).pages[f]
    ensures ops[n] == DoGet(swp) ==> Get(On(ss[n], swp)).0 != Some(f)
  {
    RunValid(ss, ops, n);
    RunStep(ss, ops, n);
    SparedStep(ss[n], ops[n], swp, f);
  }

  lemma {:induction false} SparedRun(ss: seq<System>, ops: seq<Op>, a: nat, b: nat, swp: bool, f: nat)
    requires IsRun(ss, ops) && a <= b < |ss| && f in On(ss[a], swp).held
    requires forall n :: a <= n < b ==> Spares(ops[n], swp, f)
    ensures f in On(ss[b], swp).held
    ensures f < |On(ss[a], swp).pages| && f < |On(ss[b], swp).pages|
    ensures On(ss[b], swp).pages[f] == On(ss[a], swp).pages[f]
    decreases b
  {
    if a == b {
      RunValid(ss, ops, a);
      HeldExists(On(ss[a], swp), f);
    } else {
      SparedRun(ss, ops, a, b - 1, swp, f);
      SparedRunStep(ss, ops, b - 1, swp, f);
    }
  }

  /** A held frame keeps its page through any operations of others: it is never handed out
      again, and copying into another frame of either device does not touch it. */
  lemma HeldFrameKeepsPage(ss: seq<System>, ops: seq<Op>, a: nat, b: nat, swp: bool, f: nat)
    requires IsRun(ss, ops) && a <= b < |ss| && f in On(ss[a], swp).held
    requires forall n :: a <= n < b ==> Spares(ops[n], swp, f)
    ensures f in On(ss[b], swp).held
    ensures f < |On(ss[a], swp).pages| && f < |On(ss[b], swp).pages|
    ensures On(ss[b], swp).pages[f] == On(ss[a], swp).pages[f]
    ensures forall n :: a <= n < b && ops[n] == DoGet(swp) ==> Get(On(ss[n], swp)).0 != Some(f)
  {
    SparedRun(ss, ops, a, b, swp, f);
    forall n | a <= n < b && ops[n] == DoGet(swp) ensures Get(On(ss[n], swp)).0 != Some(f) {
      SparedRun(ss, ops, a, n, swp, f);
      SparedRunStep(ss, ops, n, swp, f);
    }
  }

  /** Swapping out and in again: a page copied from RAM frame v into swap frame w, left alone
      there while any other operations go on, and copied back into any RAM frame t, is the
      page that was swapped out. */
  lemma SwapRoundTrip(ss: seq<System>, ops: seq<Op>, a: nat, b: nat, v: nat, w: nat, t: nat)
    requires IsRun(ss, ops) && a < b < |ops|
    requires ops[a] == DoCopy(false, v, true, w) && ops[b] == DoCopy(true, w, false, t)
    requires forall n :: a < n < b ==> Spares(ops[n], true, w)
    ensures t < |ss[b + 1].ram.pages| && v < |ss[a].ram.pages|
    ensures ss[b + 1].ram.pages[t] == ss[a].ram.pages[v]
  {
    assert InRange(ss[a], ops[a]) && Allowed(ss[a], ops[a]) && ss[a + 1] == Do(ss[a], ops[a]);
    assert ss[a + 1].swp.pages[w] == ss[a].ram.pages[v];
    HeldFrameKeepsPage(ss, ops, a + 1, b, true, w);
    assert InRange(ss[b], ops[b]) && ss[b + 1] == Do(ss[b], ops[b]);
  }
}
