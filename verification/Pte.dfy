/** Page table entries: the 32-bit words that init_pte, pte_set_fpn and pte_set_swap of src/mm.c
    write with the bit operators of include/mm.h, in fields that overlap. */
module Pte {
  import opened Options
  import B = Bitops

  const PRESENT: bv32 := 0x8000_0000
  const SWAPPED: bv32 := 0x4000_0000
  const DIRTY: bv32 := 0x1000_0000
  const FPN_MASK: bv32 := 0x1FFF
  const SWPTYP_MASK: bv32 := 0x1F
  const SWPOFF_MASK: bv32 := 0x03FF_FFE0

  /** The field masks are the ones GENMASK builds from the bit positions in mm.h. */
  lemma MasksAreFields()
    ensures FPN_MASK == B.Genmask(12, 0) && SWPTYP_MASK == B.Genmask(4, 0) && SWPOFF_MASK == B.Genmask(25, 5)
  {
  }

  function SetBit(v: bv32, mask: bv32): bv32 { v | mask }
  function ClrBit(v: bv32, mask: bv32): bv32 { v & !mask }
  function SetVal(v: bv32, value: bv32, mask: bv32, offst: bv32): bv32
    requires offst <= 32
  {
    (v & !mask) | ((value << offst) & mask)
  }

  // --------------------------------------------------------- writes to an entry

  datatype Write =
    | Init(pre: bool, fpn: bv32, swp: bool, swptyp: bv32, swpoff: bv32)   // init_pte
    | SetFpn(fpn: bv32)                                                    // pte_set_fpn
    | SetSwap(swptyp: bv32, swpoff: bv32)                                  // pte_set_swap
    | SetEntry(val: bv32)                                                  // pte_set_entry

  function OnlineWord(pte: bv32, fpn: bv32): bv32 {
    SetVal(ClrBit(SetBit(pte, PRESENT), SWAPPED), fpn, FPN_MASK, 0)
  }

  function SwappedWord(pte: bv32, swptyp: bv32, swpoff: bv32): bv32 {
    SetVal(SetVal(SetBit(SetBit(pte, PRESENT), SWAPPED), swptyp, SWPTYP_MASK, 0), swpoff, SWPOFF_MASK, 5)
  }

  function InitOnlineWord(pte: bv32, fpn: bv32): bv32 {
    SetVal(ClrBit(ClrBit(SetBit(pte, PRESENT), SWAPPED), DIRTY), fpn, FPN_MASK, 0)
  }

  function InitSwappedWord(pte: bv32, swptyp: bv32, swpoff: bv32): bv32 {
    SetVal(SetVal(ClrBit(SetBit(SetBit(pte, PRESENT), SWAPPED), DIRTY), swptyp, SWPTYP_MASK, 0), swpoff, SWPOFF_MASK, 5)
  }

  /** The return code of init_pte, and the entry it leaves. */
  function InitPte(pte: bv32, pre: bool, fpn: bv32, swp: bool, swptyp: bv32, swpoff: bv32): (int, bv32) {
    if !pre then (0, pte)
    else if !swp then
      if fpn == 0 then (-1, pte)
      else (0, InitOnlineWord(pte, fpn))
    else (0, InitSwappedWord(pte, swptyp, swpoff))
  }

  function Apply(pte: bv32, w: Write): bv32 {
    match w
    case Init(pre, fpn, swp, swptyp, swpoff) => InitPte(pte, pre, fpn, swp, swptyp, swpoff).1
    case SetFpn(fpn) => OnlineWord(pte, fpn)
    case SetSwap(swptyp, swpoff) => SwappedWord(pte, swptyp, swpoff)
    case SetEntry(val) => val
  }

  // ------------------------------------------------------- what an entry means

  datatype View = Absent | Online(fpn: bv13) | Swapped(swptyp: bv5, swpoff: bv21)

  /** Reading an entry with the extractors of mm.h. */
  function ViewOf(pte: bv32): View {
    if pte & PRESENT == 0 then Absent
    else if pte & SWAPPED == 0 then Online((pte & FPN_MASK) as bv13)
    else Swapped((pte & SWPTYP_MASK) as bv5, ((pte & SWPOFF_MASK) >> 5) as bv21)
  }

  /** The write takes effect: init_pte does nothing for an absent page and refuses frame 0. */
  predicate Effective(w: Write) {
    w.Init? ==> w.pre && (w.swp || w.fpn != 0)
  }

  // The part of a number that its field has room for.
  function Frame(fpn: bv32): bv13 { (fpn & 0x1FFF) as bv13 }
  function Area(swptyp: bv32): bv5 { (swptyp & 0x1F) as bv5 }
  function Slot(swpoff: bv32): bv21 { (swpoff & 0x1F_FFFF) as bv21 }

  /** What an effective write means to record. */
  function Meant(w: Write): View {
    match w
    case Init(_, fpn, swp, swptyp, swpoff) =>
      if swp then Swapped(Area(swptyp), Slot(swpoff)) else Online(Frame(fpn))
    case SetFpn(fpn) => Online(Frame(fpn))
    case SetSwap(swptyp, swpoff) => Swapped(Area(swptyp), Slot(swpoff))
    case SetEntry(val) => ViewOf(val)
  }

  lemma OnlineBits(pte: bv32, fpn: bv32)
    ensures
      var w := OnlineWord(pte, fpn);
      && w & 0x8000_0000 != 0 && w & 0x4000_0000 == 0 && w & 0x1FFF == fpn & 0x1FFF
      && w & 0x3FFF_E000 == pte & 0x3FFF_E000
  {
  }

  lemma InitOnlineBits(pte: bv32, fpn: bv32)
    ensures
      var w := InitOnlineWord(pte, fpn);
      && w & 0x8000_0000 != 0 && w & 0x4000_0000 == 0 && w & 0x1FFF == fpn & 0x1FFF
      && w & 0x3FFF_E000 == pte & 0x2FFF_E000
  {
  }

  lemma SwappedBits(pte: bv32, swptyp: bv32, swpoff: bv32)
    ensures
      var w := SwappedWord(pte, swptyp, swpoff);
      && w & 0x8000_0000 != 0 && w & 0x4000_0000 != 0 && w & 0x1F == swptyp & 0x1F
      && (w & 0x03FF_FFE0) >> 5 == swpoff & 0x1F_FFFF && w & 0x3C00_0000 == pte & 0x3C00_0000
  {
  }

  lemma InitSwappedBits(pte: bv32, swptyp: bv32, swpoff: bv32)
    ensures
      var w := InitSwappedWord(pte, swptyp, swpoff);
      && w & 0x8000_0000 != 0 && w & 0x4000_0000 != 0 && w & 0x1F == swptyp & 0x1F
      && (w & 0x03FF_FFE0) >> 5 == swpoff & 0x1F_FFFF && w & 0x3C00_0000 == pte & 0x2C00_0000
  {
  }

  lemma OnlineView(w: bv32, fpn: bv32)
    requires w & 0x8000_0000 != 0 && w & 0x4000_0000 == 0 && w & 0x1FFF == fpn & 0x1FFF
    ensures ViewOf(w) == Online(Frame(fpn))
  {
  }

  lemma SwappedView(w: bv32, swptyp: bv32, swpoff: bv32)
    requires w & 0x8000_0000 != 0 && w & 0x4000_0000 != 0
    requires w & 0x1F == swptyp & 0x1F && (w & 0x03FF_FFE0) >> 5 == swpoff & 0x1F_FFFF
    ensures ViewOf(w) == Swapped(Area(swptyp), Slot(swpoff))
  {
  }

  lemma OnlineIsRead(pte: bv32, fpn: bv32)
    ensures ViewOf(OnlineWord(pte, fpn)) == Online(Frame(fpn))
  {
    OnlineBits(pte, fpn);
    OnlineView(OnlineWord(pte, fpn), fpn);
  }

  lemma InitOnlineIsRead(pte: bv32, fpn: bv32)
    ensures ViewOf(InitOnlineWord(pte, fpn)) == Online(Frame(fpn))
  {
    InitOnlineBits(pte, fpn);
    OnlineView(InitOnlineWord(pte, fpn), fpn);
  }

  lemma SwappedIsRead(pte: bv32, swptyp: bv32, swpoff: bv32)
    ensures ViewOf(SwappedWord(pte, swptyp, swpoff)) == Swapped(Area(swptyp), Slot(swpoff))
  {
    SwappedBits(pte, swptyp, swpoff);
    SwappedView(SwappedWord(pte, swptyp, swpoff), swptyp, swpoff);
  }

  lemma InitSwappedIsRead(pte: bv32, swptyp: bv32, swpoff: bv32)
    ensures ViewOf(InitSwappedWord(pte, swptyp, swpoff)) == Swapped(Area(swptyp), Slot(swpoff))
  {
    InitSwappedBits(pte, swptyp, swpoff);
    SwappedView(InitSwappedWord(pte, swptyp, swpoff), swptyp, swpoff);
  }

  /** One write: an effective one leaves exactly what it means to record, whatever bits an
      earlier write to the overlapping fields has left behind; any other leaves the entry alone. */
  lemma WriteIsRead(pte: bv32, w: Write)
    ensures Effective(w) ==> ViewOf(Apply(pte, w)) == Meant(w)
    ensures !Effective(w) ==> Apply(pte, w) == pte
  {
    match w
    case SetFpn(fpn) => OnlineIsRead(pte, fpn);
    case SetSwap(swptyp, swpoff) => SwappedIsRead(pte, swptyp, swpoff);
    case Init(pre, fpn, swp, swptyp, swpoff) =>
      if swp { InitSwappedIsRead(pte, swptyp, swpoff); } else { InitOnlineIsRead(pte, fpn); }
    case SetEntry(_) =>
  }

  lemma OnlineKeepsUnused(pte: bv32, fpn: bv32)
    ensures OnlineWord(pte, fpn) & 0x2C00_0000 == pte & 0x2C00_0000
  {
  }

  lemma InitOnlineKeepsUnused(pte: bv32, fpn: bv32)
    ensures InitOnlineWord(pte, fpn) & 0x2C00_0000 == pte & 0x2C00_0000
  {
  }

  lemma SwappedKeepsUnused(pte: bv32, swptyp: bv32, swpoff: bv32)
    ensures SwappedWord(pte, swptyp, swpoff) & 0x2C00_0000 == pte & 0x2C00_0000
  {
  }

  lemma InitSwappedKeepsUnused(pte: bv32, swptyp: bv32, swpoff: bv32)
    ensures InitSwappedWord(pte, swptyp, swpoff) & 0x2C00_0000 == pte & 0x2C00_0000
  {
  }

  /** No field covers bits 26, 27 and 29: writing frames and swap slots leaves them alone. */
  lemma WriteKeepsUnusedBits(pte: bv32, w: Write)
    requires !w.SetEntry?
    ensures Apply(pte, w) & 0x2C00_0000 == pte & 0x2C00_0000
  {
    match w
    case SetFpn(fpn) => OnlineKeepsUnused(pte, fpn);
    case SetSwap(swptyp, swpoff) => SwappedKeepsUnused(pte, swptyp, swpoff);
    case Init(pre, fpn, swp, swptyp, swpoff) =>
      if swp { InitSwappedKeepsUnused(pte, swptyp, swpoff); } else { InitOnlineKeepsUnused(pte, fpn); }
  }

  // Bits that a write leaves as they were.
  function Kept(w: Write): bv32 {
    match w
    case SetFpn(_) => 0x3FFF_E000
    case SetSwap(_, _) => 0x3C00_0000
    case Init(_, _, swp, _, _) => if swp then 0x2C00_0000 else 0x2FFF_E000
    case SetEntry(_) => 0
  }

  predicate Dirty(pte: bv32) { pte & 0x1000_0000 != 0 }

  lemma OnlineKeeps(pte: bv32, fpn: bv32)
    ensures OnlineWord(pte, fpn) & 0x3FFF_E000 == pte & 0x3FFF_E000
  {
    OnlineBits(pte, fpn);
  }

  lemma InitOnlineKeeps(pte: bv32, fpn: bv32)
    ensures InitOnlineWord(pte, fpn) & 0x2FFF_E000 == pte & 0x2FFF_E000
  {
  }

  lemma SwappedKeeps(pte: bv32, swptyp: bv32, swpoff: bv32)
    ensures SwappedWord(pte, swptyp, swpoff) & 0x3C00_0000 == pte & 0x3C00_0000
  {
  }

  /** Beyond the flags and the field it writes, a write leaves every bit as it was, stale ones of
      another field included. */
  lemma WriteKeepsRest(pte: bv32, w: Write)
    ensures Apply(pte, w) & Kept(w) == pte & Kept(w)
  {
    match w
    case SetFpn(fpn) => OnlineKeeps(pte, fpn);
    case SetSwap(swptyp, swpoff) => SwappedKeeps(pte, swptyp, swpoff);
    case Init(pre, fpn, swp, swptyp, swpoff) =>
      if swp { InitSwappedKeepsUnused(pte, swptyp, swpoff); } else { InitOnlineKeeps(pte, fpn); }
    case SetEntry(_) =>
  }

  lemma OnlineDirty(pte: bv32, fpn: bv32)
    ensures Dirty(OnlineWord(pte, fpn)) <==> Dirty(pte)
  {
  }

  lemma SwappedDirty(pte: bv32, swptyp: bv32, swpoff: bv32)
    ensures Dirty(SwappedWord(pte, swptyp, swpoff)) <==> Dirty(pte)
  {
  }

  lemma InitOnlineClean(pte: bv32, fpn: bv32)
    ensures !Dirty(InitOnlineWord(pte, fpn))
  {
  }

  lemma InitSwappedClean(pte: bv32, swptyp: bv32, swpoff: bv32)
    ensures !Dirty(InitSwappedWord(pte, swptyp, swpoff))
  {
  }

  /** An effective init_pte clears the dirty bit; the other writes of frames and swap slots leave it. */
  lemma DirtyAfterWrite(pte: bv32, w: Write)
    requires !w.SetEntry?
    ensures Dirty(Apply(pte, w)) <==> Dirty(pte) && !(w.Init? && Effective(w))
  {
    match w
    case SetFpn(fpn) => OnlineDirty(pte, fpn);
    case SetSwap(swptyp, swpoff) => SwappedDirty(pte, swptyp, swpoff);
    case Init(pre, fpn, swp, swptyp, swpoff) =>
      if swp { InitSwappedClean(pte, swptyp, swpoff); } else { InitOnlineClean(pte, fpn); }
  }

  /** The documentation says that bits 13 and 14 are zero while a page is present.  Writing a
      frame number does not clear them: they are zero afterwards exactly when they were before. */
  lemma StaleBitsIff(pte: bv32, fpn: bv32)
    ensures OnlineWord(pte, fpn) & 0x6000 == 0 <==> pte & 0x6000 == 0
  {
  }

  /** An entry whose page was swapped out and brought back shows it. */
  lemma StaleBitsExample()
    ensures OnlineWord(SwappedWord(0, 0, 0x100), 5) & 0x6000 == 0x2000
  {
  }

  // ------------------------------------------------------------- the page table

  datatype Op = Op(pgn: nat, w: Write)

  function Do(tbl: seq<bv32>, op: Op): seq<bv32>
    requires op.pgn < |tbl|
  {
    tbl[op.pgn := Apply(tbl[op.pgn], op.w)]
  }

  ghost predicate IsRun(tbls: seq<seq<bv32>>, ops: seq<Op>) {
    && |tbls| == |ops| + 1
    && forall n :: 0 <= n < |ops| ==> ops[n].pgn < |tbls[n]| && tbls[n + 1] == Do(tbls[n], ops[n])
  }

  /** The last effective write to page p among the first n operations. */
  function LastWrite(ops: seq<Op>, n: nat, p: nat): Option<Write>
    requires n <= |ops|
  {
    if n == 0 then None
    else if ops[n - 1].pgn == p && Effective(ops[n - 1].w) then Some(ops[n - 1].w)
    else LastWrite(ops, n - 1, p)
  }

  /** Last write wins: after any sequence of writes to a page table, every entry reads as the
      last effective write to that very page, or as at the start if there was none. */
  lemma {:induction false} LastWriteWins(tbls: seq<seq<bv32>>, ops: seq<Op>, n: nat, p: nat)
    requires IsRun(tbls, ops) && n <= |ops| && p < |tbls[0]|
    ensures |tbls[n]| == |tbls[0]|
    ensures
      var last := LastWrite(ops, n, p);
      ViewOf(tbls[n][p]) == if last.Some? then Meant(last.value) else ViewOf(tbls[0][p])
  {
    if n > 0 {
      LastWriteWins(tbls, ops, n - 1, p);
      var op := ops[n - 1];
      assert op.pgn < |tbls[n - 1]| && tbls[n] == Do(tbls[n - 1], op);
      WriteIsRead(tbls[n - 1][op.pgn], op.w);
    }
  }

  /** An entry set as a whole reads back bit for bit until the next effective write to its page. */
  lemma {:induction false} EntryStays(tbls: seq<seq<bv32>>, ops: seq<Op>, n: nat, p: nat, val: bv32)
    requires IsRun(tbls, ops) && n <= |ops| && p < |tbls[0]|
    requires LastWrite(ops, n, p) == Some(SetEntry(val))
    ensures |tbls[n]| == |tbls[0]| && tbls[n][p] == val
  {
    LastWriteWins(tbls, ops, n - 1, p);
    var op := ops[n - 1];
    assert op.pgn < |tbls[n - 1]| && tbls[n] == Do(tbls[n - 1], op);
    if !(op.pgn == p && Effective(op.w)) {
      EntryStays(tbls, ops, n - 1, p, val);
      WriteIsRead(tbls[n - 1][op.pgn], op.w);
    }
  }

  /** One of the first n operations initialises page p. */
  predicate Initialised(ops: seq<Op>, n: nat, p: nat)
    requires n <= |ops|
  {
    exists m :: 0 <= m < n && ops[m].pgn == p && ops[m].w.Init? && Effective(ops[m].w)
  }

  lemma DirtyRunStep(tbls: seq<seq<bv32>>, ops: seq<Op>, n: nat, p: nat)
    requires IsRun(tbls, ops) && n < |ops| && p < |tbls[n]| && !ops[n].w.SetEntry?
    ensures |tbls[n + 1]| == |tbls[n]|
    ensures Dirty(tbls[n + 1][p]) <==>
      Dirty(tbls[n][p]) && !(ops[n].pgn == p && ops[n].w.Init? && Effective(ops[n].w))
  {
    assert ops[n].pgn < |tbls[n]| && tbls[n + 1] == Do(tbls[n], ops[n]);
    if ops[n].pgn == p {
      DirtyAfterWrite(tbls[n][p], ops[n].w);
    }
  }

  /** Over any sequence of writes of frames and swap slots an entry stays dirty exactly as long
      as its page is not initialised. */
  lemma {:induction false} DirtyUntilInitialised(tbls: seq<seq<bv32>>, ops: seq<Op>, n: nat, p: nat)
    requires IsRun(tbls, ops) && n <= |ops| && p < |tbls[0]|
    requires forall m :: 0 <= m < n ==> !ops[m].w.SetEntry?
    ensures |tbls[n]| == |tbls[0]|
    ensures Dirty(tbls[n][p]) <==> Dirty(tbls[0][p]) && !Initialised(ops, n, p)
  {
    if n > 0 {
      DirtyUntilInitialised(tbls, ops, n - 1, p);
      DirtyRunStep(tbls, ops, n - 1, p);
    }
  }

  lemma UnusedStep(tbl: seq<bv32>, op: Op, p: nat)
    requires op.pgn < |tbl| && p < |tbl| && !op.w.SetEntry?
    ensures Do(tbl, op)[p] & 0x2C00_0000 == tbl[p] & 0x2C00_0000
  {
    if op.pgn == p {
      WriteKeepsUnusedBits(tbl[p], op.w);
    }
  }

  lemma UnusedRunStep(tbls: seq<seq<bv32>>, ops: seq<Op>, n: nat, p: nat)
    requires IsRun(tbls, ops) && n < |ops| && p < |tbls[n]| && !ops[n].w.SetEntry?
    ensures |tbls[n + 1]| == |tbls[n]| && tbls[n + 1][p] & 0x2C00_0000 == tbls[n][p] & 0x2C00_0000
  {
    assert ops[n].pgn < |tbls[n]| && tbls[n + 1] == Do(tbls[n], ops[n]);
    UnusedStep(tbls[n], ops[n], p);
  }

  /** Bits 26, 27 and 29 of an entry survive every sequence of writes of frames and swap slots. */
  lemma {:induction false} UnusedBitsSurvive(tbls: seq<seq<bv32>>, ops: seq<Op>, n: nat, p: nat)
    requires IsRun(tbls, ops) && n <= |ops| && p < |tbls[0]|
    requires forall m :: 0 <= m < n ==> !ops[m].w.SetEntry?
    ensures |tbls[n]| == |tbls[0]| && tbls[n][p] & 0x2C00_0000 == tbls[0][p] & 0x2C00_0000
  {
    if n > 0 {
      UnusedBitsSurvive(tbls, ops, n - 1, p);
      UnusedRunStep(tbls, ops, n - 1, p);
    }
  }

  // The page table of a process, the array mm->pgd.
  class PageTable {
    const pgd: array<bv32>

    constructor (pages: nat)
      ensures fresh(pgd) && pgd.Length == pages
    {
      pgd := new bv32[pages];
    }

    /** The branch of init_pte for a page in memory. */
    method InitOnline(pgn: nat, fpn: bv32)
      requires pgn < pgd.Length
      modifies pgd
      ensures pgd[..] == old(pgd[..])[pgn := InitOnlineWord(old(pgd[pgn]), fpn)]
    {
      pgd[pgn] := SetBit(pgd[pgn], PRESENT);
      pgd[pgn] := ClrBit(pgd[pgn], SWAPPED);
      pgd[pgn] := ClrBit(pgd[pgn], DIRTY);
      pgd[pgn] := SetVal(pgd[pgn], fpn, FPN_MASK, 0);
    }

    /** The branch of init_pte for a page in swap. */
    method InitSwapped(pgn: nat, swptyp: bv32, swpoff: bv32)
      requires pgn < pgd.Length
      modifies pgd
      ensures pgd[..] == old(pgd[..])[pgn := InitSwappedWord(old(pgd[pgn]), swptyp, swpoff)]
    {
      pgd[pgn] := SetBit(pgd[pgn], PRESENT);
      pgd[pgn] := SetBit(pgd[pgn], SWAPPED);
      pgd[pgn] := ClrBit(pgd[pgn], DIRTY);
      pgd[pgn] := SetVal(pgd[pgn], swptyp, SWPTYP_MASK, 0);
      pgd[pgn] := SetVal(pgd[pgn], swpoff, SWPOFF_MASK, 5);
    }

    /** init_pte on the entry of page pgn. */
    method InitPte(pgn: nat, pre: bool, fpn: bv32, swp: bool, swptyp: bv32, swpoff: bv32) returns (rc: int)
      requires pgn < pgd.Length
      modifies pgd
      ensures pgd[..] == Do(old(pgd[..]), Op(pgn, Init(pre, fpn, swp, swptyp, swpoff)))
      ensures rc == if pre && !swp && fpn == 0 then -1 else 0
    {
      if pre {
        if !swp {
          if fpn == 0 {
            return -1;
          }
          InitOnline(pgn, fpn);
        } else {
          InitSwapped(pgn, swptyp, swpoff);
        }
      }
      return 0;
    }

    /** pte_set_fpn */
    method SetFpn(pgn: nat, fpn: bv32)
      requires pgn < pgd.Length
      modifies pgd
      ensures pgd[..] == Do(old(pgd[..]), Op(pgn, Write.SetFpn(fpn)))
    {
      pgd[pgn] := SetBit(pgd[pgn], PRESENT);
      pgd[pgn] := ClrBit(pgd[pgn], SWAPPED);
      pgd[pgn] := SetVal(pgd[pgn], fpn, FPN_MASK, 0);
    }

    /** pte_set_swap */
    method SetSwap(pgn: nat, swptyp: bv32, swpoff: bv32)
      requires pgn < pgd.Length
      modifies pgd
      ensures pgd[..] == Do(old(pgd[..]), Op(pgn, Write.SetSwap(swptyp, swpoff)))
    {
      pgd[pgn] := SetBit(pgd[pgn], PRESENT);
      pgd[pgn] := SetBit(pgd[pgn], SWAPPED);
      pgd[pgn] := SetVal(pgd[pgn], swptyp, SWPTYP_MASK, 0);
      pgd[pgn] := SetVal(pgd[pgn], swpoff, SWPOFF_MASK, 5);
    }

    /** pte_set_entry */
    method SetEntry(pgn: nat, val: bv32)
      requires pgn < pgd.Length
      modifies pgd
      ensures pgd[..] == Do(old(pgd[..]), Op(pgn, Write.SetEntry(val)))
    {
      pgd[pgn] := val;
    }
  }

  // ---------------------------------------------------- init_pte on 64-bit words

  function SetBit64(v: bv64, mask: bv32): bv64 { v | mask as bv64 }

  /** The masks are 32-bit constants: their complement, widened, has no bit set above bit 31. */
  function ClrBit64(v: bv64, mask: bv32): bv64 { v & (!mask) as bv64 }

  function SetVal64(v: bv64, value: bv64, mask: bv32, offst: bv64): bv64
    requires offst <= 64
  {
    (v & (!mask) as bv64) | ((value << offst) & mask as bv64)
  }

  /** init_pte of src/mm64.c, on a 64-bit entry. */
  function InitPte64(pte: bv64, pre: bool, fpn: bv64, swp: bool, swptyp: bv64, swpoff: bv64): (int, bv64) {
    if !pre then (0, pte)
    else if !swp then
      if fpn == 0 then (-1, pte)
      else (0, SetVal64(ClrBit64(ClrBit64(SetBit64(pte, PRESENT), SWAPPED), DIRTY), fpn, FPN_MASK, 0))
    else
      (0, SetVal64(SetVal64(ClrBit64(SetBit64(SetBit64(pte, PRESENT), SWAPPED), DIRTY), swptyp, SWPTYP_MASK, 0),
                   swpoff, SWPOFF_MASK, 5))
  }

  function Low(v: bv64): bv32 { (v & 0xFFFF_FFFF) as bv32 }

  /** v is the 32-bit word w, widened. */
  predicate IsWide(v: bv64, w: bv32) { v == w as bv64 }

  lemma WideOnline(pte: bv64, fpn: bv64)
    ensures IsWide(SetVal64(ClrBit64(ClrBit64(SetBit64(pte, PRESENT), SWAPPED), DIRTY), fpn, FPN_MASK, 0),
                   InitOnlineWord(Low(pte), Low(fpn)))
  {
  }

  lemma WideSwapped(pte: bv64, swptyp: bv64, swpoff: bv64)
    ensures IsWide(SetVal64(SetVal64(ClrBit64(SetBit64(SetBit64(pte, PRESENT), SWAPPED), DIRTY),
                                     swptyp, SWPTYP_MASK, 0), swpoff, SWPOFF_MASK, 5),
                   InitSwappedWord(Low(pte), Low(swptyp), Low(swpoff)))
  {
  }

  /** On 64-bit entries a write acts on the low word as the 32-bit one does, and wipes the high word. */
  lemma Wide64ActsOnLowWord(pte: bv64, fpn: bv64, swp: bool, swptyp: bv64, swpoff: bv64)
    requires swp || Low(fpn) != 0
    ensures
      var wide := InitPte64(pte, true, fpn, swp, swptyp, swpoff);
      var narrow := InitPte(Low(pte), true, Low(fpn), swp, Low(swptyp), Low(swpoff));
      wide.0 == narrow.0 == 0 && IsWide(wide.1, narrow.1)
  {
    if swp { WideSwapped(pte, swptyp, swpoff); } else { WideOnline(pte, fpn); }
  }

  /** The 64-bit version accepts every frame number but zero; the 32-bit one sees only its low
      word, so the two disagree exactly on numbers that are not zero but have a zero low word. */
  lemma Wide64AcceptsIff(pte: bv64, pre: bool, fpn: bv64, swp: bool, swptyp: bv64, swpoff: bv64)
    ensures InitPte64(pte, pre, fpn, swp, swptyp, swpoff).0
         == InitPte(Low(pte), pre, Low(fpn), swp, Low(swptyp), Low(swpoff)).0
         <==> !pre || swp || fpn == 0 || Low(fpn) != 0
  {
    assert fpn == 0 ==> Low(fpn) == 0;
  }

  /** A write that is refused, or of an absent page, leaves the 64-bit entry alone. */
  lemma Wide64LeavesAlone(pte: bv64, pre: bool, fpn: bv64, swp: bool, swptyp: bv64, swpoff: bv64)
    requires !pre || (!swp && fpn == 0)
    ensures
      var (rc, after) := InitPte64(pte, pre, fpn, swp, swptyp, swpoff);
      after == pte && rc == if pre then -1 else 0
  {
  }
}
