/** Regions of the user address space as src/libmem.c hands them out and takes them back.

    This module is the specification: the free list and the symbol table as values, and the
    properties of allocation and release over them.  RegionList.dfy proves the code on the
    linked list against it. */
module Regions {
  import opened Options

  // A region [lo, hi) of addresses; empty when hi <= lo.
  datatype Region = Region(lo: nat, hi: nat)
  {
    predicate Has(a: nat) { lo <= a < hi }
    predicate IsEmpty() { hi <= lo }
  }

  const ADDRESS_LIMIT: nat := 0x200_0000_0000_0000   // 57-bit bus, PAGING64_CPU_BUS_WIDTH
  const WORD: int := 0x1_0000_0000_0000_0000         // addr_t is a uint64_t
  const INT_LIMIT: int := 0x8000_0000                // an int is below it
  const TABLE_SIZE: nat := 30                        // PAGING_MAX_SYMTBL_SZ
  const NOT_FOUND: int := WORD - 1                   // -1 as an addr_t

  const NOTHING := Region(0, 0)                      // an unused symbol table entry

  // `free` is the free list in order, `table` the symbol table, `sbrk` the program break.
  datatype Space = Space(free: seq<Region>, table: seq<Region>, sbrk: nat)

  // ---------------------------------------------------------- machine arithmetic

  /** Addition of an addr_t and an int or another addr_t. */
  function Plus(a: nat, b: int): (sum: nat)
    ensures sum < WORD
    ensures 0 <= a + b < WORD ==> sum == a + b
    ensures -WORD <= a + b < 0 ==> sum == a + b + WORD
  {
    (a + b) % WORD
  }

  /** An addr_t passed as an int keeps its low 32 bits, read as a signed number. */
  function Narrow(x: nat): (n: int)
    ensures -INT_LIMIT <= n < INT_LIMIT
    ensures n == x <==> x < INT_LIMIT
  {
    var low := x % (2 * INT_LIMIT);
    if low < INT_LIMIT then low else low - 2 * INT_LIMIT
  }

  /** Every bound of every region is an address of the 57-bit bus. */
  ghost predicate OnBus(rs: seq<Region>) {
    forall i :: 0 <= i < |rs| ==> rs[i].lo <= ADDRESS_LIMIT && rs[i].hi <= ADDRESS_LIMIT
  }

  /** No region ends before it begins. */
  ghost predicate Ordered(rs: seq<Region>) {
    forall i :: 0 <= i < |rs| ==> rs[i].lo <= rs[i].hi
  }

  // ---------------------------------------------------------------- ownership

  /** How many of these regions the address a lies in. */
  function Owners(rs: seq<Region>, a: nat): nat {
    if rs == [] then 0 else (if rs[0].Has(a) then 1 else 0) + Owners(rs[1..], a)
  }

  /** How many free and live regions the address a lies in. */
  function OwnersOf(s: Space, a: nat): nat {
    Owners(s.free, a) + Owners(s.table, a)
  }

  /** No address belongs to two regions, free or live. */
  ghost predicate Disjoint(s: Space) {
    forall a: nat :: OwnersOf(s, a) <= 1
  }

  lemma {:induction false} OwnersAppend(r1: seq<Region>, r2: seq<Region>, a: nat)
    ensures Owners(r1 + r2, a) == Owners(r1, a) + Owners(r2, a)
  {
    if r1 == [] {
      assert r1 + r2 == r2;
    } else {
      assert (r1 + r2)[1..] == r1[1..] + r2;
      OwnersAppend(r1[1..], r2, a);
    }
  }

  lemma OwnersAround(before: seq<Region>, r: Region, after: seq<Region>, a: nat)
    ensures Owners(before + ([r] + after), a) == Owners(before + after, a) + (if r.Has(a) then 1 else 0)
  {
    OwnersAppend(before, [r] + after, a);
    OwnersAppend(before, after, a);
    assert ([r] + after)[1..] == after;
  }

  lemma OwnersReplace(rs: seq<Region>, i: nat, r: Region, a: nat)
    requires i < |rs|
    ensures Owners(rs[i := r], a) + (if rs[i].Has(a) then 1 else 0)
         == Owners(rs, a) + (if r.Has(a) then 1 else 0)
  {
    assert rs == rs[..i] + ([rs[i]] + rs[i + 1..]);
    assert rs[i := r] == rs[..i] + ([r] + rs[i + 1..]);
    OwnersAround(rs[..i], rs[i], rs[i + 1..], a);
    OwnersAround(rs[..i], r, rs[i + 1..], a);
  }

  lemma OwnersRemove(rs: seq<Region>, i: nat, a: nat)
    requires i < |rs|
    ensures Owners(rs[..i] + rs[i + 1..], a) + (if rs[i].Has(a) then 1 else 0) == Owners(rs, a)
  {
    assert rs == rs[..i] + ([rs[i]] + rs[i + 1..]);
    OwnersAround(rs[..i], rs[i], rs[i + 1..], a);
  }

  lemma {:induction false} OwnersWitness(rs: seq<Region>, i: nat, a: nat)
    requires i < |rs| && rs[i].Has(a)
    ensures Owners(rs, a) >= 1
    ensures forall j :: 0 <= j < |rs| && j != i && rs[j].Has(a) ==> Owners(rs, a) >= 2
  {
    if i > 0 {
      OwnersWitness(rs[1..], i - 1, a);
      assert forall j :: 0 < j < |rs| ==> rs[j] == rs[1..][j - 1];
    } else {
      forall j | 0 < j < |rs| && rs[j].Has(a) ensures Owners(rs[1..], a) >= 1 {
        OwnersWitness(rs[1..], j - 1, a);
      }
    }
  }

  // ----------------------------------------------------------------- first fit

  /** The fit test of the search, on machine words. */
  predicate Fits(r: Region, size: int) {
    Plus(r.lo, size) <= r.hi
  }

  /** The region has room for size bytes. */
  predicate HasRoom(r: Region, size: int) {
    r.lo + size <= r.hi
  }

  /** The fit test gives the true answer exactly when the sum does not wrap around; within the
      57-bit bus it never does. */
  lemma FitTestExactIff(r: Region, size: int)
    requires r.lo <= r.hi < WORD && 0 <= size < INT_LIMIT
    ensures (Fits(r, size) <==> HasRoom(r, size)) <==> r.lo + size < WORD
    ensures r.lo <= ADDRESS_LIMIT ==> r.lo + size < WORD
  {
    if r.lo + size >= WORD {
      assert Plus(r.lo, size) == r.lo + size - WORD;
    }
  }

  /** The position of the first region that passes the test, or |free|. */
  function FirstFit(free: seq<Region>, size: int): (i: nat)
    ensures i <= |free|
    ensures i < |free| ==> Fits(free[i], size)
    ensures forall j :: 0 <= j < i ==> !Fits(free[j], size)
  {
    if free == [] || Fits(free[0], size) then 0
    else
      var i := FirstFit(free[1..], size);
      assert forall j :: 0 < j < |free| ==> free[j] == free[1..][j - 1];
      i + 1
  }

  /** The free list once region i has been moved up by size bytes: the region is shortened, or
      dropped when used up, except that the last one stays as an empty region. */
  function Cut(free: seq<Region>, i: nat, size: int): seq<Region>
    requires i < |free|
  {
    var r, next := free[i], Plus(free[i].lo, size);
    if next < r.hi then free[i := Region(next, r.hi)]
    else if i + 1 < |free| then free[..i] + free[i + 1..]
    else free[i := Region(r.hi, r.hi)]
  }

  /** get_free_vmrg_area: the region handed out, if any, and the free list it leaves.  A region
      at the address that stands for failure is cut, but not handed out. */
  function Take(free: seq<Region>, size: int): (Option<Region>, seq<Region>) {
    var i := FirstFit(free, size);
    if i == |free| then (None, free)
    else
      var lo := free[i].lo;
      (if lo == NOT_FOUND then None else Some(Region(lo, Plus(lo, size))), Cut(free, i, size))
  }

  /** A search fails exactly if no region passes the test, or the first that does lies at the
      address that stands for failure. */
  lemma TakeFailsIff(free: seq<Region>, size: int)
    ensures
      var i := FirstFit(free, size);
      Take(free, size).0.None? <==> i == |free| || free[i].lo == NOT_FOUND
  {
  }

  /** The region at position i keeps a node after its front has been cut off. */
  predicate Stays(free: seq<Region>, i: nat, size: int)
    requires i < |free|
  {
    i + 1 == |free| || free[i].lo + size < free[i].hi
  }

  lemma CutReshapes(free: seq<Region>, i: nat, size: int)
    requires i < |free| && Fits(free[i], size) && free[i].lo <= ADDRESS_LIMIT && 0 < size < INT_LIMIT
    ensures
      var r, stays := free[i], Stays(free, i, size);
      Cut(free, i, size) ==
        if stays then free[..i] + [Region(r.lo + size, r.hi)] + free[i + 1..] else free[..i] + free[i + 1..]
  {
    var r := free[i];
    assert Plus(r.lo, size) == r.lo + size;
    assert free[i := Region(r.lo + size, r.hi)] == free[..i] + [Region(r.lo + size, r.hi)] + free[i + 1..];
  }

  /** What becomes of the list: the region found is shortened; or it is used up, and the regions
      behind it move up; or it is used up as the last, and an empty region stays where it ended. */
  lemma TakeReshapes(free: seq<Region>, size: int)
    requires OnBus(free) && 0 < size < INT_LIMIT && Take(free, size).0.Some?
    ensures
      var i, rest := FirstFit(free, size), Take(free, size).1;
      var r, stays := free[i], Stays(free, i, size);
      rest == if stays then free[..i] + [Region(r.lo + size, r.hi)] + free[i + 1..] else free[..i] + free[i + 1..]
  {
    CutReshapes(free, FirstFit(free, size), size);
  }

  /** Only the last region of a tidy list may be empty. */
  ghost predicate Tidy(free: seq<Region>) {
    forall i :: 0 <= i < |free| - 1 ==> !free[i].IsEmpty()
  }

  /** Empty regions do not pile up: whatever the size, a search leaves a tidy list tidy. */
  lemma TakeStaysTidy(free: seq<Region>, size: int)
    requires Tidy(free)
    ensures Tidy(Take(free, size).1)
  {
    var i, rest := FirstFit(free, size), Take(free, size).1;
    forall j | 0 <= j < |rest| - 1 ensures !rest[j].IsEmpty() {
      assert j < i ==> rest[j] == free[j];
      assert i < j && |rest| == |free| ==> rest[j] == free[j];
      assert i <= j && |rest| < |free| ==> rest[j] == free[j + 1];
    }
  }

  /** The regions of a list that are not empty, in order. */
  function NonEmpty(rs: seq<Region>): seq<Region> {
    if rs == [] then [] else (if rs[0].IsEmpty() then [] else [rs[0]]) + NonEmpty(rs[1..])
  }

  lemma {:induction false} NonEmptyAppend(r1: seq<Region>, r2: seq<Region>)
    ensures NonEmpty(r1 + r2) == NonEmpty(r1) + NonEmpty(r2)
  {
    if r1 == [] {
      assert r1 + r2 == r2;
    } else {
      assert (r1 + r2)[1..] == r1[1..] + r2;
      NonEmptyAppend(r1[1..], r2);
    }
  }

  lemma NonEmptyAround(rs: seq<Region>, before: seq<Region>, r: Region, after: seq<Region>)
    requires rs == before + [r] + after
    ensures NonEmpty(rs) == NonEmpty(before) + (if r.IsEmpty() then [] else [r]) + NonEmpty(after)
  {
    NonEmptyAppend(before + [r], after);
    NonEmptyAppend(before, [r]);
    NonEmptyOne(r);
  }

  lemma NonEmptyOne(r: Region)
    ensures NonEmpty([r]) == if r.IsEmpty() then [] else [r]
  {
    assert [r][1..] == [];
    assert NonEmpty([r]) == (if r.IsEmpty() then [] else [r]) + NonEmpty([]);
  }

  /** The regions that are not empty keep their order around the one that is cut: before and
      after it nothing changes, and of itself the rest stays if there is one. */
  lemma TakeKeepsOrder(free: seq<Region>, size: int, i: nat, before: seq<Region>, after: seq<Region>)
    requires OnBus(free) && 0 < size < INT_LIMIT && Take(free, size).0.Some?
    requires i == FirstFit(free, size) && before == free[..i] && after == free[i + 1..]
    ensures NonEmpty(free) == NonEmpty(before) + [free[i]] + NonEmpty(after)
    ensures
      NonEmpty(Take(free, size).1) ==
        NonEmpty(before)
        + (if free[i].lo + size < free[i].hi then [Region(free[i].lo + size, free[i].hi)] else [])
        + NonEmpty(after)
  {
    var r := free[i];
    FoundHasRoom(free, size);
    TakeReshapes(free, size);
    SplitInOrder(free, i, before, after);
    RestInOrder(Take(free, size).1, before, Region(r.lo + size, r.hi), after, Stays(free, i, size));
  }

  lemma FoundHasRoom(free: seq<Region>, size: int)
    requires OnBus(free) && 0 < size < INT_LIMIT && Take(free, size).0.Some?
    ensures
      var r := free[FirstFit(free, size)];
      HasRoom(r, size) && !r.IsEmpty()
  {
    var r := free[FirstFit(free, size)];
    assert Plus(r.lo, size) == r.lo + size;
  }

  lemma SplitInOrder(rs: seq<Region>, i: nat, before: seq<Region>, after: seq<Region>)
    requires i < |rs| && before == rs[..i] && after == rs[i + 1..] && !rs[i].IsEmpty()
    ensures NonEmpty(rs) == NonEmpty(before) + [rs[i]] + NonEmpty(after)
  {
    assert rs == before + [rs[i]] + after;
    NonEmptyAround(rs, before, rs[i], after);
  }

  /** The rest of a region left in the list, or dropped when nothing of it is left. */
  lemma RestInOrder(rs: seq<Region>, before: seq<Region>, rest: Region, after: seq<Region>, stays: bool)
    requires rs == if stays then before + [rest] + after else before + after
    requires !stays ==> rest.IsEmpty()
    ensures NonEmpty(rs) == NonEmpty(before) + (if rest.IsEmpty() then [] else [rest]) + NonEmpty(after)
  {
    if stays {
      NonEmptyAround(rs, before, rest, after);
    } else {
      NonEmptyAppend(before, after);
    }
  }

  lemma CutMovesOwnership(free: seq<Region>, i: nat, size: int, a: nat)
    requires i < |free| && Fits(free[i], size) && free[i].lo <= ADDRESS_LIMIT && 0 <= size < INT_LIMIT
    ensures Owners(Cut(free, i, size), a) + (if free[i].lo <= a < free[i].lo + size then 1 else 0) == Owners(free, a)
  {
    var r := free[i];
    if r.lo + size < r.hi {
      OwnersReplace(free, i, Region(r.lo + size, r.hi), a);
    } else if i + 1 < |free| {
      OwnersRemove(free, i, a);
    } else {
      OwnersReplace(free, i, Region(r.hi, r.hi), a);
    }
  }

  /** How many owners an address has after a search, counting whoever asked for the region. */
  function OwnersAfter(free: seq<Region>, size: int, a: nat): nat {
    var (got, rest) := Take(free, size);
    Owners(rest, a) + (if got.Some? && got.value.Has(a) then 1 else 0)
  }

  /** Taking a region moves exactly its addresses out of the free list. */
  lemma TakeMovesOwnership(free: seq<Region>, size: int, a: nat)
    requires OnBus(free) && 0 <= size < INT_LIMIT
    ensures OwnersAfter(free, size, a) == Owners(free, a)
  {
    var i := FirstFit(free, size);
    if i < |free| {
      CutMovesOwnership(free, i, size, a);
    }
  }

  /** A negative size moves the front of a free region back over an address it did not own. */
  lemma NegativeTakeOverlaps(free: seq<Region>, size: int)
    requires OnBus(free) && Ordered(free) && -INT_LIMIT <= size < 0 && Take(free, size).0.Some?
    ensures
      var got := Take(free, size).0.value;
      got.hi < got.lo && OwnersAfter(free, size, got.hi) == Owners(free, got.hi) + 1
  {
    var i := FirstFit(free, size);
    var r := free[i];
    assert r.lo + size >= 0;
    OwnersReplace(free, i, Region(r.lo + size, r.hi), r.lo + size);
  }

  /** A search that succeeds keeps the number of owners of every address exactly when the size
      is not negative, as an int may be. */
  lemma TakeConservesIff(free: seq<Region>, size: int)
    requires OnBus(free) && Ordered(free) && -INT_LIMIT <= size < INT_LIMIT && Take(free, size).0.Some?
    ensures (forall a: nat :: OwnersAfter(free, size, a) == Owners(free, a)) <==> size >= 0
  {
    if size >= 0 {
      forall a: nat ensures OwnersAfter(free, size, a) == Owners(free, a) {
        TakeMovesOwnership(free, size, a);
      }
    } else {
      NegativeTakeOverlaps(free, size);
    }
  }

  /** First fit: what is handed out has the size asked for, is the front of a free region that
      no earlier region could have replaced, and nothing is handed out only if nothing has room. */
  lemma TakeIsFirstFit(free: seq<Region>, size: int)
    requires OnBus(free) && 0 <= size < INT_LIMIT
    ensures
      var (got, rest) := Take(free, size);
      match got
      case None => rest == free && forall j :: 0 <= j < |free| ==> !HasRoom(free[j], size)
      case Some(r) =>
        && r.hi - r.lo == size
        && exists i :: 0 <= i < |free| && HasRoom(free[i], size) && r.lo == free[i].lo
             && forall j :: 0 <= j < i ==> !HasRoom(free[j], size)
  {
    var i := FirstFit(free, size);
    assert forall j :: 0 <= j < |free| ==> (Fits(free[j], size) <==> HasRoom(free[j], size));
    if i < |free| {
      assert HasRoom(free[i], size);
    }
  }

  function TotalFree(free: seq<Region>): nat {
    if free == [] then 0
    else Bytes(free[0]) + TotalFree(free[1..])
  }

  lemma {:induction false} TotalFreeAppend(r1: seq<Region>, r2: seq<Region>)
    ensures TotalFree(r1 + r2) == TotalFree(r1) + TotalFree(r2)
  {
    if r1 == [] {
      assert r1 + r2 == r2;
    } else {
      assert (r1 + r2)[1..] == r1[1..] + r2;
      TotalFreeAppend(r1[1..], r2);
    }
  }

  function Bytes(r: Region): nat {
    if r.IsEmpty() then 0 else r.hi - r.lo
  }

  lemma TotalFreeAround(before: seq<Region>, r: Region, after: seq<Region>)
    ensures TotalFree(before + ([r] + after)) == TotalFree(before + after) + Bytes(r)
  {
    TotalFreeAppend(before, [r] + after);
    TotalFreeAppend(before, after);
    assert ([r] + after)[1..] == after;
  }

  lemma TotalFreeReplace(free: seq<Region>, i: nat, r: Region, rest: seq<Region>)
    requires i < |free| && rest == free[i := r]
    ensures TotalFree(rest) + Bytes(free[i]) == TotalFree(free) + Bytes(r)
  {
    var before, after := free[..i], free[i + 1..];
    assert free == before + ([free[i]] + after);
    assert rest == before + ([r] + after);
    TotalFreeAround(before, free[i], after);
    TotalFreeAround(before, r, after);
  }

  lemma TotalFreeRemove(free: seq<Region>, i: nat, rest: seq<Region>)
    requires i < |free| && rest == free[..i] + free[i + 1..]
    ensures TotalFree(rest) + Bytes(free[i]) == TotalFree(free)
  {
    var before, after := free[..i], free[i + 1..];
    assert free == before + ([free[i]] + after);
    TotalFreeAround(before, free[i], after);
  }

  lemma CutDropsFreeBytes(free: seq<Region>, i: nat, size: int, rest: seq<Region>)
    requires i < |free| && Fits(free[i], size) && rest == Cut(free, i, size)
    requires free[i].lo <= ADDRESS_LIMIT && 0 <= size < INT_LIMIT
    ensures TotalFree(rest) + size == TotalFree(free)
  {
    var r := free[i];
    if r.lo + size < r.hi {
      TotalFreeReplace(free, i, Region(r.lo + size, r.hi), rest);
    } else if i + 1 < |free| {
      TotalFreeRemove(free, i, rest);
    } else {
      TotalFreeReplace(free, i, Region(r.hi, r.hi), rest);
    }
  }

  /** The free bytes drop by exactly the size handed out. */
  lemma TakeDropsFreeBytes(free: seq<Region>, size: int)
    requires OnBus(free) && 0 <= size < INT_LIMIT
    ensures
      var (got, rest) := Take(free, size);
      TotalFree(rest) + (if got.Some? then size else 0) == TotalFree(free)
  {
    var i := FirstFit(free, size);
    if i < |free| {
      CutDropsFreeBytes(free, i, size, Cut(free, i, size));
    }
  }

  // --------------------------------------------------- __alloc and __free

  /** __alloc into entry id.  The size reaches the search as an int; if that fails, the region is
      put at the break, read as an int, and grow is how far the system call moves the break. */
  function Alloc(s: Space, id: nat, size: nat, grow: nat): Space
    requires id < |s.table|
  {
    var (got, rest) := Take(s.free, Narrow(size));
    match got
    case Some(r) => s.(free := rest, table := s.table[id := r])
    case None =>
      var start := Plus(0, Narrow(s.sbrk));
      Space(rest, s.table[id := Region(start, Plus(start, size))], s.sbrk + grow)
  }

  /** __free of entry id: the region goes to the front of the free list, unless it is empty. */
  function Release(s: Space, id: nat): Space
    requires id < |s.table|
  {
    var r := s.table[id];
    s.(free := if r.IsEmpty() then s.free else [r] + s.free, table := s.table[id := NOTHING])
  }

  /** __alloc is served from the free list. */
  predicate Reuses(s: Space, size: nat) {
    Take(s.free, Narrow(size)).0.Some?
  }

  /** A region served from the free list has the size asked for exactly if that is below 2^31:
      the search sees the low 32 bits only, as a signed number. */
  lemma ReuseServesIff(s: Space, id: nat, size: nat, grow: nat)
    requires id < |s.table| && OnBus(s.free) && Reuses(s, size)
    ensures
      var r := Alloc(s, id, size, grow).table[id];
      r.hi - r.lo == size <==> size < INT_LIMIT
  {
    var i := FirstFit(s.free, Narrow(size));
    assert s.free[i].lo + Narrow(size) >= 0;
  }

  /** A region put at the break starts there exactly if the break is below 2^31, since it is
      read through an int; it then has the size asked for exactly if its end does not wrap. */
  lemma GrowthServesIff(s: Space, id: nat, size: nat, grow: nat)
    requires id < |s.table| && !Reuses(s, size) && s.sbrk <= ADDRESS_LIMIT && size < WORD
    ensures
      var r := Alloc(s, id, size, grow).table[id];
      && (r.lo == s.sbrk <==> s.sbrk < INT_LIMIT)
      && (s.sbrk < INT_LIMIT ==> (r.hi - r.lo == size <==> s.sbrk + size < WORD))
  {
    var n := Narrow(s.sbrk);
    if n < 0 {
      assert Plus(0, n) == n + WORD;
    }
    if s.sbrk < INT_LIMIT && s.sbrk + size >= WORD {
      assert Plus(s.sbrk, size) == s.sbrk + size - WORD;
    }
  }

  lemma ReuseOwners(s: Space, id: nat, size: nat, grow: nat, a: nat)
    requires id < |s.table| && OnBus(s.free) && Reuses(s, size)
    ensures OwnersOf(Alloc(s, id, size, grow), a) + (if s.table[id].Has(a) then 1 else 0) ==
      Owners(s.table, a) + OwnersAfter(s.free, Narrow(size), a)
  {
    OwnersReplace(s.table, id, Take(s.free, Narrow(size)).0.value, a);
  }

  /** The allocation grows the space: break and size are such that the region ends up there. */
  ghost predicate Grows(s: Space, size: nat) {
    !Reuses(s, size) && OnBus(s.free) && s.sbrk < INT_LIMIT && s.sbrk + size < WORD
  }

  lemma GrowthOwners(s: Space, id: nat, size: nat, grow: nat, a: nat)
    requires id < |s.table| && Grows(s, size)
    ensures Alloc(s, id, size, grow).free == s.free
    ensures OwnersOf(Alloc(s, id, size, grow), a) + (if s.table[id].Has(a) then 1 else 0) ==
      OwnersOf(s, a) + (if s.sbrk <= a < s.sbrk + size then 1 else 0)
  {
    OwnersReplace(s.table, id, Region(s.sbrk, s.sbrk + size), a);
  }

  lemma ReleaseOwners(s: Space, id: nat, a: nat)
    requires id < |s.table|
    ensures OwnersOf(Release(s, id), a) == OwnersOf(s, a)
  {
    OwnersReplace(s.table, id, NOTHING, a);
    assert ([s.table[id]] + s.free)[1..] == s.free;
  }

  /** Releasing entry id clears it, to the bounds that mark it unused, and touches no other entry
      and not the break; the region becomes the head of the free list, if it is not empty. */
  lemma ReleaseEffect(s: Space, id: nat)
    requires id < |s.table|
    ensures
      var s', r := Release(s, id), s.table[id];
      && |s'.table| == |s.table| && s'.table[id] == Region(0, 0) && s'.sbrk == s.sbrk
      && (forall j :: 0 <= j < |s.table| && j != id ==> s'.table[j] == s.table[j])
      && |s'.free| == |s.free| + (if r.IsEmpty() then 0 else 1)
      && s'.free[|s'.free| - |s.free|..] == s.free
      && (!r.IsEmpty() ==> s'.free[0] == r)
  {
  }

  /** It moves exactly the addresses of the region from the table to the free list. */
  lemma ReleaseMovesOwnership(s: Space, id: nat, a: nat)
    requires id < |s.table|
    ensures
      var s', own := Release(s, id), if s.table[id].Has(a) then 1 else 0;
      Owners(s'.free, a) == Owners(s.free, a) + own && Owners(s'.table, a) + own == Owners(s.table, a)
  {
    OwnersReplace(s.table, id, NOTHING, a);
    assert ([s.table[id]] + s.free)[1..] == s.free;
  }

  /** A released region is the first one found for its own size, and allocating that size into
      the same entry undoes the release. */
  lemma AllocUndoesRelease(s: Space, id: nat, grow: nat)
    requires id < |s.table| && !s.table[id].IsEmpty()
    requires s.table[id].hi <= ADDRESS_LIMIT && s.table[id].hi - s.table[id].lo < INT_LIMIT
    ensures
      var r, s' := s.table[id], Release(s, id);
      && Take(s'.free, r.hi - r.lo).0 == Some(r)
      && (s.free != [] ==> Alloc(s', id, r.hi - r.lo, grow) == s)
  {
    var r, s' := s.table[id], Release(s, id);
    assert s'.free[0] == r && Fits(r, r.hi - r.lo);
    assert FirstFit(s'.free, r.hi - r.lo) == 0;
    assert Alloc(s', id, r.hi - r.lo, grow).table == s.table;
    assert s.free != [] ==> s'.free[..0] + s'.free[1..] == s.free;
  }

  /** Allocating into entry id touches no other entry; it moves the break, by what the system
      call grants, exactly if no free region serves it. */
  lemma AllocEffect(s: Space, id: nat, size: nat, grow: nat)
    requires id < |s.table|
    ensures
      var s' := Alloc(s, id, size, grow);
      && |s'.table| == |s.table| && (forall j :: 0 <= j < |s.table| && j != id ==> s'.table[j] == s.table[j])
      && s'.sbrk == s.sbrk + (if Reuses(s, size) then 0 else grow)
  {
  }

  /** Every address has as many owners in one space as in the other. */
  ghost predicate SameOwners(s: Space, s': Space) {
    forall a: nat :: OwnersOf(s', a) == OwnersOf(s, a)
  }

  /** Releasing a region never loses or duplicates an address. */
  lemma ReleaseConserves(s: Space, id: nat)
    requires id < |s.table|
    ensures SameOwners(s, Release(s, id))
  {
    forall a: nat ensures OwnersOf(Release(s, id), a) == OwnersOf(s, a) {
      ReleaseOwners(s, id, a);
    }
  }

  /** An allocation served from the free list keeps the owner of every address exactly when
      the table entry it writes was unused: __alloc overwrites the entry without looking, and
      the region it held is then neither free nor live. */
  lemma ReuseConservesIff(s: Space, id: nat, size: nat, grow: nat)
    requires id < |s.table| && OnBus(s.free) && Reuses(s, size) && Narrow(size) >= 0
    ensures SameOwners(s, Alloc(s, id, size, grow)) <==> s.table[id].IsEmpty()
  {
    var s' := Alloc(s, id, size, grow);
    if s.table[id].IsEmpty() {
      forall a: nat ensures OwnersOf(s', a) == OwnersOf(s, a) {
        ReuseOwners(s, id, size, grow, a);
        TakeMovesOwnership(s.free, Narrow(size), a);
      }
    } else {
      var a := s.table[id].lo;
      ReuseOwners(s, id, size, grow, a);
      TakeMovesOwnership(s.free, Narrow(size), a);
      OwnersWitness(s.table, id, a);
      assert OwnersOf(s', a) != OwnersOf(s, a);
    }
  }

  /** Into an unused entry, it does so exactly when the size is not negative as an int. */
  lemma NarrowedReuseConservesIff(s: Space, id: nat, size: nat, grow: nat)
    requires id < |s.table| && s.table[id].IsEmpty()
    requires OnBus(s.free) && Ordered(s.free) && Reuses(s, size)
    ensures SameOwners(s, Alloc(s, id, size, grow)) <==> Narrow(size) >= 0
  {
    var s' := Alloc(s, id, size, grow);
    if Narrow(size) >= 0 {
      ReuseConservesIff(s, id, size, grow);
    } else {
      var a := Take(s.free, Narrow(size)).0.value.hi;
      NegativeTakeOverlaps(s.free, Narrow(size));
      ReuseOwners(s, id, size, grow, a);
      assert OwnersOf(s', a) != OwnersOf(s, a);
    }
  }

  // ---------------------------------------------------------------- whole runs

  datatype Op = DoAlloc(id: nat, size: nat, grow: nat) | DoRelease(id: nat)

  /** The operation can be applied as the library uses it: an allocation goes to an unused entry. */
  predicate Applicable(s: Space, op: Op) {
    && op.id < |s.table|
    && (op.DoAlloc? ==> s.table[op.id].IsEmpty())
  }

  function Do(s: Space, op: Op): Space
    requires Applicable(s, op)
  {
    match op
    case DoAlloc(id, size, grow) => Alloc(s, id, size, grow)
    case DoRelease(id) => Release(s, id)
  }

  ghost predicate IsRun(ss: seq<Space>, ops: seq<Op>) {
    && |ss| == |ops| + 1
    && forall n :: 0 <= n < |ops| ==> Applicable(ss[n], ops[n]) && ss[n + 1] == Do(ss[n], ops[n])
  }

  ghost predicate SpaceOnBus(s: Space) {
    OnBus(s.free) && OnBus(s.table)
  }

  /** The space a process starts with: an empty free region, no live one, the break at zero. */
  function NewSpace(): Space {
    Space([NOTHING], seq(TABLE_SIZE, _ => NOTHING), 0)
  }

  lemma {:induction false} NothingOwned(rs: seq<Region>, a: nat)
    requires forall i :: 0 <= i < |rs| ==> rs[i] == NOTHING
    ensures Owners(rs, a) == 0
  {
    if rs != [] {
      NothingOwned(rs[1..], a);
    }
  }

  /** A run can start there: all that the theorems about runs assume holds of it. */
  lemma NewSpaceIsSound()
    ensures Safe(NewSpace()) && Tidy(NewSpace().free)
  {
    var s := NewSpace();
    forall a: nat ensures OwnersOf(s, a) == 0 {
      NothingOwned(s.free, a);
      NothingOwned(s.table, a);
    }
  }

  /** The operation is a release, or an allocation served from the free list for a size that is
      not negative as an int. */
  predicate Recycles(s: Space, op: Op) {
    op.DoAlloc? ==> Reuses(s, op.size) && Narrow(op.size) >= 0
  }

  lemma RecyclingStep(s: Space, op: Op)
    requires Applicable(s, op) && Recycles(s, op) && SpaceOnBus(s)
    ensures SameOwners(s, Do(s, op)) && SpaceOnBus(Do(s, op))
  {
    match op
    case DoAlloc(id, size, grow) =>
      ReuseConservesIff(s, id, size, grow);
      ReuseStaysOnBus(s, id, size, grow);
    case DoRelease(id) => ReleaseConserves(s, id);
  }

  lemma ReuseStaysOnBus(s: Space, id: nat, size: nat, grow: nat)
    requires id < |s.table| && SpaceOnBus(s) && Reuses(s, size) && Narrow(size) >= 0
    ensures SpaceOnBus(Alloc(s, id, size, grow))
  {
    var i := FirstFit(s.free, Narrow(size));
    assert s.free[i].lo <= ADDRESS_LIMIT && s.free[i].hi <= ADDRESS_LIMIT;
  }

  /** Over any sequence of releases and of allocations served from the free list, every
      address has as many owners at the end as at the start: the bytes covered by free and live
      regions never change, and regions that were disjoint stay disjoint. */
  lemma {:induction false} RecyclingConserves(ss: seq<Space>, ops: seq<Op>, n: nat)
    requires IsRun(ss, ops) && n < |ss| && SpaceOnBus(ss[0])
    requires forall m :: 0 <= m < n ==> Recycles(ss[m], ops[m])
    ensures SameOwners(ss[0], ss[n]) && SpaceOnBus(ss[n]) && ss[n].sbrk == ss[0].sbrk
    ensures Disjoint(ss[n]) <==> Disjoint(ss[0])
  {
    if n > 0 {
      RecyclingConserves(ss, ops, n - 1);
      var s, op := ss[n - 1], ops[n - 1];
      assert Applicable(s, op) && ss[n] == Do(s, op) && Recycles(s, op);
      RecyclingStep(s, op);
    }
  }

  /** How far the first n operations move the break: those that find nothing free. */
  function BreakMoves(ss: seq<Space>, ops: seq<Op>, n: nat): nat
    requires n <= |ops| <= |ss|
  {
    if n == 0 then 0
    else
      var op := ops[n - 1];
      BreakMoves(ss, ops, n - 1) + (if op.DoAlloc? && !Reuses(ss[n - 1], op.size) then op.grow else 0)
  }

  /** Over any run the break is where it started plus what the system call granted to exactly
      the allocations that found nothing free. */
  lemma {:induction false} BreakIsSumOfGrowths(ss: seq<Space>, ops: seq<Op>, n: nat)
    requires IsRun(ss, ops) && n < |ss|
    ensures ss[n].sbrk == ss[0].sbrk + BreakMoves(ss, ops, n)
  {
    if n > 0 {
      BreakIsSumOfGrowths(ss, ops, n - 1);
      assert Applicable(ss[n - 1], ops[n - 1]) && ss[n] == Do(ss[n - 1], ops[n - 1]);
    }
  }

  /** Over any run at most the last free region is empty, if it was so at the start. */
  lemma {:induction false} RunStaysTidy(ss: seq<Space>, ops: seq<Op>, n: nat)
    requires IsRun(ss, ops) && n < |ss| && Tidy(ss[0].free)
    ensures Tidy(ss[n].free)
  {
    if n > 0 {
      RunStaysTidy(ss, ops, n - 1);
      var s, op := ss[n - 1], ops[n - 1];
      assert Applicable(s, op) && ss[n] == Do(s, op);
      if op.DoAlloc? { TakeStaysTidy(s.free, Narrow(op.size)); }
    }
  }

  /** Disjointness says what it should of any two non-empty live or free regions. */
  lemma DisjointRegions(s: Space, i: nat, j: nat, a: nat)
    requires Disjoint(s) && i < |s.free + s.table| && j < |s.free + s.table| && i != j
    requires (s.free + s.table)[i].Has(a)
    ensures !(s.free + s.table)[j].Has(a)
  {
    OwnersAppend(s.free, s.table, a);
    OwnersWitness(s.free + s.table, i, a);
    assert OwnersOf(s, a) <= 1;
  }

  // ------------------------------------------------------------- the growth path

  /** All regions lie below the program break. */
  ghost predicate BelowBreak(s: Space) {
    forall a: nat :: OwnersOf(s, a) > 0 ==> a < s.sbrk
  }

  /** When no free region fits, the new region is put at the old program break.  It can then
      not overlap anything, and the regions stay below the break, exactly when the system call
      moves the break by at least the size. */
  lemma GrowthIsSafeIff(s: Space, id: nat, size: nat, grow: nat)
    requires id < |s.table| && s.table[id].IsEmpty() && Grows(s, size)
    requires Disjoint(s) && BelowBreak(s)
    ensures Disjoint(Alloc(s, id, size, grow))
    ensures BelowBreak(Alloc(s, id, size, grow)) <==> grow >= size
  {
    var s' := Alloc(s, id, size, grow);
    forall a: nat
      ensures OwnersOf(s', a) <= 1
      ensures OwnersOf(s', a) > 0 <==> OwnersOf(s, a) > 0 || s.sbrk <= a < s.sbrk + size
    {
      GrowthOwners(s, id, size, grow, a);
      assert OwnersOf(s, a) <= 1;
    }
    if grow < size {
      assert OwnersOf(s', s.sbrk + size - 1) > 0;
    }
  }

  /** Two growing allocations in a row keep all regions disjoint exactly when the first one
      moves the break by at least its size. */
  lemma TwoGrowthsDisjointIff(s: Space, i: nat, m: nat, g: nat, j: nat, n: nat, h: nat)
    requires i < |s.table| && j < |s.table| && i != j && s.table[i].IsEmpty() && s.table[j].IsEmpty()
    requires m > 0 && n > 0 && Disjoint(s) && BelowBreak(s)
    requires Grows(s, m) && Grows(Alloc(s, i, m, g), n)
    ensures Disjoint(Alloc(Alloc(s, i, m, g), j, n, h)) <==> g >= m
  {
    var s1 := Alloc(s, i, m, g);
    GrowthIsSafeIff(s, i, m, g);
    if g >= m {
      GrowthIsSafeIff(s1, j, n, h);
    } else {
      var a := s.sbrk + g;
      GrowthOwners(s, i, m, g, a);
      GrowthOwners(s1, j, n, h, a);
      assert OwnersOf(Alloc(s1, j, n, h), a) >= 2;
    }
  }

  /** As it stands inc_vma_limit never moves the break: of any two allocations in a row that no
      free region can serve, the second is given bytes of the first. */
  lemma StubbedGrowthOverlaps(s: Space, i: nat, m: nat, j: nat, n: nat)
    requires i < |s.table| && j < |s.table| && i != j && s.table[i].IsEmpty() && s.table[j].IsEmpty()
    requires m > 0 && n > 0 && Disjoint(s) && BelowBreak(s)
    requires Grows(s, m) && Grows(s, n)
    ensures !Disjoint(Alloc(Alloc(s, i, m, 0), j, n, 0))
  {
    GrowthOwners(s, i, m, 0, 0);
    TwoGrowthsDisjointIff(s, i, m, 0, j, n, 0);
  }

  /** Break and size fit an int, as the code reads them. */
  predicate Ordinary(s: Space, op: Op) {
    op.DoAlloc? ==> op.size < INT_LIMIT && s.sbrk < INT_LIMIT
  }

  /** If the operation grows the space, it moves the break by at least the size. */
  predicate GrowsEnough(s: Space, op: Op) {
    op.DoAlloc? && !Reuses(s, op.size) ==> op.grow >= op.size
  }

  ghost predicate Safe(s: Space) {
    SpaceOnBus(s) && Disjoint(s) && BelowBreak(s)
  }

  /** One operation on a safe space leaves it disjoint, and safe exactly if it grows enough. */
  lemma SafeStepIff(s: Space, op: Op)
    requires Applicable(s, op) && Ordinary(s, op) && Safe(s)
    ensures Disjoint(Do(s, op)) && SpaceOnBus(Do(s, op))
    ensures BelowBreak(Do(s, op)) <==> GrowsEnough(s, op)
  {
    if Recycles(s, op) {
      RecyclingStep(s, op);
      assert Do(s, op).sbrk == s.sbrk;
    } else {
      assert Grows(s, op.size);
      GrowthIsSafeIff(s, op.id, op.size, op.grow);
      GrowthOwners(s, op.id, op.size, op.grow, 0);
    }
  }

  /** A run stays safe exactly as long as every allocation that grows the space moves the break
      by at least its size. */
  lemma {:induction false} GrowingRunSafeIff(ss: seq<Space>, ops: seq<Op>, n: nat)
    requires IsRun(ss, ops) && n < |ss| && Safe(ss[0])
    requires forall m :: 0 <= m < n ==> Ordinary(ss[m], ops[m])
    ensures (forall m :: 0 <= m <= n ==> Safe(ss[m])) <==> (forall m :: 0 <= m < n ==> GrowsEnough(ss[m], ops[m]))
  {
    if n > 0 {
      GrowingRunSafeIff(ss, ops, n - 1);
      var s, op := ss[n - 1], ops[n - 1];
      assert Applicable(s, op) && ss[n] == Do(s, op) && Ordinary(s, op);
      if Safe(s) {
        SafeStepIff(s, op);
      }
    }
  }

  /** Growth safe over whole runs: if every allocation that grows the space moves the break by
      at least its size, regions stay disjoint and below the break for ever. */
  lemma GrowingRunStaysDisjoint(ss: seq<Space>, ops: seq<Op>, n: nat)
    requires IsRun(ss, ops) && n < |ss| && Safe(ss[0])
    requires forall m :: 0 <= m < n ==> Ordinary(ss[m], ops[m]) && GrowsEnough(ss[m], ops[m])
    ensures Disjoint(ss[n]) && BelowBreak(ss[n])
  {
    GrowingRunSafeIff(ss, ops, n);
  }
}
