/** The memory devices of src/mm-memphy.c: a linked list of free frames over a flat byte
    array, and the page copy of src/mm64.c between two devices. */
module FrameDevice {
  import opened Options
  import opened Frames

  // struct framephy_struct
  class FramePhy {
    var fpn: nat
    var fp_next: FramePhy?

    constructor (fpn: nat, next: FramePhy?)
      ensures this.fpn == fpn && fp_next == next
    {
      this.fpn, fp_next := fpn, next;
    }
  }

  function NodeAt(nodes: seq<FramePhy>, i: nat): FramePhy? {
    if i < |nodes| then nodes[i] else null
  }

  /** The bytes of page f of a flat storage. */
  function PageOf(bytes: seq<byte>, f: nat): Page
    requires (f + 1) * PAGE_SIZE <= |bytes|
  {
    bytes[f * PAGE_SIZE .. (f + 1) * PAGE_SIZE]
  }

  /** The storage as pages, one for each whole page it holds. */
  function PagesOf(bytes: seq<byte>): seq<Page> {
    seq(|bytes| / PAGE_SIZE, f requires 0 <= f < |bytes| / PAGE_SIZE => PageOf(bytes, f))
  }

  /** The storage with the bytes from `at` on replaced by `part`. */
  function Spliced(bytes: seq<byte>, at: nat, part: seq<byte>): seq<byte>
    requires at + |part| <= |bytes|
  {
    bytes[..at] + part + bytes[at + |part|..]
  }

  lemma SplicedElsewhere(bytes: seq<byte>, at: nat, part: seq<byte>, i: nat)
    requires at + |part| <= |bytes| && i < |bytes| && !(at <= i < at + |part|)
    ensures Spliced(bytes, at, part)[i] == bytes[i]
  {
  }

  /** The storage with page f replaced. */
  function WithPage(bytes: seq<byte>, f: nat, page: Page): seq<byte>
    requires (f + 1) * PAGE_SIZE <= |bytes| && |page| == PAGE_SIZE
  {
    Spliced(bytes, f * PAGE_SIZE, page)
  }

  /** Flat storage refines independent pages: replacing one page changes that page and no other. */
  lemma WithPageIsIndependent(bytes: seq<byte>, f: nat, page: Page)
    requires f < |bytes| / PAGE_SIZE && |page| == PAGE_SIZE
    ensures |WithPage(bytes, f, page)| == |bytes|
    ensures PagesOf(WithPage(bytes, f, page)) == PagesOf(bytes)[f := page]
  {
    var bytes' := WithPage(bytes, f, page);
    forall g | 0 <= g < |bytes| / PAGE_SIZE ensures PagesOf(bytes')[g] == PagesOf(bytes)[f := page][g] {
      forall k | 0 <= k < PAGE_SIZE
        ensures PageOf(bytes', g)[k] == (if g == f then page[k] else PageOf(bytes, g)[k])
      {
        assert PageOf(bytes', g)[k] == bytes'[g * PAGE_SIZE + k];
      }
      assert PageOf(bytes', g) == if g == f then page else PageOf(bytes, g);
    }
  }

  // struct memphy_struct
  class MemPhy {
    const storage: array<byte>
    var rdmflg: bool
    var cursor: nat
    var free_fp_list: FramePhy?
    ghost var nodes: seq<FramePhy>   // the nodes of the free list, in order
    ghost var free: seq<nat>         // the frames they hold

    ghost predicate Valid()
      reads this, nodes
    {
      && free_fp_list == NodeAt(nodes, 0)
      && (nodes != [] ==> LinkedUpToLast() && nodes[|nodes| - 1].fp_next == null)
      && |free| == |nodes|
    }

    /** The list, but for the link of its last node. */
    ghost predicate LinkedUpToLast()
      reads this, nodes
    {
      && nodes != [] && free_fp_list == nodes[0] && |free| == |nodes|
      && (forall i {:trigger nodes[i].fp_next} :: 0 <= i < |nodes| - 1 ==> nodes[i].fp_next == nodes[i + 1])
      && (forall i :: 0 <= i < |nodes| ==> nodes[i].fpn == free[i])
      && (forall i, j :: 0 <= i < j < |nodes| ==> nodes[i] != nodes[j])
    }

    /** The device as free list and pages, for a given set of held frames. */
    ghost function Abstract(held: set<nat>): Device
      reads this, storage
    {
      Device(free, held, PagesOf(storage[..]))
    }

    /** init_memphy: cleared storage, all frames free, in order.  A device of one frame has that
        frame on its list, with a link that is never set; one of none has no list set. */
    constructor (max_size: nat, randomflg: bool)
      ensures fresh(storage) && storage.Length == max_size && rdmflg == randomflg
      ensures forall i :: 0 <= i < max_size ==> storage[i] == 0
      ensures max_size / PAGE_SIZE >= 2 ==>
        && Valid() && fresh(nodes)
        && Abstract({}) == Formatted(PagesOf(storage[..])) && Partition(Abstract({}))
      ensures max_size / PAGE_SIZE == 1 ==> free_fp_list != null && free_fp_list.fpn == 0
    {
      storage := new byte[max_size](_ => 0);
      free_fp_list := *;
      rdmflg := randomflg;
      cursor := *;
      nodes, free := [], [];
      new;
      var rc := Format();
      if !rdmflg {
        cursor := 0;
      }
    }

    /** One round of the loop of MEMPHY_format: link a node for frame fpn behind the last one. */
    method Append(fst: FramePhy, fpn: nat) returns (newfst: FramePhy)
      requires LinkedUpToLast() && fst == nodes[|nodes| - 1]
      modifies this`nodes, this`free, fst
      ensures Valid() && fresh(newfst)
      ensures nodes == old(nodes) + [newfst] && free == old(free) + [fpn]
    {
      newfst := new FramePhy(fpn, null);
      fst.fp_next := newfst;
      nodes, free := nodes + [newfst], free + [fpn];
    }

    /** MEMPHY_format: build the list of all frames, in order.  A device too small for one
        frame is left as it is.  The link of the first node is set only with the second. */
    method Format() returns (rc: int)
      modifies this`free_fp_list, this`nodes, this`free
      ensures rc == if storage.Length / PAGE_SIZE == 0 then -1 else 0
      ensures rc == -1 ==> free_fp_list == old(free_fp_list) && nodes == old(nodes) && free == old(free)
      ensures storage.Length / PAGE_SIZE >= 2 ==>
        && Valid() && fresh(nodes)
        && Abstract({}) == Formatted(PagesOf(storage[..])) && Partition(Abstract({}))
      ensures storage.Length / PAGE_SIZE == 1 ==> free_fp_list != null && free_fp_list.fpn == 0
    {
      var numfp := storage.Length / PAGE_SIZE;
      if numfp <= 0 {
        return -1;
      }
      var unset: FramePhy? := *;
      var fst := new FramePhy(0, unset);
      free_fp_list := fst;
      nodes, free := [fst], [0];
      assert free == Counting(1);
      var iter := 1;
      while iter < numfp
        invariant 1 <= iter <= numfp
        invariant LinkedUpToLast() && fresh(nodes) && free == Counting(iter)
        invariant fst == nodes[iter - 1] && (iter > 1 ==> Valid())
      {
        fst := Append(fst, iter);
        iter := iter + 1;
        assert free == Counting(iter);
      }
      FormattedPartition(PagesOf(storage[..]));
      return 0;
    }

    /** MEMPHY_get_freefp: take the first frame of the free list. */
    method GetFreeFp() returns (fpn: Option<nat>)
      requires Valid()
      modifies this`free_fp_list, this`nodes, this`free
      ensures Valid() && (forall x :: x in nodes ==> x in old(nodes))
      ensures forall held :: (fpn, Abstract(held + (if fpn.Some? then {fpn.value} else {})))
                          == Get(old(Device(free, held, PagesOf(storage[..]))))
      ensures old(free) == (if fpn.Some? then [fpn.value] else []) + free
    {
      var fp := free_fp_list;
      if fp == null {
        return None;
      }
      fpn := Some(fp.fpn);
      free_fp_list := fp.fp_next;
      nodes, free := nodes[1..], free[1..];
    }

    /** MEMPHY_put_freefp: put a frame at the front of the free list. */
    method PutFreeFp(fpn: nat)
      requires Valid()
      modifies this`free_fp_list, this`nodes, this`free
      ensures Valid() && (forall x :: x in nodes ==> x in old(nodes) || fresh(x))
      ensures free == [fpn] + old(free)
      ensures forall held :: Abstract(held - {fpn}) == Put(old(Device(free, held, PagesOf(storage[..]))), fpn)
    {
      var newnode := new FramePhy(fpn, free_fp_list);
      free_fp_list := newnode;
      nodes, free := [newnode] + nodes, [fpn] + free;
    }

    /** MEMPHY_mv_csr: wind the cursor forward from the start, cell by cell. */
    method MvCsr(offset: nat)
      requires storage.Length > 0
      modifies this`cursor
      ensures cursor == if offset < storage.Length then offset else 0
    {
      var numstep := 0;
      cursor := 0;
      while numstep < offset && numstep < storage.Length
        invariant 0 <= numstep <= storage.Length && numstep <= offset
        invariant cursor == if numstep < storage.Length then numstep else 0
      {
        cursor := (cursor + 1) % storage.Length;
        numstep := numstep + 1;
      }
    }
  }

  // What a call may write, of a device that may be missing.
  ghost function Present(mp: MemPhy?): set<MemPhy> { if mp == null then {} else {mp} }
  ghost function Storage(mp: MemPhy?): set<array<byte>> { if mp == null then {} else {mp.storage} }

  /** MEMPHY_seq_read: refuses exactly the devices that are not random access. */
  method SeqRead(mp: MemPhy?, addr: nat) returns (value: Option<byte>)
    requires mp != null ==> addr < mp.storage.Length
    modifies Present(mp)`cursor
    ensures value == if mp != null && mp.rdmflg then Some(mp.storage[addr]) else None
    ensures mp != null ==> mp.cursor == if mp.rdmflg then addr else old(mp.cursor)
  {
    if mp == null || !mp.rdmflg {
      return None;
    }
    mp.MvCsr(addr);
    return Some(mp.storage[addr]);
  }

  /** MEMPHY_read: the addressed cell, or failure for no device or one that is not random access,
      which is passed on to the sequential read. */
  method Read(mp: MemPhy?, addr: nat) returns (value: Option<byte>)
    requires mp != null ==> addr < mp.storage.Length
    modifies Present(mp)`cursor
    ensures value == if mp != null && mp.rdmflg then Some(mp.storage[addr]) else None
    ensures mp != null ==> mp.cursor == old(mp.cursor)
  {
    if mp == null {
      return None;
    }
    if mp.rdmflg {
      value := Some(mp.storage[addr]);
    } else {
      value := SeqRead(mp, addr);
    }
  }

  /** MEMPHY_seq_write, with the same test. */
  method SeqWrite(mp: MemPhy?, addr: nat, value: byte) returns (rc: int)
    requires mp != null ==> addr < mp.storage.Length
    modifies Present(mp)`cursor, Storage(mp)
    ensures rc == if mp != null && mp.rdmflg then 0 else -1
    ensures mp != null ==>
      && mp.storage[..] == (if mp.rdmflg then old(mp.storage[..])[addr := value] else old(mp.storage[..]))
      && mp.cursor == if mp.rdmflg then addr else old(mp.cursor)
  {
    if mp == null || !mp.rdmflg {
      return -1;
    }
    mp.MvCsr(addr);
    mp.storage[addr] := value;
    return 0;
  }

  /** MEMPHY_write: the addressed cell is written, or the same failures and nothing is. */
  method Write(mp: MemPhy?, addr: nat, data: byte) returns (rc: int)
    requires mp != null ==> addr < mp.storage.Length
    modifies Present(mp)`cursor, Storage(mp)
    ensures rc == if mp != null && mp.rdmflg then 0 else -1
    ensures mp != null ==>
      && mp.storage[..] == (if mp.rdmflg then old(mp.storage[..])[addr := data] else old(mp.storage[..]))
      && mp.cursor == old(mp.cursor)
  {
    if mp == null {
      return -1;
    }
    if mp.rdmflg {
      mp.storage[addr] := data;
      return 0;
    }
    rc := SeqWrite(mp, addr, data);
  }

  /** One round of the copy loop: read a cell here, write it there.  If the read fails, what is
      written is a byte that was never set. */
  method CopyCell(mpsrc: MemPhy, addrsrc: nat, mpdst: MemPhy, addrdst: nat)
    requires addrsrc < mpsrc.storage.Length && addrdst < mpdst.storage.Length
    modifies mpsrc`cursor, mpdst`cursor, mpdst.storage
    ensures !mpdst.rdmflg ==> mpdst.storage[..] == old(mpdst.storage[..])
    ensures mpdst.rdmflg ==> mpdst.storage[..] == old(mpdst.storage[..])[addrdst := mpdst.storage[addrdst]]
    ensures mpsrc.rdmflg && mpdst.rdmflg ==> mpdst.storage[addrdst] == old(mpsrc.storage[addrsrc])
  {
    var data: byte := *;
    var value := Read(mpsrc, addrsrc);
    if value.Some? {
      data := value.value;
    }
    var rc := Write(mpdst, addrdst, data);
  }

  /** A cell of the source page not yet copied still has its old value, even if source and
      destination are one device: the cells written so far lie elsewhere. */
  lemma UncopiedCell(bytes: seq<byte>, srcfpn: nat, dstfpn: nat, cellidx: nat, part: seq<byte>)
    requires srcfpn < |bytes| / PAGE_SIZE && dstfpn < |bytes| / PAGE_SIZE && cellidx < PAGE_SIZE && |part| == cellidx
    ensures Spliced(bytes, dstfpn * PAGE_SIZE, part)[srcfpn * PAGE_SIZE + cellidx]
         == bytes[srcfpn * PAGE_SIZE + cellidx] == PageOf(bytes, srcfpn)[cellidx]
  {
    SplicedElsewhere(bytes, dstfpn * PAGE_SIZE, part, srcfpn * PAGE_SIZE + cellidx);
  }

  lemma SplicedNext(bytes: seq<byte>, at: nat, part: seq<byte>, x: byte)
    requires at + |part| < |bytes|
    ensures Spliced(bytes, at, part)[at + |part| := x] == Spliced(bytes, at, part + [x])
  {
  }

  /** One cell more: what the source holds there is the cell of its page as it was. */
  lemma SourceCell(src: seq<byte>, now: seq<byte>, srcfpn: nat, dstfpn: nat, part: seq<byte>, same: bool)
    requires srcfpn < |src| / PAGE_SIZE && |part| < PAGE_SIZE
    requires same ==> dstfpn < |src| / PAGE_SIZE && now == Spliced(src, dstfpn * PAGE_SIZE, part)
    requires !same ==> now == src
    ensures |now| == |src| && now[srcfpn * PAGE_SIZE + |part|] == PageOf(src, srcfpn)[|part|]
  {
    if same {
      UncopiedCell(src, srcfpn, dstfpn, |part|, part);
    }
  }

  /** The copy loop has brought over `part`: src and dst are the storages at the start, from and to
      the storages now; `same` says that they are one, rsrc and rdst which are random access. */
  predicate Copied(from: seq<byte>, to: seq<byte>, src: seq<byte>, srcfpn: nat, dst: seq<byte>, dstfpn: nat,
      part: seq<byte>, same: bool, rsrc: bool, rdst: bool)
    requires srcfpn < |src| / PAGE_SIZE && dstfpn < |dst| / PAGE_SIZE && |part| <= PAGE_SIZE
  {
    && |from| == |src|
    && (if same then src == dst && from == to else from == src)
    && to == (if rdst then Spliced(dst, dstfpn * PAGE_SIZE, part) else dst)
    && (rsrc && rdst ==> part == PageOf(src, srcfpn)[..|part|])
  }

  lemma CopiedNext(from: seq<byte>, to: seq<byte>, src: seq<byte>, srcfpn: nat, dst: seq<byte>, dstfpn: nat,
      part: seq<byte>, same: bool, rsrc: bool, rdst: bool, x: byte, from': seq<byte>, to': seq<byte>)
    requires srcfpn < |src| / PAGE_SIZE && dstfpn < |dst| / PAGE_SIZE && |part| < PAGE_SIZE
    requires Copied(from, to, src, srcfpn, dst, dstfpn, part, same, rsrc, rdst)
    requires |to| == |dst| && to' == if rdst then to[dstfpn * PAGE_SIZE + |part| := x] else to
    requires from' == if same then to' else from
    requires rsrc && rdst ==> x == from[srcfpn * PAGE_SIZE + |part|]
    ensures Copied(from', to', src, srcfpn, dst, dstfpn, part + [x], same, rsrc, rdst)
  {
    if rdst {
      SplicedNext(dst, dstfpn * PAGE_SIZE, part, x);
      SourceCell(src, from, srcfpn, dstfpn, part, same);
      if rsrc {
        var page := PageOf(src, srcfpn);
        assert page[..|part| + 1] == page[..|part|] + [page[|part|]];
      }
    }
  }

  /** One round of the copy loop. */
  method CopyRound(mpsrc: MemPhy, srcfpn: nat, mpdst: MemPhy, dstfpn: nat, cellidx: nat,
      ghost src: seq<byte>, ghost dst: seq<byte>, ghost part: seq<byte>)
    requires srcfpn < |src| / PAGE_SIZE && dstfpn < |dst| / PAGE_SIZE && |part| == cellidx < PAGE_SIZE
    requires mpsrc.storage.Length == |src| && mpdst.storage.Length == |dst|
    requires Copied(mpsrc.storage[..], mpdst.storage[..], src, srcfpn, dst, dstfpn, part,
                    mpsrc.storage == mpdst.storage, mpsrc.rdmflg, mpdst.rdmflg)
    modifies mpsrc`cursor, mpdst`cursor, mpdst.storage
    ensures Copied(mpsrc.storage[..], mpdst.storage[..], src, srcfpn, dst, dstfpn,
                   part + [mpdst.storage[dstfpn * PAGE_SIZE + cellidx]],
                   mpsrc.storage == mpdst.storage, mpsrc.rdmflg, mpdst.rdmflg)
  {
    ghost var from, to := mpsrc.storage[..], mpdst.storage[..];
    var addrsrc := srcfpn * PAGE_SIZE + cellidx;
    var addrdst := dstfpn * PAGE_SIZE + cellidx;
    CopyCell(mpsrc, addrsrc, mpdst, addrdst);
    CopiedNext(from, to, src, srcfpn, dst, dstfpn, part, mpsrc.storage == mpdst.storage, mpsrc.rdmflg, mpdst.rdmflg,
      mpdst.storage[addrdst], mpsrc.storage[..], mpdst.storage[..]);
  }

  /** __swap_cp_page: copy one page between two devices, or within one.  The destination page
      becomes the source page as it was, and no other byte of either device changes.  From a
      source that is not random access, whatever was in the unset byte is copied. */
  method SwapCpPage(mpsrc: MemPhy, srcfpn: nat, mpdst: MemPhy, dstfpn: nat)
    requires srcfpn < mpsrc.storage.Length / PAGE_SIZE && dstfpn < mpdst.storage.Length / PAGE_SIZE
    modifies mpsrc`cursor, mpdst`cursor, mpdst.storage
    ensures !mpdst.rdmflg ==> mpdst.storage[..] == old(mpdst.storage[..])
    ensures mpdst.rdmflg ==>
      exists page: Page :: |page| == PAGE_SIZE && mpdst.storage[..] == WithPage(old(mpdst.storage[..]), dstfpn, page)
    ensures mpsrc.rdmflg && mpdst.rdmflg ==>
      mpdst.storage[..] == WithPage(old(mpdst.storage[..]), dstfpn, PageOf(old(mpsrc.storage[..]), srcfpn))
  {
    ghost var src, dst := mpsrc.storage[..], mpdst.storage[..];
    ghost var part: seq<byte> := [];
    assert Spliced(dst, dstfpn * PAGE_SIZE, []) == dst;
    var cellidx := 0;
    while cellidx < PAGE_SIZE
      invariant 0 <= cellidx <= PAGE_SIZE && |part| == cellidx
      invariant Copied(mpsrc.storage[..], mpdst.storage[..], src, srcfpn, dst, dstfpn, part,
                       mpsrc.storage == mpdst.storage, mpsrc.rdmflg, mpdst.rdmflg)
    {
      CopyRound(mpsrc, srcfpn, mpdst, dstfpn, cellidx, src, dst, part);
      part := part + [mpdst.storage[dstfpn * PAGE_SIZE + cellidx]];
      cellidx := cellidx + 1;
    }
    assert PageOf(src, srcfpn)[..PAGE_SIZE] == PageOf(src, srcfpn);
    assert mpdst.rdmflg ==> mpdst.storage[..] == WithPage(dst, dstfpn, part);
  }

  /** Copying a page is, on the pages of a random-access device, filling one of them. */
  lemma CopyFillsPage(d: Device, bytes: seq<byte>, dstfpn: nat, page: Page)
    requires d.pages == PagesOf(bytes) && dstfpn < |bytes| / PAGE_SIZE && |page| == PAGE_SIZE
    ensures d.(pages := PagesOf(WithPage(bytes, dstfpn, page))) == Fill(d, dstfpn, page)
  {
    WithPageIsIndependent(bytes, dstfpn, page);
  }
}
