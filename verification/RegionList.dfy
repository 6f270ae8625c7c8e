/** The region allocator of src/libmem.c on its heap-linked free list. */
module RegionList {
  import opened Options
  import opened Regions

  // struct vm_rg_struct as a node of the free list
  class VmRegion {
    var rg_start: nat
    var rg_end: nat
    var rg_next: VmRegion?

    constructor (start: nat, end: nat)
      ensures rg_start == start && rg_end == end && rg_next == null
    {
      rg_start, rg_end, rg_next := start, end, null;
    }
  }

  /** The i-th node, or null past the end of the list. */
  function NodeAt(nodes: seq<VmRegion>, i: nat): VmRegion? {
    if i < |nodes| then nodes[i] else null
  }

  // The part of mm_struct the allocator works on, with its only memory area.
  class MmStruct {
    var vm_freerg_list: VmRegion?
    const symrgtbl: array<Region>
    var sbrk: nat
    ghost var nodes: seq<VmRegion>   // the nodes of the free list, in order
    ghost var free: seq<Region>      // the regions they hold

    ghost predicate Valid()
      reads this, nodes, symrgtbl
    {
      Linked() && Listed() && symrgtbl.Length == TABLE_SIZE
    }

    ghost predicate Linked()
      reads this, nodes
    {
      && vm_freerg_list == NodeAt(nodes, 0)
      && (forall i {:trigger nodes[i].rg_next} :: 0 <= i < |nodes| ==> nodes[i].rg_next == NodeAt(nodes, i + 1))
      && (forall i, j :: 0 <= i < j < |nodes| ==> nodes[i] != nodes[j])
    }

    ghost predicate Listed()
      reads this, nodes
    {
      && |free| == |nodes|
      && forall i :: 0 <= i < |nodes| ==> nodes[i].rg_start == free[i].lo && nodes[i].rg_end == free[i].hi
    }

    ghost function Abstract(): Space
      reads this, symrgtbl
    {
      Space(free, symrgtbl[..], sbrk)
    }

    /** init_mm, as far as it is written: one area from address 0 with an empty free region.  It
        leaves the symbol table to be set up; here it starts cleared. */
    constructor ()
      ensures Valid() && fresh(symrgtbl) && fresh(nodes)
      ensures Abstract() == NewSpace()
    {
      var first_rg := new VmRegion(0, 0);
      vm_freerg_list := first_rg;
      symrgtbl := new Region[TABLE_SIZE](_ => NOTHING);
      sbrk := 0;
      nodes, free := [first_rg], [NOTHING];
      new;
      assert symrgtbl[..] == NewSpace().table;
    }

    /** Clone the successor of the node at position i over it, and unlink the successor. */
    method CloneSuccessor(rgit: VmRegion, nextrg: VmRegion, ghost i: nat)
      requires Linked() && Listed() && i + 1 < |nodes| && rgit == nodes[i] && nextrg == nodes[i + 1]
      modifies this`nodes, this`free, rgit
      ensures Linked() && Listed()
      ensures nodes == old(nodes[..i + 1] + nodes[i + 2..])
      ensures free == old(free[..i] + free[i + 1..])
    {
      rgit.rg_start := nextrg.rg_start;
      rgit.rg_end := nextrg.rg_end;
      rgit.rg_next := nextrg.rg_next;
      nodes := nodes[..i + 1] + nodes[i + 2..];
      free := free[..i] + free[i + 1..];
    }

    /** Give the node at position i these bounds. */
    method SetBounds(rgit: VmRegion, ghost i: nat, start: nat, end: nat)
      requires Linked() && Listed() && i < |nodes| && rgit == nodes[i]
      modifies this`free, rgit
      ensures Linked() && Listed()
      ensures free == old(free)[i := Region(start, end)]
    {
      rgit.rg_start := start;
      rgit.rg_end := end;
      free := free[i := Region(start, end)];
    }

    /** The tail of the search: move the node at position i up by size bytes.  A node used up
        takes over its successor; the last one stays, as an empty region. */
    method TakeFrom(rgit: VmRegion, ghost i: nat, size: int) returns (newrg: Region)
      requires Linked() && Listed()
      requires i < |nodes| && rgit == nodes[i] && Fits(free[i], size)
      modifies this`nodes, this`free, rgit
      ensures Linked() && Listed() && (forall x :: x in nodes ==> x in old(nodes))
      ensures newrg == Region(old(rgit.rg_start), Plus(old(rgit.rg_start), size))
      ensures free == Cut(old(free), i, size)
      ensures nodes == old(if newrg.hi < free[i].hi || i + 1 == |nodes| then nodes else nodes[..i + 1] + nodes[i + 2..])
    {
      newrg := Region(rgit.rg_start, Plus(rgit.rg_start, size));
      if Plus(rgit.rg_start, size) < rgit.rg_end {
        SetBounds(rgit, i, Plus(rgit.rg_start, size), rgit.rg_end);
      } else {
        var nextrg := rgit.rg_next;
        if nextrg != null {
          CloneSuccessor(rgit, nextrg, i);
        } else {
          SetBounds(rgit, i, rgit.rg_end, rgit.rg_end);
          rgit.rg_next := null;
        }
      }
    }

    /** get_free_vmrg_area: search the free list for size bytes and cut them out of it.
        rc is 0 if a region was found, and newrg then is that region. */
    method GetFreeVmrgArea(size: int) returns (rc: int, newrg: Region)
      requires Valid()
      modifies this`nodes, this`free, nodes
      ensures Valid()
      ensures
        var (got, rest) := Take(old(free), size);
        && free == rest
        && (if got.Some? then rc == 0 && newrg == got.value else rc == -1)
      ensures |nodes| == |free| && (|free| == |old(free)| ==> nodes == old(nodes))
      ensures forall x :: x in nodes ==> x in old(nodes)
    {
      var rgit := vm_freerg_list;
      newrg := Region(NOT_FOUND, NOT_FOUND);
      if rgit == null {
        return -1, newrg;
      }
      ghost var i := 0;
      while rgit != null
        invariant i <= |nodes| && rgit == NodeAt(nodes, i)
        invariant newrg.lo == NOT_FOUND && nodes == old(nodes) && free == old(free) && Valid()
        invariant forall j :: 0 <= j < i ==> !Fits(free[j], size)
        decreases |nodes| - i
      {
        if Plus(rgit.rg_start, size) <= rgit.rg_end {
          newrg := TakeFrom(rgit, i, size);
          break;
        } else {
          rgit := rgit.rg_next;
          i := i + 1;
        }
      }
      rc := if newrg.lo == NOT_FOUND then -1 else 0;
    }

    /** enlist_vm_freerg_list: put a region at the front of the free list, unless it is empty.
        The node's own link is overwritten, except in front of an empty list. */
    method EnlistVmFreergList(rg_elmt: VmRegion) returns (rc: int)
      requires Valid() && rg_elmt !in nodes && (vm_freerg_list == null ==> rg_elmt.rg_next == null)
      modifies this`vm_freerg_list, this`nodes, this`free, rg_elmt
      ensures Valid()
      ensures rc == if old(rg_elmt.rg_start) >= old(rg_elmt.rg_end) then -1 else 0
      ensures rc == -1 ==> nodes == old(nodes) && free == old(free)
      ensures rc == 0 ==> nodes == [rg_elmt] + old(nodes)
      ensures rc == 0 ==> free == [Region(old(rg_elmt.rg_start), old(rg_elmt.rg_end))] + old(free)
    {
      var rg_node := vm_freerg_list;
      if rg_elmt.rg_start >= rg_elmt.rg_end {
        return -1;
      }
      if rg_node != null {
        rg_elmt.rg_next := rg_node;
      }
      vm_freerg_list := rg_elmt;
      nodes := [rg_elmt] + nodes;
      free := [Region(rg_elmt.rg_start, rg_elmt.rg_end)] + free;
      return 0;
    }

    /** Write one symbol table entry. */
    method SetEntry(rgid: nat, r: Region)
      requires Valid() && rgid < TABLE_SIZE
      modifies symrgtbl
      ensures Valid()
      ensures symrgtbl[..] == old(symrgtbl[..])[rgid := r]
    {
      symrgtbl[rgid] := r;
    }

    /** __alloc: a region of size bytes for symbol table entry rgid, from the free list or,
        failing that, at the program break, which the system call then moves by `grow`.  Size
        and break pass through an int on the way. */
    method Alloc(rgid: nat, size: nat, grow: nat) returns (alloc_addr: nat)
      requires Valid() && rgid < TABLE_SIZE
      modifies this`nodes, this`free, this`sbrk, nodes, symrgtbl
      ensures Valid()
      ensures Abstract() == Regions.Alloc(old(Abstract()), rgid, size, grow)
      ensures alloc_addr == symrgtbl[rgid].lo
      ensures forall j :: 0 <= j < TABLE_SIZE && j != rgid ==> symrgtbl[j] == old(symrgtbl[j])
      ensures sbrk == old(sbrk) + (if Reuses(old(Abstract()), size) then 0 else grow)
      ensures forall x :: x in nodes ==> x in old(nodes)
    {
      var rc, rgnode := GetFreeVmrgArea(Narrow(size));
      if rc != 0 {
        var old_sbrk := Narrow(sbrk);
        rgnode := Region(Plus(0, old_sbrk), Plus(Plus(0, old_sbrk), size));
        sbrk := sbrk + grow;
      }
      SetEntry(rgid, rgnode);
      alloc_addr := rgnode.lo;
    }

    /** __free: give the region of entry rgid back.  -1 for an id outside the table or an entry
        that holds nothing, and then nothing changes. */
    method Release(rgid: int) returns (rc: int)
      requires Valid() && rgid != TABLE_SIZE
      modifies this`vm_freerg_list, this`nodes, this`free, symrgtbl
      ensures Valid()
      ensures rc == if rgid < 0 || rgid >= TABLE_SIZE || old(symrgtbl[rgid]) == NOTHING then -1 else 0
      ensures rc == -1 ==> Abstract() == old(Abstract())
      ensures 0 <= rgid < TABLE_SIZE ==> Abstract() == Regions.Release(old(Abstract()), rgid)
      ensures rc == 0 ==> symrgtbl[..] == old(symrgtbl[..])[rgid := NOTHING]
      ensures rc == 0 && !old(symrgtbl[rgid]).IsEmpty() ==>
        nodes != [] && nodes[1..] == old(nodes) && free == [old(symrgtbl[rgid])] + old(free)
      ensures forall x :: x in nodes ==> x in old(nodes) || fresh(x)
    {
      if rgid < 0 || rgid > TABLE_SIZE {
        return -1;
      }
      var rgnode := symrgtbl[rgid];
      if rgnode.lo == 0 && rgnode.hi == 0 {
        assert symrgtbl[..] == symrgtbl[..][rgid := NOTHING];
        return -1;
      }
      var freerg_node := new VmRegion(rgnode.lo, rgnode.hi);
      SetEntry(rgid, NOTHING);
      var enlisted := EnlistVmFreergList(freerg_node);
      return 0;
    }
  }
}
