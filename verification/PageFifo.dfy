/** FIFO page replacement: the page list of enlist_pgn_node (src/mm64.c) and
    find_victim_page (src/libmem.c), which pushes at the head and evicts at the tail. */
module PageFifo {

  // ------------------------------------------------- the list as a value, head first

  function Push(list: seq<nat>, pgn: nat): seq<nat> { [pgn] + list }

  function Victim(list: seq<nat>): nat
    requires list != []
  {
    list[|list| - 1]
  }

  function Evict(list: seq<nat>): seq<nat>
    requires list != []
  {
    list[..|list| - 1]
  }

  /** The listed pages, oldest first. */
  function Queue(list: seq<nat>): (q: seq<nat>)
    ensures |q| == |list|
  {
    if list == [] then [] else Queue(list[1..]) + [list[0]]
  }

  lemma {:induction false} QueueEnd(list: seq<nat>, pgn: nat)
    ensures Queue(list + [pgn]) == [pgn] + Queue(list)
  {
    if list != [] {
      assert (list + [pgn])[1..] == list[1..] + [pgn];
      QueueEnd(list[1..], pgn);
    }
  }

  /** Listing a page appends it to the queue; an eviction takes the oldest page from its front. */
  lemma ListIsQueue(list: seq<nat>, pgn: nat)
    ensures Queue(Push(list, pgn)) == Queue(list) + [pgn]
    ensures list != [] ==> Queue(list) == [Victim(list)] + Queue(Evict(list))
  {
    assert Push(list, pgn)[1..] == list;
    if list != [] {
      assert list == Evict(list) + [Victim(list)];
      QueueEnd(Evict(list), Victim(list));
    }
  }

  datatype Op = DoEnlist(pgn: nat) | DoEvict

  predicate CanDo(list: seq<nat>, op: Op) { op.DoEvict? ==> list != [] }

  function Do(list: seq<nat>, op: Op): seq<nat>
    requires CanDo(list, op)
  {
    match op
    case DoEnlist(pgn) => Push(list, pgn)
    case DoEvict => Evict(list)
  }

  ghost predicate IsRun(lists: seq<seq<nat>>, ops: seq<Op>) {
    && |lists| == |ops| + 1
    && forall n :: 0 <= n < |ops| ==> CanDo(lists[n], ops[n]) && lists[n + 1] == Do(lists[n], ops[n])
  }

  /** The pages enlisted by the first n operations, in order. */
  function Enlisted(ops: seq<Op>, n: nat): seq<nat>
    requires n <= |ops|
  {
    if n == 0 then []
    else Enlisted(ops, n - 1) + (if ops[n - 1].DoEnlist? then [ops[n - 1].pgn] else [])
  }

  /** The victims of the first n operations, in order. */
  function Victims(lists: seq<seq<nat>>, ops: seq<Op>, n: nat): seq<nat>
    requires n <= |ops| < |lists|
  {
    if n == 0 then []
    else
      Victims(lists, ops, n - 1) +
      (if ops[n - 1].DoEvict? && lists[n - 1] != [] then [Victim(lists[n - 1])] else [])
  }

  /** One operation moves pages through the queue in order. */
  lemma QueueStep(list: seq<nat>, op: Op, victims: seq<nat>, all: seq<nat>)
    requires CanDo(list, op) && victims + Queue(list) == all
    ensures op.DoEnlist? ==> victims + Queue(Do(list, op)) == all + [op.pgn]
    ensures op.DoEvict? ==> victims + [Victim(list)] + Queue(Do(list, op)) == all
  {
    match op
    case DoEnlist(pgn) =>
      ListIsQueue(list, pgn);
      assert victims + (Queue(list) + [pgn]) == (victims + Queue(list)) + [pgn];
    case DoEvict =>
      ListIsQueue(list, 0);
      assert victims + ([Victim(list)] + Queue(Evict(list))) == (victims + [Victim(list)]) + Queue(Evict(list));
  }

  lemma FifoStep(lists: seq<seq<nat>>, ops: seq<Op>, n: nat)
    requires IsRun(lists, ops) && n < |ops|
    requires Victims(lists, ops, n) + Queue(lists[n]) == Queue(lists[0]) + Enlisted(ops, n)
    ensures Victims(lists, ops, n + 1) + Queue(lists[n + 1]) == Queue(lists[0]) + Enlisted(ops, n + 1)
  {
    assert CanDo(lists[n], ops[n]) && lists[n + 1] == Do(lists[n], ops[n]);
    var all := Queue(lists[0]) + Enlisted(ops, n);
    QueueStep(lists[n], ops[n], Victims(lists, ops, n), all);
    if ops[n].DoEnlist? {
      assert all + [ops[n].pgn] == Queue(lists[0]) + Enlisted(ops, n + 1);
    }
  }

  /** First in, first out: over any interleaving of listings and evictions, the victims so far
      followed by the pages still listed, oldest first, are the pages listed at the start
      followed by the pages enlisted since, in that order. */
  lemma {:induction false} FirstInFirstOut(lists: seq<seq<nat>>, ops: seq<Op>, n: nat)
    requires IsRun(lists, ops) && n <= |ops|
    ensures Victims(lists, ops, n) + Queue(lists[n]) == Queue(lists[0]) + Enlisted(ops, n)
  {
    if n > 0 {
      FirstInFirstOut(lists, ops, n - 1);
      FifoStep(lists, ops, n - 1);
    }
  }

  // ------------------------------------------------------------ the linked list

  // struct pgn_t
  class PgnNode {
    var pgn: nat
    var pg_next: PgnNode?

    constructor (pgn: nat, next: PgnNode?)
      ensures this.pgn == pgn && pg_next == next
    {
      this.pgn, pg_next := pgn, next;
    }
  }

  function NodeAt(nodes: seq<PgnNode>, i: nat): PgnNode? {
    if i < |nodes| then nodes[i] else null
  }

  // fifo_pgn of mm_struct
  class PageList {
    var fifo_pgn: PgnNode?
    ghost var nodes: seq<PgnNode>
    ghost var list: seq<nat>

    ghost predicate Valid()
      reads this, nodes
    {
      && fifo_pgn == NodeAt(nodes, 0)
      && |list| == |nodes|
      && (forall i {:trigger nodes[i].pg_next} :: 0 <= i < |nodes| ==> nodes[i].pg_next == NodeAt(nodes, i + 1))
      && (forall i :: 0 <= i < |nodes| ==> nodes[i].pgn == list[i])
      && (forall i, j :: 0 <= i < j < |nodes| ==> nodes[i] != nodes[j])
    }

    /** No page is listed yet. */
    constructor ()
      ensures Valid() && nodes == [] && list == []
    {
      fifo_pgn := null;
      nodes, list := [], [];
    }

    /** enlist_pgn_node */
    method Enlist(pgn: nat)
      requires Valid()
      modifies this
      ensures Valid() && (forall x :: x in nodes ==> x in old(nodes) || fresh(x))
      ensures list == Push(old(list), pgn)
    {
      var pnode := new PgnNode(pgn, fifo_pgn);
      fifo_pgn := pnode;
      nodes, list := [pnode] + nodes, [pgn] + list;
    }

    /** find_victim_page: walk to the last node, unlink it and return its page.  -1 when nothing
        is listed.  With a single page listed the walk leaves no predecessor to unlink from,
        which the code does not provide for. */
    method FindVictimPage() returns (rc: int, retpgn: nat)
      requires Valid() && |list| != 1
      modifies this`nodes, this`list, nodes
      ensures Valid() && (forall x :: x in nodes ==> x in old(nodes))
      ensures rc == if old(list) == [] then -1 else 0
      ensures rc == -1 ==> list == old(list)
      ensures rc == 0 ==> retpgn == Victim(old(list)) && list == Evict(old(list))
    {
      var pg := fifo_pgn;
      if pg == null {
        return -1, 0;
      }
      var prev: PgnNode? := null;
      ghost var i := 0;
      while pg.pg_next != null
        invariant 0 <= i < |nodes| && pg == nodes[i]
        invariant prev == if i == 0 then null else nodes[i - 1]
        decreases |nodes| - i
      {
        prev := pg;
        pg := pg.pg_next;
        i := i + 1;
      }
      retpgn := pg.pgn;
      assert i == |nodes| - 1;
      prev.pg_next := null;
      nodes, list := nodes[..i], list[..i];
      return 0, retpgn;
    }
  }
}
