/** The process control block as src/cpu.c updates it. */
module Pcb {
  import opened Options
  import opened Os

  // struct pcb_t: the program counter over a code segment of `size` instructions.
  class PcbT {
    const size: nat
    var pc: nat
    ghost var runs: nat
    ghost var trace: seq<Exec>

    ghost function Abstract(): Process
      reads this
    {
      Process(size, pc, runs, trace)
    }

    /** What the loader hands out: nothing executed yet. */
    constructor (size: nat)
      ensures Abstract() == Process(size, 0, 0, [])
    {
      this.size := size;
      pc, runs, trace := 0, 0, [];
    }

    /** run, up to the dispatch: fetch the next instruction and move on, unless there is none.
        The CPU and the slot only enter the history. */
    method Run(ghost cpu: nat, ghost slot: nat) returns (fetched: Option<nat>)
      modifies this
      ensures Abstract() == Os.Run(old(Abstract()), cpu, slot)
      ensures fetched == if old(pc) < size then Some(old(pc)) else None
    {
      runs := runs + 1;
      if pc >= size {
        return None;
      }
      fetched := Some(pc);
      trace := trace + [Exec(pc, cpu, slot)];
      pc := pc + 1;
    }
  }
}
