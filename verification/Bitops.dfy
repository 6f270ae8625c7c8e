/** Bit arithmetic of include/bitops.h and include/mm.h: the position of the highest bit, field
    masks, and the split of a 22-bit address into page number and offset. */
module Bitops {

  // ------------------------------------------------------------------- bitops.h

  function Nbits2(n: bv32): bv32 { if n & 2 != 0 then 1 else 0 }
  function Nbits4(n: bv32): bv32 { if n & 0xC != 0 then 2 + Nbits2(n >> 2) else Nbits2(n) }
  function Nbits8(n: bv32): bv32 { if n & 0xF0 != 0 then 4 + Nbits4(n >> 4) else Nbits4(n) }
  function Nbits16(n: bv32): bv32 { if n & 0xFF00 != 0 then 8 + Nbits8(n >> 8) else Nbits8(n) }
  function Nbits32(n: bv32): bv32 { if n & 0xFFFF_0000 != 0 then 16 + Nbits16(n >> 16) else Nbits16(n) }

  /** NBITS */
  function Nbits(n: bv32): bv32 { if n == 0 then 0 else Nbits32(n) }

  /** NBITS is the floor of the binary logarithm: shifting by it leaves exactly the top bit.  Of
      zero, which has none, it is zero. */
  lemma NbitsIsFloorLog(n: bv32)
    ensures n != 0 ==> Nbits(n) < 32 && n >> Nbits(n) == 1
    ensures n == 0 ==> Nbits(n) == 0
  {
  }

  /** GENMASK for 0 <= l <= h < 32 */
  function Genmask(h: bv32, l: bv32): bv32
    requires l <= h < 32
  {
    (0xFFFF_FFFF << l) & (0xFFFF_FFFF >> (31 - h))
  }

  /** A mask covers the bits from l to h and no others. */
  lemma GenmaskCovers(h: bv32, l: bv32, i: bv32)
    requires l <= h < 32 && i < 32
    ensures (Genmask(h, l) >> i) & 1 == if l <= i <= h then 1 else 0
  {
  }

  // ----------------------------------------------------------- 22-bit addresses

  const PAGESZ: bv32 := 256
  const CPU_BUS_WIDTH: bv32 := 22

  /** PAGING_PGN */
  function Pgn(addr: bv32): bv32 {
    (addr & Genmask(CPU_BUS_WIDTH - 1, Nbits(PAGESZ))) >> Nbits(PAGESZ)
  }

  /** PAGING_OFFST */
  function Offst(addr: bv32): bv32 {
    addr & Genmask(Nbits(PAGESZ) - 1, 0)
  }

  /** What the two macros come to for 256-byte pages and a 22-bit bus. */
  lemma PageFields(addr: bv32)
    ensures Pgn(addr) == (addr >> 8) & 0x3FFF && Offst(addr) == addr & 0xFF
  {
    assert Nbits(PAGESZ) == 8;
  }

  lemma FieldsRecombine(addr: bv32)
    ensures ((addr >> 8) & 0x3FFF) * 256 + (addr & 0xFF) == addr & 0x3F_FFFF
  {
  }

  /** Page number and offset split an address without loss exactly when it fits the bus. */
  lemma PageSplitLosslessIff(addr: bv32)
    ensures Offst(addr) < PAGESZ && Pgn(addr) < 0x4000
    ensures addr == Pgn(addr) * PAGESZ + Offst(addr) <==> addr < 0x40_0000
  {
    PageFields(addr);
    FieldsRecombine(addr);
  }
}
