/** The five-level split of 64-bit addresses in src/mm64.c and include/mm64.h. */
module FiveLevels {

  /** GENMASK64 for 0 <= l <= h < 64 */
  function Genmask64(h: bv64, l: bv64): bv64
    requires l <= h < 64
  {
    (0xFFFF_FFFF_FFFF_FFFF << l) & (0xFFFF_FFFF_FFFF_FFFF >> (63 - h))
  }

  // The five directory indices.  Each is an addr_t in the code; that nine bits hold it is
  // proved where FromAddress narrows it.
  datatype Indices = Indices(pgd: bv9, p4d: bv9, pud: bv9, pmd: bv9, pt: bv9)

  /** get_pd_from_address */
  function FromAddress(addr: bv64): Indices {
    Indices(
      ((addr & Genmask64(56, 48)) >> 48) as bv9,
      ((addr & Genmask64(47, 39)) >> 39) as bv9,
      ((addr & Genmask64(38, 30)) >> 30) as bv9,
      ((addr & Genmask64(29, 21)) >> 21) as bv9,
      ((addr & Genmask64(20, 12)) >> 12) as bv9)
  }

  /** get_pd_from_pagenum */
  function FromPagenum(pgn: bv64): Indices {
    FromAddress(pgn << 12)
  }

  const PGN_MASK: bv64 := 0x1FFF_FFFF_FFFF   // the 45 bits of a page number

  /** The page number the five indices stand for. */
  function ToPagenum(x: Indices): bv64 {
    (x.pgd as bv64 << 36) | (x.p4d as bv64 << 27) | (x.pud as bv64 << 18) | (x.pmd as bv64 << 9) | x.pt as bv64
  }

  /** The order of a walk over the levels from the top. */
  predicate LexLess(x: Indices, y: Indices) {
    TupleLess(x.pgd, y.pgd, x.p4d, y.p4d, x.pud, y.pud, x.pmd, y.pmd, x.pt, y.pt)
  }

  predicate TupleLess(a: bv9, a': bv9, b: bv9, b': bv9, c: bv9, c': bv9, d: bv9, d': bv9, e: bv9, e': bv9) {
    a < a' || (a == a' && (b < b' || (b == b' && (c < c' || (c == c' && (d < d' || (d == d' && e < e')))))))
  }

  /** Together the five indices are the low 45 bits of the page number. */
  lemma SplitRecombines(pgn: bv64)
    ensures ToPagenum(FromPagenum(pgn)) == pgn & PGN_MASK
  {
  }

  /** Every tuple of indices is the split of exactly the page number it stands for. */
  lemma SplitOfRecombined(x: Indices)
    ensures FromPagenum(ToPagenum(x)) == x && ToPagenum(x) <= PGN_MASK
  {
  }

  /** Two page numbers split alike exactly when they agree on their low 45 bits. */
  lemma SplitSeparates(p: bv64, q: bv64)
    ensures FromPagenum(p) == FromPagenum(q) <==> p & PGN_MASK == q & PGN_MASK
  {
    SplitRecombines(p);
    SplitRecombines(q);
  }

  // The order is proved level by level from the lowest, each level on plain bit expressions.

  lemma PmdBits(p: bv64, q: bv64, x: bv9, y: bv9)
    requires x == ((p >> 9) & 0x1FF) as bv9 && y == ((q >> 9) & 0x1FF) as bv9
    ensures p & 0x3_FFFF < q & 0x3_FFFF <==> x < y || (x == y && p & 0x1FF < q & 0x1FF)
  {
  }

  lemma PudBits(p: bv64, q: bv64, x: bv9, y: bv9)
    requires x == ((p >> 18) & 0x1FF) as bv9 && y == ((q >> 18) & 0x1FF) as bv9
    ensures p & 0x7FF_FFFF < q & 0x7FF_FFFF <==> x < y || (x == y && p & 0x3_FFFF < q & 0x3_FFFF)
  {
  }

  lemma P4dBits(p: bv64, q: bv64, x: bv9, y: bv9)
    requires x == ((p >> 27) & 0x1FF) as bv9 && y == ((q >> 27) & 0x1FF) as bv9
    ensures p & 0xF_FFFF_FFFF < q & 0xF_FFFF_FFFF <==> x < y || (x == y && p & 0x7FF_FFFF < q & 0x7FF_FFFF)
  {
  }

  lemma PgdBits(p: bv64, q: bv64, x: bv9, y: bv9)
    requires x == ((p >> 36) & 0x1FF) as bv9 && y == ((q >> 36) & 0x1FF) as bv9
    ensures p & 0x1FFF_FFFF_FFFF < q & 0x1FFF_FFFF_FFFF <==> x < y || (x == y && p & 0xF_FFFF_FFFF < q & 0xF_FFFF_FFFF)
  {
  }

  lemma PtBits(p: bv64, q: bv64, x: bv9, y: bv9)
    requires x == (p & 0x1FF) as bv9 && y == (q & 0x1FF) as bv9
    ensures p & 0x1FF < q & 0x1FF <==> x < y
  {
  }

  lemma LevelsCompose(a: bv9, a': bv9, b: bv9, b': bv9, c: bv9, c': bv9, d: bv9, d': bv9, e: bv9, e': bv9,
      one: bool, two: bool, three: bool, four: bool, five: bool)
    requires one <==> e < e'
    requires two <==> d < d' || (d == d' && one)
    requires three <==> c < c' || (c == c' && two)
    requires four <==> b < b' || (b == b' && three)
    requires five <==> a < a' || (a == a' && four)
    ensures TupleLess(a, a', b, b', c, c', d, d', e, e') <==> five
  {
  }

  lemma FieldsInOrder(p: bv64, q: bv64,
      a: bv9, a': bv9, b: bv9, b': bv9, c: bv9, c': bv9, d: bv9, d': bv9, e: bv9, e': bv9)
    requires a == ((p >> 36) & 0x1FF) as bv9 && a' == ((q >> 36) & 0x1FF) as bv9
    requires b == ((p >> 27) & 0x1FF) as bv9 && b' == ((q >> 27) & 0x1FF) as bv9
    requires c == ((p >> 18) & 0x1FF) as bv9 && c' == ((q >> 18) & 0x1FF) as bv9
    requires d == ((p >> 9) & 0x1FF) as bv9 && d' == ((q >> 9) & 0x1FF) as bv9
    requires e == (p & 0x1FF) as bv9 && e' == (q & 0x1FF) as bv9
    ensures TupleLess(a, a', b, b', c, c', d, d', e, e') <==> p & 0x1FFF_FFFF_FFFF < q & 0x1FFF_FFFF_FFFF
  {
    PtBits(p, q, e, e');
    PmdBits(p, q, d, d');
    PudBits(p, q, c, c');
    P4dBits(p, q, b, b');
    PgdBits(p, q, a, a');
    LevelsCompose(a, a', b, b', c, c', d, d', e, e', p & 0x1FF < q & 0x1FF, p & 0x3_FFFF < q & 0x3_FFFF,
      p & 0x7FF_FFFF < q & 0x7FF_FFFF, p & 0xF_FFFF_FFFF < q & 0xF_FFFF_FFFF,
      p & 0x1FFF_FFFF_FFFF < q & 0x1FFF_FFFF_FFFF);
  }

  /** x holds the five nine-bit fields of p. */
  predicate HoldsFields(x: Indices, p: bv64) {
    && x.pgd == ((p >> 36) & 0x1FF) as bv9
    && x.p4d == ((p >> 27) & 0x1FF) as bv9
    && x.pud == ((p >> 18) & 0x1FF) as bv9
    && x.pmd == ((p >> 9) & 0x1FF) as bv9
    && x.pt == (p & 0x1FF) as bv9
  }

  lemma SplitIntoFields(p: bv64)
    ensures HoldsFields(FromPagenum(p), p)
  {
  }

  lemma HeldInOrder(p: bv64, q: bv64, x: Indices, y: Indices)
    requires HoldsFields(x, p) && HoldsFields(y, q)
    ensures LexLess(x, y) <==> p & 0x1FFF_FFFF_FFFF < q & 0x1FFF_FFFF_FFFF
  {
    FieldsInOrder(p, q, x.pgd, y.pgd, x.p4d, y.p4d, x.pud, y.pud, x.pmd, y.pmd, x.pt, y.pt);
  }

  /** Walking the levels from the top in order visits pages in order of their number. */
  lemma SplitKeepsOrder(p: bv64, q: bv64)
    ensures LexLess(FromPagenum(p), FromPagenum(q)) <==> p & 0x1FFF_FFFF_FFFF < q & 0x1FFF_FFFF_FFFF
  {
    SplitIntoFields(p);
    SplitIntoFields(q);
    HeldInOrder(p, q, FromPagenum(p), FromPagenum(q));
  }

  /** The split of an address does not depend on the offset or on the bits above the bus,
      and agrees with the split of its page number. */
  lemma AddressSplit(addr: bv64)
    ensures FromAddress(addr) == FromPagenum(addr >> 12)
  {
  }
}
