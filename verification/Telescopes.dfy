/** Adding up a measure along a run: what falls with every step, except for a bounded rise on
    marked steps, bounds the number of steps. */
module Telescopes {

  /** The marked steps among a, ..., b - 1. */
  function Count(marks: seq<bool>, a: nat, b: nat): nat
    requires a <= b <= |marks|
    decreases b
  {
    if a == b then 0 else Count(marks, a, b - 1) + (if marks[b - 1] then 1 else 0)
  }

  /** Step n moves the clock t on, or uses up some of the measure m. */
  predicate TicksOrFalls(m: seq<nat>, t: seq<nat>, marks: seq<bool>, n: nat, rise: nat)
    requires n < |marks| && |m| == |t| == |marks| + 1
  {
    || t[n + 1] == t[n] + 1
    || (t[n + 1] == t[n] && m[n + 1] + 1 <= m[n] + (if marks[n] then rise else 0))
  }

  lemma RiseOnce(rise: nat, x: nat)
    ensures rise * (x + 1) == rise * x + rise
  {
  }

  /** While the clock does not move, the measure bounds the steps. */
  lemma {:induction false} SlotTelescope(m: seq<nat>, t: seq<nat>, marks: seq<bool>, a: nat, b: nat, rise: nat)
    requires a <= b < |m| == |t| == |marks| + 1
    requires forall n :: a <= n < b ==> TicksOrFalls(m, t, marks, n, rise)
    ensures t[a] <= t[b]
    ensures t[a] == t[b] ==> m[b] + (b - a) <= m[a] + rise * Count(marks, a, b)
    decreases b
  {
    if a < b {
      SlotTelescope(m, t, marks, a, b - 1, rise);
      assert TicksOrFalls(m, t, marks, b - 1, rise);
      RiseOnce(rise, Count(marks, a, b - 1));
    }
  }

  /** t slots of k steps. */
  function Slots(t: nat, k: nat): nat {
    if t == 0 then 0 else Slots(t - 1, k) + k
  }

  lemma {:induction false} SlotsAreProducts(t: nat, k: nat)
    ensures Slots(t, k) == t * k
  {
    if t > 0 {
      SlotsAreProducts(t - 1, k);
      assert t * k == (t - 1) * k + k;
    }
  }

  lemma TimesGrows(x: nat, y: nat, k: nat)
    requires x <= y
    ensures x * k <= y * k
  {
  }

  /** The clock keeps up with the steps: with a measure below k at each tick, a slot lasts at
      most k steps and the marked ones among them. */
  lemma {:induction false} ClockTelescope(m: seq<nat>, t: seq<nat>, marks: seq<bool>, n: nat, k: nat, rise: nat)
    requires n < |m| == |t| == |marks| + 1 && t[0] == 0
    requires forall i :: 0 <= i <= n ==> m[i] < k
    requires forall i :: 0 <= i < n ==> TicksOrFalls(m, t, marks, i, rise)
    ensures n + m[n] <= Slots(t[n] + 1, k) + rise * Count(marks, 0, n)
  {
    if n == 0 {
      assert Slots(1, k) == Slots(0, k) + k;
    } else {
      ClockTelescope(m, t, marks, n - 1, k, rise);
      assert TicksOrFalls(m, t, marks, n - 1, rise);
      RiseOnce(rise, Count(marks, 0, n - 1));
    }
  }

  /** What holds at a and is passed on by every step holds at b. */
  lemma {:induction false} Carry(holds: seq<bool>, a: nat, b: nat)
    requires a <= b < |holds| && holds[a]
    requires forall n :: a <= n < b && holds[n] ==> holds[n + 1]
    ensures holds[b]
    decreases b
  {
    if a < b {
      Carry(holds, a, b - 1);
      assert holds[b - 1 + 1];
    }
  }
}
