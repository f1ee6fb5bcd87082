/** A rational share of an amount, rounded down; the source uses floating point for the same. */
module Ratio {
  import opened Bits

  function Share(amount: nat, num: nat, den: nat): nat
    requires den > 0
  {
    Floor(amount * num, den)
  }

  function Floor(x: nat, d: nat): nat
    requires d > 0
  {
    x / d
  }

  lemma FloorMonotone(x: nat, y: nat, d: nat)
    requires x <= y && d > 0
    ensures Floor(x, d) <= Floor(y, d)
  {
    if x / d > y / d { MulMonotone(y / d + 1, x / d, d); }
  }

  lemma ShareMonotone(a: nat, b: nat, num: nat, den: nat)
    requires a <= b && den > 0
    ensures Share(a, num, den) <= Share(b, num, den)
  {
    MulMonotone(a, b, num);
    FloorMonotone(a * num, b * num, den);
  }

  /** The share of the whole is the part itself. */
  lemma ShareOfWhole(part: nat, whole: nat)
    requires whole > 0
    ensures Share(whole, part, whole) == part
  {
    assert whole * part == part * whole + 0;
    DivModUnique(whole * part, whole, part, 0);
  }
}
