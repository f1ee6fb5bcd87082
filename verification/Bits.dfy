/** Powers of two, floor-log2 and "the bottom n bits of x", as used by the linear-hashing code. */
module Bits {

  function Pow2(n: nat): (r: nat)
    ensures r > 0
  {
    if n == 0 then 1 else 2 * Pow2(n - 1)
  }

  /** BottomNBits(x, n) of the source: the number formed by the n lowest bits of x. */
  function BottomBits(x: nat, n: nat): (r: nat)
    ensures r < Pow2(n)
  {
    if n == 0 then 0 else x % 2 + 2 * BottomBits(x / 2, n - 1)
  }

  /** Bit number n of x. */
  function Bit(x: nat, n: nat): (r: nat)
    ensures r < 2
  {
    if n == 0 then x % 2 else Bit(x / 2, n - 1)
  }

  function FloorLog2(x: nat): (r: nat)
    requires x > 0
    ensures Pow2(r) <= x < Pow2(r + 1)
  {
    if x == 1 then 0 else
      var r := FloorLog2(x / 2) + 1;
      assert Pow2(r) == 2 * Pow2(r - 1) && Pow2(r + 1) == 2 * Pow2(r);
      r
  }

  lemma MulAtLeast(a: nat, d: nat)
    requires a >= 1
    ensures a * d >= d
  {
    assert a * d == d + (a - 1) * d;
  }

  lemma MulMonotone(a: nat, b: nat, d: nat)
    requires a <= b
    ensures a * d <= b * d
  {
    assert b * d == a * d + (b - a) * d;
  }

  /** The only multiple of d strictly between -d and d is zero. */
  lemma SmallMultiple(k: int, d: int)
    requires d > 0 && -d < k * d < d
    ensures k == 0
  {
    if k >= 1 { MulAtLeast(k, d); }
    if k <= -1 { assert (-k) * d == -(k * d); MulAtLeast(-k, d); }
  }

  lemma DivModUnique(x: nat, d: nat, q: nat, r: nat)
    requires r < d && x == q * d + r
    ensures x / d == q && x % d == r
  {
    var q', r' := x / d, x % d;
    assert (q' - q) * d == r - r';
    SmallMultiple(q' - q, d);
  }

  /** Bit n of x, with the weight it has in x. */
  function BitValue(x: nat, n: nat): nat {
    if Bit(x, n) == 1 then Pow2(n) else 0
  }

  /** Taking one more bit keeps the lower bits and adds the new bit on top. */
  lemma {:induction false} BottomBitsSplit(x: nat, n: nat)
    ensures BottomBits(x, n + 1) == BottomBits(x, n) + BitValue(x, n)
  {
    if n > 0 { BottomBitsSplit(x / 2, n - 1); }
  }

  lemma {:induction false} BottomBitsSmall(x: nat, n: nat)
    requires x < Pow2(n)
    ensures BottomBits(x, n) == x
  {
    if n > 0 { BottomBitsSmall(x / 2, n - 1); }
  }

  lemma {:induction false} BottomBitsAddPow(x: nat, n: nat)
    ensures BottomBits(x + Pow2(n), n) == BottomBits(x, n)
  {
    if n > 0 {
      assert (x + Pow2(n)) / 2 == x / 2 + Pow2(n - 1) && (x + Pow2(n)) % 2 == x % 2;
      BottomBitsAddPow(x / 2, n - 1);
    }
  }

  lemma Pow2Monotone(a: nat, b: nat)
    requires a <= b
    ensures Pow2(a) <= Pow2(b)
  {
    if a < b { Pow2Monotone(a, b - 1); }
  }

  /** The power of two below a number determines its floor-log2. */
  lemma FloorLog2Unique(x: nat, n: nat)
    requires Pow2(n) <= x < Pow2(n + 1)
    ensures FloorLog2(x) == n
  {
    var m := FloorLog2(x);
    if m < n { Pow2Monotone(m + 1, n); }
    if n < m { Pow2Monotone(n + 1, m); }
  }
}
