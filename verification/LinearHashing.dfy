/**
 The linear-hashing arithmetic of the auto-growing table: which home slot a hash belongs to for
 a given table length, and how that changes when the table grows by one slot.
 */
module LinearHashing {
  import opened Bits

  lemma Pow2Doubles(n: nat)
    ensures Pow2(n + 1) == 2 * Pow2(n)
  {
  }

  /** The packed form of a table length: threshold in the upper bits, minimum shift in the low byte. */
  function LengthInfo(length: nat): nat
    requires length >= 2
  {
    (length - Pow2(FloorLog2(length))) * 256 + FloorLog2(length)
  }

  function UsedLength(info: nat): nat {
    Pow2(info % 256) + info / 256
  }

  /** Packing a length loses nothing, for every length a 64-bit table can have. */
  lemma LengthInfoRoundTrip(length: nat)
    requires 2 <= length && FloorLog2(length) <= 63
    ensures UsedLength(LengthInfo(length)) == length
    ensures LengthInfo(length) % 256 == FloorLog2(length)
    ensures LengthInfo(length) / 256 < Pow2(FloorLog2(length))
  {
    hide Pow2, FloorLog2;
    var m := FloorLog2(length);
    Pow2Doubles(m);
    Packed(length - Pow2(m), m);
  }

  lemma Packed(threshold: nat, shift: nat)
    requires shift < 256
    ensures (threshold * 256 + shift) % 256 == shift && (threshold * 256 + shift) / 256 == threshold
  {
  }

  /** Number of hash bits that select the home of a hash. */
  function HomeShift(length: nat, hash: nat): nat
    requires length >= 2
  {
    var m := FloorLog2(length);
    if BottomBits(hash, m) < length - Pow2(m) then m + 1 else m
  }

  function HomeIndex(length: nat, hash: nat): nat
    requires length >= 2
  {
    BottomBits(hash, HomeShift(length, hash))
  }

  /** The home that growing from length n to n + 1 splits. */
  function SplitHome(n: nat): (o: nat)
    requires n >= 1
    ensures o < Pow2(FloorLog2(n)) && o + Pow2(FloorLog2(n)) == n
  {
    n - Pow2(FloorLog2(n))
  }

  /** Homes stay inside the table. */
  lemma HomeInRange(length: nat, hash: nat)
    requires length >= 2
    ensures HomeIndex(length, hash) < length
  {
    var m := FloorLog2(length);
    BottomBitsSplit(hash, m);
  }

  /** The number of bits in use at a home slot, for a given table length. */
  function ShiftAt(length: nat, home: nat): nat
    requires length >= 2
  {
    var m := FloorLog2(length);
    if home < length - Pow2(m) || home >= Pow2(m) then m + 1 else m
  }

  /** The shift a hash uses is the shift of the home it ends up at. */
  lemma ShiftOfHome(length: nat, hash: nat)
    requires length >= 2
    ensures HomeShift(length, hash) == ShiftAt(length, HomeIndex(length, hash))
  {
    var m := FloorLog2(length);
    BottomBitsSplit(hash, m);
  }

  lemma LogOfNext(n: nat)
    requires n >= 2
    ensures var m := FloorLog2(n);
            if n + 1 == Pow2(m + 1) then FloorLog2(n + 1) == m + 1 else FloorLog2(n + 1) == m
  {
    var m := FloorLog2(n);
    if n + 1 == Pow2(m + 1) {
      FloorLog2Unique(n + 1, m + 1);
    } else {
      FloorLog2Unique(n + 1, m);
    }
  }

  /** Growing by one slot changes the shift of exactly two homes: the split one and the new one. */
  lemma GrowthChangesTwoShifts(n: nat, home: nat)
    requires n >= 2 && home <= n
    ensures ShiftAt(n + 1, home) ==
            if home == SplitHome(n) || home == n then FloorLog2(n) + 1 else ShiftAt(n, home)
  {
    LogOfNext(n);
  }

  /**
   Growing from n to n + 1 slots re-homes only hashes whose home is the split one; those stay
   there or move to the new slot n, by their next hash bit.
   */
  lemma GrowthRehomes(n: nat, hash: nat)
    requires n >= 2
    ensures var o, m := SplitHome(n), FloorLog2(n);
            if HomeIndex(n, hash) == o then
              && HomeShift(n, hash) == m && HomeShift(n + 1, hash) == m + 1
              && HomeIndex(n + 1, hash) == if Bit(hash, m) == 1 then n else o
            else
              HomeIndex(n + 1, hash) == HomeIndex(n, hash) && HomeShift(n + 1, hash) == HomeShift(n, hash)
  {
    hide Pow2, FloorLog2, BottomBits;
    var m := FloorLog2(n);
    assert Pow2(m + 1) == 2 * Pow2(m) by { Pow2Doubles(m); }
    LogOfNext(n);
    BottomBitsSplit(hash, m);
    BottomBitsSplit(hash, m + 1);
  }
}
