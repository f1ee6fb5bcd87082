/** Double hashing in a power-of-two table: the probe sequence of a key visits every slot once. */
module FixedProbe {
  import opened Bits
  import opened Counting

  /** The two hash words of a key; the first gives the step, the second the starting slot. */
  datatype Key = Key(step: nat, base: nat)

  /** The step with its lowest bit set, so that it is odd. */
  function Increment(k: Key): (r: nat)
    ensures r % 2 == 1
  {
    if k.step % 2 == 1 then k.step else k.step + 1
  }

  function Wrap(x: nat, n: nat): (r: nat)
    requires n > 0
    ensures r < n
  {
    x % n
  }

  /** The i-th slot probed for a key in a table of n slots. */
  function Probe(n: nat, k: Key, i: nat): (r: nat)
    requires n > 0
    ensures r < n
  {
    if i == 0 then Wrap(k.base, n) else Wrap(Probe(n, k, i - 1) + Increment(k), n)
  }

  lemma NextProbe(n: nat, k: Key, i: nat)
    requires n > 0
    ensures Probe(n, k, i + 1) == Wrap(Probe(n, k, i) + Increment(k), n) == (Probe(n, k, i) + Increment(k)) % n
    ensures Visited(n, k, i + 1) == Visited(n, k, i) + {Probe(n, k, i)}
  {
  }

  lemma ModStep(n: nat, x: nat, y: nat)
    requires n > 0
    ensures Wrap(Wrap(x, n) + y, n) == Wrap(x + y, n)
  {
    var q, r := x / n, x % n;
    var q', r' := (r + y) / n, (r + y) % n;
    assert x + y == (q + q') * n + r';
    DivModUnique(x + y, n, q + q', r');
  }

  lemma WrapSmall(x: nat, n: nat)
    requires x < n
    ensures Wrap(x, n) == x
  {
    DivModUnique(x, n, 0, x);
  }

  lemma {:induction false} ProbeAdd(n: nat, k: Key, i: nat, d: nat)
    requires n > 0
    ensures Probe(n, k, i + d) == Wrap(Probe(n, k, i) + Times(d, Increment(k)), n)
    decreases d
  {
    hide Increment, Probe, Wrap;
    var p, y := Probe(n, k, i), Increment(k);
    if d == 0 {
      WrapSmall(p, n);
    } else {
      ProbeAdd(n, k, i, d - 1);
      ModStep(n, p + Times(d - 1, y), y);
      NextProbe(n, k, i + (d - 1));
    }
  }

  lemma OddProduct(d: nat, h: nat)
    ensures d * (2 * h + 1) == 2 * (d * h) + d
  {
  }

  lemma TwiceProduct(q: nat, p: nat)
    ensures q * (2 * p) == 2 * (q * p) == (2 * p) * q && q * p == p * q
  {
  }

  /** An odd factor does not help a product to be divisible by a power of two. */
  lemma {:induction false} OddFactor(b: nat, d: nat, odd: nat, q: nat) returns (m: nat)
    requires odd % 2 == 1 && d * odd == q * Pow2(b)
    ensures d == m * Pow2(b)
  {
    if b == 0 {
      m := d;
    } else {
      var h := odd / 2;
      OddProduct(d, h);
      var p := Pow2(b - 1);
      TwiceProduct(q, p);
      var e := d / 2;
      assert d == 2 * e;
      TwiceProduct(odd, e);
      assert e * odd == q * p;
      m := OddFactor(b - 1, e, odd, q);
      TwiceProduct(m, p);
    }
  }

  lemma DividesRest(n: nat, p: nat, y: nat)
    requires p < n && (p + y) % n == p
    ensures y == (p + y) / n * n
  {
  }

  /** The sequence returns to a slot only after a whole number of rounds. */
  lemma ReturnsAfterRounds(b: nat, k: Key, i: nat, d: nat) returns (m: nat)
    requires Probe(Pow2(b), k, i + d) == Probe(Pow2(b), k, i)
    ensures d == m * Pow2(b)
  {
    hide Increment, Probe, Pow2;
    var n := Pow2(b);
    ProbeAdd(n, k, i, d);
    TimesIs(d, Increment(k));
    var p, y := Probe(n, k, i), d * Increment(k);
    DividesRest(n, p, y);
    m := OddFactor(b, d, Increment(k), (p + y) / n);
  }

  lemma NoSmallMultiple(m: nat, n: nat, d: nat)
    requires 0 < d < n
    ensures d != m * n
  {
    if m > 0 { MulAtLeast(m, n); }
  }

  /** Within one round no slot is probed twice. */
  lemma ProbeInjective(b: nat, k: Key, i: nat, j: nat)
    requires i < j && j - i < Pow2(b)
    ensures Probe(Pow2(b), k, i) != Probe(Pow2(b), k, j)
  {
    hide Probe;
    if Probe(Pow2(b), k, i) == Probe(Pow2(b), k, i + (j - i)) {
      var m := ReturnsAfterRounds(b, k, i, j - i);
      NoSmallMultiple(m, Pow2(b), j - i);
    }
  }

  /** After a full round the sequence is back at its first slot. */
  lemma ProbeCycles(b: nat, k: Key)
    ensures Probe(Pow2(b), k, Pow2(b)) == Probe(Pow2(b), k, 0)
  {
    var n := Pow2(b);
    ProbeAdd(n, k, 0, n);
    TimesIs(n, Increment(k));
    var p := Probe(n, k, 0);
    assert n * Increment(k) == Increment(k) * n;
    DivModUnique(p + n * Increment(k), n, Increment(k), p);
  }

  /** The slots probed first. */
  function Visited(n: nat, k: Key, count: nat): set<nat>
    requires n > 0
  {
    if count == 0 then {} else Visited(n, k, count - 1) + {Probe(n, k, count - 1)}
  }

  lemma {:induction false} VisitedHas(n: nat, k: Key, count: nat, i: nat)
    requires n > 0 && i < count
    ensures Probe(n, k, i) in Visited(n, k, count)
  {
    if i < count - 1 { VisitedHas(n, k, count - 1, i); }
  }

  lemma {:induction false} VisitedIndex(n: nat, k: Key, count: nat, p: nat) returns (i: nat)
    requires n > 0 && p in Visited(n, k, count)
    ensures i < count && Probe(n, k, i) == p
  {
    if p == Probe(n, k, count - 1) {
      i := count - 1;
    } else {
      i := VisitedIndex(n, k, count - 1, p);
    }
  }

  /** The next slot of a round has not been visited in it. */
  lemma NextIsNew(b: nat, k: Key, count: nat)
    requires count < Pow2(b)
    ensures Probe(Pow2(b), k, count) !in Visited(Pow2(b), k, count)
  {
    hide Probe, Visited, Pow2;
    if Probe(Pow2(b), k, count) in Visited(Pow2(b), k, count) {
      var i := VisitedIndex(Pow2(b), k, count, Probe(Pow2(b), k, count));
      ProbeInjective(b, k, i, count);
    }
  }

  lemma {:induction false} VisitedSize(b: nat, k: Key, count: nat)
    requires count <= Pow2(b)
    ensures |Visited(Pow2(b), k, count)| == count
  {
    if count > 0 {
      VisitedSize(b, k, count - 1);
      NextIsNew(b, k, count - 1);
    }
  }

  /** One full round probes every slot of the table. */
  lemma ProbeCovers(b: nat, k: Key, p: nat) returns (i: nat)
    requires p < Pow2(b)
    ensures i < Pow2(b) && Probe(Pow2(b), k, i) == p
  {
    var n := Pow2(b);
    VisitedSize(b, k, n);
    BelowIs(n);
    forall q | q in Visited(n, k, n)
      ensures q in Below(n)
    {
      var j := VisitedIndex(n, k, n, q);
    }
    FullSubset(Visited(n, k, n), Below(n));
    i := VisitedIndex(n, k, n, p);
  }
}
