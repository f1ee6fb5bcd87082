/** Repeated addition, and sizes of finite sets of numbers. */
module Counting {

  /** n times d, as repeated addition. */
  function Times(n: nat, d: nat): nat {
    if n == 0 then 0 else Times(n - 1, d) + d
  }

  lemma {:induction false} TimesIs(n: nat, d: nat)
    ensures Times(n, d) == n * d
  {
    if n > 0 {
      TimesIs(n - 1, d);
      assert n * d == (n - 1) * d + d;
    }
  }

  /** The numbers below n. */
  function Below(n: nat): set<nat> {
    if n == 0 then {} else Below(n - 1) + {n - 1}
  }

  lemma {:induction false} BelowIs(n: nat)
    ensures |Below(n)| == n && forall p: nat :: p in Below(n) <==> p < n
  {
    if n > 0 {
      BelowIs(n - 1);
      assert n - 1 !in Below(n - 1);
    }
  }

  lemma {:induction false} SubsetSize(a: set<nat>, b: set<nat>)
    requires a <= b
    ensures |a| <= |b|
  {
    if a != {} {
      var x :| x in a;
      SubsetSize(a - {x}, b - {x});
    }
  }

  lemma {:induction false} FullSubset(a: set<nat>, b: set<nat>)
    requires a <= b && |a| == |b|
    ensures a == b
  {
    if a != {} {
      var x :| x in a;
      FullSubset(a - {x}, b - {x});
    } else {
      assert |b| == 0;
    }
  }

  lemma BoundedSize(a: set<nat>, n: nat)
    requires forall p :: p in a ==> p < n
    ensures |a| <= n
  {
    BelowIs(n);
    SubsetSize(a, Below(n));
  }
}
