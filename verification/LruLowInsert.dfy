/**
 The low-priority insert into the eviction list, exactly as the cache does it: the counters are
 machine words, the new entry is linked right behind the low pointer, both loops of MaintainPoolSize
 run, and only then does the low pointer move. If the high pool was above its limit, which lowering
 the capacity can bring about, the first loop takes the new entry for one of the high pool.
 */
module LruLowInsert {
  import opened Options
  import opened Words
  import opened LruRing
  import opened LruList

  /** What a loop works on: the flags, the two pool counters and the pointer it moves. */
  datatype Pools = Pools(pool: map<nat, Pool>, high: Word, low: Word, at: nat)

  function TakeHigh(charge: map<nat, nat>, x: Pools, n: nat): Pools {
    Pools(x.pool[n := InLow], Add(x.high, -(ChargeOf(charge, n) as int)), Add(x.low, ChargeOf(charge, n)), n)
  }

  function TakeLow(charge: map<nat, nat>, x: Pools, n: nat): Pools {
    Pools(x.pool[n := InBottom], x.high, Add(x.low, -(ChargeOf(charge, n) as int)), n)
  }

  /** The first loop, with the entries ahead of its pointer in s; None when it runs into the sentinel. */
  function DrainHigh(charge: map<nat, nat>, s: seq<nat>, x: Pools, cap: nat): Option<Pools> {
    if x.high <= cap then Some(x)
    else if s == [] then None
    else DrainHigh(charge, s[1..], TakeHigh(charge, x, s[0]), cap)
  }

  /** The second loop. */
  function DrainLow(charge: map<nat, nat>, s: seq<nat>, x: Pools, cap: nat): Option<Pools> {
    if x.low <= cap then Some(x)
    else if s == [] then None
    else DrainLow(charge, s[1..], TakeLow(charge, x, s[0]), cap)
  }

  datatype Outcome = Sentinel | Finished(links: Links, pool: map<nat, Pool>, usage: Usage)

  /** The outcome for a list whose segments are g. */
  function LowInsert(k: Links, pool: map<nat, Pool>, charge: map<nat, nat>, u: Usage, g: Parts,
                     highCapacity: nat, lowCapacity: nat, e: nat, c: nat): Outcome
    requires k.lowPri in k.next && u.high < WORD && u.low + c < WORD
  {
    var charge' := charge[e := c];
    match DrainHigh(charge', [e] + g.high, Pools(pool[e := InLow], u.high, u.low + c, k.lowPri), highCapacity)
    case None => Sentinel
    case Some(y) =>
      match DrainLow(charge', g.low + [e] + g.high, y.(at := k.bottomPri), lowCapacity)
      case None => Sentinel
      case Some(z) =>
        Finished(LinkAfter(k, k.lowPri, e).(lowPri := e, bottomPri := z.at), z.pool, Usage(u.lru + c, z.high, z.low))
  }

  /** The total charge fits a machine word. */
  predicate Fits(charge: map<nat, nat>, g: Parts, c: nat) {
    Sum(charge, Cat(g)) + c < WORD
  }

  lemma FitsParts(charge: map<nat, nat>, g: Parts, c: nat)
    requires Fits(charge, g, c)
    ensures Sum(charge, g.high) + Sum(charge, g.low) + c < WORD
  {
    SumThree(charge, g.bottom, g.low, g.high);
  }

  /** The entries ahead of node number i on the way round. */
  lemma Ahead(next: map<nat, nat>, prev: map<nat, nat>, l: seq<nat>, i: nat)
    requires Ring(next, prev, l) && Nodes(l) && i <= |l|
    ensures Nth(l, i) in next && next[Nth(l, i)] == Nth(l, i + 1)
    ensures Nth(l, i + 1) == 0 <==> l[i..] == []
    ensures i < |l| ==> l[i..][0] == Nth(l, i + 1) && l[i..][1..] == l[i + 1..]
  {
    RingNext(next, prev, l, i);
  }

  lemma LinkedLow(k: Links, pool: map<nat, Pool>, charge: map<nat, nat>, u: Usage, g: Parts, e: nat, c: nat) returns (l: seq<nat>)
    requires Segmented(k, pool, charge, u, g) && LowPointer(k, g) && e != 0 && e !in Cat(g)
    ensures k.lowPri in k.next && l == g.bottom + g.low + [e] + g.high
    ensures var k' := LinkAfter(k, k.lowPri, e); Ring(k'.next, k'.prev, l) && Nodes(l)
    ensures l[UpToLow(g)..] == [e] + g.high && l[|g.bottom|..] == g.low + [e] + g.high
    ensures k.lowPri == Nth(l, UpToLow(g)) && k.bottomPri == Nth(l, |g.bottom|)
    ensures UpToLow(g) < |l| && l[UpToLow(g)] == e
  {
    hide Ring, Sum;
    LinkLow(k, pool, charge, u, g, e, c);
    l := Cat(g.(low := g.low + [e]));
  }

  /** The first loop of MaintainPoolSize; None when it runs into the sentinel, where the source asserts. */
  method WalkHigh(k: Links, charge: map<nat, nat>, x0: Pools, cap: nat, ghost l: seq<nat>, ghost start: nat) returns (r: Option<Pools>)
    requires Ring(k.next, k.prev, l) && Nodes(l) && start <= |l| && x0.at == Nth(l, start)
    ensures r == DrainHigh(charge, l[start..], x0, cap)
  {
    hide Ring, Nodes, Nth, TakeHigh;
    var x := x0;
    ghost var i := start;
    while x.high > cap
      invariant i <= |l| && x.at == Nth(l, i)
      invariant DrainHigh(charge, l[start..], x0, cap) == DrainHigh(charge, l[i..], x, cap)
      decreases |l| - i
    {
      Ahead(k.next, k.prev, l, i);
      var n := k.next[x.at];
      if n == 0 { return None; }
      TakenAt(charge, x, n);
      x := TakeHigh(charge, x, n);
      i := i + 1;
    }
    return Some(x);
  }

  /** The second loop. */
  method WalkLow(k: Links, charge: map<nat, nat>, x0: Pools, cap: nat, ghost l: seq<nat>, ghost start: nat) returns (r: Option<Pools>)
    requires Ring(k.next, k.prev, l) && Nodes(l) && start <= |l| && x0.at == Nth(l, start)
    ensures r == DrainLow(charge, l[start..], x0, cap)
  {
    hide Ring, Nodes, Nth, TakeLow;
    var x := x0;
    ghost var i := start;
    while x.low > cap
      invariant i <= |l| && x.at == Nth(l, i)
      invariant DrainLow(charge, l[start..], x0, cap) == DrainLow(charge, l[i..], x, cap)
      decreases |l| - i
    {
      Ahead(k.next, k.prev, l, i);
      var n := k.next[x.at];
      if n == 0 { return None; }
      TakenAt(charge, x, n);
      x := TakeLow(charge, x, n);
      i := i + 1;
    }
    return Some(x);
  }

  lemma TakenAt(charge: map<nat, nat>, x: Pools, n: nat)
    ensures TakeHigh(charge, x, n).at == TakeLow(charge, x, n).at == n
  {
  }

  /** LRU_Insert in its low-priority branch; false when a loop ran into the sentinel. */
  method InsertLow(list: List, e: nat, c: nat) returns (clear: bool)
    requires list.Valid() && e != 0 && e !in Cat(list.parts) && Fits(list.charge, list.parts, c)
    modifies list`links, list`pool, list`charge, list`usage
    ensures list.charge == old(list.charge)[e := c]
    ensures old(list.links.lowPri in list.links.next) && old(list.usage.high) < WORD && old(list.usage.low) + c < WORD
    ensures old(LowInsert(list.links, list.pool, list.charge, list.usage, list.parts, list.highCapacity, list.lowCapacity, e, c)) ==
            if clear then Finished(list.links, list.pool, list.usage) else Sentinel
  {
    hide Sum, Ring, Nodes, Nth, Cat, Segmented, DrainHigh, DrainLow;
    ghost var g := list.parts;
    ghost var l := LinkedLow(list.links, list.pool, list.charge, list.usage, g, e, c);
    FitsOf(list, c);
    var lowPri := list.links.lowPri;
    list.links := LinkAfter(list.links, lowPri, e);
    list.charge := list.charge[e := c];
    var start := Pools(list.pool[e := InLow], list.usage.high, list.usage.low + c, lowPri);
    var first := WalkHigh(list.links, list.charge, start, list.highCapacity, l, UpToLow(g));
    if first.None? { return false; }
    var second := WalkLow(list.links, list.charge, first.value.(at := list.links.bottomPri), list.lowCapacity, l, |g.bottom|);
    if second.None? { return false; }
    list.pool := second.value.pool;
    list.links := list.links.(lowPri := e, bottomPri := second.value.at);
    list.usage := Usage(list.usage.lru + c, second.value.high, second.value.low);
    return true;
  }

  lemma FitsOf(list: List, c: nat)
    requires list.Valid() && Fits(list.charge, list.parts, c)
    ensures list.usage.high + list.usage.low + c < WORD
  {
    FitsParts(list.charge, list.parts, c);
  }

  // Where the loops stop.

  lemma SumHead(charge: map<nat, nat>, s: seq<nat>, n: nat)
    requires 0 < n <= |s|
    ensures Sum(charge, s[..n]) == ChargeOf(charge, s[0]) + Sum(charge, s[1..][..n - 1])
  {
    assert s[..n][1..] == s[1..][..n - 1];
  }

  /** The first loop stops after n entries if n is the least number that brings the counter within the limit. */
  lemma {:induction false} HighStops(charge: map<nat, nat>, s: seq<nat>, x: Pools, cap: nat, w: int, n: nat)
    requires x.high == Wrapped(w) && n <= |s| && Wrapped(w - Sum(charge, s[..n])) <= cap
    ensures DrainHigh(charge, s, x, cap).Some?
  {
    if x.high > cap {
      assert n > 0 by { assert s[..0] == []; }
      SumHead(charge, s, n);
      AddWrapped(w, -(ChargeOf(charge, s[0]) as int));
      HighStops(charge, s[1..], TakeHigh(charge, x, s[0]), cap, w - ChargeOf(charge, s[0]), n - 1);
    }
  }

  lemma {:induction false} LowStops(charge: map<nat, nat>, s: seq<nat>, x: Pools, cap: nat, w: int, n: nat)
    requires x.low == Wrapped(w) && n <= |s| && Wrapped(w - Sum(charge, s[..n])) <= cap
    ensures DrainLow(charge, s, x, cap).Some?
  {
    if x.low > cap {
      assert n > 0 by { assert s[..0] == []; }
      SumHead(charge, s, n);
      AddWrapped(w, -(ChargeOf(charge, s[0]) as int));
      LowStops(charge, s[1..], TakeLow(charge, x, s[0]), cap, w - ChargeOf(charge, s[0]), n - 1);
    }
  }

  /** n is the least number of entries of s whose charges bring the counter w within the limit. */
  ghost predicate Least(charge: map<nat, nat>, s: seq<nat>, w: int, cap: nat, n: nat) {
    && n <= |s| && Wrapped(w - Sum(charge, s[..n])) <= cap
    && (forall m: nat :: m < n ==> Wrapped(w - Sum(charge, s[..m])) > cap)
  }

  lemma LeastNext(charge: map<nat, nat>, s: seq<nat>, w: int, cap: nat, n: nat)
    requires s != [] && Wrapped(w) > cap && Least(charge, s[1..], w - ChargeOf(charge, s[0]), cap, n)
    ensures Least(charge, s, w, cap, n + 1)
  {
    SumHead(charge, s, n + 1);
    forall m: nat | m < n + 1
      ensures Wrapped(w - Sum(charge, s[..m])) > cap
    {
      if m == 0 { assert s[..0] == []; } else { SumHead(charge, s, m); }
    }
  }

  /** Flags after a loop that gave the entries of s the flag p. */
  ghost predicate Flagged(before: map<nat, Pool>, after: map<nat, Pool>, s: seq<nat>, p: Pool) {
    && (forall v :: v in s ==> v in after && after[v] == p)
    && (forall v :: v !in s ==> (v in after <==> v in before) && (v in after ==> after[v] == before[v]))
  }

  lemma FlaggedNext(before: map<nat, Pool>, after: map<nat, Pool>, s: seq<nat>, n: nat, p: Pool)
    requires n < |s| && Flagged(before[s[0] := p], after, s[1..][..n], p)
    ensures Flagged(before, after, s[..n + 1], p)
  {
    assert s[..n + 1] == [s[0]] + s[1..][..n];
  }

  lemma NoneTaken(charge: map<nat, nat>, s: seq<nat>, pool: map<nat, Pool>, w: int, cap: nat, p: Pool)
    requires Wrapped(w) <= cap
    ensures Least(charge, s, w, cap, 0) && Sum(charge, s[..0]) == 0 && Flagged(pool, pool, s[..0], p)
  {
    assert s[..0] == [];
  }

  lemma {:induction false} HighResult(charge: map<nat, nat>, s: seq<nat>, x: Pools, cap: nat, w: int, v: int) returns (n: nat)
    requires x.high == Wrapped(w) && x.low == Wrapped(v) && DrainHigh(charge, s, x, cap).Some?
    ensures Least(charge, s, w, cap, n)
    ensures var y := DrainHigh(charge, s, x, cap).value;
            && y.high == Wrapped(w - Sum(charge, s[..n])) && y.low == Wrapped(v + Sum(charge, s[..n]))
            && Flagged(x.pool, y.pool, s[..n], InLow)
  {
    hide Wrapped, Add, Sum, Least, Flagged, ChargeOf;
    if x.high <= cap {
      NoneTaken(charge, s, x.pool, w, cap, InLow);
      n := 0;
    } else {
      var d := ChargeOf(charge, s[0]) as int;
      AddWrapped(w, -d);
      AddWrapped(v, d);
      var m := HighResult(charge, s[1..], TakeHigh(charge, x, s[0]), cap, w - d, v + d);
      LeastNext(charge, s, w, cap, m);
      SumHead(charge, s, m + 1);
      FlaggedNext(x.pool, DrainHigh(charge, s, x, cap).value.pool, s, m, InLow);
      n := m + 1;
    }
  }

  lemma {:induction false} LowResult(charge: map<nat, nat>, s: seq<nat>, x: Pools, cap: nat, v: int) returns (n: nat)
    requires x.low == Wrapped(v) && DrainLow(charge, s, x, cap).Some?
    ensures Least(charge, s, v, cap, n)
    ensures var y := DrainLow(charge, s, x, cap).value;
            && y.high == x.high && y.low == Wrapped(v - Sum(charge, s[..n])) && Flagged(x.pool, y.pool, s[..n], InBottom)
  {
    hide Wrapped, Add, Sum, Least, Flagged, ChargeOf;
    if x.low <= cap {
      NoneTaken(charge, s, x.pool, v, cap, InBottom);
      n := 0;
    } else {
      var d := ChargeOf(charge, s[0]) as int;
      AddWrapped(v, -d);
      var m := LowResult(charge, s[1..], TakeLow(charge, x, s[0]), cap, v - d);
      LeastNext(charge, s, v, cap, m);
      SumHead(charge, s, m + 1);
      FlaggedNext(x.pool, DrainLow(charge, s, x, cap).value.pool, s, m, InBottom);
      n := m + 1;
    }
  }

  // The high pool above its limit.

  lemma RingUnique(next: map<nat, nat>, prev: map<nat, nat>, l: seq<nat>, m: seq<nat>)
    requires Ring(next, prev, l) && Ring(next, prev, m) && Nodes(l) && Nodes(m)
    ensures l == m
  {
    var n := if |l| < |m| then |l| else |m|;
    SameWay(next, prev, l, m, n);
    if |l| != |m| {
      RingNext(next, prev, l, n);
      RingNext(next, prev, m, n);
    }
    forall i | 0 <= i < n ensures l[i] == m[i] { SameWay(next, prev, l, m, i + 1); }
  }

  lemma {:induction false} SameWay(next: map<nat, nat>, prev: map<nat, nat>, l: seq<nat>, m: seq<nat>, k: nat)
    requires Ring(next, prev, l) && Ring(next, prev, m) && k <= |l| && k <= |m|
    ensures Nth(l, k) == Nth(m, k)
  {
    if k > 0 {
      SameWay(next, prev, l, m, k - 1);
      RingNext(next, prev, l, k - 1);
      RingNext(next, prev, m, k - 1);
    }
  }

  /** Segments that fit the links and put the low pointer at e have everything behind e in the high pool. */
  lemma HighBehind(next: map<nat, nat>, prev: map<nat, nat>, l: seq<nat>, p: nat, g: Parts)
    requires Ring(next, prev, l) && Nodes(l) && p < |l|
    requires Ring(next, prev, Cat(g)) && Nodes(Cat(g)) && Nth(Cat(g), UpToLow(g)) == l[p]
    ensures g.high == l[p + 1..]
  {
    RingUnique(next, prev, l, Cat(g));
    assert UpToLow(g) == p + 1;
  }

  /** A consistent list, and a new entry e of charge c for its low pool. */
  ghost predicate Ready(k: Links, pool: map<nat, Pool>, charge: map<nat, nat>, u: Usage, g: Parts, e: nat, c: nat) {
    Segmented(k, pool, charge, u, g) && LowPointer(k, g) && e != 0 && e !in Cat(g) && Fits(charge, g, c)
  }

  lemma ReadyFacts(k: Links, pool: map<nat, Pool>, charge: map<nat, nat>, u: Usage, g: Parts, e: nat, c: nat)
    requires Ready(k, pool, charge, u, g, e, c)
    ensures k.lowPri in k.next && u.high + u.low + c < WORD && u.high == Sum(charge, g.high) && e !in g.high
  {
    hide Sum, Ring;
    FitsParts(charge, g, c);
    LinkLow(k, pool, charge, u, g, e, c);
  }

  /** What the first loop has taken when it has passed e and j entries of the high pool. */
  lemma TakenSum(charge: map<nat, nat>, high: seq<nat>, e: nat, c: nat, j: nat)
    requires e !in high && j <= |high|
    ensures Sum(charge[e := c], ([e] + high)[..j + 1]) == c + Sum(charge, high) - Sum(charge, high[j..])
  {
    hide Sum;
    var d := charge[e := c];
    assert ([e] + high)[..j + 1] == [e] + high[..j] && high == high[..j] + high[j..];
    SumConcat(d, [e], high[..j]);
    SumSingle(d, e);
    SumOther(charge, high[..j], e, c);
    SumConcat(charge, high[..j], high[j..]);
  }

  /** The first loop may stop once it has passed j entries of the high pool, whose remaining charge it takes for c less. */
  ghost predicate MayStop(charge: map<nat, nat>, high: seq<nat>, cap: nat, c: nat, j: nat) {
    j <= |high| && Wrapped(Sum(charge, high[j..]) - c) <= cap
  }

  ghost predicate StopsAfter(charge: map<nat, nat>, high: seq<nat>, cap: nat, c: nat, j: nat) {
    MayStop(charge, high, cap, c, j) && forall i: nat :: i < j ==> !MayStop(charge, high, cap, c, i)
  }

  /** The first loop on a list with too large a high pool: it takes e and j entries more. */
  lemma FirstLoop(k: Links, pool: map<nat, Pool>, charge: map<nat, nat>, u: Usage, g: Parts, cap: nat, e: nat, c: nat) returns (j: nat)
    requires Ready(k, pool, charge, u, g, e, c) && u.high > cap && u.high < WORD && u.low + c < WORD
    requires DrainHigh(charge[e := c], [e] + g.high, Pools(pool[e := InLow], u.high, u.low + c, k.lowPri), cap).Some?
    ensures StopsAfter(charge, g.high, cap, c, j)
    ensures var y := DrainHigh(charge[e := c], [e] + g.high, Pools(pool[e := InLow], u.high, u.low + c, k.lowPri), cap).value;
            && y.high == Wrapped(Sum(charge, g.high[j..]) - c)
            && y.low == Wrapped(u.low + c + c + u.high - Sum(charge, g.high[j..]))
            && (forall v :: v in g.high[..j] ==> v in y.pool && y.pool[v] == InLow)
  {
    hide Sum, Segmented, DrainHigh, Wrapped, Cat;
    ReadyFacts(k, pool, charge, u, g, e, c);
    var d, s := charge[e := c], [e] + g.high;
    WrappedWord(u.high);
    WrappedWord(u.low + c);
    var n := HighResult(d, s, Pools(pool[e := InLow], u.high, u.low + c, k.lowPri), cap, u.high, u.low + c);
    NoneTaken0(d, s);
    j := n - 1;
    forall i: nat | i < j + 1
      ensures Sum(d, s[..i + 1]) == c + u.high - Sum(charge, g.high[i..])
    {
      TakenSum(charge, g.high, e, c, i);
    }
    assert s[..n] == [e] + g.high[..j];
  }

  /** After a low-priority insert into such a list: the counter is short by c, and the entries taken lost their flag. */
  lemma Aftermath(k: Links, pool: map<nat, Pool>, charge: map<nat, nat>, u: Usage, g: Parts,
                  highCapacity: nat, lowCapacity: nat, e: nat, c: nat) returns (j: nat)
    requires Ready(k, pool, charge, u, g, e, c) && u.high > highCapacity
    requires k.lowPri in k.next && u.high < WORD && u.low + c < WORD
    requires LowInsert(k, pool, charge, u, g, highCapacity, lowCapacity, e, c).Finished?
    ensures StopsAfter(charge, g.high, highCapacity, c, j)
    ensures var r := LowInsert(k, pool, charge, u, g, highCapacity, lowCapacity, e, c);
            && r.usage.high == Wrapped(Sum(charge, g.high[j..]) - c)
            && (forall v :: v in g.high[..j] ==> v in r.pool && r.pool[v] != InHigh)
  {
    hide Sum, Ready, DrainHigh, DrainLow, Wrapped, StopsAfter;
    var d := charge[e := c];
    j := FirstLoop(k, pool, charge, u, g, highCapacity, e, c);
    var y := DrainHigh(d, [e] + g.high, Pools(pool[e := InLow], u.high, u.low + c, k.lowPri), highCapacity).value;
    WrappedWord(y.low);
    var m := LowResult(d, g.low + [e] + g.high, y.(at := k.bottomPri), lowCapacity, y.low);
  }

  /** The second loop may then stop after i entries, with a counter that counts c twice. */
  ghost predicate LowMayStop(charge: map<nat, nat>, u: Usage, g: Parts, cap: nat, e: nat, c: nat, j: nat, i: nat) {
    && j <= |g.high| && i <= |g.low| + 1 + |g.high|
    && Wrapped(u.low + c + c + u.high - Sum(charge, g.high[j..]) - Sum(charge[e := c], (g.low + [e] + g.high)[..i])) <= cap
  }

  /** The whole insert stays clear of the sentinel if and only if both loops may stop. */
  lemma LowInsertClearIff(k: Links, pool: map<nat, Pool>, charge: map<nat, nat>, u: Usage, g: Parts,
                          highCapacity: nat, lowCapacity: nat, e: nat, c: nat)
    requires Ready(k, pool, charge, u, g, e, c)
    ensures k.lowPri in k.next && u.high < WORD && u.low + c < WORD
    ensures LowInsert(k, pool, charge, u, g, highCapacity, lowCapacity, e, c).Finished? <==>
            || u.high <= highCapacity
            || exists j: nat, i: nat :: StopsAfter(charge, g.high, highCapacity, c, j) && LowMayStop(charge, u, g, lowCapacity, e, c, j, i)
  {
    hide Sum, Ready, DrainHigh, DrainLow, Wrapped, Segmented;
    ReadyFacts(k, pool, charge, u, g, e, c);
    if u.high <= highCapacity {
      var g' := KeptWithin(k, pool, charge, u, g, highCapacity, lowCapacity, e, c);
    } else {
      FirstLoopClearIff(k, pool, charge, u, g, highCapacity, e, c);
      var d, s := charge[e := c], g.low + [e] + g.high;
      var first := DrainHigh(d, [e] + g.high, Pools(pool[e := InLow], u.high, u.low + c, k.lowPri), highCapacity);
      if first.Some? {
        var j := FirstLoop(k, pool, charge, u, g, highCapacity, e, c);
        var x, w := first.value.(at := k.bottomPri), u.low + c + c + u.high - Sum(charge, g.high[j..]);
        if DrainLow(d, s, x, lowCapacity).Some? {
          var i := LowResult(d, s, x, lowCapacity, w);
          assert LowMayStop(charge, u, g, lowCapacity, e, c, j, i);
        } else {
          forall j': nat, i: nat | StopsAfter(charge, g.high, highCapacity, c, j')
            ensures !LowMayStop(charge, u, g, lowCapacity, e, c, j', i)
          {
            assert j' == j;
            if LowMayStop(charge, u, g, lowCapacity, e, c, j', i) { LowStops(d, s, x, lowCapacity, w, i); }
          }
        }
      }
    }
  }

  lemma NoneTaken0(charge: map<nat, nat>, s: seq<nat>)
    ensures Sum(charge, s[..0]) == 0
  {
    assert s[..0] == [];
  }

  /** No segments fit the list then. */
  lemma BrokenAfter(k: Links, pool: map<nat, Pool>, charge: map<nat, nat>, u: Usage, g: Parts,
                    highCapacity: nat, lowCapacity: nat, e: nat, c: nat, g': Parts)
    requires Ready(k, pool, charge, u, g, e, c) && u.high > highCapacity
    requires k.lowPri in k.next && u.high < WORD && u.low + c < WORD
    requires LowInsert(k, pool, charge, u, g, highCapacity, lowCapacity, e, c).Finished?
    ensures var r := LowInsert(k, pool, charge, u, g, highCapacity, lowCapacity, e, c);
            !(Segmented(r.links, r.pool, charge[e := c], r.usage, g') && LowPointer(r.links, g'))
  {
    hide Sum, DrainHigh, DrainLow, Cat, Ring, Nodes, Nth, Wrapped;
    var r := LowInsert(k, pool, charge, u, g, highCapacity, lowCapacity, e, c);
    if Segmented(r.links, r.pool, charge[e := c], r.usage, g') && LowPointer(r.links, g') {
      ReadyFacts(k, pool, charge, u, g, e, c);
      var l := LinkedLow(k, pool, charge, u, g, e, c);
      var j := Aftermath(k, pool, charge, u, g, highCapacity, lowCapacity, e, c);
      HighBehind(r.links.next, r.links.prev, l, UpToLow(g), g');
      assert g'.high == g.high by { assert l[UpToLow(g)..][1..] == l[UpToLow(g) + 1..]; }
      SumOther(charge, g.high, e, c);
    }
  }

  /** With the high pool within its limit the second loop only takes entries of the low pool. */
  lemma {:induction false} LowDrained(k: Links, pool: map<nat, Pool>, charge: map<nat, nat>, u: Usage, g: Parts, cap: nat)
      returns (g': Parts)
    requires Segmented(k, pool, charge, u, g) && u.high < WORD && u.low < WORD
    ensures var r := DrainLow(charge, g.low + g.high, Pools(pool, u.high, u.low, k.bottomPri), cap);
            && r.Some? && Cat(g') == Cat(g) && UpToLow(g') == UpToLow(g)
            && Segmented(k.(bottomPri := r.value.at), r.value.pool, charge, u.(high := r.value.high, low := r.value.low), g')
    decreases |g.low|
  {
    hide Segmented, Cat, ChargeOf, UpToLow;
    g' := g;
    if u.low > cap {
      LowOverflows(k, pool, charge, u, g);
      var e := g.low[0];
      var d := ChargeOf(charge, e);
      var h := LowToBottom(g);
      assert (g.low + g.high)[1..] == h.low + h.high;
      g' := LowDrained(k.(bottomPri := e), pool[e := InBottom], charge, u.(low := u.low - d), h, cap);
    }
  }

  /** The list stays consistent if and only if the high pool was within its limit. */
  lemma LowInsertKeepsListIff(k: Links, pool: map<nat, Pool>, charge: map<nat, nat>, u: Usage, g: Parts,
                              highCapacity: nat, lowCapacity: nat, e: nat, c: nat)
    requires Ready(k, pool, charge, u, g, e, c)
    ensures k.lowPri in k.next && u.high < WORD && u.low + c < WORD
    ensures var r := LowInsert(k, pool, charge, u, g, highCapacity, lowCapacity, e, c);
            (r.Finished? && exists g' :: Segmented(r.links, r.pool, charge[e := c], r.usage, g') && LowPointer(r.links, g'))
            <==> u.high <= highCapacity
  {
    hide Sum, Segmented, Cat, LowPointer, UpToLow, DrainLow;
    ReadyFacts(k, pool, charge, u, g, e, c);
    var r := LowInsert(k, pool, charge, u, g, highCapacity, lowCapacity, e, c);
    if u.high > highCapacity {
      if r.Finished? {
        forall g' ensures !(Segmented(r.links, r.pool, charge[e := c], r.usage, g') && LowPointer(r.links, g')) {
          BrokenAfter(k, pool, charge, u, g, highCapacity, lowCapacity, e, c, g');
        }
      }
    } else {
      var g' := KeptWithin(k, pool, charge, u, g, highCapacity, lowCapacity, e, c);
    }
  }

  lemma KeptWithin(k: Links, pool: map<nat, Pool>, charge: map<nat, nat>, u: Usage, g: Parts,
                   highCapacity: nat, lowCapacity: nat, e: nat, c: nat) returns (g': Parts)
    requires Ready(k, pool, charge, u, g, e, c) && u.high <= highCapacity
    requires k.lowPri in k.next && u.high < WORD && u.low + c < WORD
    ensures var r := LowInsert(k, pool, charge, u, g, highCapacity, lowCapacity, e, c);
            r.Finished? && Segmented(r.links, r.pool, charge[e := c], r.usage, g') && LowPointer(r.links, g')
  {
    hide Sum, Segmented, Cat, Nth, DrainLow;
    LinkLow(k, pool, charge, u, g, e, c);
    var g1, k1, u1 := g.(low := g.low + [e]), LinkAfter(k, k.lowPri, e), u.(low := u.low + c);
    g' := LowDrained(k1, pool[e := InLow], charge[e := c], u1, g1, lowCapacity);
    var r := LowInsert(k, pool, charge, u, g, highCapacity, lowCapacity, e, c);
    var k2 := k1.(bottomPri := r.links.bottomPri);
    SegmentedLru(k2, r.pool, charge[e := c], r.usage.(lru := u.lru), r.usage, g');
    MovedPointer(k2, r.pool, charge[e := c], r.usage, g', e);
  }

  /** The first loop stays clear of the sentinel if and only if it need not run or may stop somewhere in the high pool. */
  lemma FirstLoopClearIff(k: Links, pool: map<nat, Pool>, charge: map<nat, nat>, u: Usage, g: Parts,
                          highCapacity: nat, e: nat, c: nat)
    requires Ready(k, pool, charge, u, g, e, c)
    ensures u.high < WORD && u.low + c < WORD
    ensures DrainHigh(charge[e := c], [e] + g.high, Pools(pool[e := InLow], u.high, u.low + c, k.lowPri), highCapacity).Some?
            <==> u.high <= highCapacity || exists j: nat :: MayStop(charge, g.high, highCapacity, c, j)
  {
    hide Sum, Segmented, Cat, DrainHigh, Wrapped;
    ReadyFacts(k, pool, charge, u, g, e, c);
    var d, s, x := charge[e := c], [e] + g.high, Pools(pool[e := InLow], u.high, u.low + c, k.lowPri);
    WrappedWord(u.high);
    WrappedWord(u.low + c);
    NoneTaken0(d, s);
    if u.high <= highCapacity {
      HighStops(d, s, x, highCapacity, u.high, 0);
    } else if DrainHigh(d, s, x, highCapacity).Some? {
      var n := HighResult(d, s, x, highCapacity, u.high, u.low + c);
      TakenSum(charge, g.high, e, c, n - 1);
      assert MayStop(charge, g.high, highCapacity, c, n - 1);
    } else if j: nat :| MayStop(charge, g.high, highCapacity, c, j) {
      TakenSum(charge, g.high, e, c, j);
      HighStops(d, s, x, highCapacity, u.high, j + 1);
    }
  }

  /**
   Unless charge and limit together reach 2^64, this asks for a number of most recently used entries
   of the high pool whose total charge lies between c and c plus the limit. In particular c must not
   exceed the charge of the whole pool, but that alone does not suffice.
   */
  lemma MayStopPlainly(charge: map<nat, nat>, high: seq<nat>, cap: nat, c: nat, j: nat)
    requires c + cap < WORD && Sum(charge, high) + c < WORD
    ensures MayStop(charge, high, cap, c, j) <==> j <= |high| && c <= Sum(charge, high[j..]) <= c + cap
    ensures MayStop(charge, high, cap, c, j) ==> c <= Sum(charge, high)
  {
    hide Sum;
    if j <= |high| {
      assert high == high[..j] + high[j..];
      SumConcat(charge, high[..j], high[j..]);
    }
  }

  /** A high pool of one entry of 15 with a limit of 10: a new charge of 3 already leads into the sentinel. */
  lemma SmallChargeIsNotEnough(j: nat)
    ensures !MayStop(map[1 := 15], [1], 10, 3, j)
  {
    if j <= 1 { assert [1][0..] == [1] && [1][1..] == []; }
  }
}
