/**
 The eviction list of the LRU cache: one ring, least recently used first, cut into a bottom, a
 low-priority and a high-priority segment by two pointers. Unlike the pointers and counters, the
 three sequences `bottom`, `low` and `high` are not part of the cache; they state what the ring means.
 */
module LruList {
  import opened Lists
  import opened LruRing

  datatype Pool = InBottom | InLow | InHigh

  function ChargeOf(c: map<nat, nat>, e: nat): nat {
    if e in c then c[e] else 0
  }

  function Sum(c: map<nat, nat>, s: seq<nat>): nat {
    if s == [] then 0 else ChargeOf(c, s[0]) + Sum(c, s[1..])
  }

  lemma {:induction false} SumConcat(c: map<nat, nat>, s: seq<nat>, t: seq<nat>)
    ensures Sum(c, s + t) == Sum(c, s) + Sum(c, t)
  {
    if s == [] {
      assert s + t == t;
    } else {
      assert (s + t)[1..] == s[1..] + t;
      SumConcat(c, s[1..], t);
    }
  }

  lemma {:induction false} SumOther(c: map<nat, nat>, s: seq<nat>, e: nat, v: nat)
    requires e !in s
    ensures Sum(c[e := v], s) == Sum(c, s)
  {
    if s != [] { SumOther(c, s[1..], e, v); }
  }

  lemma SumSingle(c: map<nat, nat>, e: nat)
    ensures Sum(c, [e]) == ChargeOf(c, e)
  {
    assert [e][1..] == [];
  }

  lemma SumThree(c: map<nat, nat>, a: seq<nat>, b: seq<nat>, d: seq<nat>)
    ensures Sum(c, a + b + d) == Sum(c, a) + Sum(c, b) + Sum(c, d)
  {
    SumConcat(c, a + b, d);
    SumConcat(c, a, b);
  }

  /** The three segments of the list, least recently used first. */
  datatype Parts = Parts(bottom: seq<nat>, low: seq<nat>, high: seq<nat>)

  function Cat(g: Parts): seq<nat> {
    g.bottom + g.low + g.high
  }

  /** Number of entries up to the end of the low-priority segment. */
  function UpToLow(g: Parts): nat {
    |g.bottom| + |g.low|
  }

  /** The ring's pointers, and the two that mark the ends of the bottom and the low segment. */
  datatype Links = Links(next: map<nat, nat>, prev: map<nat, nat>, lowPri: nat, bottomPri: nat)

  /** Total charge on the list and in its two upper pools. */
  datatype Usage = Usage(lru: nat, high: nat, low: nat)

  /** Flags agree with segments. */
  ghost predicate Flags(pool: map<nat, Pool>, g: Parts) {
    && (forall e :: e in g.bottom ==> e in pool && pool[e] == InBottom)
    && (forall e :: e in g.low ==> e in pool && pool[e] == InLow)
    && (forall e :: e in g.high ==> e in pool && pool[e] == InHigh)
  }

  /** The ring, its flags, its pool counters and the end of the bottom segment. */
  ghost predicate Segmented(k: Links, pool: map<nat, Pool>, charge: map<nat, nat>, u: Usage, g: Parts) {
    && Ring(k.next, k.prev, Cat(g)) && Nodes(Cat(g))
    && Flags(pool, g)
    && u.high == Sum(charge, g.high) && u.low == Sum(charge, g.low)
    && k.bottomPri == Nth(Cat(g), |g.bottom|)
  }

  ghost predicate LowPointer(k: Links, g: Parts) {
    k.lowPri == Nth(Cat(g), UpToLow(g))
  }

  lemma CatLength(g: Parts)
    ensures |Cat(g)| == |g.bottom| + |g.low| + |g.high|
  {
  }

  lemma RingNext(next: map<nat, nat>, prev: map<nat, nat>, l: seq<nat>, k: nat)
    requires Ring(next, prev, l) && k <= |l|
    ensures Nth(l, k) in next && next[Nth(l, k)] == Nth(l, k + 1)
    ensures Nth(l, k + 1) in prev && prev[Nth(l, k + 1)] == Nth(l, k)
  {
    assert Linked(next, prev, l, k);
  }

  // Pushing entries down.

  /** Moving the first entry of one segment to the end of the one before it. */
  lemma MoveDown(l: seq<nat>, a: seq<nat>, b: seq<nat>, d: seq<nat>)
    requires l == a + b + d && Nodes(l) && d != []
    ensures l == a + (b + [d[0]]) + d[1..] && Nth(l, |a| + |b| + 1) == d[0]
    ensures d[0] !in a && d[0] !in b && d[0] !in d[1..]
  {
    assert l[|a| + |b|] == d[0];
    assert forall i :: 0 <= i < |a| ==> l[i] == a[i];
    assert forall i :: 0 <= i < |b| ==> l[|a| + i] == b[i];
    assert forall i :: 0 < i < |d| ==> l[|a| + |b| + i] == d[i];
  }

  lemma MoveDownSums(c: map<nat, nat>, b: seq<nat>, d: seq<nat>)
    requires d != []
    ensures Sum(c, b + [d[0]]) == Sum(c, b) + ChargeOf(c, d[0])
    ensures Sum(c, d[1..]) == Sum(c, d) - ChargeOf(c, d[0]) && ChargeOf(c, d[0]) <= Sum(c, d)
  {
    SumConcat(c, b, [d[0]]);
    SumSingle(c, d[0]);
  }

  function HighToLow(g: Parts): Parts
    requires g.high != []
  {
    Parts(g.bottom, g.low + [g.high[0]], g.high[1..])
  }

  function LowToBottom(g: Parts): Parts
    requires g.low != []
  {
    Parts(g.bottom + [g.low[0]], g.low[1..], g.high)
  }

  /** One round of the first loop of MaintainPoolSize. */
  lemma HighOverflows(k: Links, pool: map<nat, Pool>, charge: map<nat, nat>, u: Usage, g: Parts)
    requires Segmented(k, pool, charge, u, g) && LowPointer(k, g) && u.high > 0
    ensures g.high != [] && k.lowPri in k.next && k.next[k.lowPri] == g.high[0] && ChargeOf(charge, g.high[0]) <= u.high
    ensures var e := g.high[0]; var c := ChargeOf(charge, e); var g' := HighToLow(g);
            && Cat(g') == Cat(g) && UpToLow(g') == UpToLow(g) + 1 && e == Nth(Cat(g), UpToLow(g) + 1)
            && Segmented(k.(lowPri := e), pool[e := InLow], charge, u.(high := u.high - c, low := u.low + c), g')
  {
    hide Ring, Nodes, Nth;
    assert g.high != [];
    MoveDown(Cat(g), g.bottom, g.low, g.high);
    MoveDownSums(charge, g.low, g.high);
    RingNext(k.next, k.prev, Cat(g), UpToLow(g));
  }

  /** One round of its second loop. */
  lemma LowOverflows(k: Links, pool: map<nat, Pool>, charge: map<nat, nat>, u: Usage, g: Parts)
    requires Segmented(k, pool, charge, u, g) && u.low > 0
    ensures g.low != [] && k.bottomPri in k.next && k.next[k.bottomPri] == g.low[0] && ChargeOf(charge, g.low[0]) <= u.low
    ensures var e := g.low[0]; var g' := LowToBottom(g);
            && Cat(g') == Cat(g) && UpToLow(g') == UpToLow(g)
            && Segmented(k.(bottomPri := e), pool[e := InBottom], charge, u.(low := u.low - ChargeOf(charge, e)), g')
  {
    hide Ring, Nodes, Nth;
    assert g.low != [];
    var l, rest := Cat(g), g.low + g.high;
    assert l == [] + g.bottom + rest;
    MoveDown(l, [], g.bottom, rest);
    assert rest[0] == g.low[0] && rest[1..] == g.low[1..] + g.high;
    assert [] + (g.bottom + [g.low[0]]) + (g.low[1..] + g.high) == Cat(LowToBottom(g));
    MoveDownSums(charge, g.bottom, g.low);
    RingNext(k.next, k.prev, l, |g.bottom|);
  }

  // Linking a new entry.

  lemma SumAppend(c: map<nat, nat>, s: seq<nat>, e: nat, v: nat)
    requires e !in s
    ensures Sum(c[e := v], s + [e]) == Sum(c, s) + v && Sum(c[e := v], s) == Sum(c, s)
  {
    SumConcat(c[e := v], s, [e]);
    SumSingle(c[e := v], e);
    SumOther(c, s, e, v);
  }

  /** Link e behind node p. */
  function LinkAfter(k: Links, p: nat, e: nat): Links
    requires p in k.next
  {
    k.(next := k.next[e := k.next[p]][p := e], prev := k.prev[e := p][k.next[p] := e])
  }

  /** Link e at the most recently used end, in the high-priority segment. */
  lemma LinkHigh(k: Links, pool: map<nat, Pool>, charge: map<nat, nat>, u: Usage, g: Parts, e: nat, c: nat)
    requires Segmented(k, pool, charge, u, g) && LowPointer(k, g) && e != 0 && e !in Cat(g)
    ensures 0 in k.prev && k.prev[0] in k.next && k.next[k.prev[0]] == 0
    ensures var g' := g.(high := g.high + [e]); var k' := LinkAfter(k, k.prev[0], e);
            && Cat(g') == Cat(g) + [e] && LowPointer(k', g')
            && Segmented(k', pool[e := InHigh], charge[e := c], u.(high := u.high + c), g')
  {
    hide Ring, Sum;
    var l := Cat(g);
    RingNext(k.next, k.prev, l, |l|);
    RingInsert(k.next, k.prev, l, |l|, e);
    assert InsertAt(l, |l|, e) == Cat(g.(high := g.high + [e]));
    SumAppend(charge, g.high, e, c);
    SumOther(charge, g.low, e, c);
  }

  /** Link e after the low-priority segment, before its pointer moves. */
  lemma LinkLow(k: Links, pool: map<nat, Pool>, charge: map<nat, nat>, u: Usage, g: Parts, e: nat, c: nat)
    requires Segmented(k, pool, charge, u, g) && LowPointer(k, g) && e != 0 && e !in Cat(g)
    ensures k.lowPri in k.next
    ensures var g' := g.(low := g.low + [e]); var k' := LinkAfter(k, k.lowPri, e);
            && Cat(g') == g.bottom + g.low + [e] + g.high && e == Nth(Cat(g'), UpToLow(g'))
            && Segmented(k', pool[e := InLow], charge[e := c], u.(low := u.low + c), g')
  {
    hide Ring, Sum;
    var l, i := Cat(g), UpToLow(g);
    RingInsert(k.next, k.prev, l, i, e);
    assert InsertAt(l, i, e) == Cat(g.(low := g.low + [e]));
    SumAppend(charge, g.low, e, c);
    SumOther(charge, g.high, e, c);
  }

  /** Link e at the end of the bottom segment. */
  lemma LinkBottom(k: Links, pool: map<nat, Pool>, charge: map<nat, nat>, u: Usage, g: Parts, e: nat, c: nat)
    requires Segmented(k, pool, charge, u, g) && LowPointer(k, g) && e != 0 && e !in Cat(g)
    ensures k.bottomPri in k.next
    ensures var g' := g.(bottom := g.bottom + [e]);
            var k' := LinkAfter(k, k.bottomPri, e).(lowPri := if k.bottomPri == k.lowPri then e else k.lowPri, bottomPri := e);
            && Cat(g') == g.bottom + [e] + (g.low + g.high) && LowPointer(k', g')
            && Segmented(k', pool[e := InBottom], charge[e := c], u, g')
  {
    hide Ring, Sum, Nth, Nodes;
    var l, i := Cat(g), |g.bottom|;
    RingInsert(k.next, k.prev, l, i, e);
    assert InsertAt(l, i, e) == Cat(g.(bottom := g.bottom + [e]));
    NthInsert(l, i, e, i + 1);
    NthInsert(l, i, e, i + 1 + |g.low|);
    if g.low != [] { NthDistinct(l, i, UpToLow(g)); }
    SumOther(charge, g.low, e, c);
    SumOther(charge, g.high, e, c);
  }

  // Unlinking an entry.

  lemma PointerAfterRemove(l: seq<nat>, i: nat, m: nat)
    requires Nodes(l) && i < |l| && m <= |l|
    ensures Nth(RemoveAt(l, i), if i < m then m - 1 else m) == if Nth(l, m) == l[i] then Nth(l, i) else Nth(l, m)
  {
    NthRemove(l, i, if i < m then m - 1 else m);
    if m != i + 1 { if m < i + 1 { NthDistinct(l, m, i + 1); } else { NthDistinct(l, i + 1, m); } }
  }

  lemma {:induction false} RemoveNodeAt(s: seq<nat>, i: nat)
    requires Nodes(s) && i < |s|
    ensures Drop(s, s[i]) == RemoveAt(s, i)
  {
    if i > 0 {
      RemoveNodeAt(s[1..], i - 1);
      assert RemoveAt(s, i) == [s[0]] + RemoveAt(s[1..], i - 1);
    }
  }

  lemma {:induction false} RemoveNodeAbsent(s: seq<nat>, e: nat)
    requires e !in s
    ensures Drop(s, e) == s
  {
    if s != [] { RemoveNodeAbsent(s[1..], e); }
  }

  lemma {:induction false} RemoveNodeSum(c: map<nat, nat>, s: seq<nat>, e: nat)
    ensures Sum(c, s) == Sum(c, Drop(s, e)) + (if e in s then ChargeOf(c, e) else 0)
    ensures forall x :: x in Drop(s, e) ==> x in s
  {
    if s != [] && s[0] != e { RemoveNodeSum(c, s[1..], e); }
  }

  lemma {:induction false} RemoveNodeMembers(s: seq<nat>, e: nat, x: nat)
    requires Nodes(s)
    ensures x in Drop(s, e) <==> x in s && x != e
  {
    if s != [] {
      RemoveNodeMembers(s[1..], e, x);
      assert s[0] !in s[1..];
    }
  }

  lemma RemoveAtConcat(s: seq<nat>, t: seq<nat>, i: nat)
    requires i < |s + t|
    ensures RemoveAt(s + t, i) == if i < |s| then RemoveAt(s, i) + t else s + RemoveAt(t, i - |s|)
    ensures i < |s| ==> |RemoveAt(s, i)| == |s| - 1
    ensures i >= |s| ==> |RemoveAt(t, i - |s|)| == |t| - 1
  {
  }

  lemma PartNodes(g: Parts)
    requires Nodes(Cat(g))
    ensures Nodes(g.bottom) && Nodes(g.low) && Nodes(g.high)
    ensures forall e :: e in g.bottom ==> e !in g.low && e !in g.high
    ensures forall e :: e in g.low ==> e !in g.high
  {
    var l := Cat(g);
    assert forall i :: 0 <= i < |g.bottom| ==> l[i] == g.bottom[i];
    assert forall i :: 0 <= i < |g.low| ==> l[|g.bottom| + i] == g.low[i];
    assert forall i :: 0 <= i < |g.high| ==> l[|g.bottom| + |g.low| + i] == g.high[i];
  }

  function RemovePart(g: Parts, e: nat): Parts {
    Parts(Drop(g.bottom, e), Drop(g.low, e), Drop(g.high, e))
  }

  /** Removing a node from the whole list removes it from the segment that holds it. */
  lemma RemoveFromParts(g: Parts, i: nat)
    requires Nodes(Cat(g)) && i < |Cat(g)|
    ensures var l := Cat(g); var e := l[i]; var g' := RemovePart(g, e);
            && RemoveAt(l, i) == Cat(g') == Drop(l, e)
            && |g'.bottom| == (if i < |g.bottom| then |g.bottom| - 1 else |g.bottom|)
            && UpToLow(g') == (if i < UpToLow(g) then UpToLow(g) - 1 else UpToLow(g))
            && (e in g.bottom || e in g.low || e in g.high)
  {
    hide Nodes, Drop, RemoveAt;
    var l, b, m, h := Cat(g), g.bottom, g.low, g.high;
    var e := l[i];
    RemoveNodeAt(l, i);
    PartNodes(g);
    RemoveAtConcat(b + m, h, i);
    if i < UpToLow(g) { RemoveAtConcat(b, m, i); }
    if i < |b| {
      assert b[i] == e;
      RemoveNodeAt(b, i); RemoveNodeAbsent(m, e); RemoveNodeAbsent(h, e);
    } else if i < UpToLow(g) {
      assert m[i - |b|] == e;
      RemoveNodeAt(m, i - |b|); RemoveNodeAbsent(b, e); RemoveNodeAbsent(h, e);
    } else {
      assert h[i - UpToLow(g)] == e;
      RemoveNodeAt(h, i - UpToLow(g)); RemoveNodeAbsent(b, e); RemoveNodeAbsent(m, e);
    }
  }

  lemma FlagsRemove(pool: map<nat, Pool>, charge: map<nat, nat>, g: Parts, e: nat)
    requires Flags(pool, g)
    ensures Flags(pool, RemovePart(g, e))
  {
    RemoveNodeSum(charge, g.bottom, e);
    RemoveNodeSum(charge, g.low, e);
    RemoveNodeSum(charge, g.high, e);
  }

  /** The pool counters without e. */
  function Uncounted(pool: map<nat, Pool>, charge: map<nat, nat>, u: Usage, e: nat): (int, int, int)
    requires e in pool
  {
    var c := ChargeOf(charge, e);
    (u.lru - c, if pool[e] == InHigh then u.high - c else u.high, if pool[e] == InLow then u.low - c else u.low)
  }

  lemma UncountedSums(pool: map<nat, Pool>, charge: map<nat, nat>, g: Parts, e: nat)
    requires Flags(pool, g) && Nodes(Cat(g)) && (e in g.bottom || e in g.low || e in g.high)
    ensures e in pool
    ensures Sum(charge, Drop(g.high, e)) == Sum(charge, g.high) - (if pool[e] == InHigh then ChargeOf(charge, e) else 0)
    ensures Sum(charge, Drop(g.low, e)) == Sum(charge, g.low) - (if pool[e] == InLow then ChargeOf(charge, e) else 0)
    ensures Sum(charge, Drop(Cat(g), e)) == Sum(charge, Cat(g)) - ChargeOf(charge, e)
  {
    hide Sum, Drop, Nodes;
    PartNodes(g);
    RemoveNodeSum(charge, g.low, e);
    RemoveNodeSum(charge, g.high, e);
    RemoveNodeSum(charge, Cat(g), e);
  }

  /** Unlink e and pull the two segment pointers back if they were at e. */
  function UnlinkNode(k: Links, e: nat): Links
    requires e in k.next && e in k.prev
  {
    var p, n := k.prev[e], k.next[e];
    Links(k.next[p := n], k.prev[n := p],
          if k.lowPri == e then p else k.lowPri,
          if k.bottomPri == e then p else k.bottomPri)
  }

  lemma Unlink(k: Links, pool: map<nat, Pool>, charge: map<nat, nat>, u: Usage, g: Parts, e: nat)
    requires Segmented(k, pool, charge, u, g) && LowPointer(k, g) && u.lru == Sum(charge, Cat(g)) && e in Cat(g)
    ensures e in k.next && e in k.prev && e in pool
    ensures var (lru, high, low) := Uncounted(pool, charge, u, e); var g' := RemovePart(g, e);
            && lru >= 0 && high >= 0 && low >= 0
            && Segmented(UnlinkNode(k, e), pool, charge, Usage(lru, high, low), g')
            && LowPointer(UnlinkNode(k, e), g') && lru == Sum(charge, Cat(g')) && Cat(g') == Drop(Cat(g), e)
  {
    hide Ring, Nodes, Sum, Nth, RemoveAt, Drop, Cat, Flags;
    var l := Cat(g);
    var i :| 0 <= i < |l| && l[i] == e;
    CatLength(g);
    RemoveFromParts(g, i);
    UncountedSums(pool, charge, g, e);
    RingRemove(k.next, k.prev, l, i);
    PointerAfterRemove(l, i, |g.bottom|);
    PointerAfterRemove(l, i, UpToLow(g));
    FlagsRemove(pool, charge, g, e);
  }

  datatype Branch = ToHigh | ToLow | ToBottom

  class List {
    var links: Links
    var usage: Usage
    var pool: map<nat, Pool>
    var charge: map<nat, nat>
    var highCapacity: nat
    var lowCapacity: nat
    ghost var parts: Parts

    ghost predicate Segments()
      reads this
    {
      Segmented(links, pool, charge, usage, parts)
    }

    ghost predicate Valid()
      reads this
    {
      Segments() && LowPointer(links, parts) && usage.lru == Sum(charge, Cat(parts))
    }

    constructor ()
      ensures Valid() && parts == Parts([], [], []) && highCapacity == 0 && lowCapacity == 0
    {
      links := Links(map[0 := 0], map[0 := 0], 0, 0);
      usage := Usage(0, 0, 0);
      pool, charge := map[], map[];
      highCapacity, lowCapacity := 0, 0;
      parts := Parts([], [], []);
      new;
      assert Linked(links.next, links.prev, [], 0);
    }

    /**
     Push entries down until both pools are within their limits. The low pointer is only used
     when the high pool is too large, so it may lag behind otherwise.
     */
    method MaintainPoolSize()
      requires Segments() && (LowPointer(links, parts) || usage.high <= highCapacity)
      modifies this`links, this`pool, this`usage, this`parts
      ensures Segments() && Cat(parts) == old(Cat(parts)) && usage.lru == old(usage.lru)
      ensures usage.high <= highCapacity && usage.low <= lowCapacity
      ensures old(LowPointer(links, parts)) ==> LowPointer(links, parts)
      ensures old(usage.high) <= highCapacity ==>
                links.lowPri == old(links.lowPri) && UpToLow(parts) == old(UpToLow(parts)) && usage.high == old(usage.high)
    {
      hide Segmented, Cat, Nth, Sum, UpToLow;
      while usage.high > highCapacity
        invariant Segments() && (LowPointer(links, parts) || usage.high <= highCapacity)
        invariant Cat(parts) == old(Cat(parts)) && usage.lru == old(usage.lru)
        invariant old(LowPointer(links, parts)) ==> LowPointer(links, parts)
        invariant old(usage.high) <= highCapacity ==>
          links.lowPri == old(links.lowPri) && usage == old(usage) && UpToLow(parts) == old(UpToLow(parts))
        decreases usage.high, |parts.high|
      {
        HighOverflows(links, pool, charge, usage, parts);
        var e := links.next[links.lowPri];
        links := links.(lowPri := e);
        pool := pool[e := InLow];
        usage := usage.(high := usage.high - ChargeOf(charge, e), low := usage.low + ChargeOf(charge, e));
        parts := HighToLow(parts);
      }
      while usage.low > lowCapacity
        invariant Segments() && usage.high <= highCapacity
        invariant Cat(parts) == old(Cat(parts)) && usage.lru == old(usage.lru)
        invariant old(LowPointer(links, parts)) ==> LowPointer(links, parts)
        invariant old(usage.high) <= highCapacity ==>
          links.lowPri == old(links.lowPri) && usage.high == old(usage.high) && UpToLow(parts) == old(UpToLow(parts))
        decreases |parts.low|
      {
        LowOverflows(links, pool, charge, usage, parts);
        var e := links.next[links.bottomPri];
        links := links.(bottomPri := e);
        pool := pool[e := InBottom];
        usage := usage.(low := usage.low - ChargeOf(charge, e));
        parts := LowToBottom(parts);
      }
    }

    /** Take e off the list. */
    method Remove(e: nat)
      requires Valid() && e in Cat(parts)
      modifies this`links, this`usage, this`parts
      ensures Valid()
      ensures parts == RemovePart(old(parts), e) && Cat(parts) == Drop(old(Cat(parts)), e)
      ensures usage.lru == old(usage.lru) - ChargeOf(charge, e)
      ensures usage.high <= old(usage.high) && usage.low <= old(usage.low)
    {
      hide Segmented, Cat, Nth, Sum, Drop, ChargeOf, Nodes;
      Unlink(links, pool, charge, usage, parts, e);
      links := UnlinkNode(links, e);
      var (lru, high, low) := Uncounted(pool, charge, usage, e);
      usage := Usage(lru, high, low);
      parts := RemovePart(parts, e);
    }

    /**
     Put e on the list, at the recent end of the pool its branch names; overflowing pools push entries
     down. Module LruLowInsert has the low-priority branch with the high pool above its limit.
     */
    method Insert(e: nat, c: nat, branch: Branch)
      requires Valid() && e != 0 && e !in Cat(parts)
      requires branch.ToLow? ==> usage.high <= highCapacity
      modifies this`links, this`usage, this`pool, this`charge, this`parts
      ensures Valid()
      ensures charge == old(charge)[e := c] && usage.lru == old(usage.lru) + c
      ensures Cat(parts) == match branch
              case ToHigh => old(Cat(parts)) + [e]
              case ToLow => old(parts.bottom + parts.low) + [e] + old(parts.high)
              case ToBottom => old(parts.bottom) + [e] + old(parts.low + parts.high)
      ensures !branch.ToBottom? ==> usage.high <= highCapacity && usage.low <= lowCapacity
      ensures branch.ToBottom? ==> usage.high == old(usage.high) && usage.low == old(usage.low)
      ensures branch.ToHigh? && old(usage.high) + c <= highCapacity ==> usage.high == old(usage.high) + c
    {
      hide Segmented, Cat, Nth, Sum, Nodes;
      ghost var g, c0 := parts, charge;
      match branch {
        case ToHigh =>
          LinkHigh(links, pool, charge, usage, parts, e, c);
          links := LinkAfter(links, links.prev[0], e);
          pool, charge := pool[e := InHigh], charge[e := c];
          usage := usage.(high := usage.high + c);
          parts := g.(high := g.high + [e]);
          MaintainPoolSize();
        case ToLow =>
          LinkLow(links, pool, charge, usage, parts, e, c);
          links := LinkAfter(links, links.lowPri, e);
          pool, charge := pool[e := InLow], charge[e := c];
          usage := usage.(low := usage.low + c);
          parts := g.(low := g.low + [e]);
          MaintainPoolSize();
          MovedPointer(links, pool, charge, usage, parts, e);
          links := links.(lowPri := e);
        case ToBottom =>
          LinkBottom(links, pool, charge, usage, parts, e, c);
          var lowPri := if links.bottomPri == links.lowPri then e else links.lowPri;
          links := LinkAfter(links, links.bottomPri, e).(lowPri := lowPri, bottomPri := e);
          pool, charge := pool[e := InBottom], charge[e := c];
          parts := g.(bottom := g.bottom + [e]);
      }
      InsertedSum(c0, Cat(g), Cat(parts), e, c, g);
      usage := usage.(lru := usage.lru + c);
      SegmentedLru(links, pool, charge, usage.(lru := usage.lru - c), usage, parts);
    }
  }

  lemma MovedPointer(k: Links, pool: map<nat, Pool>, charge: map<nat, nat>, u: Usage, g: Parts, e: nat)
    requires Segmented(k, pool, charge, u, g) && e == Nth(Cat(g), UpToLow(g))
    ensures Segmented(k.(lowPri := e), pool, charge, u, g) && LowPointer(k.(lowPri := e), g)
  {
  }

  lemma SegmentedLru(k: Links, pool: map<nat, Pool>, charge: map<nat, nat>, u: Usage, v: Usage, g: Parts)
    requires Segmented(k, pool, charge, u, g) && v.high == u.high && v.low == u.low
    ensures Segmented(k, pool, charge, v, g)
  {
  }

  lemma InsertedSum(charge: map<nat, nat>, l: seq<nat>, l': seq<nat>, e: nat, c: nat, g: Parts)
    requires l == Cat(g) && e !in l
    requires l' == l + [e] || l' == g.bottom + g.low + [e] + g.high || l' == g.bottom + [e] + (g.low + g.high)
    ensures Sum(charge[e := c], l') == Sum(charge, l) + c
  {
    hide Sum;
    var d, b, m, h := charge[e := c], g.bottom, g.low, g.high;
    SumOther(charge, l, e, c);
    SumSingle(d, e);
    SumThree(d, b, m, h);
    if l' == l + [e] {
      SumConcat(d, l, [e]);
    } else if l' == b + m + [e] + h {
      SumThree(d, b + m, [e], h);
      SumConcat(d, b, m);
    } else {
      SumThree(d, b, [e], m + h);
      SumConcat(d, m, h);
    }
  }
}
