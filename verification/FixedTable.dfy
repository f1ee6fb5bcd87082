/**
 The fixed-size clock table as an open-addressing hash table. Each operation is atomic here. Every
 slot counts the entries that were pushed past it (its displacements), which lets a search stop
 early; the counters must therefore always agree with the entries.
 */
module FixedTable {
  import opened Options
  import opened Bits
  import opened FixedProbe

  /** refs counts the handles held by users. */
  datatype Slot = Empty | Entry(key: Key, visible: bool, refs: nat)

  // Specification, on values. dist[p] is the number of slots the entry at p was pushed past.

  predicate Crosses(n: nat, slots: seq<Slot>, dist: seq<nat>, p: nat, j: nat)
    requires n > 0 && p < |slots| == |dist|
  {
    slots[p].Entry? && j in Visited(n, slots[p].key, dist[p])
  }

  /** Number of entries among the first `upto` slots that were pushed past slot j. */
  function Crossings(n: nat, slots: seq<Slot>, dist: seq<nat>, j: nat, upto: nat): nat
    requires n > 0 && upto <= |slots| == |dist|
  {
    if upto == 0 then 0
    else Crossings(n, slots, dist, j, upto - 1) + (if Crosses(n, slots, dist, upto - 1, j) then 1 else 0)
  }

  ghost predicate Layout(b: nat, slots: seq<Slot>, dist: seq<nat>) {
    && |slots| == |dist| == Pow2(b)
    && forall p :: 0 <= p < |slots| && slots[p].Entry? ==>
         dist[p] < Pow2(b) && Probe(Pow2(b), slots[p].key, dist[p]) == p
  }

  ghost predicate Counted(b: nat, slots: seq<Slot>, dist: seq<nat>, disp: seq<nat>) {
    && |slots| == |dist| == |disp| == Pow2(b)
    && forall j :: 0 <= j < |disp| ==> disp[j] == Crossings(Pow2(b), slots, dist, j, Pow2(b))
  }

  predicate IsCopy(slots: seq<Slot>, k: Key, p: nat) {
    p < |slots| && slots[p].Entry? && slots[p].visible && slots[p].key == k
  }

  predicate Ordered(slots: seq<Slot>, dist: seq<nat>, born: seq<nat>, p: nat, q: nat)
    requires p < |slots| && q < |slots| == |dist| == |born|
  {
    slots[p].Entry? && IsCopy(slots, slots[p].key, p) && IsCopy(slots, slots[p].key, q) && dist[p] < dist[q] ==>
      born[p] > born[q]
  }

  /** Of two visible copies of a key, the one nearer to the start of the probe sequence is newer. */
  ghost predicate NewestFirst(slots: seq<Slot>, dist: seq<nat>, born: seq<nat>, now: nat) {
    && |slots| == |dist| == |born|
    && (forall p :: 0 <= p < |born| && slots[p].Entry? ==> born[p] < now)
    && (forall p, q :: 0 <= p < |slots| && 0 <= q < |slots| ==> Ordered(slots, dist, born, p, q))
  }

  ghost predicate TableOk(b: nat, slots: seq<Slot>, dist: seq<nat>, disp: seq<nat>, born: seq<nat>, now: nat) {
    Layout(b, slots, dist) && Counted(b, slots, dist, disp) && NewestFirst(slots, dist, born, now)
  }

  // Facts about the counters.

  lemma {:induction false} CrossingsUpdate(n: nat, slots: seq<Slot>, dist: seq<nat>, q: nat, s: Slot, d: nat, j: nat, upto: nat)
    requires n > 0 && upto <= |slots| == |dist| && q < |slots|
    ensures var slots', dist' := slots[q := s], dist[q := d];
            Crossings(n, slots', dist', j, upto) == Crossings(n, slots, dist, j, upto)
              + (if q < upto && Crosses(n, slots', dist', q, j) then 1 else 0)
              - (if q < upto && Crosses(n, slots, dist, q, j) then 1 else 0)
  {
    if upto > 0 { CrossingsUpdate(n, slots, dist, q, s, d, j, upto - 1); }
  }

  lemma {:induction false} CrossingsPositive(n: nat, slots: seq<Slot>, dist: seq<nat>, p: nat, j: nat, upto: nat)
    requires n > 0 && p < upto <= |slots| == |dist| && Crosses(n, slots, dist, p, j)
    ensures Crossings(n, slots, dist, j, upto) >= 1
  {
    if p < upto - 1 { CrossingsPositive(n, slots, dist, p, j, upto - 1); }
  }

  /** Every slot on an entry's way counts it. */
  lemma DisplacedOnTheWay(b: nat, slots: seq<Slot>, dist: seq<nat>, disp: seq<nat>, p: nat, i: nat)
    requires Counted(b, slots, dist, disp) && p < |slots| && slots[p].Entry? && i < dist[p]
    ensures disp[Probe(Pow2(b), slots[p].key, i)] >= 1
  {
    var n := Pow2(b);
    VisitedHas(n, slots[p].key, dist[p], i);
    CrossingsPositive(n, slots, dist, p, Probe(n, slots[p].key, i), n);
  }

  /** A search from the start may stop at a zero counter: no copy lies further on. */
  lemma StopIsSafe(b: nat, slots: seq<Slot>, dist: seq<nat>, disp: seq<nat>, k: Key, i: nat, p: nat)
    requires Layout(b, slots, dist) && Counted(b, slots, dist, disp)
    requires disp[Probe(Pow2(b), k, i)] == 0 && IsCopy(slots, k, p)
    ensures p in Visited(Pow2(b), k, i + 1)
  {
    hide Crossings, Visited, Probe;
    if dist[p] <= i {
      VisitedHas(Pow2(b), k, i + 1, dist[p]);
    } else {
      DisplacedOnTheWay(b, slots, dist, disp, p, i);
    }
  }

  lemma AllVisited(b: nat, k: Key, p: nat)
    requires p < Pow2(b)
    ensures p in Visited(Pow2(b), k, Pow2(b))
  {
    var i := ProbeCovers(b, k, p);
    VisitedHas(Pow2(b), k, Pow2(b), i);
  }

  /** Counters after the entry with probe path k, d has gone from slot p. */
  ghost predicate Lowered(n: nat, k: Key, d: nat, before: seq<nat>, after: seq<nat>)
    requires n > 0
  {
    && |after| == |before|
    && forall j :: 0 <= j < |before| ==> after[j] + (if j in Visited(n, k, d) then 1 else 0) == before[j]
  }

  lemma RemoveKeeps(b: nat, slots: seq<Slot>, dist: seq<nat>, disp: seq<nat>, born: seq<nat>, now: nat, p: nat, disp': seq<nat>)
    requires TableOk(b, slots, dist, disp, born, now) && p < |slots| && slots[p].Entry?
    requires Lowered(Pow2(b), slots[p].key, dist[p], disp, disp')
    ensures TableOk(b, slots[p := Empty], dist, disp', born, now)
  {
    hide Visited, Probe, Crossings, Pow2;
    var n := Pow2(b);
    var slots' := slots[p := Empty];
    assert dist[p := dist[p]] == dist;
    forall j | 0 <= j < |disp'|
      ensures disp'[j] == Crossings(n, slots', dist, j, n)
    {
      CrossingsUpdate(n, slots, dist, p, Empty, dist[p], j, n);
    }
    forall q, r | 0 <= q < |slots| && 0 <= r < |slots|
      ensures Ordered(slots', dist, born, q, r)
    {
      assert Ordered(slots, dist, born, q, r);
    }
  }

  /** Changing only visibility (downwards) and references. */
  lemma RelabelKeeps(b: nat, slots: seq<Slot>, dist: seq<nat>, disp: seq<nat>, born: seq<nat>, now: nat, p: nat, s: Slot)
    requires TableOk(b, slots, dist, disp, born, now) && p < |slots| && slots[p].Entry?
    requires s.Entry? && s.key == slots[p].key && (s.visible ==> slots[p].visible)
    ensures TableOk(b, slots[p := s], dist, disp, born, now)
  {
    hide Visited, Probe, Crossings, Pow2;
    var n := Pow2(b);
    var slots' := slots[p := s];
    assert dist[p := dist[p]] == dist;
    forall j | 0 <= j < |disp|
      ensures disp[j] == Crossings(n, slots', dist, j, n)
    {
      CrossingsUpdate(n, slots, dist, p, s, dist[p], j, n);
    }
    forall q, r | 0 <= q < |slots| && 0 <= r < |slots|
      ensures Ordered(slots', dist, born, q, r)
    {
      assert Ordered(slots, dist, born, q, r);
    }
  }

  /** Counters after a new entry has been pushed along the first d slots of k's path. */
  ghost predicate Raised(n: nat, k: Key, d: nat, before: seq<nat>, after: seq<nat>)
    requires n > 0
  {
    && |after| == |before|
    && forall j :: 0 <= j < |before| ==> after[j] == before[j] + (if j in Visited(n, k, d) then 1 else 0)
  }

  lemma AddKeeps(b: nat, slots: seq<Slot>, dist: seq<nat>, disp: seq<nat>, born: seq<nat>, now: nat,
                 k: Key, d: nat, s: Slot, disp': seq<nat>)
    requires TableOk(b, slots, dist, disp, born, now) && d < Pow2(b)
    requires slots[Probe(Pow2(b), k, d)] == Empty && s.Entry? && s.key == k
    requires forall q :: 0 <= q < |slots| && IsCopy(slots, k, q) ==> dist[q] > d
    requires Raised(Pow2(b), k, d, disp, disp')
    ensures var p := Probe(Pow2(b), k, d);
            TableOk(b, slots[p := s], dist[p := d], disp', born[p := now], now + 1)
  {
    hide Visited, Probe, Crossings, Pow2;
    var n := Pow2(b);
    var p := Probe(n, k, d);
    var slots', dist', born' := slots[p := s], dist[p := d], born[p := now];
    forall j | 0 <= j < |disp'|
      ensures disp'[j] == Crossings(n, slots', dist', j, n)
    {
      CrossingsUpdate(n, slots, dist, p, s, d, j, n);
    }
    forall q, r | 0 <= q < |slots| && 0 <= r < |slots|
      ensures Ordered(slots', dist', born', q, r)
    {
      assert Ordered(slots, dist, born, q, r);
    }
  }

  /** What erasing a key does to one slot: unreferenced copies go, referenced ones become invisible. */
  function Erased(s: Slot, k: Key): Slot {
    if s.Entry? && s.visible && s.key == k then
      if s.refs == 0 then Empty else s.(visible := false)
    else s
  }

  class Table {
    const bits: nat
    const slots: array<Slot>
    const displacements: array<nat>
    ghost var dist: seq<nat>
    ghost var born: seq<nat>
    ghost var now: nat

    ghost predicate Valid()
      reads this, slots, displacements
    {
      && slots.Length == displacements.Length == Pow2(bits)
      && TableOk(bits, slots[..], dist, displacements[..], born, now)
    }

    constructor (bits: nat)
      ensures Valid() && this.bits == bits && fresh(slots) && fresh(displacements)
      ensures forall p :: 0 <= p < slots.Length ==> slots[p] == Empty
    {
      this.bits := bits;
      slots := new Slot[Pow2(bits)](_ => Empty);
      displacements := new nat[Pow2(bits)](_ => 0);
      dist := seq(Pow2(bits), _ => 0);
      born := seq(Pow2(bits), _ => 0);
      now := 0;
      new;
      forall j | 0 <= j < Pow2(bits)
        ensures Crossings(Pow2(bits), slots[..], dist, j, Pow2(bits)) == 0
      {
        EmptyCrossings(Pow2(bits), slots[..], dist, j, Pow2(bits));
      }
    }

    /** Undo the counting along k's path, up to slot h. */
    method Rollback(k: Key, h: nat, ghost d: nat)
      requires slots.Length == displacements.Length == Pow2(bits) && d < Pow2(bits) && h == Probe(Pow2(bits), k, d)
      requires forall i :: 0 <= i < d ==> displacements[Probe(Pow2(bits), k, i)] >= 1
      modifies displacements
      ensures Lowered(Pow2(bits), k, d, old(displacements[..]), displacements[..])
    {
      hide Visited, Probe;
      var n := displacements.Length;
      var current := k.base % n;
      ghost var i := 0;
      assert current == Probe(n, k, 0) && Visited(n, k, 0) == {} by { AtStart(n, k); }
      while current != h
        invariant i <= d && current == Probe(n, k, i)
        invariant forall j :: 0 <= j < n ==>
          displacements[j] + (if j in Visited(n, k, i) then 1 else 0) == old(displacements[j])
        decreases d - i
      {
        NextIsNew(bits, k, i);
        NextProbe(n, k, i);
        displacements[current] := displacements[current] - 1;
        current := (current + Increment(k)) % n;
        i := i + 1;
      }
      assert i == d by { if i < d { ProbeInjective(bits, k, i, d); } }
    }

    /** Insert k unless a visible copy is met first. */
    method Insert(k: Key, keepRef: bool) returns (r: Option<nat>)
      requires Valid()
      modifies this, slots, displacements
      ensures Valid()
      ensures r.Some? ==>
        && r.value < slots.Length && old(slots[r.value]) == Empty
        && slots[..] == old(slots[..])[r.value := Entry(k, true, if keepRef then 1 else 0)]
        && (forall q :: 0 <= q < slots.Length && IsCopy(old(slots[..]), k, q) ==> born[r.value] > born[q])
      ensures r.None? ==>
        && slots[..] == old(slots[..]) && displacements[..] == old(displacements[..])
        && ((exists q :: 0 <= q < slots.Length && IsCopy(slots[..], k, q)) ||
            (forall q :: 0 <= q < slots.Length ==> slots[q] != Empty))
    {
      hide Visited, Probe, TableOk;
      var n := slots.Length;
      var first := k.base % n;
      var current := first;
      ghost var i := 0;
      ghost var disp0 := displacements[..];
      assert current == Probe(n, k, 0) && Visited(n, k, 0) == {} by { AtStart(n, k); }
      while true
        invariant 0 <= i < n && current == Probe(n, k, i) && first == Probe(n, k, 0)
        invariant slots[..] == old(slots[..]) && unchanged(this)
        invariant Raised(n, k, i, disp0, displacements[..])
        invariant forall q :: q in Visited(n, k, i) ==> q < n && slots[q] != Empty && !IsCopy(slots[..], k, q)
        decreases n - i
      {
        var h := current;
        if slots[h].Empty? {
          Sizes(bits, slots[..], dist, disp0, born, now);
          SearchedCopies(bits, slots[..], dist, disp0, born, now, k, i);
          AddKeeps(bits, slots[..], dist, disp0, born, now, k, i, Entry(k, true, if keepRef then 1 else 0), displacements[..]);
          slots[h] := Entry(k, true, if keepRef then 1 else 0);
          dist, born, now := dist[h := i], born[h := now], now + 1;
          return Some(h);
        }
        if slots[h].visible && slots[h].key == k {
          assert IsCopy(slots[..], k, h);
          RollbackReady(n, k, i, disp0, displacements[..]);
          Rollback(k, h, i);
          RaisedLowered(n, k, i, disp0, displacements[..]);
          return None;
        }
        current := (current + Increment(k)) % n;
        NextProbe(n, k, i);
        if current == first {
          assert i + 1 == n by { if i + 1 < n { ProbeInjective(bits, k, 0, i + 1); } }
          assert forall q :: 0 <= q < n ==> slots[q] != Empty by {
            forall q | 0 <= q < n ensures slots[q] != Empty { AllVisited(bits, k, q); }
          }
          RollbackReady(n, k, i, disp0, displacements[..]);
          Rollback(k, h, i);
          RaisedLowered(n, k, i, disp0, displacements[..]);
          return None;
        }
        assert i + 1 < n by { if i + 1 == n { ProbeCycles(bits, k); } }
        NextIsNew(bits, k, i);
        displacements[h] := displacements[h] + 1;
        i := i + 1;
      }
    }

    /** Find the newest visible copy of k and take a reference on it. */
    method Lookup(k: Key) returns (r: Option<nat>)
      requires Valid()
      modifies slots
      ensures Valid()
      ensures r.None? ==>
        slots[..] == old(slots[..]) && forall q :: 0 <= q < slots.Length ==> !IsCopy(slots[..], k, q)
      ensures r.Some? ==>
        && r.value < slots.Length && IsCopy(old(slots[..]), k, r.value)
        && (forall q :: 0 <= q < slots.Length && q != r.value && IsCopy(old(slots[..]), k, q) ==> born[q] < born[r.value])
        && slots[..] == old(slots[..])[r.value := old(slots[r.value]).(refs := old(slots[r.value]).refs + 1)]
    {
      hide Visited, Probe, TableOk;
      var n := slots.Length;
      var first := k.base % n;
      var current := first;
      ghost var i := 0;
      assert current == Probe(n, k, 0) && Visited(n, k, 0) == {} by { AtStart(n, k); }
      while true
        invariant 0 <= i < n && current == Probe(n, k, i) && first == Probe(n, k, 0)
        invariant slots[..] == old(slots[..])
        invariant forall q :: q in Visited(n, k, i) ==> !IsCopy(slots[..], k, q)
        decreases n - i
      {
        var h := current;
        if slots[h].Entry? && slots[h].visible && slots[h].key == k {
          FoundIsNewest(bits, slots[..], dist, displacements[..], born, now, k, i);
          RelabelKeeps(bits, slots[..], dist, displacements[..], born, now, h, slots[h].(refs := slots[h].refs + 1));
          slots[h] := slots[h].(refs := slots[h].refs + 1);
          return Some(h);
        }
        NextProbe(n, k, i);
        if displacements[h] == 0 {
          NoCopyAfterStop(bits, slots[..], dist, displacements[..], born, now, k, i);
          return None;
        }
        current := (current + Increment(k)) % n;
        if current == first {
          assert i + 1 == n by { if i + 1 < n { ProbeInjective(bits, k, 0, i + 1); } }
          forall q | 0 <= q < n ensures !IsCopy(slots[..], k, q) { AllVisited(bits, k, q); }
          return None;
        }
        assert i + 1 < n by { if i + 1 == n { ProbeCycles(bits, k); } }
        i := i + 1;
      }
    }

    /** Take the entry at p out of the table. */
    method Free(p: nat)
      requires Valid() && p < slots.Length && slots[p].Entry?
      modifies slots, displacements
      ensures Valid() && slots[..] == old(slots[..])[p := Empty]
    {
      hide Visited, Probe, Crossings;
      ghost var disp0 := displacements[..];
      forall i | 0 <= i < dist[p]
        ensures displacements[Probe(Pow2(bits), slots[p].key, i)] >= 1
      {
        DisplacedOnTheWay(bits, slots[..], dist, disp0, p, i);
      }
      Rollback(slots[p].key, p, dist[p]);
      RemoveKeeps(bits, slots[..], dist, disp0, born, now, p, displacements[..]);
      slots[p] := Empty;
    }

    /** Make every copy of k unreachable by lookups. */
    method Erase(k: Key)
      requires Valid()
      modifies slots, displacements
      ensures Valid()
      ensures forall q :: 0 <= q < slots.Length ==> slots[q] == Erased(old(slots[q]), k)
    {
      hide Visited, Probe, TableOk;
      var n := slots.Length;
      var first := k.base % n;
      var current := first;
      ghost var i := 0;
      assert current == Probe(n, k, 0) && Visited(n, k, 0) == {} by { AtStart(n, k); }
      while true
        invariant 0 <= i < n && current == Probe(n, k, i) && first == Probe(n, k, 0)
        invariant Valid()
        invariant forall q :: 0 <= q < n ==>
          slots[q] == if q in Visited(n, k, i) then Erased(old(slots[q]), k) else old(slots[q])
        decreases n - i
      {
        var h := current;
        NextIsNew(bits, k, i);
        NextProbe(n, k, i);
        EraseAt(h, k);
        if displacements[h] == 0 {
          NoCopyAfterStop(bits, slots[..], dist, displacements[..], born, now, k, i);
          forall q | 0 <= q < n
            ensures slots[q] == Erased(old(slots[q]), k)
          {
            assert !IsCopy(slots[..], k, q);
          }
          return;
        }
        current := (current + Increment(k)) % n;
        if current == first {
          assert i + 1 == n by { if i + 1 < n { ProbeInjective(bits, k, 0, i + 1); } }
          forall q | 0 <= q < n ensures q in Visited(n, k, n) { AllVisited(bits, k, q); }
          return;
        }
        assert i + 1 < n by { if i + 1 == n { ProbeCycles(bits, k); } }
        i := i + 1;
      }
    }

    /** Erase the entry at h if it is a copy of k. */
    method EraseAt(h: nat, k: Key)
      requires Valid() && h < slots.Length
      modifies slots, displacements
      ensures Valid() && slots[..] == old(slots[..])[h := Erased(old(slots[h]), k)]
    {
      hide TableOk;
      if slots[h].Entry? && slots[h].visible && slots[h].key == k {
        if slots[h].refs == 0 {
          Free(h);
        } else {
          RelabelKeeps(bits, slots[..], dist, displacements[..], born, now, h, slots[h].(visible := false));
          slots[h] := slots[h].(visible := false);
        }
      }
    }

    /** Give a reference back; the last one frees an erased entry, or any entry on request. */
    method Release(p: nat, eraseIfLastRef: bool) returns (gone: bool)
      requires Valid() && p < slots.Length && slots[p].Entry? && slots[p].refs > 0
      modifies slots, displacements
      ensures Valid()
      ensures gone <==> old(slots[p]).refs == 1 && (eraseIfLastRef || !old(slots[p]).visible)
      ensures slots[..] == old(slots[..])[p := if gone then Empty else old(slots[p]).(refs := old(slots[p]).refs - 1)]
    {
      hide TableOk;
      RelabelKeeps(bits, slots[..], dist, displacements[..], born, now, p, slots[p].(refs := slots[p].refs - 1));
      slots[p] := slots[p].(refs := slots[p].refs - 1);
      gone := slots[p].refs == 0 && (eraseIfLastRef || !slots[p].visible);
      if gone { Free(p); }
    }
  }

  lemma Sizes(b: nat, slots: seq<Slot>, dist: seq<nat>, disp: seq<nat>, born: seq<nat>, now: nat)
    requires TableOk(b, slots, dist, disp, born, now)
    ensures |slots| == |dist| == |disp| == |born| == Pow2(b)
    ensures forall q :: 0 <= q < |slots| && slots[q].Entry? ==> born[q] < now
  {
  }

  lemma AtStart(n: nat, k: Key)
    requires n > 0
    ensures Probe(n, k, 0) == k.base % n && Visited(n, k, 0) == {}
  {
  }

  lemma {:induction false} EmptyCrossings(n: nat, slots: seq<Slot>, dist: seq<nat>, j: nat, upto: nat)
    requires n > 0 && upto <= |slots| == |dist| && forall p :: 0 <= p < |slots| ==> slots[p] == Empty
    ensures Crossings(n, slots, dist, j, upto) == 0
  {
    if upto > 0 { EmptyCrossings(n, slots, dist, j, upto - 1); }
  }

  lemma RollbackReady(n: nat, k: Key, d: nat, before: seq<nat>, after: seq<nat>)
    requires n > 0 && |before| == n && Raised(n, k, d, before, after)
    ensures forall i :: 0 <= i < d ==> after[Probe(n, k, i)] >= 1
  {
    hide Probe, Visited;
    forall i | 0 <= i < d ensures after[Probe(n, k, i)] >= 1 { VisitedHas(n, k, d, i); }
  }

  lemma RaisedLowered(n: nat, k: Key, d: nat, before: seq<nat>, after: seq<nat>)
    requires n > 0 && |before| == |after|
    requires exists middle :: Raised(n, k, d, before, middle) && Lowered(n, k, d, middle, after)
    ensures after == before
  {
    hide Visited;
  }

  /** Copies of k not met in the first i probes lie further on. */
  lemma SearchedCopies(b: nat, slots: seq<Slot>, dist: seq<nat>, disp: seq<nat>, born: seq<nat>, now: nat, k: Key, i: nat)
    requires TableOk(b, slots, dist, disp, born, now) && i < Pow2(b) && !IsCopy(slots, k, Probe(Pow2(b), k, i))
    requires forall q :: q in Visited(Pow2(b), k, i) ==> !IsCopy(slots, k, q)
    ensures forall q :: 0 <= q < |slots| && IsCopy(slots, k, q) ==> dist[q] > i
  {
    hide Visited, Probe;
    forall q | 0 <= q < |slots| && IsCopy(slots, k, q)
      ensures dist[q] > i
    {
      if dist[q] < i { VisitedHas(Pow2(b), k, i, dist[q]); }
    }
  }

  lemma FoundIsNewest(b: nat, slots: seq<Slot>, dist: seq<nat>, disp: seq<nat>, born: seq<nat>, now: nat, k: Key, i: nat)
    requires TableOk(b, slots, dist, disp, born, now) && i < Pow2(b) && IsCopy(slots, k, Probe(Pow2(b), k, i))
    requires forall q :: q in Visited(Pow2(b), k, i) ==> !IsCopy(slots, k, q)
    ensures var p := Probe(Pow2(b), k, i);
            forall q :: 0 <= q < |slots| && q != p && IsCopy(slots, k, q) ==> born[q] < born[p]
  {
    hide Visited, Probe;
    var p := Probe(Pow2(b), k, i);
    assert dist[p] == i by { SameProbe(b, k, dist[p], i); }
    forall q | 0 <= q < |slots| && q != p && IsCopy(slots, k, q)
      ensures born[q] < born[p]
    {
      if dist[q] < i { VisitedHas(Pow2(b), k, i, dist[q]); }
      assert Ordered(slots, dist, born, p, q);
    }
  }

  lemma SameProbe(b: nat, k: Key, i: nat, j: nat)
    requires i < Pow2(b) && j < Pow2(b) && Probe(Pow2(b), k, i) == Probe(Pow2(b), k, j)
    ensures i == j
  {
    hide Probe;
    if i < j { ProbeInjective(b, k, i, j); }
    if j < i { ProbeInjective(b, k, j, i); }
  }

  lemma NoCopyAfterStop(b: nat, slots: seq<Slot>, dist: seq<nat>, disp: seq<nat>, born: seq<nat>, now: nat, k: Key, i: nat)
    requires TableOk(b, slots, dist, disp, born, now) && disp[Probe(Pow2(b), k, i)] == 0
    requires forall q :: q in Visited(Pow2(b), k, i + 1) ==> !IsCopy(slots, k, q)
    ensures forall q :: 0 <= q < |slots| ==> !IsCopy(slots, k, q)
  {
    hide Visited, Probe;
    forall q | 0 <= q < |slots|
      ensures !IsCopy(slots, k, q)
    {
      if IsCopy(slots, k, q) { StopIsSafe(b, slots, dist, disp, k, i, q); }
    }
  }

  /** After an erase no lookup can find the key: what Erased leaves is never a visible copy. */
  lemma ErasedIsNoCopy(slots: seq<Slot>, k: Key, after: seq<Slot>)
    requires |after| == |slots| && forall q :: 0 <= q < |slots| ==> after[q] == Erased(slots[q], k)
    ensures forall q :: 0 <= q < |after| ==> !IsCopy(after, k, q)
    ensures forall k', q :: 0 <= q < |after| && k' != k ==> (IsCopy(after, k', q) <==> IsCopy(slots, k', q))
  {
  }
}
