/**
 One shard of the LRU cache: the handles, the hash table (here a map from key to handle; its bucket
 array has a module of its own), the eviction list and the usage counter. All operations hold the
 shard's mutex, so they are sequential.
 */
module LruShard {
  import opened Lists
  import opened Options
  import opened Ratio
  import opened LruRing
  import opened LruList

  datatype Priority = High | Low | Bottom

  datatype Handle = Handle(key: nat, charge: nat, priority: Priority, refs: nat, inCache: bool, hit: bool)

  datatype Status = Ok | OkOverwritten | MemoryLimit

  // Totals over the live handles.

  function TotalCharge(handles: map<nat, Handle>, n: nat): nat {
    if n == 0 then 0 else TotalCharge(handles, n - 1) + (if n - 1 in handles then handles[n - 1].charge else 0)
  }

  lemma {:induction false} TotalSet(handles: map<nat, Handle>, n: nat, e: nat, h: Handle)
    requires e in handles ==> handles[e].charge == h.charge
    ensures TotalCharge(handles[e := h], n) ==
            TotalCharge(handles, n) + (if e < n && e !in handles then h.charge else 0)
  {
    if n > 0 { TotalSet(handles, n - 1, e, h); }
  }

  lemma {:induction false} TotalDrop(handles: map<nat, Handle>, n: nat, e: nat)
    ensures TotalCharge(handles - {e}, n) ==
            TotalCharge(handles, n) - (if e < n && e in handles then handles[e].charge else 0)
    ensures e < n && e in handles ==> handles[e].charge <= TotalCharge(handles, n)
  {
    if n > 0 { TotalDrop(handles, n - 1, e); }
  }

  lemma {:induction false} TotalBeyond(handles: map<nat, Handle>, n: nat)
    requires n !in handles
    ensures TotalCharge(handles, n + 1) == TotalCharge(handles, n)
  {
  }

  // Invariants on values.

  /** A handle is on the list exactly when it is in the table with no outside reference. */
  ghost predicate Listed(handles: map<nat, Handle>, list: seq<nat>) {
    && (forall e :: e in list ==> e in handles && handles[e].inCache && handles[e].refs == 0)
    && (forall e :: e in handles && handles[e].inCache && handles[e].refs == 0 ==> e in list)
  }

  /** The table holds exactly the handles marked as being in the cache, each under its key. */
  ghost predicate Tabled(handles: map<nat, Handle>, table: map<nat, nat>) {
    && (forall k :: k in table ==> table[k] in handles && handles[table[k]].key == k && handles[table[k]].inCache)
    && (forall e :: e in handles && handles[e].inCache ==> handles[e].key in table && table[handles[e].key] == e)
  }

  /** Only handles that the cache or a user needs are alive. */
  ghost predicate Needed(handles: map<nat, Handle>, nextId: nat) {
    forall e :: e in handles ==> 0 < e < nextId && (handles[e].inCache || handles[e].refs > 0)
  }

  ghost predicate SameCharges(handles: map<nat, Handle>, list: seq<nat>, charge: map<nat, nat>) {
    forall e :: e in list ==> e in handles && e in charge && charge[e] == handles[e].charge
  }

  ghost predicate Consistent(handles: map<nat, Handle>, table: map<nat, nat>, list: seq<nat>, charge: map<nat, nat>, nextId: nat) {
    Listed(handles, list) && Tabled(handles, table) && Needed(handles, nextId) && SameCharges(handles, list, charge)
  }

  /** A listed handle leaves the list, the table and the cache. */
  lemma DropListed(handles: map<nat, Handle>, table: map<nat, nat>, list: seq<nat>, charge: map<nat, nat>, nextId: nat, e: nat)
    requires Consistent(handles, table, list, charge, nextId) && Nodes(list) && e in list
    ensures e in handles && handles[e].key in table && handles[e].refs == 0 && handles[e].inCache && ChargeOf(charge, e) == handles[e].charge
    ensures Consistent(handles - {e}, table - {handles[e].key}, Drop(list, e), charge, nextId)
  {
    hide Nodes, Drop;
    var list' := Drop(list, e);
    forall x: nat ensures x in list' <==> x in list && x != e { RemoveNodeMembers(list, e, x); }
  }

  /** A handle on the list gets its first outside reference. */
  lemma Unlist(handles: map<nat, Handle>, table: map<nat, nat>, list: seq<nat>, charge: map<nat, nat>, nextId: nat, e: nat, h: Handle)
    requires Consistent(handles, table, list, charge, nextId) && Nodes(list) && e in list
    requires e in handles && h.refs > 0 && h.inCache && h.key == handles[e].key && h.charge == handles[e].charge
    ensures Consistent(handles[e := h], table, Drop(list, e), charge, nextId)
  {
    hide Nodes, Drop;
    var list' := Drop(list, e);
    forall x: nat ensures x in list' <==> x in list && x != e { RemoveNodeMembers(list, e, x); }
  }

  /** A referenced handle changes but stays referenced (or stays off the list). */
  lemma Retouch(handles: map<nat, Handle>, table: map<nat, nat>, list: seq<nat>, charge: map<nat, nat>, nextId: nat, e: nat, h: Handle)
    requires Consistent(handles, table, list, charge, nextId) && e in handles && handles[e].refs > 0
    requires h.refs > 0 && h.key == handles[e].key && h.charge == handles[e].charge && h.inCache == handles[e].inCache
    ensures Consistent(handles[e := h], table, list, charge, nextId)
  {
  }

  /** A referenced handle leaves the table. */
  lemma Untable(handles: map<nat, Handle>, table: map<nat, nat>, list: seq<nat>, charge: map<nat, nat>, nextId: nat, e: nat)
    requires Consistent(handles, table, list, charge, nextId) && e in handles && handles[e].refs > 0 && handles[e].inCache
    ensures handles[e].key in table && table[handles[e].key] == e
    ensures Consistent(handles[e := handles[e].(inCache := false)], table - {handles[e].key}, list, charge, nextId)
  {
  }

  /** A handle with its last reference gone is freed. */
  lemma FreeUnlisted(handles: map<nat, Handle>, table: map<nat, nat>, list: seq<nat>, charge: map<nat, nat>, nextId: nat, e: nat)
    requires Consistent(handles, table, list, charge, nextId) && e in handles && e !in list && !handles[e].inCache
    ensures Consistent(handles - {e}, table, list, charge, nextId)
  {
  }

  /** A fresh handle enters the table under a key not in it. */
  lemma AdmitKeyed(handles: map<nat, Handle>, table: map<nat, nat>, list: seq<nat>, charge: map<nat, nat>, nextId: nat, h: Handle)
    requires Consistent(handles, table, list, charge, nextId) && h.key !in table && h.inCache && h.refs > 0 && nextId > 0
    ensures Consistent(handles[nextId := h], table[h.key := nextId], list, charge, nextId + 1)
    ensures nextId !in handles && nextId !in list
  {
  }

  lemma AdmitOutside(handles: map<nat, Handle>, table: map<nat, nat>, list: seq<nat>, charge: map<nat, nat>, nextId: nat, h: Handle)
    requires Consistent(handles, table, list, charge, nextId) && !h.inCache && h.refs > 0 && nextId > 0
    ensures Consistent(handles[nextId := h], table, list, charge, nextId + 1)
    ensures nextId !in handles && nextId !in list
  {
  }

  /** An unreferenced handle in the table goes (back) on the list, anywhere. */
  lemma Enlist(handles: map<nat, Handle>, table: map<nat, nat>, list: seq<nat>, charge: map<nat, nat>, nextId: nat,
               e: nat, h: Handle, list': seq<nat>)
    requires Consistent(handles, table, list, charge, nextId) && e in handles && e !in list && handles[e].inCache
    requires h == handles[e].(refs := 0)
    requires forall x :: x in list' <==> x in list || x == e
    ensures Consistent(handles[e := h], table, list', charge[e := h.charge], nextId)
  {
  }

  /** The pool an unreferenced handle goes to. */
  function BranchFor(h: Handle, highEnabled: bool, lowEnabled: bool): Branch {
    if highEnabled && (h.priority.High? || h.hit) then ToHigh
    else if lowEnabled && (h.priority.High? || h.priority.Low? || h.hit) then ToLow
    else ToBottom
  }

  /** The first entry of the list is where the sentinel points. */
  lemma FirstOfRing(k: Links, pool: map<nat, Pool>, charge: map<nat, nat>, u: Usage, g: Parts)
    requires Segmented(k, pool, charge, u, g)
    ensures 0 in k.next && (k.next[0] == 0 <==> Cat(g) == [])
    ensures Cat(g) != [] ==> k.next[0] == Cat(g)[0] && Drop(Cat(g), Cat(g)[0]) == Cat(g)[1..]
    ensures Nodes(Cat(g))
  {
    RingNext(k.next, k.prev, Cat(g), 0);
  }

  class Shard {
    const list: List
    const den: nat
    var handles: map<nat, Handle>
    var table: map<nat, nat>
    var usage: nat
    var capacity: nat
    var strict: bool
    var highNum: nat
    var lowNum: nat
    var nextId: nat

    ghost predicate Sound()
      reads this, list
    {
      && list.Valid()
      && Consistent(handles, table, Cat(list.parts), list.charge, nextId)
      && usage == TotalCharge(handles, nextId)
      && nextId > 0 && den > 0
      && list.highCapacity == Share(capacity, highNum, den)
      && list.lowCapacity == Share(capacity, lowNum, den)
    }

    /** While the shard is over its capacity nothing is left to evict. */
    ghost predicate Valid()
      reads this, list
    {
      Sound() && (usage > capacity ==> Cat(list.parts) == [])
    }

    ghost predicate HighPoolWithinLimit()
      reads this, list
    {
      list.usage.high <= list.highCapacity
    }

    constructor (capacity: nat, strict: bool, highNum: nat, lowNum: nat, den: nat)
      requires den > 0
      ensures Valid() && HighPoolWithinLimit() && handles == map[] && table == map[] && usage == 0 && fresh(list)
      ensures Cat(list.parts) == []
      ensures this.capacity == capacity && this.strict == strict && this.highNum == highNum && this.lowNum == lowNum && this.den == den
    {
      var l := new List();
      l.highCapacity := Share(capacity, highNum, den);
      l.lowCapacity := Share(capacity, lowNum, den);
      list := l;
      this.den := den;
      handles, table := map[], map[];
      usage, this.capacity, this.strict := 0, capacity, strict;
      this.highNum, this.lowNum, nextId := highNum, lowNum, 1;
    }

    ghost function Now(): View
      reads this, list
    {
      View(handles, table, usage, list.usage, list.parts)
    }

    /** Evict the least recently used entry. */
    method EvictOne() returns (e: nat)
      requires Sound() && Cat(list.parts) != []
      modifies this`handles, this`table, this`usage, list`links, list`usage, list`parts
      ensures Sound()
      ensures old(Cat(list.parts)) == [e] + Cat(list.parts)
      ensures e in old(handles) && handles == old(handles) - {e} && usage == old(usage) - old(handles)[e].charge
      ensures table == old(table) - {old(handles)[e].key}
      ensures list.usage.high <= old(list.usage.high) && list.parts.high == Without(old(list.parts.high), {e})
      ensures old(handles)[e].charge == ChargeOf(list.charge, e)
    {
      hide Segmented, Consistent, TotalCharge, Cat, Nodes, Drop, Sum, Share, Without;
      FirstOfRing(list.links, list.pool, list.charge, list.usage, list.parts);
      ghost var l := Cat(list.parts);
      assert Without(list.parts.high, {l[0]}) == Drop(list.parts.high, l[0]) by { HighDrop(list, l[0]); }
      e := list.links.next[0];
      DropListed(handles, table, l, list.charge, nextId, e);
      TotalDrop(handles, nextId, e);
      IdBelow(handles, table, l, list.charge, nextId, e);
      list.Remove(e);
      table := table - {handles[e].key};
      usage := usage - handles[e].charge;
      handles := handles - {e};
    }

    /**
     Evict from the least recently used end until `need` fits or the list is empty, and not one
     entry more.
     */
    method EvictFromLRU(need: nat) returns (evicted: seq<nat>)
      requires Sound()
      modifies this`handles, this`table, this`usage, list`links, list`usage, list`parts
      ensures Sound()
      ensures usage + need <= capacity || Cat(list.parts) == []
      ensures Evicted(old(Now()), Now(), evicted, need, capacity)
      ensures |evicted| == MustGo(list.charge, old(Cat(list.parts)), old(usage), need, capacity)
    {
      hide Segmented, Consistent, TotalCharge, Cat, Nodes, Drop, Sum, Share, Evicted, Without, ChargeOf, Paced;
      evicted := [];
      assert Paced(list.charge, Now(), Now(), [], need, capacity) by { PacedNone(list.charge, Now(), need, capacity); }
      NoneEvicted(Now(), need, capacity);
      FirstOfRing(list.links, list.pool, list.charge, list.usage, list.parts);
      while usage + need > capacity && list.links.next[0] != 0
        invariant Sound()
        invariant 0 in list.links.next && (list.links.next[0] == 0 <==> Cat(list.parts) == [])
        invariant Evicted(old(Now()), Now(), evicted, need, capacity)
        invariant Paced(list.charge, old(Now()), Now(), evicted, need, capacity)
        decreases |Cat(list.parts)|
      {
        ghost var mid := Now();
        var e := EvictOne();
        OneEvicted(old(Now()), mid, Now(), evicted, e, need, capacity);
        PacedNext(list.charge, old(Now()), mid, Now(), evicted, e, need, capacity);
        evicted := evicted + [e];
        FirstOfRing(list.links, list.pool, list.charge, list.usage, list.parts);
      }
      PacedDone(list.charge, old(Now()), Now(), evicted, need, capacity);
    }

    /** Change the capacity, and evict down to it. */
    method SetCapacity(capacity: nat)
      requires Sound()
      modifies this`handles, this`table, this`usage, this`capacity, list
      ensures Valid() && this.capacity == capacity && list.pool == old(list.pool) && list.charge == old(list.charge)
      ensures usage <= capacity || Cat(list.parts) == []
      ensures usage <= old(usage) && Suffix(Cat(list.parts), old(Cat(list.parts)))
      ensures list.usage.high <= old(list.usage.high)
      ensures old(usage) <= capacity ==> list.usage == old(list.usage) && list.parts == old(list.parts) && table == old(table)
      ensures old(HighPoolWithinLimit()) && capacity >= old(this.capacity) ==> HighPoolWithinLimit()
    {
      hide Segmented, Consistent, TotalCharge, Cat, Nodes, Sum, Share, Elements;
      if capacity >= this.capacity { ShareMonotone(this.capacity, capacity, highNum, den); }
      this.capacity := capacity;
      list.highCapacity := Share(capacity, highNum, den);
      list.lowCapacity := Share(capacity, lowNum, den);
      var evicted := EvictFromLRU(0);
    }

    /** Change the share of the high-priority pool. */
    method SetHighPriorityPoolRatio(num: nat)
      requires Valid()
      modifies this`highNum, list
      ensures Valid() && highNum == num && HighPoolWithinLimit() && Cat(list.parts) == old(Cat(list.parts))
    {
      hide Segmented, Consistent, TotalCharge, Cat, Nodes, Sum, Share;
      highNum := num;
      list.highCapacity := Share(capacity, highNum, den);
      list.MaintainPoolSize();
    }

    /** Remove a key from the table; its handle dies unless it is referenced. */
    method Erase(key: nat)
      requires Sound()
      modifies this`handles, this`table, this`usage, list`links, list`usage, list`parts
      ensures Sound() && table == old(table) - {key}
      ensures usage <= old(usage) && list.usage.high <= old(list.usage.high)
      ensures key !in old(table) ==> handles == old(handles) && Cat(list.parts) == old(Cat(list.parts))
      ensures handles == Overwritten(old(handles), old(table), key) && usage == old(usage) - FreedBy(old(handles), old(table), key)
      ensures list.parts.high == Without(old(list.parts.high), Holder(old(table), key))
      ensures old(Cat(list.parts)) == [] ==> Cat(list.parts) == []
      ensures old(Valid()) ==> Valid()
    {
      hide Segmented, Consistent, TotalCharge, Cat, Nodes, Drop, Sum, Share, Without;
      WithoutNone(list.parts.high, {});
      if key in table {
        var e := table[key];
        TableEntry(handles, table, Cat(list.parts), list.charge, nextId, key);
        HighDrop(list, e);
        if handles[e].refs > 0 {
          Untable(handles, table, Cat(list.parts), list.charge, nextId, e);
          TotalSet(handles, nextId, e, handles[e].(inCache := false));
          handles := handles[e := handles[e].(inCache := false)];
        } else {
          FirstOfRing(list.links, list.pool, list.charge, list.usage, list.parts);
          DropListed(handles, table, Cat(list.parts), list.charge, nextId, e);
          TotalDrop(handles, nextId, e);
          RemoveSubset(Cat(list.parts), e);
          list.Remove(e);
          usage := usage - handles[e].charge;
          handles := handles - {e};
        }
        table := table - {key};
      }
    }

    /** Find a key and take a reference on its handle. */
    method Lookup(key: nat) returns (r: Option<nat>)
      requires Valid()
      modifies this`handles, list`links, list`usage, list`parts
      ensures Valid()
      ensures r == if key in table then Some(table[key]) else None
      ensures r.None? ==> handles == old(handles) && list.parts == old(list.parts)
      ensures r.Some? ==>
                r.value in old(handles) && handles == old(handles)[r.value := Referenced(old(handles)[r.value], true)]
      ensures r.Some? ==> r.value !in Cat(list.parts)
      ensures list.usage.high <= old(list.usage.high)
    {
      hide Segmented, Consistent, TotalCharge, Cat, Nodes, Drop, Sum, Share;
      if key !in table {
        return None;
      }
      var e := table[key];
      ghost var l := Cat(list.parts);
      TableEntry(handles, table, l, list.charge, nextId, key);
      var h := Referenced(handles[e], true);
      TotalSet(handles, nextId, e, h);
      if handles[e].refs == 0 {
        FirstOfRing(list.links, list.pool, list.charge, list.usage, list.parts);
        Unlist(handles, table, l, list.charge, nextId, e, h);
        RemoveNodeMembers(l, e, e);
        list.Remove(e);
      } else {
        Retouch(handles, table, l, list.charge, nextId, e, h);
        NotListed(handles, table, l, list.charge, nextId, e);
      }
      handles := handles[e := h];
      return Some(e);
    }

    /** Take one more reference on a handle already referenced. */
    method Ref(e: nat)
      requires Valid() && e in handles && handles[e].refs > 0
      modifies this`handles
      ensures Valid() && handles == old(handles)[e := Referenced(old(handles)[e], old(handles)[e].hit)]
    {
      hide Segmented, Consistent, TotalCharge, Cat, Nodes, Sum, Share;
      var h := Referenced(handles[e], handles[e].hit);
      Retouch(handles, table, Cat(list.parts), list.charge, nextId, e, h);
      TotalSet(handles, nextId, e, h);
      handles := handles[e := h];
    }

    /** Put an unreferenced handle that is in the table on the list. */
    method Enqueue(e: nat)
      requires Sound() && e in handles && handles[e].inCache && e !in Cat(list.parts)
      requires BranchFor(handles[e], highNum > 0, lowNum > 0).ToLow? ==> HighPoolWithinLimit()
      modifies this`handles, list`links, list`usage, list`pool, list`charge, list`parts
      ensures Sound() && (old(HighPoolWithinLimit()) ==> HighPoolWithinLimit())
      ensures handles == old(handles)[e := old(handles)[e].(refs := 0)]
      ensures BranchFor(old(handles)[e], highNum > 0, lowNum > 0).ToHigh? && old(list.usage.high) + handles[e].charge <= list.highCapacity ==>
                list.usage.high == old(list.usage.high) + handles[e].charge
      ensures Cat(list.parts) == match BranchFor(old(handles)[e], highNum > 0, lowNum > 0)
              case ToHigh => old(Cat(list.parts)) + [e]
              case ToLow => old(list.parts.bottom + list.parts.low) + [e] + old(list.parts.high)
              case ToBottom => old(list.parts.bottom) + [e] + old(list.parts.low + list.parts.high)
    {
      hide Segmented, Consistent, TotalCharge, Cat, Nodes, Sum, Share;
      ghost var l, g, charge0 := Cat(list.parts), list.parts, list.charge;
      var h := handles[e].(refs := 0);
      var branch := BranchFor(h, highNum > 0, lowNum > 0);
      IdBelow(handles, table, l, list.charge, nextId, e);
      list.Insert(e, h.charge, branch);
      EnlistedMembers(g, Cat(list.parts), e);
      Enlist(handles, table, l, charge0, nextId, e, h, Cat(list.parts));
      TotalSet(handles, nextId, e, h);
      handles := handles[e := h];
    }

    /**
     Give a reference back. The last one frees the handle if it is no longer in the table, if the
     shard is over capacity or if asked to; otherwise the handle goes on the list.
     */
    method Release(e: nat, eraseIfLastRef: bool) returns (freed: bool)
      requires Valid() && e in handles && handles[e].refs > 0
      requires Relists(handles[e], eraseIfLastRef) && BranchFor(handles[e], highNum > 0, lowNum > 0).ToLow? ==> HighPoolWithinLimit()
      modifies this`handles, this`table, this`usage, list`links, list`usage, list`pool, list`charge, list`parts
      ensures Valid() && (old(HighPoolWithinLimit()) ==> HighPoolWithinLimit())
      ensures var h := old(handles)[e];
              && (freed <==> h.refs == 1 && (!h.inCache || old(usage) > capacity || eraseIfLastRef))
              && handles == (if freed then old(handles) - {e} else old(handles)[e := h.(refs := h.refs - 1)])
              && usage == (if freed then old(usage) - h.charge else old(usage))
              && table == (if freed && h.inCache then old(table) - {h.key} else old(table))
              && (freed || h.refs > 1 ==> Cat(list.parts) == old(Cat(list.parts)))
              && (!freed && h.refs == 1 && highNum > 0 && (h.priority.High? || h.hit) ==>
                    && Cat(list.parts) == old(Cat(list.parts)) + [e]
                    && (old(list.usage.high) + h.charge <= list.highCapacity ==> list.usage.high == old(list.usage.high) + h.charge))
    {
      hide Segmented, Consistent, TotalCharge, Cat, Nodes, Sum, Share;
      ghost var l := Cat(list.parts);
      var h := handles[e];
      NotListed(handles, table, l, list.charge, nextId, e);
      IdBelow(handles, table, l, list.charge, nextId, e);
      TotalDrop(handles, nextId, e);
      if h.refs > 1 {
        Retouch(handles, table, l, list.charge, nextId, e, h.(refs := h.refs - 1));
        TotalSet(handles, nextId, e, h.(refs := h.refs - 1));
        handles := handles[e := h.(refs := h.refs - 1)];
        return false;
      }
      if h.inCache && !(usage > capacity || eraseIfLastRef) {
        Enqueue(e);
        return false;
      }
      if h.inCache {
        Untable(handles, table, l, list.charge, nextId, e);
        FreeUnlisted(handles[e := h.(inCache := false)], table - {h.key}, l, list.charge, nextId, e);
        assert handles[e := h.(inCache := false)] - {e} == handles - {e};
        table := table - {h.key};
      } else {
        FreeUnlisted(handles, table, l, list.charge, nextId, e);
      }
      usage := usage - h.charge;
      handles := handles - {e};
      return true;
    }

    /** Whether giving a reference on h back puts it on the list. */
    predicate Relists(h: Handle, eraseIfLastRef: bool)
      reads this`usage, this`capacity
    {
      h.refs == 1 && h.inCache && usage <= capacity && !eraseIfLastRef
    }

    /** A new handle enters the table, referenced. */
    method Admit(h: Handle) returns (e: nat)
      requires Sound() && h.key !in table && h.inCache && h.refs > 0
      modifies this`handles, this`table, this`usage, this`nextId
      ensures Sound() && e == old(nextId) && e !in old(handles) && e !in Cat(list.parts)
      ensures handles == old(handles)[e := h] && table == old(table)[h.key := e] && usage == old(usage) + h.charge
      ensures nextId == old(nextId) + 1
    {
      hide Segmented, Consistent, TotalCharge, Cat, Nodes, Sum, Share;
      e := nextId;
      AdmitKeyed(handles, table, Cat(list.parts), list.charge, nextId, h);
      TotalSet(handles, nextId + 1, e, h);
      TotalBeyond(handles, nextId);
      handles, table := handles[e := h], table[h.key := e];
      usage, nextId := usage + h.charge, nextId + 1;
    }

    /** Whether the high pool is within its limit once the eviction for a new entry is over and the entry it replaces is gone. */
    ghost predicate HighPoolThenWithinLimit(key: nat, charge: nat)
      reads this, list
    {
      var n := MustGo(list.charge, Cat(list.parts), usage, charge, capacity);
      n <= |Cat(list.parts)| &&
      Sum(list.charge, Without(Without(list.parts.high, Elements(Cat(list.parts)[..n])), Holder(table, key))) <= list.highCapacity
    }

    /** A new entry replaces what the table holds under its key. */
    method Place(h: Handle, wantHandle: bool) returns (e: nat)
      requires Sound() && h.inCache && h.refs == 1
      requires !wantHandle && BranchFor(h, highNum > 0, lowNum > 0).ToLow? ==>
                 Sum(list.charge, Without(list.parts.high, Holder(table, h.key))) <= list.highCapacity
      modifies this`handles, this`table, this`usage, this`nextId, list`links, list`usage, list`pool, list`charge, list`parts
      ensures Sound() && nextId == old(nextId) + 1 && e == old(nextId) && e !in old(handles)
      ensures handles == Overwritten(old(handles), old(table), h.key)[e := h.(refs := if wantHandle then 1 else 0)]
      ensures table == old(table)[h.key := e] && usage == old(usage) - FreedBy(old(handles), old(table), h.key) + h.charge
      ensures old(HighPoolWithinLimit()) ==> HighPoolWithinLimit()
      ensures wantHandle && old(Cat(list.parts)) == [] ==> Cat(list.parts) == []
      ensures PinsKept(old(handles), handles)
    {
      hide Segmented, Consistent, TotalCharge, Cat, Nodes, Sum, Share, PinsKept, ErasedHandles, Without, Overwritten, FreedBy, Holder, HighPoolThenWithinLimit;
      ghost var handles0 := handles;
      NextIsFresh(handles, table, Cat(list.parts), list.charge, nextId);
      PinsOverwritten(handles, table, h.key, nextId);
      Erase(h.key);
      HighUsage(list);
      PinsUpdate(handles0, handles, nextId, h);
      e := Admit(h);
      if !wantHandle {
        PinsUpdate(handles0, handles, e, handles[e].(refs := 0));
        Enqueue(e);
      }
    }

    /** Evict for a new entry; nothing referenced goes. */
    method MakeRoom(key: nat, need: nat) returns (ghost evicted: seq<nat>)
      requires Sound()
      modifies this`handles, this`table, this`usage, list`links, list`usage, list`parts
      ensures Sound() && Evicted(old(Now()), Now(), evicted, need, capacity)
      ensures usage + need <= capacity || Cat(list.parts) == []
      ensures usage <= old(usage) && list.usage.high <= old(list.usage.high) && PinsKept(old(handles), handles)
      ensures old(Cat(list.parts)) == [] ==> Cat(list.parts) == []
      ensures old(HighPoolThenWithinLimit(key, need)) ==>
                Sum(list.charge, Without(list.parts.high, Holder(table, key))) <= list.highCapacity
    {
      hide Segmented, Consistent, TotalCharge, Cat, Nodes, Sum, Share, PinsKept, Evicted, Without, MustGo, Elements;
      ghost var before := Now();
      evicted := EvictFromLRU(need);
      EvictedFacts(before, Now(), evicted, need, capacity);
      EvictedUnreferenced(before.handles, before.table, Cat(before.parts), list.charge, nextId, evicted, Cat(list.parts));
      HolderAfter(before, Now(), evicted, list.charge, nextId, key);
    }

    /**
     Insert a key, evicting for space; without a handle the entry goes straight on the list. `mid` is
     the state once eviction is over: the entry is refused exactly if it does not fit then and may
     not exceed the capacity, which leaves that state; otherwise it replaces what its key held.
     */
    method Insert(key: nat, charge: nat, priority: Priority, wantHandle: bool)
      returns (status: Status, r: Option<nat>, ghost mid: View, ghost evicted: seq<nat>)
      requires Valid()
      requires !wantHandle && BranchFor(Handle(key, charge, priority, 1, true, false), highNum > 0, lowNum > 0).ToLow? ==>
                 HighPoolThenWithinLimit(key, charge)
      modifies this`handles, this`table, this`usage, this`nextId, list`links, list`usage, list`pool, list`charge, list`parts
      ensures Valid() && (old(HighPoolWithinLimit()) ==> HighPoolWithinLimit())
      ensures Evicted(old(Now()), mid, evicted, charge, capacity) && (mid.usage + charge <= capacity || Cat(mid.parts) == [])
      ensures Refuses(mid, charge, wantHandle) ==>
                Now() == mid && nextId == old(nextId) && r.None? && status == if wantHandle then MemoryLimit else Ok
      ensures !Refuses(mid, charge, wantHandle) ==>
                && nextId == old(nextId) + 1 && r == (if wantHandle then Some(old(nextId)) else None)
                && status == (if key in mid.table then OkOverwritten else Ok)
                && table == mid.table[key := old(nextId)]
                && handles == Overwritten(mid.handles, mid.table, key)
                              [old(nextId) := Handle(key, charge, priority, if wantHandle then 1 else 0, true, false)]
                && usage == mid.usage - FreedBy(mid.handles, mid.table, key) + charge
      ensures (strict || !wantHandle) && old(usage) <= capacity ==> usage <= capacity
      ensures wantHandle && old(Cat(list.parts)) == [] ==> Cat(list.parts) == []
      ensures PinsKept(old(handles), handles)
    {
      hide Segmented, Consistent, TotalCharge, Cat, Nodes, Sum, Share, PinsKept, Evicted, Overwritten, Without, MustGo, HighPoolThenWithinLimit, FreedBy, Holder;
      ghost var handles0 := handles;
      evicted := MakeRoom(key, charge);
      mid := Now();
      if usage + charge > capacity && (strict || !wantHandle) {
        return if wantHandle then MemoryLimit else Ok, None, mid, evicted;
      }
      status := if key in table then OkOverwritten else Ok;
      var e := Place(Handle(key, charge, priority, 1, true, false), wantHandle);
      PinsTransitive(handles0, mid.handles, handles);
      r := if wantHandle then Some(e) else None;
    }

    predicate Refuses(mid: View, charge: nat, wantHandle: bool)
      reads this`capacity, this`strict
    {
      mid.usage + charge > capacity && (strict || !wantHandle)
    }

    /**
     A handle outside the table, for its creator only. If it does not fit after eviction and the
     limit is strict, it is refused or made without a charge.
     */
    method CreateStandalone(key: nat, charge: nat, allowUncharged: bool)
      returns (r: Option<nat>, ghost mid: View, ghost evicted: seq<nat>)
      requires Valid()
      modifies this`handles, this`table, this`usage, this`nextId, list`links, list`usage, list`parts
      ensures Valid()
      ensures Evicted(old(Now()), mid, evicted, charge, capacity) && (mid.usage + charge <= capacity || Cat(mid.parts) == [])
      ensures r.None? <==> strict && mid.usage + charge > capacity && !allowUncharged
      ensures r.None? ==> Now() == mid
      ensures r.Some? ==>
                var charged := if strict && mid.usage + charge > capacity then 0 else charge;
                && r.value == old(nextId) && handles == mid.handles[r.value := Handle(key, charged, Bottom, 1, false, false)]
                && Now() == mid.(handles := handles, usage := mid.usage + charged)
      ensures strict && old(usage) <= capacity ==> usage <= capacity
      ensures PinsKept(old(handles), handles) && list.usage.high <= old(list.usage.high)
    {
      hide Segmented, Consistent, TotalCharge, Cat, Nodes, Sum, Share, PinsKept, Evicted, MustGo, HighPoolThenWithinLimit, Without;
      ghost var handles0 := handles;
      NextIsFresh(handles, table, Cat(list.parts), list.charge, nextId);
      evicted := MakeRoom(key, charge);
      mid := Now();
      var charged := charge;
      if strict && usage + charge > capacity {
        if !allowUncharged {
          return None, mid, evicted;
        }
        charged := 0;
      }
      var h := Handle(key, charged, Bottom, 1, false, false);
      AdmitOutside(handles, table, Cat(list.parts), list.charge, nextId, h);
      TotalSet(handles, nextId + 1, nextId, h);
      TotalBeyond(handles, nextId);
      PinsUpdate(handles0, handles, nextId, h);
      r := Some(nextId);
      handles, usage, nextId := handles[nextId := h], usage + charged, nextId + 1;
    }

    /** Drop everything unreferenced. */
    method EraseUnRefEntries()
      requires Sound()
      modifies this`handles, this`table, this`usage, list`links, list`usage, list`parts
      ensures Valid() && Cat(list.parts) == []
      ensures handles == old(handles) - Elements(old(Cat(list.parts)))
      ensures usage <= old(usage) && list.usage.high <= old(list.usage.high)
    {
      hide Segmented, Consistent, TotalCharge, Cat, Nodes, Drop, Sum, Share, Elements;
      ghost var erased: seq<nat> := [];
      MinusNone(handles);
      assert [] + Cat(list.parts) == Cat(list.parts);
      FirstOfRing(list.links, list.pool, list.charge, list.usage, list.parts);
      while list.links.next[0] != 0
        invariant Sound()
        invariant 0 in list.links.next && (list.links.next[0] == 0 <==> Cat(list.parts) == [])
        invariant erased + Cat(list.parts) == old(Cat(list.parts))
        invariant handles == old(handles) - Elements(erased)
        invariant usage <= old(usage) && list.usage.high <= old(list.usage.high)
        decreases |Cat(list.parts)|
      {
        var e := EvictOne();
        OneMore(old(handles), erased, e, Cat(list.parts), usage, capacity + 1, capacity);
        erased := erased + [e];
        FirstOfRing(list.links, list.pool, list.charge, list.usage, list.parts);
      }
      assert erased + [] == erased;
    }
  }

  lemma NextIsFresh(handles: map<nat, Handle>, table: map<nat, nat>, list: seq<nat>, charge: map<nat, nat>, nextId: nat)
    requires Consistent(handles, table, list, charge, nextId)
    ensures nextId !in handles
  {
  }

  predicate Submap(m: map<nat, nat>, n: map<nat, nat>) {
    forall k :: k in m ==> k in n && m[k] == n[k]
  }

  /** Evicted handles were unreferenced. */
  lemma EvictedUnreferenced(handles: map<nat, Handle>, table: map<nat, nat>, l: seq<nat>, charge: map<nat, nat>, nextId: nat,
                            evicted: seq<nat>, rest: seq<nat>)
    requires Consistent(handles, table, l, charge, nextId) && evicted + rest == l
    ensures PinsKept(handles, handles - Elements(evicted))
  {
    assert forall e :: e in evicted ==> e in l;
  }

  /** Referenced handles survive with all but their place in the table. */
  ghost predicate PinsKept(before: map<nat, Handle>, after: map<nat, Handle>) {
    forall e :: e in before && before[e].refs > 0 ==>
      e in after && after[e].(inCache := true) == before[e].(inCache := true)
  }

  lemma PinsRefl(handles: map<nat, Handle>)
    ensures PinsKept(handles, handles)
  {
  }

  lemma PinsTransitive(a: map<nat, Handle>, b: map<nat, Handle>, c: map<nat, Handle>)
    requires PinsKept(a, b) && PinsKept(b, c)
    ensures PinsKept(a, c)
  {
  }

  lemma SubmapMinus(m: map<nat, nat>, n: map<nat, nat>, k: nat)
    requires Submap(m, n)
    ensures Submap(m - {k}, n)
  {
  }

  lemma PinsErase(before: map<nat, Handle>, after: map<nat, Handle>, e: nat)
    requires PinsKept(before, after)
    ensures PinsKept(before, ErasedHandles(after, e))
  {
  }

  lemma PinsOverwritten(handles: map<nat, Handle>, table: map<nat, nat>, key: nat, id: nat)
    requires id !in handles
    ensures PinsKept(handles, Overwritten(handles, table, key)) && id !in Overwritten(handles, table, key)
  {
    hide PinsKept;
    PinsRefl(handles);
    if key in table { PinsErase(handles, handles, table[key]); }
  }

  lemma PinsUpdate(before: map<nat, Handle>, after: map<nat, Handle>, e: nat, h: Handle)
    requires PinsKept(before, after) && e !in before
    ensures PinsKept(before, after[e := h])
  {
  }

  function Referenced(h: Handle, hit: bool): Handle {
    h.(refs := h.refs + 1, hit := hit)
  }

  lemma EnlistedMembers(g: Parts, l: seq<nat>, e: nat)
    requires l == Cat(g) + [e] || l == g.bottom + g.low + [e] + g.high || l == g.bottom + [e] + (g.low + g.high)
    ensures forall x :: x in l <==> x in Cat(g) || x == e
  {
  }

  ghost predicate Suffix(s: seq<nat>, t: seq<nat>) {
    |s| <= |t| && s == t[|t| - |s|..]
  }

  /** The handle a key has in the table, if any. */
  function Holder(table: map<nat, nat>, key: nat): set<nat> {
    if key in table then {table[key]} else {}
  }

  /** The handles once a key's entry has left the table, and the charge that frees. */
  function Overwritten(handles: map<nat, Handle>, table: map<nat, nat>, key: nat): map<nat, Handle> {
    if key in table then ErasedHandles(handles, table[key]) else handles
  }

  function FreedBy(handles: map<nat, Handle>, table: map<nat, nat>, key: nat): nat {
    if key in table && table[key] in handles && handles[table[key]].refs == 0 then handles[table[key]].charge else 0
  }

  /** How many entries must go, from the front, before `need` fits. */
  function MustGo(charge: map<nat, nat>, l: seq<nat>, usage: int, need: nat, capacity: nat): nat {
    if usage + need <= capacity || l == [] then 0
    else 1 + MustGo(charge, l[1..], usage - ChargeOf(charge, l[0]), need, capacity)
  }

  /** Taking an entry off the list takes it out of the high pool. */
  lemma HighDrop(list: List, e: nat)
    requires list.Valid()
    ensures Drop(list.parts.high, e) == Without(list.parts.high, {e})
    ensures e !in Cat(list.parts) ==> Without(list.parts.high, {e}) == list.parts.high
  {
    PartNodes(list.parts);
    DropIsWithout(list.parts.high, e);
    if e !in Cat(list.parts) { WithoutNone(list.parts.high, {e}); }
  }

  lemma {:induction false} DropIsWithout(s: seq<nat>, e: nat)
    requires Nodes(s)
    ensures Drop(s, e) == Without(s, {e})
  {
    if s != [] {
      if s[0] == e { WithoutNone(s[1..], {e}); } else { DropIsWithout(s[1..], e); }
    }
  }

  lemma HighUsage(list: List)
    requires list.Valid()
    ensures list.usage.high == Sum(list.charge, list.parts.high)
  {
  }

  lemma {:induction false} SumWithout(c: map<nat, nat>, s: seq<nat>, r: set<nat>)
    ensures Sum(c, Without(s, r)) <= Sum(c, s)
  {
    if s != [] {
      SumWithout(c, s[1..], r);
      if s[0] in r { assert Without(s, r) == Without(s[1..], r); } else { assert Without(s, r)[1..] == Without(s[1..], r); }
    }
  }

  /** The evictions so far and those still to come are as many as it takes. */
  ghost predicate Paced(charge: map<nat, nat>, before: View, now: View, evicted: seq<nat>, need: nat, capacity: nat) {
    |evicted| + MustGo(charge, Cat(now.parts), now.usage, need, capacity) == MustGo(charge, Cat(before.parts), before.usage, need, capacity)
  }

  lemma PacedNone(charge: map<nat, nat>, v: View, need: nat, capacity: nat)
    ensures Paced(charge, v, v, [], need, capacity)
  {
  }

  lemma PacedNext(charge: map<nat, nat>, before: View, mid: View, now: View, evicted: seq<nat>, e: nat, need: nat, capacity: nat)
    requires Paced(charge, before, mid, evicted, need, capacity) && mid.usage + need > capacity
    requires Cat(mid.parts) == [e] + Cat(now.parts) && now.usage == mid.usage - ChargeOf(charge, e)
    ensures Paced(charge, before, now, evicted + [e], need, capacity)
  {
    hide Cat;
    assert Cat(mid.parts)[1..] == Cat(now.parts);
  }

  lemma PacedDone(charge: map<nat, nat>, before: View, now: View, evicted: seq<nat>, need: nat, capacity: nat)
    requires Paced(charge, before, now, evicted, need, capacity) && (now.usage + need <= capacity || Cat(now.parts) == [])
    ensures |evicted| == MustGo(charge, Cat(before.parts), before.usage, need, capacity)
  {
  }

  lemma {:induction false} MustGoBounded(charge: map<nat, nat>, l: seq<nat>, usage: int, need: nat, capacity: nat)
    ensures MustGo(charge, l, usage, need, capacity) <= |l|
  {
    if l != [] { MustGoBounded(charge, l[1..], usage - ChargeOf(charge, l[0]), need, capacity); }
  }

  /** A pool that is within its limit stays so during eviction. */
  lemma WithinLimitThroughout(s: Shard, key: nat, charge: nat)
    requires s.Sound() && s.HighPoolWithinLimit()
    ensures s.HighPoolThenWithinLimit(key, charge)
  {
    hide Sum, Without, Consistent;
    var l := Cat(s.list.parts);
    MustGoBounded(s.list.charge, l, s.usage, charge, s.capacity);
    var n := MustGo(s.list.charge, l, s.usage, charge, s.capacity);
    HighUsage(s.list);
    SumWithout(s.list.charge, s.list.parts.high, Elements(l[..n]));
    SumWithout(s.list.charge, Without(s.list.parts.high, Elements(l[..n])), Holder(s.table, key));
  }

  /** What erasing a key does to its handle. */
  function ErasedHandles(handles: map<nat, Handle>, e: nat): map<nat, Handle> {
    if e !in handles then handles
    else if handles[e].refs > 0 then handles[e := handles[e].(inCache := false)]
    else handles - {e}
  }

  lemma TableEntry(handles: map<nat, Handle>, table: map<nat, nat>, list: seq<nat>, charge: map<nat, nat>, nextId: nat, key: nat)
    requires Consistent(handles, table, list, charge, nextId) && key in table
    ensures var e := table[key];
            && e in handles && handles[e].key == key && handles[e].inCache && 0 < e < nextId
            && (handles[e].refs == 0 <==> e in list)
  {
  }

  lemma NotListed(handles: map<nat, Handle>, table: map<nat, nat>, list: seq<nat>, charge: map<nat, nat>, nextId: nat, e: nat)
    requires Consistent(handles, table, list, charge, nextId) && e in handles && (handles[e].refs > 0 || !handles[e].inCache)
    ensures e !in list
  {
  }

  lemma RemoveSubset(l: seq<nat>, e: nat)
    ensures forall x :: x in Drop(l, e) ==> x in l
    ensures l == [] ==> Drop(l, e) == []
  {
    RemoveNodeSum(map[], l, e);
  }

  lemma MinusNone(handles: map<nat, Handle>)
    ensures handles - Elements([]) == handles
  {
  }

  lemma OneMore(handles: map<nat, Handle>, evicted: seq<nat>, e: nat, rest: seq<nat>, usage: nat, need: nat, capacity: nat)
    requires e in handles && usage + handles[e].charge + need > capacity
    ensures handles - Elements(evicted) - {e} == handles - Elements(evicted + [e])
    ensures evicted + ([e] + rest) == (evicted + [e]) + rest
    ensures LastWasNeeded(handles, evicted + [e], usage, need, capacity)
  {
  }

  /** What eviction changes. */
  datatype View = View(handles: map<nat, Handle>, table: map<nat, nat>, usage: nat, pools: Usage, parts: Parts)

  /** A prefix of the list was evicted, and its last entry only because space was still needed. */
  ghost predicate Evicted(before: View, after: View, evicted: seq<nat>, need: nat, capacity: nat) {
    && evicted + Cat(after.parts) == Cat(before.parts)
    && after.handles == before.handles - Elements(evicted)
    && after.parts.high == Without(before.parts.high, Elements(evicted))
    && after.usage <= before.usage && after.pools.high <= before.pools.high && Submap(after.table, before.table)
    && (evicted == [] ==> after == before)
    && (evicted != [] ==> before.usage + need > capacity && LastWasNeeded(before.handles, evicted, after.usage, need, capacity))
  }

  lemma NoneEvicted(v: View, need: nat, capacity: nat)
    ensures Evicted(v, v, [], need, capacity)
  {
    MinusNone(v.handles);
    WithoutNone(v.parts.high, Elements([]));
  }

  /** Among them, that the evicted entries are the first on the list. */
  lemma EvictedFacts(before: View, after: View, evicted: seq<nat>, need: nat, capacity: nat)
    requires Evicted(before, after, evicted, need, capacity)
    ensures evicted + Cat(after.parts) == Cat(before.parts) && evicted == Cat(before.parts)[..|evicted|]
    ensures after.handles == before.handles - Elements(evicted) && after.usage <= before.usage && after.pools.high <= before.pools.high
    ensures after.parts.high == Without(before.parts.high, Elements(evicted))
    ensures Submap(after.table, before.table)
    ensures before.usage + need <= capacity ==> after == before
  {
  }

  /** After eviction, the key still has its entry or that entry is not in the high pool. */
  lemma HolderAfter(before: View, after: View, evicted: seq<nat>, charge: map<nat, nat>, nextId: nat, key: nat)
    requires Consistent(before.handles, before.table, Cat(before.parts), charge, nextId)
    requires Consistent(after.handles, after.table, Cat(after.parts), charge, nextId)
    requires after.handles == before.handles - Elements(evicted) && Submap(after.table, before.table)
    ensures Without(after.parts.high, Holder(after.table, key)) == Without(after.parts.high, Holder(before.table, key))
  {
    hide Without, Elements;
    if key in before.table && key !in after.table {
      var e := before.table[key];
      assert e in Cat(after.parts) ==> e in after.handles;
      assert e !in after.parts.high;
      WithoutNone(after.parts.high, {e});
      WithoutNone(after.parts.high, {});
    }
  }

  lemma OneEvicted(before: View, mid: View, after: View, evicted: seq<nat>, e: nat, need: nat, capacity: nat)
    requires Evicted(before, mid, evicted, need, capacity) && mid.usage + need > capacity
    requires Cat(mid.parts) == [e] + Cat(after.parts) && after.pools.high <= mid.pools.high
    requires after.parts.high == Without(mid.parts.high, {e})
    requires e in mid.handles && after.handles == mid.handles - {e} && after.usage == mid.usage - mid.handles[e].charge
    requires after.table == mid.table - {mid.handles[e].key}
    ensures Evicted(before, after, evicted + [e], need, capacity)
  {
    hide Cat, Elements, Submap, LastWasNeeded, Without;
    WithoutTwice(before.parts.high, Elements(evicted), {e});
    assert Elements(evicted) + {e} == Elements(evicted + [e]) by { ElementsMore(evicted, e); }
    SubmapMinus(mid.table, before.table, mid.handles[e].key);
    assert mid.handles[e] == before.handles[e];
    OneMore(before.handles, evicted, e, Cat(after.parts), after.usage, need, capacity);
  }

  lemma ElementsMore(s: seq<nat>, e: nat)
    ensures Elements(s) + {e} == Elements(s + [e])
  {
  }

  /** Without the last eviction the space would not have sufficed. */
  predicate LastWasNeeded(handles: map<nat, Handle>, evicted: seq<nat>, usage: nat, need: nat, capacity: nat)
    requires evicted != []
  {
    var e := evicted[|evicted| - 1];
    e in handles && usage + handles[e].charge + need > capacity
  }

  lemma IdBelow(handles: map<nat, Handle>, table: map<nat, nat>, list: seq<nat>, charge: map<nat, nat>, nextId: nat, e: nat)
    requires Consistent(handles, table, list, charge, nextId) && e in handles
    ensures 0 < e < nextId
  {
  }
}
