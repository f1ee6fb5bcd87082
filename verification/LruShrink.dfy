/** A run of a shard in which lowering the capacity makes a later low-priority insert fail. */
module LruShrink {
  import opened Words
  import opened Ratio
  import opened LruList
  import opened LruLowInsert
  import opened LruShard

  /**
   Lowering the capacity moves nothing out of the high-priority pool. With a capacity of 200 and a
   tenth of it for the pool, an entry of 15 fits; after lowering the capacity to 100, which needs no
   eviction, the pool may hold 10 and still holds 15. The next insert of a low-priority entry,
   here of charge 50, then leads maintenance into the sentinel.
   */
  method ShrinkThenLowInsert() returns (high: nat, limit: nat, clear: bool)
    ensures high > limit && !clear
  {
    hide Consistent, Segmented, Cat, TotalCharge, Sum, Share, LowInsert, Fits, LowPointer, Evicted, Suffix, Submap;
    var s, a := OneHighEntry();
    Shares();
    s.SetCapacity(100);
    high, limit := s.list.usage.high, s.list.highCapacity;
    ghost var before := s.Now();
    var evicted := s.EvictFromLRU(50);
    NothingEvicted(before, s.Now(), evicted, 50, s.capacity);
    var e := s.Admit(Handle(8, 50, Low, 1, true, false));
    assert BranchFor(s.handles[e], s.highNum > 0, s.lowNum > 0).ToLow?;
    LeadsIntoSentinel(s.list, a, e);
    clear := InsertLow(s.list, e, 50);
  }

  /** A shard of capacity 200 that holds a single entry, of charge 15, in its high pool. */
  method OneHighEntry() returns (s: Shard, a: nat)
    ensures fresh(s) && fresh(s.list) && s.Valid() && s.capacity == 200 && s.highNum == 1 && s.lowNum == 1 && s.den == 10
    ensures s.usage <= 15 && s.list.usage.high == 15 && Cat(s.list.parts) == [a] && 8 !in s.table
  {
    hide Consistent, Segmented, Cat, TotalCharge, Sum, Share, LowPointer, PinsKept;
    s := new Shard(200, false, 1, 1, 10);
    Shares();
    var status, r, mid, evicted := s.Insert(7, 15, High, true);
    a := r.value;
    EmptyHigh(s.list);
    var freed := s.Release(a, false);
  }

  lemma Shares()
    ensures Share(200, 1, 10) == 20 && Share(100, 1, 10) == 10
  {
  }

  lemma NothingEvicted(before: View, after: View, evicted: seq<nat>, need: nat, capacity: nat)
    requires Evicted(before, after, evicted, need, capacity) && before.usage + need <= capacity
    ensures after == before
  {
  }

  lemma EmptyHigh(list: List)
    requires list.Valid() && Cat(list.parts) == []
    ensures list.usage.high == 0
  {
  }

  /** A charge c that brings the counter below zero, also without the only entry of the high pool. */
  lemma NoStop(charge: map<nat, nat>, a: nat, j: nat)
    requires Sum(charge, [a]) == 15
    ensures !MayStop(charge, [a], 10, 50, j)
  {
    assert [a][0..] == [a] && [a][1..] == [];
  }

  lemma SoleHigh(list: List, a: nat)
    requires list.Valid() && Cat(list.parts) == [a] && list.usage.high > 0
    ensures list.parts == Parts([], [], [a]) && Sum(list.charge, [a]) == list.usage.high
  {
    assert list.parts.high != [];
    assert |Cat(list.parts)| == 1;
  }

  lemma LeadsIntoSentinel(list: List, a: nat, e: nat)
    requires list.Valid() && Cat(list.parts) == [a] && list.usage.high == 15 && list.highCapacity == 10 && e != 0 && e != a
    ensures Fits(list.charge, list.parts, 50) && list.links.lowPri in list.links.next && list.usage.high < WORD && list.usage.low + 50 < WORD
    ensures LowInsert(list.links, list.pool, list.charge, list.usage, list.parts, list.highCapacity, list.lowCapacity, e, 50).Sentinel?
  {
    hide Segmented, Sum, Cat, MayStop, LowPointer, Wrapped;
    SoleHigh(list, a);
    LowInsertClearIff(list.links, list.pool, list.charge, list.usage, list.parts, list.highCapacity, list.lowCapacity, e, 50);
    forall j: nat ensures !MayStop(list.charge, list.parts.high, 10, 50, j) { NoStop(list.charge, a, j); }
  }
}
