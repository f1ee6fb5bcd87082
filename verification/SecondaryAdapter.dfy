/**
 Sharing cache reservations between a primary cache and its secondary cache. Placeholder entries
 are charged to the primary cache; a fixed share of them, in whole chunks, is moved to the
 secondary cache by shrinking what the primary sets aside for it.
 */
module SecondaryAdapter {
  import opened Bits
  import opened Ratio

  /** 1 MB. */
  const CHUNK: nat := 0x10_0000

  function WholeChunks(x: nat): (r: nat)
    ensures r <= x < r + CHUNK && r % CHUNK == 0
  {
    x - x % CHUNK
  }

  /**
   Lower the memory set aside by a word-sized delta, as the reservation manager does: it stops at
   zero, and a negative delta is a word larger than any amount of memory.
   */
  function Lowered(memory: nat, delta: int): nat {
    if 0 <= delta < memory then memory - delta else 0
  }

  class Adapter {
    const num: nat
    const den: nat
    var capacity: nat
    var secCapacity: nat
    /** Memory the primary cache sets aside for the secondary cache. */
    var setAside: nat
    var placeholders: nat
    var reserved: nat
    var secReserved: nat

    ghost predicate Valid()
      reads this
    {
      && den > 0
      && secCapacity == Share(capacity, num, den)
      && Balanced() && Shares()
    }

    /** Nothing is counted twice or lost between the two caches. */
    ghost predicate Balanced()
      reads this
    {
      setAside + secReserved == secCapacity
    }

    ghost predicate Shares()
      reads this
    {
      && den > 0
      && secReserved == Share(reserved, num, den)
      && reserved % CHUNK == 0 && reserved <= placeholders && reserved <= capacity
    }

    constructor (capacity: nat, secCapacity: nat)
      requires capacity > 0
      ensures Valid() && this.capacity == capacity && this.secCapacity == secCapacity && num == secCapacity && den == capacity
      ensures placeholders == reserved == 0
    {
      this.capacity, this.secCapacity, setAside := capacity, secCapacity, secCapacity;
      num, den := secCapacity, capacity;
      placeholders, reserved, secReserved := 0, 0, 0;
      new;
      ShareOfWhole(secCapacity, capacity);
      ShareOfNothing(num, den);
    }

    /** A placeholder entry of this charge is inserted. */
    method Insert(charge: nat)
      requires Valid()
      modifies this`placeholders, this`reserved, this`secReserved, this`setAside
      ensures Valid() && placeholders == old(placeholders) + charge && reserved >= old(reserved)
      ensures placeholders <= capacity ==> placeholders - reserved < CHUNK
      ensures placeholders > capacity ==> reserved == old(reserved)
    {
      hide Share;
      placeholders := placeholders + charge;
      if placeholders <= capacity && placeholders - reserved >= CHUNK {
        var target := WholeChunks(placeholders);
        ShareMonotone(reserved, target, num, den);
        ShareMonotone(target, capacity, num, den);
        var secCharge := Share(target, num, den) - secReserved;
        reserved := target;
        setAside := Lowered(setAside, secCharge);
        secReserved := secReserved + secCharge;
      }
    }

    /** A placeholder entry of this charge goes away. */
    method Release(charge: nat)
      requires Valid() && charge <= placeholders
      modifies this`placeholders, this`reserved, this`secReserved, this`setAside
      ensures Valid() && placeholders == old(placeholders) - charge && reserved <= old(reserved)
    {
      hide Share;
      placeholders := placeholders - charge;
      if placeholders <= capacity && placeholders < reserved {
        var target := WholeChunks(placeholders);
        ShareMonotone(target, reserved, num, den);
        var secCharge := secReserved - Share(target, num, den);
        reserved := target;
        setAside := setAside + secCharge;
        secReserved := secReserved - secCharge;
      }
    }

    /**
     Change the capacity. The two caches stay in balance exactly when the secondary cache loses at
     least as much capacity as reservation, or nothing is to be set aside anyway. The reservation
     stays a share of whole chunks within the capacity exactly when it already was within the new
     capacity or the secondary cache shrinks.
     */
    method SetCapacity(c: nat)
      requires Valid()
      modifies this`capacity, this`secCapacity, this`setAside, this`reserved, this`secReserved
      ensures capacity == c && secCapacity == Share(c, num, den) && secReserved == Share(reserved, num, den)
      ensures Balanced() <==> KeepsBalance(old(capacity), c, old(placeholders), old(reserved), num, den)
      ensures Shares() <==> KeepsShares(old(capacity), c, old(reserved), num, den)
      ensures old(placeholders) <= c ==> Valid() && reserved == old(reserved)
    {
      hide Share;
      var sec := Share(c, num, den);
      if secCapacity > sec {
        var target := if placeholders > c then WholeChunks(c) else reserved;
        ShareMonotone(target, c, num, den);
        var newSecReserved := Share(target, num, den);
        var delta := (secCapacity - sec) - (secReserved - newSecReserved);
        LoweredBy(setAside, delta, sec, newSecReserved);
        setAside := Lowered(setAside, delta);
        reserved, secReserved := target, newSecReserved;
      } else {
        setAside := setAside + (sec - secCapacity);
      }
      capacity, secCapacity := c, sec;
    }
  }

  /** The condition, in terms of the state before the call. */
  predicate KeepsBalance(capacity: nat, c: nat, placeholders: nat, reserved: nat, num: nat, den: nat)
    requires den > 0
  {
    var target := if placeholders > c then WholeChunks(c) else reserved;
    Share(capacity, num, den) <= Share(c, num, den) ||
    Share(reserved, num, den) - Share(target, num, den) <= Share(capacity, num, den) - Share(c, num, den) ||
    Share(c, num, den) == Share(target, num, den)
  }

  predicate KeepsShares(capacity: nat, c: nat, reserved: nat, num: nat, den: nat)
    requires den > 0
  {
    reserved <= c || Share(c, num, den) < Share(capacity, num, den)
  }

  lemma ShareOfNothing(num: nat, den: nat)
    requires den > 0
    ensures Share(0, num, den) == 0
  {
    DivModUnique(0, den, 0, 0);
  }

  /** When lowering by delta ends at the wanted amount. */
  lemma LoweredBy(memory: nat, delta: int, sec: nat, newSecReserved: nat)
    requires newSecReserved <= sec && memory - delta == sec - newSecReserved
    ensures Lowered(memory, delta) == sec - newSecReserved <==> delta >= 0 || sec == newSecReserved
  {
  }

  /**
   Lowering the capacity below the placeholders can break the balance: four chunks of capacity, a
   quarter of it for the secondary cache, all of it reserved, lowered by half a chunk.
   */
  method ShrinkBreaksBalance() returns (a: Adapter)
    ensures fresh(a) && a.num < a.den && !a.Balanced() && a.Shares()
  {
    a := new Adapter(4 * CHUNK, CHUNK);
    a.Insert(4 * CHUNK);
    a.SetCapacity(3 * CHUNK + CHUNK / 2);
  }
}
