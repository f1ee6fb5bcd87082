/**
 Charging memory used elsewhere to a cache: a manager keeps as many dummy entries of a fixed size
 in the cache as are needed to cover the memory, and may keep some longer than needed.
 */
module CacheReservation {
  /** 256 KB. */
  const DUMMY_SIZE: nat := 0x4_0000

  predicate LeastMultiple(size: nat, used: nat) {
    size % DUMMY_SIZE == 0 && used <= size < used + DUMMY_SIZE
  }

  /** What a successful update leaves: the least cover, or when decreases are delayed the old reservation if three quarters are used. */
  predicate Settled(delayed: bool, before: nat, size: nat, used: nat) {
    LeastMultiple(size, used) || (delayed && size == before && size / 4 * 3 <= used <= size)
  }

  function Sum(s: seq<nat>): nat {
    if s == [] then 0 else s[0] + Sum(s[1..])
  }

  lemma {:induction false} SumAppend(s: seq<nat>, x: nat)
    ensures Sum(s + [x]) == Sum(s) + x
  {
    if s == [] {
      assert s + [x] == [x];
    } else {
      assert (s + [x])[1..] == s[1..] + [x];
      SumAppend(s[1..], x);
    }
  }

  lemma {:induction false} SumSet(s: seq<nat>, i: nat, x: nat)
    requires i < |s|
    ensures Sum(s[i := x]) == Sum(s) - s[i] + x && s[i] <= Sum(s)
  {
    if i == 0 {
      assert s[i := x][1..] == s[1..];
    } else {
      assert s[i := x][1..] == s[1..][i - 1 := x];
      SumSet(s[1..], i - 1, x);
    }
  }

  class Manager {
    const delayedDecrease: bool
    var reserved: nat
    var memoryUsed: nat
    var dummies: seq<nat>
    /** What each reservation handle still stands for; zero once it is gone. */
    var reservations: seq<nat>

    ghost predicate Valid()
      reads this
    {
      reserved == DUMMY_SIZE * |dummies|
    }

    /** All memory is accounted for by live reservation handles. */
    ghost predicate FullyHeld()
      reads this
    {
      memoryUsed == Sum(reservations)
    }

    constructor (delayedDecrease: bool)
      ensures Valid() && FullyHeld() && memoryUsed == 0 && this.delayedDecrease == delayedDecrease
    {
      this.delayedDecrease := delayedDecrease;
      reserved, memoryUsed, dummies, reservations := 0, 0, [], [];
    }

    /** Insert dummies until the memory is covered; `room` is how many the cache accepts before it is full. */
    method Increase(used: nat, room: nat) returns (ok: bool)
      requires Valid() && used > reserved
      modifies this`reserved, this`dummies
      ensures Valid() && |old(dummies)| <= |dummies| && old(dummies) == dummies[..|old(dummies)|]
      ensures ok ==> LeastMultiple(reserved, used) && |dummies| <= |old(dummies)| + room
      ensures !ok ==> reserved < used && |dummies| == |old(dummies)| + room
      ensures ok <==> used <= old(reserved) + DUMMY_SIZE * room
    {
      var left: nat := room;
      while used > reserved
        invariant Valid() && |old(dummies)| <= |dummies| && old(dummies) == dummies[..|old(dummies)|]
        invariant |dummies| - |old(dummies)| == room - left && left <= room
        invariant reserved == old(reserved) + DUMMY_SIZE * (room - left)
        invariant reserved < used + DUMMY_SIZE
        decreases left
      {
        if left == 0 {
          return false;
        }
        left := left - 1;
        dummies := dummies + [|dummies|];
        reserved := reserved + DUMMY_SIZE;
      }
      return true;
    }

    /** Release dummies from the end while the rest still covers the memory. */
    method Decrease(used: nat)
      requires Valid() && used < reserved
      modifies this`reserved, this`dummies
      ensures Valid() && LeastMultiple(reserved, used)
      ensures |dummies| <= |old(dummies)| && dummies == old(dummies)[..|dummies|]
    {
      while used + DUMMY_SIZE <= reserved
        invariant Valid() && used <= reserved && |dummies| <= |old(dummies)| && dummies == old(dummies)[..|dummies|]
        decreases reserved
      {
        dummies := dummies[..|dummies| - 1];
        reserved := reserved - DUMMY_SIZE;
      }
    }

    /** Bring the reservation in line with the memory used. */
    method Update(used: nat, room: nat) returns (ok: bool)
      requires Valid()
      modifies this`reserved, this`dummies, this`memoryUsed
      ensures Valid() && memoryUsed == used
      ensures ok ==> Settled(delayedDecrease, old(reserved), reserved, used)
      ensures !ok ==> used > reserved >= old(reserved)
      ensures ok <==> used <= old(reserved) + DUMMY_SIZE * room
    {
      memoryUsed := used;
      if used == reserved {
        return true;
      } else if used > reserved {
        ok := Increase(used, room);
      } else if delayedDecrease && used >= reserved / 4 * 3 {
        return true;
      } else {
        Decrease(used);
        return true;
      }
    }

    /** Change the memory used by a delta, as the concurrent wrapper does; it cannot go below zero. */
    method UpdateBy(delta: nat, increase: bool, room: nat) returns (ok: bool)
      requires Valid()
      modifies this`reserved, this`dummies, this`memoryUsed
      ensures Valid()
      ensures memoryUsed == if increase then old(memoryUsed) + delta
                            else if old(memoryUsed) > delta then old(memoryUsed) - delta else 0
      ensures ok ==> Settled(delayedDecrease, old(reserved), reserved, memoryUsed)
      ensures !ok ==> memoryUsed > reserved >= old(reserved)
      ensures ok <==> memoryUsed <= old(reserved) + DUMMY_SIZE * room
    {
      if increase {
        ok := Update(memoryUsed + delta, room);
      } else {
        ok := Update(if memoryUsed > delta then memoryUsed - delta else 0, room);
      }
    }

    /** Reserve an amount; the handle exists even if the cache was full. */
    method Make(amount: nat, room: nat) returns (ok: bool, handle: nat)
      requires Valid() && FullyHeld()
      modifies this
      ensures Valid() && FullyHeld() && memoryUsed == old(memoryUsed) + amount
      ensures handle == |old(reservations)| && reservations == old(reservations) + [amount]
      ensures ok ==> Settled(delayedDecrease, old(reserved), reserved, memoryUsed)
      ensures !ok ==> memoryUsed > reserved >= old(reserved)
      ensures ok <==> memoryUsed <= old(reserved) + DUMMY_SIZE * room
    {
      SumAppend(reservations, amount);
      ok := Update(memoryUsed + amount, room);
      handle := |reservations|;
      reservations := reservations + [amount];
    }

    /**
     A handle is destroyed and its amount returned. If an earlier reservation found the cache full,
     what is left may still have to be covered.
     */
    method ReleaseHandle(handle: nat, room: nat) returns (ok: bool)
      requires Valid() && FullyHeld() && handle < |reservations|
      modifies this
      ensures Valid() && FullyHeld() && memoryUsed == old(memoryUsed) - old(reservations[handle])
      ensures reservations == old(reservations)[handle := 0]
      ensures ok <==> memoryUsed <= old(reserved) + DUMMY_SIZE * room
      ensures ok ==> Settled(delayedDecrease, old(reserved), reserved, memoryUsed)
      ensures !ok ==> memoryUsed > reserved >= old(reserved)
    {
      SumSet(reservations, handle, 0);
      ok := Update(memoryUsed - reservations[handle], room);
      reservations := reservations[handle := 0];
    }
  }
}
