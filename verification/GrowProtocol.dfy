/**
 Concurrent growth of the auto-growing table. Any number of threads reserve grow slots, publish
 the new shift on both heads of a split, move the published length forward, and insert entries
 using a home computed from a possibly stale length. Each step is one atomic access; a run is any
 list of steps.
 */
module GrowProtocol {
  import opened Bits
  import opened LinearHashing

  /** What a thread does after moving the published length forward. */
  datatype Return = Finish | Resume(hash: nat, home: nat, shift: nat)

  datatype Thread =
    | Idle
    | Clamping
    | Waiting(slot: nat)
    | StoringOneHead(slot: nat)
    | CasingZeroHead(slot: nat)
    | LoadingLength(known: nat, ret: Return)
    | CheckingOldHome(known: nat, current: nat, ret: Return)
    | CasingLength(known: nat, current: nat, ret: Return)
    | LoadingHead(hash: nat, home: nat, shift: nat)
    | CasingHead(hash: nat, home: nat, shift: nat)
    | Inserted(hash: nat, home: nat, shift: nat)
    | Unexpected

  /**
   shift[i] is the shift stored in the head of slot i, 0 while the slot is unused. `done` records
   the grow slots whose split has published its new shift on both heads.
   */
  datatype State = State(length: nat, frontier: nat, shift: seq<nat>, done: set<nat>, threads: seq<Thread>)

  function OldOldHome(slot: nat): nat
    requires slot >= 2
  {
    BottomBits(slot, FloorLog2(slot) - 1)
  }

  function Set(s: State, t: nat, th: Thread): State
    requires t < |s.threads|
  {
    s.(threads := s.threads[t := th])
  }

  function Back(ret: Return): Thread {
    match ret
    case Finish => Idle
    case Resume(hash, home, shift) => LoadingHead(hash, home, shift)
  }

  /** Reading an index outside the table cannot happen (it is an invariant); the model reads 0. */
  function ShiftIn(s: State, i: nat): nat {
    if i < |s.shift| then s.shift[i] else 0
  }

  /** One atomic step of thread t; `lucky` decides a compare-and-swap that others may have spoilt. */
  function ThreadStep(s: State, t: nat, lucky: bool): State
    requires t < |s.threads|
  {
    match s.threads[t]
    case Idle | Inserted(_, _, _) | Unexpected => s
    case Clamping => Set(s, t, Idle).(frontier := |s.shift|)
    case Waiting(slot) =>
      if slot >= 2 && ShiftIn(s, OldOldHome(slot)) >= FloorLog2(slot) then Set(s, t, StoringOneHead(slot)) else s
    case StoringOneHead(slot) =>
      if 2 <= slot < |s.shift| then
        Set(s, t, CasingZeroHead(slot)).(shift := s.shift[slot := FloorLog2(slot) + 1])
      else s
    case CasingZeroHead(slot) =>
      if !lucky then Set(s, t, StoringOneHead(slot))
      else if slot >= 2 && SplitHome(slot) < |s.shift| && s.shift[SplitHome(slot)] == FloorLog2(slot) then
        Set(s, t, LoadingLength(slot, Finish))
          .(shift := s.shift[SplitHome(slot) := FloorLog2(slot) + 1], done := s.done + {slot})
      else Set(s, t, StoringOneHead(slot))
    case LoadingLength(known, ret) => Set(s, t, CatchUp(known, s.length, ret))
    case CheckingOldHome(known, current, ret) =>
      if current >= 2 && ShiftIn(s, SplitHome(current)) > FloorLog2(current)
      then Set(s, t, CasingLength(known, current, ret)) else Set(s, t, Back(ret))
    case CasingLength(known, current, ret) =>
      if s.length == current then Set(s, t, CatchUp(known, current + 1, ret)).(length := current + 1)
      else Set(s, t, CatchUp(known, s.length, ret))
    case LoadingHead(hash, home, shift) =>
      var found := ShiftIn(s, home);
      if found == shift then Set(s, t, CasingHead(hash, home, shift))
      else if found > shift then
        Set(s, t, LoadingLength(home + Pow2(shift), Resume(hash, home + BitValue(hash, shift), shift + 1)))
      else Set(s, t, Unexpected)
    case CasingHead(hash, home, shift) =>
      if lucky && ShiftIn(s, home) == shift then Set(s, t, Inserted(hash, home, shift))
      else Set(s, t, LoadingHead(hash, home, shift))
  }

  /** Top of the loop that moves the published length forward. */
  function CatchUp(known: nat, current: nat, ret: Return): Thread {
    if current > known then Back(ret)
    else if current < known then CheckingOldHome(known, current, ret)
    else CasingLength(known, current, ret)
  }

  function BeginGrow(s: State, t: nat): State
    requires t < |s.threads|
  {
    if s.threads[t] != Idle then s
    else if s.frontier >= |s.shift| then Set(s, t, Clamping).(frontier := s.frontier + 1)
    else Set(s, t, Waiting(s.frontier)).(frontier := s.frontier + 1)
  }

  function BeginInsert(s: State, t: nat, hash: nat): State
    requires t < |s.threads|
  {
    if s.threads[t] == Idle && s.length >= 2
    then Set(s, t, LoadingHead(hash, HomeIndex(s.length, hash), HomeShift(s.length, hash)))
    else s
  }

  datatype Action = Grow(t: nat) | Insert(t: nat, hash: nat) | Step(t: nat, lucky: bool)

  function Apply(s: State, a: Action): State {
    if a.t >= |s.threads| then s else
      match a
      case Grow(t) => BeginGrow(s, t)
      case Insert(t, hash) => BeginInsert(s, t, hash)
      case Step(t, lucky) => ThreadStep(s, t, lucky)
  }

  function Run(s: State, acts: seq<Action>): State {
    if acts == [] then s else Apply(Run(s, acts[..|acts| - 1]), acts[|acts| - 1])
  }

  /** A fresh table of `used` slots out of `capacity`, with any number of idle threads. */
  predicate Init(used: nat, s: State) {
    && 2 <= used == s.length == s.frontier <= |s.shift|
    && s.done == {}
    && (forall i :: 0 <= i < |s.shift| ==> s.shift[i] == if i < used then ShiftAt(used, i) else 0)
    && (forall t :: 0 <= t < |s.threads| ==> s.threads[t] == Idle)
  }

  /** The constructor's loop over the initial heads gives every home the shift its length asks for. */
  method PopulateHeads(heads: array<nat>, used: nat)
    requires 2 <= used <= heads.Length
    requires forall i :: 0 <= i < heads.Length ==> heads[i] == 0
    modifies heads
    ensures forall i :: 0 <= i < heads.Length ==> heads[i] == if i < used then ShiftAt(used, i) else 0
  {
    var minShift := FloorLog2(used);
    var major := Pow2(minShift);
    Pow2Doubles(minShift);
    for i := 0 to major
      invariant forall j :: 0 <= j < i ==> heads[j] == ShiftAt(used, j)
      invariant forall j :: i <= j < major ==> heads[j] == 0
      invariant forall j :: major <= j < used ==> heads[j] == if j < major + i then ShiftAt(used, j) else 0
      invariant forall j :: used <= j < heads.Length ==> heads[j] == 0
    {
      if major + i < used {
        heads[i] := minShift + 1;
        heads[major + i] := minShift + 1;
      } else {
        heads[i] := minShift;
      }
    }
  }

  // Invariant.

  ghost predicate Active(used: nat, done: set<nat>, i: nat) {
    i < used || i in done
  }

  ghost predicate Heads(used: nat, shift: seq<nat>, done: set<nat>) {
    && 2 <= used <= |shift|
    && (forall g :: g in done ==> used <= g < |shift|)
    && (forall g :: g in done ==> Active(used, done, SplitHome(g)))
    && (forall i :: 0 <= i < |shift| && Active(used, done, i) ==> shift[i] >= 1 && i < Pow2(shift[i]))
    && (forall i :: 0 <= i < |shift| && !Active(used, done, i) ==> shift[i] == 0 || shift[i] == FloorLog2(i) + 1)
    && Splits(used, shift, done)
  }

  /** A live home's shift says exactly which of its splits are done. */
  ghost predicate Splits(used: nat, shift: seq<nat>, done: set<nat>) {
    forall g :: g >= used >= 2 ==> SplitDone(used, shift, done, g)
  }

  ghost predicate SplitDone(used: nat, shift: seq<nat>, done: set<nat>, g: nat)
    requires g >= 2
  {
    SplitHome(g) < |shift| && Active(used, done, SplitHome(g)) ==>
      (g in done <==> shift[SplitHome(g)] > FloorLog2(g))
  }

  ghost predicate Published(used: nat, length: nat, shift: seq<nat>, done: set<nat>) {
    && 2 <= used <= length <= |shift|
    && (forall n :: used <= n < length ==> n in done)
    && (forall i :: 0 <= i < length ==> shift[i] >= ShiftAt(length, i))
  }

  /** Whether a thread still owes the publication of grow slot g. */
  ghost predicate Owns(th: Thread, g: nat) {
    (th.Waiting? || th.StoringOneHead? || th.CasingZeroHead?) && th.slot == g
  }

  ghost predicate HomeOk(used: nat, shift: seq<nat>, done: set<nat>, hash: nat, home: nat, s: nat) {
    && home < |shift| && Active(used, done, home)
    && home == BottomBits(hash, s)
    && s <= shift[home]
  }

  ghost predicate ReturnOk(used: nat, shift: seq<nat>, done: set<nat>, ret: Return) {
    ret.Resume? ==> HomeOk(used, shift, done, ret.hash, ret.home, ret.shift)
  }

  ghost predicate Waited(used: nat, shift: seq<nat>, done: set<nat>, g: nat)
    requires g >= 2
  {
    OldOldHome(g) < |shift| && Active(used, done, OldOldHome(g)) && shift[OldOldHome(g)] >= FloorLog2(g)
  }

  ghost predicate ThreadOk(used: nat, s: State, th: Thread) {
    match th
    case Idle | Inserted(_, _, _) => true
    case Clamping => s.frontier >= |s.shift|
    case Waiting(g) => 2 <= used <= g < s.frontier && g < |s.shift| && g !in s.done && s.shift[g] == 0
    case StoringOneHead(g) =>
      2 <= used <= g < s.frontier && g < |s.shift| && g !in s.done && Waited(used, s.shift, s.done, g)
    case CasingZeroHead(g) =>
      && 2 <= used <= g < s.frontier && g < |s.shift| && g !in s.done && Waited(used, s.shift, s.done, g)
      && s.shift[g] == FloorLog2(g) + 1
    case LoadingLength(known, ret) => Active(used, s.done, known) && ReturnOk(used, s.shift, s.done, ret)
    case CheckingOldHome(known, current, ret) =>
      && Active(used, s.done, known) && ReturnOk(used, s.shift, s.done, ret)
      && 2 <= used <= current < known && current <= s.length
    case CasingLength(known, current, ret) =>
      && Active(used, s.done, known) && ReturnOk(used, s.shift, s.done, ret)
      && 2 <= used <= current <= s.length && current in s.done
    case LoadingHead(hash, home, shift) => HomeOk(used, s.shift, s.done, hash, home, shift)
    case CasingHead(hash, home, shift) => HomeOk(used, s.shift, s.done, hash, home, shift)
    case Unexpected => false
  }

  ghost predicate Owners(threads: seq<Thread>) {
    forall t, u, g: nat :: 0 <= t < u < |threads| && Owns(threads[t], g) ==> !Owns(threads[u], g)
  }

  ghost predicate Unreserved(s: State) {
    && (forall g :: g in s.done ==> g < s.frontier)
    && (forall i :: s.frontier <= i < |s.shift| ==> s.shift[i] == 0)
  }

  ghost predicate Inv(used: nat, s: State) {
    && Heads(used, s.shift, s.done)
    && Published(used, s.length, s.shift, s.done)
    && used <= s.frontier
    && Unreserved(s)
    && Owners(s.threads)
    && (forall t :: 0 <= t < |s.threads| ==> ThreadOk(used, s, s.threads[t]))
  }

  // Arithmetic of split homes.

  lemma LogOfSum(o: nat, k: nat)
    requires o < Pow2(k)
    ensures o + Pow2(k) >= 1 && FloorLog2(o + Pow2(k)) == k && SplitHome(o + Pow2(k)) == o
  {
    Pow2Doubles(k);
    FloorLog2Unique(o + Pow2(k), k);
  }

  lemma LogPositive(g: nat)
    requires g >= 2
    ensures FloorLog2(g) >= 1
  {
  }

  lemma OldOldHomeIs(g: nat)
    requires g >= 2
    ensures FloorLog2(g) >= 1
    ensures var o, p := SplitHome(g), Pow2(FloorLog2(g) - 1);
            OldOldHome(g) < p && OldOldHome(g) == if o < p then o else o - p
  {
    hide FloorLog2, BottomBits, Pow2;
    LogPositive(g);
    var k, o := FloorLog2(g), SplitHome(g);
    BottomBitsAddPow(o, k);
    BottomBitsSmall(o, k);
    BottomBitsSplit(g, k - 1);
  }

  lemma LessThanPow2(i: nat, a: nat, b: nat)
    requires Pow2(a) <= i < Pow2(b)
    ensures a < b
  {
    if b <= a { Pow2Monotone(b, a); }
  }

  // Consequences of the invariant on heads.

  /** A home whose shift is past k has done its split number k, so the sibling is live too. */
  lemma SiblingActive(used: nat, shift: seq<nat>, done: set<nat>, i: nat, k: nat)
    requires Heads(used, shift, done) && i < |shift| && Active(used, done, i)
    requires i < Pow2(k) && k < shift[i]
    ensures Active(used, done, i + Pow2(k)) && i + Pow2(k) < |shift| && shift[i + Pow2(k)] >= k + 1
  {
    hide Pow2, FloorLog2;
    var g := i + Pow2(k);
    LogOfSum(i, k);
    if g >= used { assert SplitDone(used, shift, done, g); }
    LessThanPow2(g, k, shift[g]);
  }

  /** What waiting for the grandparent home establishes: the parent is live, with exactly the old shift. */
  lemma WaitedGivesParent(used: nat, shift: seq<nat>, done: set<nat>, g: nat)
    requires Heads(used, shift, done) && g >= used && g < |shift| && g !in done
    requires g >= 2 && Waited(used, shift, done, g)
    ensures var o := SplitHome(g); o < |shift| && Active(used, done, o) && shift[o] == FloorLog2(g)
  {
    hide Pow2, FloorLog2;
    var o, k := SplitHome(g), FloorLog2(g);
    OldOldHomeIs(g);
    if o >= Pow2(k - 1) { SiblingActive(used, shift, done, OldOldHome(g), k - 1); }
    assert SplitDone(used, shift, done, g);
  }

  lemma InactiveBelow(used: nat, shift: seq<nat>, done: set<nat>, g: nat)
    requires Heads(used, shift, done) && 2 <= used <= g < |shift|
    requires OldOldHome(g) < |shift| && shift[OldOldHome(g)] >= FloorLog2(g)
    ensures Waited(used, shift, done, g)
  {
    hide Pow2, FloorLog2;
    OldOldHomeIs(g);
    var oo, k := OldOldHome(g), FloorLog2(g);
    if !Active(used, done, oo) {
      LessThanPow2(oo, FloorLog2(oo), k - 1);
    }
  }
}
