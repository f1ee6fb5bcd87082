/**
 The strict capacity limit: with every operation strict, one fixed capacity and no table growth,
 the usage word never exceeds the capacity, in any interleaving.
 */
module StrictCapacity {
  import opened Options
  import opened Words
  import opened UsageAccounting
  import opened UsageTheorems

  predicate StrictAction(capacity: Word, a: Action) {
    && (a.Insert? || a.CreateStandalone? ==> a.strict && a.capacity == capacity)
    && !a.GrowTable?
  }

  predicate StrictRun(capacity: Word, acts: seq<Action>) {
    forall i :: 0 <= i < |acts| ==> StrictAction(capacity, acts[i])
  }

  ghost predicate StrictOk(capacity: Word, th: Thread) {
    match th
    case Charging(op, c, strict, _) => strict && c == capacity
    case Casing(op, c, _, seen) => c == capacity && seen <= capacity && op.charge <= capacity
    case Evicting(op, need, reserved, strict, _, _, _) => strict && reserved + need == op.charge
    case Settling(op, need, reserved, _, _, _) => reserved + need == op.charge
    case Adding(_, _) => false
    case FailedLoose(_) => false
    case ForcedAdding(_) => false
    case ChargingMetadata(_) => false
    case _ => true
  }

  ghost predicate StrictThreads(capacity: Word, threads: seq<Thread>) {
    forall t :: 0 <= t < |threads| ==> StrictOk(capacity, threads[t])
  }

  ghost predicate StrictInv(capacity: Word, s: State) {
    && Inv(s)
    && StrictThreads(capacity, s.threads)
    && TotalUsage(s) <= capacity
  }

  lemma {:induction false} InFlightBelowSum(capacity: Word, threads: seq<Thread>, t: nat)
    requires StrictThreads(capacity, threads) && t <= |threads|
    ensures UsageOf(threads) >= 0
    ensures t < |threads| ==> 0 <= UsageInFlight(threads[t]) <= UsageOf(threads)
  {
    if threads != [] { InFlightBelowSum(capacity, threads[1..], if t == 0 then 0 else t - 1); }
  }

  /** Everything is accounted for exactly, without wrapping. */
  lemma UsageIsExact(capacity: Word, s: State)
    requires StrictInv(capacity, s)
    ensures s.usage == TotalUsage(s) <= capacity
  {
    hide Same, UsageInFlight;
    InFlightBelowSum(capacity, s.threads, |s.threads|);
    SameWords(s.usage, TotalUsage(s));
  }

  /** A step that leaves the slots alone. */
  lemma ThreadMoves(capacity: Word, s: State, s': State, t: nat, th: Thread)
    requires StrictInv(capacity, s) && Inv(s') && t < |s.threads| && StrictOk(capacity, th)
    requires s'.threads == s.threads[t := th] && s'.metadata == s.metadata
    requires s'.slots == s.slots && s'.standalones == s.standalones
    requires UsageInFlight(th) <= UsageInFlight(s.threads[t]) + (capacity - TotalUsage(s))
    ensures StrictInv(capacity, s')
  {
    hide Inv, UsageInFlight, OccupancyInFlight, StandaloneInFlight, StrictOk, Charges;
    ThreadReplaced(s.threads, t, th);
  }

  /** Without wrapping, reservation and eviction request are plain differences. */
  lemma ReserveExact(capacity: Word, op: Op, needEvict: bool, seen: Word)
    requires capacity < WORD / 2 && seen <= capacity && op.charge <= capacity
    ensures var target := Min(capacity, Add(seen, op.charge)); var reserved := Add(target, -(seen as int));
            var th := AfterReserve(op, needEvict, seen, reserved);
            && seen <= target <= capacity && reserved == target - seen
            && StrictOk(capacity, th) && UsageInFlight(th) == reserved
  {
    var target := Min(capacity, Add(seen, op.charge));
    assert Add(seen, op.charge) == seen + op.charge;
    assert Add(target, -(seen as int)) == target - seen;
    assert Add(seen, target - seen) == target;
    assert Add(seen + op.charge, -(target as int)) == seen + op.charge - target;
  }

  lemma CasingStrict(capacity: Word, s: State, t: nat, lucky: bool)
    requires StrictInv(capacity, s) && capacity < WORD / 2 && t < |s.threads| && s.threads[t].Casing?
    ensures StrictInv(capacity, ThreadStep(s, t, lucky))
  {
    hide Inv, AfterReserve, TotalUsage, Add;
    var th := s.threads[t];
    var s' := ThreadStep(s, t, lucky);
    assert StrictOk(capacity, th);
    CasingKeeps(s, t, lucky);
    UsageIsExact(capacity, s);
    ReserveExact(capacity, th.op, th.needEvict, th.seen);
    ThreadMoves(capacity, s, s', t, s'.threads[t]);
  }

  lemma StepGivesBack(capacity: Word, s: State, t: nat, lucky: bool)
    requires t < |s.threads| && StrictOk(capacity, s.threads[t])
    requires !s.threads[t].Casing? && !s.threads[t].CreatingStandalone?
    ensures var s' := ThreadStep(s, t, lucky);
            && |s'.threads| == |s.threads| && s'.threads == s.threads[t := s'.threads[t]]
            && s'.metadata == s.metadata && s'.slots == s.slots && s'.standalones == s.standalones
            && (s' == s || (StrictOkNext(capacity, s.usage, s'.threads[t]) && UsageInFlight(s'.threads[t]) <= UsageInFlight(s.threads[t])))
  {
    hide Add;
  }

  ghost predicate StrictOkNext(capacity: Word, usage: Word, th: Thread) {
    usage <= capacity ==> StrictOk(capacity, th)
  }

  lemma ThreadStepStrict(capacity: Word, s: State, t: nat, lucky: bool)
    requires StrictInv(capacity, s) && capacity < WORD / 2 && t < |s.threads|
    requires !s.threads[t].Casing? && !s.threads[t].CreatingStandalone?
    ensures StrictInv(capacity, ThreadStep(s, t, lucky))
  {
    hide Inv, TotalUsage, ThreadStep, UsageInFlight, StrictOk;
    var s' := ThreadStep(s, t, lucky);
    assert StrictOk(capacity, s.threads[t]);
    StepKeeps(s, Step(t, lucky));
    UsageIsExact(capacity, s);
    StepGivesBack(capacity, s, t, lucky);
    if s' != s { ThreadMoves(capacity, s, s', t, s'.threads[t]); }
  }

  lemma CreatingStrict(capacity: Word, s: State, t: nat, lucky: bool)
    requires StrictInv(capacity, s) && t < |s.threads| && s.threads[t].CreatingStandalone?
    ensures StrictInv(capacity, ThreadStep(s, t, lucky))
  {
    hide Inv, Add, Charges;
    var th := s.threads[t];
    StepKeeps(s, Step(t, lucky));
    SlotAppended(s.standalones, Some(th.op.charge));
    ThreadReplaced(s.threads, t, Idle);
  }

  lemma EvictOneStrict(capacity: Word, s: State, t: nat, i: nat)
    requires StrictInv(capacity, s) && t < |s.threads| && s.threads[t].Evicting? && Holds(s.slots, i)
    ensures StrictInv(capacity, Apply(s, EvictOne(t, i)))
  {
    hide Inv, Charges;
    var th := s.threads[t];
    assert StrictOk(capacity, th);
    var s' := Apply(s, EvictOne(t, i));
    StepKeeps(s, EvictOne(t, i));
    SlotReplaced(s.slots, i, None);
    InFlightBelowSum(capacity, s.threads, t);
    assert Add(th.freed, s.slots[i].value) == th.freed + s.slots[i].value;
    ThreadReplaced(s.threads, t, s'.threads[t]);
  }

  lemma StartStrict(capacity: Word, s: State, a: Action)
    requires StrictInv(capacity, s) && a.t < |s.threads| && StrictAction(capacity, a)
    requires a.Insert? || a.CreateStandalone? || a.FindNoSlot?
    ensures StrictInv(capacity, Apply(s, a))
  {
    hide Inv, Charges, Add, OccupancyInFlight, StandaloneInFlight, Occupied;
    var s' := Apply(s, a);
    StepKeeps(s, a);
    if s' != s { ThreadReplaced(s.threads, a.t, s'.threads[a.t]); }
  }

  lemma SlotStrict(capacity: Word, s: State, a: Action)
    requires StrictInv(capacity, s) && a.t < |s.threads|
    requires a.PlaceInSlot? || a.TakeSlot? || a.TakeStandalone?
    ensures StrictInv(capacity, Apply(s, a))
  {
    hide Inv, Charges, Add, OccupancyInFlight, StandaloneInFlight, Occupied;
    var s' := Apply(s, a);
    var th := s.threads[a.t];
    StepKeeps(s, a);
    match a {
    case PlaceInSlot(_, i) => if th.Charged? && i < |s.slots| { SlotReplaced(s.slots, i, Some(th.op.charge)); }
    case TakeSlot(_, i) => if i < |s.slots| { SlotReplaced(s.slots, i, None); }
    case TakeStandalone(_, i) => if i < |s.standalones| { SlotReplaced(s.standalones, i, None); }
    }
    if s' != s { ThreadReplaced(s.threads, a.t, s'.threads[a.t]); }
  }

  lemma StrictStep(capacity: Word, s: State, a: Action)
    requires StrictInv(capacity, s) && capacity < WORD / 2 && StrictAction(capacity, a)
    ensures StrictInv(capacity, Apply(s, a))
  {
    hide StrictInv, ThreadStep, Inv, TotalUsage;
    if a.t < |s.threads| {
      if a.Step? {
        if s.threads[a.t].Casing? { CasingStrict(capacity, s, a.t, a.lucky); }
        else if s.threads[a.t].CreatingStandalone? { CreatingStrict(capacity, s, a.t, a.lucky); }
        else { ThreadStepStrict(capacity, s, a.t, a.lucky); }
      } else if a.EvictOne? {
        if s.threads[a.t].Evicting? && Holds(s.slots, a.slot) { EvictOneStrict(capacity, s, a.t, a.slot); }
      } else if a.Insert? || a.CreateStandalone? || a.FindNoSlot? {
        StartStrict(capacity, s, a);
      } else {
        SlotStrict(capacity, s, a);
      }
    }
  }

  lemma {:induction false} StrictRunKeeps(capacity: Word, s: State, acts: seq<Action>)
    requires Init(s) && capacity < WORD / 2 && s.metadata <= capacity && StrictRun(capacity, acts)
    ensures StrictInv(capacity, Run(s, acts))
  {
    hide Apply;
    if acts == [] {
      RunKeeps(s, []);
      EmptySums(s.slots);
      IdleSums(s.threads);
    } else {
      StrictRunKeeps(capacity, s, acts[..|acts| - 1]);
      StrictStep(capacity, Run(s, acts[..|acts| - 1]), acts[|acts| - 1]);
    }
  }

  /**
   The strict limit holds at every moment: usage is at most the capacity, and it is exactly the
   metadata plus all stored charges plus what is in flight, no part of which is negative.
   */
  lemma UsageNeverExceedsCapacity(capacity: Word, s: State, acts: seq<Action>)
    requires Init(s) && capacity < WORD / 2 && s.metadata <= capacity && StrictRun(capacity, acts)
    ensures var r := Run(s, acts);
            && r.usage == TotalUsage(r) <= capacity
            && r.metadata + Charges(r.slots) + Charges(r.standalones) <= r.usage
  {
    hide Run, UsageInFlight, Same;
    StrictRunKeeps(capacity, s, acts);
    UsageIsExact(capacity, Run(s, acts));
    InFlightBelowSum(capacity, Run(s, acts).threads, 0);
  }
}
