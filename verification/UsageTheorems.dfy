/** Conservation of usage and occupancy over every run, and the strict capacity bound. */
module UsageTheorems {
  import opened Options
  import opened Words
  import opened UsageAccounting

  /** Equal as machine words. */
  predicate Same(a: int, b: int) {
    (a - b) % WORD == 0
  }

  lemma AddSame(w: Word, x: int)
    ensures Same(Add(w, x), w + x)
  {
  }

  lemma SameWords(a: Word, b: int)
    requires Same(a, b) && 0 <= b < WORD
    ensures a == b
  {
  }

  lemma Multiple(a: int, b: int) returns (k: int)
    requires Same(a, b)
    ensures a - b == k * WORD
  {
    k := (a - b) / WORD;
  }

  lemma IsMultiple(a: int, b: int, k: int)
    requires a - b == k * WORD
    ensures Same(a, b)
  {
  }

  lemma SameSum(a: int, b: int, c: int, d: int)
    requires Same(a, b) && Same(c, d)
    ensures Same(a + c, b + d) && Same(a - c, b - d)
  {
    hide Same;
    var j := Multiple(a, b);
    var k := Multiple(c, d);
    IsMultiple(a + c, b + d, j + k);
    IsMultiple(a - c, b - d, j - k);
  }

  lemma SameTransitive(a: int, b: int, c: int)
    requires Same(a, b) && Same(b, c)
    ensures Same(a, c)
  {
    SameSum(a, b, b, c);
  }

  lemma SameReflexive(a: int)
    ensures Same(a, a)
  {
  }

  // Sums over slots and threads.

  lemma {:induction false} SlotReplaced(slots: seq<Option<Word>>, i: nat, o: Option<Word>)
    requires i < |slots|
    ensures Charges(slots[i := o]) == Charges(slots) - Charge(slots[i]) + Charge(o)
    ensures Occupied(slots[i := o]) ==
            Occupied(slots) - (if slots[i].Some? then 1 else 0) + (if o.Some? then 1 else 0)
    ensures Charge(slots[i]) <= Charges(slots)
  {
    if i == 0 {
      assert slots[i := o][1..] == slots[1..];
    } else {
      assert slots[i := o][1..] == slots[1..][i - 1 := o];
      SlotReplaced(slots[1..], i - 1, o);
    }
  }

  lemma {:induction false} SlotAppended(slots: seq<Option<Word>>, o: Option<Word>)
    ensures Charges(slots + [o]) == Charges(slots) + Charge(o)
  {
    if slots == [] {
      assert slots + [o] == [o];
    } else {
      assert (slots + [o])[1..] == slots[1..] + [o];
      SlotAppended(slots[1..], o);
    }
  }

  lemma {:induction false} ThreadReplaced(threads: seq<Thread>, t: nat, th: Thread)
    requires t < |threads|
    ensures UsageOf(threads[t := th]) == UsageOf(threads) - UsageInFlight(threads[t]) + UsageInFlight(th)
    ensures OccupancyOf(threads[t := th]) ==
            OccupancyOf(threads) - OccupancyInFlight(threads[t]) + OccupancyInFlight(th)
    ensures StandaloneOf(threads[t := th]) ==
            StandaloneOf(threads) - StandaloneInFlight(threads[t]) + StandaloneInFlight(th)
  {
    hide UsageInFlight, OccupancyInFlight, StandaloneInFlight;
    if t == 0 {
      assert threads[t := th][1..] == threads[1..];
    } else {
      assert threads[t := th][1..] == threads[1..][t - 1 := th];
      ThreadReplaced(threads[1..], t - 1, th);
    }
  }

  // Invariant.

  ghost predicate ThreadOk(th: Thread) {
    match th
    case Evicting(op, need, reserved, strict, needEvict, freed, count) =>
      && (strict ==> Same(reserved + need, op.charge))
      && (!strict ==> reserved == 0)
      && (count == 0 ==> freed == 0)
      && (need > 0 || needEvict)
    case Settling(op, need, reserved, needEvict, freed, count) =>
      && Same(reserved + need, op.charge)
      && (count == 0 ==> freed == 0)
      && (need > 0 || needEvict)
    case _ => true
  }

  ghost predicate Balanced(s: State) {
    && Same(s.usage, TotalUsage(s))
    && Same(s.occupancy, TotalOccupancy(s))
    && Same(s.standaloneUsage, TotalStandalone(s))
  }

  ghost predicate Inv(s: State) {
    && Balanced(s)
    && forall t :: 0 <= t < |s.threads| ==> ThreadOk(s.threads[t])
  }

  /** One thread moves; the counters must move by what the accounted amounts do. */
  lemma Rebalance(s: State, s': State, t: nat, usage: int, occupancy: int, standalone: int)
    requires Inv(s) && t < |s.threads| && |s'.threads| == |s.threads|
    requires s'.threads == s.threads[t := s'.threads[t]] && ThreadOk(s'.threads[t])
    requires usage ==
             (s'.metadata + Charges(s'.slots) + Charges(s'.standalones) + UsageInFlight(s'.threads[t]))
             - (s.metadata + Charges(s.slots) + Charges(s.standalones) + UsageInFlight(s.threads[t]))
    requires occupancy ==
             (Occupied(s'.slots) + OccupancyInFlight(s'.threads[t]))
             - (Occupied(s.slots) + OccupancyInFlight(s.threads[t]))
    requires standalone ==
             (Charges(s'.standalones) + StandaloneInFlight(s'.threads[t]))
             - (Charges(s.standalones) + StandaloneInFlight(s.threads[t]))
    requires Same(s'.usage, s.usage + usage)
    requires Same(s'.occupancy, s.occupancy + occupancy)
    requires Same(s'.standaloneUsage, s.standaloneUsage + standalone)
    ensures Inv(s')
  {
    hide Charges, Occupied, UsageInFlight, OccupancyInFlight, StandaloneInFlight, UsageOf, OccupancyOf, StandaloneOf, Same, ThreadOk;
    ThreadReplaced(s.threads, t, s'.threads[t]);
    Shifted(s.usage, TotalUsage(s), s'.usage, usage);
    Shifted(s.occupancy, TotalOccupancy(s), s'.occupancy, occupancy);
    Shifted(s.standaloneUsage, TotalStandalone(s), s'.standaloneUsage, standalone);
  }

  lemma Shifted(w: int, total: int, w': int, d: int)
    requires Same(w, total) && Same(w', w + d)
    ensures Same(w', total + d)
  {
    hide Same;
    SameReflexive(d);
    SameSum(w, total, d, d);
    SameTransitive(w', w + d, total + d);
  }

  /** The strict reservation plus what eviction must still free is the charge. */
  lemma NeedOk(charge: Word, seen: Word, reserved: Word)
    ensures var need := Add(Add(seen, charge), -(Add(seen, reserved) as int)); Same(reserved + need, charge)
  {
    hide Same, Add;
    var wanted: Word, target: Word := Add(seen, charge), Add(seen, reserved);
    var need := Add(wanted, -(target as int));
    AddSame(seen, charge);
    AddSame(seen, reserved);
    AddSame(wanted, -(target as int));
    SameSum(wanted, seen + charge, target, seen + reserved);
    SameTransitive(need, (wanted as int) - (target as int), (charge as int) - (reserved as int));
    SameReflexive(reserved);
    SameSum(reserved, reserved, need, (charge as int) - (reserved as int));
  }

  lemma ReserveOk(op: Op, needEvict: bool, seen: Word, reserved: Word)
    ensures var th := AfterReserve(op, needEvict, seen, reserved);
            && ThreadOk(th) && Same(reserved, UsageInFlight(th))
            && OccupancyInFlight(th) == SlotWanted(op) && StandaloneInFlight(th) == 0
  {
    hide Same, Add;
    NeedOk(op.charge, seen, reserved);
    SameReflexive(reserved);
  }

  lemma CasingKeeps(s: State, t: nat, lucky: bool)
    requires Inv(s) && t < |s.threads| && s.threads[t].Casing?
    ensures Inv(ThreadStep(s, t, lucky))
  {
    hide AfterReserve, Charges, Occupied, TotalUsage, TotalOccupancy, TotalStandalone, Same, Add, ThreadOk;
    var th := s.threads[t];
    var s' := ThreadStep(s, t, lucky);
    var target := Min(th.capacity, Add(th.seen, th.op.charge));
    var reserved := Add(target, -(th.seen as int));
    SameReflexive(s.occupancy);
    SameReflexive(s.usage);
    SameReflexive(s.standaloneUsage);
    ReserveOk(th.op, th.needEvict, th.seen, 0);
    ReserveOk(th.op, th.needEvict, th.seen, reserved);
    AddSame(target, -(th.seen as int));
    CasingUsage(s, t, lucky);
    assert ThreadOk(s'.threads[t]) by { if s'.threads[t].Casing? { CasingOk(s'.threads[t]); } }
    Rebalance(s, s', t, UsageInFlight(s'.threads[t]), 0, 0);
  }

  lemma CasingOk(th: Thread)
    requires th.Casing?
    ensures ThreadOk(th) && UsageInFlight(th) == 0
  {
  }

  lemma CasingUsage(s: State, t: nat, lucky: bool)
    requires t < |s.threads| && s.threads[t].Casing?
    ensures var s' := ThreadStep(s, t, lucky); Same(s'.usage, s.usage + UsageInFlight(s'.threads[t]))
  {
    hide AfterReserve, Same, Add;
    var th := s.threads[t];
    var s' := ThreadStep(s, t, lucky);
    var target := Min(th.capacity, Add(th.seen, th.op.charge));
    var reserved := Add(target, -(th.seen as int));
    var flight := UsageInFlight(s'.threads[t]);
    SameReflexive(s.usage);
    if target == th.seen {
      ReserveOk(th.op, th.needEvict, th.seen, 0);
      SameSum(s.usage, s.usage, 0, flight);
    } else if lucky && s.usage == th.seen {
      ReserveOk(th.op, th.needEvict, th.seen, reserved);
      AddSame(target, -(th.seen as int));
      SameFlip(reserved, target - th.seen);
      SameTransitive(target - th.seen, reserved, flight);
      SameSum(s.usage, s.usage, target - th.seen, flight);
    }
  }

  lemma SameFlip(a: int, b: int)
    requires Same(a, b)
    ensures Same(b, a)
  {
    SameReflexive(b + a);
    SameSum(b + a, b + a, a, b);
  }

  lemma SettlingKeeps(s: State, t: nat, lucky: bool)
    requires Inv(s) && t < |s.threads| && s.threads[t].Settling?
    ensures Inv(ThreadStep(s, t, lucky))
  {
    hide Charges, Occupied, TotalUsage, TotalOccupancy, TotalStandalone, Same, Add;
    var th := s.threads[t];
    var s' := ThreadStep(s, t, lucky);
    SameReflexive(s.occupancy);
    SameReflexive(s.standaloneUsage);
    assert ThreadOk(th);
    SettlingUsage(s.usage, th);
    AddSame(s.usage, -(th.freed + th.reserved));
    Rebalance(s, s', t, UsageInFlight(s'.threads[t]) - UsageInFlight(th), 0, 0);
  }

  lemma SettlingUsage(usage: Word, th: Thread)
    requires th.Settling? && ThreadOk(th)
    ensures Same(Add(usage, th.need - th.freed), usage + (th.op.charge - (th.reserved + th.freed)))
    ensures th.freed == th.need ==> Same(usage, usage + (th.op.charge - (th.reserved + th.freed)))
  {
    hide Same, Add;
    var x, total := th.need - th.freed, th.reserved + th.freed;
    AddSame(usage, x);
    SameReflexive(usage);
    SameReflexive(total);
    SameSum(th.reserved + th.need, th.op.charge, total, total);
    SameSum(usage, usage, x, th.op.charge - total);
    SameTransitive(Add(usage, x), usage + x, usage + (th.op.charge - total));
  }

  lemma EvictedKeeps(s: State, t: nat, lucky: bool)
    requires Inv(s) && t < |s.threads| && s.threads[t].Evicting?
    ensures Inv(ThreadStep(s, t, lucky))
  {
    hide Charges, Occupied, TotalUsage, TotalOccupancy, TotalStandalone, Same, Add;
    var th := s.threads[t];
    assert ThreadOk(th);
    var s' := ThreadStep(s, t, lucky);
    SameReflexive(s.usage);
    SameReflexive(s.occupancy);
    SameReflexive(s.standaloneUsage);
    AddSame(s.occupancy, -(th.count as int));
    Rebalance(s, s', t, 0, if s'.threads[t].FailedLoose? then 0 else -(th.count as int), 0);
  }

  /**
   The non-strict policy, where the sums do not wrap: it asks for nothing if the charge fits or is
   larger than what is in use; otherwise evicting what it asks for makes up for the charge, and
   brings the usage down if it was over the capacity.
   */
  lemma LooseNeedMakesRoom(op: Op, usage: Word, capacity: Word, needEvict: bool)
    requires usage + 2 * op.charge + 1 < WORD
    ensures var need := LooseNeed(op, usage, capacity, needEvict);
            if usage + op.charge <= capacity || op.charge > usage
            then need == if needEvict then 1 else 0
            else need >= op.charge && (usage > capacity ==> need > op.charge) && need <= 2 * op.charge + 1
  {
  }

  lemma ChargingKeeps(s: State, t: nat, lucky: bool)
    requires Inv(s) && t < |s.threads| && s.threads[t].Charging?
    ensures Inv(ThreadStep(s, t, lucky))
  {
    hide Charges, Occupied, TotalUsage, TotalOccupancy, TotalStandalone, Same, Add;
    SameReflexive(s.usage);
    SameReflexive(s.occupancy);
    SameReflexive(s.standaloneUsage);
    Rebalance(s, ThreadStep(s, t, lucky), t, 0, 0, 0);
  }

  /** The steps that touch no slot: the counters move by the thread's own amounts. */
  lemma OtherStepKeeps(s: State, t: nat, lucky: bool)
    requires Inv(s) && t < |s.threads|
    requires var th := s.threads[t]; !th.Charging? && !th.Casing? && !th.Evicting? && !th.Settling?
    ensures Inv(ThreadStep(s, t, lucky))
  {
    hide Charges, Occupied, TotalUsage, TotalOccupancy, TotalStandalone, Add, ThreadOk, Same;
    var th := s.threads[t];
    var s' := ThreadStep(s, t, lucky);
    var th' := s'.threads[t];
    assert ThreadOk(th') by { OtherThreadOk(s, t, lucky); }
    AddSame(s.occupancy, -1);
    SameReflexive(s.usage);
    SameReflexive(s.occupancy);
    SameReflexive(s.standaloneUsage);
    if th.CreatingStandalone? {
      AddSame(s.standaloneUsage, th.op.charge);
      SlotAppended(s.standalones, Some(th.op.charge));
      Rebalance(s, s', t, 0, 0, th.op.charge);
    } else {
      AddSame(s.usage, UsageInFlight(th') - UsageInFlight(th));
      AddSame(s.standaloneUsage, -(StandaloneInFlight(th) as int));
      Rebalance(s, s', t, UsageInFlight(th') - UsageInFlight(th),
                OccupancyInFlight(th') - OccupancyInFlight(th), -(StandaloneInFlight(th) as int));
    }
  }

  lemma OtherThreadOk(s: State, t: nat, lucky: bool)
    requires t < |s.threads|
    requires var th := s.threads[t]; !th.Charging? && !th.Casing? && !th.Evicting? && !th.Settling?
    ensures ThreadOk(ThreadStep(s, t, lucky).threads[t])
  {
  }

  lemma EvictOneKeeps(s: State, t: nat, i: nat)
    requires Inv(s) && t < |s.threads| && s.threads[t].Evicting? && Holds(s.slots, i)
    ensures Inv(Apply(s, EvictOne(t, i)))
  {
    hide Charges, Occupied, TotalUsage, TotalOccupancy, TotalStandalone, Add, Same;
    var th := s.threads[t];
    assert ThreadOk(th);
    var charge := s.slots[i].value;
    var s' := Apply(s, EvictOne(t, i));
    SlotReplaced(s.slots, i, None);
    AddSame(th.freed, charge);
    SameReflexive(s.usage);
    SameReflexive(s.occupancy);
    SameReflexive(s.standaloneUsage);
    var d := Add(th.freed, charge) - (th.freed + charge);
    SameReflexive(th.freed + charge);
    SameSum(Add(th.freed, charge), th.freed + charge, th.freed + charge, th.freed + charge);
    SameFlip(d, 0);
    SameSum(s.usage, s.usage, 0, d);
    Rebalance(s, s', t, d, 0, 0);
  }

  lemma ActionKeeps(s: State, a: Action)
    requires Inv(s) && a.t < |s.threads| && !a.Step? && !a.EvictOne?
    ensures Inv(Apply(s, a))
  {
    hide Charges, Occupied, TotalUsage, TotalOccupancy, TotalStandalone, Add, Same;
    var th := s.threads[a.t];
    var s' := Apply(s, a);
    SameReflexive(s.usage);
    SameReflexive(s.occupancy);
    SameReflexive(s.standaloneUsage);
    AddSame(s.occupancy, 1);
    match a {
    case PlaceInSlot(_, i) => if th.Charged? && i < |s.slots| { SlotReplaced(s.slots, i, Some(th.op.charge)); }
    case TakeSlot(_, i) => if i < |s.slots| { SlotReplaced(s.slots, i, None); }
    case TakeStandalone(_, i) => if i < |s.standalones| { SlotReplaced(s.standalones, i, None); }
    case _ =>
    }
    if s' != s { Rebalance(s, s', a.t, 0, if a.Insert? then 1 else 0, 0); }
  }

  lemma StepKeeps(s: State, a: Action)
    requires Inv(s)
    ensures Inv(Apply(s, a))
  {
    hide Inv, ThreadStep;
    if a.t < |s.threads| {
      if a.Step? {
        match s.threads[a.t]
        case Charging(_, _, _, _) => ChargingKeeps(s, a.t, a.lucky);
        case Casing(_, _, _, _) => CasingKeeps(s, a.t, a.lucky);
        case Evicting(_, _, _, _, _, _, _) => EvictedKeeps(s, a.t, a.lucky);
        case Settling(_, _, _, _, _, _) => SettlingKeeps(s, a.t, a.lucky);
        case _ => OtherStepKeeps(s, a.t, a.lucky);
      } else if a.EvictOne? {
        if s.threads[a.t].Evicting? && Holds(s.slots, a.slot) { EvictOneKeeps(s, a.t, a.slot); }
      } else {
        ActionKeeps(s, a);
      }
    }
  }

  lemma {:induction false} EmptySums(slots: seq<Option<Word>>)
    requires forall i :: 0 <= i < |slots| ==> slots[i] == None
    ensures Charges(slots) == 0 && Occupied(slots) == 0
  {
    if slots != [] { EmptySums(slots[1..]); }
  }

  lemma {:induction false} IdleSums(threads: seq<Thread>)
    requires forall t :: 0 <= t < |threads| ==> threads[t] == Idle
    ensures UsageOf(threads) == 0 && OccupancyOf(threads) == 0 && StandaloneOf(threads) == 0
  {
    if threads != [] { IdleSums(threads[1..]); }
  }

  lemma {:induction false} RunKeeps(s: State, acts: seq<Action>)
    requires Init(s)
    ensures Inv(Run(s, acts))
  {
    hide Apply;
    if acts == [] {
      EmptySums(s.slots);
      IdleSums(s.threads);
    } else {
      RunKeeps(s, acts[..|acts| - 1]);
      StepKeeps(Run(s, acts[..|acts| - 1]), acts[|acts| - 1]);
    }
  }

  /**
   In every interleaving the usage word is the metadata plus the charges of all occupied slots and
   standalone handles plus what the threads have in flight; likewise the occupancy and the
   standalone usage.
   */
  lemma UsageIsConserved(s: State, acts: seq<Action>)
    requires Init(s)
    ensures var r := Run(s, acts);
            && r.usage == TotalUsage(r) % WORD
            && r.occupancy == TotalOccupancy(r) % WORD
            && r.standaloneUsage == TotalStandalone(r) % WORD
  {
    hide Run, TotalUsage, TotalOccupancy, TotalStandalone;
    RunKeeps(s, acts);
  }

  /** With no operation under way, nothing is in flight. */
  lemma UsageAtRest(s: State, acts: seq<Action>)
    requires Init(s)
    requires forall t :: 0 <= t < |Run(s, acts).threads| ==> Run(s, acts).threads[t] == Idle
    ensures var r := Run(s, acts);
            && r.usage == (r.metadata + Charges(r.slots) + Charges(r.standalones)) % WORD
            && r.occupancy == Occupied(r.slots) % WORD
            && r.standaloneUsage == Charges(r.standalones) % WORD
  {
    hide Run, Charges, Occupied;
    UsageIsConserved(s, acts);
    IdleSums(Run(s, acts).threads);
  }
}
