/**
 How the clock tables account for memory and slots. The counters are machine words that any number
 of threads update with separate atomic steps; the amounts a thread has reserved, freed or not yet
 given back are visible in its own state. A run is any list of steps.
 */
module UsageAccounting {
  import opened Options
  import opened Words

  /** An insertion into the table, or (table == false) the creation of a standalone handle. */
  datatype Op = Op(charge: Word, handle: bool, table: bool, allowUncharged: bool)

  datatype Thread =
    | Idle
    | Charging(op: Op, capacity: Word, strict: bool, needEvict: bool)
    | Casing(op: Op, capacity: Word, needEvict: bool, seen: Word)
    | Evicting(op: Op, need: Word, reserved: Word, strict: bool, needEvict: bool, freed: Word, count: nat)
    | Settling(op: Op, need: Word, reserved: Word, needEvict: bool, freed: Word, count: nat)
    | Adding(op: Op, freed: Word)
    | FailedStrict(op: Op)
    | FailedLoose(op: Op)
    | ForcedAdding(op: Op)
    | Charged(op: Op)
    | NotInserted(op: Op)
    | Uncharging(op: Op)
    | CreatingStandalone(op: Op)
    | Reclaiming(charge: Word)
    | ReclaimingUsage(charge: Word)
    | FreeingStandalone(charge: Word)
    | FreeingStandaloneUsage(charge: Word)
    | ChargingMetadata(size: Word)

  /** Counters, then what they account for: charges by slot (None if empty) and by standalone handle. */
  datatype State = State(
    usage: Word,
    occupancy: Word,
    standaloneUsage: Word,
    metadata: nat,
    slots: seq<Option<Word>>,
    standalones: seq<Option<Word>>,
    threads: seq<Thread>)

  function Set(s: State, t: nat, th: Thread): State
    requires t < |s.threads|
  {
    s.(threads := s.threads[t := th])
  }

  function Min(a: nat, b: nat): nat {
    if a < b then a else b
  }

  /** Once the strict reservation is made: how much is still missing decides whether to evict. */
  function AfterReserve(op: Op, needEvict: bool, seen: Word, reserved: Word): Thread {
    var need := Add(Add(seen, op.charge), -(Add(seen, reserved) as int));
    if need == 0 && !needEvict then Charged(op)
    else Evicting(op, need, reserved, true, needEvict, 0, 0)
  }

  function CasingStep(s: State, t: nat, th: Thread, lucky: bool): State
    requires t < |s.threads| && th.Casing?
  {
    var target := Min(th.capacity, Add(th.seen, th.op.charge));
    if target == th.seen then Set(s, t, AfterReserve(th.op, th.needEvict, th.seen, 0))
    else if lucky && s.usage == th.seen then
      Set(s, t, AfterReserve(th.op, th.needEvict, th.seen, Add(target, -(th.seen as int)))).(usage := target)
    else Set(s, t, Casing(th.op, th.capacity, th.needEvict, s.usage))
  }

  /** The amount the non-strict policy asks eviction for. */
  function LooseNeed(op: Op, usage: Word, capacity: Word, needEvict: bool): Word {
    var need :=
      if Add(usage, op.charge) <= capacity || op.charge > usage then 0
      else if usage > capacity then Add(op.charge, Min(capacity / 1024, op.charge) + 1)
      else op.charge;
    if needEvict && need == 0 then 1 else need
  }

  function ChargingStep(s: State, t: nat, th: Thread): State
    requires t < |s.threads| && th.Charging?
  {
    var Charging(op, capacity, strict, needEvict) := th;
    if strict then
      Set(s, t, if op.charge > capacity then FailedStrict(op) else Casing(op, capacity, needEvict, s.usage))
    else
      var need := LooseNeed(op, s.usage, capacity, needEvict);
      Set(s, t, if need == 0 then Adding(op, 0) else Evicting(op, need, 0, false, needEvict, 0, 0))
  }

  /** Eviction has ended; the entries it freed leave the occupancy count. */
  function EvictedStep(s: State, t: nat, th: Thread): State
    requires t < |s.threads| && th.Evicting?
  {
    if !th.strict && th.needEvict && th.count == 0 then Set(s, t, FailedLoose(th.op))
    else
      Set(s, t, if th.strict then Settling(th.op, th.need, th.reserved, th.needEvict, th.freed, th.count)
                else Adding(th.op, th.freed))
        .(occupancy := Add(s.occupancy, -(th.count as int)))
  }

  function SettlingStep(s: State, t: nat, th: Thread): State
    requires t < |s.threads| && th.Settling?
  {
    if th.freed > th.need then Set(s, t, Charged(th.op)).(usage := Add(s.usage, th.need - th.freed))
    else if th.freed < th.need || (th.needEvict && th.count == 0) then
      Set(s, t, FailedStrict(th.op)).(usage := Add(s.usage, -(th.freed + th.reserved)))
    else Set(s, t, Charged(th.op))
  }

  /** The next atomic step of a thread; `lucky` says whether a CAS or the insertion succeeds. */
  function ThreadStep(s: State, t: nat, lucky: bool): State
    requires t < |s.threads|
  {
    var th := s.threads[t];
    match th
    case Idle => s
    case Charging(_, _, _, _) => ChargingStep(s, t, th)
    case Casing(_, _, _, _) => CasingStep(s, t, th, lucky)
    case Evicting(_, _, _, _, _, _, _) => EvictedStep(s, t, th)
    case Settling(_, _, _, _, _, _) => SettlingStep(s, t, th)
    case Adding(op, freed) => Set(s, t, Charged(op)).(usage := Add(s.usage, op.charge - freed))
    case FailedStrict(op) =>
      if op.table then Set(s, t, Idle).(occupancy := Add(s.occupancy, -1))
      else Set(s, t, if op.allowUncharged then CreatingStandalone(op.(charge := 0)) else Idle)
    case FailedLoose(op) =>
      if op.table then Set(s, t, if op.handle then ForcedAdding(op) else Idle).(occupancy := Add(s.occupancy, -1))
      else Set(s, t, ForcedAdding(op))
    case ForcedAdding(op) => Set(s, t, CreatingStandalone(op)).(usage := Add(s.usage, op.charge))
    case Charged(op) => if op.table then s else Set(s, t, CreatingStandalone(op))
    case NotInserted(op) =>
      Set(s, t, if op.handle then CreatingStandalone(op) else Uncharging(op)).(occupancy := Add(s.occupancy, -1))
    case Uncharging(op) => Set(s, t, Idle).(usage := Add(s.usage, -(op.charge as int)))
    case CreatingStandalone(op) =>
      Set(s, t, Idle).(standaloneUsage := Add(s.standaloneUsage, op.charge), standalones := s.standalones + [Some(op.charge)])
    case Reclaiming(charge) => Set(s, t, ReclaimingUsage(charge)).(occupancy := Add(s.occupancy, -1))
    case ReclaimingUsage(charge) => Set(s, t, Idle).(usage := Add(s.usage, -(charge as int)))
    case FreeingStandalone(charge) =>
      Set(s, t, FreeingStandaloneUsage(charge)).(standaloneUsage := Add(s.standaloneUsage, -(charge as int)))
    case FreeingStandaloneUsage(charge) => Set(s, t, Idle).(usage := Add(s.usage, -(charge as int)))
    case ChargingMetadata(size) => Set(s, t, Idle).(usage := Add(s.usage, size))
  }

  datatype Action =
    | Insert(t: nat, charge: Word, handle: bool, capacity: Word, strict: bool, needEvict: bool)
    | CreateStandalone(t: nat, charge: Word, allowUncharged: bool, capacity: Word, strict: bool)
    | Step(t: nat, lucky: bool)
    | EvictOne(t: nat, slot: nat)
    | PlaceInSlot(t: nat, slot: nat)
    | FindNoSlot(t: nat)
    | TakeSlot(t: nat, slot: nat)
    | TakeStandalone(t: nat, handle_: nat)
    | GrowTable(t: nat, size: Word)

  predicate Holds(slots: seq<Option<Word>>, i: nat) {
    i < |slots| && slots[i].Some?
  }

  function OneMoreEvicted(th: Thread, charge: Word): Thread
    requires th.Evicting?
  {
    var Evicting(op, need, reserved, strict, needEvict, freed, count) := th;
    Evicting(op, need, reserved, strict, needEvict, Add(freed, charge), count + 1)
  }

  function Apply(s: State, a: Action): State {
    if a.t >= |s.threads| then s else
      var t := a.t;
      var th := s.threads[t];
      match a
      case Insert(_, charge, handle, capacity, strict, needEvict) =>
        if th.Idle? then
          Set(s, t, Charging(Op(charge, handle, true, false), capacity, strict, needEvict))
            .(occupancy := Add(s.occupancy, 1))
        else s
      case CreateStandalone(_, charge, allowUncharged, capacity, strict) =>
        if th.Idle? then Set(s, t, Charging(Op(charge, true, false, allowUncharged), capacity, strict, false)) else s
      case Step(_, lucky) => ThreadStep(s, t, lucky)
      case EvictOne(_, i) =>
        if th.Evicting? && Holds(s.slots, i) then
          Set(s, t, OneMoreEvicted(th, s.slots[i].value)).(slots := s.slots[i := None])
        else s
      case PlaceInSlot(_, i) =>
        if th.Charged? && th.op.table && i < |s.slots| && s.slots[i].None? then
          Set(s, t, Idle).(slots := s.slots[i := Some(th.op.charge)])
        else s
      case FindNoSlot(_) => if th.Charged? && th.op.table then Set(s, t, NotInserted(th.op)) else s
      case TakeSlot(_, i) =>
        if th.Idle? && Holds(s.slots, i) then
          Set(s, t, Reclaiming(s.slots[i].value)).(slots := s.slots[i := None])
        else s
      case TakeStandalone(_, i) =>
        if th.Idle? && Holds(s.standalones, i) then
          Set(s, t, FreeingStandalone(s.standalones[i].value)).(standalones := s.standalones[i := None])
        else s
      case GrowTable(_, size) =>
        if th.Idle? then Set(s, t, ChargingMetadata(size)).(metadata := s.metadata + size) else s
  }

  function Run(s: State, acts: seq<Action>): State {
    if acts == [] then s else Apply(Run(s, acts[..|acts| - 1]), acts[|acts| - 1])
  }

  predicate Init(s: State) {
    && s.occupancy == 0 && s.standaloneUsage == 0 && s.usage == s.metadata
    && (forall i :: 0 <= i < |s.slots| ==> s.slots[i] == None)
    && s.standalones == []
    && (forall t :: 0 <= t < |s.threads| ==> s.threads[t] == Idle)
  }

  // What the counters should amount to.

  function Charge(o: Option<Word>): nat {
    match o
    case None => 0
    case Some(c) => c
  }

  function Charges(slots: seq<Option<Word>>): nat {
    if slots == [] then 0 else Charge(slots[0]) + Charges(slots[1..])
  }

  function Occupied(slots: seq<Option<Word>>): nat {
    if slots == [] then 0 else (if slots[0].Some? then 1 else 0) + Occupied(slots[1..])
  }

  /** Usage a thread has added, or still owes subtracting, beyond what is stored anywhere. */
  function UsageInFlight(th: Thread): int {
    match th
    case Evicting(_, _, reserved, _, _, freed, _) => reserved + freed
    case Settling(_, _, reserved, _, freed, _) => reserved + freed
    case Adding(_, freed) => freed
    case Charged(op) => op.charge
    case NotInserted(op) => op.charge
    case Uncharging(op) => op.charge
    case CreatingStandalone(op) => op.charge
    case Reclaiming(charge) => charge
    case ReclaimingUsage(charge) => charge
    case FreeingStandalone(charge) => charge
    case FreeingStandaloneUsage(charge) => charge
    case ChargingMetadata(size) => -(size as int)
    case _ => 0
  }

  function SlotWanted(op: Op): nat {
    if op.table then 1 else 0
  }

  function OccupancyInFlight(th: Thread): nat {
    match th
    case Charging(op, _, _, _) => SlotWanted(op)
    case Casing(op, _, _, _) => SlotWanted(op)
    case Evicting(op, _, _, _, _, _, count) => SlotWanted(op) + count
    case Settling(op, _, _, _, _, _) => SlotWanted(op)
    case Adding(op, _) => SlotWanted(op)
    case FailedStrict(op) => SlotWanted(op)
    case FailedLoose(op) => SlotWanted(op)
    case Charged(op) => SlotWanted(op)
    case NotInserted(_) => 1
    case Reclaiming(_) => 1
    case _ => 0
  }

  function StandaloneInFlight(th: Thread): nat {
    if th.FreeingStandalone? then th.charge else 0
  }

  function UsageOf(threads: seq<Thread>): int {
    if threads == [] then 0 else UsageInFlight(threads[0]) + UsageOf(threads[1..])
  }

  function OccupancyOf(threads: seq<Thread>): nat {
    if threads == [] then 0 else OccupancyInFlight(threads[0]) + OccupancyOf(threads[1..])
  }

  function StandaloneOf(threads: seq<Thread>): nat {
    if threads == [] then 0 else StandaloneInFlight(threads[0]) + StandaloneOf(threads[1..])
  }

  function TotalUsage(s: State): int {
    s.metadata + Charges(s.slots) + Charges(s.standalones) + UsageOf(s.threads)
  }

  function TotalOccupancy(s: State): nat {
    Occupied(s.slots) + OccupancyOf(s.threads)
  }

  function TotalStandalone(s: State): nat {
    Charges(s.standalones) + StandaloneOf(s.threads)
  }
}
