/**
 One slot of a clock table, used by any number of concurrent agents. An agent is one operation
 working on the slot, or one handle in a user's hands. Every atomic access to the slot's meta word
 is one step; between two steps of an agent the others may do anything.
 */
module SlotProtocol {
  import opened Words
  import opened MetaWord

  datatype Priority = High | Low | Bottom

  function InitialCountdown(p: Priority): (n: nat)
    ensures 1 <= n <= MAX_COUNTDOWN
  {
    match p
    case High => 3
    case Low => 2
    case Bottom => 1
  }

  /**
   What an agent is about to do. `gen` numbers the entry it holds a reference on; `seen` is a meta
   word it read earlier.
   */
  datatype Agent =
    | Idle
    | User(key: nat, gen: nat)
    | Looking(key: nat, gen: nat)
    | MarkingHit(key: nat, gen: nat)
    | Visiting(gen: nat)
    | Undoing(gen: nat, count: nat)
    | Releasing(seen: Word)
    | Correcting(seen: Word)
    | CorrectingFirst(seen: Word)
    | LoadingMeta
    | TryErasing(seen: Word)
    | ErasingHeld(key: nat, gen: nat)
    | ErasingLoop(gen: nat, seen: Word)
    | ClockUpdating(seen: Word)
    | EvictingUnreferenced(seen: Word)
    | Probing(key: nat, count: nat)
    | ProbingHeld(key: nat, gen: nat, count: nat)
    | Building(key: nat, count: nat, keep: bool)
    | Publishing(key: nat, count: nat, keep: bool)
    | Freeing
    | MarkingEmpty

  /**
   The slot's word, the keys of all entries it ever held (the last one is the current or most
   recent), and the numbers of the entries whose data was freed, in order.
   */
  datatype Slot = Slot(meta: Word, keys: seq<nat>, freed: seq<nat>)

  datatype Command =
    | Lookup(key: nat)
    | Erase(key: nat)
    | Insert(key: nat, priority: Priority, keep: bool)
    | ClockUpdate
    | EraseUnRef
    | ApplyTo
    | Release(useful: bool, eraseIfLastRef: bool)
    | ReleaseGrowing(useful: bool, eraseIfLastRef: bool)
    | Step(lucky: bool)

  /** Number of references an agent holds on the slot. */
  function Weight(a: Agent): nat {
    match a
    case User(_, _) | Looking(_, _) | MarkingHit(_, _) | Visiting(_) => 1
    case ErasingHeld(_, _) | ErasingLoop(_, _) => 1
    case Undoing(_, count) => count
    case ProbingHeld(_, _, count) => count
    case _ => 0
  }

  /** 1 for an agent that owns the slot exclusively. */
  function Ownership(a: Agent): nat {
    if a.Building? || a.Publishing? || a.Freeing? || a.MarkingEmpty? then 1 else 0
  }

  /** Key of the data stored in the slot. */
  function StoredKey(s: Slot): nat {
    if s.keys == [] then 0 else s.keys[|s.keys| - 1]
  }

  /** Compare-and-swap; the weak form may fail although the word matches. */
  function Cas(s: Slot, seen: Word, new_: Word, lucky: bool, won: Agent, lost: Agent): (Slot, Agent) {
    if lucky && s.meta == seen then (s.(meta := new_), won) else (s, lost)
  }

  /** A command given to an idle agent: its first atomic access. */
  function Begin(s: Slot, c: Command): (Slot, Agent) {
    var gen, state := |s.keys|, Marker(s.meta);
    var acquired := s.(meta := AddAcquires(s.meta, 1));
    match c
    case Lookup(key) =>
      (acquired, if state == VISIBLE then Looking(key, gen) else if state == INVISIBLE then Undoing(gen, 1) else Idle)
    case Erase(key) =>
      (acquired, if state == VISIBLE then ErasingHeld(key, gen) else if state == INVISIBLE then Undoing(gen, 1) else Idle)
    case ApplyTo => (acquired, if Shareable(s.meta) then Visiting(gen) else Idle)
    case Insert(key, priority, keep) =>
      (s.(meta := SetOccupied(s.meta)),
       if state == EMPTY then Building(key, InitialCountdown(priority), keep)
       else if state == VISIBLE then Probing(key, InitialCountdown(priority)) else Idle)
    case ClockUpdate => (s, ClockUpdating(s.meta))
    case EraseUnRef => (s, EvictingUnreferenced(s.meta))
    case _ => (s, Idle)
  }

  /** A user gives its handle back. */
  function BeginRelease(s: Slot, useful: bool, eraseIfLastRef: bool): (Slot, Agent) {
    var w := if useful then AddReleases(s.meta, 1) else SubAcquires(s.meta, 1);
    (s.(meta := w), if eraseIfLastRef || Marker(s.meta) == INVISIBLE then Releasing(w) else Correcting(s.meta))
  }

  /** The same in the growing table: it corrects at once, and erases only after a fresh load. */
  function BeginReleaseGrowing(s: Slot, useful: bool, eraseIfLastRef: bool): (Slot, Agent) {
    var erase := eraseIfLastRef || Marker(s.meta) == INVISIBLE;
    if useful then (s.(meta := AddReleases(s.meta, 1)), if erase then CorrectingFirst(s.meta) else Correcting(s.meta))
    else (s.(meta := SubAcquires(s.meta, 1)), if erase then LoadingMeta else Idle)
  }

  /** The word that takes a slot into exclusive ownership, with or without the old hit bit. */
  function Owned(hit: nat): Word
    requires hit < 2
  {
    Make(0, 0, hit, CONSTRUCTION)
  }

  function ClockStep(s: Slot, seen: Word, lucky: bool): (Slot, Agent) {
    if !Shareable(seen) || Acquires(seen) != Releases(seen) then (s, Idle)
    else if Marker(seen) == VISIBLE && Acquires(seen) > 0 then
      var count := if Acquires(seen) - 1 < MAX_COUNTDOWN - 1 then Acquires(seen) - 1 else MAX_COUNTDOWN - 1;
      Cas(s, seen, Make(count, count, Hit(seen), VISIBLE), lucky, Idle, Idle)
    else Cas(s, seen, Owned(Hit(seen)), lucky, Freeing, Idle)
  }

  /** The next atomic access of an agent in the middle of an operation. */
  function Continue(s: Slot, a: Agent, lucky: bool): (Slot, Agent) {
    match a
    case Idle | User(_, _) => (s, a)
    case Looking(key, gen) =>
      if StoredKey(s) != key then (s, Undoing(gen, 1))
      else (s, if lucky then MarkingHit(key, gen) else User(key, gen))
    case MarkingHit(key, gen) => (s.(meta := SetHit(s.meta)), User(key, gen))
    case Visiting(gen) => (s, Undoing(gen, 1))
    case Undoing(_, count) => (s.(meta := SubAcquires(s.meta, count)), Idle)
    case Releasing(seen) =>
      if Refcount(seen) != 0 then (s, Correcting(seen))
      else if !Shareable(seen) then (s, Idle)
      else Cas(s, seen, Owned(0), lucky, Freeing, Releasing(s.meta))
    case Correcting(seen) => (s.(meta := Corrected(seen, s.meta)), Idle)
    case CorrectingFirst(seen) => (s.(meta := Corrected(seen, s.meta)), LoadingMeta)
    case LoadingMeta => (s, TryErasing(s.meta))
    case TryErasing(seen) =>
      if Refcount(seen) != 0 || !Shareable(seen) then (s, Idle)
      else Cas(s, seen, Owned(0), lucky, Freeing, TryErasing(s.meta))
    case ErasingHeld(key, gen) =>
      if StoredKey(s) != key then (s, Undoing(gen, 1))
      else (s.(meta := ClearVisible(s.meta)), ErasingLoop(gen, ClearVisible(s.meta)))
    case ErasingLoop(gen, seen) =>
      if Refcount(seen) > 1 then (s, Undoing(gen, 1))
      else Cas(s, seen, Owned(0), lucky, Freeing, ErasingLoop(gen, s.meta))
    case ClockUpdating(seen) => ClockStep(s, seen, lucky)
    case EvictingUnreferenced(seen) =>
      if Shareable(seen) && Refcount(seen) == 0 then Cas(s, seen, Owned(0), lucky, Freeing, Idle) else (s, Idle)
    case Probing(key, count) =>
      (s.(meta := AddAcquires(s.meta, count)),
       if Marker(s.meta) == VISIBLE then ProbingHeld(key, |s.keys|, count)
       else if Marker(s.meta) == INVISIBLE then Undoing(|s.keys|, count) else Idle)
    case ProbingHeld(key, gen, count) =>
      if StoredKey(s) != key then (s, Undoing(gen, count))
      else (s.(meta := AddReleases(s.meta, count)), Correcting(s.meta))
    case Building(key, count, keep) => (s.(keys := s.keys + [key]), Publishing(key, count, keep))
    case Publishing(key, count, keep) =>
      if 1 <= count <= MAX_COUNTDOWN then
        (s.(meta := Make(count, if keep then count - 1 else count, 0, VISIBLE)),
         if keep then User(key, |s.keys|) else Idle)
      else (s, a)
    case Freeing => (s.(freed := s.freed + [|s.keys|]), MarkingEmpty)
    case MarkingEmpty => (s.(meta := 0), Idle)
  }

  function Act(s: Slot, a: Agent, c: Command): (Slot, Agent) {
    if c.Step? then Continue(s, a, c.lucky)
    else if c.Release? then (if a.User? then BeginRelease(s, c.useful, c.eraseIfLastRef) else (s, a))
    else if c.ReleaseGrowing? then (if a.User? then BeginReleaseGrowing(s, c.useful, c.eraseIfLastRef) else (s, a))
    else if a.Idle? then Begin(s, c) else (s, a)
  }

  datatype State = State(slot: Slot, agents: seq<Agent>)

  /** Agent t obeys a command, or the user holding agent `from` makes a second handle for agent t. */
  datatype Action = Do(t: nat, command: Command) | Ref(t: nat, from: nat)

  function Apply(s: State, a: Action): State {
    if a.t >= |s.agents| then s else
      match a
      case Do(t, c) =>
        var (slot, agent) := Act(s.slot, s.agents[t], c);
        State(slot, s.agents[t := agent])
      case Ref(t, from) =>
        if from < |s.agents| && s.agents[from].User? && s.agents[t].Idle? then
          State(s.slot.(meta := AddAcquires(s.slot.meta, 1)), s.agents[t := s.agents[from]])
        else s
  }

  function Run(s: State, acts: seq<Action>): State {
    if acts == [] then s else Apply(Run(s, acts[..|acts| - 1]), acts[|acts| - 1])
  }

  /** A table slot before its first use. */
  predicate Init(s: State) {
    && s.slot == Slot(0, [], [])
    && forall t :: 0 <= t < |s.agents| ==> s.agents[t] == Idle
  }

  /** A standalone handle: never visible, created with the one reference its user gets. */
  predicate InitStandalone(s: State) {
    && |s.slot.keys| == 1 && s.slot == Slot(Make(1, 0, 0, INVISIBLE), s.slot.keys, [])
    && |s.agents| > 0 && s.agents[0] == User(s.slot.keys[0], 1)
    && forall t :: 0 < t < |s.agents| ==> s.agents[t] == Idle
  }

  /**
   Nothing is about to overflow that matters: a counter of a shareable word its 30 bits, or both
   counters of any other word, where they only count attempts, their 60 bits together.
   */
  predicate Roomy(w: Word) {
    if Shareable(w) then Acquires(w) + MAX_COUNTDOWN < COUNTER && Releases(w) + MAX_COUNTDOWN < COUNTER
    else w % HIT + MAX_COUNTDOWN < HIT
  }

  predicate RoomyRun(s: State, acts: seq<Action>) {
    forall k :: 0 <= k <= |acts| ==> Roomy(Run(s, acts[..k]).slot.meta)
  }

  /** An overflow correction that fires on a shareable word finds the top bits of the two counters equal. */
  predicate TopBitsAgree(w: Word, seen: Word) {
    NearOverflow(seen) && Shareable(w) ==> (Acquires(w) >= COUNTER_TOP <==> Releases(w) >= COUNTER_TOP)
  }

  predicate Corrects(a: Agent) {
    a.Correcting? || a.CorrectingFirst?
  }

  predicate Agreeing(s: State, a: Action) {
    a.Do? && a.command.Step? && a.t < |s.agents| && Corrects(s.agents[a.t]) ==> TopBitsAgree(s.slot.meta, s.agents[a.t].seen)
  }

  predicate AgreeingRun(s: State, acts: seq<Action>) {
    forall k :: 0 <= k < |acts| ==> Agreeing(Run(s, acts[..k]), acts[k])
  }

  /** References held by all agents together. */
  function References(agents: seq<Agent>): nat {
    if agents == [] then 0 else Weight(agents[0]) + References(agents[1..])
  }

  function Owners(agents: seq<Agent>): nat {
    if agents == [] then 0 else Ownership(agents[0]) + Owners(agents[1..])
  }
}
