/** Reference counting and exclusive ownership of a slot, over every run of any number of agents. */
module SlotTheorems {
  import opened Words
  import opened MetaWord
  import opened SlotProtocol

  /** The slot, against the number of references and owners among the agents. */
  ghost predicate Core(s: Slot, refs: nat, owners: nat) {
    && (Marker(s.meta) == EMPTY || Marker(s.meta) == CONSTRUCTION || Marker(s.meta) == INVISIBLE || Marker(s.meta) == VISIBLE)
    && owners == (if Marker(s.meta) == CONSTRUCTION then 1 else 0)
    && (Shareable(s.meta) ==> Acquires(s.meta) - Releases(s.meta) == refs)
    && (!Shareable(s.meta) ==> refs == 0)
    && (Shareable(s.meta) ==> |s.freed| + 1 == |s.keys|)
    && (Marker(s.meta) == EMPTY ==> |s.freed| == |s.keys|)
    && (forall i :: 0 <= i < |s.freed| ==> s.freed[i] == i + 1)
  }

  ghost predicate AgentOk(s: Slot, a: Agent) {
    match a
    case User(key, gen) => 1 <= gen == |s.keys| && s.keys[gen - 1] == key
    case MarkingHit(key, gen) => 1 <= gen == |s.keys| && s.keys[gen - 1] == key
    case Looking(_, gen) => gen == |s.keys|
    case Visiting(gen) => gen == |s.keys|
    case Undoing(gen, count) => gen == |s.keys| && 1 <= count <= MAX_COUNTDOWN
    case ErasingHeld(_, gen) => gen == |s.keys|
    case ErasingLoop(gen, seen) => gen == |s.keys| && Refcount(seen) >= 1
    case Probing(_, count) => 1 <= count <= MAX_COUNTDOWN
    case ProbingHeld(_, gen, count) => gen == |s.keys| && 1 <= count <= MAX_COUNTDOWN
    case Building(_, count, _) => 1 <= count <= MAX_COUNTDOWN && |s.freed| == |s.keys|
    case Publishing(key, count, _) =>
      1 <= count <= MAX_COUNTDOWN && |s.freed| + 1 == |s.keys| && s.keys[|s.keys| - 1] == key
    case Freeing => |s.freed| + 1 == |s.keys|
    case MarkingEmpty => |s.freed| == |s.keys|
    case _ => true
  }

  ghost predicate Inv(s: State) {
    && Core(s.slot, References(s.agents), Owners(s.agents))
    && forall t :: 0 <= t < |s.agents| ==> AgentOk(s.slot, s.agents[t])
  }

  // Sums over the agents.

  lemma {:induction false} Replaced(agents: seq<Agent>, t: nat, a: Agent)
    requires t < |agents|
    ensures References(agents[t := a]) == References(agents) - Weight(agents[t]) + Weight(a)
    ensures Owners(agents[t := a]) == Owners(agents) - Ownership(agents[t]) + Ownership(a)
    ensures Weight(agents[t]) <= References(agents) && Ownership(agents[t]) <= Owners(agents)
  {
    if t == 0 {
      assert agents[t := a][1..] == agents[1..];
    } else {
      assert agents[t := a][1..] == agents[1..][t - 1 := a];
      Replaced(agents[1..], t - 1, a);
    }
  }

  lemma OthersOwnNothing(agents: seq<Agent>, t: nat, u: nat)
    requires t < |agents| && u < |agents| && t != u
    requires Ownership(agents[t]) == 1 && Owners(agents) == 1 && References(agents) == 0
    ensures Ownership(agents[u]) == 0 && Weight(agents[u]) == 0
  {
    Replaced(agents, t, Idle);
    Replaced(agents[t := Idle], u, Idle);
    Replaced(agents, u, Idle);
  }

  // One agent's step, against the totals.

  ghost predicate StepOk(s: Slot, refs: nat, owners: nat, a: Agent, s': Slot, a': Agent) {
    && Weight(a) <= refs + Weight(a') && Ownership(a) <= owners + Ownership(a')
    && Core(s', refs + Weight(a') - Weight(a), owners + Ownership(a') - Ownership(a))
    && AgentOk(s', a')
    && (Ownership(a) == 1 || (s'.keys == s.keys && s'.freed == s.freed))
  }

  ghost predicate Ready(s: Slot, refs: nat, owners: nat, a: Agent) {
    && Core(s, refs, owners) && AgentOk(s, a) && Roomy(s.meta)
    && Weight(a) <= refs && Ownership(a) <= owners
  }

  lemma MarkerShareable(w: Word)
    ensures Marker(w) == EMPTY || Marker(w) == CONSTRUCTION ==> !Shareable(w)
    ensures Marker(w) == INVISIBLE || Marker(w) == VISIBLE ==> Shareable(w)
  {
    hide Marker;
  }

  lemma BeginOk(s: Slot, refs: nat, owners: nat, c: Command)
    requires Ready(s, refs, owners, Idle) && !c.Step? && !c.Release? && !c.ReleaseGrowing?
    ensures var (s', a') := Begin(s, c); StepOk(s, refs, owners, Idle, s', a')
  {
    hide Acquires, Releases, Marker, AddAcquires, SetOccupied, Shareable, Hit;
    if Shareable(s.meta) { AddAcquiresFields(s.meta, 1); } else { AddAcquiresState(s.meta, 1); }
    SetOccupiedFields(s.meta);
    MarkerShareable(s.meta);
    MarkerShareable(AddAcquires(s.meta, 1));
    MarkerShareable(SetOccupied(s.meta));
    assert s.meta == SetOccupied(s.meta) || Marker(s.meta) == EMPTY by { NothingToSet(s.meta); }
  }

  lemma NothingToSet(w: Word)
    ensures Marker(w) >= 4 ==> SetOccupied(w) == w
  {
  }

  lemma ReleaseOk(s: Slot, refs: nat, owners: nat, a: Agent, useful: bool, eraseIfLastRef: bool)
    requires Ready(s, refs, owners, a) && a.User?
    ensures Shareable(s.meta) && Acquires(s.meta) != Releases(s.meta)
    ensures var (s', a') := BeginRelease(s, useful, eraseIfLastRef); StepOk(s, refs, owners, a, s', a')
    ensures var (s', a') := BeginReleaseGrowing(s, useful, eraseIfLastRef); StepOk(s, refs, owners, a, s', a')
  {
    hide Acquires, Releases, Marker, AddReleases, SubAcquires, Shareable, Hit;
    AddReleasesFields(s.meta, 1);
    SubAcquiresFields(s.meta, 1);
    MarkerShareable(s.meta);
    MarkerShareable(AddReleases(s.meta, 1));
    MarkerShareable(SubAcquires(s.meta, 1));
  }

  /** A successful swap to Construction on a word without other references. */
  lemma TakeOk(s: Slot, refs: nat, owners: nat, a: Agent, hit: nat)
    requires Ready(s, refs, owners, a) && Ownership(a) == 0 && hit < 2
    requires Shareable(s.meta) && Refcount(s.meta) == Weight(a)
    ensures StepOk(s, refs, owners, a, s.(meta := Owned(hit)), Freeing)
  {
    hide Acquires, Releases, Marker, Make, Shareable, Hit, Refcount;
    RefcountIsDifference(s.meta);
    FieldsOfMake(0, 0, hit, CONSTRUCTION);
    MarkerShareable(s.meta);
    MarkerShareable(Owned(hit));
  }

  lemma ErasingOk(s: Slot, refs: nat, owners: nat, a: Agent, lucky: bool)
    requires Ready(s, refs, owners, a) && (a.ErasingHeld? || a.ErasingLoop?)
    ensures var (s', a') := Continue(s, a, lucky); StepOk(s, refs, owners, a, s', a')
  {
    hide Acquires, Releases, Marker, ClearVisible, Shareable, Hit, Refcount, Owned;
    var v := ClearVisible(s.meta);
    ClearVisibleFields(s.meta);
    RefcountIsDifference(s.meta);
    RefcountIsDifference(v);
    MarkerShareable(s.meta);
    MarkerShareable(v);
    if a.ErasingLoop? && lucky && s.meta == a.seen && Refcount(a.seen) <= 1 {
      TakeOk(s, refs, owners, a, 0);
    }
  }

  lemma ClockOk(s: Slot, refs: nat, owners: nat, a: Agent, lucky: bool)
    requires Ready(s, refs, owners, a) && a.ClockUpdating?
    ensures var (s', a') := Continue(s, a, lucky); StepOk(s, refs, owners, a, s', a')
  {
    hide Acquires, Releases, Marker, Make, Shareable, Hit, Refcount, Owned;
    var w := a.seen;
    if lucky && s.meta == w && Shareable(w) && Acquires(w) == Releases(w) {
      RefcountIsDifference(w);
      MarkerShareable(w);
      if Marker(w) == VISIBLE && Acquires(w) > 0 {
        var count := if Acquires(w) - 1 < MAX_COUNTDOWN - 1 then Acquires(w) - 1 else MAX_COUNTDOWN - 1;
        FieldsOfMake(count, count, Hit(w), VISIBLE);
        MarkerShareable(Make(count, count, Hit(w), VISIBLE));
      } else {
        TakeOk(s, refs, owners, a, Hit(w));
      }
    }
  }

  lemma SweepingOk(s: Slot, refs: nat, owners: nat, a: Agent, lucky: bool)
    requires Ready(s, refs, owners, a) && (a.Releasing? || a.EvictingUnreferenced? || a.TryErasing?)
    ensures var (s', a') := Continue(s, a, lucky); StepOk(s, refs, owners, a, s', a')
  {
    hide Acquires, Releases, Marker, Shareable, Hit, Refcount, Owned;
    if lucky && s.meta == a.seen && Shareable(a.seen) && Refcount(a.seen) == 0 {
      TakeOk(s, refs, owners, a, 0);
    }
  }

  lemma ProbingOk(s: Slot, refs: nat, owners: nat, a: Agent, lucky: bool)
    requires Ready(s, refs, owners, a) && (a.Probing? || a.ProbingHeld? || a.Undoing?)
    ensures var (s', a') := Continue(s, a, lucky); StepOk(s, refs, owners, a, s', a')
  {
    hide Acquires, Releases, Marker, AddAcquires, SubAcquires, AddReleases, Shareable, Hit, Refcount, Owned;
    if Shareable(s.meta) { AddAcquiresFields(s.meta, a.count); AddReleasesFields(s.meta, a.count); } else { AddAcquiresState(s.meta, a.count); }
    if a.Undoing? { SubAcquiresFields(s.meta, a.count); }
    MarkerShareable(s.meta);
    MarkerShareable(AddAcquires(s.meta, a.count));
    MarkerShareable(AddReleases(s.meta, a.count));
    MarkerShareable(SubAcquires(s.meta, a.count));
  }

  lemma ReadingOk(s: Slot, refs: nat, owners: nat, a: Agent, lucky: bool)
    requires Ready(s, refs, owners, a)
    requires a.Idle? || a.User? || a.Looking? || a.MarkingHit? || a.Visiting? || a.LoadingMeta? || (Corrects(a) && TopBitsAgree(s.meta, a.seen))
    ensures var (s', a') := Continue(s, a, lucky); StepOk(s, refs, owners, a, s', a')
  {
    hide Acquires, Releases, Marker, SetHit, ClearTopBits, Shareable, Hit, Refcount, Owned;
    SetHitFields(s.meta);
    ClearTopBitsFields(s.meta);
    MarkerShareable(s.meta);
    MarkerShareable(SetHit(s.meta));
    MarkerShareable(ClearTopBits(s.meta));
  }

  lemma OwningOk(s: Slot, refs: nat, owners: nat, a: Agent, lucky: bool)
    requires Ready(s, refs, owners, a) && Ownership(a) == 1
    ensures var (s', a') := Continue(s, a, lucky); StepOk(s, refs, owners, a, s', a')
  {
    hide Acquires, Releases, Marker, Make, Shareable, Hit, Refcount, Owned;
    MarkerShareable(s.meta);
    FieldsOfMake(0, 0, 0, EMPTY);
    assert Make(0, 0, 0, EMPTY) == 0 by { ZeroWord(); }
    MarkerShareable(0);
    if a.Publishing? {
      var r := if a.keep then a.count - 1 else a.count;
      FieldsOfMake(a.count, r, 0, VISIBLE);
      MarkerShareable(Make(a.count, r, 0, VISIBLE));
    }
  }

  lemma ZeroWord()
    ensures Make(0, 0, 0, EMPTY) == 0
  {
  }

  lemma ActOk(s: Slot, refs: nat, owners: nat, a: Agent, c: Command)
    requires Ready(s, refs, owners, a) && (c.Step? && Corrects(a) ==> TopBitsAgree(s.meta, a.seen))
    ensures var (s', a') := Act(s, a, c); StepOk(s, refs, owners, a, s', a')
  {
    hide Core, AgentOk, Continue, Begin, BeginRelease, BeginReleaseGrowing, Roomy, TopBitsAgree;
    if c.Step? {
      match a
      case ErasingHeld(_, _) => ErasingOk(s, refs, owners, a, c.lucky);
      case ErasingLoop(_, _) => ErasingOk(s, refs, owners, a, c.lucky);
      case ClockUpdating(_) => ClockOk(s, refs, owners, a, c.lucky);
      case TryErasing(_) => SweepingOk(s, refs, owners, a, c.lucky);
      case Releasing(_) => SweepingOk(s, refs, owners, a, c.lucky);
      case EvictingUnreferenced(_) => SweepingOk(s, refs, owners, a, c.lucky);
      case Probing(_, _) => ProbingOk(s, refs, owners, a, c.lucky);
      case ProbingHeld(_, _, _) => ProbingOk(s, refs, owners, a, c.lucky);
      case Undoing(_, _) => ProbingOk(s, refs, owners, a, c.lucky);
      case Building(_, _, _) => OwningOk(s, refs, owners, a, c.lucky);
      case Publishing(_, _, _) => OwningOk(s, refs, owners, a, c.lucky);
      case Freeing => OwningOk(s, refs, owners, a, c.lucky);
      case MarkingEmpty => OwningOk(s, refs, owners, a, c.lucky);
      case _ => ReadingOk(s, refs, owners, a, c.lucky);
    } else if c.Release? || c.ReleaseGrowing? {
      if a.User? { ReleaseOk(s, refs, owners, a, c.useful, c.eraseIfLastRef); }
    } else if a.Idle? {
      BeginOk(s, refs, owners, c);
    }
  }

  lemma OtherAgentsKeep(s: State, t: nat, s': Slot, a': Agent, u: nat)
    requires Inv(s) && t < |s.agents| && u < |s.agents| && u != t
    requires StepOk(s.slot, References(s.agents), Owners(s.agents), s.agents[t], s', a')
    ensures AgentOk(s', s.agents[u])
  {
    hide References, Owners, Acquires, Releases, Marker, Shareable, Refcount;
    assert AgentOk(s.slot, s.agents[u]);
    Replaced(s.agents, t, a');
    if Ownership(s.agents[t]) == 1 {
      MarkerShareable(s.slot.meta);
      OthersOwnNothing(s.agents, t, u);
    }
  }

  lemma DoKeeps(s: State, t: nat, c: Command)
    requires Inv(s) && Roomy(s.slot.meta) && t < |s.agents| && Agreeing(s, Do(t, c))
    ensures Inv(Apply(s, Do(t, c)))
  {
    hide Core, AgentOk, Act, References, Owners, Roomy, Weight, Ownership, TopBitsAgree;
    var (s', a') := Act(s.slot, s.agents[t], c);
    Replaced(s.agents, t, a');
    ActOk(s.slot, References(s.agents), Owners(s.agents), s.agents[t], c);
    forall u | 0 <= u < |s.agents| && u != t
      ensures AgentOk(s', s.agents[u])
    {
      OtherAgentsKeep(s, t, s', a', u);
    }
  }

  lemma RefKeeps(s: State, t: nat, from: nat)
    requires Inv(s) && Roomy(s.slot.meta) && t < |s.agents|
    ensures Inv(Apply(s, Ref(t, from)))
  {
    hide Act, References, Owners, Acquires, Releases, Marker, Shareable, Refcount, AddAcquires, Hit;
    if from < |s.agents| && s.agents[from].User? && s.agents[t].Idle? {
      var w := s.slot.meta;
      Replaced(s.agents, t, s.agents[from]);
      Replaced(s.agents, from, Idle);
      AddAcquiresFields(w, 1);
      MarkerShareable(w);
      MarkerShareable(AddAcquires(w, 1));
      var s' := Apply(s, Ref(t, from));
      assert AgentOk(s.slot, s.agents[from]);
      forall u | 0 <= u < |s'.agents|
        ensures AgentOk(s'.slot, s'.agents[u])
      {
        if u != t { assert AgentOk(s.slot, s.agents[u]); }
      }
    }
  }

  lemma {:induction false} IdleSums(agents: seq<Agent>)
    requires forall t :: 0 <= t < |agents| ==> agents[t] == Idle
    ensures References(agents) == 0 && Owners(agents) == 0
  {
    if agents != [] { IdleSums(agents[1..]); }
  }

  lemma InitInv(s: State)
    requires Init(s) || InitStandalone(s)
    ensures Inv(s)
  {
    hide Acquires, Releases, Marker, Make, Shareable, Hit;
    if Init(s) {
      IdleSums(s.agents);
      ZeroWord();
      FieldsOfMake(0, 0, 0, EMPTY);
      MarkerShareable(0);
    } else {
      IdleSums(s.agents[1..]);
      FieldsOfMake(1, 0, 0, INVISIBLE);
      MarkerShareable(s.slot.meta);
    }
  }

  /** A run in which no counter overflows and every correction finds the top bits equal. */
  ghost predicate SoundRun(s: State, acts: seq<Action>) {
    (Init(s) || InitStandalone(s)) && RoomyRun(s, acts) && AgreeingRun(s, acts)
  }

  lemma SoundPrefix(s: State, acts: seq<Action>, n: nat)
    requires n <= |acts| && SoundRun(s, acts)
    ensures SoundRun(s, acts[..n]) && Roomy(Run(s, acts[..n]).slot.meta)
    ensures n < |acts| ==> Agreeing(Run(s, acts[..n]), acts[n])
  {
    hide Run, Roomy, Agreeing, Init, InitStandalone;
    RoomyPrefix(s, acts, n);
    forall k | 0 <= k < n
      ensures Agreeing(Run(s, acts[..n][..k]), acts[..n][k])
    {
      assert acts[..n][..k] == acts[..k];
    }
  }

  lemma RoomyPrefix(s: State, acts: seq<Action>, n: nat)
    requires n <= |acts| && RoomyRun(s, acts)
    ensures RoomyRun(s, acts[..n]) && Roomy(Run(s, acts[..n]).slot.meta)
  {
    hide Run, Roomy;
    forall k | 0 <= k <= n
      ensures Roomy(Run(s, acts[..n][..k]).slot.meta)
    {
      assert acts[..n][..k] == acts[..k];
    }
  }

  lemma {:induction false} RunKeeps(s: State, acts: seq<Action>)
    requires SoundRun(s, acts)
    ensures Inv(Run(s, acts))
  {
    hide Inv, Apply, Roomy, Init, InitStandalone, RoomyRun, AgreeingRun, Agreeing;
    if acts == [] {
      InitInv(s);
    } else {
      var front, last := acts[..|acts| - 1], acts[|acts| - 1];
      SoundPrefix(s, acts, |acts| - 1);
      RunKeeps(s, front);
      StepKeeps(Run(s, front), last);
    }
  }

  lemma StepKeeps(s: State, a: Action)
    requires Inv(s) && Roomy(s.slot.meta) && Agreeing(s, a)
    ensures Inv(Apply(s, a))
  {
    hide Inv, Roomy, Agreeing;
    if a.t < |s.agents| {
      match a
      case Do(t, c) => DoKeeps(s, t, c);
      case Ref(t, from) => RefKeeps(s, t, from);
    }
  }

  /** A shareable slot's reference count is the references the agents hold; any other slot is referenced by nobody. */
  ghost predicate Matches(s: State) {
    && (Shareable(s.slot.meta) ==> Refcount(s.slot.meta) == References(s.agents))
    && (!Shareable(s.slot.meta) ==> References(s.agents) == 0)
  }

  lemma CountersMatchReferences(s: State, acts: seq<Action>)
    requires SoundRun(s, acts)
    ensures Matches(Run(s, acts))
  {
    hide Acquires, Releases, Refcount, Run;
    RunKeeps(s, acts);
    RefcountIsDifference(Run(s, acts).slot.meta);
  }

  /** A correction that finds the top bits different leaves the count wrong. */
  lemma DisagreementShows(s: State, a: Action)
    requires Matches(s) && !Agreeing(s, a)
    ensures !Matches(Apply(s, a))
  {
    hide Acquires, Releases, Refcount, Marker, ClearTopBits, References, Hit;
    var w, seen := s.slot.meta, s.agents[a.t].seen;
    CorrectionKeepsRefcount(seen, w);
    ClearTopBitsFields(w);
    Replaced(s.agents, a.t, Apply(s, a).agents[a.t]);
  }

  lemma {:induction false} MatchingAgrees(s: State, acts: seq<Action>)
    requires forall k :: 0 <= k <= |acts| ==> Matches(Run(s, acts[..k]))
    ensures AgreeingRun(s, acts)
  {
    hide Matches, Agreeing, Apply;
    forall k | 0 <= k < |acts|
      ensures Agreeing(Run(s, acts[..k]), acts[k])
    {
      assert acts[..k + 1][..k] == acts[..k];
      assert Matches(Run(s, acts[..k])) && Matches(Run(s, acts[..k + 1]));
      if !Agreeing(Run(s, acts[..k]), acts[k]) { DisagreementShows(Run(s, acts[..k]), acts[k]); }
    }
  }

  /**
   As long as no counter overflows, reference counting is right at every moment of a run if and
   only if every overflow correction that fires finds the top bits of the two counters equal.
   */
  lemma CountsRightIffCorrectionsAgree(s: State, acts: seq<Action>)
    requires (Init(s) || InitStandalone(s)) && RoomyRun(s, acts)
    ensures (forall k :: 0 <= k <= |acts| ==> Matches(Run(s, acts[..k]))) <==> AgreeingRun(s, acts)
  {
    hide Matches, Init, InitStandalone, RoomyRun, AgreeingRun, Run;
    if AgreeingRun(s, acts) {
      forall k | 0 <= k <= |acts|
        ensures Matches(Run(s, acts[..k]))
      {
        SoundPrefix(s, acts, k);
        CountersMatchReferences(s, acts[..k]);
      }
    } else if forall k :: 0 <= k <= |acts| ==> Matches(Run(s, acts[..k])) {
      MatchingAgrees(s, acts);
    }
  }

  /** A slot is under construction exactly when one agent owns it; at no time do two. */
  lemma OneOwner(s: State, acts: seq<Action>)
    requires SoundRun(s, acts)
    ensures var r := Run(s, acts);
            Owners(r.agents) == if Marker(r.slot.meta) == CONSTRUCTION then 1 else 0
  {
    hide Marker, Run;
    RunKeeps(s, acts);
  }

  /**
   A reference pins its entry: as long as an agent holds one, the slot is shareable, still holds
   the very entry the reference was taken on, and that entry's data has not been freed. A handle
   from a lookup or an insert pins an entry with the key asked for.
   */
  lemma ReferencesPin(s: State, acts: seq<Action>, t: nat)
    requires SoundRun(s, acts)
    requires t < |Run(s, acts).agents| && Weight(Run(s, acts).agents[t]) > 0
    ensures var r := Run(s, acts); var a := r.agents[t];
            && Shareable(r.slot.meta)
            && a.gen == |r.slot.keys| && a.gen !in r.slot.freed
            && (a.User? ==> a.gen >= 1 && r.slot.keys[a.gen - 1] == a.key)
  {
    hide References, Owners, Acquires, Releases, Marker, Shareable, Refcount, Run;
    RunKeeps(s, acts);
    var r := Run(s, acts);
    Replaced(r.agents, t, Idle);
    assert AgentOk(r.slot, r.agents[t]);
  }

  /**
   Data is freed exactly once and in order: the entries freed so far are precisely the ones
   created so far, in order of creation, except possibly the last.
   */
  lemma FreedOnceInOrder(s: State, acts: seq<Action>)
    requires SoundRun(s, acts)
    ensures var r := Run(s, acts).slot;
            && |r.keys| - 1 <= |r.freed| <= |r.keys|
            && (forall i :: 0 <= i < |r.freed| ==> r.freed[i] == i + 1)
            && (Marker(r.meta) == EMPTY ==> |r.freed| == |r.keys|)
            && (Shareable(r.meta) ==> |r.freed| == |r.keys| - 1)
  {
    hide References, Acquires, Releases, Marker, Shareable, Refcount, Run, Owners;
    RunKeeps(s, acts);
    var r := Run(s, acts);
    if Marker(r.slot.meta) == CONSTRUCTION {
      var t := SomeOwner(r.agents);
      assert AgentOk(r.slot, r.agents[t]);
    } else {
      MarkerShareable(r.slot.meta);
    }
  }

  lemma {:induction false} SomeOwner(agents: seq<Agent>) returns (t: nat)
    requires Owners(agents) >= 1
    ensures t < |agents| && Ownership(agents[t]) == 1
  {
    if Ownership(agents[0]) == 1 {
      t := 0;
    } else {
      t := SomeOwner(agents[1..]);
      t := t + 1;
    }
  }

  /** The source's own assertions on giving references back: the count is never already zero. */
  lemma NoReferenceUnderflow(s: State, acts: seq<Action>, t: nat)
    requires SoundRun(s, acts)
    requires t < |Run(s, acts).agents|
    ensures var r := Run(s, acts); var a := r.agents[t];
            && (a.User? || a.Undoing? ==> Acquires(r.slot.meta) - Releases(r.slot.meta) >= Weight(a) > 0)
            && (a.ErasingLoop? ==> Refcount(a.seen) > 0)
            && (Ownership(a) == 1 ==> Marker(r.slot.meta) == CONSTRUCTION)
  {
    hide References, Owners, Acquires, Releases, Marker, Shareable, Refcount, Run;
    RunKeeps(s, acts);
    var r := Run(s, acts);
    Replaced(r.agents, t, Idle);
    assert AgentOk(r.slot, r.agents[t]);
  }
}
