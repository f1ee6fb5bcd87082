/** What purging promises over every run. */
module ChainPurgeTheorems {
  import opened Lists
  import opened ChainPurge
  import opened ChainPurgeProof
  import opened ChainPurgeSteps

  // What a step can do to the chain and its pointers.

  ghost predicate Unmoved(s: State, x: Aux, s': State, x': Aux) {
    Chain(s', x') == Chain(s, x) && s'.next == s.next
  }

  /** An insert stores the pointer of its slot. */
  ghost predicate Stores(s: State, x: Aux, s': State, x': Aux) {
    && Chain(s', x') == Chain(s, x)
    && exists i :: 0 <= i < |s.inserters| && s.inserters[i].Loaded? && s'.next == s.next[s.inserters[i].entry := s.inserters[i].seen.ptr]
  }

  /** An insert links its slot in front. */
  ghost predicate Links(s: State, x: Aux, s': State, x': Aux) {
    && s'.next == s.next
    && exists i :: 0 <= i < |s.inserters| && s.inserters[i].Stored? && s.head == s.inserters[i].seen
                   && Chain(s', x') == [s.inserters[i].entry] + Chain(s, x) && s'.inserters == s.inserters[i := Resting]
  }

  ghost predicate Moves(s: State, x: Aux, s': State, x': Aux) {
    Unmoved(s, x, s', x') || Stores(s, x, s', x') || Links(s, x, s', x') || Cut(s, x, s', x')
  }

  lemma InsertMoves(s: State, x: Aux, i: nat, e: nat, lucky: bool) returns (x': Aux)
    requires Inv(s, x) && i < |s.inserters|
    ensures var s' := InsertStep(s, i, e, lucky); Inv(s', x') && Moves(s, x, s', x')
  {
    hide Base, InsertersOk, LockOk, OwnersOk, PurgerOk, Without;
    var s' := InsertStep(s, i, e, lucky);
    if s.inserters[i].Stored? && lucky && s.head == s.inserters[i].seen {
      x' := LinkKeeps(s, x, i);
      assert Links(s, x, s', x');
    } else {
      x' := InsertKeeps(s, x, i, e, lucky);
      if s.inserters[i].Loaded? { assert Stores(s, x, s', x'); } else { assert Unmoved(s, x, s', x'); }
    }
  }

  lemma PurgeKeeps(s: State, x: Aux, p: nat, evict: bool) returns (x': Aux)
    requires Inv(s, x) && p < |s.purgers|
    ensures var s' := PurgeStep(s, p, evict); Inv(s', x') && (Unmoved(s, x, s', x') || Cut(s, x, s', x'))
  {
    hide Base, InsertersOk, LockOk, WalkOk, OwnersOk, Cut, Without;
    x' := x;
    assert PurgerOk(s, s.purgers[p], x);
    match s.purgers[p]
    case Absent =>
    case Acquiring(clock, owned) => x' := AcquireKeeps(s, x, p, clock, owned);
    case Freeing(owned) =>
      if owned == [] { OutsiderMoves(s, x, p, Absent); } else { x' := FreeKeeps(s, x, p, evict); }
    case Walking(w) =>
      if !Holds(s.purgers[p]) {
        OutsiderMoves(s, x, p, Freeing(w.owned));
      } else {
        match w.phase
        case Examining => x' := ExamineKeeps(s, x, p, evict);
        case ReadingNext => ReadNextKeeps(s, x, p, evict);
        case Finished => ReleaseKeeps(s, x, p, evict);
        case Stitching =>
          if w.prev.Some? { x' := RedirectKeeps(s, x, p, evict); }
          else if s.head == w.saved { x' := SwingKeeps(s, x, p, evict); }
          else { x' := RestartKeeps(s, x, p, evict); }
      }
  }

  lemma StepKeeps(s: State, x: Aux, a: Action) returns (x': Aux)
    requires Inv(s, x)
    ensures Inv(Apply(s, a), x') && Moves(s, x, Apply(s, a), x')
  {
    hide InsertStep, PurgeStep, Base, InsertersOk, LockOk, OwnersOk, PurgerOk, Cut, Stores, Links, Without;
    x' := x;
    match a
    case Insert(i, e, lucky) => if i < |s.inserters| { x' := InsertMoves(s, x, i, e, lucky); }
    case BeginPurge(p, clock) =>
      if p < |s.purgers| && s.purgers[p].Absent? { OutsiderMoves(s, x, p, Acquiring(clock, [])); }
    case Purge(p, evict) => if p < |s.purgers| { x' := PurgeKeeps(s, x, p, evict); }
    case BeginRemove(p, e) =>
      if p < |s.purgers| && s.purgers[p].Absent? && e in s.log && e !in s.condemned { CondemnKeeps(s, x, p, e); }
  }

  lemma {:induction false} RunKeeps(s: State, acts: seq<Action>) returns (x: Aux)
    requires Init(s)
    ensures Inv(Run(s, acts), x)
  {
    hide Apply;
    if acts == [] {
      x := Aux({}, [], [], [], [], End(s.home), End(s.home));
    } else {
      x := RunKeeps(s, acts[..|acts| - 1]);
      x := StepKeeps(Run(s, acts[..|acts| - 1]), x, acts[|acts| - 1]);
    }
  }

  /** The lock bit is set exactly while some thread holds the lock, and never do two hold it. */
  lemma LockIsExclusive(s: State, acts: seq<Action>)
    requires Init(s)
    ensures var r := Run(s, acts);
            && (r.head.locked <==> exists p :: 0 <= p < |r.purgers| && Holds(r.purgers[p]))
            && (forall p, q :: 0 <= p < q < |r.purgers| && Holds(r.purgers[p]) ==> !Holds(r.purgers[q]))
  {
    hide Run;
    var x := RunKeeps(s, acts);
  }

  /** Following the pointers from the head gives exactly c. */
  ghost predicate IsChain(s: State, c: seq<nat>) {
    Leads(s.head.ptr, s.next, c, End(s.home))
  }

  /**
   At every moment the pointers from the head form one chain: the linked entries in order, newest
   first, without some that are being destroyed. So no entry in use is ever lost, not even
   between the steps of a cut.
   */
  lemma NothingInUseIsLost(s: State, acts: seq<Action>)
    requires Init(s)
    ensures var r := Run(s, acts);
            exists removed ::
              && removed <= r.condemned
              && IsChain(r, Without(r.log, removed))
              && forall e :: e in r.log && e !in r.condemned ==> e in Without(r.log, removed)
  {
    hide Run;
    var x := RunKeeps(s, acts);
    var r := Run(s, acts);
    assert IsChain(r, Without(r.log, x.removed));
    forall e | e in r.log && e !in r.condemned
      ensures e in Without(r.log, x.removed)
    {
      WithoutMembers(r.log, x.removed, e);
    }
  }

  /** The entries of a thread's walk, or of a thread that is emptying slots, are off the chain. */
  lemma OffChain(s: State, x: Aux, e: nat)
    requires Base(s, x.removed) && e in x.removed
    ensures IsChain(s, Without(s.log, x.removed)) && e !in Without(s.log, x.removed)
  {
    WithoutMembers(s.log, x.removed, e);
  }

  /**
   When a walk ends, everything that was being destroyed when it began and is not emptied yet, and
   everything its own thread destroys, is off the chain; each such entry is recorded exactly once.
   */
  lemma FinishedWalkHasPurged(s: State, acts: seq<Action>, p: nat)
    requires Init(s)
    requires p < |Run(s, acts).purgers| && Run(s, acts).purgers[p].Walking?
    requires Run(s, acts).purgers[p].walk.phase.Finished?
    ensures var r := Run(s, acts); var w := r.purgers[p].walk;
            && Distinct(w.owned)
            && exists c :: IsChain(r, c) && forall e :: e in w.owned || e in w.condemnedBefore ==> e !in c
  {
    hide Run, Leads, Without;
    var x := RunKeeps(s, acts);
    var r := Run(s, acts);
    assert PurgerOk(r, r.purgers[p], x);
    assert IsChain(r, Without(r.log, x.removed));
    forall e | e in r.purgers[p].walk.owned || e in r.purgers[p].walk.condemnedBefore
      ensures e !in Without(r.log, x.removed)
    {
      OffChain(r, x, e);
    }
  }

  /**
   A slot is emptied only when its entry is off the chain, by the one thread that destroys it. So
   while a slot is on the chain it keeps its entry, and a walk may read it without a reference.
   */
  lemma EmptiedOffChainByOneThread(s: State, acts: seq<Action>, p: nat, e: nat)
    requires Init(s)
    requires p < |Run(s, acts).purgers| && Run(s, acts).purgers[p].Freeing? && e in Run(s, acts).purgers[p].owned
    ensures var r := Run(s, acts);
            && e in r.condemned
            && (exists c :: IsChain(r, c) && e !in c)
            && (forall q :: 0 <= q < |r.purgers| && q != p ==> e !in OwnedBy(r.purgers[q]))
  {
    hide Run, Leads, Without, LockOk, InsertersOk;
    var x := RunKeeps(s, acts);
    var r := Run(s, acts);
    assert e in OwnedBy(r.purgers[p]);
    FreeingRemoved(r, x, p);
    OffChain(r, x, e);
  }

  /** Two descriptions of the same chain agree: what hangs off the head is determined by the pointers. */
  lemma {:induction false} LeadsUnique(p: Ptr, next: map<nat, Ptr>, c: seq<nat>, d: seq<nat>, end: Ptr)
    requires Leads(p, next, c, end) && Leads(p, next, d, end) && end.End?
    ensures c == d
    decreases |c|
  {
    if c != [] && d != [] {
      LeadsUnique(next[c[0]], next, c[1..], d[1..], end);
      assert c == [c[0]] + c[1..] && d == [d[0]] + d[1..];
    }
  }
}
