/** Each step of the thread that holds the rewrite lock keeps the invariant. */
module ChainPurgeSteps {
  import opened Lists
  import opened Options
  import opened ChainPurge
  import opened ChainPurgeProof

  lemma Assemble(s: State, x: Aux, s': State, x': Aux, p: nat)
    requires Inv(s, x) && p < |s.purgers| && Holds(s.purgers[p])
    requires |s'.purgers| == |s.purgers| && s'.purgers == s.purgers[p := s'.purgers[p]]
    requires Base(s', x'.removed) && InsertersOk(s') && x.removed <= x'.removed && OwnersOk(s'.condemned, s'.purgers)
    requires PurgerOk(s', s'.purgers[p], x')
    requires Holds(s'.purgers[p]) <==> s'.head.locked
    ensures Inv(s', x')
  {
    hide Base, InsertersOk, WalkOk, Distinct, OwnersOk;
    forall q | 0 <= q < |s'.purgers|
      ensures PurgerOk(s', s'.purgers[q], x')
    {
      assert PurgerOk(s, s.purgers[q], x);
    }
    assert forall q :: 0 <= q < |s.purgers| && q != p ==> !Holds(s.purgers[q]);
    if s'.head.locked { assert Holds(s'.purgers[p]); }
  }

  lemma InsertersSame(s: State, s': State)
    requires InsertersOk(s) && s'.inserters == s.inserters && s'.next == s.next && s'.log == s.log
    ensures InsertersOk(s')
  {
    forall i | 0 <= i < |s'.inserters|
      ensures InserterOk(s', s'.inserters[i])
    {
      assert InserterOk(s, s.inserters[i]);
    }
  }

  lemma HolderWalk(s: State, x: Aux, p: nat)
    requires Inv(s, x) && p < |s.purgers| && Holds(s.purgers[p])
    ensures WalkOk(s, s.purgers[p].walk, x)
  {
    assert PurgerOk(s, s.purgers[p], x);
  }

  lemma ChainDistinct(s: State, x: Aux)
    requires Base(s, x.removed)
    ensures Distinct(Chain(s, x))
  {
    WithoutDistinct(s.log, x.removed);
  }

  // Looking at the entry at hand.

  lemma HeadOfRest(home: nat, next: map<nat, Ptr>, rest: seq<nat>, p: Ptr)
    requires Leads(p, next, rest, End(home))
    ensures (p.End? <==> rest == []) && (p.End? ==> p == End(home))
    ensures p.To? ==> rest[0] == p.entry && p.entry in next && Leads(next[p.entry], next, rest[1..], End(home))
  {
  }

  /** The entry at hand joins those to cut out. */
  lemma CondemnedWalk(s: State, w: Walk, x: Aux, s': State, w': Walk, x': Aux)
    requires WalkOk(s, w, x) && w.phase.Examining? && w.ptr.To?
    requires s'.home == s.home && s'.head == s.head && s'.next == s.next && s'.log == s.log
    requires s.condemned <= s'.condemned && w.ptr.entry in s'.condemned
    requires w' == w.(pending := true, phase := ReadingNext, owned := w'.owned)
    requires w'.owned == w.owned || (w.ptr.entry !in s.condemned && w'.owned == w.owned + [w.ptr.entry])
    requires x.rest != [] && x' == x.(dead := x.dead + [x.rest[0]], rest := x.rest[1..])
    ensures WalkOk(s', w', x')
  {
    hide Leads, Without;
    HeadOfRest(s.home, s.next, x.rest, w.ptr);
    LeadsSnoc(x.b, s.next, x.dead, w.ptr.entry);
    assert x.front + x.kept + x.dead + x.rest == x'.front + x'.kept + x'.dead + x'.rest;
    assert forall e :: e in x.rest ==> e in x'.dead || e in x'.rest;
    assert x'.dead[|x'.dead| - 1] == w.ptr.entry;
  }

  /** The entry at hand joins those to keep. */
  lemma KeptWalk(s: State, w: Walk, x: Aux, x': Aux)
    requires WalkOk(s, w, x) && w.phase.Examining? && w.ptr.To? && !w.pending
    requires w.ptr.entry !in s.condemned
    requires x.rest != [] && x' == x.(kept := x.kept + [x.rest[0]], rest := x.rest[1..], b := Ahead(s.next, w.(phase := ReadingNext)))
    ensures WalkOk(s, w.(prev := Some(w.ptr.entry), phase := ReadingNext), x')
  {
    hide Leads, Without;
    var w' := w.(prev := Some(w.ptr.entry), phase := ReadingNext);
    HeadOfRest(s.home, s.next, x.rest, w.ptr);
    var e := w.ptr.entry;
    assert x.b == To(e) by { LeadsNothing(x.b, s.next, To(e)); }
    LeadsSnoc(x.a, s.next, x.kept, e);
    LeadsNothing(s.next[e], s.next, s.next[e]);
    assert x.front + x.kept + x.dead + x.rest == x'.front + x'.kept + x'.dead + x'.rest;
    assert x'.kept[|x'.kept| - 1] == e;
  }

  lemma LeadsNothing(p: Ptr, next: map<nat, Ptr>, q: Ptr)
    ensures Leads(p, next, [], q) <==> p == q
  {
  }

  lemma ExamineKeeps(s: State, x: Aux, p: nat, evict: bool) returns (x': Aux)
    requires Inv(s, x) && p < |s.purgers| && Holds(s.purgers[p]) && s.purgers[p].walk.phase.Examining?
    ensures Inv(PurgeStep(s, p, evict), x') && x'.removed == x.removed
  {
    hide Leads, Without, Distinct, WalkOk;
    var w := s.purgers[p].walk;
    HolderWalk(s, x, p);
    var (condemned, w') := Examine(s, w, evict);
    var s' := PurgeStep(s, p, evict);
    assert Leads(w.ptr, s.next, x.rest, End(s.home)) by { ExaminingParts(s, w, x); }
    HeadOfRest(s.home, s.next, x.rest, w.ptr);
    InsertersSame(s, s');
    x' := x;
    if w.ptr.To? {
      var e := w.ptr.entry;
      assert e in s.log by { AtHandInLog(s, w, x); }
      if e in condemned {
        x' := x.(dead := x.dead + [x.rest[0]], rest := x.rest[1..]);
        CondemnedWalk(s, w, x, s', w', x');
      } else if !w.pending {
        x' := x.(kept := x.kept + [x.rest[0]], rest := x.rest[1..], b := Ahead(s.next, w.(phase := ReadingNext)));
        KeptWalk(s, w, x, x');
        SameWalk(s, s', w', x');
      } else {
        PhaseWalk(s, w, x, w');
        SameWalk(s, s', w', x');
      }
    } else {
      PhaseWalk(s, w, x, w');
      SameWalk(s, s', w', x');
    }
    ExamineOwners(s, p, evict);
    Assemble(s, x, s', x', p);
  }

  lemma ExamineOwners(s: State, p: nat, evict: bool)
    requires OwnersOk(s.condemned, s.purgers) && p < |s.purgers| && s.purgers[p].Walking? && s.purgers[p].walk.phase.Examining?
    ensures var s' := PurgeStep(s, p, evict); OwnersOk(s'.condemned, s'.purgers)
  {
    hide OwnersOk;
    var (condemned, w') := Examine(s, s.purgers[p].walk, evict);
    if condemned != s.condemned {
      NewOwner(s.condemned, s.purgers, p, Walking(w'), s.purgers[p].walk.ptr.entry);
    } else {
      SameOwner(s.condemned, s.purgers, p, Walking(w'));
    }
  }

  lemma ExaminingParts(s: State, w: Walk, x: Aux)
    requires WalkOk(s, w, x) && (w.phase.Examining? || w.phase.Stitching?)
    ensures Leads(w.ptr, s.next, x.rest, End(s.home))
  {
  }

  lemma AtHandInLog(s: State, w: Walk, x: Aux)
    requires WalkOk(s, w, x) && x.rest != []
    ensures x.rest[0] in s.log
  {
    WithoutMembers(s.log, x.removed, x.rest[0]);
    assert x.rest[0] in Chain(s, x);
  }

  /** Only the phase changes, to stitching or to the end of the walk. */
  lemma PhaseWalk(s: State, w: Walk, x: Aux, w': Walk)
    requires WalkOk(s, w, x) && w.phase.Examining?
    requires w' == w.(phase := w'.phase)
    requires (w'.phase.Stitching? && w.pending && (w.ptr.To? ==> w.ptr.entry !in s.condemned)) || (w'.phase.Finished? && !w.pending && w.ptr.End?)
    ensures WalkOk(s, w', x)
  {
    hide Leads, Without, Distinct;
    HeadOfRest(s.home, s.next, x.rest, w.ptr);
  }

  lemma ReadNextKeeps(s: State, x: Aux, p: nat, evict: bool)
    requires Inv(s, x) && p < |s.purgers| && Holds(s.purgers[p]) && s.purgers[p].walk.phase.ReadingNext?
    ensures Inv(PurgeStep(s, p, evict), x)
  {
    hide Leads, Without, Distinct;
    var w := s.purgers[p].walk;
    HolderWalk(s, x, p);
    var s' := PurgeStep(s, p, evict);
    InsertersSame(s, s');
    SameWalk(s, s', w, x);
    assert WalkOk(s', s'.purgers[p].walk, x);
    SameOwner(s.condemned, s.purgers, p, s'.purgers[p]);
    Assemble(s, x, s', x, p);
  }

  // Cutting entries out.

  /** The pointer to the first entry of a chain. */
  function PtrTo(c: seq<nat>, home: nat): Ptr {
    if c == [] then End(home) else To(c[0])
  }

  /** Some condemned entries in a row are cut out, by redirecting the entry before them or the head. */
  ghost predicate CutAt(s: State, x: Aux, s': State, x': Aux, a: seq<nat>, d: seq<nat>, b: seq<nat>) {
    && Chain(s, x) == a + d + b && Chain(s', x') == a + b
    && (forall e :: e in d ==> e in s.condemned)
    && s'.next == if a == [] then s.next else s.next[a[|a| - 1] := PtrTo(b, s.home)]
  }

  ghost predicate Cut(s: State, x: Aux, s': State, x': Aux) {
    exists a, d, b :: CutAt(s, x, s', x', a, d, b)
  }

  /** The pointers and the log after the cut. */
  lemma CutKeepsBase(s: State, x: Aux, s': State, removed: set<nat>)
    requires Base(s, x.removed) && Chain(s, x) == x.front + x.kept + x.dead + x.rest
    requires forall e :: e in x.dead ==> e in s.condemned
    requires removed == x.removed + Elements(x.dead)
    requires s'.log == s.log && s'.condemned == s.condemned && (s'.head.ptr.End? ==> !s'.head.locked)
    requires Leads(s'.head.ptr, s'.next, x.front + x.kept + x.rest, End(s'.home))
    ensures Base(s', removed) && Without(s'.log, removed) == x.front + x.kept + x.rest
  {
    hide Leads;
    ChainDistinct(s, x);
    WithoutMiddle(s.log, x.removed, x.front + x.kept, x.dead, x.rest);
  }

  lemma CutRecorded(condemned: set<nat>, w: Walk, x: Aux, w': Walk, x': Aux)
    requires Recorded(condemned, w, x)
    requires w'.owned == w.owned && w'.condemnedBefore == w.condemnedBefore
    requires x'.removed == x.removed + Elements(x.dead)
    requires forall e :: e in x.rest ==> e in x'.rest || (e !in w.owned && e !in w.condemnedBefore)
    ensures Recorded(condemned, w', x')
  {
  }

  /** All three paths after redirecting the last kept entry past the entries cut out. */
  lemma RedirectParts(home: nat, head: Ptr, next: map<nat, Ptr>, x: Aux, ptr: Ptr)
    requires Parts(home, head, next, x, ptr) && x.kept != [] && Distinct(x.front + x.kept + x.dead + x.rest)
    ensures var next' := next[x.kept[|x.kept| - 1] := ptr];
            && Leads(head, next', x.front, x.a) && Leads(x.a, next', x.kept, ptr) && Leads(ptr, next', x.rest, End(home))
            && Leads(head, next', x.front + x.kept + x.rest, End(home))
  {
    hide Leads;
    var last := x.kept[|x.kept| - 1];
    assert last in x.kept;
    var c := x.front + x.kept + x.dead + x.rest;
    assert x.front + x.kept + (x.dead + x.rest) == c;
    DisjointParts(x.front, x.kept, x.dead + x.rest);
    assert Distinct(x.kept) by {
      forall i, j | 0 <= i < j < |x.kept| ensures x.kept[i] != x.kept[j] {
        assert c[|x.front| + i] == x.kept[i] && c[|x.front| + j] == x.kept[j];
      }
    }
    assert forall e :: e in x.rest ==> e in x.dead + x.rest;
    LeadsStore(head, next, x.front, x.a, last, ptr);
    LeadsRetarget(x.a, next, x.kept, x.b, ptr);
    LeadsStore(ptr, next, x.rest, End(home), last, ptr);
    var next' := next[last := ptr];
    LeadsConcat(head, next', x.front, x.a, x.kept, ptr);
    LeadsConcat(head, next', x.front + x.kept, ptr, x.rest, End(home));
  }

  /** What remains of the bookkeeping after a cut: the entry at hand, if any, is kept. */
  function AfterCut(next: map<nat, Ptr>, x: Aux, ptr: Ptr): Aux {
    var removed := x.removed + Elements(x.dead);
    if ptr.To? && ptr.entry in next && x.rest != [] then
      Aux(removed, x.front, x.kept + [ptr.entry], [], x.rest[1..], x.a, next[ptr.entry])
    else Aux(removed, x.front, x.kept, [], x.rest, x.a, ptr)
  }

  lemma StitchedWalk(s: State, w: Walk, x: Aux, s': State, w': Walk)
    requires WalkOk(s, w, x) && w.phase.Stitching?
    requires Leads(s'.head.ptr, s'.next, x.front, x.a) && Leads(x.a, s'.next, x.kept, w.ptr) && Leads(w.ptr, s'.next, x.rest, End(s'.home))
    requires s'.condemned == s.condemned && s'.head.locked
    requires Without(s'.log, x.removed + Elements(x.dead)) == x.front + x.kept + x.rest
    requires w' == Stitched(w).(saved := w'.saved) && w'.saved.locked
    ensures WalkOk(s', w', AfterCut(s'.next, x, w.ptr))
  {
    hide Leads, Without, Distinct;
    var x' := AfterCut(s'.next, x, w.ptr);
    HeadOfRest(s'.home, s'.next, x.rest, w.ptr);
    if w.ptr.To? {
      var e := w.ptr.entry;
      LeadsSnoc(x.a, s'.next, x.kept, e);
      LeadsNothing(s'.next[e], s'.next, s'.next[e]);
      assert x'.kept[|x'.kept| - 1] == e;
      assert x.front + x.kept + x.rest == x'.front + x'.kept + x'.dead + x'.rest;
      assert forall f :: f in x.rest ==> f == e || f in x'.rest;
    } else {
      LeadsNothing(w.ptr, s'.next, w.ptr);
      assert x.front + x.kept + x.rest == x'.front + x'.kept + x'.dead + x'.rest;
    }
    CutRecorded(s.condemned, w, x, w', x');
  }

  lemma RedirectKeepsInserters(s: State, s': State, e: nat, v: Ptr)
    requires InsertersOk(s) && e in s.log
    requires s'.inserters == s.inserters && s'.log == s.log && s'.next == s.next[e := v]
    ensures InsertersOk(s')
  {
    forall i | 0 <= i < |s'.inserters|
      ensures InserterOk(s', s'.inserters[i])
    {
      assert InserterOk(s, s.inserters[i]);
    }
  }

  lemma KeptInLog(s: State, x: Aux, e: nat)
    requires Chain(s, x) == x.front + x.kept + x.dead + x.rest && e in x.kept
    ensures e in s.log
  {
    WithoutMembers(s.log, x.removed, e);
    assert e in Chain(s, x);
  }

  /** The cut when an entry to keep precedes the entries to cut out. */
  lemma RedirectKeeps(s: State, x: Aux, p: nat, evict: bool) returns (x': Aux)
    requires Inv(s, x) && p < |s.purgers| && Holds(s.purgers[p])
    requires s.purgers[p].walk.phase.Stitching? && s.purgers[p].walk.prev.Some?
    ensures Inv(PurgeStep(s, p, evict), x') && Cut(s, x, PurgeStep(s, p, evict), x')
  {
    hide Leads, Without, Distinct, Recorded;
    var w := s.purgers[p].walk;
    HolderWalk(s, x, p);
    var s' := PurgeStep(s, p, evict);
    var last := w.prev.value;
    ChainDistinct(s, x);
    RedirectParts(s.home, s.head.ptr, s.next, x, w.ptr);
    CutKeepsBase(s, x, s', x.removed + Elements(x.dead));
    KeptInLog(s, x, last);
    RedirectKeepsInserters(s, s', last, w.ptr);
    StitchedWalk(s, w, x, s', Stitched(w));
    x' := AfterCut(s'.next, x, w.ptr);
    SameOwner(s.condemned, s.purgers, p, s'.purgers[p]);
    HeadOfRest(s.home, s.next, x.rest, w.ptr);
    assert CutAt(s, x, s', x', x.front + x.kept, x.dead, x.rest);
    Assemble(s, x, s', x', p);
  }

  lemma Positions(x: Aux)
    ensures var c := x.front + x.kept + x.dead + x.rest;
            && (x.front != [] ==> c[0] == x.front[0])
            && (x.dead != [] ==> c[|x.front| + |x.kept|] == x.dead[0])
  {
  }

  /** The head can be swung only if nothing was inserted in front. */
  lemma NothingInFront(home: nat, next: map<nat, Ptr>, x: Aux, ahead: Ptr)
    requires Parts(home, x.a, next, x, ahead) && x.kept == [] && x.dead != []
    requires Distinct(x.front + x.kept + x.dead + x.rest)
    ensures x.front == []
  {
    Positions(x);
  }

  lemma SwingKeeps(s: State, x: Aux, p: nat, evict: bool) returns (x': Aux)
    requires Inv(s, x) && p < |s.purgers| && Holds(s.purgers[p])
    requires s.purgers[p].walk.phase.Stitching? && s.purgers[p].walk.prev.None? && s.head == s.purgers[p].walk.saved
    ensures Inv(PurgeStep(s, p, evict), x') && Cut(s, x, PurgeStep(s, p, evict), x')
  {
    hide Leads, Without, Distinct, Recorded;
    var w := s.purgers[p].walk;
    HolderWalk(s, x, p);
    var s' := PurgeStep(s, p, evict);
    ChainDistinct(s, x);
    NothingInFront(s.home, s.next, x, w.ptr);
    InsertersSame(s, s');
    assert x.front + x.kept + x.rest == x.rest;
    CutKeepsBase(s, x, s', x.removed + Elements(x.dead));
    HeadOfRest(s.home, s.next, x.rest, w.ptr);
    var y := x.(a := w.ptr, b := w.ptr);
    x' := AfterCut(s'.next, y, w.ptr);
    LeadsNothing(w.ptr, s.next, w.ptr);
    if w.ptr.To? {
      SwungWalk(s, w, x, s', s'.purgers[p].walk);
    } else {
      assert IdleWalk(s'.condemned, s'.purgers[p].walk, x'.removed) by { IdleAtEnd(s.condemned, w, x, s'.purgers[p].walk); }
    }
    SameOwner(s.condemned, s.purgers, p, s'.purgers[p]);
    assert CutAt(s, x, s', x', [], x.dead, x.rest) by { assert [] + [] + x.dead + x.rest == [] + x.dead + x.rest; }
    Assemble(s, x, s', x', p);
  }

  lemma IdleAtEnd(condemned: set<nat>, w: Walk, x: Aux, w': Walk)
    requires Recorded(condemned, w, x) && x.rest == [] && w'.phase.Finished?
    requires w'.owned == w.owned && w'.condemnedBefore == w.condemnedBefore
    ensures IdleWalk(condemned, w', x.removed + Elements(x.dead))
  {
  }

  lemma SwungWalk(s: State, w: Walk, x: Aux, s': State, w': Walk)
    requires WalkOk(s, w, x) && w.phase.Stitching? && w.ptr.To? && x.front == [] && x.kept == []
    requires s'.home == s.home && s'.head == Head(w.ptr, true) && s'.next == s.next && s'.condemned == s.condemned
    requires Without(s'.log, x.removed + Elements(x.dead)) == x.rest
    requires w' == Stitched(w).(saved := s'.head)
    ensures WalkOk(s', w', AfterCut(s'.next, x.(a := w.ptr, b := w.ptr), w.ptr))
  {
    hide Leads, Without, Distinct;
    var y := x.(a := w.ptr, b := w.ptr);
    var x' := AfterCut(s'.next, y, w.ptr);
    HeadOfRest(s.home, s.next, x.rest, w.ptr);
    var e := w.ptr.entry;
    LeadsNothing(w.ptr, s.next, w.ptr);
    LeadsNothing(s.next[e], s.next, s.next[e]);
    LeadsSnoc(w.ptr, s.next, [], e);
    assert [] + [e] == [e] == x'.kept;
    assert x.rest == x'.front + x'.kept + x'.dead + x'.rest;
    assert forall f :: f in x.rest ==> f == e || f in x'.rest;
    CutRecorded(s.condemned, w, x, w', x');
  }

  /** The head changed under the walk: start over from the new head; nothing is lost. */
  lemma RestartKeeps(s: State, x: Aux, p: nat, evict: bool) returns (x': Aux)
    requires Inv(s, x) && p < |s.purgers| && Holds(s.purgers[p])
    requires s.purgers[p].walk.phase.Stitching? && s.purgers[p].walk.prev.None? && s.head != s.purgers[p].walk.saved
    ensures Inv(PurgeStep(s, p, evict), x') && x'.removed == x.removed
  {
    hide Leads, Without, Distinct, InsertersOk;
    var w := s.purgers[p].walk;
    HolderWalk(s, x, p);
    var s' := PurgeStep(s, p, evict);
    var c := Chain(s, x);
    x' := Aux(x.removed, [], [], [], c, s.head.ptr, s.head.ptr);
    assert InsertersOk(s') by { InsertersSame(s, s'); }
    LeadsNothing(s.head.ptr, s.next, s.head.ptr);
    assert [] + [] + [] + c == c;
    assert forall e :: e in x.dead || e in x.rest ==> e in c;
    assert WalkOk(s', s'.purgers[p].walk, x');
    SameOwner(s.condemned, s.purgers, p, s'.purgers[p]);
    Assemble(s, x, s', x', p);
  }

  lemma ReleaseKeeps(s: State, x: Aux, p: nat, evict: bool)
    requires Inv(s, x) && p < |s.purgers| && Holds(s.purgers[p]) && s.purgers[p].walk.phase.Finished?
    ensures Inv(PurgeStep(s, p, evict), x)
  {
    hide Leads, Without, Distinct, OwnersOk;
    var s' := PurgeStep(s, p, evict);
    HolderWalk(s, x, p);
    InsertersSame(s, s');
    SameOwner(s.condemned, s.purgers, p, s'.purgers[p]);
    Assemble(s, x, s', x, p);
  }

  // Steps of a thread that does not hold the lock.

  lemma OutsiderMoves(s: State, x: Aux, p: nat, np: Purger)
    requires Inv(s, x) && p < |s.purgers| && !Holds(s.purgers[p]) && !np.Walking?
    requires OwnedBy(np) == OwnedBy(s.purgers[p]) || OwnedBy(np) == []
    requires np.Freeing? ==> forall e :: e in np.owned ==> e in x.removed
    ensures Inv(s.(purgers := s.purgers[p := np]), x)
  {
    hide Leads, Without, Distinct, InsertersOk, Base, OwnersOk;
    var s' := s.(purgers := s.purgers[p := np]);
    assert InsertersOk(s') by { InsertersSame(s, s'); }
    assert Base(s', x.removed) by { SameBase(s, s', x.removed); }
    SameOwner(s.condemned, s.purgers, p, np);
    forall q | 0 <= q < |s'.purgers|
      ensures PurgerOk(s', s'.purgers[q], x)
    {
      assert PurgerOk(s, s.purgers[q], x);
      if q != p && Holds(s.purgers[q]) { SameWalk(s, s', s.purgers[q].walk, x); }
    }
    if s'.head.locked {
      var q :| 0 <= q < |s.purgers| && Holds(s.purgers[q]);
      assert Holds(s'.purgers[q]);
    }
  }

  lemma SameBase(s: State, s': State, removed: set<nat>)
    requires Base(s, removed)
    requires s'.home == s.home && s'.head == s.head && s'.next == s.next && s'.log == s.log && s'.condemned == s.condemned
    ensures Base(s', removed)
  {
  }

  /** Nothing is linked if the head is an end marker, so what a thread destroys is off the chain. */
  lemma EmptyChain(s: State, x: Aux, p: nat)
    requires Inv(s, x) && s.head.ptr.End? && p < |s.purgers|
    ensures forall e :: e in OwnedBy(s.purgers[p]) ==> e in x.removed
  {
    assert Chain(s, x) == [];
    forall e | e in OwnedBy(s.purgers[p])
      ensures e in x.removed
    {
      WithoutMembers(s.log, x.removed, e);
    }
  }

  lemma AcquireKeeps(s: State, x: Aux, p: nat, clock: bool, owned: seq<nat>) returns (x': Aux)
    requires Inv(s, x) && p < |s.purgers| && s.purgers[p] == Acquiring(clock, owned)
    ensures Inv(AcquireStep(s, p, clock, owned), x') && x'.removed == x.removed
  {
    hide Leads, Without, InsertersOk, WalkOk, Base, Distinct, OwnersOk;
    x' := x;
    if s.head.locked {
    } else if s.head.ptr.End? {
      EmptyChain(s, x, p);
      OutsiderMoves(s, x, p, Freeing(owned));
    } else {
      var s' := AcquireStep(s, p, clock, owned);
      x' := Aux(x.removed, [], [], [], Chain(s, x), s.head.ptr, s.head.ptr);
      assert InsertersOk(s') by { InsertersSame(s, s'); }
      SameOwner(s.condemned, s.purgers, p, s'.purgers[p]);
      assert forall q :: 0 <= q < |s.purgers| ==> !Holds(s.purgers[q]);
      assert Holds(s'.purgers[p]);
      LockedWalk(s, x, p, clock, owned);
      forall q | 0 <= q < |s'.purgers|
        ensures PurgerOk(s', s'.purgers[q], x')
      {
        assert PurgerOk(s, s.purgers[q], x);
      }
      assert Base(s', x'.removed) by { LockedBase(s, s', x.removed); }
    }
  }

  lemma LockedBase(s: State, s': State, removed: set<nat>)
    requires Base(s, removed) && s.head.ptr.To? && s'.head == Lock(s.head)
    requires s'.home == s.home && s'.next == s.next && s'.log == s.log && s'.condemned == s.condemned
    ensures Base(s', removed)
  {
  }

  lemma LockedWalk(s: State, x: Aux, p: nat, clock: bool, owned: seq<nat>)
    requires Inv(s, x) && p < |s.purgers| && s.purgers[p] == Acquiring(clock, owned) && !s.head.locked && s.head.ptr.To?
    ensures var s' := AcquireStep(s, p, clock, owned);
            WalkOk(s', s'.purgers[p].walk, Aux(x.removed, [], [], [], Chain(s, x), s.head.ptr, s.head.ptr))
  {
    hide Leads, Without;
    var c := Chain(s, x);
    LeadsNothing(s.head.ptr, s.next, s.head.ptr);
    assert [] + [] + [] + c == c;
    assert OwnedBy(s.purgers[p]) == owned;
    forall e | e in s.condemned
      ensures e in x.removed || e in c
    {
      WithoutMembers(s.log, x.removed, e);
    }
  }

  // Emptying a slot.

  lemma {:induction false} DropMembers(s: seq<nat>, e: nat)
    requires Distinct(s)
    ensures Distinct(Drop(s, e)) && forall f :: f in Drop(s, e) <==> f in s && f != e
  {
    if s != [] {
      DropMembers(s[1..], e);
      assert s[0] !in s[1..];
    }
  }

  lemma {:induction false} DropRemoved(s: seq<nat>, r: set<nat>, e: nat)
    requires Distinct(s) && e in r
    ensures Without(Drop(s, e), r - {e}) == Without(s, r)
  {
    if s != [] {
      if s[0] == e {
        assert e !in s[1..];
        SameWithout(s[1..], r, e);
      } else {
        DropRemoved(s[1..], r, e);
        assert Drop(s, e)[1..] == Drop(s[1..], e);
      }
    }
  }

  lemma {:induction false} SameWithout(s: seq<nat>, r: set<nat>, e: nat)
    requires e !in s
    ensures Without(s, r - {e}) == Without(s, r)
  {
    if s != [] { SameWithout(s[1..], r, e); }
  }

  lemma FreeOwners(condemned: set<nat>, purgers: seq<Purger>, p: nat, purgers': seq<Purger>)
    requires OwnersOk(condemned, purgers) && p < |purgers| && purgers[p].Freeing? && purgers[p].owned != []
    requires |purgers'| == |purgers| && purgers'[p] == Freeing(purgers[p].owned[1..])
    requires forall q :: 0 <= q < |purgers| && q != p ==> OwnedBy(purgers'[q]) == OwnedBy(purgers[q])
    ensures OwnersOk(condemned - {purgers[p].owned[0]}, purgers')
    ensures forall q :: 0 <= q < |purgers| ==> purgers[p].owned[0] !in OwnedBy(purgers'[q])
  {
    var owned := purgers[p].owned;
    var e := owned[0];
    assert e in OwnedBy(purgers[p]);
    forall q | 0 <= q < |purgers|
      ensures e !in OwnedBy(purgers'[q]) && Distinct(OwnedBy(purgers'[q]))
    {
      if q == p { assert Distinct(owned); } else { assert Distinct(OwnedBy(purgers[q])); }
    }
    assert forall f :: f in owned[1..] ==> f in owned;
  }

  lemma FreeKeepsWalk(s: State, x: Aux, s': State, x': Aux, w: Walk, e: nat)
    requires WalkOk(s, w, x) && e in x.removed && e !in w.owned && x' == x.(removed := x.removed - {e})
    requires s'.home == s.home && s'.head == s.head && s'.next == s.next && s'.condemned == s.condemned - {e}
    requires Chain(s', x') == Chain(s, x)
    ensures WalkOk(s', w.(condemnedBefore := w.condemnedBefore - {e}), x')
  {
    hide Leads, Without, Distinct;
    forall f | f in x.dead
      ensures f in s'.condemned
    {
      WithoutMembers(s.log, x.removed, f);
      assert f in Chain(s, x);
    }
  }

  lemma FreeKeepsBase(s: State, removed: set<nat>, s': State, e: nat)
    requires Base(s, removed) && e in removed
    requires s'.home == s.home && s'.head == s.head && s'.next == s.next
    requires s'.log == Drop(s.log, e) && s'.condemned == s.condemned - {e}
    ensures Base(s', removed - {e}) && Without(s'.log, removed - {e}) == Without(s.log, removed)
  {
    hide Leads, Without, Distinct, Drop;
    DropMembers(s.log, e);
    DropRemoved(s.log, removed, e);
  }

  lemma FreeKeepsInserters(s: State, s': State, e: nat)
    requires InsertersOk(s) && Distinct(s.log) && s'.inserters == s.inserters && s'.next == s.next && s'.log == Drop(s.log, e)
    ensures InsertersOk(s')
  {
    hide Distinct, Drop;
    DropMembers(s.log, e);
    forall i | 0 <= i < |s'.inserters|
      ensures InserterOk(s', s'.inserters[i])
    {
      assert InserterOk(s, s.inserters[i]);
    }
  }

  lemma FreeKeepsPurger(s: State, x: Aux, s': State, x': Aux, q: Purger, e: nat)
    requires PurgerOk(s, q, x) && e in x.removed && e !in OwnedBy(q) && x' == x.(removed := x.removed - {e})
    requires s'.home == s.home && s'.head == s.head && s'.next == s.next && s'.condemned == s.condemned - {e}
    requires Chain(s', x') == Chain(s, x)
    ensures PurgerOk(s', Forget(q, e), x') && (Holds(Forget(q, e)) <==> Holds(q)) && OwnedBy(Forget(q, e)) == OwnedBy(q)
  {
    hide Leads, Without, Distinct, WalkOk;
    if Holds(q) { FreeKeepsWalk(s, x, s', x', q.walk, e); }
  }

  lemma FreeKeeps(s: State, x: Aux, p: nat, evict: bool) returns (x': Aux)
    requires Inv(s, x) && p < |s.purgers| && s.purgers[p].Freeing? && s.purgers[p].owned != []
    ensures Inv(PurgeStep(s, p, evict), x') && Chain(PurgeStep(s, p, evict), x') == Chain(s, x)
  {
    hide Base, InsertersOk, OwnersOk, PurgerOk, Drop, Distinct, Without;
    var owned := s.purgers[p].owned;
    var e := owned[0];
    var s' := PurgeStep(s, p, evict);
    x' := x.(removed := x.removed - {e});
    assert e in x.removed by { FreeingRemoved(s, x, p); }
    FreeKeepsBase(s, x.removed, s', e);
    assert InsertersOk(s') by { BaseDistinct(s, x.removed); FreeKeepsInserters(s, s', e); }
    forall q | 0 <= q < |s.purgers| && q != p
      ensures OwnedBy(s'.purgers[q]) == OwnedBy(s.purgers[q]) && s'.purgers[q] == Forget(s.purgers[q], e)
    {
    }
    FreeOwners(s.condemned, s.purgers, p, s'.purgers);
    forall q | 0 <= q < |s'.purgers|
      ensures PurgerOk(s', s'.purgers[q], x') && (Holds(s'.purgers[q]) <==> Holds(s.purgers[q]))
    {
      assert PurgerOk(s, s.purgers[q], x);
      if q == p {
        FreeKeepsOwn(s, x, s', x', owned);
      } else {
        FreeKeepsPurger(s, x, s', x', s.purgers[q], e);
      }
    }
    assert LockOk(s') by { LockSame(s, s'); }
  }

  lemma BaseDistinct(s: State, removed: set<nat>)
    requires Base(s, removed)
    ensures Distinct(s.log)
  {
  }

  lemma FreeingRemoved(s: State, x: Aux, p: nat)
    requires Inv(s, x) && p < |s.purgers| && s.purgers[p].Freeing?
    ensures forall e :: e in s.purgers[p].owned ==> e in x.removed
  {
    assert PurgerOk(s, s.purgers[p], x);
  }

  lemma FreeKeepsOwn(s: State, x: Aux, s': State, x': Aux, owned: seq<nat>)
    requires PurgerOk(s, Freeing(owned), x) && owned != [] && owned[0] !in owned[1..] && x' == x.(removed := x.removed - {owned[0]})
    ensures PurgerOk(s', Freeing(owned[1..]), x')
  {
    assert forall f :: f in owned[1..] ==> f in owned;
  }

  lemma LockSame(s: State, s': State)
    requires LockOk(s) && s'.head == s.head && |s'.purgers| == |s.purgers|
    requires forall q :: 0 <= q < |s.purgers| ==> (Holds(s'.purgers[q]) <==> Holds(s.purgers[q]))
    ensures LockOk(s')
  {
    if s'.head.locked {
      var q :| 0 <= q < |s.purgers| && Holds(s.purgers[q]);
      assert Holds(s'.purgers[q]);
    }
  }
}
