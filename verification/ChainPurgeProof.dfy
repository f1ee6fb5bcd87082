/** The invariant of chain purging, and its preservation by every step. */
module ChainPurgeProof {
  import opened Lists
  import opened ChainPurge

  // Pointer paths.

  lemma {:induction false} LeadsStore(p: Ptr, next: map<nat, Ptr>, c: seq<nat>, q: Ptr, x: nat, v: Ptr)
    requires Leads(p, next, c, q) && x !in c
    ensures Leads(p, next[x := v], c, q)
    decreases |c|
  {
    if c != [] { LeadsStore(next[c[0]], next, c[1..], q, x, v); }
  }

  lemma {:induction false} LeadsConcat(p: Ptr, next: map<nat, Ptr>, c: seq<nat>, m: Ptr, d: seq<nat>, q: Ptr)
    requires Leads(p, next, c, m) && Leads(m, next, d, q)
    ensures Leads(p, next, c + d, q)
    decreases |c|
  {
    if c == [] {
      assert c + d == d;
    } else {
      LeadsConcat(next[c[0]], next, c[1..], m, d, q);
      assert (c + d)[1..] == c[1..] + d;
    }
  }

  lemma LeadsSnoc(p: Ptr, next: map<nat, Ptr>, c: seq<nat>, x: nat)
    requires Leads(p, next, c, To(x)) && x in next
    ensures Leads(p, next, c + [x], next[x])
  {
    assert Leads(To(x), next, [x], next[x]);
    LeadsConcat(p, next, c, To(x), [x], next[x]);
  }

  lemma LeadsCons(p: Ptr, next: map<nat, Ptr>, c: seq<nat>, q: Ptr, e: nat)
    requires Leads(p, next, c, q) && e in next && next[e] == p
    ensures Leads(To(e), next, [e] + c, q)
  {
    assert ([e] + c)[1..] == c;
  }

  /** Changing where the last entry of a path points. */
  lemma {:induction false} LeadsRetarget(p: Ptr, next: map<nat, Ptr>, c: seq<nat>, q: Ptr, q': Ptr)
    requires c != [] && Distinct(c) && Leads(p, next, c, q)
    ensures Leads(p, next[c[|c| - 1] := q'], c, q')
    decreases |c|
  {
    if |c| > 1 {
      assert c[1..][|c[1..]| - 1] == c[|c| - 1];
      LeadsRetarget(next[c[0]], next, c[1..], q, q');
    }
  }

  // Filtering the log.

  lemma DisjointParts(a: seq<nat>, d: seq<nat>, b: seq<nat>)
    requires Distinct(a + d + b)
    ensures forall e :: e in a ==> e !in d && e !in b
    ensures forall e :: e in b ==> e !in d
  {
    var c := a + d + b;
    forall i, j | 0 <= i < |a| && 0 <= j < |d|
      ensures a[i] != d[j]
    {
      assert c[i] == a[i] && c[|a| + j] == d[j];
    }
    forall i, j | 0 <= i < |a| && 0 <= j < |b|
      ensures a[i] != b[j]
    {
      assert c[i] == a[i] && c[|a| + |d| + j] == b[j];
    }
    forall i, j | 0 <= i < |d| && 0 <= j < |b|
      ensures d[i] != b[j]
    {
      assert c[|a| + i] == d[i] && c[|a| + |d| + j] == b[j];
    }
  }

  /** Cutting the middle out of a distinct list is filtering out its elements. */
  lemma WithoutMiddle(log: seq<nat>, r: set<nat>, a: seq<nat>, d: seq<nat>, b: seq<nat>)
    requires Without(log, r) == a + d + b && Distinct(a + d + b)
    ensures Without(log, r + Elements(d)) == a + b
  {
    hide Without, Distinct;
    var rd := Elements(d);
    WithoutTwice(log, r, rd);
    WithoutConcat(a + d, b, rd);
    WithoutConcat(a, d, rd);
    DisjointParts(a, d, b);
    WithoutNone(a, rd);
    WithoutAll(d, rd);
    WithoutNone(b, rd);
  }

  // Invariant.

  /**
   Bookkeeping of a proof: the entries cut out so far and, while a thread holds the lock, the
   chain in four parts: inserted since its head was read, kept, to be cut out, not yet visited.
   `a` and `b` are the pointers into the second and third part.
   */
  datatype Aux = Aux(
    removed: set<nat>, front: seq<nat>, kept: seq<nat>, dead: seq<nat>, rest: seq<nat>, a: Ptr, b: Ptr)

  function Chain(s: State, x: Aux): seq<nat> {
    Without(s.log, x.removed)
  }

  ghost predicate Base(s: State, removed: set<nat>) {
    && Distinct(s.log)
    && removed <= s.condemned
    && (forall e :: e in s.condemned ==> e in s.log)
    && Leads(s.head.ptr, s.next, Without(s.log, removed), End(s.home))
    && (s.head.ptr.End? ==> !s.head.locked)
  }

  ghost predicate InserterOk(s: State, ins: Inserter) {
    && (!ins.Resting? ==> ins.entry !in s.log)
    && (ins.Stored? ==> ins.entry in s.next && s.next[ins.entry] == ins.seen.ptr)
  }

  ghost predicate InsertersOk(s: State) {
    && (forall i :: 0 <= i < |s.inserters| ==> InserterOk(s, s.inserters[i]))
    && (forall i, j :: 0 <= i < j < |s.inserters| && !s.inserters[i].Resting? && !s.inserters[j].Resting? ==>
          s.inserters[i].entry != s.inserters[j].entry)
  }

  /** Where the unvisited part begins. */
  function Ahead(next: map<nat, Ptr>, w: Walk): Ptr {
    if w.phase.ReadingNext? && w.ptr.To? && w.ptr.entry in next then next[w.ptr.entry] else w.ptr
  }

  ghost predicate Parts(home: nat, head: Ptr, next: map<nat, Ptr>, x: Aux, ahead: Ptr) {
    && Leads(head, next, x.front, x.a)
    && Leads(x.a, next, x.kept, x.b)
    && Leads(x.b, next, x.dead, ahead)
    && Leads(ahead, next, x.rest, End(home))
  }

  ghost predicate Recorded(condemned: set<nat>, w: Walk, x: Aux) {
    && Distinct(w.owned)
    && (forall e :: e in w.owned ==> e in condemned)
    && w.condemnedBefore <= condemned
    && (forall e :: e in w.owned || e in w.condemnedBefore ==> e in x.removed || e in x.dead || e in x.rest)
  }

  ghost predicate AtHand(next: map<nat, Ptr>, w: Walk, x: Aux) {
    && w.ptr.To? && w.ptr.entry in next
    && (if w.pending then x.dead != [] && w.ptr.entry == x.dead[|x.dead| - 1]
        else x.kept != [] && w.ptr.entry == x.kept[|x.kept| - 1])
  }

  ghost predicate WalkOk(s: State, w: Walk, x: Aux) {
    && Parts(s.home, s.head.ptr, s.next, x, Ahead(s.next, w))
    && Chain(s, x) == x.front + x.kept + x.dead + x.rest
    && (w.prev.Some? && !w.phase.Finished? ==> x.kept != [] && x.kept[|x.kept| - 1] == w.prev.value)
    && (w.prev.None? && !w.phase.Finished? ==> x.kept == [] && w.saved.ptr == x.a)
    && (w.pending <==> x.dead != [])
    && (forall e :: e in x.dead ==> e in s.condemned)
    && w.saved.locked && s.head.locked
    && (w.phase.Stitching? ==> w.pending)
    && (w.phase.Stitching? && w.ptr.To? ==> w.ptr.entry !in w.owned && w.ptr.entry !in w.condemnedBefore)
    && (w.phase.ReadingNext? ==> AtHand(s.next, w, x))
    && (w.phase.Finished? ==> x.rest == [] && !w.pending)
    && Recorded(s.condemned, w, x)
  }

  /** The entries a thread is destroying. */
  function OwnedBy(p: Purger): seq<nat> {
    match p
    case Absent => []
    case Acquiring(_, owned) => owned
    case Walking(w) => w.owned
    case Freeing(owned) => owned
  }

  /** Each entry being destroyed is destroyed by one thread at most. */
  ghost predicate OwnersOk(condemned: set<nat>, purgers: seq<Purger>) {
    && (forall p :: 0 <= p < |purgers| ==> Distinct(OwnedBy(purgers[p])))
    && (forall p, e :: 0 <= p < |purgers| && e in OwnedBy(purgers[p]) ==> e in condemned)
    && (forall p, q, e :: 0 <= p < q < |purgers| && e in OwnedBy(purgers[p]) ==> e !in OwnedBy(purgers[q]))
  }

  ghost predicate IdleWalk(condemned: set<nat>, w: Walk, removed: set<nat>) {
    && w.phase.Finished?
    && Distinct(w.owned)
    && forall e :: e in w.owned || e in w.condemnedBefore ==> e in removed
  }

  ghost predicate PurgerOk(s: State, p: Purger, x: Aux) {
    && (p.Walking? ==> if Holds(p) then WalkOk(s, p.walk, x) else IdleWalk(s.condemned, p.walk, x.removed))
    && (p.Freeing? ==> forall e :: e in p.owned ==> e in x.removed)
  }

  ghost predicate LockOk(s: State) {
    && (forall p, q :: 0 <= p < q < |s.purgers| && Holds(s.purgers[p]) ==> !Holds(s.purgers[q]))
    && (s.head.locked ==> exists p :: 0 <= p < |s.purgers| && Holds(s.purgers[p]))
    && (forall p :: 0 <= p < |s.purgers| && Holds(s.purgers[p]) ==> s.head.locked)
  }

  ghost predicate Inv(s: State, x: Aux) {
    && Base(s, x.removed)
    && InsertersOk(s)
    && LockOk(s)
    && OwnersOk(s.condemned, s.purgers)
    && forall p :: 0 <= p < |s.purgers| ==> PurgerOk(s, s.purgers[p], x)
  }

  // Private stores and inserts.

  lemma ChainInLog(s: State, removed: set<nat>, e: nat)
    requires e !in s.log
    ensures e !in Without(s.log, removed)
  {
    WithoutMembers(s.log, removed, e);
  }

  lemma PartsStore(home: nat, head: Ptr, next: map<nat, Ptr>, x: Aux, ahead: Ptr, e: nat, v: Ptr)
    requires Parts(home, head, next, x, ahead) && e !in x.front + x.kept + x.dead + x.rest
    ensures Parts(home, head, next[e := v], x, ahead)
  {
    LeadsStore(head, next, x.front, x.a, e, v);
    LeadsStore(x.a, next, x.kept, x.b, e, v);
    LeadsStore(x.b, next, x.dead, ahead, e, v);
    LeadsStore(ahead, next, x.rest, End(home), e, v);
  }

  /** An insert writes the next pointer of an entry that is not linked yet. */
  lemma StoreKeeps(s: State, x: Aux, i: nat)
    requires Inv(s, x) && i < |s.inserters| && s.inserters[i].Loaded?
    ensures Inv(InsertStep(s, i, 0, true), x)
  {
    hide Leads, Without, Recorded, Distinct;
    var s' := InsertStep(s, i, 0, true);
    var Loaded(e, seen) := s.inserters[i];
    assert InserterOk(s, s.inserters[i]);
    ChainInLog(s, x.removed, e);
    LeadsStore(s.head.ptr, s.next, Chain(s, x), End(s.home), e, seen.ptr);
    forall j | 0 <= j < |s'.inserters|
      ensures InserterOk(s', s'.inserters[j])
    {
      assert InserterOk(s, s.inserters[j]);
    }
    forall p | 0 <= p < |s'.purgers|
      ensures PurgerOk(s', s'.purgers[p], x)
    {
      assert PurgerOk(s, s.purgers[p], x);
      if Holds(s.purgers[p]) {
        StoreKeepsWalk(s, s', s.purgers[p].walk, x, e, seen.ptr);
      }
    }
  }

  lemma StoreKeepsWalk(s: State, s': State, w: Walk, x: Aux, e: nat, v: Ptr)
    requires WalkOk(s, w, x) && e !in Chain(s, x)
    requires s'.home == s.home && s'.head == s.head && s'.log == s.log && s'.condemned == s.condemned && s'.next == s.next[e := v]
    ensures WalkOk(s', w, x)
  {
    hide Leads, Without, Recorded;
    PartsStore(s.home, s.head.ptr, s.next, x, Ahead(s.next, w), e, v);
    if w.phase.ReadingNext? {
      var at := if w.pending then x.dead else x.kept;
      assert w.ptr.entry in at;
      assert w.ptr.entry in Chain(s, x);
    }
  }

  lemma LinkKeepsBase(s: State, removed: set<nat>, e: nat, s': State)
    requires Base(s, removed) && e !in s.log && e in s.next && s.next[e] == s.head.ptr
    requires s'.home == s.home && s'.next == s.next && s'.condemned == s.condemned
    requires s'.log == [e] + s.log && s'.head == Head(To(e), s.head.locked)
    ensures Base(s', removed) && Without(s'.log, removed) == [e] + Without(s.log, removed)
  {
    assert s'.log[1..] == s.log;
    var c := Without(s.log, removed);
    assert e !in removed;
    assert ([e] + c)[1..] == c;
  }

  lemma LinkKeepsWalk(s: State, s': State, w: Walk, x: Aux, e: nat)
    requires WalkOk(s, w, x) && e in s.next && s.next[e] == s.head.ptr
    requires s'.home == s.home && s'.next == s.next && s'.condemned == s.condemned && s'.head == Head(To(e), s.head.locked)
    requires Without(s'.log, x.removed) == [e] + Chain(s, x)
    ensures WalkOk(s', w, x.(front := [e] + x.front))
  {
    hide Without, Recorded, Leads, Distinct;
    var x' := x.(front := [e] + x.front);
    assert Recorded(s'.condemned, w, x') by { RecordedFront(s.condemned, w, x, x'); }
    LeadsCons(s.head.ptr, s.next, x.front, x.a, e);
    assert [e] + (x.front + x.kept + x.dead + x.rest) == x'.front + x.kept + x.dead + x.rest;
  }

  lemma RecordedFront(condemned: set<nat>, w: Walk, x: Aux, x': Aux)
    requires Recorded(condemned, w, x) && x' == x.(front := x'.front)
    ensures Recorded(condemned, w, x')
  {
  }

  lemma LinkKeeps(s: State, x: Aux, i: nat) returns (x': Aux)
    requires Inv(s, x) && i < |s.inserters| && s.inserters[i].Stored? && s.head == s.inserters[i].seen
    ensures Inv(InsertStep(s, i, 0, true), x') && Chain(InsertStep(s, i, 0, true), x') == [s.inserters[i].entry] + Chain(s, x)
  {
    hide Leads, Without, Recorded, WalkOk, IdleWalk, Distinct;
    var Stored(e, seen) := s.inserters[i];
    var s' := InsertStep(s, i, 0, true);
    assert InserterOk(s, s.inserters[i]);
    LinkKeepsBase(s, x.removed, e, s');
    x' := x.(front := [e] + x.front);
    forall j | 0 <= j < |s'.inserters|
      ensures InserterOk(s', s'.inserters[j])
    {
      assert InserterOk(s, s.inserters[j]);
    }
    forall p | 0 <= p < |s'.purgers|
      ensures PurgerOk(s', s'.purgers[p], x')
    {
      assert PurgerOk(s, s.purgers[p], x);
      if Holds(s.purgers[p]) { LinkKeepsWalk(s, s', s.purgers[p].walk, x, e); }
    }
  }

  lemma ReloadKeeps(s: State, x: Aux, i: nat, ins: Inserter)
    requires Inv(s, x) && i < |s.inserters| && (ins.Claimed? || ins.Loaded?) && ins.entry !in s.log
    requires forall j :: 0 <= j < |s.inserters| && j != i && !s.inserters[j].Resting? ==> s.inserters[j].entry != ins.entry
    ensures Inv(s.(inserters := s.inserters[i := ins]), x)
  {
    hide Leads, Without, Recorded, Distinct, OwnersOk;
    var s' := s.(inserters := s.inserters[i := ins]);
    forall j | 0 <= j < |s'.inserters|
      ensures InserterOk(s', s'.inserters[j])
    {
      if j != i { assert InserterOk(s, s.inserters[j]); }
    }
    forall p | 0 <= p < |s'.purgers|
      ensures PurgerOk(s', s'.purgers[p], x)
    {
      assert PurgerOk(s, s.purgers[p], x);
      if Holds(s.purgers[p]) { SameWalk(s, s', s.purgers[p].walk, x); }
    }
  }

  lemma SameWalk(s: State, s': State, w: Walk, x: Aux)
    requires WalkOk(s, w, x)
    requires s'.home == s.home && s'.head == s.head && s'.next == s.next && s'.log == s.log && s.condemned <= s'.condemned
    ensures WalkOk(s', w, x)
  {
    hide Leads, Without, Distinct;
  }

  lemma InsertKeeps(s: State, x: Aux, i: nat, e: nat, lucky: bool) returns (x': Aux)
    requires Inv(s, x) && i < |s.inserters|
    ensures Inv(InsertStep(s, i, e, lucky), x')
    ensures !(s.inserters[i].Stored? && lucky && s.head == s.inserters[i].seen) ==> x' == x
  {
    hide Base, PurgerOk, LockOk;
    x' := x;
    assert InserterOk(s, s.inserters[i]);
    match s.inserters[i]
    case Resting => if !Taken(s, e) { ReloadKeeps(s, x, i, Claimed(e)); }
    case Claimed(f) => ReloadKeeps(s, x, i, Loaded(f, s.head));
    case Loaded(_, _) => StoreKeeps(s, x, i);
    case Stored(f, seen) =>
      if lucky && s.head == seen {
        x' := LinkKeeps(s, x, i);
      } else {
        ReloadKeeps(s, x, i, Claimed(f));
      }
  }

  /** A thread starts to destroy an entry. */
  lemma CondemnKeeps(s: State, x: Aux, p: nat, e: nat)
    requires Inv(s, x) && p < |s.purgers| && s.purgers[p].Absent? && e in s.log && e !in s.condemned
    ensures Inv(Apply(s, BeginRemove(p, e)), x)
  {
    hide Leads, Without, Distinct, OwnersOk;
    var s' := Apply(s, BeginRemove(p, e));
    forall i | 0 <= i < |s'.inserters|
      ensures InserterOk(s', s'.inserters[i])
    {
      assert InserterOk(s, s.inserters[i]);
    }
    forall q | 0 <= q < |s'.purgers|
      ensures PurgerOk(s', s'.purgers[q], x)
    {
      assert PurgerOk(s, s.purgers[q], x);
      if Holds(s.purgers[q]) { SameWalk(s, s', s.purgers[q].walk, x); }
    }
    if s'.head.locked {
      var q :| 0 <= q < |s.purgers| && Holds(s.purgers[q]);
      assert Holds(s'.purgers[q]);
    }
    assert OwnersOk(s'.condemned, s'.purgers) by { NewOwner(s.condemned, s.purgers, p, s'.purgers[p], e); }
  }

  lemma NewOwner(condemned: set<nat>, purgers: seq<Purger>, p: nat, np: Purger, e: nat)
    requires OwnersOk(condemned, purgers) && p < |purgers| && e !in condemned && OwnedBy(np) == OwnedBy(purgers[p]) + [e]
    ensures OwnersOk(condemned + {e}, purgers[p := np])
  {
    assert forall f :: f in OwnedBy(np) <==> f in OwnedBy(purgers[p]) || f == e;
  }

  lemma SameOwner(condemned: set<nat>, purgers: seq<Purger>, p: nat, np: Purger)
    requires OwnersOk(condemned, purgers) && p < |purgers| && (OwnedBy(np) == OwnedBy(purgers[p]) || OwnedBy(np) == [])
    ensures OwnersOk(condemned, purgers[p := np])
  {
  }

  /** Another chain stores into a slot that this chain does not use. */
  lemma ForeignKeeps(s: State, x: Aux, e: nat, v: Ptr)
    requires Inv(s, x) && !Taken(s, e)
    ensures Inv(s.(next := s.next[e := v]), x)
  {
    hide Leads, Without, Recorded, Distinct, OwnersOk;
    var s' := s.(next := s.next[e := v]);
    ChainInLog(s, x.removed, e);
    LeadsStore(s.head.ptr, s.next, Chain(s, x), End(s.home), e, v);
    forall j | 0 <= j < |s'.inserters|
      ensures InserterOk(s', s'.inserters[j])
    {
      assert InserterOk(s, s.inserters[j]);
    }
    forall p | 0 <= p < |s'.purgers|
      ensures PurgerOk(s', s'.purgers[p], x)
    {
      assert PurgerOk(s, s.purgers[p], x);
      if Holds(s.purgers[p]) { StoreKeepsWalk(s, s', s.purgers[p].walk, x, e, v); }
    }
  }
}
