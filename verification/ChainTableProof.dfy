/** What a lookup can reach among chains whose entries come and go, and why that keeps it from missing anything. */
module ChainTableProof {
  import opened Lists
  import opened ChainPurge
  import opened ChainPurgeProof
  import opened ChainPurgeSteps
  import opened ChainPurgeTheorems
  import opened ChainTable

  // The chains beside each other.

  ghost predicate ChainsOk(t: Table, xs: seq<Aux>) {
    |xs| == |t.homes| && forall k :: 0 <= k < |t.homes| ==> Inv(View(t, k), xs[k])
  }

  /** No slot is used by two chains. */
  ghost predicate Separate(t: Table) {
    forall j, k, e :: 0 <= j < |t.homes| && 0 <= k < |t.homes| && Taken(View(t, j), e) && Taken(View(t, k), e) ==> j == k
  }

  ghost function ChainAt(t: Table, xs: seq<Aux>, k: nat): seq<nat>
    requires k < |t.homes| && |xs| == |t.homes|
  {
    Chain(View(t, k), xs[k])
  }

  lemma ChainTaken(s: State, x: Aux, e: nat)
    requires e in Chain(s, x)
    ensures e in s.log && Taken(s, e)
  {
    WithoutMembers(s.log, x.removed, e);
  }

  lemma LinkedOnChain(s: State, x: Aux, e: nat)
    requires Inv(s, x) && e in s.log && e !in s.condemned
    ensures e in Chain(s, x)
  {
    WithoutMembers(s.log, x.removed, e);
  }

  /** A step writes at most one pointer, that of a slot its chain uses. */
  lemma OnePointer(s: State, x: Aux, s': State, x': Aux) returns (y: nat, v: Ptr)
    requires Moves(s, x, s', x')
    ensures s'.next == s.next || (Taken(s, y) && s'.next == s.next[y := v])
  {
    hide Without;
    y, v := 0, End(0);
    if Stores(s, x, s', x') {
      var i :| 0 <= i < |s.inserters| && s.inserters[i].Loaded? && s'.next == s.next[s.inserters[i].entry := s.inserters[i].seen.ptr];
      y, v := s.inserters[i].entry, s.inserters[i].seen.ptr;
    } else if Cut(s, x, s', x') {
      var a, d, b :| CutAt(s, x, s', x', a, d, b);
      if a != [] {
        y, v := a[|a| - 1], PtrTo(b, s.home);
        assert y in a;
        ChainTaken(s, x, y);
      }
    }
  }

  lemma OthersKeep(t: Table, xs: seq<Aux>, k: nat, s': State, x': Aux, j: nat)
    requires ChainsOk(t, xs) && Separate(t) && k < |t.homes| && j < |t.homes| && j != k
    requires Moves(View(t, k), xs[k], s', x')
    ensures Inv(View(Put(t, k, s'), j), xs[j])
  {
    hide Inv, Moves, Taken;
    var y, v := OnePointer(View(t, k), xs[k], s', x');
    if s'.next == t.next {
      assert View(Put(t, k, s'), j) == View(t, j);
    } else {
      ForeignKeeps(View(t, j), xs[j], y, v);
      assert View(Put(t, k, s'), j) == View(t, j).(next := t.next[y := v]);
    }
  }

  /** A step of a chain takes no further slots, except that an insert claims one. */
  lemma TakenBefore(s: State, a: ChainPurge.Action, e: nat)
    requires Taken(ChainPurge.Apply(s, a), e)
    requires Distinct(s.log)
    ensures Taken(s, e) || (a.Insert? && a.i < |s.inserters| && s.inserters[a.i].Resting? && a.entry == e)
  {
    hide Distinct, Drop;
    var s' := ChainPurge.Apply(s, a);
    if a.Purge? && a.p < |s.purgers| {
      assert s'.inserters == s.inserters;
      if e in s'.log { PurgeLog(s, a.p, a.evict, e); }
    } else if e !in s'.log {
      var i :| 0 <= i < |s'.inserters| && !s'.inserters[i].Resting? && s'.inserters[i].entry == e;
    }
  }

  lemma PurgeLog(s: State, p: nat, evict: bool, e: nat)
    requires p < |s.purgers| && Distinct(s.log) && e in PurgeStep(s, p, evict).log
    ensures e in s.log
  {
    hide Distinct, Drop;
    if s.purgers[p].Freeing? && s.purgers[p].owned != [] { DropMembers(s.log, s.purgers[p].owned[0]); }
  }

  /** A head pointer that an insert has loaded was the head then, or still is what it loaded before. */
  lemma LoadedBefore(s: State, a: ChainPurge.Action, i: nat)
    requires var s' := ChainPurge.Apply(s, a); i < |s'.inserters| && (s'.inserters[i].Loaded? || s'.inserters[i].Stored?)
    ensures var ins := ChainPurge.Apply(s, a).inserters[i];
            && i < |s.inserters| && !s.inserters[i].Resting? && s.inserters[i].entry == ins.entry
            && (ins.seen == s.head || ((s.inserters[i].Loaded? || s.inserters[i].Stored?) && s.inserters[i].seen == ins.seen))
  {
    hide Drop;
  }

  // What a lookup can reach.

  /**
   For an entry e that a lookup must not miss: the chain before and after e, and a set of slots,
   with all that are on other chains or before e, none behind e, and closed under pointers up to e.
   */
  datatype Trail = Trail(before: seq<nat>, after: seq<nat>, v: iset<nat>)

  /** A pointer that does not lead past e: not to a slot behind it, nor to the end of its chain. */
  ghost predicate Good(h: nat, e: nat, v: iset<nat>, p: Ptr) {
    match p
    case End(k) => k != h
    case To(y) => y in v || y == e
  }

  ghost predicate InserterGood(h: nat, e: nat, v: iset<nat>, ins: Inserter) {
    (ins.Loaded? || ins.Stored?) && ins.entry in v ==> Good(h, e, v, ins.seen.ptr)
  }

  ghost predicate Around(c: seq<nat>, e: nat, tr: Trail) {
    && c == tr.before + [e] + tr.after
    && (forall y :: y in tr.before ==> y in tr.v) && (forall y :: y in tr.after ==> y !in tr.v) && e !in tr.v
  }

  ghost predicate Pointers(next: map<nat, Ptr>, h: nat, e: nat, v: iset<nat>) {
    forall y :: y in v ==> y in next && Good(h, e, v, next[y])
  }

  ghost predicate Closed(t: Table, xs: seq<Aux>, h: nat, e: nat, tr: Trail) {
    && |xs| == |t.homes| && h < |t.homes|
    && Around(ChainAt(t, xs, h), e, tr)
    && (forall k, y :: 0 <= k < |t.homes| && k != h && y in ChainAt(t, xs, k) ==> y in tr.v)
    && Pointers(t.next, h, e, tr.v)
    && (forall k, i :: 0 <= k < |t.homes| && 0 <= i < |t.homes[k].inserters| ==> InserterGood(h, e, tr.v, t.homes[k].inserters[i]))
  }

  lemma HeadIs(s: State, x: Aux)
    requires Inv(s, x)
    ensures s.head.ptr == PtrTo(Chain(s, x), s.home)
  {
  }

  /** The head of every chain is a good pointer. */
  lemma HeadGood(t: Table, xs: seq<Aux>, h: nat, e: nat, tr: Trail, k: nat)
    requires ChainsOk(t, xs) && Closed(t, xs, h, e, tr) && k < |t.homes|
    ensures Good(h, e, tr.v, t.homes[k].head.ptr)
  {
    hide Inv, InserterGood, Pointers;
    HeadIs(View(t, k), xs[k]);
    var c := ChainAt(t, xs, k);
    if k == h {
      assert tr.before != [] ==> tr.before[0] in tr.before;
    } else if c != [] {
      assert c[0] in c;
    }
  }

  // A step of chain k keeps the set closed.

  lemma ChainsAfter(t: Table, xs: seq<Aux>, k: nat, s': State, x': Aux)
    requires |xs| == |t.homes| && k < |t.homes|
    ensures ChainAt(Put(t, k, s'), xs[k := x'], k) == Without(s'.log, x'.removed)
    ensures forall j :: 0 <= j < |t.homes| && j != k ==> ChainAt(Put(t, k, s'), xs[k := x'], j) == ChainAt(t, xs, j)
  {
  }

  /** What inserts remember stays good. */
  lemma InsertersStay(t: Table, xs: seq<Aux>, k: nat, a: ChainPurge.Action, h: nat, e: nat, tr: Trail)
    requires ChainsOk(t, xs) && Closed(t, xs, h, e, tr) && k < |t.homes|
    ensures forall i :: 0 <= i < |ChainPurge.Apply(View(t, k), a).inserters| ==>
              InserterGood(h, e, tr.v, ChainPurge.Apply(View(t, k), a).inserters[i])
  {
    hide Inv, ChainPurge.Apply, Around, Pointers, Good;
    var s := View(t, k);
    var s' := ChainPurge.Apply(s, a);
    HeadGood(t, xs, h, e, tr, k);
    forall i | 0 <= i < |s'.inserters|
      ensures InserterGood(h, e, tr.v, s'.inserters[i])
    {
      if s'.inserters[i].Loaded? || s'.inserters[i].Stored? {
        LoadedBefore(s, a, i);
        assert InserterGood(h, e, tr.v, t.homes[k].inserters[i]);
      }
    }
  }

  lemma GoodGrows(h: nat, e: nat, v: iset<nat>, v': iset<nat>, p: Ptr)
    requires Good(h, e, v, p) && v <= v'
    ensures Good(h, e, v', p)
  {
  }

  /** The chains stay as they are, and the pointers stay good. */
  lemma SameChainsClosed(t: Table, xs: seq<Aux>, k: nat, s': State, x': Aux, h: nat, e: nat, tr: Trail)
    requires Closed(t, xs, h, e, tr) && k < |t.homes| && Chain(s', x') == ChainAt(t, xs, k)
    requires Pointers(s'.next, h, e, tr.v)
    requires forall i :: 0 <= i < |s'.inserters| ==> InserterGood(h, e, tr.v, s'.inserters[i])
    ensures Closed(Put(t, k, s'), xs[k := x'], h, e, tr)
  {
    hide InserterGood, Around, Good, Without, Pointers;
    ChainsAfter(t, xs, k, s', x');
    var t', xs' := Put(t, k, s'), xs[k := x'];
    assert Around(ChainAt(t', xs', h), e, tr);
    forall j, y | 0 <= j < |t'.homes| && j != h && y in ChainAt(t', xs', j)
      ensures y in tr.v
    {
      assert y in ChainAt(t, xs, j);
    }
    forall j, n | 0 <= j < |t'.homes| && 0 <= n < |t'.homes[j].inserters|
      ensures InserterGood(h, e, tr.v, t'.homes[j].inserters[n])
    {
      if j != k { assert InserterGood(h, e, tr.v, t.homes[j].inserters[n]); }
    }
  }

  lemma StoreGood(next: map<nat, Ptr>, h: nat, e: nat, v: iset<nat>, y: nat, p: Ptr)
    requires Pointers(next, h, e, v) && (y in v ==> Good(h, e, v, p))
    ensures Pointers(next[y := p], h, e, v)
  {
  }

  lemma MoreGood(t: Table, h: nat, e: nat, v: iset<nat>, y: nat)
    requires Pointers(t.next, h, e, v) && y in t.next && Good(h, e, v, t.next[y])
    ensures Pointers(t.next, h, e, v + iset{y})
  {
    hide Good;
    forall z | z in v + iset{y}
      ensures z in t.next && Good(h, e, v + iset{y}, t.next[z])
    {
      GoodGrows(h, e, v, v + iset{y}, t.next[z]);
    }
  }

  lemma MoreInserterGood(h: nat, e: nat, v: iset<nat>, y: nat, ins: Inserter)
    requires InserterGood(h, e, v, ins) && (ins.Resting? || ins.entry != y)
    ensures InserterGood(h, e, v + iset{y}, ins)
  {
    if (ins.Loaded? || ins.Stored?) && ins.entry in v { GoodGrows(h, e, v, v + iset{y}, ins.seen.ptr); }
  }

  lemma TakenIf(s: State, y: nat)
    ensures y in s.log ==> Taken(s, y)
    ensures forall i :: 0 <= i < |s.inserters| && !s.inserters[i].Resting? && s.inserters[i].entry == y ==> Taken(s, y)
  {
  }

  /** Nobody else has claimed the slot of an insert, and no chain holds it. */
  lemma ClaimedOnce(t: Table, xs: seq<Aux>, k: nat, i: nat)
    requires ChainsOk(t, xs) && Separate(t) && k < |t.homes| && i < |t.homes[k].inserters| && !t.homes[k].inserters[i].Resting?
    ensures var y := t.homes[k].inserters[i].entry;
            && (forall j :: 0 <= j < |t.homes| ==> y !in ChainAt(t, xs, j) && y !in t.homes[j].log)
            && (forall j, n :: 0 <= j < |t.homes| && 0 <= n < |t.homes[j].inserters| && !(j == k && n == i) ==>
                  t.homes[j].inserters[n].Resting? || t.homes[j].inserters[n].entry != y)
  {
    hide Base, LockOk, OwnersOk, PurgerOk, Without;
    var y := t.homes[k].inserters[i].entry;
    assert Inv(View(t, k), xs[k]);
    assert InserterOk(View(t, k), View(t, k).inserters[i]);
    assert Taken(View(t, k), y);
    forall j | 0 <= j < |t.homes|
      ensures y !in ChainAt(t, xs, j) && y !in t.homes[j].log
    {
      TakenIf(View(t, j), y);
      if y in ChainAt(t, xs, j) { ChainTaken(View(t, j), xs[j], y); }
    }
    forall j, n | 0 <= j < |t.homes| && 0 <= n < |t.homes[j].inserters| && !(j == k && n == i)
      ensures t.homes[j].inserters[n].Resting? || t.homes[j].inserters[n].entry != y
    {
      TakenIf(View(t, j), y);
    }
  }

  lemma LinkClosed(t: Table, xs: seq<Aux>, k: nat, s': State, x': Aux, h: nat, e: nat, tr: Trail, i: nat) returns (tr': Trail)
    requires ChainsOk(t, xs) && Separate(t) && Closed(t, xs, h, e, tr) && k < |t.homes| && i < |t.homes[k].inserters|
    requires var ins := t.homes[k].inserters[i];
             && ins.Stored? && t.homes[k].head == ins.seen && s'.next == t.next
             && Chain(s', x') == [ins.entry] + ChainAt(t, xs, k) && s'.inserters == t.homes[k].inserters[i := Resting]
    ensures Closed(Put(t, k, s'), xs[k := x'], h, e, tr') && tr.v <= tr'.v
  {
    hide Inv, InserterGood, Good, Without, Pointers;
    var y := t.homes[k].inserters[i].entry;
    tr' := Trail(if k == h then [y] + tr.before else tr.before, tr.after, tr.v + iset{y});
    ChainsAfter(t, xs, k, s', x');
    HeadGood(t, xs, h, e, tr, k);
    ClaimedOnce(t, xs, k, i);
    StoredPointer(View(t, k), xs[k], i);
    MoreGood(t, h, e, tr.v, y);
    assert Around(ChainAt(Put(t, k, s'), xs[k := x'], h), e, tr') by {
      assert forall z :: z in tr.after || z == e ==> z in ChainAt(t, xs, h);
      assert [y] + (tr.before + [e] + tr.after) == ([y] + tr.before) + [e] + tr.after;
    }
    var t' := Put(t, k, s');
    forall j, n | 0 <= j < |t'.homes| && 0 <= n < |t'.homes[j].inserters|
      ensures InserterGood(h, e, tr'.v, t'.homes[j].inserters[n])
    {
      if j == k && n == i { RestingGood(h, e, tr'.v); } else {
        assert InserterGood(h, e, tr.v, t.homes[j].inserters[n]);
        MoreInserterGood(h, e, tr.v, y, t.homes[j].inserters[n]);
      }
    }
  }

  lemma RestingGood(h: nat, e: nat, v: iset<nat>)
    ensures InserterGood(h, e, v, Resting)
  {
  }

  lemma StoredPointer(s: State, x: Aux, i: nat)
    requires Inv(s, x) && i < |s.inserters| && s.inserters[i].Stored?
    ensures s.inserters[i].entry in s.next && s.next[s.inserters[i].entry] == s.inserters[i].seen.ptr
  {
    assert InserterOk(s, s.inserters[i]);
  }

  // Cutting entries out.

  lemma CutAfter(c: seq<nat>, e: nat, tr: Trail, a: seq<nat>, d: seq<nat>, b: seq<nat>) returns (tr': Trail)
    requires Around(c, e, tr) && c == a + d + b && |tr.before| < |a|
    ensures Around(a + b, e, tr') && tr'.v == tr.v && a[|a| - 1] !in tr.v
  {
    var n := |tr.before|;
    var rest := a[n + 1..];
    assert a[n] == c[n] == e;
    assert tr.before == c[..n] == a[..n];
    assert tr.after == c[n + 1..] == rest + d + b;
    tr' := tr.(after := rest + b);
    assert a + b == tr.before + [e] + tr'.after;
    assert |a| - 1 > n ==> a[|a| - 1] == rest[|rest| - 1];
  }

  lemma CutBefore(c: seq<nat>, e: nat, tr: Trail, a: seq<nat>, d: seq<nat>, b: seq<nat>) returns (tr': Trail)
    requires Around(c, e, tr) && c == a + d + b && |tr.before| >= |a| + |d|
    ensures Around(a + b, e, tr') && tr'.v == tr.v && b != [] && (b[0] in tr.v || b[0] == e)
  {
    var n := |tr.before|;
    var m := n - |a| - |d|;
    assert b[m] == c[n] == e;
    assert tr.before == c[..n] == a + d + b[..m];
    assert tr.after == c[n + 1..] == b[m + 1..];
    tr' := tr.(before := a + b[..m]);
    assert a + b == tr'.before + [e] + tr.after;
    assert m > 0 ==> b[0] in tr.before;
  }

  /** The chain around e after a cut that spares e. */
  lemma CutAround(c: seq<nat>, e: nat, tr: Trail, a: seq<nat>, d: seq<nat>, b: seq<nat>) returns (tr': Trail)
    requires Around(c, e, tr) && c == a + d + b && e !in d
    ensures Around(a + b, e, tr') && tr'.v == tr.v
    ensures a != [] && a[|a| - 1] in tr.v ==> b != [] && (b[0] in tr.v || b[0] == e)
  {
    var n := |tr.before|;
    if n < |a| {
      tr' := CutAfter(c, e, tr, a, d, b);
    } else {
      assert c[n] == e;
      assert forall i :: 0 <= i < |d| ==> c[|a| + i] == d[i] && d[i] != e;
      tr' := CutBefore(c, e, tr, a, d, b);
    }
  }

  lemma CutClosed(t: Table, xs: seq<Aux>, k: nat, s': State, x': Aux, h: nat, e: nat, tr: Trail) returns (tr': Trail)
    requires Closed(t, xs, h, e, tr) && k < |t.homes| && Cut(View(t, k), xs[k], s', x')
    requires e !in t.homes[h].condemned
    requires forall i :: 0 <= i < |s'.inserters| ==> InserterGood(h, e, tr.v, s'.inserters[i])
    ensures Closed(Put(t, k, s'), xs[k := x'], h, e, tr') && tr'.v == tr.v
  {
    hide InserterGood, Around, Without, Pointers;
    var a, d, b :| CutAt(View(t, k), xs[k], s', x', a, d, b);
    ChainsAfter(t, xs, k, s', x');
    tr' := tr;
    if k == h {
      tr' := CutAround(ChainAt(t, xs, k), e, tr, a, d, b);
    } else {
      assert b != [] ==> b[0] in ChainAt(t, xs, k);
    }
    if a != [] { StoreGood(t.next, h, e, tr.v, a[|a| - 1], PtrTo(b, k)); }
    var t', xs' := Put(t, k, s'), xs[k := x'];
    forall j, y | 0 <= j < |t'.homes| && j != h && y in ChainAt(t', xs', j)
      ensures y in tr.v
    {
      assert y in ChainAt(t, xs, j);
    }
    forall j, n | 0 <= j < |t'.homes| && 0 <= n < |t'.homes[j].inserters|
      ensures InserterGood(h, e, tr.v, t'.homes[j].inserters[n])
    {
      if j != k { assert InserterGood(h, e, tr.v, t.homes[j].inserters[n]); }
    }
  }

  /** Every step of every chain keeps what a lookup can reach away from what lies behind e. */
  lemma StepClosed(t: Table, xs: seq<Aux>, k: nat, a: ChainPurge.Action, x': Aux, h: nat, e: nat, tr: Trail) returns (tr': Trail)
    requires ChainsOk(t, xs) && Separate(t) && Closed(t, xs, h, e, tr) && k < |t.homes| && e !in t.homes[h].condemned
    requires Moves(View(t, k), xs[k], ChainPurge.Apply(View(t, k), a), x')
    ensures Closed(Put(t, k, ChainPurge.Apply(View(t, k), a)), xs[k := x'], h, e, tr') && tr.v <= tr'.v
  {
    hide ChainPurge.Apply, Inv, Around, InserterGood, Pointers, Good, Without, Cut;
    var s := View(t, k);
    var s' := ChainPurge.Apply(s, a);
    InsertersStay(t, xs, k, a, h, e, tr);
    tr' := tr;
    if Unmoved(s, xs[k], s', x') {
      SameChainsClosed(t, xs, k, s', x', h, e, tr);
    } else if Stores(s, xs[k], s', x') {
      var i :| 0 <= i < |s.inserters| && s.inserters[i].Loaded? && s'.next == s.next[s.inserters[i].entry := s.inserters[i].seen.ptr];
      assert InserterGood(h, e, tr.v, t.homes[k].inserters[i]);
      LoadedGood(h, e, tr.v, s.inserters[i]);
      StoreGood(t.next, h, e, tr.v, s.inserters[i].entry, s.inserters[i].seen.ptr);
      SameChainsClosed(t, xs, k, s', x', h, e, tr);
    } else if Links(s, xs[k], s', x') {
      var i :| 0 <= i < |s.inserters| && s.inserters[i].Stored? && s.head == s.inserters[i].seen
               && Chain(s', x') == [s.inserters[i].entry] + Chain(s, xs[k]) && s'.inserters == s.inserters[i := Resting];
      tr' := LinkClosed(t, xs, k, s', x', h, e, tr, i);
    } else {
      tr' := CutClosed(t, xs, k, s', x', h, e, tr);
    }
  }

  lemma LoadedGood(h: nat, e: nat, v: iset<nat>, ins: Inserter)
    requires InserterGood(h, e, v, ins) && ins.Loaded?
    ensures ins.entry in v ==> Good(h, e, v, ins.seen.ptr)
  {
  }
}
