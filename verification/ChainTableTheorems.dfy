/** Lookups in a table whose entries are removed and whose slots are used again, over every run. */
module ChainTableTheorems {
  import opened Lists
  import opened ChainPurge
  import opened ChainPurgeProof
  import opened ChainPurgeSteps
  import opened ChainPurgeTheorems
  import opened ChainTable
  import opened ChainTableProof

  ghost predicate WantedOk(t: Table, key: Key, wanted: set<nat>) {
    && key.home < |t.homes|
    && forall e :: e in wanted ==>
         && e in t.homes[key.home].log && e !in t.homes[key.home].condemned
         && e !in t.hidden && e in t.keys && t.keys[e] == key
  }

  /** A lookup stands where it cannot have passed e. */
  ghost predicate Placed(l: Lookup, e: nat, v: iset<nat>) {
    match l
    case Reading(_, at, held, _) => (at.Some? ==> at.value in v) && (held.Some? ==> held.value in v)
    case Matching(_, slot, held, _) => (slot in v || slot == e) && (held.Some? ==> held.value in v)
    case _ => true
  }

  ghost predicate Short(t: Table, xs: seq<Aux>, l: Lookup, e: nat)
    requires l.Reading? || l.Matching?
  {
    exists tr :: Closed(t, xs, l.key.home, e, tr) && Placed(l, e, tr.v)
  }

  ghost predicate LookupOk(t: Table, xs: seq<Aux>, l: Lookup) {
    && (l.Reading? || l.Matching? ==> WantedOk(t, l.key, l.wanted) && forall e :: e in l.wanted ==> Short(t, xs, l, e))
    && (l.NotFound? ==> l.wanted == {})
  }

  ghost predicate TableInv(t: Table, xs: seq<Aux>) {
    ChainsOk(t, xs) && Separate(t) && forall j :: 0 <= j < |t.lookups| ==> LookupOk(t, xs, t.lookups[j])
  }

  // Steps of the chains.

  lemma SeparateAfter(t: Table, xs: seq<Aux>, k: nat, a: ChainPurge.Action)
    requires ChainsOk(t, xs) && Separate(t) && k < |t.homes|
    requires a.Insert? && a.i < |t.homes[k].inserters| && t.homes[k].inserters[a.i].Resting? ==> !InUse(t, a.entry)
    ensures Separate(Put(t, k, ChainPurge.Apply(View(t, k), a)))
  {
    hide Inv, Taken, ChainPurge.Apply;
    var s' := ChainPurge.Apply(View(t, k), a);
    var t' := Put(t, k, s');
    LogDistinct(View(t, k), xs[k]);
    forall i, j, e | 0 <= i < |t'.homes| && 0 <= j < |t'.homes| && Taken(View(t', i), e) && Taken(View(t', j), e)
      ensures i == j
    {
      TakenThen(t, k, a, i, e);
      TakenThen(t, k, a, j, e);
    }
  }

  lemma LogDistinct(s: State, x: Aux)
    requires Inv(s, x)
    ensures Distinct(s.log)
  {
  }

  lemma TakenThen(t: Table, k: nat, a: ChainPurge.Action, i: nat, e: nat)
    requires k < |t.homes| && i < |t.homes| && Distinct(View(t, k).log)
    requires Taken(View(Put(t, k, ChainPurge.Apply(View(t, k), a)), i), e)
    requires a.Insert? && a.i < |t.homes[k].inserters| && t.homes[k].inserters[a.i].Resting? ==> !InUse(t, a.entry)
    ensures Taken(View(t, i), e) || (i == k && !InUse(t, e))
  {
    hide ChainPurge.Apply, Distinct;
    var s' := ChainPurge.Apply(View(t, k), a);
    var v := View(Put(t, k, s'), i);
    if i == k {
      assert v.log == s'.log && v.inserters == s'.inserters;
      TakenSame(v, s', e);
      TakenBefore(View(t, k), a, e);
    } else {
      TakenSame(v, View(t, i), e);
    }
  }

  lemma TakenSame(s: State, s': State, e: nat)
    requires s.log == s'.log && s.inserters == s'.inserters && Taken(s, e)
    ensures Taken(s', e)
  {
  }

  lemma ChainsKeep(t: Table, xs: seq<Aux>, k: nat, a: ChainPurge.Action) returns (x': Aux)
    requires ChainsOk(t, xs) && Separate(t) && k < |t.homes|
    ensures var s' := ChainPurge.Apply(View(t, k), a);
            Moves(View(t, k), xs[k], s', x') && ChainsOk(Put(t, k, s'), xs[k := x'])
  {
    hide Inv, Moves, ChainPurge.Apply;
    x' := ChainPurgeTheorems.StepKeeps(View(t, k), xs[k], a);
    var s' := ChainPurge.Apply(View(t, k), a);
    SameHome(View(t, k), a);
    var t', xs' := Put(t, k, s'), xs[k := x'];
    forall j | 0 <= j < |t'.homes|
      ensures Inv(View(t', j), xs'[j])
    {
      if j != k { OthersKeep(t, xs, k, s', x', j); } else { assert View(t', k) == s'; }
    }
  }

  lemma SameHome(s: State, a: ChainPurge.Action)
    ensures ChainPurge.Apply(s, a).home == s.home
  {
  }

  /** A slot in wanted is used by its chain, so no insert can claim it. */
  lemma WantedInUse(t: Table, key: Key, wanted: set<nat>, e: nat)
    requires WantedOk(t, key, wanted) && e in wanted
    ensures InUse(t, e)
  {
    assert Taken(View(t, key.home), e);
  }

  /** A wanted entry that a step does not condemn stays linked. */
  lemma StaysLinked(s: State, x: Aux, a: ChainPurge.Action, e: nat)
    requires Inv(s, x) && e in s.log && e !in s.condemned
    ensures e in ChainPurge.Apply(s, a).log
  {
    hide Base, InsertersOk, LockOk, PurgerOk, Drop;
    if a.Purge? && a.p < |s.purgers| && s.purgers[a.p].Freeing? && s.purgers[a.p].owned != [] {
      var f := s.purgers[a.p].owned[0];
      assert f in OwnedBy(s.purgers[a.p]);
      LogDistinct(s, x);
      DropMembers(s.log, f);
    }
  }

  /** One lookup across a step of chain k; gone are the entries condemned by it. */
  lemma LookupAfter(t: Table, xs: seq<Aux>, k: nat, a: ChainPurge.Action, x': Aux, t': Table, l: Lookup, gone: set<nat>)
    requires ChainsOk(t, xs) && Separate(t) && k < |t.homes| && LookupOk(t, xs, l)
    requires var s' := ChainPurge.Apply(View(t, k), a);
             && Moves(View(t, k), xs[k], s', x') && s'.condemned - t.homes[k].condemned <= gone
             && t' == Put(t, k, s').(keys := t'.keys, hidden := t'.hidden, lookups := t'.lookups)
    requires forall e :: InUse(t, e) && e !in gone ==> (e in t'.hidden ==> e in t.hidden) && (e in t.keys ==> e in t'.keys && t'.keys[e] == t.keys[e])
    ensures LookupOk(t', xs[k := x'], Lose(l, gone))
  {
    hide ChainPurge.Apply, Inv, Moves, Closed, InUse;
    var l', xs', s' := Lose(l, gone), xs[k := x'], ChainPurge.Apply(View(t, k), a);
    if l.Reading? || l.Matching? {
      var h := l.key.home;
      forall e | e in l'.wanted
        ensures e in t'.homes[h].log && e !in t'.homes[h].condemned && e !in t'.hidden && e in t'.keys && t'.keys[e] == l.key
        ensures Short(t', xs', l', e)
      {
        WantedInUse(t, l.key, l.wanted, e);
        if k == h { StaysLinked(View(t, k), xs[k], a, e); }
        var tr :| Closed(t, xs, h, e, tr) && Placed(l, e, tr.v);
        var tr' := StepClosed(t, xs, k, a, x', h, e, tr);
        ClosedSame(Put(t, k, s'), t', xs', h, e, tr');
        assert Placed(l', e, tr'.v);
      }
    }
  }

  lemma ClosedSame(t: Table, t': Table, xs: seq<Aux>, h: nat, e: nat, tr: Trail)
    requires Closed(t, xs, h, e, tr) && t'.homes == t.homes && t'.next == t.next
    ensures Closed(t', xs, h, e, tr)
  {
    hide Around, Pointers, InserterGood, Without;
    assert forall k :: 0 <= k < |t.homes| ==> View(t', k) == View(t, k);
    assert forall k :: 0 <= k < |t.homes| ==> ChainAt(t', xs, k) == ChainAt(t, xs, k);
  }

  lemma ChainStepKeeps(t: Table, xs: seq<Aux>, k: nat, a: ChainPurge.Action, key: Key) returns (xs': seq<Aux>)
    requires TableInv(t, xs) && k < |t.homes|
    ensures TableInv(ChainStep(t, k, a, key), xs')
  {
    hide ChainPurge.Apply, Inv, Moves, LookupOk, InUse, Separate;
    var s := View(t, k);
    var t' := ChainStep(t, k, a, key);
    xs' := xs;
    if t' != t {
      var x' := ChainsKeep(t, xs, k, a);
      var s' := ChainPurge.Apply(s, a);
      xs' := xs[k := x'];
      assert t' == Put(t, k, s').(keys := t'.keys, hidden := t'.hidden, lookups := t'.lookups);
      SeparateAfter(t, xs, k, a);
      SameBesides(Put(t, k, s'), t', xs');
      var gone := s'.condemned - s.condemned;
      forall j | 0 <= j < |t'.lookups|
        ensures LookupOk(t', xs', t'.lookups[j])
      {
        LookupAfter(t, xs, k, a, x', t', t.lookups[j], gone);
        if a.Insert? && a.i < |s.inserters| && s.inserters[a.i].Resting? {
          ClaimCondemnsNothing(s, a);
          LoseNothing(t.lookups[j], gone);
        }
      }
    }
  }

  lemma ClaimCondemnsNothing(s: State, a: ChainPurge.Action)
    requires a.Insert?
    ensures ChainPurge.Apply(s, a).condemned == s.condemned
  {
  }

  lemma LoseNothing(l: Lookup, gone: set<nat>)
    requires gone == {}
    ensures Lose(l, gone) == l
  {
  }

  /** Keys, visibility and lookups do not matter to the chains. */
  lemma SameBesides(t: Table, t': Table, xs: seq<Aux>)
    requires ChainsOk(t, xs) && Separate(t) && t'.homes == t.homes && t'.next == t.next
    ensures ChainsOk(t', xs) && Separate(t')
  {
    hide Inv, Taken;
    assert forall k :: 0 <= k < |t.homes| ==> View(t', k) == View(t, k);
  }

  // Steps of the lookups.

  lemma HideKeeps(t: Table, xs: seq<Aux>, e: nat)
    requires TableInv(t, xs)
    ensures TableInv(ChainTable.Apply(t, Hide(e)), xs)
  {
    hide Inv, Closed, Separate, ChainsOk;
    var t' := ChainTable.Apply(t, Hide(e));
    SameBesides(t, t', xs);
    forall j | 0 <= j < |t'.lookups|
      ensures LookupOk(t', xs, t'.lookups[j])
    {
      assert LookupOk(t, xs, t.lookups[j]);
      LookupSame(t, t', xs, t.lookups[j], {e});
    }
  }

  lemma LookupSame(t: Table, t': Table, xs: seq<Aux>, l: Lookup, gone: set<nat>)
    requires LookupOk(t, xs, l) && t'.homes == t.homes && t'.next == t.next && t'.keys == t.keys && t'.hidden <= t.hidden + gone
    ensures LookupOk(t', xs, Lose(l, gone))
  {
    hide Closed;
    var l' := Lose(l, gone);
    if l.Reading? || l.Matching? {
      forall e | e in l'.wanted
        ensures Short(t', xs, l', e)
      {
        var tr :| Closed(t, xs, l.key.home, e, tr) && Placed(l, e, tr.v);
        ClosedSame(t, t', xs, l.key.home, e, tr);
        assert Placed(l', e, tr.v);
      }
    }
  }

  /** Where an entry of a chain points. */
  lemma {:induction false} LeadsStep(p: Ptr, next: map<nat, Ptr>, c: seq<nat>, q: Ptr, i: nat)
    requires Leads(p, next, c, q) && i < |c|
    ensures c[i] in next && next[c[i]] == if i + 1 < |c| then To(c[i + 1]) else q
    decreases |c|
  {
    if i > 0 { LeadsStep(next[c[0]], next, c[1..], q, i - 1); }
  }

  lemma ChainStepsOn(s: State, x: Aux, i: nat)
    requires Inv(s, x) && i < |Chain(s, x)|
    ensures var c := Chain(s, x); c[i] in s.next && s.next[c[i]] == if i + 1 < |c| then To(c[i + 1]) else End(s.home)
  {
    LeadsStep(s.head.ptr, s.next, Chain(s, x), End(s.home), i);
  }

  /** All slots that are on a chain now, except e and what follows it. */
  ghost function AllBut(t: Table, xs: seq<Aux>, e: nat, after: seq<nat>): iset<nat>
    requires |xs| == |t.homes|
  {
    iset y | y != e && y !in after && exists k :: 0 <= k < |t.homes| && y in ChainAt(t, xs, k)
  }

  lemma OneChain(t: Table, xs: seq<Aux>, j: nat, k: nat, y: nat)
    requires ChainsOk(t, xs) && Separate(t) && j < |t.homes| && k < |t.homes| && y in ChainAt(t, xs, j) && y in ChainAt(t, xs, k)
    ensures j == k
  {
    hide Inv, Taken, Without;
    ChainTaken(View(t, j), xs[j], y);
    ChainTaken(View(t, k), xs[k], y);
  }

  lemma StartPointer(t: Table, xs: seq<Aux>, h: nat, e: nat, tr: Trail, k: nat, i: nat)
    requires ChainsOk(t, xs) && Separate(t) && h < |t.homes| && k < |t.homes| && i < |ChainAt(t, xs, k)|
    requires ChainAt(t, xs, h) == tr.before + [e] + tr.after && tr.v == AllBut(t, xs, e, tr.after)
    requires Distinct(ChainAt(t, xs, h)) && ChainAt(t, xs, k)[i] in tr.v
    ensures var y := ChainAt(t, xs, k)[i]; y in t.next && Good(h, e, tr.v, t.next[y])
  {
    hide Inv, Separate, Without;
    var c := ChainAt(t, xs, k);
    ChainStepsOn(View(t, k), xs[k], i);
    if k == h {
      var n := |tr.before|;
      assert i < n by {
        assert c[n] == e && forall m :: n < m < |c| ==> c[m] == tr.after[m - n - 1];
      }
      if i + 1 < n {
        assert c[i + 1] in c && c[i + 1] != c[n];
        assert c[i + 1] !in tr.after by { assert forall m :: 0 <= m < |tr.after| ==> tr.after[m] == c[n + 1 + m]; }
      }
    } else if i + 1 < |c| {
      var z := c[i + 1];
      assert z in c;
      if z == e || z in tr.after {
        assert z in ChainAt(t, xs, h);
        OneChain(t, xs, h, k, z);
      }
    }
  }

  /** The chain around e at the start. */
  lemma StartAround(t: Table, xs: seq<Aux>, h: nat, e: nat, n: nat)
    requires |xs| == |t.homes| && h < |t.homes| && n < |ChainAt(t, xs, h)| && ChainAt(t, xs, h)[n] == e && Distinct(ChainAt(t, xs, h))
    ensures var c := ChainAt(t, xs, h); Around(c, e, Trail(c[..n], c[n + 1..], AllBut(t, xs, e, c[n + 1..])))
  {
    hide ChainAt;
    var c := ChainAt(t, xs, h);
    assert c == c[..n] + [e] + c[n + 1..];
    var after := c[n + 1..];
    assert forall m :: 0 <= m < |after| ==> after[m] == c[n + 1 + m];
    forall y | y in c[..n] ensures y in AllBut(t, xs, e, c[n + 1..]) {
      var i :| 0 <= i < n && c[i] == y;
      assert y in c;
    }
  }

  lemma StartOthers(t: Table, xs: seq<Aux>, h: nat, e: nat, after: seq<nat>, k: nat, y: nat)
    requires ChainsOk(t, xs) && Separate(t) && h < |t.homes| && k < |t.homes| && k != h && y in ChainAt(t, xs, k)
    requires e in ChainAt(t, xs, h) && forall z :: z in after ==> z in ChainAt(t, xs, h)
    ensures y in AllBut(t, xs, e, after)
  {
    hide ChainAt, ChainsOk, Separate;
    if y == e || y in after { OneChain(t, xs, h, k, y); }
  }

  lemma StartInserters(t: Table, xs: seq<Aux>, h: nat, e: nat, after: seq<nat>, k: nat, i: nat)
    requires ChainsOk(t, xs) && Separate(t) && k < |t.homes| && i < |t.homes[k].inserters|
    ensures InserterGood(h, e, AllBut(t, xs, e, after), t.homes[k].inserters[i])
  {
    hide ChainAt, ChainsOk, Separate, Good;
    if !t.homes[k].inserters[i].Resting? { ClaimedOnce(t, xs, k, i); }
  }

  lemma StartPointers(t: Table, xs: seq<Aux>, h: nat, e: nat, tr: Trail)
    requires ChainsOk(t, xs) && Separate(t) && h < |t.homes| && Distinct(ChainAt(t, xs, h))
    requires ChainAt(t, xs, h) == tr.before + [e] + tr.after && tr.v == AllBut(t, xs, e, tr.after)
    ensures Pointers(t.next, h, e, tr.v)
  {
    hide ChainAt, Inv, Separate, Good, Distinct;
    forall y | y in tr.v
      ensures y in t.next && Good(h, e, tr.v, t.next[y])
    {
      var k :| 0 <= k < |t.homes| && y in ChainAt(t, xs, k);
      var i :| 0 <= i < |ChainAt(t, xs, k)| && ChainAt(t, xs, k)[i] == y;
      StartPointer(t, xs, h, e, tr, k, i);
    }
  }

  lemma StartClosed(t: Table, xs: seq<Aux>, h: nat, e: nat) returns (tr: Trail)
    requires ChainsOk(t, xs) && Separate(t) && h < |t.homes| && e in t.homes[h].log && e !in t.homes[h].condemned
    ensures Closed(t, xs, h, e, tr)
  {
    hide Inv, Without, Good, Around, InserterGood, Pointers, AllBut, Separate;
    LinkedOnChain(View(t, h), xs[h], e);
    var c := ChainAt(t, xs, h);
    var n: nat :| n < |c| && c[n] == e;
    assert Distinct(c) by { LogDistinct(View(t, h), xs[h]); WithoutDistinct(View(t, h).log, xs[h].removed); }
    var v := AllBut(t, xs, e, c[n + 1..]);
    tr := Trail(c[..n], c[n + 1..], v);
    assert c == tr.before + [e] + tr.after;
    StartAround(t, xs, h, e, n);
    forall k, y | 0 <= k < |t.homes| && k != h && y in ChainAt(t, xs, k) ensures y in v { StartOthers(t, xs, h, e, tr.after, k, y); }
    StartPointers(t, xs, h, e, tr);
    forall k, i | 0 <= k < |t.homes| && 0 <= i < |t.homes[k].inserters|
      ensures InserterGood(h, e, v, t.homes[k].inserters[i])
    {
      StartInserters(t, xs, h, e, tr.after, k, i);
    }
  }

  lemma StartKeeps(t: Table, xs: seq<Aux>, j: nat, key: Key)
    requires TableInv(t, xs) && j < |t.lookups| && key.home < |t.homes|
    ensures TableInv(ChainTable.Apply(t, StartLookup(j, key)), xs)
  {
    hide Inv, Closed, Separate, ChainsOk;
    var t' := ChainTable.Apply(t, StartLookup(j, key));
    SameBesides(t, t', xs);
    forall i | 0 <= i < |t'.lookups|
      ensures LookupOk(t', xs, t'.lookups[i])
    {
      if i != j {
        assert LookupOk(t, xs, t.lookups[i]);
        LookupSame(t, t', xs, t.lookups[i], {});
        LoseNothing(t.lookups[i], {});
      } else {
        var l := t'.lookups[j];
        forall e | e in l.wanted
          ensures Short(t', xs, l, e)
        {
          var tr := StartClosed(t', xs, key.home, e);
          assert Placed(l, e, tr.v);
        }
      }
    }
  }

  /** A read never takes a lookup past an entry it wants, so it cannot be at the end of the chain. */
  lemma ReadShort(t: Table, xs: seq<Aux>, l: Lookup, e: nat)
    requires ChainsOk(t, xs) && l.Reading? && LookupOk(t, xs, l) && e in l.wanted
    ensures var l' := ReadStep(t, l); !l'.NotFound? && (l'.Reading? || l'.Matching?) && Short(t, xs, l', e)
  {
    hide Inv, Around, InserterGood;
    var h := l.key.home;
    var tr :| Closed(t, xs, h, e, tr) && Placed(l, e, tr.v);
    HeadGood(t, xs, h, e, tr, h);
    var l' := ReadStep(t, l);
    assert Placed(l', e, tr.v);
  }

  lemma MatchShort(t: Table, xs: seq<Aux>, l: Lookup, e: nat, published: bool)
    requires l.Matching? && LookupOk(t, xs, l) && e in l.wanted
    ensures var l' := MatchStep(t, l, published); l'.Found? || (l'.Reading? && Short(t, xs, l', e))
  {
    hide Closed;
    var l' := MatchStep(t, l, published);
    var tr :| Closed(t, xs, l.key.home, e, tr) && Placed(l, e, tr.v);
    assert Linked(t, e) by { assert e in t.homes[l.key.home].log && e !in t.homes[l.key.home].condemned; }
    if !l'.Found? { assert Placed(l', e, tr.v); }
  }

  lemma LookKeeps(t: Table, xs: seq<Aux>, j: nat, published: bool)
    requires TableInv(t, xs) && j < |t.lookups|
    ensures TableInv(ChainTable.Apply(t, Look(j, published)), xs)
  {
    hide Inv, Closed, Separate, ChainsOk, Short, InUse, Linked, Condemned;
    var t' := ChainTable.Apply(t, Look(j, published));
    var l := t.lookups[j];
    assert LookupOk(t, xs, l);
    SameBesides(t, t', xs);
    forall i | 0 <= i < |t'.lookups|
      ensures LookupOk(t', xs, t'.lookups[i])
    {
      assert LookupOk(t, xs, t.lookups[i]);
      LookupSame(t, t', xs, t.lookups[i], {});
      LoseNothing(t.lookups[i], {});
      if i == j && (l.Reading? || l.Matching?) {
        LookedOk(t, xs, l, published);
        LookupSame(t, t', xs, t'.lookups[j], {});
        LoseNothing(t'.lookups[j], {});
      }
    }
  }

  lemma LookedOk(t: Table, xs: seq<Aux>, l: Lookup, published: bool)
    requires ChainsOk(t, xs) && LookupOk(t, xs, l)
    ensures l.Reading? ==> LookupOk(t, xs, ReadStep(t, l))
    ensures l.Matching? ==> LookupOk(t, xs, MatchStep(t, l, published))
  {
    hide Inv, Closed, ChainsOk, Short, InUse, Linked, Condemned;
    if l.Reading? {
      forall e | e in l.wanted
        ensures var l' := ReadStep(t, l); !l'.NotFound? && (l'.Reading? || l'.Matching?) && Short(t, xs, l', e)
      {
        ReadShort(t, xs, l, e);
      }
    }
    if l.Matching? {
      forall e | e in l.wanted
        ensures var l' := MatchStep(t, l, published); l'.Found? || (l'.Reading? && Short(t, xs, l', e))
      {
        MatchShort(t, xs, l, e, published);
      }
    }
  }

  lemma TableStepKeeps(t: Table, xs: seq<Aux>, a: ChainTable.Action) returns (xs': seq<Aux>)
    requires TableInv(t, xs)
    ensures TableInv(ChainTable.Apply(t, a), xs')
  {
    hide TableInv, ChainStep, ReadStep, MatchStep;
    xs' := xs;
    match a
    case OnChain(k, step, key) => if k < |t.homes| { xs' := ChainStepKeeps(t, xs, k, step, key); }
    case Hide(e) => HideKeeps(t, xs, e);
    case StartLookup(j, key) => if j < |t.lookups| && key.home < |t.homes| { StartKeeps(t, xs, j, key); }
    case Look(j, published) => if j < |t.lookups| { LookKeeps(t, xs, j, published); }
  }

  lemma InitKeeps(t: Table) returns (xs: seq<Aux>)
    requires ChainTable.Init(t)
    ensures TableInv(t, xs)
  {
    xs := seq(|t.homes|, k requires 0 <= k < |t.homes| => Aux({}, [], [], [], [], End(k), End(k)));
    forall k | 0 <= k < |t.homes|
      ensures Inv(View(t, k), xs[k]) && forall e :: !Taken(View(t, k), e)
    {
    }
  }

  lemma TableRunKeeps(t: Table, acts: seq<ChainTable.Action>) returns (xs: seq<Aux>)
    requires ChainTable.Init(t)
    ensures TableInv(ChainTable.Run(t, acts), xs)
  {
    hide TableInv, ChainTable.Run;
    xs := InitKeeps(t);
    xs := TableRunFrom(t, xs, acts);
  }

  /**
   A lookup that ends without a match has missed nothing: of the matching entries that were linked
   and visible when it began, each has been hidden or condemned since. This holds for every
   interleaving of lookups, inserts, removals and clock walks on any number of chains that share
   their slots, with slots emptied and used again, in any chain, while the lookup stands on them.
   */
  lemma LookupMissesNothing(t: Table, acts: seq<ChainTable.Action>, j: nat)
    requires ChainTable.Init(t)
    requires j < |ChainTable.Run(t, acts).lookups| && ChainTable.Run(t, acts).lookups[j].NotFound?
    ensures ChainTable.Run(t, acts).lookups[j].wanted == {}
  {
    hide ChainTable.Run, ChainsOk, Separate;
    var xs := TableRunKeeps(t, acts);
    assert LookupOk(ChainTable.Run(t, acts), xs, ChainTable.Run(t, acts).lookups[j]);
  }

  /** A slot is never linked into two chains, nor claimed while it is in use. */
  lemma SlotsAreNotShared(t: Table, acts: seq<ChainTable.Action>, j: nat, k: nat, e: nat)
    requires ChainTable.Init(t)
    requires var r := ChainTable.Run(t, acts);
             j < |r.homes| && k < |r.homes| && Taken(View(r, j), e) && Taken(View(r, k), e)
    ensures j == k
  {
    hide ChainTable.Run, ChainsOk, LookupOk, Taken;
    var xs := TableRunKeeps(t, acts);
  }

  // The same, said of a run.

  /** A lookup that has not found anything still wants e. */
  ghost predicate Wants(l: Lookup, e: nat) {
    l.Found? || ((l.Reading? || l.Matching? || l.NotFound?) && e in l.wanted)
  }

  lemma LoseOther(l: Lookup, gone: set<nat>, e: nat)
    requires Wants(l, e) && e !in gone
    ensures Wants(Lose(l, gone), e)
  {
  }

  lemma StepWants(t: Table, a: ChainTable.Action, j: nat, e: nat)
    requires j < |t.lookups| && Wants(t.lookups[j], e) && !(a.StartLookup? && a.j == j)
    requires var t' := ChainTable.Apply(t, a); e !in t'.hidden && !Condemned(t', e)
    ensures var t' := ChainTable.Apply(t, a); j < |t'.lookups| && Wants(t'.lookups[j], e)
  {
    hide ChainPurge.Apply, InUse, Linked, Wants;
    var t' := ChainTable.Apply(t, a);
    match a
    case OnChain(k, step, key) =>
      if k < |t.homes| && t'.lookups != t.lookups {
        var s' := ChainPurge.Apply(View(t, k), step);
        assert t'.homes[k].condemned == s'.condemned;
        LoseOther(t.lookups[j], s'.condemned - t.homes[k].condemned, e);
      }
    case Hide(f) => LoseOther(t.lookups[j], {f}, e);
    case StartLookup(_, _) =>
    case Look(i, published) => if i == j { LookWants(t, t.lookups[j], published, e); }
  }

  lemma LookWants(t: Table, l: Lookup, published: bool, e: nat)
    requires Wants(l, e)
    ensures l.Reading? && l.key.home < |t.homes| ==> Wants(ReadStep(t, l), e)
    ensures l.Matching? ==> Wants(MatchStep(t, l, published), e)
  {
    hide InUse, Linked, Condemned;
  }

  ghost predicate Undisturbed(t: Table, e: nat) {
    e !in t.hidden && !Condemned(t, e)
  }

  lemma {:induction false} RunWants(t: Table, acts: seq<ChainTable.Action>, j: nat, e: nat)
    requires j < |t.lookups| && Wants(t.lookups[j], e)
    requires forall k :: 0 <= k < |acts| ==> !(acts[k].StartLookup? && acts[k].j == j)
    requires forall k :: 0 <= k <= |acts| ==> Undisturbed(ChainTable.Run(t, acts[..k]), e)
    ensures var r := ChainTable.Run(t, acts); j < |r.lookups| && Wants(r.lookups[j], e)
  {
    hide ChainTable.Apply, Wants, Condemned;
    if acts != [] {
      var front := acts[..|acts| - 1];
      forall k | 0 <= k <= |front| ensures Undisturbed(ChainTable.Run(t, front[..k]), e) { assert front[..k] == acts[..k]; }
      RunWants(t, front, j, e);
      assert acts[..|acts|] == acts;
      StepWants(ChainTable.Run(t, front), acts[|acts| - 1], j, e);
    }
  }

  lemma {:induction false} TableRunFrom(t: Table, xs: seq<Aux>, acts: seq<ChainTable.Action>) returns (xs': seq<Aux>)
    requires TableInv(t, xs)
    ensures TableInv(ChainTable.Run(t, acts), xs')
  {
    hide TableInv, ChainTable.Apply;
    xs' := xs;
    if acts != [] {
      xs' := TableRunFrom(t, xs, acts[..|acts| - 1]);
      xs' := TableStepKeeps(ChainTable.Run(t, acts[..|acts| - 1]), xs', acts[|acts| - 1]);
    }
  }

  /**
   A lookup finds what stays: if an entry with its key is linked and visible when it begins, and is
   neither hidden nor condemned from then on, the lookup does not end without a match.
   */
  lemma ResidentIsNotMissed(t: Table, before: seq<ChainTable.Action>, j: nat, key: Key, acts: seq<ChainTable.Action>, e: nat)
    requires ChainTable.Init(t) && j < |ChainTable.Run(t, before).lookups| && key.home < |ChainTable.Run(t, before).homes|
    requires e in Wanted(ChainTable.Run(t, before), key)
    requires var s := ChainTable.Apply(ChainTable.Run(t, before), StartLookup(j, key));
             && (forall k :: 0 <= k < |acts| ==> !(acts[k].StartLookup? && acts[k].j == j))
             && (forall k :: 0 <= k <= |acts| ==> Undisturbed(ChainTable.Run(s, acts[..k]), e))
    ensures var s := ChainTable.Apply(ChainTable.Run(t, before), StartLookup(j, key));
            j < |ChainTable.Run(s, acts).lookups| && !ChainTable.Run(s, acts).lookups[j].NotFound?
  {
    hide ChainTable.Run, ChainsOk, Separate, Undisturbed, Short, WantedOk;
    var s := ChainTable.Apply(ChainTable.Run(t, before), StartLookup(j, key));
    RunWants(s, acts, j, e);
    var xs := TableRunKeeps(t, before);
    xs := TableStepKeeps(ChainTable.Run(t, before), xs, StartLookup(j, key));
    xs := TableRunFrom(s, xs, acts);
    assert LookupOk(ChainTable.Run(s, acts), xs, ChainTable.Run(s, acts).lookups[j]);
  }
}
