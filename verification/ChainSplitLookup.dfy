/**
 A lookup that runs beside a split does not miss an entry that was on the chain when the
 lookup started, wherever the split and the inserts happen to be.
 */
module ChainSplitLookup {
  import opened Bits
  import opened Lists
  import opened Options
  import opened ChainSplit
  import opened ChainSplitProof
  import opened ChainSplitSteps
  import opened ChainSplitInserts

  // ---------------------------------------------------------------------------------
  // What the pointers of a chain under migration look like
  // ---------------------------------------------------------------------------------

  lemma PickOfLog(c: Config, a: Aux, t: int)
    ensures Pick(c, a.r + a.q, t) == Pick(c, a.r, t) + Pick(c, a.q, t)
  {
    PickConcat(c, a.r, a.q, t);
  }

  /** The migrated part is a prefix of what the output chain will be, and all of it once complete. */
  lemma MigIsPrefix(c: Config, a: Aux, t: int)
    ensures Mig(c, a, t) <= Pick(c, a.r + a.q, t)
    ensures a.Fr(t).None? ==> Mig(c, a, t) == Pick(c, a.r + a.q, t)
  {
    PickOfLog(c, a, t);
    var f := a.Fr(t);
    if f.Some? && f.value < |a.q| {
      var u := a.q[..f.value + 1];
      assert a.q == u + a.q[f.value + 1..];
      PickConcat(c, u, a.q[f.value + 1..], t);
      var r, p, w := Pick(c, a.r, t), Pick(c, u, t), Pick(c, a.q[f.value + 1..], t);
      assert r + (p + w) == (r + p) + w;
    }
  }

  /** The head of output chain t leads to its first entry. */
  lemma HeadShape(c: Config, next: seq<Link>, head: Link, a: Aux, t: int)
    requires Migrated(c, next, head, a, t)
    ensures Unlock(head) == NewLink(c, Pick(c, a.r + a.q, t), 0, t)
  {
    MigIsPrefix(c, a, t);
  }

  /**
   The pointer of a resident entry x is either already the final one, to x's successor on its
   output chain, or still the one of the old chain.
   */
  ghost predicate FinalAt(c: Config, next: seq<Link>, log: seq<nat>, x: nat, i: nat) {
    x < |c.keys| && x < |next| &&
    var p := Pick(c, log, c.Target(x));
    i < |p| && p[i] == x && next[x] == NewLink(c, p, i + 1, c.Target(x))
  }

  ghost predicate OldAt(c: Config, next: seq<Link>, q: seq<nat>, x: nat, p: nat) {
    p < |q| && q[p] == x && x < |next| && next[x] == OldLink(c, q, p + 1)
  }

  lemma EntryInMig(c: Config, next: seq<Link>, head: Link, a: Aux, x: nat, t: int, i: nat)
    requires x < |c.keys| && t == c.Target(x) && Migrated(c, next, head, a, t)
    requires i < |Mig(c, a, t)| && Mig(c, a, t)[i] == x && (a.Fr(t).None? || i + 1 < |Mig(c, a, t)|)
    ensures FinalAt(c, next, a.r + a.q, x, i)
  {
    MigIsPrefix(c, a, t);
    var m, p := Mig(c, a, t), Pick(c, a.r + a.q, t);
    assert next[m[i]] == NewLink(c, m, i + 1, t);
    assert p[i] == m[i] && (i + 1 < |m| ==> p[i + 1] == m[i + 1]);
  }

  lemma NextShape(c: Config, next: seq<Link>, zeroHead: Link, oneHead: Link, a: Aux, x: nat) returns (final: bool, i: nat)
    requires Distinct(a.r + a.q) && Chains(c, next, zeroHead, oneHead, a)
    requires x in a.r + a.q && x < |c.keys|
    ensures if final then FinalAt(c, next, a.r + a.q, x, i) else OldAt(c, next, a.q, x, i)
  {
    var t := c.Target(x);
    var m := Mig(c, a, t);
    ChainsFor(c, next, zeroHead, oneHead, a, t);
    if j :| 0 <= j < |m| && m[j] == x && (a.Fr(t).None? || j + 1 < |m|) {
      EntryInMig(c, next, HeadOf(zeroHead, oneHead, t), a, x, t, j);
      final, i := true, j;
    } else {
      i := NotFinal(c, a, x, t);
      assert OldTail(c, next, a.q, a.Fr(t).value);
      assert next[a.q[i]] == OldLink(c, a.q, i + 1);
      final := false;
    }
  }

  lemma BehindPrefix(r: seq<nat>, q: seq<nat>, n: nat, x: nat) returns (i: nat)
    requires n <= |q| && x in r + q && x !in r && x !in q[..n]
    ensures n <= i < |q| && q[i] == x
  {
    assert x in q;
    i :| 0 <= i < |q| && q[i] == x;
    assert forall m :: 0 <= m < n ==> q[m] in q[..n];
  }

  lemma NotMigrated(c: Config, a: Aux, x: nat, t: int)
    requires x !in Mig(c, a, t) && Goes(c, x, t)
    ensures x !in a.r && x !in UpTo(a.q, a.Fr(t))
  {
    hide Pick, UpTo;
    PickElements(c, a.r, t);
    PickElements(c, UpTo(a.q, a.Fr(t)), t);
  }

  /** An entry whose pointer is not final lies at or behind its frontier. */
  lemma NotFinal(c: Config, a: Aux, x: nat, t: int) returns (i: nat)
    requires x in a.r + a.q && Goes(c, x, t)
    requires a.Fr(t).Some? ==> a.Fr(t).value < |a.q| && Goes(c, a.q[a.Fr(t).value], t)
    requires forall j :: 0 <= j < |Mig(c, a, t)| && Mig(c, a, t)[j] == x ==> a.Fr(t).Some? && j + 1 == |Mig(c, a, t)|
    ensures a.Fr(t).Some? && a.Fr(t).value <= i < |a.q| && a.q[i] == x
  {
    hide Mig, Goes, Pick;
    if x in Mig(c, a, t) {
      i := a.Fr(t).value;
      MigLast(c, a, t, i);
    } else {
      NotMigrated(c, a, x, t);
      if a.Fr(t).None? { assert false; }
      i := BehindPrefix(a.r, a.q, a.Fr(t).value + 1, x);
    }
  }

  // ---------------------------------------------------------------------------------
  // Following a pointer never overtakes a later entry
  // ---------------------------------------------------------------------------------

  lemma FollowOld(log: seq<nat>, r: seq<nat>, q: seq<nat>, p: nat, e: nat)
    requires log == r + q && Distinct(log) && p < |q| && Before(log, q[p], e)
    ensures p + 1 < |q| && (q[p + 1] == e || Before(log, q[p + 1], e))
  {
    var i, j :| 0 <= i < j < |log| && log[i] == q[p] && log[j] == e;
    assert log[|r| + p] == q[p];
    assert i == |r| + p;
    assert log[i + 1] == q[p + 1];
  }

  lemma FollowFinal(c: Config, log: seq<nat>, t: int, i: nat, e: nat)
    requires Distinct(log) && i < |Pick(c, log, t)| && Before(log, Pick(c, log, t)[i], e) && Goes(c, e, t)
    ensures var p := Pick(c, log, t); i + 1 < |p| && (p[i + 1] == e || Before(log, p[i + 1], e))
  {
    hide Pick, Goes, Distinct, Before;
    var p := Pick(c, log, t);
    PickElements(c, log, t);
    PickDistinct(c, log, t);
    assert p[i] in p;
    PickKeepsOrder(c, log, p[i], e, t);
    var j := IndexAfter(p, i, e);
    if j > i + 1 { PickReflectsOrder(c, log, t, i + 1, j); }
  }

  lemma IndexAfter(p: seq<nat>, i: nat, e: nat) returns (j: nat)
    requires Distinct(p) && i < |p| && Before(p, p[i], e)
    ensures i < j < |p| && p[j] == e
  {
    var i', k :| 0 <= i' < k < |p| && p[i'] == p[i] && p[k] == e;
    j := k;
  }

  lemma FollowHead(c: Config, log: seq<nat>, t: int, e: nat)
    requires e in log && Goes(c, e, t)
    ensures var p := Pick(c, log, t); p != [] && (p[0] == e || Before(log, p[0], e))
  {
    var p := Pick(c, log, t);
    PickElements(c, log, t);
    var j :| 0 <= j < |p| && p[j] == e;
    if j > 0 { PickReflectsOrder(c, log, t, 0, j); }
  }

  // ---------------------------------------------------------------------------------
  // The invariant of a lookup
  // ---------------------------------------------------------------------------------

  ghost predicate Ahead(log: seq<nat>, p: Option<nat>, e: nat) {
    p.Some? ==> Before(log, p.value, e)
  }

  ghost predicate Wanted(c: Config, dead: set<nat>, w: Lookup, e: nat)
    requires w.Walking?
  {
    e in w.since && e < |c.keys| && c.keys[e] == w.key && e !in dead
  }

  /** On the new shift, a foreign entry is only reached over old pointers, so from an entry of the lookup's own chain. */
  ghost predicate ForeignPos(c: Config, log: seq<nat>, q: seq<nat>, t: int, y: nat) {
    y in q && Goes(c, y, 1 - t) && exists g :: Goes(c, g, t) && Before(log, g, y)
  }

  /**
   The one way past e: an entry of e's chain, then an entry y of the other chain, then e, then an
   entry z of the other chain that is under destruction. Once the split has linked y to z, a lookup
   that stands on y skips z without a look at its home, and is on the old chain behind e.
   */
  ghost predicate Jumped(c: Config, dead: set<nat>, log: seq<nat>, t: int, e: nat) {
    exists g, y, z ::
      && Goes(c, g, t) && Before(log, g, y) && Goes(c, y, 1 - t) && Before(log, y, e)
      && Before(log, e, z) && Goes(c, z, 1 - t) && z in dead
  }

  /** Where a lookup can be. Once on the new shift it may be on a foreign entry, but only on the old chain. */
  ghost predicate PosOk(c: Config, switched: bool, log: seq<nat>, q: seq<nat>, w: Lookup)
    requires w.Walking?
  {
    var t := c.TargetOf(w.key.hash);
    && (w.shift == c.oldShift || w.shift == c.NewShift())
    && (w.shift == c.oldShift ==>
          && w.home == c.oldHome
          && (w.held.Some? ==> w.held.value in log && (switched ==> w.held.value in q))
          && (w.at.Some? ==> w.at.value in log && (switched ==> w.at.value in q)))
    && (w.shift == c.NewShift() ==>
          && switched && w.home == c.Home(t)
          && (w.held.Some? ==> w.held.value in log && Goes(c, w.held.value, t))
          && (w.at.Some? ==> w.at.value in log && (Goes(c, w.at.value, t) || ForeignPos(c, log, q, t, w.at.value))))
  }

  ghost predicate WalkOk(c: Config, dead: set<nat>, switched: bool, log: seq<nat>, q: seq<nat>, w: Lookup)
    requires w.Walking?
  {
    && c.OnChain(w.key.hash)
    && (forall e :: e in w.since ==> e in log)
    && PosOk(c, switched, log, q, w)
    && (forall e :: Wanted(c, dead, w, e) ==> Jumped(c, dead, log, c.TargetOf(w.key.hash), e) || (Ahead(log, w.at, e) && Ahead(log, w.held, e)))
  }

  ghost predicate LookOk(c: Config, dead: set<nat>, switched: bool, log: seq<nat>, q: seq<nat>, w: Lookup) {
    match w
    case NotStarted => true
    case Walking(_, _, _, _, _, _) => WalkOk(c, dead, switched, log, q, w)
    case Found(key, x) => x < |c.keys| && c.keys[x] == key
    case NotFound(key, since) =>
      forall e :: e in since && e < |c.keys| && c.keys[e] == key ==> e in dead || Jumped(c, dead, log, c.TargetOf(key.hash), e)
  }

  /** A lookup on the old shift reads a pointer with the new one: it starts over. */
  lemma RestartOk(c: Config, dead: set<nat>, log: seq<nat>, q: seq<nat>, w: Lookup, l: Link)
    requires ConfigOk(c) && w.Walking? && WalkOk(c, dead, true, log, q, w) && w.shift == c.oldShift && l.shift == c.NewShift()
    ensures LookOk(c, dead, true, log, q, Follow(c, dead, w, l))
  {
    HomeOfTarget(c, w.key.hash);
  }

  ghost predicate ReachesNext(c: Config, dead: set<nat>, log: seq<nat>, w: Lookup, y: nat)
    requires w.Walking?
  {
    y in log && y < |c.keys| &&
    forall e :: Wanted(c, dead, w, e) ==> Jumped(c, dead, log, c.TargetOf(w.key.hash), e) || y == e || Before(log, y, e)
  }

  lemma OldHomeOf(c: Config, t: int)
    requires ConfigOk(c)
    ensures BottomBits(c.Home(t), c.oldShift) == c.oldHome
  {
    BottomBitsSmall(c.oldHome, c.oldShift);
    BottomBitsAddPow(c.oldHome, c.oldShift);
  }

  /** Following a pointer of the old chain, to the entry that comes next on it. */
  lemma FollowOldOk(c: Config, dead: set<nat>, switched: bool, log: seq<nat>, q: seq<nat>, w: Lookup, l: Link)
    requires ConfigOk(c) && w.Walking? && WalkOk(c, dead, switched, log, q, w)
    requires l.Next? && l.shift == c.oldShift && ReachesNext(c, dead, log, w, l.idx) && c.OnChain(c.keys[l.idx].hash)
    requires switched ==> l.idx in q
    requires w.shift == c.NewShift() ==> Goes(c, l.idx, c.TargetOf(w.key.hash)) || ForeignPos(c, log, q, c.TargetOf(w.key.hash), l.idx)
    ensures LookOk(c, dead, switched, log, q, Follow(c, dead, w, l))
  {
    hide Jumped, Before;
    var t := c.TargetOf(w.key.hash);
    OldHomeOf(c, t);
    HomeOfTarget(c, c.keys[l.idx].hash);
    var w' := Follow(c, dead, w, l);
    if l.idx in dead || c.keys[l.idx] != w.key {
      assert w'.at == Some(l.idx);
      assert w'.held == w.held || w'.held == Some(l.idx);
      forall e | Wanted(c, dead, w', e) ensures Jumped(c, dead, log, t, e) || (Ahead(log, w'.at, e) && Ahead(log, w'.held, e)) {
        assert Wanted(c, dead, w, e);
      }
    }
  }

  /** Following a final pointer of the lookup's own output chain. */
  lemma FollowFinalOk(c: Config, dead: set<nat>, log: seq<nat>, q: seq<nat>, w: Lookup, l: Link)
    requires ConfigOk(c) && w.Walking? && WalkOk(c, dead, true, log, q, w) && w.shift == c.NewShift()
    requires l.Next? && l.shift == c.NewShift() && ReachesNext(c, dead, log, w, l.idx) && c.OnChain(c.keys[l.idx].hash)
    requires Goes(c, l.idx, c.TargetOf(w.key.hash))
    ensures LookOk(c, dead, true, log, q, Follow(c, dead, w, l))
  {
    hide Jumped, Before;
    HomeOfTarget(c, c.keys[l.idx].hash);
    var w' := Follow(c, dead, w, l);
    if l.idx in dead || c.keys[l.idx] != w.key {
      forall e | Wanted(c, dead, w', e)
        ensures Jumped(c, dead, log, c.TargetOf(w.key.hash), e) || (Ahead(log, w'.at, e) && Ahead(log, w'.held, e))
      {
        assert Wanted(c, dead, w, e);
      }
    }
  }

  /**
   A final pointer of the other output chain sends the lookup back to the entry it holds, or on to
   an entry that is under destruction.
   */
  lemma BackUpOk(c: Config, dead: set<nat>, log: seq<nat>, q: seq<nat>, w: Lookup, l: Link, u: int)
    requires ConfigOk(c) && w.Walking? && WalkOk(c, dead, true, log, q, w) && w.shift == c.NewShift()
    requires l.shift == c.NewShift() && 0 <= u < 2 && u != c.TargetOf(w.key.hash)
    requires if l.Next? then l.idx < |c.keys| && c.OnChain(c.keys[l.idx].hash) && Goes(c, l.idx, u) else l.home == c.Home(u)
    requires l.Next? && l.idx in dead ==>
               && l.idx in log && ForeignPos(c, log, q, c.TargetOf(w.key.hash), l.idx)
               && forall e :: Wanted(c, dead, w, e) ==> Jumped(c, dead, log, c.TargetOf(w.key.hash), e) || Before(log, l.idx, e)
    ensures LookOk(c, dead, true, log, q, Follow(c, dead, w, l))
  {
    hide Jumped, Before, ForeignPos;
    if l.Next? { HomeOfTarget(c, c.keys[l.idx].hash); }
    var w' := Follow(c, dead, w, l);
    assert w' == w.(at := if l.Next? && l.idx in dead then Some(l.idx) else w.held);
    forall e | Wanted(c, dead, w', e)
      ensures Jumped(c, dead, log, c.TargetOf(w.key.hash), e) || (Ahead(log, w'.at, e) && Ahead(log, w'.held, e))
    {
      assert Wanted(c, dead, w, e);
    }
  }

  lemma InLog(c: Config, s: State, y: nat)
    requires LogOk(c, s.next, s.log) && y in s.log
    ensures y < |c.keys| && y < |s.next| && c.OnChain(c.keys[y].hash)
  {
  }

  /** The end of the chain is only reached when nothing wanted is left. */
  lemma EndOk(c: Config, dead: set<nat>, switched: bool, log: seq<nat>, q: seq<nat>, w: Lookup, l: Link)
    requires w.Walking? && WalkOk(c, dead, switched, log, q, w) && l.End? && l.shift <= w.shift
    requires forall e :: Wanted(c, dead, w, e) ==> Jumped(c, dead, log, c.TargetOf(w.key.hash), e)
    ensures LookOk(c, dead, switched, log, q, Follow(c, dead, w, l))
  {
    hide Jumped, Before;
    var w' := Follow(c, dead, w, l);
    if w'.NotFound? {
      forall e | e in w.since && e < |c.keys| && c.keys[e] == w.key && e !in dead
        ensures Jumped(c, dead, log, c.TargetOf(w.key.hash), e)
      {
        assert Wanted(c, dead, w, e);
      }
    } else {
      assert w' == w.(at := w.held);
      forall e | Wanted(c, dead, w', e) ensures Jumped(c, dead, log, c.TargetOf(w.key.hash), e) { assert Wanted(c, dead, w, e); }
    }
  }

  lemma BeforeThen(log: seq<nat>, x: nat, y: nat, z: nat)
    requires Distinct(log) && Before(log, x, y) && Before(log, y, z)
    ensures Before(log, x, z)
  {
  }

  /** Going on along the old chain, a foreign entry still has an entry of the lookup's own chain before it. */
  lemma NextForeignPos(c: Config, log: seq<nat>, r: seq<nat>, q: seq<nat>, t: int, p: nat)
    requires log == r + q && Distinct(log) && p + 1 < |q| && q[p + 1] < |c.keys| && 0 <= t < 2
    requires Goes(c, q[p], t) || ForeignPos(c, log, q, t, q[p])
    ensures Goes(c, q[p + 1], t) || ForeignPos(c, log, q, t, q[p + 1])
  {
    hide Distinct;
    assert Before(log, q[p], q[p + 1]) by { assert log[|r| + p] == q[p] && log[|r| + p + 1] == q[p + 1]; }
    if Goes(c, q[p], t) {
      assert ForeignPos(c, log, q, t, q[p + 1]) || Goes(c, q[p + 1], t);
    } else {
      var g :| Goes(c, g, t) && Before(log, g, q[p]);
      BeforeThen(log, g, q[p], q[p + 1]);
    }
  }

  /** Two entries of a chain are in one order or the other. */
  lemma EitherOrder(log: seq<nat>, x: nat, y: nat)
    requires x in log && y in log && x != y
    ensures Before(log, x, y) || Before(log, y, x)
  {
    var i :| 0 <= i < |log| && log[i] == x;
    var j :| 0 <= j < |log| && log[j] == y;
  }

  /** The other chain's next entry after one a lookup stands on. */
  lemma NextOfOther(c: Config, dead: set<nat>, log: seq<nat>, r: seq<nat>, q: seq<nat>, t: int, x: nat, z: nat, e: nat)
    requires log == r + q && Distinct(log) && ForeignPos(c, log, q, t, x) && Before(log, x, z) && Goes(c, z, 1 - t) && 0 <= t < 2
    ensures z in q && ForeignPos(c, log, q, t, z)
    ensures z in dead && e in log && Goes(c, e, t) && Before(log, x, e) ==> Jumped(c, dead, log, t, e) || Before(log, z, e)
  {
    assert z in q by { LaterInTail(log, r, q, x, z); }
    hide Distinct, Before;
    var g :| Goes(c, g, t) && Before(log, g, x);
    BeforeThen(log, g, x, z);
    if z in dead && e in log && Goes(c, e, t) && Before(log, x, e) && !Before(log, z, e) {
      BothIn(log, x, z);
      EitherOrder(log, z, e);
    }
  }

  lemma BothIn(log: seq<nat>, x: nat, z: nat)
    requires Before(log, x, z)
    ensures x in log && z in log
  {
  }

  lemma LaterInTail(log: seq<nat>, r: seq<nat>, q: seq<nat>, x: nat, z: nat)
    requires log == r + q && Distinct(log) && x in q && Before(log, x, z)
    ensures z in q
  {
    var k :| 0 <= k < |q| && q[k] == x;
    var i, j :| 0 <= i < j < |log| && log[i] == x && log[j] == z;
    assert log[|r| + k] == x;
    assert i == |r| + k;
    assert q[j - |r|] == z;
  }

  /** Reading the pointer of old-chain position p. */
  lemma WalkOldLink(c: Config, s: State, switched: bool, r: seq<nat>, q: seq<nat>, q': seq<nat>, w: Lookup, p: nat, l: Link)
    requires ConfigOk(c) && LogOk(c, s.next, s.log) && s.log == r + q && w.Walking? && WalkOk(c, s.condemned, switched, s.log, q', w)
    requires p < |q| && w.at == Some(q[p]) && l == OldLink(c, q, p + 1) && (switched ==> q' == q)
    ensures LookOk(c, s.condemned, switched, s.log, q', Follow(c, s.condemned, w, l))
  {
    hide Jumped, Before, ForeignPos;
    var t := c.TargetOf(w.key.hash);
    forall e | Wanted(c, s.condemned, w, e) && !Jumped(c, s.condemned, s.log, t, e)
      ensures p + 1 < |q| && (q[p + 1] == e || Before(s.log, q[p + 1], e))
    {
      FollowOld(s.log, r, q, p, e);
    }
    if p + 1 < |q| {
      assert s.log[|r| + p + 1] == q[p + 1];
      InLog(c, s, q[p + 1]);
      if w.shift == c.NewShift() { NextForeignPos(c, s.log, r, q, t, p); }
      FollowOldOk(c, s.condemned, switched, s.log, q', w, l);
    } else {
      EndOk(c, s.condemned, switched, s.log, q', w, l);
    }
  }

  lemma WalkFinalLink(c: Config, s: State, a: Aux, w: Lookup, x: nat, i: nat)
    requires ConfigOk(c) && LogOk(c, s.next, s.log) && s.log == a.r + a.q && w.Walking? && WalkOk(c, s.condemned, true, s.log, a.q, w)
    requires w.at == Some(x) && w.shift == c.NewShift() && FinalAt(c, s.next, s.log, x, i)
    ensures LookOk(c, s.condemned, true, s.log, a.q, Follow(c, s.condemned, w, s.next[x]))
  {
    hide Jumped, Before, ForeignPos, Pick;
    var u, t, l := c.Target(x), c.TargetOf(w.key.hash), s.next[x];
    var p := Pick(c, s.log, u);
    PickElements(c, s.log, u);
    if i + 1 < |p| {
      assert p[i + 1] in p;
      InLog(c, s, p[i + 1]);
    }
    if u != t {
      if i + 1 < |p| {
        PickReflectsOrder(c, s.log, u, i, i + 1);
        forall e | Wanted(c, s.condemned, w, e)
          ensures ForeignPos(c, s.log, a.q, t, p[i + 1])
          ensures p[i + 1] in s.condemned ==> Jumped(c, s.condemned, s.log, t, e) || Before(s.log, p[i + 1], e)
        {
          NextOfOther(c, s.condemned, s.log, a.r, a.q, t, x, p[i + 1], e);
        }
        NextOfOther(c, s.condemned, s.log, a.r, a.q, t, x, p[i + 1], x);
      }
      BackUpOk(c, s.condemned, s.log, a.q, w, l, u);
    } else {
      forall e | Wanted(c, s.condemned, w, e) && !Jumped(c, s.condemned, s.log, t, e)
        ensures i + 1 < |p| && (p[i + 1] == e || Before(s.log, p[i + 1], e))
      {
        FollowFinal(c, s.log, u, i, e);
      }
      if i + 1 < |p| {
        FollowFinalOk(c, s.condemned, s.log, a.q, w, l);
      } else {
        EndOk(c, s.condemned, true, s.log, a.q, w, l);
      }
    }
  }

  lemma WalkNewHead(c: Config, s: State, a: Aux, w: Lookup, l: Link)
    requires ConfigOk(c) && LogOk(c, s.next, s.log) && s.log == a.r + a.q && w.Walking? && WalkOk(c, s.condemned, true, s.log, a.q, w)
    requires w.at == None && w.shift == c.NewShift()
    requires Unlock(l) == NewLink(c, Pick(c, s.log, c.TargetOf(w.key.hash)), 0, c.TargetOf(w.key.hash))
    ensures LookOk(c, s.condemned, true, s.log, a.q, Follow(c, s.condemned, w, l))
  {
    var t := c.TargetOf(w.key.hash);
    var p := Pick(c, s.log, t);
    PickElements(c, s.log, t);
    forall e | Wanted(c, s.condemned, w, e)
      ensures p != [] && (p[0] == e || Before(s.log, p[0], e))
    {
      FollowHead(c, s.log, t, e);
    }
    if p != [] {
      assert p[0] in p;
      InLog(c, s, p[0]);
      FollowFinalOk(c, s.condemned, s.log, a.q, w, l);
    } else {
      EndOk(c, s.condemned, true, s.log, a.q, w, l);
    }
  }

  lemma WalkOldHead(c: Config, s: State, a: Aux, w: Lookup)
    requires ConfigOk(c) && LogOk(c, s.next, s.log) && OldChain(c, s.zeroHead, s.next, s.log)
    requires w.Walking? && WalkOk(c, s.condemned, false, s.log, a.q, w) && w.at == None
    ensures LookOk(c, s.condemned, false, s.log, a.q, Follow(c, s.condemned, w, s.zeroHead))
  {
    forall e | Wanted(c, s.condemned, w, e)
      ensures s.log != [] && (s.log[0] == e || Before(s.log, s.log[0], e))
    {
      var j :| 0 <= j < |s.log| && s.log[j] == e;
      assert j > 0 ==> 0 < j < |s.log| && s.log[0] == s.log[0];
    }
    if s.log != [] {
      InLog(c, s, s.log[0]);
      FollowOldOk(c, s.condemned, false, s.log, a.q, w, s.zeroHead);
    } else {
      EndOk(c, s.condemned, false, s.log, a.q, w, s.zeroHead);
    }
  }

  lemma OldChainAt(c: Config, head: Link, next: seq<Link>, log: seq<nat>, i: nat)
    requires OldChain(c, head, next, log) && i < |log|
    ensures log[i] < |next| && next[log[i]] == OldLink(c, log, i + 1)
  {
  }

  lemma WalkFromOldEntry(c: Config, s: State, a: Aux, w: Lookup, x: nat)
    requires ConfigOk(c) && LogOk(c, s.next, s.log) && OldChain(c, s.zeroHead, s.next, s.log)
    requires w.Walking? && WalkOk(c, s.condemned, false, s.log, a.q, w) && w.at == Some(x) && x < |s.next|
    ensures LookOk(c, s.condemned, false, s.log, a.q, Follow(c, s.condemned, w, s.next[x]))
  {
    hide Follow, BottomBits, LookOk, OldLink, OldChain, LogOk;
    var i :| 0 <= i < |s.log| && s.log[i] == x;
    OldChainAt(c, s.zeroHead, s.next, s.log, i);
    var r: seq<nat> := [];
    assert s.log == r + s.log;
    WalkOldLink(c, s, false, r, s.log, a.q, w, i, s.next[x]);
  }

  lemma WalkFromNewEntry(c: Config, s: State, a: Aux, w: Lookup, x: nat)
    requires ConfigOk(c) && LogOk(c, s.next, s.log) && Chains(c, s.next, s.zeroHead, s.oneHead, a) && s.log == a.r + a.q
    requires w.Walking? && WalkOk(c, s.condemned, true, s.log, a.q, w) && w.at == Some(x) && x < |s.next|
    ensures LookOk(c, s.condemned, true, s.log, a.q, Follow(c, s.condemned, w, s.next[x]))
  {
    hide Follow, Chains, Pick, BottomBits, LookOk;
    InLog(c, s, x);
    var final, i := NextShape(c, s.next, s.zeroHead, s.oneHead, a, x);
    if !final {
      WalkOldLink(c, s, true, a.r, a.q, a.q, w, i, s.next[x]);
    } else if w.shift == c.oldShift {
      RestartOk(c, s.condemned, s.log, a.q, w, s.next[x]);
    } else {
      WalkFinalLink(c, s, a, w, x, i);
    }
  }

  lemma WalkFromEntry(c: Config, s: State, a: Aux, w: Lookup)
    requires ChainInv(c, s, a) && w.Walking? && WalkOk(c, s.condemned, Switched(s), s.log, a.q, w) && w.at.Some?
    ensures w.at.value < |s.next| && LookOk(c, s.condemned, Switched(s), s.log, a.q, Follow(c, s.condemned, w, s.next[w.at.value]))
  {
    hide Follow, Chains, OldChain, BottomBits, PostLocals, LookOk, Joined;
    InLog(c, s, w.at.value);
    if Switched(s) {
      JoinedConcat(s.log, a.r, a.q);
      WalkFromNewEntry(c, s, a, w, w.at.value);
    } else {
      WalkFromOldEntry(c, s, a, w, w.at.value);
    }
  }

  lemma WalkFromHead(c: Config, s: State, a: Aux, w: Lookup)
    requires ChainInv(c, s, a) && w.Walking? && WalkOk(c, s.condemned, Switched(s), s.log, a.q, w) && w.at.None?
    ensures LookOk(c, s.condemned, Switched(s), s.log, a.q, Follow(c, s.condemned, w, HeadAt(c, s, w.home)))
  {
    HeadShifts(c, s, a);
    hide Follow, Strung, Mig, Pick, BottomBits, PostLocals, Weak, LookOk, Joined;
    if !Switched(s) {
      WalkOldHead(c, s, a, w);
    } else if w.shift == c.oldShift {
      RestartOk(c, s.condemned, s.log, a.q, w, s.zeroHead);
    } else {
      var t := c.TargetOf(w.key.hash);
      JoinedConcat(s.log, a.r, a.q);
      HeadShape(c, s.next, s.Head(t), a, t);
      WalkNewHead(c, s, a, w, s.Head(t));
    }
  }

  /** Every iteration of a lookup keeps its invariant, in whatever state the chains are. */
  lemma WalkKeeps(c: Config, s: State, a: Aux)
    requires ChainInv(c, s, a) && LookOk(c, s.condemned, Switched(s), s.log, a.q, s.lookup)
    ensures LookOk(c, s.condemned, Switched(s), s.log, a.q, LookupStep(c, s).lookup)
  {
    hide ChainInv, Follow, WalkOk;
    if s.lookup.Walking? {
      if s.lookup.at.Some? {
        WalkFromEntry(c, s, a, s.lookup);
      } else {
        WalkFromHead(c, s, a, s.lookup);
      }
    }
  }
}
