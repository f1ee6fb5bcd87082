/**
 A lookup can miss an entry that stays. While a chain is split, let a lookup that already uses the new
 shift stand on an entry y of the other output chain, which it reached over old pointers. Behind y
 follow the entry x it looks for and a further entry z of the other chain. The split links y to z; if z
 is under destruction then, the lookup skips it without comparing its home, and goes on along the old
 chain behind x up to its end marker, which it takes for the end of its own chain.
 */
module ChainSplitMiss {
  import opened Bits
  import opened Lists
  import opened Options
  import opened ChainSplit
  import opened ChainSplitProof
  import opened ChainSplitSteps
  import opened ChainSplitInserts
  import opened ChainSplitLookup
  import opened ChainSplitTheorems

  lemma RunOne(c: Config, s: State, a: Action)
    ensures Run(c, s, [a]) == Apply(c, s, a)
  {
    assert [a][..0] == [];
  }

  lemma RunNone(c: Config, s: State)
    ensures Run(c, s, []) == s
  {
  }

  /** The steps of a run of the splitting thread alone. */
  predicate OnlySplits(acts: seq<Action>) {
    forall i :: 0 <= i < |acts| ==> acts[i].Split?
  }

  /** A run of lookup steps and condemnations, after the lookup has begun. */
  predicate Quiet(acts: seq<Action>) {
    forall i :: 0 <= i < |acts| ==> acts[i].Split? || acts[i].Walk? || acts[i].Condemn?
  }

  // The splitting thread alone, up to the switch.

  ghost predicate Alone(c: Config, s: State, a: Aux) {
    ChainInv(c, s, a) && a.r == [] && a.q == s.log
  }

  lemma AloneHead(c: Config, s: State, a: Aux)
    requires Alone(c, s, a) && s.split.CasingZeroHead? && s.log != []
    ensures s.zeroHead == s.split.saved
  {
  }

  lemma SplitFrame(c: Config, s: State, a: Aux)
    requires ChainInv(c, s, a)
    ensures var s' := SplitStep(c, s);
            s'.log == s.log && s'.inserters == s.inserters && s'.lookup == s.lookup && s'.condemned == s.condemned
  {
    hide ChainInv, SplitStep;
    SplitWritesOnChain(c, s, a);
  }

  ghost predicate SwitchedAlone(c: Config, s: State, a: Aux) {
    Alone(c, s, a) && Switched(s) && IsFirst(c, a.q, 0, a.f0) && IsFirst(c, a.q, 1, a.f1)
  }

  ghost predicate SameBesides(s: State, s': State) {
    s'.log == s.log && s'.inserters == s.inserters && s'.lookup == s.lookup && s'.condemned == s.condemned
  }

  lemma Switching(c: Config, s: State, a: Aux) returns (a': Aux)
    requires Alone(c, s, a) && s.split.CasingZeroHead? && s.log != []
    ensures SwitchedAlone(c, SplitStep(c, s), a')
  {
    hide SplitStep, ChainInv, IsFirst, ScanDone, Switched;
    AloneHead(c, s, a);
    SwitchKeeps(c, s, a);
    var v := s.split.v;
    a' := BigStepAux(a, v);
    BigStepSwitches(c, s);
    CasingScanDone(c, s, a);
    SplitFrame(c, s, a);
    BigStepFrontiers(c, a, v, 0);
    BigStepFrontiers(c, a, v, 1);
  }

  lemma CasingScanDone(c: Config, s: State, a: Aux)
    requires ChainInv(c, s, a) && s.split.CasingZeroHead?
    ensures ScanDone(c, a, s.split.v, a.k)
  {
  }

  lemma BigStepSwitches(c: Config, s: State)
    requires s.split.CasingZeroHead? && s.zeroHead == s.split.saved
    ensures Switched(SplitStep(c, s))
  {
  }

  function PreRank(s: State, a: Aux): int {
    match s.split
    case Locking => |a.q| + 4
    case Scanning(_, _, _) => |a.q| - a.k + 3
    case StoringOneHead(_, _) => 2
    case CasingZeroHead(_, _) => 1
    case _ => 0
  }

  /** One step towards the switch. */
  lemma PreStep(c: Config, s: State, a: Aux) returns (a': Aux)
    requires Alone(c, s, a) && !Switched(s) && s.log != [] && (s.split.Locking? ==> s.zeroHead == Unlock(s.zeroHead))
    ensures var s' := SplitStep(c, s);
            && SameBesides(s, s')
            && (if Switched(s') then SwitchedAlone(c, s', a')
                else Alone(c, s', a') && !s'.split.Locking? && 0 <= PreRank(s', a') < PreRank(s, a))
  {
    hide SplitStep, ChainInv, IsFirst;
    SplitFrame(c, s, a);
    match s.split
    case Locking => a' := LockingAlone(c, s, a);
    case Scanning(_, _, _) =>
      a' := ScanningKeeps(c, s, a);
      ScanBound(c, s, a);
      ScanBoundAfter(c, s, a, a');
    case StoringOneHead(_, _) =>
      StoringKeeps(c, s, a);
      StoringThenCasing(c, s);
      a' := a;
    case CasingZeroHead(_, _) => a' := Switching(c, s, a);
  }

  lemma StoringThenCasing(c: Config, s: State)
    requires s.split.StoringOneHead?
    ensures SplitStep(c, s).split.CasingZeroHead?
  {
  }

  lemma ScanBound(c: Config, s: State, a: Aux)
    requires ChainInv(c, s, a) && s.split.Scanning?
    ensures a.k <= |a.q|
  {
  }

  lemma ScanBoundAfter(c: Config, s: State, a: Aux, a': Aux)
    requires ChainInv(c, SplitStep(c, s), a') && s.split.Scanning?
    ensures SplitStep(c, s).split.Scanning? ==> a'.k <= |a'.q|
    ensures !Switched(SplitStep(c, s)) && !SplitStep(c, s).split.Locking?
  {
  }

  lemma LockingAlone(c: Config, s: State, a: Aux) returns (a': Aux)
    requires Alone(c, s, a) && s.split.Locking? && s.log != [] && s.zeroHead == Unlock(s.zeroHead)
    ensures var s' := SplitStep(c, s); Alone(c, s', a') && s'.split.Scanning? && a'.k == 0
  {
    a' := LockingKeeps(c, s, a);
    a' := Aux([], s.log, None, None, 0);
  }

  lemma {:induction false} ToSwitch(c: Config, s: State, a: Aux) returns (acts: seq<Action>, a': Aux)
    requires Alone(c, s, a) && !Switched(s) && s.log != [] && (s.split.Locking? ==> s.zeroHead == Unlock(s.zeroHead))
    ensures OnlySplits(acts) && SwitchedAlone(c, Run(c, s, acts), a') && SameBesides(s, Run(c, s, acts))
    decreases PreRank(s, a)
  {
    hide Alone, SwitchedAlone, SplitStep, Run;
    var a1 := PreStep(c, s, a);
    var s1 := SplitStep(c, s);
    RunOne(c, s, Split);
    if Switched(s1) {
      acts, a' := [Split], a1;
    } else {
      var more;
      more, a' := ToSwitch(c, s1, a1);
      RunConcat(c, s, [Split], more);
      acts := [Split] + more;
    }
  }

  // From the switch on, until the frontier of the other chain is at a given entry.

  lemma OneStore(c: Config, s: State) returns (y: nat, l: Link)
    ensures SplitStep(c, s).next == s.next || (y < |s.next| && SplitStep(c, s).next == s.next[y := l])
  {
    y, l := 0, UNUSED;
    var s' := SplitStep(c, s);
    if s'.next != s.next {
      match s.split
      case Upgrading(v, chain, stop, ret) => y := v.Frontier(chain).value; l := s'.next[y];
      case Looping(v) => y := v.Frontier(v.first).value; l := s'.next[y];
      case _ =>
    }
  }

  /** Before its frontier, the pointers of an output chain are final. */
  lemma FinalBefore(c: Config, next: seq<Link>, zeroHead: Link, oneHead: Link, a: Aux, o: int, k: nat) returns (j: nat)
    requires Distinct(a.r + a.q) && Chains(c, next, zeroHead, oneHead, a) && k < |a.q| && a.q[k] < |c.keys| && o == c.Target(a.q[k])
    requires a.Fr(o).None? || k < a.Fr(o).value
    ensures FinalAt(c, next, a.r + a.q, a.q[k], j)
  {
    hide Mig, Strung, Pick, Distinct;
    var x := a.q[k];
    var m := Mig(c, a, o);
    ChainsFor(c, next, zeroHead, oneHead, a, o);
    assert x in a.r + a.q;
    if i :| 0 <= i < |m| && m[i] == x && (a.Fr(o).None? || i + 1 < |m|) {
      EntryInMig(c, next, HeadOf(zeroHead, oneHead, o), a, x, o, i);
      j := i;
    } else {
      var i := NotFinal(c, a, x, o);
      SuffixDistinct(a);
      assert false by { SameIndex(a.q, i, k); }
    }
  }

  lemma SameIndex(q: seq<nat>, i: nat, k: nat)
    requires Distinct(q) && i < |q| && k < |q| && q[i] == q[k]
    ensures i == k
  {
  }

  lemma FinalShift(c: Config, next: seq<Link>, log: seq<nat>, x: nat, j: nat)
    requires FinalAt(c, next, log, x, j)
    ensures next[x].shift == c.NewShift()
  {
  }

  lemma OldShift(c: Config, next: seq<Link>, q: seq<nat>, f: nat, i: nat)
    requires OldTail(c, next, q, f) && f <= i < |q|
    ensures q[i] < |next| && next[q[i]] == OldLink(c, q, i + 1) && next[q[i]].shift == c.oldShift
  {
  }

  ghost predicate NextOther(c: Config, q: seq<nat>, o: int, i1: nat, i2: nat) {
    i1 < i2 < |q| && Goes(c, q[i1], o) && Goes(c, q[i2], o) && forall i :: i1 < i < i2 ==> !Goes(c, q[i], o)
  }

  ghost predicate Driving(c: Config, s: State, a: Aux, o: int, f: nat) {
    ChainInv(c, s, a) && Switched(s) && 0 <= o < 2 && a.Fr(o) == Some(f)
  }

  lemma DrivingFacts(c: Config, s: State, a: Aux)
    requires ChainInv(c, s, a) && Switched(s)
    ensures s.log == a.r + a.q && Distinct(a.r + a.q) && Distinct(a.q) && Chains(c, s.next, s.zeroHead, s.oneHead, a)
    ensures forall i :: 0 <= i < |a.q| ==> a.q[i] in s.log && a.q[i] < |c.keys| && a.q[i] < |s.next| && c.OnChain(c.keys[a.q[i]].hash)
    ensures Weak(c, s.next, a, 0) && Weak(c, s.next, a, 1)
    ensures s.split.Done? ==> a.f0.None? && a.f1.None?
  {
    hide Mig, Strung, Pick, Weak;
    JoinedConcat(s.log, a.r, a.q);
    SuffixDistinct(a);
    forall i | 0 <= i < |a.q|
      ensures a.q[i] in s.log && a.q[i] < |c.keys| && a.q[i] < |s.next| && c.OnChain(c.keys[a.q[i]].hash)
    {
      assert s.log[|a.r| + i] == a.q[i];
    }
  }

  /** A step moves a frontier past at most one entry of its chain, since it writes one pointer. */
  lemma FrontierStep(c: Config, s: State, a: Aux, a': Aux, o: int, f: nat, i1: nat, i2: nat)
    requires Driving(c, s, a, o, f) && f <= i1 && NextOther(c, a.q, o, i1, i2)
    requires ChainInv(c, SplitStep(c, s), a') && Switched(SplitStep(c, s)) && a'.q == a.q && SplitStep(c, s).log == s.log
    ensures a'.Fr(o).Some? && a'.Fr(o).value <= i2 && Goes(c, a.q[a'.Fr(o).value], o)
  {
    hide ChainInv, SplitStep, Chains, OldTail, Distinct, FinalAt;
    var s' := SplitStep(c, s);
    DrivingFacts(c, s, a);
    DrivingFacts(c, s', a');
    assert a.r == a'.r by { SamePrefix(s.log, a.r, a'.r, a.q); }
    OldShift(c, s.next, a.q, f, f);
    OldShift(c, s.next, a.q, f, i2);
    if a'.Fr(o).None? || a'.Fr(o).value > i2 {
      var j := FinalBefore(c, s'.next, s'.zeroHead, s'.oneHead, a', o, f);
      FinalShift(c, s'.next, s'.log, a.q[f], j);
      var k := FinalBefore(c, s'.next, s'.zeroHead, s'.oneHead, a', o, i2);
      FinalShift(c, s'.next, s'.log, a.q[i2], k);
      var y, l := OneStore(c, s);
      if a.q[f] == a.q[i2] { SameIndex(a.q, f, i2); }
    }
  }

  lemma SamePrefix(log: seq<nat>, r: seq<nat>, r': seq<nat>, q: seq<nat>)
    requires log == r + q == r' + q
    ensures r == r'
  {
    assert r == log[..|log| - |q|] == r';
  }

  lemma {:induction false} Drive(c: Config, s: State, a: Aux, o: int, f: nat, i1: nat, i2: nat) returns (acts: seq<Action>, a': Aux)
    requires Driving(c, s, a, o, f) && f <= i1 && NextOther(c, a.q, o, i1, i2)
    ensures OnlySplits(acts) && SameBesides(s, Run(c, s, acts)) && a'.q == a.q && Driving(c, Run(c, s, acts), a', o, i2)
    decreases Rank(s.split, a)
  {
    hide ChainInv, SplitStep, Run;
    var s1 := SplitStep(c, s);
    var a1 := SplitKeepsChain(c, s, a);
    SplitFrame(c, s, a);
    assert Switched(s1) by { SplitWritesOnChain(c, s, a); }
    FrontierStep(c, s, a, a1, o, f, i1, i2);
    DrivingFacts(c, s1, a1);
    RunOne(c, s, Split);
    RankBound(c, s, a);
    RankBound(c, s1, a1);
    var f1 := a1.Fr(o).value;
    if f1 == i2 {
      acts, a' := [Split], a1;
    } else {
      var more;
      more, a' := Drive(c, s1, a1, o, f1, i1, i2);
      RunConcat(c, s, [Split], more);
      acts := [Split] + more;
    }
  }

  lemma Between(log: seq<nat>, r: seq<nat>, q: seq<nat>, i1: nat, i2: nat, z: nat) returns (k: nat)
    requires log == r + q && Distinct(log) && i1 < |q| && i2 < |q| && Before(log, q[i1], z) && Before(log, z, q[i2])
    ensures i1 < k < i2 && q[k] == z
  {
    var i, m :| 0 <= i < m < |log| && log[i] == q[i1] && log[m] == z;
    var m', j :| 0 <= m' < j < |log| && log[m'] == z && log[j] == q[i2];
    assert log[|r| + i1] == q[i1] && log[|r| + i2] == q[i2];
    assert i == |r| + i1 && j == |r| + i2 && m == m';
    k := m - |r|;
  }

  /** With the frontier of chain o at q[i2], the entry of that chain before it is linked to it. */
  lemma LinkedAcross(c: Config, s: State, a: Aux, o: int, i1: nat, i2: nat)
    requires Driving(c, s, a, o, i2) && NextOther(c, a.q, o, i1, i2)
    ensures a.q[i1] < |s.next| && s.next[a.q[i1]] == Next(a.q[i2], c.NewShift(), false)
  {
    hide ChainInv, Chains, Distinct, Pick, Before;
    DrivingFacts(c, s, a);
    var y, z := a.q[i1], a.q[i2];
    var j := FinalBefore(c, s.next, s.zeroHead, s.oneHead, a, o, i1);
    var p := Pick(c, s.log, o);
    assert Before(s.log, y, z) by { InOrder(s.log, a.r, a.q, i1, i2); }
    PickElements(c, s.log, o);
    PickDistinct(c, s.log, o);
    PickKeepsOrder(c, s.log, y, z, o);
    var j2 := IndexAfter(p, j, z);
    if j2 > j + 1 {
      PickReflectsOrder(c, s.log, o, j, j + 1);
      PickReflectsOrder(c, s.log, o, j + 1, j2);
      assert p[j + 1] in p;
      var k := Between(s.log, a.r, a.q, i1, i2, p[j + 1]);
    }
  }

  lemma InOrder(log: seq<nat>, r: seq<nat>, q: seq<nat>, i: nat, j: nat)
    requires log == r + q && i < j < |q|
    ensures Before(log, q[i], q[j])
  {
    assert log[|r| + i] == q[i] && log[|r| + j] == q[j];
  }

  // The lookup.

  /** A lookup that uses the new shift, for key x, standing on y. */
  ghost predicate Standing(c: Config, s: State, key: HashedKey, y: nat) {
    && s.lookup.Walking? && s.lookup.key == key && s.lookup.shift == c.NewShift()
    && s.lookup.home == c.Home(c.TargetOf(key.hash)) && s.lookup.at == Some(y)
  }

  lemma FollowOldTo(c: Config, dead: set<nat>, w: Lookup, y: nat)
    requires ConfigOk(c) && w.Walking? && w.shift == c.NewShift() && w.home == c.Home(c.TargetOf(w.key.hash))
    requires y < |c.keys| && c.OnChain(c.keys[y].hash) && (y in dead || c.keys[y] != w.key)
    ensures var w' := Follow(c, dead, w, Next(y, c.oldShift, false)); w'.Walking? && w' == w.(at := Some(y), held := w'.held)
  {
    OldHomeOf(c, c.TargetOf(w.key.hash));
  }

  lemma FollowEndTo(c: Config, dead: set<nat>, w: Lookup)
    requires ConfigOk(c) && w.Walking? && w.shift == c.NewShift() && w.home == c.Home(c.TargetOf(w.key.hash))
    ensures Follow(c, dead, w, End(c.oldHome, c.oldShift)) == NotFound(w.key, w.since)
  {
    OldHomeOf(c, c.TargetOf(w.key.hash));
  }

  /** One step along the old chain. */
  lemma WalkOn(c: Config, s: State, key: HashedKey, q: seq<nat>, f: nat, i: nat)
    requires ConfigOk(c) && OldTail(c, s.next, q, f) && f <= i && i + 1 < |q| && Standing(c, s, key, q[i])
    requires q[i + 1] < |c.keys| && c.OnChain(c.keys[q[i + 1]].hash) && (q[i + 1] in s.condemned || c.keys[q[i + 1]] != key)
    ensures var s' := Apply(c, s, Walk); Standing(c, s', key, q[i + 1]) && s' == s.(lookup := s'.lookup)
  {
    hide Follow, OldTail;
    OldShift(c, s.next, q, f, i);
    FollowOldTo(c, s.condemned, s.lookup, q[i + 1]);
  }

  ghost predicate Passable(c: Config, dead: set<nat>, key: HashedKey, y: nat) {
    y < |c.keys| && c.OnChain(c.keys[y].hash) && (y in dead || c.keys[y] != key)
  }

  lemma {:induction false} WalkAlong(c: Config, s: State, key: HashedKey, q: seq<nat>, f: nat, i: nat, j: nat) returns (acts: seq<Action>)
    requires ConfigOk(c) && OldTail(c, s.next, q, f) && f <= i <= j < |q| && Standing(c, s, key, q[i])
    requires forall k :: i < k <= j ==> Passable(c, s.condemned, key, q[k])
    ensures Quiet(acts) && var s' := Run(c, s, acts); Standing(c, s', key, q[j]) && s' == s.(lookup := s'.lookup)
    decreases j - i
  {
    hide OldTail, Run, Standing, Apply;
    if i == j {
      acts := [];
      RunNone(c, s);
    } else {
      assert Passable(c, s.condemned, key, q[i + 1]);
      WalkOn(c, s, key, q, f, i);
      var s1 := Apply(c, s, Walk);
      RunOne(c, s, Walk);
      var more := WalkAlong(c, s1, key, q, f, i + 1, j);
      RunConcat(c, s, [Walk], more);
      acts := [Walk] + more;
    }
  }

  lemma {:induction false} CondemnAll(c: Config, s: State, l: seq<nat>) returns (acts: seq<Action>)
    ensures Quiet(acts) && Run(c, s, acts) == s.(condemned := s.condemned + Elements(l))
    decreases |l|
  {
    hide Run;
    if l == [] {
      acts := [];
      RunNone(c, s);
      assert s.condemned + Elements(l) == s.condemned;
    } else {
      var x := Condemn(l[0]);
      RunOne(c, s, x);
      var more := CondemnAll(c, Apply(c, s, x), l[1..]);
      RunConcat(c, s, [x], more);
      acts := [x] + more;
      assert s.condemned + {l[0]} + Elements(l[1..]) == s.condemned + Elements(l) by { assert l == [l[0]] + l[1..]; }
    }
  }

  /** A pointer of the other chain to an entry under destruction is followed. */
  lemma FollowJump(c: Config, dead: set<nat>, w: Lookup, y: nat)
    requires w.Walking? && w.shift == c.NewShift() && y in dead && y < |c.keys|
    ensures Follow(c, dead, w, Next(y, c.NewShift(), false)) == w.(at := Some(y))
  {
  }

  lemma JumpOver(c: Config, s: State, a: Aux, key: HashedKey, i1: nat, i2: nat)
    requires Driving(c, s, a, 1 - c.TargetOf(key.hash), i2) && NextOther(c, a.q, 1 - c.TargetOf(key.hash), i1, i2)
    requires Standing(c, s, key, a.q[i1]) && a.q[i2] in s.condemned
    ensures var s' := Apply(c, s, Walk); Standing(c, s', key, a.q[i2]) && s' == s.(lookup := s'.lookup)
  {
    hide ChainInv, Follow, Weak, Chains, Distinct;
    DrivingFacts(c, s, a);
    LinkedAcross(c, s, a, 1 - c.TargetOf(key.hash), i1, i2);
    FollowJump(c, s.condemned, s.lookup, a.q[i2]);
  }

  /** At the last entry of the old chain. */
  lemma EndOfOld(c: Config, s: State, key: HashedKey, q: seq<nat>, f: nat)
    requires ConfigOk(c) && OldTail(c, s.next, q, f) && f < |q| && Standing(c, s, key, q[|q| - 1])
    ensures var s' := Apply(c, s, Walk); s'.lookup.NotFound? && s'.condemned == s.condemned
  {
    hide Follow, OldTail;
    OldShift(c, s.next, q, f, |q| - 1);
    FollowEndTo(c, s.condemned, s.lookup);
  }

  /** Skipping the entry under destruction, and on to the end of the old chain. */
  lemma JumpAndEnd(c: Config, s: State, a: Aux, key: HashedKey, i1: nat, i2: nat) returns (acts: seq<Action>)
    requires Driving(c, s, a, 1 - c.TargetOf(key.hash), i2) && NextOther(c, a.q, 1 - c.TargetOf(key.hash), i1, i2)
    requires Standing(c, s, key, a.q[i1]) && forall k :: i2 <= k < |a.q| ==> a.q[k] in s.condemned
    ensures Quiet(acts) && var s' := Run(c, s, acts); s'.lookup.NotFound? && s'.condemned == s.condemned
  {
    hide ChainInv, Run, OldTail, Weak, Chains, Apply, Standing, Distinct, BottomBits, Switched;
    var n := |a.q|;
    InvConfig(c, s, a);
    DrivingFacts(c, s, a);
    WeakTail(c, s.next, a, 1 - c.TargetOf(key.hash), i2);
    JumpOver(c, s, a, key, i1, i2);
    var s1 := Apply(c, s, Walk);
    RunOne(c, s, Walk);
    var on := WalkAlong(c, s1, key, a.q, i2, i2, n - 1);
    var s2 := Run(c, s1, on);
    EndOfOld(c, s2, key, a.q, i2);
    RunOne(c, s2, Walk);
    RunConcat(c, s1, on, [Walk]);
    RunConcat(c, s, [Walk], on + [Walk]);
    acts := [Walk] + (on + [Walk]);
  }

  lemma InvConfig(c: Config, s: State, a: Aux)
    requires ChainInv(c, s, a)
    ensures ConfigOk(c)
  {
  }

  lemma WeakTail(c: Config, next: seq<Link>, a: Aux, t: int, f: nat)
    requires Weak(c, next, a, t) && a.Fr(t) == Some(f)
    ensures OldTail(c, next, a.q, f)
  {
  }

  // Putting it together.

  lemma {:induction false} LastOther(c: Config, q: seq<nat>, o: int, p: nat, i: nat) returns (i1: nat)
    requires i < p <= |q| && Goes(c, q[i], o)
    ensures i <= i1 < p && Goes(c, q[i1], o) && forall k :: i1 < k < p ==> !Goes(c, q[k], o)
    decreases p
  {
    hide Goes;
    if Goes(c, q[p - 1], o) { i1 := p - 1; } else { i1 := LastOther(c, q, o, p - 1, i); }
  }

  lemma {:induction false} FirstOther(c: Config, q: seq<nat>, o: int, p: nat, j: nat) returns (i2: nat)
    requires p < j < |q| && Goes(c, q[j], o)
    ensures p < i2 <= j && Goes(c, q[i2], o) && forall k :: p < k < i2 ==> !Goes(c, q[k], o)
    decreases j - p
  {
    hide Goes;
    if Goes(c, q[p + 1], o) { i2 := p + 1; } else { i2 := FirstOther(c, q, o, p + 1, j); }
  }

  lemma NotBoth(c: Config, x: nat, t: int)
    requires 0 <= t < 2
    ensures !(Goes(c, x, t) && Goes(c, x, 1 - t))
  {
  }

  lemma Positions(q: seq<nat>, g: nat, y: nat, x: nat, z: nat) returns (i: nat, j: nat, k: nat, m: nat)
    requires Distinct(q) && Before(q, g, y) && Before(q, y, x) && Before(q, x, z)
    ensures i < j < k < m < |q| && q[i] == g && q[j] == y && q[k] == x && q[m] == z
  {
    var i0, j0 :| 0 <= i0 < j0 < |q| && q[i0] == g && q[j0] == y;
    hide Before;
    i, j := i0, j0;
    k := IndexAfter(q, j, x);
    m := IndexAfter(q, k, z);
  }

  /** The entries around x: the last one of the other chain before it and the first one behind it. */
  lemma Around(c: Config, q: seq<nat>, x: nat, t: int) returns (g: nat, i1: nat, p: nat, i2: nat)
    requires Distinct(q) && x < |c.keys| && t == c.Target(x) && Jumped(c, Elements(q), q, t, x)
    ensures g < i1 < p < i2 && i2 < |q| && q[p] == x && Goes(c, q[g], t) && NextOther(c, q, 1 - t, i1, i2)
  {
    hide Goes, Distinct, Before;
    var gg, yy, zz :| Goes(c, gg, t) && Before(q, gg, yy) && Goes(c, yy, 1 - t) && Before(q, yy, x)
                      && Before(q, x, zz) && Goes(c, zz, 1 - t) && zz in Elements(q);
    var j, m;
    g, j, p, m := Positions(q, gg, yy, x, zz);
    i1 := LastOther(c, q, 1 - t, p, j);
    i2 := FirstOther(c, q, 1 - t, p, m);
    NotBoth(c, x, t);
    GoesTarget(c, x);
  }

  lemma GoesTarget(c: Config, x: nat)
    requires x < |c.keys|
    ensures Goes(c, x, c.Target(x))
  {
  }

  /** Right after the switch, the head of chain t leads to its first entry. */
  lemma HeadAtSwitch(c: Config, s: State, a: Aux, t: int, f: nat)
    requires SwitchedAlone(c, s, a) && 0 <= t < 2 && a.Fr(t) == Some(f)
    ensures f < |a.q| && Unlock(HeadOf(s.zeroHead, s.oneHead, t)) == Next(a.q[f], c.NewShift(), false)
    ensures OldTail(c, s.next, a.q, f)
  {
    hide ChainInv, Chains, Strung, Mig, Pick, OldTail, Goes, Distinct;
    DrivingFacts(c, s, a);
    ChainsFor(c, s.next, s.zeroHead, s.oneHead, a, t);
    OneMigrated(c, a, t, f);
    StrungHead(c, s.next, HeadOf(s.zeroHead, s.oneHead, t), Mig(c, a, t), t, false);
  }

  lemma StrungHead(c: Config, next: seq<Link>, head: Link, m: seq<nat>, t: int, finished: bool)
    requires Strung(c, next, head, m, t, finished)
    ensures Unlock(head) == NewLink(c, m, 0, t)
  {
  }

  lemma OneMigrated(c: Config, a: Aux, t: int, f: nat)
    requires a.r == [] && IsFirst(c, a.q, t, Some(f)) && a.Fr(t) == Some(f) && 0 <= t < 2
    ensures Mig(c, a, t) == [a.q[f]]
  {
    PickLast(c, a.q[..f + 1], t);
    assert a.q[..f + 1][..f] == a.q[..f];
    PickNone(c, a.q[..f], t);
  }

  lemma FollowHeadTo(c: Config, dead: set<nat>, w: Lookup, l: Link, y: nat)
    requires ConfigOk(c) && w.Walking? && w.shift == c.NewShift() && w.home == c.Home(c.TargetOf(w.key.hash))
    requires Unlock(l) == Next(y, c.NewShift(), false) && Passable(c, dead, w.key, y) && Goes(c, y, c.TargetOf(w.key.hash))
    ensures var w' := Follow(c, dead, w, l); w'.Walking? && w' == w.(at := Some(y), held := w'.held)
  {
    HomeOfTarget(c, c.keys[y].hash);
  }

  /** The lookup begins right after the switch and walks to the entry before x that is not of its own chain. */
  lemma WalkToOther(c: Config, s: State, a: Aux, key: HashedKey, f: nat, i1: nat) returns (acts: seq<Action>)
    requires SwitchedAlone(c, s, a) && a.Fr(c.TargetOf(key.hash)) == Some(f) && f <= i1 < |a.q| && c.OnChain(key.hash)
    requires forall k :: f <= k <= i1 ==> Passable(c, s.condemned, key, a.q[k])
    ensures Quiet(acts)
    ensures var s' := Run(c, BeginLookup(c, s, key, true), acts); Standing(c, s', key, a.q[i1]) && s' == s.(lookup := s'.lookup)
  {
    hide ChainInv, Run, OldTail, Follow, IsFirst;
    var t := c.TargetOf(key.hash);
    var s1 := BeginLookup(c, s, key, true);
    InvConfig(c, s, a);
    HeadAtSwitch(c, s, a, t, f);
    assert Passable(c, s.condemned, key, a.q[f]);
    assert Goes(c, a.q[f], t) by { FirstGoes(c, a.q, t, f); }
    HeadOfHome(c, s, t);
    FollowHeadTo(c, s.condemned, s1.lookup, HeadOf(s.zeroHead, s.oneHead, t), a.q[f]);
    var s2 := Apply(c, s1, Walk);
    assert Standing(c, s2, key, a.q[f]) && s2 == s.(lookup := s2.lookup);
    RunOne(c, s1, Walk);
    var on := WalkAlong(c, s2, key, a.q, f, f, i1);
    RunConcat(c, s1, [Walk], on);
    acts := [Walk] + on;
  }

  lemma FirstGoes(c: Config, q: seq<nat>, t: int, f: nat)
    requires IsFirst(c, q, t, Some(f))
    ensures f < |q| && Goes(c, q[f], t)
  {
  }

  lemma HeadOfHome(c: Config, s: State, t: int)
    requires 0 <= t < 2
    ensures HeadAt(c, s, c.Home(t)) == HeadOf(s.zeroHead, s.oneHead, t)
  {
  }

  /** The first entry of a chain is not behind another of its entries. */
  lemma FirstIsFirst(c: Config, q: seq<nat>, t: int, f: Option<nat>, i: nat)
    requires IsFirst(c, q, t, f) && i < |q| && Goes(c, q[i], t) && 0 <= t < 2
    ensures f.Some? && f.value <= i
  {
    NotBoth(c, q[i], t);
  }

  predicate NoInserts(acts: seq<Action>) {
    forall i :: 0 <= i < |acts| ==> !acts[i].Begin? && !acts[i].Insert?
  }

  ghost predicate OnlyOne(c: Config, log: seq<nat>, x: nat) {
    x < |c.keys| && forall y :: y in log && y < |c.keys| && y != x ==> c.keys[y] != c.keys[x]
  }

  /** From the entry before x on: the split goes on, the entries behind x are condemned, and the lookup jumps. */
  lemma MissFromOther(c: Config, s: State, a: Aux, key: HashedKey, f: nat, i1: nat, p: nat, i2: nat) returns (acts: seq<Action>)
    requires Driving(c, s, a, 1 - c.TargetOf(key.hash), f) && f <= i1 < p < i2 && NextOther(c, a.q, 1 - c.TargetOf(key.hash), i1, i2)
    requires Standing(c, s, key, a.q[i1]) && a.q[p] !in s.condemned
    ensures Quiet(acts) && var r := Run(c, s, acts); r.lookup.NotFound? && a.q[p] !in r.condemned
  {
    hide ChainInv, Run, Distinct, Chains, Weak, NextOther;
    DrivingFacts(c, s, a);
    assert i2 < |a.q| by { NextOtherBound(c, a.q, 1 - c.TargetOf(key.hash), i1, i2); }
    var split, a2 := Drive(c, s, a, 1 - c.TargetOf(key.hash), f, i1, i2);
    var s2 := Run(c, s, split);
    var condemn := CondemnAll(c, s2, a.q[i2..]);
    var s3 := Run(c, s2, condemn);
    assert ChainInv(c, s3, a2) by { OnlyLookup(c, s2, s3, a2); }
    NotInTail(a.q, p, i2);
    forall k | i2 <= k < |a.q| ensures a.q[k] in s3.condemned { InTail(a.q, i2, k); }
    var jump := JumpAndEnd(c, s3, a2, key, i1, i2);
    RunConcat(c, s2, condemn, jump);
    RunConcat(c, s, split, condemn + jump);
    acts := split + (condemn + jump);
  }

  lemma SwitchedFacts(c: Config, s: State, a: Aux)
    requires SwitchedAlone(c, s, a)
    ensures ChainInv(c, s, a) && Switched(s)
  {
  }

  lemma FirstOf(c: Config, s: State, a: Aux, t: int, i: nat)
    requires SwitchedAlone(c, s, a) && 0 <= t < 2 && i < |a.q| && Goes(c, a.q[i], t)
    ensures a.Fr(t).Some? && a.Fr(t).value <= i
  {
    hide ChainInv, IsFirst, Goes;
    FirstIsFirst(c, a.q, t, a.Fr(t), i);
  }

  /** A lookup for x does not stop before x. */
  lemma AllPassable(c: Config, s: State, a: Aux, x: nat, p: nat, i1: nat)
    requires SwitchedAlone(c, s, a) && OnlyOne(c, s.log, x) && i1 < p < |a.q| && a.q[p] == x
    ensures c.OnChain(c.keys[x].hash) && forall k :: 0 <= k <= i1 ==> Passable(c, s.condemned, c.keys[x], a.q[k])
  {
    hide ChainInv, IsFirst, BottomBits, Chains, Weak, Distinct;
    DrivingFacts(c, s, a);
    forall k | 0 <= k <= i1 ensures Passable(c, s.condemned, c.keys[x], a.q[k]) { if a.q[k] == x { SameIndex(a.q, k, p); } }
  }

  lemma NextOtherBound(c: Config, q: seq<nat>, o: int, i1: nat, i2: nat)
    requires NextOther(c, q, o, i1, i2)
    ensures i1 < i2 < |q|
  {
  }

  lemma InTail(q: seq<nat>, i: nat, k: nat)
    requires i <= k < |q|
    ensures q[k] in Elements(q[i..])
  {
    assert q[i..][k - i] == q[k];
  }

  /** After the switch: everything up to the missed match. */
  lemma MissAfterSwitch(c: Config, s: State, a: Aux, x: nat, g: nat, i1: nat, p: nat, i2: nat) returns (acts: seq<Action>)
    requires SwitchedAlone(c, s, a) && OnlyOne(c, s.log, x) && x !in s.condemned
    requires g < i1 < p < i2 && i2 < |a.q| && a.q[p] == x && Goes(c, a.q[g], c.Target(x)) && NextOther(c, a.q, 1 - c.Target(x), i1, i2)
    ensures Quiet(acts)
    ensures var r := Run(c, BeginLookup(c, s, c.keys[x], true), acts); r.lookup.NotFound? && x !in r.condemned
  {
    hide ChainInv, Run, BeginLookup, SwitchedAlone, Standing, Goes, BottomBits, Passable;
    var key, t := c.keys[x], c.Target(x);
    var s0 := BeginLookup(c, s, key, true);
    FirstOf(c, s, a, t, g);
    assert Goes(c, a.q[i1], 1 - t);
    FirstOf(c, s, a, 1 - t, i1);
    var f := a.Fr(t).value;
    AllPassable(c, s, a, x, p, i1);
    var walk := WalkToOther(c, s, a, key, f, i1);
    var s1 := Run(c, s0, walk);
    assert ChainInv(c, s1, a) && Switched(s1) by { SwitchedFacts(c, s, a); OnlyLookup(c, s, s1, a); }
    var rest := MissFromOther(c, s1, a, key, a.Fr(1 - t).value, i1, p, i2);
    RunConcat(c, s0, walk, rest);
    acts := walk + rest;
  }

  lemma NotInTail(q: seq<nat>, p: nat, i: nat)
    requires Distinct(q) && p < i <= |q|
    ensures q[p] !in q[i..]
  {
  }

  /** The chains do not depend on the lookup or on what is under destruction. */
  lemma OnlyLookup(c: Config, s: State, s': State, a: Aux)
    requires ChainInv(c, s, a) && s' == s.(lookup := s'.lookup, condemned := s'.condemned)
    ensures ChainInv(c, s', a)
  {
    assert SameOn(s.log, s.next, s.next) by { assert LogOk(c, s.next, s.log); }
    hide ChainInv;
    PrivateStoreKeeps(c, s, s', a);
  }

  /** Every chain with such entries around x has a run in which a lookup misses x. */
  lemma PatternMisses(c: Config, s: State, x: nat) returns (before: seq<Action>, after: seq<Action>)
    requires Init(c, s) && OnlyOne(c, s.log, x) && x !in s.condemned && Jumped(c, Elements(s.log), s.log, c.Target(x), x)
    ensures NoInserts(before) && NoInserts(after) && NoRestart(after)
    ensures var r := Run(c, s, before + [StartLookup(c.keys[x], true)] + after); r.lookup.NotFound? && x !in r.condemned
  {
    hide Run, Jumped, ChainInv, SwitchedAlone, BeginLookup, InsertersInv, LookOk;
    var a0 := Aux([], s.log, None, None, 0);
    InitInv(c, s);
    var g, i1, p, i2 := Around(c, s.log, x, c.Target(x));
    var a;
    before, a := ToSwitch(c, s, a0);
    var s1 := Run(c, s, before);
    assert a.q == s.log by { AloneChain(c, s1, a); }
    after := MissAfterSwitch(c, s1, a, x, g, i1, p, i2);
    var start := StartLookup(c.keys[x], true);
    RunOne(c, s1, start);
    RunConcat(c, s, before, [start]);
    RunConcat(c, s, before + [start], after);
  }

  lemma AloneChain(c: Config, s: State, a: Aux)
    requires SwitchedAlone(c, s, a)
    ensures a.q == s.log
  {
  }

  lemma {:induction false} NoInsertsKeepLog(c: Config, s: State, acts: seq<Action>)
    requires NoInserts(acts)
    ensures Run(c, s, acts).log == s.log
  {
    hide Apply;
    if acts != [] {
      var front := acts[..|acts| - 1];
      NoInsertsKeepLog(c, s, front);
      OtherActionKeepsLog(c, Run(c, s, front), acts[|acts| - 1]);
    }
  }

  lemma OtherActionKeepsLog(c: Config, s: State, a: Action)
    requires !a.Begin? && !a.Insert?
    ensures Apply(c, s, a).log == s.log
  {
    hide Follow, BottomBits;
  }

  /** Some run of the split without inserts lets a lookup end without a match although x stays. */
  ghost predicate CanMiss(c: Config, s: State, x: nat)
    requires x < |c.keys|
  {
    exists before, useNew, after :: Misses(c, s, x, before, useNew, after)
  }

  ghost predicate Misses(c: Config, s: State, x: nat, before: seq<Action>, useNew: bool, after: seq<Action>)
    requires x < |c.keys|
  {
    && NoInserts(before) && NoInserts(after) && NoRestart(after)
    && var r := Run(c, s, before + [StartLookup(c.keys[x], useNew)] + after); r.lookup.NotFound? && x !in r.condemned
  }

  /** Only x has its key: it can be missed if and only if the chain has such entries around it. */
  lemma CanMissIff(c: Config, s: State, x: nat)
    requires Init(c, s) && x in s.log && OnlyOne(c, s.log, x) && x !in s.condemned
    ensures CanMiss(c, s, x) <==> Jumped(c, Elements(s.log), s.log, c.Target(x), x)
  {
    hide Run, Init, Before, Goes;
    if CanMiss(c, s, x) {
      var before, useNew, after :| Misses(c, s, x, before, useNew, after);
      var all := before + [StartLookup(c.keys[x], useNew)] + after;
      assert NoInserts(all);
      NoInsertsKeepLog(c, s, all);
      NoInsertsKeepLog(c, s, before);
      LookupNeverMisses(c, s, before, c.keys[x], useNew, after, x);
      JumpedAnyway(c, Run(c, s, all).condemned, s.log, c.Target(x), x);
    }
    if Jumped(c, Elements(s.log), s.log, c.Target(x), x) {
      var before, after := PatternMisses(c, s, x);
      assert Misses(c, s, x, before, true, after);
    }
  }

  lemma JumpedAnyway(c: Config, dead: set<nat>, log: seq<nat>, t: int, x: nat)
    requires Jumped(c, dead, log, t, x)
    ensures Jumped(c, Elements(log), log, t, x)
  {
    var g, y, z :| Goes(c, g, t) && Before(log, g, y) && Goes(c, y, 1 - t) && Before(log, y, x)
                   && Before(log, x, z) && Goes(c, z, 1 - t) && z in dead;
    assert z in log;
  }
}
