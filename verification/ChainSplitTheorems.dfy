/** The guarantees of a chain split, over every interleaving of its steps with inserts and a lookup. */
module ChainSplitTheorems {
  import opened Bits
  import opened Lists
  import opened Options
  import opened ChainSplit
  import opened ChainSplitProof
  import opened ChainSplitSteps
  import opened ChainSplitInserts
  import opened ChainSplitLookup

  ghost predicate Inv(c: Config, s: State, a: Aux) {
    ChainInv(c, s, a) && InsertersInv(c, s) && LookOk(c, s.condemned, Switched(s), s.log, a.q, s.lookup)
  }

  // ---------------------------------------------------------------------------------
  // One step
  // ---------------------------------------------------------------------------------

  lemma BeforePrepend(n: seq<nat>, log: seq<nat>, x: nat, y: nat)
    requires Before(log, x, y)
    ensures Before(n + log, x, y)
  {
    var i, j :| 0 <= i < j < |log| && log[i] == x && log[j] == y;
    assert (n + log)[|n| + i] == x && (n + log)[|n| + j] == y;
  }

  lemma JumpedStays(c: Config, dead: set<nat>, dead': set<nat>, n: seq<nat>, log: seq<nat>, t: int, e: nat)
    requires Jumped(c, dead, log, t, e) && dead <= dead'
    ensures Jumped(c, dead', n + log, t, e)
  {
    hide Before;
    var g, y, z :| Goes(c, g, t) && Before(log, g, y) && Goes(c, y, 1 - t) && Before(log, y, e)
                   && Before(log, e, z) && Goes(c, z, 1 - t) && z in dead;
    BeforePrepend(n, log, g, y);
    BeforePrepend(n, log, y, e);
    BeforePrepend(n, log, e, z);
  }

  lemma ForeignStays(c: Config, n: seq<nat>, log: seq<nat>, q: seq<nat>, t: int, y: nat)
    requires ForeignPos(c, log, q, t, y)
    ensures ForeignPos(c, n + log, q, t, y)
  {
    hide Before;
    var g :| Goes(c, g, t) && Before(log, g, y);
    BeforePrepend(n, log, g, y);
  }

  lemma LookStays(c: Config, dead: set<nat>, dead': set<nat>, sw: bool, sw': bool, n: seq<nat>, log: seq<nat>, q: seq<nat>, q': seq<nat>, w: Lookup)
    requires LookOk(c, dead, sw, log, q, w) && dead <= dead'
    requires sw ==> sw' && q' == q
    requires !sw && sw' ==> q' == log
    ensures LookOk(c, dead', sw', n + log, q', w)
  {
    hide Jumped, Before, ForeignPos;
    if w.Walking? {
      var t := c.TargetOf(w.key.hash);
      if w.at.Some? && ForeignPos(c, log, q, t, w.at.value) { ForeignStays(c, n, log, q, t, w.at.value); }
      forall e | Wanted(c, dead', w, e)
        ensures Jumped(c, dead', n + log, t, e) || (Ahead(n + log, w.at, e) && Ahead(n + log, w.held, e))
      {
        assert Wanted(c, dead, w, e);
        if Jumped(c, dead, log, t, e) {
          JumpedStays(c, dead, dead', n, log, t, e);
        } else {
          if w.at.Some? { BeforePrepend(n, log, w.at.value, e); }
          if w.held.Some? { BeforePrepend(n, log, w.held.value, e); }
        }
      }
    } else if w.NotFound? {
      forall e | e in w.since && e < |c.keys| && c.keys[e] == w.key && e !in dead'
        ensures Jumped(c, dead', n + log, c.TargetOf(w.key.hash), e)
      {
        JumpedStays(c, dead, dead', n, log, c.TargetOf(w.key.hash), e);
      }
    }
  }

  lemma SplitKeepsChain(c: Config, s: State, a: Aux) returns (a': Aux)
    requires ChainInv(c, s, a)
    ensures ChainInv(c, SplitStep(c, s), a')
    ensures Switched(s) ==> a'.q == a.q
    ensures !Switched(s) && Switched(SplitStep(c, s)) ==> a'.q == s.log
    ensures Switched(s) ==> SplitStep(c, s).split.Done? || Rank(SplitStep(c, s).split, a') < Rank(s.split, a)
  {
    hide ChainInv, ScanStep, UpgradeStep, LoopStep, CasStep;
    match s.split
    case Locking => a' := LockingKeeps(c, s, a);
    case Scanning(_, _, _) =>
      a' := ScanningKeeps(c, s, a);
      ScanStaysOut(c, s);
    case StoringOneHead(_, _) =>
      StoringKeeps(c, s, a);
      a' := a;
    case CasingZeroHead(_, _) => a' := CasingKeeps(c, s, a);
    case Upgrading(_, _, _, _) => a' := UpgradingKeeps(c, s, a);
    case Looping(_) => a' := LoopingKeeps(c, s, a);
    case _ =>
      UnlockingKeeps(c, s, a);
      a' := a;
  }

  lemma ScanStaysOut(c: Config, s: State)
    requires s.split.Scanning?
    ensures !Switched(SplitStep(c, s))
  {
  }

  lemma SplitKeeps(c: Config, s: State, a: Aux) returns (a': Aux)
    requires Inv(c, s, a)
    ensures Inv(c, SplitStep(c, s), a')
    ensures Switched(s) ==> SplitStep(c, s).split.Done? || Rank(SplitStep(c, s).split, a') < Rank(s.split, a)
  {
    hide ChainInv, InsertersInv, LookOk, SplitStep;
    var s' := SplitStep(c, s);
    a' := SplitKeepsChain(c, s, a);
    SplitWritesOnChain(c, s, a);
    InsertersStay(c, s, s');
    LookStays(c, s.condemned, s'.condemned, Switched(s), Switched(s'), [], s.log, a.q, a'.q, s.lookup);
    assert [] + s.log == s.log;
  }

  lemma InsertFrame(c: Config, s: State, i: nat, spurious: bool)
    ensures var s' := InsertStep(c, s, i, spurious);
            && s'.split == s.split && s'.lookup == s.lookup && s'.condemned == s.condemned
            && (s'.log == s.log || exists x :: s'.log == [x] + s.log)
  {
  }

  lemma InsertKeeps(c: Config, s: State, a: Aux, i: nat, spurious: bool) returns (a': Aux)
    requires Inv(c, s, a)
    ensures Inv(c, InsertStep(c, s, i, spurious), a') && a' == a.(r := a'.r)
  {
    var s' := InsertStep(c, s, i, spurious);
    if i >= |s.inserters| || s.inserters[i].Idle? {
      a' := a;
    } else {
      hide ChainInv, InsertersInv, LookOk, InsertStep;
      a' := a;
      if s.inserters[i].Ready? { LoadKeeps(c, s, a, i, spurious); }
      else if s.inserters[i].Loaded? { LinkKeeps(c, s, a, i, spurious); }
      else { a' := CasKeeps(c, s, a, i, spurious); }
      InsertFrame(c, s, i, spurious);
      var n: seq<nat> := [];
      if s'.log == s.log {
        assert n + s.log == s.log;
      } else {
        var x :| s'.log == [x] + s.log;
        n := [x];
      }
      LookStays(c, s.condemned, s'.condemned, Switched(s), Switched(s'), n, s.log, a.q, a'.q, s.lookup);
    }
  }

  lemma BeginLookupOk(c: Config, s: State, q: seq<nat>, key: HashedKey, useNew: bool)
    requires LookOk(c, s.condemned, Switched(s), s.log, q, s.lookup)
    ensures var s' := BeginLookup(c, s, key, useNew); s' == s.(lookup := s'.lookup) && LookOk(c, s.condemned, Switched(s), s.log, q, s'.lookup)
  {
    hide BottomBits;
  }

  lemma BeginLookupKeeps(c: Config, s: State, a: Aux, key: HashedKey, useNew: bool)
    requires Inv(c, s, a)
    ensures Inv(c, BeginLookup(c, s, key, useNew), a)
  {
    assert SameOn(s.log, s.next, s.next) by { assert LogOk(c, s.next, s.log); }
    hide ChainInv, InserterOk, LookOk, BeginLookup;
    var s' := BeginLookup(c, s, key, useNew);
    BeginLookupOk(c, s, a.q, key, useNew);
    PrivateStoreKeeps(c, s, s', a);
    InsertersStay(c, s, s');
  }

  lemma StepKeeps(c: Config, s: State, a: Aux, act: Action) returns (a': Aux)
    requires Inv(c, s, a)
    ensures Inv(c, Apply(c, s, act), a')
  {
    hide ChainInv, InsertersInv, LookOk, SplitStep, InsertStep, BeginInsert;
    match act
    case Split => a' := SplitKeeps(c, s, a);
    case Begin(i, x, useNew) =>
      a' := a;
      BeginKeeps(c, s, a, i, x, useNew);
      BeginFrame(c, s, i, x, useNew);
    case Insert(i, spurious) => a' := InsertKeeps(c, s, a, i, spurious);
    case StartLookup(key, useNew) =>
      a' := a;
      BeginLookupKeeps(c, s, a, key, useNew);
    case Walk =>
      a' := a;
      WalkKeeps(c, s, a);
      WalkFrame(c, s, a);
    case Condemn(x) =>
      a' := a;
      CondemnKeeps(c, s, a, x);
  }

  /** An entry comes to be under destruction: only lookups notice. */
  lemma CondemnKeeps(c: Config, s: State, a: Aux, x: nat)
    requires Inv(c, s, a)
    ensures Inv(c, s.(condemned := s.condemned + {x}), a)
  {
    assert SameOn(s.log, s.next, s.next) by { assert LogOk(c, s.next, s.log); }
    hide ChainInv, InserterOk, LookOk;
    var s' := s.(condemned := s.condemned + {x});
    PrivateStoreKeeps(c, s, s', a);
    InsertersStay(c, s, s');
    LookStays(c, s.condemned, s'.condemned, Switched(s), Switched(s), [], s.log, a.q, a.q, s.lookup);
    assert [] + s.log == s.log;
  }

  lemma BeginFrame(c: Config, s: State, i: nat, x: nat, useNew: bool)
    ensures var s' := BeginInsert(c, s, i, x, useNew); s'.log == s.log && s'.split == s.split && s'.lookup == s.lookup && s'.condemned == s.condemned
  {
  }

  lemma WalkFrame(c: Config, s: State, a: Aux)
    requires ChainInv(c, s, a) && InsertersInv(c, s)
    ensures var s' := LookupStep(c, s); s'.log == s.log && s'.split == s.split && s'.condemned == s.condemned && ChainInv(c, s', a) && InsertersInv(c, s')
  {
    hide Follow;
    var s' := LookupStep(c, s);
    PrivateStoreKeeps(c, s, s', a) by { assert SameOn(s.log, s.next, s.next) by { assert LogOk(c, s.next, s.log); } }
    hide ChainInv;
    InsertersStay(c, s, s');
  }

  lemma RunKeeps(c: Config, s: State, acts: seq<Action>) returns (a: Aux)
    requires Init(c, s)
    ensures Inv(c, Run(c, s, acts), a)
  {
    hide ChainInv, InsertersInv, LookOk, Apply;
    if acts == [] {
      a := Aux([], s.log, None, None, 0);
      InitInv(c, s);
    } else {
      a := RunKeeps(c, s, acts[..|acts| - 1]);
      a := StepKeeps(c, Run(c, s, acts[..|acts| - 1]), a, acts[|acts| - 1]);
    }
  }

  lemma InitInv(c: Config, s: State)
    requires Init(c, s)
    ensures Inv(c, s, Aux([], s.log, None, None, 0))
  {
  }

  // ---------------------------------------------------------------------------------
  // Every entry stays reachable from the head a lookup would pick
  // ---------------------------------------------------------------------------------

  /** Following at most n more pointers from l leads to entry x. */
  ghost predicate ReachesIn(next: seq<Link>, l: Link, x: nat, n: nat)
    decreases n
  {
    l.Next? && l.idx < |next| && (l.idx == x || (n > 0 && ReachesIn(next, next[l.idx], x, n - 1)))
  }

  ghost predicate Reaches(next: seq<Link>, l: Link, x: nat) {
    exists n: nat :: ReachesIn(next, l, x, n)
  }

  /** The head a lookup for entry x goes to: by the new hash bit once the head at oldHome carries the new shift. */
  function LookupHead(c: Config, s: State, x: nat): Link
    requires x < |c.keys|
  {
    if s.zeroHead.shift == c.oldShift then s.zeroHead else HeadAt(c, s, c.Home(c.Target(x)))
  }

  lemma ReachTransitive(next: seq<Link>, l: Link, y: nat, x: nat, n: nat, m: nat)
    requires ReachesIn(next, l, y, n) && y < |next| && ReachesIn(next, Next(y, 0, false), x, m)
    ensures ReachesIn(next, l, x, n + m)
    decreases n
  {
    if l.idx == y {
      ReachMore(next, l, x, m, n);
    } else {
      ReachTransitive(next, next[l.idx], y, x, n - 1, m);
    }
  }

  lemma ReachMore(next: seq<Link>, l: Link, x: nat, m: nat, n: nat)
    requires l.Next? && ReachesIn(next, Next(l.idx, 0, false), x, m)
    ensures ReachesIn(next, l, x, n + m)
    decreases m
  {
    if l.idx != x {
      var l' := next[l.idx];
      assert ReachesIn(next, l', x, m - 1);
      assert m > 1 || l'.idx == x;
      assert ReachesIn(next, Next(l'.idx, 0, false), x, m - 1);
      ReachMore(next, l', x, m - 1, n);
    }
  }

  lemma OldReach(c: Config, next: seq<Link>, q: seq<nat>, f: nat, i: nat, j: nat)
    requires OldTail(c, next, q, f) && f <= i <= j < |q|
    ensures ReachesIn(next, Next(q[i], 0, false), q[j], j - i)
    decreases j - i
  {
    if i < j {
      OldReach(c, next, q, f, i + 1, j);
      assert next[q[i]] == Next(q[i + 1], c.oldShift, false);
      ReachMore(next, next[q[i]], q[j], j - i - 1, 0);
    }
  }

  lemma StrungReach(c: Config, next: seq<Link>, head: Link, m: seq<nat>, t: int, finished: bool, i: nat, j: nat)
    requires Strung(c, next, head, m, t, finished) && i <= j < |m|
    ensures ReachesIn(next, Next(m[i], 0, false), m[j], j - i)
    decreases j - i
  {
    if i < j {
      StrungReach(c, next, head, m, t, finished, i + 1, j);
      assert next[m[i]] == Next(m[i + 1], c.NewShift(), false);
      ReachMore(next, next[m[i]], m[j], j - i - 1, 0);
    }
  }

  lemma HeadReach(c: Config, next: seq<Link>, head: Link, m: seq<nat>, t: int, finished: bool, j: nat)
    requires Strung(c, next, head, m, t, finished) && j < |m|
    ensures ReachesIn(next, head, m[j], j)
  {
    StrungReach(c, next, head, m, t, finished, 0, j);
    ReachMore(next, head, m[j], j, 0);
  }

  lemma OldTailAt(c: Config, next: seq<Link>, q: seq<nat>, f: nat)
    requires OldTail(c, next, q, f) && f < |q|
    ensures q[f] < |next|
  {
  }

  lemma NewReach(c: Config, next: seq<Link>, zeroHead: Link, oneHead: Link, a: Aux, x: nat, head: Link)
    requires Distinct(a.r + a.q) && Chains(c, next, zeroHead, oneHead, a)
    requires x in a.r + a.q && x < |c.keys| && head == HeadOf(zeroHead, oneHead, c.Target(x))
    ensures Reaches(next, head, x)
  {
    hide Pick, OldTail, BottomBits, Bit, Mig, Strung, Distinct, Chains, ReachesIn, Before;
    var t := c.Target(x);
    var m, fin := Mig(c, a, t), a.Fr(t).None?;
    ChainsFor(c, next, zeroHead, oneHead, a, t);
    MigIsPrefix(c, a, t);
    if j :| 0 <= j < |m| && m[j] == x {
      HeadReach(c, next, head, m, t, fin, j);
    } else {
      var p := NotFinal(c, a, x, t);
      var f := a.Fr(t).value;
      MigLast(c, a, t, f);
      HeadReach(c, next, head, m, t, fin, |m| - 1);
      assert a.q[f] < |next| by { OldTailAt(c, next, a.q, f); }
      OldReach(c, next, a.q, f, f, p);
      ReachTransitive(next, head, a.q[f], x, |m| - 1, p - f);
    }
  }

  lemma InvReach(c: Config, s: State, a: Aux, x: nat)
    requires ChainInv(c, s, a) && x in s.log
    ensures x < |c.keys| && Reaches(s.next, LookupHead(c, s, x), x)
  {
    InLog(c, s, x);
    HeadShifts(c, s, a);
    hide Strung, Mig, Pick, PostLocals, Weak, BottomBits, Joined;
    if Switched(s) {
      JoinedConcat(s.log, a.r, a.q);
      NewReach(c, s.next, s.zeroHead, s.oneHead, a, x, LookupHead(c, s, x));
    } else {
      var j :| 0 <= j < |s.log| && s.log[j] == x;
      assert OldTail(c, s.next, s.log, 0);
      OldReach(c, s.next, s.log, 0, 0, j);
      ReachMore(s.next, s.zeroHead, x, j, 0);
    }
  }

  /**
   At every point of every run, every published entry can be reached from the head that a
   lookup for it picks.
   */
  lemma EveryEntryReachable(c: Config, s: State, acts: seq<Action>, x: nat)
    requires Init(c, s) && x in Run(c, s, acts).log
    ensures x < |c.keys| && Reaches(Run(c, s, acts).next, LookupHead(c, Run(c, s, acts), x), x)
  {
    var a := RunKeeps(c, s, acts);
    InvReach(c, Run(c, s, acts), a, x);
  }

  // ---------------------------------------------------------------------------------
  // The result of a split
  // ---------------------------------------------------------------------------------

  lemma StepExtendsLog(c: Config, s: State, act: Action) returns (n: seq<nat>)
    ensures Apply(c, s, act).log == n + s.log
  {
    n := [];
    assert n + s.log == s.log;
    match act
    case Insert(i, spurious) =>
      InsertFrame(c, s, i, spurious);
      if Apply(c, s, act).log != s.log {
        var x :| Apply(c, s, act).log == [x] + s.log;
        n := [x];
      }
    case Split =>
    case Begin(i, x, useNew) => BeginFrame(c, s, i, x, useNew);
    case StartLookup(_, _) =>
    case Walk =>
    case Condemn(_) =>
  }

  /** Entries are only ever added, in front. */
  lemma RunExtendsLog(c: Config, s: State, acts: seq<Action>) returns (n: seq<nat>)
    ensures Run(c, s, acts).log == n + s.log
  {
    hide Apply;
    if acts == [] {
      n := [];
      assert n + s.log == s.log;
    } else {
      var m := RunExtendsLog(c, s, acts[..|acts| - 1]);
      var k := StepExtendsLog(c, Run(c, s, acts[..|acts| - 1]), acts[|acts| - 1]);
      n := k + m;
      assert k + (m + s.log) == (k + m) + s.log;
    }
  }

  lemma DoneChains(c: Config, s: State, a: Aux, t: int)
    requires ChainInv(c, s, a) && s.split.Done? && 0 <= t < 2
    ensures Strung(c, s.next, s.Head(t), Pick(c, s.log, t), t, true)
  {
    hide Mig, Pick, Strung, Joined;
    JoinedConcat(s.log, a.r, a.q);
    assert Migrated(c, s.next, s.Head(t), a, t) && a.Fr(t).None?;
    MigIsPrefix(c, a, t);
  }

  /**
   When the split is done, the chain of each output home consists of exactly the entries whose
   new hash bit selects it: the newly inserted ones and, behind them, the original ones in
   their original order. All pointers carry the new shift and the last one names its home.
   */
  lemma SplitResult(c: Config, s: State, acts: seq<Action>, t: int) returns (inserted: seq<nat>)
    requires Init(c, s) && 0 <= t < 2 && Run(c, s, acts).split.Done?
    ensures var s' := Run(c, s, acts);
            && s'.log == inserted + s.log
            && Strung(c, s'.next, s'.Head(t), Pick(c, inserted, t) + Pick(c, s.log, t), t, true)
  {
    hide ChainInv, InsertersInv, LookOk, Pick, Strung;
    var a := RunKeeps(c, s, acts);
    inserted := RunExtendsLog(c, s, acts);
    DoneChains(c, Run(c, s, acts), a, t);
    PickConcat(c, inserted, s.log, t);
  }

  ghost predicate LocksHeld(s: State) {
    && (s.split.UnlockingOne? && s.split.v.holdsOne ==> s.oneHead.Next? && s.oneHead.locked)
    && (s.split.UnlockingZero? && s.split.v.holdsZero ==> s.zeroHead.Next? && s.zeroHead.locked)
  }

  lemma InvLocks(c: Config, s: State, a: Aux)
    requires ChainInv(c, s, a)
    ensures LocksHeld(s)
  {
    hide Chains, OldChain, LogOk;
  }

  /** The unlock at the end of the split finds the lock bit it set: no insert has dropped it. */
  lemma LocksSurviveInserts(c: Config, s: State, acts: seq<Action>)
    requires Init(c, s)
    ensures LocksHeld(Run(c, s, acts))
  {
    hide ChainInv, InsertersInv, LookOk, LocksHeld;
    var a := RunKeeps(c, s, acts);
    InvLocks(c, Run(c, s, acts), a);
  }

  // ---------------------------------------------------------------------------------
  // A lookup misses nothing
  // ---------------------------------------------------------------------------------

  predicate NoRestart(acts: seq<Action>) { forall i :: 0 <= i < |acts| ==> !acts[i].StartLookup? }

  lemma SinceIsFixed(c: Config, s: State, acts: seq<Action>, key: HashedKey, since: seq<nat>)
    requires NoRestart(acts)
    requires s.lookup.Walking? && s.lookup.key == key && s.lookup.since == since
    ensures var w := Run(c, s, acts).lookup;
            match w
            case NotStarted => false
            case Walking(k, _, _, _, _, n) => k == key && n == since
            case Found(k, _) => k == key
            case NotFound(k, n) => k == key && n == since
  {
    if acts != [] {
      var p := acts[..|acts| - 1];
      SinceIsFixed(c, s, p, key, since);
      SinceStep(c, Run(c, s, p), acts[|acts| - 1]);
    }
  }

  lemma SinceStep(c: Config, s: State, act: Action)
    requires !act.StartLookup? && !s.lookup.NotStarted?
    ensures var w, w' := s.lookup, Apply(c, s, act).lookup;
            && !w'.NotStarted? && w'.key == w.key
            && (w'.Walking? || w'.NotFound? ==> w.Walking? || w.NotFound?)
            && ((w.Walking? || w.NotFound?) && (w'.Walking? || w'.NotFound?) ==> w'.since == w.since)
  {
    hide BottomBits;
  }

  lemma RunConcat(c: Config, s: State, p: seq<Action>, r: seq<Action>)
    ensures Run(c, s, p + r) == Run(c, Run(c, s, p), r)
  {
    if r == [] {
      assert p + r == p;
    } else {
      assert (p + r)[..|p + r| - 1] == p + r[..|r| - 1];
      RunConcat(c, s, p, r[..|r| - 1]);
    }
  }

  /**
   If an entry with the key is on the chain when the lookup starts and does not come to be under
   destruction, then no interleaving of the split, the inserts and the lookup lets the lookup end
   without a match, unless the chain has an entry of the entry's own output chain, one of the other,
   the entry itself and then one of the other that is under destruction, in this order.
   */
  lemma LookupNeverMisses(c: Config, s: State, before: seq<Action>, key: HashedKey, useNew: bool, after: seq<Action>, x: nat)
    requires Init(c, s) && NoRestart(after)
    requires x in Run(c, s, before).log && x < |c.keys| && c.keys[x] == key
    requires x !in Run(c, s, before + [StartLookup(key, useNew)] + after).condemned
    ensures var r := Run(c, s, before + [StartLookup(key, useNew)] + after);
            && (r.lookup.NotFound? ==> Jumped(c, r.condemned, r.log, c.TargetOf(key.hash), x))
            && (r.lookup.Found? ==> r.lookup.slot < |c.keys| && c.keys[r.lookup.slot] == key)
  {
    var all := before + [StartLookup(key, useNew)] + after;
    var s1 := Run(c, s, before);
    var s2 := BeginLookup(c, s1, key, useNew);
    var a := RunKeeps(c, s, all);
    var b := RunKeeps(c, s, before);
    InLog(c, s1, x);
    assert s2.lookup.Walking? && s2.lookup.since == s1.log;
    RunConcat(c, s, before + [StartLookup(key, useNew)], after);
    RunConcat(c, s, before, [StartLookup(key, useNew)]);
    assert Run(c, s1, [StartLookup(key, useNew)]) == s2 by {
      assert [StartLookup(key, useNew)][..0] == [];
    }
    SinceIsFixed(c, s2, after, key, s1.log);
  }

  // ---------------------------------------------------------------------------------
  // The split finishes
  // ---------------------------------------------------------------------------------

  function SplitCount(acts: seq<Action>): nat {
    if acts == [] then 0 else SplitCount(acts[..|acts| - 1]) + if acts[|acts| - 1].Split? then 1 else 0
  }

  /** Steps of other threads neither move the splitting thread nor what it has left to do. */
  lemma OthersKeepRank(c: Config, s: State, a: Aux, act: Action) returns (a': Aux)
    requires Inv(c, s, a) && !act.Split?
    ensures Inv(c, Apply(c, s, act), a') && Apply(c, s, act).split == s.split && Rank(s.split, a') == Rank(s.split, a)
  {
    hide ChainInv, InsertersInv, LookOk, BeginInsert;
    match act
    case Insert(i, spurious) =>
      a' := InsertKeeps(c, s, a, i, spurious);
      InsertFrame(c, s, i, spurious);
    case Begin(i, x, useNew) =>
      a' := a;
      BeginKeeps(c, s, a, i, x, useNew);
      BeginFrame(c, s, i, x, useNew);
    case StartLookup(key, useNew) =>
      a' := a;
      BeginLookupKeeps(c, s, a, key, useNew);
    case Walk =>
      a' := a;
      WalkKeeps(c, s, a);
      WalkFrame(c, s, a);
    case Condemn(x) =>
      a' := a;
      CondemnKeeps(c, s, a, x);
  }

  lemma RankBound(c: Config, s: State, a: Aux)
    requires ChainInv(c, s, a) && Switched(s)
    ensures 0 <= Rank(s.split, a) <= 4 * |s.log| + 4
    ensures Rank(s.split, a) == 0 ==> s.split.Done?
  {
    hide Chains, OldChain, LogOk;
  }

  lemma RunFinishes(c: Config, s: State, a: Aux, acts: seq<Action>) returns (a': Aux)
    requires Inv(c, s, a) && Switched(s)
    ensures var s' := Run(c, s, acts);
            Inv(c, s', a') && Switched(s') && (s'.split.Done? || Rank(s'.split, a') + SplitCount(acts) <= Rank(s.split, a))
  {
    hide ChainInv, InsertersInv, LookOk, SplitStep;
    if acts == [] {
      a' := a;
    } else {
      var p, act := acts[..|acts| - 1], acts[|acts| - 1];
      var b := RunFinishes(c, s, a, p);
      if act.Split? {
        a' := SplitKeeps(c, Run(c, s, p), b);
        SplitWritesOnChain(c, Run(c, s, p), b);
        DoneStays(c, Run(c, s, p));
      } else {
        a' := OthersKeepRank(c, Run(c, s, p), b, act);
      }
    }
  }

  lemma DoneStays(c: Config, s: State)
    ensures s.split.Done? ==> SplitStep(c, s).split.Done?
  {
  }

  /**
   Once the heads are switched, the split ends: the splitting thread needs at most 4n + 4 more
   steps for a chain of n entries, whatever the other threads do in between.
   */
  lemma SplitFinishes(c: Config, s: State, before: seq<Action>, after: seq<Action>)
    requires Init(c, s) && Switched(Run(c, s, before))
    requires SplitCount(after) >= 4 * |Run(c, s, before).log| + 4
    ensures Run(c, s, before + after).split.Done?
  {
    hide ChainInv, InsertersInv, LookOk;
    var s1 := Run(c, s, before);
    var a := RunKeeps(c, s, before);
    RankBound(c, s1, a);
    var a' := RunFinishes(c, s1, a, after);
    RankBound(c, Run(c, s1, after), a');
    RunConcat(c, s, before, after);
  }
}
