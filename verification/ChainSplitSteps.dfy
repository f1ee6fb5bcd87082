/** Every step of a split, and every insert beside it, keeps the invariant of ChainSplitProof. */
module ChainSplitSteps {
  import opened Bits
  import opened Lists
  import opened Options
  import opened ChainSplit
  import opened ChainSplitProof

  // ---------------------------------------------------------------------------------
  // Before the heads are switched
  // ---------------------------------------------------------------------------------

  lemma OldChainOfScan(c: Config, head: Link, next: seq<Link>, log: seq<nat>, a: Aux)
    requires Joined(log, a.r, a.q) && OldChain(c, head, next, log)
    ensures OldTail(c, next, a.q, 0)
  {
    var d := |a.r|;
    forall i | 0 <= i < |a.q|
      ensures a.q[i] < |next| && next[a.q[i]] == OldLink(c, a.q, i + 1)
    {
      assert a.q[i] == log[d + i];
      assert i + 1 < |a.q| ==> a.q[i + 1] == log[d + i + 1];
    }
  }

  lemma LockingKeeps(c: Config, s: State, a: Aux) returns (a': Aux)
    requires ChainInv(c, s, a) && s.split.Locking?
    ensures ChainInv(c, SplitStep(c, s), a')
  {
    hide Distinct, Chains, BottomBits;
    a' := if s.zeroHead.Next? && s.zeroHead.locked then a else Aux([], s.log, None, None, 0);
  }

  lemma NoteKeepsScan(c: Config, a: Aux, v: Locals, x: nat)
    requires ScanOk(c, a, v, a.k) && a.k < |a.q| && x == a.q[a.k] && x < |c.keys|
    requires !(v.zero.Some? && v.one.Some?)
    ensures ScanOk(c, a, Note(v, x, c.Target(x)), a.k + 1)
  {
    assert Goes(c, x, c.Target(x));
  }

  lemma ScanningKeeps(c: Config, s: State, a: Aux) returns (a': Aux)
    requires ChainInv(c, s, a) && s.split.Scanning?
    ensures ChainInv(c, SplitStep(c, s), a') && (a' == a || a' == a.(k := a.k + 1))
    ensures SplitStep(c, s).split.Scanning? ==> a' == a.(k := a.k + 1) && a.k < |a.q|
    ensures SplitStep(c, s).split.Scanning? || SplitStep(c, s).split.StoringOneHead?
  {
    hide Post, BottomBits, Bit;
    var saved, at, v := s.split.saved, s.split.at, s.split.v;
    assert at.Next? <==> a.k < |a.q|;
    if at.End? {
      a' := a;
    } else {
      var x := at.idx;
      assert x == a.q[a.k] == s.log[|a.r| + a.k];
      OldChainOfScan(c, s.zeroHead, s.next, s.log, a);
      NoteKeepsScan(c, a, v, x);
      a' := a.(k := a.k + 1);
    }
  }

  lemma StoringKeeps(c: Config, s: State, a: Aux)
    requires ChainInv(c, s, a) && s.split.StoringOneHead?
    ensures ChainInv(c, SplitStep(c, s), a)
  {
  }

  /** An insert since the scan shows in the head, so the compare-and-swap cannot succeed. */
  lemma InsertShowsInHead(c: Config, s: State, a: Aux)
    requires LogOk(c, s.next, s.log) && Joined(s.log, a.r, a.q) && OldChain(c, s.zeroHead, s.next, s.log) && a.r != []
    ensures s.zeroHead != Lock(OldLink(c, a.q, 0))
  {
    assert Unlock(s.zeroHead) == Next(s.log[0], c.oldShift, false);
    assert a.q != [] ==> a.q[0] == s.log[|a.r|];
  }

  function BigStepAux(a: Aux, v: Locals): Aux {
    if v.first < 0 then Aux(a.r, a.q, None, None, |a.q|)
    else if v.zero.Some? && v.one.Some? && a.k > 0 then
      (if v.first == 0 then Aux(a.r, a.q, Some(0), Some(a.k - 1), a.k - 1) else Aux(a.r, a.q, Some(a.k - 1), Some(0), a.k - 1))
    else
      (if v.first == 0 then Aux(a.r, a.q, Some(0), None, |a.q|) else Aux(a.r, a.q, None, Some(0), |a.q|))
  }

  /** f is the position of the first entry of output chain t, if any. */
  ghost predicate IsFirst(c: Config, q: seq<nat>, t: int, f: Option<nat>) {
    match f
    case None => forall i :: 0 <= i < |q| ==> Goes(c, q[i], 1 - t)
    case Some(p) => p < |q| && Goes(c, q[p], t) && forall i :: 0 <= i < p ==> Goes(c, q[i], 1 - t)
  }

  /** Where the two frontiers are when the heads are switched. */
  lemma BigStepFrontiers(c: Config, a: Aux, v: Locals, t: int)
    requires ScanDone(c, a, v, a.k) && 0 <= t < 2
    ensures IsFirst(c, a.q, t, BigStepAux(a, v).Fr(t)) && FrontierIs(BigStepAux(a, v), v, t)
  {
  }

  lemma SwitchMigrated(c: Config, next: seq<Link>, head: Link, log: seq<nat>, a: Aux, t: int)
    requires a.r == [] && a.q == log && OldTail(c, next, log, 0)
    requires IsFirst(c, log, t, a.Fr(t))
    requires Unlock(head) == NewLinkTo(c, if a.Fr(t).Some? then Some(log[a.Fr(t).value]) else None, t)
    ensures Migrated(c, next, head, a, t)
  {
    if a.Fr(t).Some? {
      var f := a.Fr(t).value;
      PickLast(c, log[..f + 1], t);
      assert log[..f + 1][..f] == log[..f];
      PickNone(c, log[..f], t);
      assert Mig(c, a, t) == [log[f]];
    } else {
      PickNone(c, log, t);
      assert Mig(c, a, t) == [];
    }
  }

  lemma SwitchWeak(c: Config, next: seq<Link>, a: Aux, v: Locals, t: int)
    requires OldTail(c, next, a.q, 0)
    requires ScanDone(c, a, v, a.k) && 0 <= t < 2
    ensures Weak(c, next, BigStepAux(a, v), t)
  {
    BigStepFrontiers(c, a, v, t);
    BigStepFrontiers(c, a, v, 1 - t);
  }

  lemma SwitchLocals(c: Config, s: State, a: Aux, v: Locals)
    requires ScanDone(c, a, v, a.k)
    requires s.split == AfterBigStep(c, v.(holdsZero := v.zero.Some?, holdsOne := v.one.Some?))
    requires s.zeroHead == Lock(NewLinkTo(c, v.zero, 0)) && s.oneHead == Lock(NewLinkTo(c, v.one, 1))
    ensures PostLocals(c, s, BigStepAux(a, v))
  {
    BigStepFrontiers(c, a, v, 0);
    BigStepFrontiers(c, a, v, 1);
  }

  lemma SwitchChains(c: Config, s: State, a: Aux, v: Locals)
    requires a.r == [] && a.q == s.log && OldTail(c, s.next, s.log, 0)
    requires ScanDone(c, a, v, a.k)
    requires s.zeroHead == Lock(NewLinkTo(c, v.zero, 0)) && s.oneHead == Lock(NewLinkTo(c, v.one, 1))
    ensures Chains(c, s.next, s.zeroHead, s.oneHead, BigStepAux(a, v))
  {
    var a' := BigStepAux(a, v);
    BigStepFrontiers(c, a, v, 0);
    BigStepFrontiers(c, a, v, 1);
    SwitchMigrated(c, s.next, s.zeroHead, s.log, a', 0);
    SwitchMigrated(c, s.next, s.oneHead, s.log, a', 1);
    SwitchWeak(c, s.next, a, v, 0);
    SwitchWeak(c, s.next, a, v, 1);
  }

  lemma SwitchKeeps(c: Config, s: State, a: Aux)
    requires ChainInv(c, s, a) && s.split.CasingZeroHead? && s.zeroHead == s.split.saved
    ensures ChainInv(c, SplitStep(c, s), BigStepAux(a, s.split.v)) && BigStepAux(a, s.split.v).q == s.log
  {
    hide Chains, Mig, Strung, Pick;
    var v, s' := s.split.v, SplitStep(c, s);
    if a.r != [] { InsertShowsInHead(c, s, a); }
    assert s.log == a.q && s'.next == s.next && s'.log == s.log;
    OldChainOfScan(c, s.zeroHead, s.next, s.log, a);
    SwitchChains(c, s', a, v);
    SwitchLocals(c, s', a, v);
  }

  /** A concurrent insert got in between: the scan starts over. */
  lemma RestartKeeps(c: Config, s: State, a: Aux)
    requires ChainInv(c, s, a) && s.split.CasingZeroHead? && s.zeroHead != s.split.saved
    ensures ChainInv(c, SplitStep(c, s), Aux([], s.log, None, None, 0)) && !Switched(SplitStep(c, s))
  {
    assert a.q != [] ==> s.log != [];
  }

  lemma CasingKeeps(c: Config, s: State, a: Aux) returns (a': Aux)
    requires ChainInv(c, s, a) && s.split.CasingZeroHead?
    ensures ChainInv(c, SplitStep(c, s), a')
    ensures Switched(SplitStep(c, s)) ==> a'.q == s.log
  {
    hide ChainInv, SplitStep;
    if s.zeroHead == s.split.saved {
      SwitchKeeps(c, s, a);
      a' := BigStepAux(a, s.split.v);
    } else {
      RestartKeeps(c, s, a);
      a' := Aux([], s.log, None, None, 0);
    }
  }

  // ---------------------------------------------------------------------------------
  // After the heads are switched: stores at a frontier entry
  // ---------------------------------------------------------------------------------

  lemma SuffixDistinct(a: Aux)
    requires Distinct(a.r + a.q)
    ensures Distinct(a.q)
  {
    var log, d := a.r + a.q, |a.r|;
    forall i, j | 0 <= i < j < |a.q| ensures a.q[i] != a.q[j] {
      assert a.q[i] == log[d + i] && a.q[j] == log[d + j];
    }
  }

  lemma PickSkips(c: Config, q: seq<nat>, f: nat, p: nat, t: int)
    requires f <= p <= |q| && forall i :: f <= i < p ==> !Goes(c, q[i], t)
    ensures Pick(c, q[..p], t) == Pick(c, q[..f], t)
  {
    assert q[..p] == q[..f] + q[f..p];
    PickConcat(c, q[..f], q[f..p], t);
    PickNone(c, q[f..p], t);
  }

  ghost predicate FrontierAt(c: Config, next: seq<Link>, a: Aux, t: int, f: nat) {
    a.Fr(t) == Some(f) && f < |a.q| && Goes(c, a.q[f], t) && a.q[f] < |next|
  }

  /** The migrated part after its frontier moved to p: one more entry. */
  lemma MigMoves(c: Config, a: Aux, t: int, f: nat, p: nat)
    requires a.Fr(t) == Some(f) && f < p < |a.q| && Goes(c, a.q[p], t)
    requires forall i :: f < i < p ==> !Goes(c, a.q[i], t)
    ensures Mig(c, a.SetFr(t, Some(p)), t) == Mig(c, a, t) + [a.q[p]]
  {
    var r, u, y := Pick(c, a.r, t), Pick(c, a.q[..f + 1], t), a.q[p];
    assert Pick(c, a.q[..p + 1], t) == u + [y] by {
      PickLast(c, a.q[..p + 1], t);
      assert a.q[..p + 1][..p] == a.q[..p];
      PickSkips(c, a.q, f + 1, p, t);
    }
    assert Mig(c, a.SetFr(t, Some(p)), t) == r + (u + [y]);
    assert Mig(c, a, t) == r + u;
    assert r + (u + [y]) == (r + u) + [y];
  }

  /** Storing the way to q[p] into the frontier entry moves the frontier to p. */
  lemma MoveFrontier(c: Config, next: seq<Link>, head: Link, a: Aux, t: int, f: nat, p: nat)
    requires Distinct(a.r + a.q) && FrontierAt(c, next, a, t, f)
    requires Migrated(c, next, head, a, t)
    requires f < p < |a.q| && a.q[p] < |next| && Goes(c, a.q[p], t)
    requires forall i :: f < i < p ==> !Goes(c, a.q[i], t)
    ensures Migrated(c, next[a.q[f] := Next(a.q[p], c.NewShift(), false)], head, a.SetFr(t, Some(p)), t)
  {
    MigMoves(c, a, t, f, p);
    MigLast(c, a, t, f);
    MigProps(c, a, t);
    StrungExtend(c, next, head, Mig(c, a, t), t, a.q[p]);
  }

  lemma MigCompletes(c: Config, a: Aux, t: int, f: nat)
    requires a.Fr(t) == Some(f) && f < |a.q|
    requires forall i :: f < i < |a.q| ==> !Goes(c, a.q[i], t)
    ensures Mig(c, a.SetFr(t, None), t) == Mig(c, a, t)
  {
    PickSkips(c, a.q, f + 1, |a.q|, t);
    assert a.q[..|a.q|] == a.q;
  }

  /** Storing the end marker into the frontier entry completes the chain, if nothing of it follows. */
  lemma CloseFrontier(c: Config, next: seq<Link>, head: Link, a: Aux, t: int, f: nat)
    requires Distinct(a.r + a.q) && FrontierAt(c, next, a, t, f)
    requires Migrated(c, next, head, a, t)
    requires forall i :: f < i < |a.q| ==> !Goes(c, a.q[i], t)
    ensures Migrated(c, next[a.q[f] := End(c.Home(t), c.NewShift())], head, a.SetFr(t, None), t)
  {
    hide Strung, Mig, Distinct, Pick;
    MigLast(c, a, t, f);
    MigProps(c, a, t);
    MigCompletes(c, a, t, f);
    StrungClose(c, next, head, Mig(c, a, t), t);
  }

  lemma TailUntouched(c: Config, next: seq<Link>, q: seq<nat>, f: nat, g: nat, l: Link)
    requires Distinct(q) && f < g && f < |q| && q[f] < |next| && OldTail(c, next, q, g)
    ensures OldTail(c, next[q[f] := l], q, g)
  {
  }

  lemma MigOfOther(c: Config, a: Aux, t: int, f: Option<nat>)
    requires t == 0 || t == 1
    ensures Mig(c, a.SetFr(t, f), 1 - t) == Mig(c, a, 1 - t) && a.SetFr(t, f).Fr(1 - t) == a.Fr(1 - t)
  {
    hide Pick;
  }

  /** A store at the frontier of chain t leaves the migrated part of the other chain alone. */
  lemma OtherMigrated(c: Config, next: seq<Link>, head: Link, a: Aux, t: int, f: nat, l: Link, f': Option<nat>)
    requires Distinct(a.r + a.q) && (t == 0 || t == 1)
    requires FrontierAt(c, next, a, t, f)
    requires Migrated(c, next, head, a, 1 - t)
    ensures Migrated(c, next[a.q[f] := l], head, a.SetFr(t, f'), 1 - t)
  {
    hide Strung, Mig, Distinct, Pick;
    MigProps(c, a, 1 - t);
    MigOfOther(c, a, t, f');
    StrungStoreElsewhere(c, next, head, Mig(c, a, 1 - t), 1 - t, a.Fr(1 - t).None?, a.q[f], l);
  }

  ghost function HeadOf(zeroHead: Link, oneHead: Link, t: int): Link {
    if t == 0 then zeroHead else oneHead
  }

  lemma ChainsFor(c: Config, next: seq<Link>, zeroHead: Link, oneHead: Link, a: Aux, t: int)
    requires t == 0 || t == 1
    ensures Chains(c, next, zeroHead, oneHead, a) <==>
            && Migrated(c, next, HeadOf(zeroHead, oneHead, t), a, t)
            && Migrated(c, next, HeadOf(zeroHead, oneHead, 1 - t), a, 1 - t)
            && Weak(c, next, a, t) && Weak(c, next, a, 1 - t)
  {
  }

  /** Frontier of chain t, the earlier one, moves to p. */
  lemma MoveKeepsChains(c: Config, next: seq<Link>, zeroHead: Link, oneHead: Link, a: Aux, t: int, f: nat, p: nat)
    requires Distinct(a.r + a.q) && (t == 0 || t == 1)
    requires Chains(c, next, zeroHead, oneHead, a) && FrontierAt(c, next, a, t, f)
    requires a.Fr(1 - t).Some? ==> f < a.Fr(1 - t).value != p
    requires f < p < |a.q| && Goes(c, a.q[p], t)
    requires forall i :: f < i < p ==> !Goes(c, a.q[i], t)
    requires forall i :: p <= i < |a.q| && (a.Fr(1 - t).None? || i < a.Fr(1 - t).value) ==> Goes(c, a.q[i], t)
    requires forall i :: a.Fr(1 - t).Some? && a.Fr(1 - t).value <= i < p ==> Goes(c, a.q[i], 1 - t)
    ensures Chains(c, next[a.q[f] := Next(a.q[p], c.NewShift(), false)], zeroHead, oneHead, a.SetFr(t, Some(p)))
  {
    hide Mig, Strung, Pick, BottomBits, Bit;
    var l := Next(a.q[p], c.NewShift(), false);
    ChainsFor(c, next, zeroHead, oneHead, a, t);
    assert OldTail(c, next, a.q, f);
    SuffixDistinct(a);
    MoveFrontier(c, next, HeadOf(zeroHead, oneHead, t), a, t, f, p);
    OtherMigrated(c, next, HeadOf(zeroHead, oneHead, 1 - t), a, t, f, l, Some(p));
    TailUntouched(c, next, a.q, f, p, l);
    if a.Fr(1 - t).Some? { TailUntouched(c, next, a.q, f, a.Fr(1 - t).value, l); }
    ChainsFor(c, next[a.q[f] := l], zeroHead, oneHead, a.SetFr(t, Some(p)), t);
  }

  /** Chain t, the one with the earlier frontier, is completed. */
  lemma CloseKeepsChains(c: Config, next: seq<Link>, zeroHead: Link, oneHead: Link, a: Aux, t: int, f: nat)
    requires Distinct(a.r + a.q) && (t == 0 || t == 1)
    requires Chains(c, next, zeroHead, oneHead, a) && FrontierAt(c, next, a, t, f)
    requires a.Fr(1 - t).Some? ==> f < a.Fr(1 - t).value
    requires forall i :: f < i < |a.q| ==> Goes(c, a.q[i], 1 - t)
    ensures Chains(c, next[a.q[f] := End(c.Home(t), c.NewShift())], zeroHead, oneHead, a.SetFr(t, None))
  {
    var l := End(c.Home(t), c.NewShift());
    ChainsFor(c, next, zeroHead, oneHead, a, t);
    SuffixDistinct(a);
    CloseFrontier(c, next, HeadOf(zeroHead, oneHead, t), a, t, f);
    OtherMigrated(c, next, HeadOf(zeroHead, oneHead, 1 - t), a, t, f, l, None);
    if a.Fr(1 - t).Some? { TailUntouched(c, next, a.q, f, a.Fr(1 - t).value, l); }
    ChainsFor(c, next[a.q[f] := l], zeroHead, oneHead, a.SetFr(t, None), t);
  }

  /** What an upgrade iteration finds at the frontier entry. */
  lemma UpgradeReads(c: Config, next: seq<Link>, a: Aux, v: Locals, t: nat, stop: Link, ret: Return)
    requires UpgradeOk(c, a, v, t, stop, ret) && Weak(c, next, a, t) && Distinct(a.q)
    ensures var f := a.Fr(t).value;
            && FrontierAt(c, next, a, t, f) && v.Frontier(t) == Some(a.q[f])
            && next[a.q[f]] == OldLink(c, a.q, f + 1)
            && (f + 1 < |a.q| && next[a.q[f]] != stop ==>
                  && (a.Fr(1 - t).Some? ==> f + 1 < a.Fr(1 - t).value)
                  && Goes(c, a.q[f + 1], t))
            && (f + 1 == |a.q| ==> a.Fr(1 - t).None?)
            && (next[a.q[f]] == stop ==> a.Fr(1 - t) == Some(f + 1) && !ret.AfterTail?)
  {
    var f := a.Fr(t).value;
    assert OldTail(c, next, a.q, f);
  }

  lemma UpgradeStopKeeps(c: Config, s: State, a: Aux)
    requires ChainInv(c, s, a) && s.split.Upgrading?
    requires a.Fr(s.split.chain).value < |a.q| && a.q[a.Fr(s.split.chain).value] < |s.next|
    requires s.next[a.q[a.Fr(s.split.chain).value]] == s.split.stop
    ensures ChainInv(c, SplitStep(c, s), a)
    ensures Rank(SplitStep(c, s).split, a) < Rank(s.split, a)
  {
    hide Chains, Mig, Strung, Pick, Joined;
    JoinedConcat(s.log, a.r, a.q);
    var v, t, stop, ret := s.split.v, s.split.chain, s.split.stop, s.split.ret;
    SuffixDistinct(a);
    ChainsFor(c, s.next, s.zeroHead, s.oneHead, a, t);
    UpgradeReads(c, s.next, a, v, t, stop, ret);
    assert SplitStep(c, s) == s.(split := UpgradeReturn(v, ret));
    assert LoopOk(c, a, if ret.AfterSkip? then v.(first := 1 - v.first) else v);
  }

  lemma UpgradeEndKeeps(c: Config, s: State, a: Aux)
    requires ChainInv(c, s, a) && s.split.Upgrading?
    requires a.Fr(s.split.chain).value + 1 == |a.q|
    ensures ChainInv(c, SplitStep(c, s), a.SetFr(s.split.chain, None))
    ensures Rank(SplitStep(c, s).split, a.SetFr(s.split.chain, None)) < Rank(s.split, a)
  {
    hide Chains, Mig, Strung, Pick, Joined;
    JoinedConcat(s.log, a.r, a.q);
    var v, t, stop, ret := s.split.v, s.split.chain, s.split.stop, s.split.ret;
    var f := a.Fr(t).value;
    SuffixDistinct(a);
    ChainsFor(c, s.next, s.zeroHead, s.oneHead, a, t);
    UpgradeReads(c, s.next, a, v, t, stop, ret);
    CloseKeepsChains(c, s.next, s.zeroHead, s.oneHead, a, t, f);
    assert SplitStep(c, s) == s.(next := s.next[a.q[f] := stop], split := UnlockingOne(v.SetFrontier(t, None)));
  }

  lemma UpgradeMoveLocals(c: Config, a: Aux, v: Locals, t: nat, stop: Link, ret: Return, f: nat)
    requires UpgradeOk(c, a, v, t, stop, ret) && a.Fr(t) == Some(f) && f + 1 < |a.q|
    requires a.Fr(1 - t).Some? ==> f + 1 < a.Fr(1 - t).value
    ensures UpgradeOk(c, a.SetFr(t, Some(f + 1)), v.SetFrontier(t, Some(a.q[f + 1])), t, stop, ret)
  {
  }

  lemma UpgradeMoveKeeps(c: Config, s: State, a: Aux)
    requires ChainInv(c, s, a) && s.split.Upgrading?
    requires a.Fr(s.split.chain).value + 1 < |a.q| && a.q[a.Fr(s.split.chain).value] < |s.next|
    requires s.next[a.q[a.Fr(s.split.chain).value]] != s.split.stop
    ensures ChainInv(c, SplitStep(c, s), a.SetFr(s.split.chain, Some(a.Fr(s.split.chain).value + 1)))
    ensures Rank(SplitStep(c, s).split, a.SetFr(s.split.chain, Some(a.Fr(s.split.chain).value + 1))) < Rank(s.split, a)
  {
    hide Chains, Mig, Strung, Pick, Joined, Pre, OldTail, BottomBits, Bit;
    JoinedConcat(s.log, a.r, a.q);
    var v, t, stop, ret := s.split.v, s.split.chain, s.split.stop, s.split.ret;
    var f := a.Fr(t).value;
    SuffixDistinct(a);
    ChainsFor(c, s.next, s.zeroHead, s.oneHead, a, t);
    UpgradeReads(c, s.next, a, v, t, stop, ret);
    MoveKeepsChains(c, s.next, s.zeroHead, s.oneHead, a, t, f, f + 1);
    assert SplitStep(c, s) == s.(next := s.next[a.q[f] := Next(a.q[f + 1], c.NewShift(), false)],
                                 split := Upgrading(v.SetFrontier(t, Some(a.q[f + 1])), t, stop, ret));
    UpgradeMoveLocals(c, a, v, t, stop, ret, f);
  }

  lemma UpgradingKeeps(c: Config, s: State, a: Aux) returns (a': Aux)
    requires ChainInv(c, s, a) && s.split.Upgrading?
    ensures ChainInv(c, SplitStep(c, s), a')
    ensures a'.q == a.q && Switched(SplitStep(c, s))
    ensures Rank(SplitStep(c, s).split, a') < Rank(s.split, a)
  {
    hide Chains, Mig, Strung, Pick, Joined;
    JoinedConcat(s.log, a.r, a.q);
    var t := s.split.chain;
    var f := a.Fr(t).value;
    SuffixDistinct(a);
    ChainsFor(c, s.next, s.zeroHead, s.oneHead, a, t);
    UpgradeReads(c, s.next, a, s.split.v, t, s.split.stop, s.split.ret);
    if s.next[a.q[f]] == s.split.stop {
      UpgradeStopKeeps(c, s, a);
      a' := a;
    } else if f + 1 == |a.q| {
      UpgradeEndKeeps(c, s, a);
      a' := a.SetFr(t, None);
    } else {
      UpgradeMoveKeeps(c, s, a);
      a' := a.SetFr(t, Some(f + 1));
    }
  }

  /** What a migration iteration finds: the pointer of `cur` is still the old one. */
  lemma LoopReads(c: Config, next: seq<Link>, a: Aux, v: Locals)
    requires LoopOk(c, a, v) && Weak(c, next, a, v.first)
    ensures var f := a.Fr(v.first).value;
            && FrontierAt(c, next, a, v.first, f)
            && a.q[a.k] < |next| && next[a.q[a.k]] == OldLink(c, a.q, a.k + 1)
  {
    assert OldTail(c, next, a.q, a.Fr(v.first).value);
  }

  lemma ChainsIgnoreCur(c: Config, next: seq<Link>, zeroHead: Link, oneHead: Link, a: Aux, k: nat)
    requires Chains(c, next, zeroHead, oneHead, a)
    ensures Chains(c, next, zeroHead, oneHead, a.(k := k))
  {
    assert Mig(c, a.(k := k), 0) == Mig(c, a, 0) && Mig(c, a.(k := k), 1) == Mig(c, a, 1);
  }

  lemma LoopTailKeeps(c: Config, s: State, a: Aux)
    requires ChainInv(c, s, a) && s.split.Looping? && a.k + 1 == |a.q|
    ensures ChainInv(c, SplitStep(c, s), a.SetFr(s.split.v.first, None))
    ensures Rank(SplitStep(c, s).split, a.SetFr(s.split.v.first, None)) < Rank(s.split, a)
  {
    hide Chains, Mig, Strung, Pick, Joined;
    JoinedConcat(s.log, a.r, a.q);
    var v := s.split.v;
    var t: nat := v.first;
    var f := a.Fr(t).value;
    ChainsFor(c, s.next, s.zeroHead, s.oneHead, a, t);
    LoopReads(c, s.next, a, v);
    CloseKeepsChains(c, s.next, s.zeroHead, s.oneHead, a, t, f);
    var stop := End(c.Home(1 - t), c.NewShift());
    assert SplitStep(c, s) == s.(next := s.next[a.q[f] := End(c.Home(t), c.NewShift())],
                                 split := Upgrading(v, 1 - t, stop, AfterTail));
    assert UpgradeOk(c, a.SetFr(t, None), v, 1 - t, stop, AfterTail);
  }

  lemma LoopSkipLocals(c: Config, a: Aux, v: Locals)
    requires LoopOk(c, a, v) && a.k + 1 < |a.q|
    ensures var t, y := v.first, a.q[a.k + 1];
            UpgradeOk(c, a.SetFr(t, Some(a.k + 1)).(k := a.k + 1), v.(cur := Some(y)).SetFrontier(t, Some(y)), 1 - t,
                      Next(y, c.oldShift, false), AfterSkip)
  {
  }

  lemma LoopSkipKeeps(c: Config, s: State, a: Aux)
    requires ChainInv(c, s, a) && s.split.Looping? && a.k + 1 < |a.q|
    requires Goes(c, a.q[a.k + 1], s.split.v.first)
    ensures ChainInv(c, SplitStep(c, s), a.SetFr(s.split.v.first, Some(a.k + 1)).(k := a.k + 1))
    ensures Rank(SplitStep(c, s).split, a.SetFr(s.split.v.first, Some(a.k + 1)).(k := a.k + 1)) < Rank(s.split, a)
  {
    hide Chains, Mig, Strung, Pick, Joined;
    JoinedConcat(s.log, a.r, a.q);
    var v := s.split.v;
    var t: nat := v.first;
    var f, y := a.Fr(t).value, a.q[a.k + 1];
    ChainsFor(c, s.next, s.zeroHead, s.oneHead, a, t);
    LoopReads(c, s.next, a, v);
    MoveKeepsChains(c, s.next, s.zeroHead, s.oneHead, a, t, f, a.k + 1);
    ChainsIgnoreCur(c, s.next[a.q[f] := Next(y, c.NewShift(), false)], s.zeroHead, s.oneHead, a.SetFr(t, Some(a.k + 1)), a.k + 1);
    var v' := v.(cur := Some(y)).SetFrontier(t, Some(y));
    var stop := Next(y, c.oldShift, false);
    assert SplitStep(c, s) == s.(next := s.next[a.q[f] := Next(y, c.NewShift(), false)],
                                 split := Upgrading(v', 1 - t, stop, AfterSkip));
    LoopSkipLocals(c, a, v);
  }

  lemma LoopPassKeeps(c: Config, s: State, a: Aux)
    requires ChainInv(c, s, a) && s.split.Looping? && a.k + 1 < |a.q|
    requires Goes(c, a.q[a.k + 1], 1 - s.split.v.first)
    ensures ChainInv(c, SplitStep(c, s), a.(k := a.k + 1))
    ensures Rank(SplitStep(c, s).split, a.(k := a.k + 1)) < Rank(s.split, a)
  {
    hide Chains, Mig, Strung, Pick, Joined;
    JoinedConcat(s.log, a.r, a.q);
    var v := s.split.v;
    ChainsFor(c, s.next, s.zeroHead, s.oneHead, a, v.first);
    ChainsIgnoreCur(c, s.next, s.zeroHead, s.oneHead, a, a.k + 1);
    LoopReads(c, s.next, a, v);
    var v' := v.(cur := Some(a.q[a.k + 1]));
    assert SplitStep(c, s) == s.(split := Looping(v'));
    assert LoopOk(c, a.(k := a.k + 1), v');
  }

  lemma LoopingKeeps(c: Config, s: State, a: Aux) returns (a': Aux)
    requires ChainInv(c, s, a) && s.split.Looping?
    ensures ChainInv(c, SplitStep(c, s), a')
    ensures a'.q == a.q && Switched(SplitStep(c, s))
    ensures Rank(SplitStep(c, s).split, a') < Rank(s.split, a)
  {
    hide Chains, Mig, Strung, Pick, Joined;
    JoinedConcat(s.log, a.r, a.q);
    var t := s.split.v.first;
    if a.k + 1 == |a.q| {
      LoopTailKeeps(c, s, a);
      a' := a.SetFr(t, None);
    } else {
      assert s.log[|a.r| + a.k + 1] == a.q[a.k + 1];
      if Goes(c, a.q[a.k + 1], t) {
        LoopSkipKeeps(c, s, a);
        a' := a.SetFr(t, Some(a.k + 1)).(k := a.k + 1);
      } else {
        LoopPassKeeps(c, s, a);
        a' := a.(k := a.k + 1);
      }
    }
  }

  lemma UnlockingKeeps(c: Config, s: State, a: Aux)
    requires ChainInv(c, s, a) && (s.split.UnlockingOne? || s.split.UnlockingZero? || s.split.Done?)
    ensures ChainInv(c, SplitStep(c, s), a)
  {
  }
}
