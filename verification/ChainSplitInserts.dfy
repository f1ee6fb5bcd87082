/** Inserts that run beside a split: each lands on the chain its hash belongs to, and keeps the invariant. */
module ChainSplitInserts {
  import opened Bits
  import opened Lists
  import opened ChainSplit
  import opened ChainSplitProof
  import opened ChainSplitSteps

  /** With one more hash bit, an entry of the chain lives at the home of its output chain. */
  lemma HomeOfTarget(c: Config, hash: nat)
    requires ConfigOk(c) && c.OnChain(hash)
    ensures BottomBits(hash, c.NewShift()) == c.Home(c.TargetOf(hash)) == c.oldHome + BitValue(hash, c.oldShift)
  {
    BottomBitsSplit(hash, c.oldShift);
  }

  ghost predicate SameOn(log: seq<nat>, next: seq<Link>, next': seq<Link>) {
    |next'| == |next| && forall i :: 0 <= i < |log| ==> log[i] < |next| && next'[log[i]] == next[log[i]]
  }

  lemma MigStays(c: Config, next: seq<Link>, next': seq<Link>, head: Link, a: Aux, t: int)
    requires Distinct(a.r + a.q) && Migrated(c, next, head, a, t) && SameOn(a.r + a.q, next, next')
    ensures Migrated(c, next', head, a, t)
  {
    MigProps(c, a, t);
    var m := Mig(c, a, t);
    forall i | 0 <= i < |m| ensures next'[m[i]] == next[m[i]] {
      assert m[i] in a.r + a.q;
    }
  }

  lemma TailStays(c: Config, next: seq<Link>, next': seq<Link>, a: Aux, f: nat)
    requires OldTail(c, next, a.q, f) && SameOn(a.r + a.q, next, next')
    ensures OldTail(c, next', a.q, f)
  {
    forall i | f <= i < |a.q| ensures next'[a.q[i]] == next[a.q[i]] {
      assert a.q[i] == (a.r + a.q)[|a.r| + i];
    }
  }

  lemma ChainsStay(c: Config, next: seq<Link>, next': seq<Link>, zeroHead: Link, oneHead: Link, a: Aux)
    requires Distinct(a.r + a.q) && Chains(c, next, zeroHead, oneHead, a) && SameOn(a.r + a.q, next, next')
    ensures Chains(c, next', zeroHead, oneHead, a)
  {
    hide Strung, Mig, Pick;
    MigStays(c, next, next', zeroHead, a, 0);
    MigStays(c, next, next', oneHead, a, 1);
    if a.f0.Some? { TailStays(c, next, next', a, a.f0.value); }
    if a.f1.Some? { TailStays(c, next, next', a, a.f1.value); }
  }

  /** Whatever an inserting thread writes into its own slot is invisible on the chains. */
  lemma PrivateStoreKeeps(c: Config, s: State, s': State, a: Aux)
    requires ChainInv(c, s, a)
    requires s'.zeroHead == s.zeroHead && s'.oneHead == s.oneHead && s'.log == s.log && s'.split == s.split
    requires SameOn(s.log, s.next, s'.next)
    ensures ChainInv(c, s', a)
  {
    hide Chains, Strung, Mig, Pick, Joined, Distinct, BottomBits, OldLink;
    if Switched(s) {
      JoinedConcat(s.log, a.r, a.q);
      ChainsStay(c, s.next, s'.next, s.zeroHead, s.oneHead, a);
      assert PostLocals(c, s', a);
    } else {
      assert OldChain(c, s'.zeroHead, s'.next, s'.log);
    }
  }

  lemma PushOldChain(c: Config, head: Link, next: seq<Link>, log: seq<nat>, x: nat, locked: bool)
    requires OldChain(c, head, next, log) && x < |next| && next[x] == Unlock(head)
    ensures OldChain(c, Next(x, c.oldShift, locked), next, [x] + log)
  {
    var log' := [x] + log;
    forall i | 0 <= i < |log'| ensures log'[i] < |next| && next[log'[i]] == OldLink(c, log', i + 1) {
      if i > 0 { assert log'[i] == log[i - 1]; }
    }
  }

  lemma PushLog(c: Config, next: seq<Link>, log: seq<nat>, x: nat)
    requires LogOk(c, next, log) && x < |c.keys| && x !in log && c.OnChain(c.keys[x].hash)
    ensures LogOk(c, next, [x] + log)
  {
    var log' := [x] + log;
    forall i, j | 0 <= i < j < |log'| ensures log'[i] != log'[j] {
      assert log'[j] == log[j - 1];
      if i > 0 { assert log'[i] == log[i - 1]; }
    }
  }

  lemma JoinedPush(log: seq<nat>, r: seq<nat>, q: seq<nat>, x: nat)
    requires Joined(log, r, q)
    ensures Joined([x] + log, [x] + r, q)
  {
    forall i | 0 <= i < |q| ensures ([x] + log)[|[x] + r| + i] == q[i] {
      assert log[|r| + i] == q[i];
    }
  }

  /** A successful head update before the heads are switched. */
  lemma PublishOldKeeps(c: Config, s: State, a: Aux, x: nat, s': State)
    requires ChainInv(c, s, a) && !Switched(s)
    requires x < |c.keys| && x !in s.log && c.OnChain(c.keys[x].hash) && s.next[x] == Unlock(s.zeroHead)
    requires s' == s.(zeroHead := Next(x, c.oldShift, s.zeroHead.Next? && s.zeroHead.locked), log := [x] + s.log, inserters := s'.inserters)
    ensures ChainInv(c, s', a.(r := [x] + a.r))
  {
    hide Chains, Strung, Mig, Pick, Joined;
    PushLog(c, s.next, s.log, x);
    PushOldChain(c, s.zeroHead, s.next, s.log, x, s.zeroHead.Next? && s.zeroHead.locked);
    JoinedPush(s.log, a.r, a.q, x);
    assert a.q != [] ==> s.log != [] by { JoinedConcat(s.log, a.r, a.q); }
    assert Pre(c, s', a.(r := [x] + a.r)) by { hide OldChain, LogOk; }
  }

  lemma PushMigrated(c: Config, next: seq<Link>, head: Link, a: Aux, x: nat, locked: bool)
    requires x < |c.keys| && x < |next| && next[x] == Unlock(head)
    requires Migrated(c, next, head, a, c.Target(x))
    ensures Migrated(c, next, Next(x, c.NewShift(), locked), a.(r := [x] + a.r), c.Target(x))
  {
    var t, a' := c.Target(x), a.(r := [x] + a.r);
    assert a'.r[1..] == a.r;
    assert Mig(c, a', t) == [x] + Mig(c, a, t);
    StrungPush(c, next, head, Mig(c, a, t), t, a.Fr(t).None?, x, locked);
  }

  lemma PushOther(c: Config, next: seq<Link>, head: Link, a: Aux, x: nat, t: int)
    requires x < |c.keys| && c.Target(x) != t
    requires Migrated(c, next, head, a, t)
    ensures Migrated(c, next, head, a.(r := [x] + a.r), t)
  {
    var a' := a.(r := [x] + a.r);
    assert a'.r[1..] == a.r;
    assert Mig(c, a', t) == Mig(c, a, t);
  }

  lemma PushChains(c: Config, next: seq<Link>, zeroHead: Link, oneHead: Link, a: Aux, x: nat, locked: bool)
    requires Chains(c, next, zeroHead, oneHead, a) && x < |c.keys| && x < |next|
    requires next[x] == Unlock(HeadOf(zeroHead, oneHead, c.Target(x)))
    ensures var l := Next(x, c.NewShift(), locked);
            if c.Target(x) == 0 then Chains(c, next, l, oneHead, a.(r := [x] + a.r))
            else Chains(c, next, zeroHead, l, a.(r := [x] + a.r))
  {
    hide Strung, Mig, Pick;
    if c.Target(x) == 0 {
      PushMigrated(c, next, zeroHead, a, x, locked);
      PushOther(c, next, oneHead, a, x, 1);
    } else {
      PushMigrated(c, next, oneHead, a, x, locked);
      PushOther(c, next, zeroHead, a, x, 0);
    }
  }

  /** A successful head update after the heads are switched. */
  lemma PublishNewKeeps(c: Config, s: State, a: Aux, x: nat, s': State)
    requires ChainInv(c, s, a) && Switched(s)
    requires x < |c.keys| && x !in s.log && c.OnChain(c.keys[x].hash)
    requires var head := s.Head(c.Target(x));
             var l := Next(x, c.NewShift(), head.Next? && head.locked);
             && s.next[x] == Unlock(head)
             && s' == (if c.Target(x) == 0 then s.(zeroHead := l) else s.(oneHead := l))
                        .(log := [x] + s.log, inserters := s'.inserters)
    ensures ChainInv(c, s', a.(r := [x] + a.r))
  {
    hide Chains, Strung, Mig, Pick, Joined, LogOk, PostLocals;
    var head := s.Head(c.Target(x));
    PushLog(c, s.next, s.log, x);
    PushChains(c, s.next, s.zeroHead, s.oneHead, a, x, head.Next? && head.locked);
    JoinedPush(s.log, a.r, a.q, x);
    PushLocals(c, s, a, s', [x] + a.r);
  }

  /** The splitting thread's own state does not depend on what is inserted, only on its locks. */
  lemma PushLocals(c: Config, s: State, a: Aux, s': State, r: seq<nat>)
    requires PostLocals(c, s, a) && s'.split == s.split
    requires s.zeroHead.Next? && s.zeroHead.locked ==> s'.zeroHead.Next? && s'.zeroHead.locked
    requires s.oneHead.Next? && s.oneHead.locked ==> s'.oneHead.Next? && s'.oneHead.locked
    ensures PostLocals(c, s', a.(r := r))
  {
  }

  lemma HeadShifts(c: Config, s: State, a: Aux)
    requires ChainInv(c, s, a)
    ensures Switched(s) ==> s.zeroHead.shift == c.NewShift() && s.oneHead.shift == c.NewShift()
    ensures !Switched(s) ==> s.zeroHead.shift == c.oldShift
  {
  }

  // ---------------------------------------------------------------------------------
  // The inserting threads
  // ---------------------------------------------------------------------------------

  /** The splitting thread only writes to entries that are on the chain. */
  lemma SplitWritesOnChain(c: Config, s: State, a: Aux)
    requires ChainInv(c, s, a)
    ensures var s' := SplitStep(c, s);
            && |s'.next| == |s.next| && s'.log == s.log && s'.inserters == s.inserters && s'.lookup == s.lookup && s'.condemned == s.condemned
            && (Switched(s) ==> Switched(s'))
            && (forall y :: 0 <= y < |s.next| && y !in s.log ==> s'.next[y] == s.next[y])
  {
    hide Chains, OldChain, LogOk, Strung, Mig, Pick, Joined;
    JoinedConcat(s.log, a.r, a.q);
    var s' := SplitStep(c, s);
    if s.split.Upgrading? {
      var f := a.Fr(s.split.chain).value;
      assert s.log[|a.r| + f] == a.q[f];
    } else if s.split.Looping? {
      var f := a.Fr(s.split.v.first).value;
      assert s.log[|a.r| + f] == a.q[f];
    }
  }

  lemma InsertersStay(c: Config, s: State, s': State)
    requires InsertersInv(c, s)
    requires s'.inserters == s.inserters && s'.log == s.log && |s'.next| == |s.next|
    requires Switched(s) ==> Switched(s')
    requires forall y :: 0 <= y < |s.next| && y !in s.log ==> s'.next[y] == s.next[y]
    ensures InsertersInv(c, s')
  {
    forall i | 0 <= i < |s'.inserters| ensures InserterOk(c, s', s'.inserters[i]) {
      assert InserterOk(c, s, s.inserters[i]);
    }
  }

  /** One thread's own step: it may write to its own slot and take another local state. */
  lemma InserterMoves(c: Config, s: State, s': State, i: nat, n: Inserter)
    requires InsertersInv(c, s) && i < |s.inserters| && s'.inserters == s.inserters[i := n]
    requires s'.log == s.log && |s'.next| == |s.next| && s'.split == s.split
    requires !n.Idle? ==> !SlotInUse(s.(inserters := s.inserters[i := Idle]), n.idx)
    requires forall y :: 0 <= y < |s.next| && !(!n.Idle? && y == n.idx) ==> s'.next[y] == s.next[y]
    requires InserterOk(c, s', n)
    ensures InsertersInv(c, s')
  {
    var t := s.(inserters := s.inserters[i := Idle]);
    forall j | 0 <= j < |s'.inserters|
      ensures InserterOk(c, s', s'.inserters[j])
      ensures j != i && !n.Idle? && !s'.inserters[j].Idle? ==> s'.inserters[j].idx != n.idx
    {
      assert InserterOk(c, s, s.inserters[j]);
      if j != i { assert t.inserters[j] == s.inserters[j]; }
    }
  }

  lemma OwnSlot(c: Config, s: State, i: nat)
    requires InsertersInv(c, s) && i < |s.inserters| && !s.inserters[i].Idle?
    ensures !SlotInUse(s.(inserters := s.inserters[i := Idle]), s.inserters[i].idx)
  {
    assert InserterOk(c, s, s.inserters[i]);
  }

  lemma BeginKeeps(c: Config, s: State, a: Aux, i: nat, x: nat, useNew: bool)
    requires ChainInv(c, s, a) && InsertersInv(c, s)
    ensures var s' := BeginInsert(c, s, i, x, useNew); ChainInv(c, s', a) && InsertersInv(c, s')
  {
    hide Chains, OldChain, Strung, Mig, Pick;
    var s' := BeginInsert(c, s, i, x, useNew);
    PrivateStoreKeeps(c, s, s', a) by { hide ChainInv; assert forall k :: 0 <= k < |s.log| ==> s.log[k] < |s.next|; }
    if s'.inserters != s.inserters {
      var n := s'.inserters[i];
      assert s.inserters[i := Idle] == s.inserters;
      InserterMoves(c, s, s', i, n);
    } else {
      InsertersStay(c, s, s');
    }
  }

  lemma LoadKeeps(c: Config, s: State, a: Aux, i: nat, spurious: bool)
    requires ChainInv(c, s, a) && InsertersInv(c, s) && i < |s.inserters| && s.inserters[i].Ready?
    ensures var s' := InsertStep(c, s, i, spurious); ChainInv(c, s', a) && InsertersInv(c, s') && s'.log == s.log
  {
    hide Chains, OldChain, Strung, Mig, Pick, BitValue, BottomBits, PostLocals, Joined;
    var s' := InsertStep(c, s, i, spurious);
    var n := s.inserters[i];
    assert InserterOk(c, s, n);
    HeadShifts(c, s, a);
    HomeOfTarget(c, c.keys[n.idx].hash);
    OwnSlot(c, s, i);
    PrivateStoreKeeps(c, s, s', a);
    InserterMoves(c, s, s', i, s'.inserters[i]);
  }

  lemma LinkKeeps(c: Config, s: State, a: Aux, i: nat, spurious: bool)
    requires ChainInv(c, s, a) && InsertersInv(c, s) && i < |s.inserters| && s.inserters[i].Loaded?
    ensures var s' := InsertStep(c, s, i, spurious); ChainInv(c, s', a) && InsertersInv(c, s') && s'.log == s.log
  {
    hide Chains, OldChain, Strung, Mig, Pick, BitValue, BottomBits;
    var s' := InsertStep(c, s, i, spurious);
    var n := s.inserters[i];
    assert InserterOk(c, s, n);
    OwnSlot(c, s, i);
    assert SameOn(s.log, s.next, s'.next) by { assert n.idx !in s.log; }
    PrivateStoreKeeps(c, s, s', a);
    InserterMoves(c, s, s', i, s'.inserters[i]);
  }

  lemma PublishInserters(c: Config, s: State, s': State, i: nat)
    requires InsertersInv(c, s) && i < |s.inserters| && s.inserters[i].Linked?
    requires s'.inserters == s.inserters[i := Idle] && s'.next == s.next && s'.split == s.split
    requires s'.log == [s.inserters[i].idx] + s.log
    ensures InsertersInv(c, s')
  {
    forall j | 0 <= j < |s'.inserters| ensures InserterOk(c, s', s'.inserters[j]) {
      assert InserterOk(c, s, s.inserters[j]);
    }
  }

  lemma CasKeeps(c: Config, s: State, a: Aux, i: nat, spurious: bool) returns (a': Aux)
    requires ChainInv(c, s, a) && InsertersInv(c, s) && i < |s.inserters| && s.inserters[i].Linked?
    ensures var s' := InsertStep(c, s, i, spurious); ChainInv(c, s', a') && InsertersInv(c, s')
    ensures a' == a.(r := a'.r)
  {
    var n := s.inserters[i];
    assert InserterOk(c, s, n);
    HeadShifts(c, s, a);
    hide Chains, OldChain, Strung, Mig, Pick, BitValue, BottomBits;
    var s' := InsertStep(c, s, i, spurious);
    if !spurious && HeadAt(c, s, n.home) == n.head {
      a' := a.(r := [n.idx] + a.r);
      PublishInserters(c, s, s', i);
      if Switched(s) {
        assert n.home == c.Home(c.Target(n.idx)) && HeadAt(c, s, n.home) == s.Head(c.Target(n.idx));
        PublishNewKeeps(c, s, a, n.idx, s');
      } else {
        PublishOldKeeps(c, s, a, n.idx, s');
      }
    } else {
      a' := a;
      OwnSlot(c, s, i);
      PrivateStoreKeeps(c, s, s', a);
      InserterMoves(c, s, s', i, s'.inserters[i]);
    }
  }
}
