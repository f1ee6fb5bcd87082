/** Every run of the growth protocol keeps the published length and all heads consistent. */
module GrowTheorems {
  import opened Bits
  import opened LinearHashing
  import opened GrowProtocol

  /** What any step may do to the state other threads see. */
  ghost predicate Extends(s: State, s': State) {
    && |s'.shift| == |s.shift|
    && s.length <= s'.length
    && s.done <= s'.done
    && (s.frontier <= s'.frontier || |s.shift| <= s'.frontier)
    && (forall i :: 0 <= i < |s.shift| ==> s.shift[i] <= s'.shift[i])
  }

  lemma ThreadStable(used: nat, s: State, s': State, th: Thread)
    requires ThreadOk(used, s, th) && Extends(s, s')
    requires forall g: nat :: Owns(th, g) && g < |s.shift| ==> g !in s'.done && s'.shift[g] == s.shift[g]
    ensures ThreadOk(used, s', th)
  {
    hide Pow2, FloorLog2, BottomBits;
    if th.Waiting? || th.StoringOneHead? || th.CasingZeroHead? { assert Owns(th, th.slot); }
  }

  lemma Assemble(used: nat, s: State, s': State, t: nat)
    requires Inv(used, s) && Extends(s, s') && t < |s.threads|
    requires |s'.threads| == |s.threads| && s'.threads == s.threads[t := s'.threads[t]]
    requires Heads(used, s'.shift, s'.done) && Published(used, s'.length, s'.shift, s'.done)
    requires used <= s'.frontier && Unreserved(s') && ThreadOk(used, s', s'.threads[t])
    requires forall g: nat :: Owns(s'.threads[t], g) ==>
               Owns(s.threads[t], g) || forall u :: 0 <= u < |s.threads| ==> !Owns(s.threads[u], g)
    requires forall u, g: nat :: 0 <= u < |s.threads| && u != t && Owns(s.threads[u], g) && g < |s.shift| ==>
                 g !in s'.done && s'.shift[g] == s.shift[g]
    ensures Inv(used, s')
  {
    hide Pow2, FloorLog2, BottomBits, Heads, Published, Unreserved, ThreadOk;
    forall u | 0 <= u < |s'.threads|
      ensures ThreadOk(used, s', s'.threads[u])
    {
      if u != t { ThreadStable(used, s, s', s.threads[u]); }
    }
  }

  /** A step that changes only its own thread, and claims no new grow slot. */
  lemma LocalKeeps(used: nat, s: State, t: nat, th: Thread)
    requires Inv(used, s) && t < |s.threads| && ThreadOk(used, s, th)
    requires forall g: nat :: Owns(th, g) ==> Owns(s.threads[t], g)
    ensures Inv(used, Set(s, t, th))
  {
    hide Heads, Published;
    var s' := Set(s, t, th);
    assert ThreadOk(used, s', th) by { ThreadStable0(used, s, s', th); }
    forall u, g: nat | 0 <= u < |s.threads| && u != t && Owns(s.threads[u], g) && g < |s.shift|
      ensures g !in s'.done
    {
      assert ThreadOk(used, s, s.threads[u]);
    }
    Assemble(used, s, s', t);
  }

  lemma ThreadStable0(used: nat, s: State, s': State, th: Thread)
    requires ThreadOk(used, s, th) && s' == s.(threads := s'.threads)
    ensures ThreadOk(used, s', th)
  {
  }

  lemma HomeOfPublished(used: nat, s: State, hash: nat)
    requires Inv(used, s)
    ensures HomeOk(used, s.shift, s.done, hash, HomeIndex(s.length, hash), HomeShift(s.length, hash))
  {
    hide Heads, Pow2, FloorLog2, BottomBits, ShiftAt;
    HomeInRange(s.length, hash);
    ShiftOfHome(s.length, hash);
  }

  lemma BeginGrowKeeps(used: nat, s: State, t: nat)
    requires Inv(used, s) && t < |s.threads|
    ensures Inv(used, BeginGrow(s, t))
  {
    hide Heads, Published, Pow2, FloorLog2, BottomBits;
    var s' := BeginGrow(s, t);
    PublishedBounds(used, s);
    if s.threads[t] == Idle {
      forall u, g: nat | 0 <= u < |s.threads| && Owns(s.threads[u], g)
        ensures g < s.frontier && g !in s.done
      {
        assert ThreadOk(used, s, s.threads[u]);
      }
      Assemble(used, s, s', t);
    }
  }

  // Storing the one-head.

  lemma StoreKeepsHeads(used: nat, shift: seq<nat>, done: set<nat>, g: nat)
    requires Heads(used, shift, done) && 2 <= used <= g < |shift| && g !in done
    ensures shift[g] <= FloorLog2(g) + 1
    ensures Heads(used, shift[g := FloorLog2(g) + 1], done)
  {
    hide Pow2, FloorLog2;
    var shift' := shift[g := FloorLog2(g) + 1];
    forall h | h >= used >= 2
      ensures SplitDone(used, shift', done, h)
    {
      assert SplitDone(used, shift, done, h);
    }
  }

  lemma StoreKeepsPublished(used: nat, length: nat, shift: seq<nat>, done: set<nat>, g: nat, v: nat)
    requires Published(used, length, shift, done) && used <= g < |shift| && g !in done
    ensures Published(used, length, shift[g := v], done)
  {
    hide ShiftAt;
  }

  lemma StoreKeeps(used: nat, s: State, t: nat, lucky: bool)
    requires Inv(used, s) && t < |s.threads| && s.threads[t].StoringOneHead?
    ensures Inv(used, ThreadStep(s, t, lucky))
  {
    hide Heads, Published, Pow2, FloorLog2, BottomBits, Splits;
    assert ThreadOk(used, s, s.threads[t]);
    var g := s.threads[t].slot;
    var s' := ThreadStep(s, t, lucky);
    StoreKeepsHeads(used, s.shift, s.done, g);
    StoreKeepsPublished(used, s.length, s.shift, s.done, g, FloorLog2(g) + 1);
    assert Owns(s.threads[t], g);
    OthersOwn(used, s, t, g);
    Assemble(used, s, s', t);
  }

  /** Slot h is still owed, and is not slot g. */
  ghost predicate Apart(used: nat, done: set<nat>, g: nat, h: nat) {
    h != g && h !in done && used <= h
  }

  /** Grow slots have one owner. */
  lemma OthersOwn(used: nat, s: State, t: nat, g: nat)
    requires Inv(used, s) && t < |s.threads| && Owns(s.threads[t], g)
    ensures forall u, h: nat :: 0 <= u < |s.threads| && u != t && Owns(s.threads[u], h) ==> Apart(used, s.done, g, h)
  {
    hide Inv;
    forall u, h: nat | 0 <= u < |s.threads| && u != t && Owns(s.threads[u], h)
      ensures Apart(used, s.done, g, h)
    {
      OtherOwns(used, s, t, g, u, h);
    }
  }

  lemma OtherOwns(used: nat, s: State, t: nat, g: nat, u: nat, h: nat)
    requires Inv(used, s) && t < |s.threads| && Owns(s.threads[t], g)
    requires u < |s.threads| && u != t && Owns(s.threads[u], h)
    ensures Apart(used, s.done, g, h)
  {
    hide Heads, Published;
    assert ThreadOk(used, s, s.threads[u]);
    if u < t { assert !Owns(s.threads[t], h); } else { assert !Owns(s.threads[u], g); }
  }

  // Publishing the new shift on the zero-head.

  lemma PublishKeepsHeads(used: nat, shift: seq<nat>, done: set<nat>, g: nat)
    requires Heads(used, shift, done) && 2 <= used <= g < |shift| && g !in done
    requires shift[g] == FloorLog2(g) + 1
    requires var o := SplitHome(g); o < |shift| && Active(used, done, o) && shift[o] == FloorLog2(g)
    ensures Heads(used, shift[SplitHome(g) := FloorLog2(g) + 1], done + {g})
  {
    hide Pow2, FloorLog2;
    var o, k := SplitHome(g), FloorLog2(g);
    var shift', done' := shift[o := k + 1], done + {g};
    Pow2Doubles(k);
    forall h | h >= used >= 2
      ensures SplitDone(used, shift', done', h)
    {
      PublishOther(used, shift, done, g, h);
    }
  }

  lemma PublishOther(used: nat, shift: seq<nat>, done: set<nat>, g: nat, h: nat)
    requires Heads(used, shift, done) && 2 <= used <= g < |shift| && g !in done && h >= used
    requires shift[g] == FloorLog2(g) + 1
    requires var o := SplitHome(g); o < |shift| && Active(used, done, o) && shift[o] == FloorLog2(g)
    ensures SplitDone(used, shift[SplitHome(g) := FloorLog2(g) + 1], done + {g}, h)
  {
    hide Pow2, FloorLog2;
    assert SplitDone(used, shift, done, h);
    if SplitHome(h) == g {
      LessThanPow2(g, FloorLog2(g), FloorLog2(h));
    }
  }

  lemma PublishKeepsPublished(used: nat, length: nat, shift: seq<nat>, done: set<nat>, o: nat, g: nat)
    requires Published(used, length, shift, done) && o < |shift|
    ensures Published(used, length, shift[o := shift[o] + 1], done + {g})
  {
    hide ShiftAt;
  }

  lemma CasZeroHeadKeeps(used: nat, s: State, t: nat, lucky: bool)
    requires Inv(used, s) && t < |s.threads| && s.threads[t].CasingZeroHead?
    ensures Inv(used, ThreadStep(s, t, lucky))
  {
    hide Heads, Published, Pow2, FloorLog2, BottomBits, Splits;
    assert ThreadOk(used, s, s.threads[t]);
    var g := s.threads[t].slot;
    WaitedGivesParent(used, s.shift, s.done, g);
    var s' := ThreadStep(s, t, lucky);
    if !lucky {
      LocalKeeps(used, s, t, StoringOneHead(g));
    } else {
      PublishKeepsHeads(used, s.shift, s.done, g);
      PublishKeepsPublished(used, s.length, s.shift, s.done, SplitHome(g), g);
      assert Owns(s.threads[t], g);
      OthersOwn(used, s, t, g);
      Assemble(used, s, s', t);
    }
  }

  // Moving the published length.

  lemma AdvanceKeepsPublished(used: nat, length: nat, shift: seq<nat>, done: set<nat>)
    requires Heads(used, shift, done) && Published(used, length, shift, done) && length in done
    ensures Published(used, length + 1, shift, done)
  {
    hide Pow2, FloorLog2, ShiftAt;
    assert SplitDone(used, shift, done, length);
    forall i | 0 <= i < length + 1
      ensures shift[i] >= ShiftAt(length + 1, i)
    {
      GrowthChangesTwoShifts(length, i);
      if i == length { LessThanPow2(i, FloorLog2(i), shift[i]); }
    }
  }

  lemma CatchUpOk(used: nat, s: State, known: nat, current: nat, ret: Return)
    requires Active(used, s.done, known) && ReturnOk(used, s.shift, s.done, ret)
    requires 2 <= used <= current <= s.length
    ensures ThreadOk(used, s, CatchUp(known, current, ret))
    ensures forall g: nat :: !Owns(CatchUp(known, current, ret), g)
  {
  }

  lemma CasLengthKeeps(used: nat, s: State, t: nat, lucky: bool)
    requires Inv(used, s) && t < |s.threads| && s.threads[t].CasingLength?
    ensures Inv(used, ThreadStep(s, t, lucky))
  {
    hide Heads, Published, Pow2, FloorLog2, BottomBits, Splits, ReturnOk;
    assert ThreadOk(used, s, s.threads[t]);
    var th := s.threads[t];
    var s' := ThreadStep(s, t, lucky);
    if s.length == th.current {
      AdvanceKeepsPublished(used, s.length, s.shift, s.done);
      CatchUpOk(used, s', th.known, th.current + 1, th.ret);
      forall u, g: nat | 0 <= u < |s.threads| && u != t && Owns(s.threads[u], g) && g < |s.shift|
        ensures g !in s'.done
      {
        assert ThreadOk(used, s, s.threads[u]);
      }
      Assemble(used, s, s', t);
    } else {
      assert 2 <= used <= s.length by { PublishedBounds(used, s); }
      CatchUpOk(used, s, th.known, s.length, th.ret);
      LocalKeeps(used, s, t, CatchUp(th.known, s.length, th.ret));
    }
  }

  lemma PublishedBounds(used: nat, s: State)
    requires Inv(used, s)
    ensures 2 <= used <= s.length <= |s.shift|
  {
  }

  /** A done split is recognised by the shift of its old home. */
  lemma CheckFindsDone(used: nat, s: State, n: nat)
    requires Inv(used, s) && used <= n <= s.length && 2 <= n && n < |s.shift|
    ensures SplitHome(n) < |s.shift|
    ensures s.shift[SplitHome(n)] > FloorLog2(n) ==> n in s.done
  {
    hide Pow2, FloorLog2;
    assert SplitDone(used, s.shift, s.done, n);
  }

  lemma KnownInRange(used: nat, s: State, i: nat)
    requires Inv(used, s) && Active(used, s.done, i)
    ensures i < |s.shift|
  {
  }

  lemma LoadHeadKeeps(used: nat, s: State, t: nat, lucky: bool)
    requires Inv(used, s) && t < |s.threads| && s.threads[t].LoadingHead?
    ensures Inv(used, ThreadStep(s, t, lucky))
  {
    hide Published, Pow2, FloorLog2, BottomBits, Splits;
    assert ThreadOk(used, s, s.threads[t]);
    var LoadingHead(hash, home, shift) := s.threads[t];
    if s.shift[home] == shift {
      LocalKeeps(used, s, t, CasingHead(hash, home, shift));
    } else {
      SiblingActive(used, s.shift, s.done, home, shift);
      BottomBitsSplit(hash, shift);
      LocalKeeps(used, s, t, LoadingLength(home + Pow2(shift), Resume(hash, home + BitValue(hash, shift), shift + 1)));
    }
  }

  lemma OtherStepKeeps(used: nat, s: State, t: nat, lucky: bool)
    requires Inv(used, s) && t < |s.threads|
    requires var th := s.threads[t];
             !th.StoringOneHead? && !th.CasingZeroHead? && !th.CasingLength? && !th.LoadingHead? && !th.Clamping?
    ensures Inv(used, ThreadStep(s, t, lucky))
  {
    hide Heads, Published, Pow2, FloorLog2, BottomBits, Splits;
    var th := s.threads[t];
    assert ThreadOk(used, s, th);
    PublishedBounds(used, s);
    match th
    case Waiting(g) =>
      assert OldOldHome(g) < g by { OldOldHomeIs(g); }
      if s.shift[OldOldHome(g)] >= FloorLog2(g) {
        InactiveBelow(used, s.shift, s.done, g);
        LocalKeeps(used, s, t, StoringOneHead(g));
      }
    case LoadingLength(known, ret) =>
      CatchUpOk(used, s, known, s.length, ret);
      LocalKeeps(used, s, t, CatchUp(known, s.length, ret));
    case CheckingOldHome(known, current, ret) =>
      KnownInRange(used, s, known);
      CheckFindsDone(used, s, current);
      if s.shift[SplitHome(current)] > FloorLog2(current) {
        LocalKeeps(used, s, t, CasingLength(known, current, ret));
      } else {
        LocalKeeps(used, s, t, Back(ret));
      }
    case CasingHead(hash, home, shift) =>
      LocalKeeps(used, s, t, ThreadStep(s, t, lucky).threads[t]);
    case _ =>
  }

  lemma ClampKeeps(used: nat, s: State, t: nat, lucky: bool)
    requires Inv(used, s) && t < |s.threads| && s.threads[t].Clamping?
    ensures Inv(used, ThreadStep(s, t, lucky))
  {
    hide Pow2, FloorLog2, BottomBits, Splits, ShiftAt;
    assert ThreadOk(used, s, s.threads[t]);
    forall u, g: nat | 0 <= u < |s.threads| && u != t && Owns(s.threads[u], g)
      ensures g !in s.done
    {
      assert ThreadOk(used, s, s.threads[u]);
    }
    Assemble(used, s, ThreadStep(s, t, lucky), t);
  }

  lemma StepKeeps(used: nat, s: State, a: Action)
    requires Inv(used, s)
    ensures Inv(used, Apply(s, a)) && s.length <= Apply(s, a).length
  {
    hide Inv, HomeOk;
    if a.t < |s.threads| {
      var t := a.t;
      match a
      case Grow(_) => BeginGrowKeeps(used, s, t);
      case Insert(_, hash) =>
        HomeOfPublished(used, s, hash);
        if s.threads[t] == Idle && s.length >= 2 {
          LocalKeeps(used, s, t, LoadingHead(hash, HomeIndex(s.length, hash), HomeShift(s.length, hash)));
        }
      case Step(_, lucky) =>
        match s.threads[t]
        case Clamping => ClampKeeps(used, s, t, lucky);
        case StoringOneHead(_) => StoreKeeps(used, s, t, lucky);
        case CasingZeroHead(_) => CasZeroHeadKeeps(used, s, t, lucky);
        case CasingLength(_, _, _) => CasLengthKeeps(used, s, t, lucky);
        case LoadingHead(_, _, _) => LoadHeadKeeps(used, s, t, lucky);
        case _ => OtherStepKeeps(used, s, t, lucky);
    }
  }

  lemma InitInv(used: nat, s: State)
    requires Init(used, s)
    ensures Inv(used, s)
  {
    hide Pow2, FloorLog2, BottomBits;
    Pow2Doubles(FloorLog2(used));
    LogPositive(used);
    forall g | g >= used >= 2
      ensures SplitDone(used, s.shift, s.done, g)
    {
      var m := FloorLog2(used);
      if FloorLog2(g) < m { Pow2Monotone(FloorLog2(g) + 1, m); }
    }
  }

  lemma {:induction false} RunKeeps(used: nat, s: State, acts: seq<Action>)
    requires Init(used, s)
    ensures Inv(used, Run(s, acts))
  {
    hide Inv, Apply;
    if acts == [] {
      InitInv(used, s);
    } else {
      RunKeeps(used, s, acts[..|acts| - 1]);
      StepKeeps(used, Run(s, acts[..|acts| - 1]), acts[|acts| - 1]);
    }
  }

  /** The published length never decreases, however a run continues. */
  lemma {:induction false} LengthNeverDecreases(used: nat, s: State, acts: seq<Action>, more: seq<Action>)
    requires Init(used, s)
    ensures Run(s, acts).length <= Run(s, acts + more).length
  {
    hide Inv, Apply;
    if more == [] {
      assert acts + more == acts;
    } else {
      var front := more[..|more| - 1];
      LengthNeverDecreases(used, s, acts, front);
      assert (acts + more)[..|acts + more| - 1] == acts + front;
      RunKeeps(used, s, acts + front);
      StepKeeps(used, Run(s, acts + front), more[|more| - 1]);
    }
  }

  /**
   In every reachable state, the home that the published length gives any hash is a slot of the
   table whose head already carries at least the shift that length asks for; so no insert ever
   finds a smaller shift than its own, the case the source declares impossible.
   */
  lemma PublishedLengthIsUsable(used: nat, s: State, acts: seq<Action>, hash: nat)
    requires Init(used, s)
    ensures var r := Run(s, acts);
            && used <= r.length <= |r.shift|
            && HomeIndex(r.length, hash) < r.length
            && r.shift[HomeIndex(r.length, hash)] >= HomeShift(r.length, hash)
    ensures forall t :: 0 <= t < |Run(s, acts).threads| ==> Run(s, acts).threads[t] != Unexpected
  {
    hide Run, Pow2, FloorLog2, BottomBits, Heads;
    var r := Run(s, acts);
    RunKeeps(used, s, acts);
    PublishedBounds(used, r);
    HomeOfPublished(used, r, hash);
    HomeInRange(r.length, hash);
    forall t | 0 <= t < |r.threads|
      ensures r.threads[t] != Unexpected
    {
      assert ThreadOk(used, r, r.threads[t]);
    }
  }

  /**
   Grow slots are claimed once: no two threads ever work on the same one, none is worked on again
   after its split is published, and the published length never runs past an unpublished split.
   */
  lemma GrowSlotsAreClaimedOnce(used: nat, s: State, acts: seq<Action>, t: nat, u: nat, g: nat)
    requires Init(used, s)
    requires t < |Run(s, acts).threads| && u < |Run(s, acts).threads| && Owns(Run(s, acts).threads[t], g)
    ensures var r := Run(s, acts);
            && (Owns(r.threads[u], g) ==> t == u)
            && g !in r.done && r.length <= g < |r.shift|
  {
    hide Run, Pow2, FloorLog2, BottomBits, Heads;
    var r := Run(s, acts);
    RunKeeps(used, s, acts);
    assert ThreadOk(used, r, r.threads[t]);
    if t < u { OneOwner(used, r, t, u, g); } else if u < t { OneOwner(used, r, u, t, g); }
  }

  lemma OneOwner(used: nat, s: State, t: nat, u: nat, g: nat)
    requires Inv(used, s) && t < u < |s.threads|
    ensures !(Owns(s.threads[t], g) && Owns(s.threads[u], g))
  {
    hide Pow2, FloorLog2, BottomBits, Heads, ThreadOk, Published;
  }

  /**
   An entry that an insert links to a head lands on the chain of its own hash: the head it joins
   carries shift n and sits at the slot named by the hash's n lowest bits, however stale the
   length the insert started from.
   */
  lemma InsertsLandAtTheirHome(used: nat, s: State, acts: seq<Action>, t: nat, lucky: bool)
    requires Init(used, s)
    requires t < |Run(s, acts).threads| && Run(s, acts).threads[t].CasingHead?
    ensures var r := Run(s, acts); var r' := Apply(r, Step(t, lucky)); var th := r.threads[t];
            r'.threads[t] == Inserted(th.hash, th.home, th.shift) ==>
              && th.home < |r.shift|
              && th.home == BottomBits(th.hash, r.shift[th.home])
              && th.shift == r.shift[th.home]
  {
    hide Run, Pow2, FloorLog2, BottomBits, Heads;
    var r := Run(s, acts);
    RunKeeps(used, s, acts);
    assert ThreadOk(used, r, r.threads[t]);
  }

  /**
   The head a splitting thread is about to re-tag carries exactly the old shift, and the head of
   the new chain holds the new shift already, so both heads change together from the outside.
   */
  lemma SplitPublishesBothHeads(used: nat, s: State, acts: seq<Action>, t: nat)
    requires Init(used, s)
    requires t < |Run(s, acts).threads| && Run(s, acts).threads[t].CasingZeroHead?
    ensures var r := Run(s, acts); var g := r.threads[t].slot;
            && 2 <= g < |r.shift| && SplitHome(g) < |r.shift|
            && r.shift[SplitHome(g)] == FloorLog2(g)
            && r.shift[g] == FloorLog2(g) + 1
  {
    hide Run, Pow2, FloorLog2, BottomBits, Published;
    var r := Run(s, acts);
    RunKeeps(used, s, acts);
    assert ThreadOk(used, r, r.threads[t]);
    WaitedGivesParent(used, r.shift, r.done, r.threads[t].slot);
  }

  // Waiting threads cannot all block each other.

  ghost predicate Claimed(used: nat, s: State, g: nat) {
    used <= g < s.frontier && g < |s.shift| ==>
      g in s.done || exists t :: 0 <= t < |s.threads| && Owns(s.threads[t], g)
  }

  /** A thread gives up its grow slot only by publishing the split. */
  lemma OwnerStays(s: State, t: nat, lucky: bool, g: nat)
    requires t < |s.threads| && Owns(s.threads[t], g)
    ensures var s' := ThreadStep(s, t, lucky); g in s'.done || Owns(s'.threads[t], g)
  {
  }

  lemma StepBounds(used: nat, s: State, a: Action)
    requires Inv(used, s)
    ensures var s' := Apply(s, a);
            && |s'.shift| == |s.shift| && |s'.threads| == |s.threads| && s.done <= s'.done
            && (forall u :: 0 <= u < |s.threads| && u != a.t ==> s'.threads[u] == s.threads[u])
            && (s'.frontier == s.frontier || |s.shift| <= s.frontier ||
                (a.Grow? && a.t < |s.threads| && s' == Set(s, a.t, Waiting(s.frontier)).(frontier := s.frontier + 1)))
  {
    hide Heads, Published, Pow2, FloorLog2, BottomBits, Splits;
    if a.t < |s.threads| { assert ThreadOk(used, s, s.threads[a.t]); }
  }

  lemma ClaimedStep(used: nat, s: State, a: Action, g: nat)
    requires Inv(used, s) && Claimed(used, s, g)
    ensures Claimed(used, Apply(s, a), g)
  {
    hide Inv, ThreadStep;
    var s' := Apply(s, a);
    StepBounds(used, s, a);
    if used <= g < s'.frontier && g < |s.shift| && g !in s.done {
      if g < s.frontier {
        var t :| 0 <= t < |s.threads| && Owns(s.threads[t], g);
        if t == a.t && a.Step? { OwnerStays(s, t, a.lucky, g); }
        assert g in s'.done || Owns(s'.threads[t], g);
      } else {
        assert Owns(s'.threads[a.t], g);
      }
    }
  }

  lemma {:induction false} RunClaims(used: nat, s: State, acts: seq<Action>, g: nat)
    requires Init(used, s)
    ensures Claimed(used, Run(s, acts), g)
  {
    hide Inv, Apply;
    if acts != [] {
      RunKeeps(used, s, acts[..|acts| - 1]);
      RunClaims(used, s, acts[..|acts| - 1], g);
      ClaimedStep(used, Run(s, acts[..|acts| - 1]), acts[|acts| - 1], g);
    }
  }

  /** With every slot below g live, the home that g waits for has the shift it waits for. */
  lemma LeastIsReady(used: nat, s: State, g: nat)
    requires Inv(used, s) && 2 <= used <= g < |s.shift|
    requires forall h: nat :: used <= h < g ==> h in s.done
    ensures OldOldHome(g) < |s.shift| && s.shift[OldOldHome(g)] >= FloorLog2(g)
  {
    hide Pow2, FloorLog2, BottomBits, OldOldHome, Heads, Published;
    OldOldHomeIs(g);
    PublishedBounds(used, s);
    var oo, k := OldOldHome(g), FloorLog2(g);
    Pow2Doubles(k - 1);
    LogOfSum(oo, k - 1);
    var h := oo + Pow2(k - 1);
    if h >= used {
      DoneRaisesShift(used, s.shift, s.done, h);
    } else {
      PublishedRaisesShift(used, s.length, s.shift, s.done, oo, k - 1);
    }
  }

  lemma DoneRaisesShift(used: nat, shift: seq<nat>, done: set<nat>, h: nat)
    requires Heads(used, shift, done) && h >= 2 && h in done
    ensures SplitHome(h) < |shift| && shift[SplitHome(h)] > FloorLog2(h)
  {
    hide Pow2, FloorLog2;
    assert SplitDone(used, shift, done, h);
  }

  lemma PublishedRaisesShift(used: nat, length: nat, shift: seq<nat>, done: set<nat>, i: nat, k: nat)
    requires Published(used, length, shift, done) && i < Pow2(k) && i + Pow2(k) < length
    ensures shift[i] > k
  {
    hide Pow2, FloorLog2;
    LessThanPow2(i + Pow2(k), k, FloorLog2(length) + 1);
    if FloorLog2(length) > k { Pow2Monotone(k + 1, FloorLog2(length)); }
    assert shift[i] >= ShiftAt(length, i);
  }

  /**
   Growth cannot deadlock: in every reachable state in which some thread still owes a split, the
   owner of the least such slot is not kept waiting.
   */
  lemma SomeGrowCanProceed(used: nat, s: State, acts: seq<Action>, g: nat)
    requires Init(used, s)
    requires exists t :: 0 <= t < |Run(s, acts).threads| && Owns(Run(s, acts).threads[t], g)
    requires forall u, h: nat :: 0 <= u < |Run(s, acts).threads| && Owns(Run(s, acts).threads[u], h) ==> g <= h
    ensures var r := Run(s, acts);
            && g >= 2 && OldOldHome(g) < |r.shift|
            && r.shift[OldOldHome(g)] >= FloorLog2(g)
  {
    hide Run, Heads, Published, Pow2, FloorLog2, BottomBits, OldOldHome;
    var r := Run(s, acts);
    RunKeeps(used, s, acts);
    PublishedBounds(used, r);
    var t :| 0 <= t < |r.threads| && Owns(r.threads[t], g);
    assert ThreadOk(used, r, r.threads[t]);
    forall h: nat | used <= h < g
      ensures h in r.done
    {
      RunClaims(used, s, acts, h);
    }
    LeastIsReady(used, r, g);
  }
}
