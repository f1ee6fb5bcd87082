/**
 What every step of a chain split keeps. The central invariant is the one the source states
 for SplitForGrow: each output chain has a migrated part, strung together with the new
 shift, that ends in a frontier entry; behind the earlier frontier the old chain is
 untouched, and between the two frontiers there are only entries of the earlier one.
 */
module ChainSplitProof {
  import opened Lists
  import opened Options
  import opened ChainSplit

  // ---------------------------------------------------------------------------------
  // Entries of a list that belong to one output chain
  // ---------------------------------------------------------------------------------

  predicate Goes(c: Config, x: nat, t: int) { x < |c.keys| && c.Target(x) == t }

  /** The entries of q that belong to output chain t, in order. */
  function Pick(c: Config, q: seq<nat>, t: int): seq<nat> {
    if q == [] then [] else (if Goes(c, q[0], t) then [q[0]] else []) + Pick(c, q[1..], t)
  }

  ghost predicate Before(q: seq<nat>, x: nat, y: nat) {
    exists i, j :: 0 <= i < j < |q| && q[i] == x && q[j] == y
  }

  lemma PickConcat(c: Config, q: seq<nat>, r: seq<nat>, t: int)
    ensures Pick(c, q + r, t) == Pick(c, q, t) + Pick(c, r, t)
  {
    if q == [] {
      assert q + r == r;
    } else {
      assert (q + r)[1..] == q[1..] + r;
      PickConcat(c, q[1..], r, t);
    }
  }

  lemma PickAll(c: Config, q: seq<nat>, t: int)
    requires forall i :: 0 <= i < |q| ==> Goes(c, q[i], t)
    ensures Pick(c, q, t) == q
  {
    if q != [] { PickAll(c, q[1..], t); }
  }

  lemma PickNone(c: Config, q: seq<nat>, t: int)
    requires forall i :: 0 <= i < |q| ==> !Goes(c, q[i], t)
    ensures Pick(c, q, t) == []
  {
    if q != [] { PickNone(c, q[1..], t); }
  }

  lemma PickElements(c: Config, q: seq<nat>, t: int)
    ensures forall x :: x in Pick(c, q, t) <==> x in q && Goes(c, x, t)
  {
    if q != [] {
      PickElements(c, q[1..], t);
      assert q == [q[0]] + q[1..];
    }
  }

  lemma PickDistinct(c: Config, q: seq<nat>, t: int)
    requires Distinct(q)
    ensures Distinct(Pick(c, q, t))
  {
    if q != [] {
      PickDistinct(c, q[1..], t);
      PickElements(c, q[1..], t);
      var p := Pick(c, q, t);
      if Goes(c, q[0], t) {
        assert q[0] !in q[1..];
        assert p == [q[0]] + Pick(c, q[1..], t);
      }
    }
  }

  /** Picking keeps the order. */
  lemma PickKeepsOrder(c: Config, q: seq<nat>, x: nat, y: nat, t: int)
    requires Before(q, x, y) && Goes(c, x, t) && Goes(c, y, t)
    ensures Before(Pick(c, q, t), x, y)
  {
    var i, j :| 0 <= i < j < |q| && q[i] == x && q[j] == y;
    var l, r := q[..j], q[j..];
    assert q == l + r && x == l[i] && x in l && y == r[0];
    PickConcat(c, l, r, t);
    PickElements(c, l, t);
    var pl := Pick(c, l, t);
    var k :| 0 <= k < |pl| && pl[k] == x;
    assert Pick(c, r, t)[0] == y;
    assert Pick(c, q, t)[k] == x && Pick(c, q, t)[|pl|] == y;
  }

  /** The order of the picked entries is the order of the list. */
  lemma PickReflectsOrder(c: Config, q: seq<nat>, t: int, i: nat, j: nat)
    requires i < j < |Pick(c, q, t)|
    ensures Before(q, Pick(c, q, t)[i], Pick(c, q, t)[j])
    decreases |q|
  {
    var p := Pick(c, q, t);
    if !Goes(c, q[0], t) {
      PickReflectsOrder(c, q[1..], t, i, j);
      var a, b :| 0 <= a < b < |q[1..]| && q[1..][a] == p[i] && q[1..][b] == p[j];
      assert q[a + 1] == p[i] && q[b + 1] == p[j];
    } else if i > 0 {
      PickReflectsOrder(c, q[1..], t, i - 1, j - 1);
      var a, b :| 0 <= a < b < |q[1..]| && q[1..][a] == p[i] && q[1..][b] == p[j];
      assert q[a + 1] == p[i] && q[b + 1] == p[j];
    } else {
      PickElements(c, q[1..], t);
      assert p[j] == Pick(c, q[1..], t)[j - 1];
      assert p[j] in q[1..];
      var b :| 0 <= b < |q[1..]| && q[1..][b] == p[j];
      assert q[0] == p[i] && q[b + 1] == p[j];
    }
  }

  // ---------------------------------------------------------------------------------
  // Strings of entries tagged with the new shift
  // ---------------------------------------------------------------------------------

  function NewLink(c: Config, m: seq<nat>, i: nat, t: int): Link {
    if i < |m| then Next(m[i], c.NewShift(), false) else End(c.Home(t), c.NewShift())
  }

  /**
   Following the head visits m, every pointer carrying the new shift; the pointer of the last
   entry is only covered when the string is finished, and then it is t's end marker.
   */
  ghost predicate Strung(c: Config, next: seq<Link>, head: Link, m: seq<nat>, t: int, finished: bool) {
    && Unlock(head) == NewLink(c, m, 0, t)
    && (finished || m != [])
    && (forall i :: 0 <= i < |m| ==> m[i] < |next|)
    && (forall i {:trigger next[m[i]]} :: 0 <= i < |m| && (finished || i + 1 < |m|) ==> next[m[i]] == NewLink(c, m, i + 1, t))
  }

  lemma StrungStoreElsewhere(c: Config, next: seq<Link>, head: Link, m: seq<nat>, t: int, finished: bool, x: nat, l: Link)
    requires Strung(c, next, head, m, t, finished)
    requires x < |next| && x !in m
    ensures Strung(c, next[x := l], head, m, t, finished)
  {
  }

  lemma StrungExtend(c: Config, next: seq<Link>, head: Link, m: seq<nat>, t: int, y: nat)
    requires Strung(c, next, head, m, t, false)
    requires Distinct(m) && y < |next|
    ensures Strung(c, next[m[|m| - 1] := Next(y, c.NewShift(), false)], head, m + [y], t, false)
  {
  }

  lemma StrungClose(c: Config, next: seq<Link>, head: Link, m: seq<nat>, t: int)
    requires Strung(c, next, head, m, t, false)
    requires Distinct(m)
    ensures Strung(c, next[m[|m| - 1] := End(c.Home(t), c.NewShift())], head, m, t, true)
  {
  }

  lemma StrungPush(c: Config, next: seq<Link>, head: Link, m: seq<nat>, t: int, finished: bool, x: nat, locked: bool)
    requires Strung(c, next, head, m, t, finished)
    requires x < |next| && next[x] == Unlock(head)
    ensures Strung(c, next, Next(x, c.NewShift(), locked), [x] + m, t, finished)
  {
    var m' := [x] + m;
    forall i | 0 <= i < |m'| && (finished || i + 1 < |m'|)
      ensures next[m'[i]] == NewLink(c, m', i + 1, t)
    {
      if i > 0 { assert m'[i] == m[i - 1]; }
    }
  }

  // ---------------------------------------------------------------------------------
  // The invariant
  // ---------------------------------------------------------------------------------

  /**
   Proof bookkeeping: q is the chain as of the last scan, r what was inserted since, f0 and f1
   the positions in q of the two frontiers (None once that output chain is complete), k the
   position of `cur`.
   */
  datatype Aux = Aux(r: seq<nat>, q: seq<nat>, f0: Option<nat>, f1: Option<nat>, k: nat) {
    function Fr(t: int): Option<nat> { if t == 0 then f0 else f1 }
    function SetFr(t: int, f: Option<nat>): Aux { if t == 0 then this.(f0 := f) else this.(f1 := f) }
  }

  /** log is r followed by q. */
  ghost predicate Joined(log: seq<nat>, r: seq<nat>, q: seq<nat>) {
    && |log| == |r| + |q|
    && (forall i :: 0 <= i < |r| ==> log[i] == r[i])
    && (forall i :: 0 <= i < |q| ==> log[|r| + i] == q[i])
  }

  lemma JoinedConcat(log: seq<nat>, r: seq<nat>, q: seq<nat>)
    requires Joined(log, r, q)
    ensures log == r + q
  {
  }

  ghost function UpTo(q: seq<nat>, f: Option<nat>): seq<nat> {
    if f.Some? && f.value < |q| then q[..f.value + 1] else q
  }

  /** The migrated part of output chain t. */
  ghost function Mig(c: Config, a: Aux, t: int): seq<nat> {
    Pick(c, a.r, t) + Pick(c, UpTo(a.q, a.Fr(t)), t)
  }

  ghost predicate Migrated(c: Config, next: seq<Link>, head: Link, a: Aux, t: int) {
    Strung(c, next, head, Mig(c, a, t), t, a.Fr(t).None?)
  }

  /** Behind position f the old chain is untouched. */
  ghost predicate OldTail(c: Config, next: seq<Link>, q: seq<nat>, f: nat) {
    && (forall i :: f <= i < |q| ==> q[i] < |next|)
    && forall i {:trigger next[q[i]]} :: f <= i < |q| ==> next[q[i]] == OldLink(c, q, i + 1)
  }

  /** Frontier position, the untouched tail, and who owns the entries up to the other frontier. */
  ghost predicate Weak(c: Config, next: seq<Link>, a: Aux, t: int) {
    a.Fr(t).Some? ==>
      var f := a.Fr(t).value;
      && f < |a.q| && Goes(c, a.q[f], t)
      && a.Fr(1 - t) != Some(f)
      && OldTail(c, next, a.q, f)
      && (forall i :: f <= i < |a.q| && (a.Fr(1 - t).None? || i < a.Fr(1 - t).value) ==> Goes(c, a.q[i], t))
  }

  ghost predicate FrontierIs(a: Aux, v: Locals, t: int) {
    match a.Fr(t)
    case None => v.Frontier(t) == None
    case Some(f) => f < |a.q| && v.Frontier(t) == Some(a.q[f])
  }

  /** `first` output chain starts at q[0]; the other at q[g], or nowhere in q[..p]. */
  ghost predicate ScanOk(c: Config, a: Aux, v: Locals, p: nat) {
    && p <= |a.q|
    && (v.first == -1 || v.first == 0 || v.first == 1)
    && (v.first == -1 ==> p == 0 && v.zero == None && v.one == None)
    && (v.first >= 0 ==>
          && p > 0 && v.Frontier(v.first) == Some(a.q[0]) && Goes(c, a.q[0], v.first)
          && (v.Frontier(1 - v.first).None? ==> forall i :: 0 <= i < p ==> Goes(c, a.q[i], v.first))
          && (v.Frontier(1 - v.first).Some? ==>
                && p > 1 && v.Frontier(1 - v.first) == Some(a.q[p - 1]) && Goes(c, a.q[p - 1], 1 - v.first)
                && (forall i :: 0 <= i < p - 1 ==> Goes(c, a.q[i], v.first))))
  }

  ghost predicate ScanDone(c: Config, a: Aux, v: Locals, p: nat) {
    && ScanOk(c, a, v, p)
    && (if v.zero.Some? && v.one.Some? then v.cur == Some(a.q[p - 1]) else v.cur == None && p == |a.q|)
  }

  ghost predicate PreScan(c: Config, a: Aux, saved: Link, at: Link, v: Locals) {
    && ScanOk(c, a, v, a.k)
    && at == (if a.k == 0 then saved else OldLink(c, a.q, a.k))
    && !(v.zero.Some? && v.one.Some?)
  }

  ghost predicate SavedOk(c: Config, head: Link, a: Aux, saved: Link) {
    && saved == Lock(OldLink(c, a.q, 0))
    && (saved.Next? ==> head == Lock(head))
  }

  /** Before the heads carry the new shift. */
  ghost predicate Pre(c: Config, s: State, a: Aux)
    requires !Switched(s)
  {
    && OldChain(c, s.zeroHead, s.next, s.log)
    && match s.split {
      case Scanning(saved, at, v) => SavedOk(c, s.zeroHead, a, saved) && PreScan(c, a, saved, at, v)
      case StoringOneHead(saved, v) => SavedOk(c, s.zeroHead, a, saved) && ScanDone(c, a, v, a.k)
      case CasingZeroHead(saved, v) =>
        && SavedOk(c, s.zeroHead, a, saved) && ScanDone(c, a, v, a.k)
        && s.oneHead == Lock(NewLinkTo(c, v.one, 1))
      case _ => true
    }
  }

  ghost predicate UpgradeOk(c: Config, a: Aux, v: Locals, chain: nat, stop: Link, ret: Return) {
    && chain < 2 && 0 <= v.first < 2
    && a.Fr(chain).Some? && FrontierIs(a, v, chain)
    && (ret.AfterFirst? <==> chain == v.first)
    && (a.Fr(1 - chain).Some? ==>
          && !ret.AfterTail?
          && FrontierIs(a, v, 1 - chain)
          && a.Fr(chain).value < a.Fr(1 - chain).value == a.k < |a.q|
          && v.cur == Some(a.q[a.k])
          && stop == Next(a.q[a.k], c.oldShift, false))
    && (a.Fr(1 - chain).None? ==>
          && !ret.AfterSkip?
          && (ret.AfterFirst? ==> v.Frontier(1 - chain) == None)
          && stop == End(c.Home(chain), c.NewShift()))
  }

  ghost predicate LoopOk(c: Config, a: Aux, v: Locals) {
    && 0 <= v.first < 2
    && a.Fr(v.first).Some?
    && FrontierIs(a, v, v.first) && FrontierIs(a, v, 1 - v.first)
    && a.Fr(1 - v.first) == Some(a.Fr(v.first).value + 1)
    && a.Fr(v.first).value < a.k < |a.q| && v.cur == Some(a.q[a.k])
    && (forall i :: a.Fr(v.first).value < i <= a.k ==> Goes(c, a.q[i], 1 - v.first))
  }

  ghost predicate Holds(s: State, v: Locals) {
    && (v.holdsZero ==> s.zeroHead.Next? && s.zeroHead.locked)
    && (v.holdsOne ==> s.oneHead.Next? && s.oneHead.locked)
  }

  /** The whole invariant on the two chains, without the thread-local part. */
  ghost predicate Chains(c: Config, next: seq<Link>, zeroHead: Link, oneHead: Link, a: Aux) {
    && Migrated(c, next, zeroHead, a, 0) && Migrated(c, next, oneHead, a, 1)
    && Weak(c, next, a, 0) && Weak(c, next, a, 1)
  }

  /** After the heads carry the new shift. */
  ghost predicate Post(c: Config, s: State, a: Aux) {
    && Chains(c, s.next, s.zeroHead, s.oneHead, a)
    && PostLocals(c, s, a)
  }

  ghost predicate PostLocals(c: Config, s: State, a: Aux) {
    match s.split
    case Upgrading(v, chain, stop, ret) => UpgradeOk(c, a, v, chain, stop, ret) && Holds(s, v)
    case Looping(v) => LoopOk(c, a, v) && Holds(s, v)
    case UnlockingOne(v) => a.f0.None? && a.f1.None? && Holds(s, v)
    case UnlockingZero(v) => a.f0.None? && a.f1.None? && Holds(s, v.(holdsOne := false))
    case _ => a.f0.None? && a.f1.None?
  }

  ghost predicate ChainInv(c: Config, s: State, a: Aux) {
    && ConfigOk(c) && LogOk(c, s.next, s.log) && Joined(s.log, a.r, a.q)
    && (if Switched(s) then Post(c, s, a) else Pre(c, s, a))
  }

  /** Bounds the number of steps the splitting thread still has to take after the switch. */
  function Rank(p: Splitter, a: Aux): int {
    var n := |a.q|;
    match p
    case Upgrading(v, chain, _, _) =>
      if a.Fr(chain).None? then 0 else
        4 + 2 * (n - a.Fr(chain).value) + (if a.Fr(1 - chain).Some? then 2 * (n - a.k) else 0)
    case Looping(v) => if a.Fr(v.first).None? then 0 else 3 + 2 * (n - a.Fr(v.first).value) + 2 * (n - a.k)
    case UnlockingOne(_) => 2
    case UnlockingZero(_) => 1
    case _ => 0
  }

  ghost predicate InserterOk(c: Config, s: State, n: Inserter) {
    n.Idle? || (
      && n.idx < |c.keys| && n.idx < |s.next| && n.idx !in s.log && c.OnChain(c.keys[n.idx].hash)
      && ((n.shift == c.oldShift && n.home == c.oldHome)
          || (n.shift == c.NewShift() && n.home == c.Home(c.Target(n.idx)) && Switched(s)))
      && (n.Loaded? || n.Linked? ==> n.head.shift == n.shift)
      && (n.Linked? ==> s.next[n.idx] == Unlock(n.head)))
  }

  ghost predicate InsertersInv(c: Config, s: State) {
    && (forall i :: 0 <= i < |s.inserters| ==> InserterOk(c, s, s.inserters[i]))
    && (forall i, j :: 0 <= i < j < |s.inserters| && !s.inserters[i].Idle? && !s.inserters[j].Idle?
          ==> s.inserters[i].idx != s.inserters[j].idx)
  }

  // ---------------------------------------------------------------------------------
  // Consequences used everywhere
  // ---------------------------------------------------------------------------------

  lemma MigProps(c: Config, a: Aux, t: int)
    requires Distinct(a.r + a.q)
    ensures Distinct(Mig(c, a, t))
    ensures forall x :: x in Mig(c, a, t) ==> x in a.r + a.q && Goes(c, x, t)
  {
    var u := UpTo(a.q, a.Fr(t));
    assert Distinct(a.r + u) by {
      forall i, j | 0 <= i < j < |a.r + u| ensures (a.r + u)[i] != (a.r + u)[j] {
        assert (a.r + u)[i] == (a.r + a.q)[i] && (a.r + u)[j] == (a.r + a.q)[j];
      }
    }
    PickConcat(c, a.r, u, t);
    PickDistinct(c, a.r + u, t);
    PickElements(c, a.r + u, t);
  }

  lemma PickLast(c: Config, q: seq<nat>, t: int)
    requires q != [] && Goes(c, q[|q| - 1], t)
    ensures Pick(c, q, t) == Pick(c, q[..|q| - 1], t) + [q[|q| - 1]]
  {
    var y := q[|q| - 1];
    assert q == q[..|q| - 1] + [y];
    PickConcat(c, q[..|q| - 1], [y], t);
    PickAll(c, [y], t);
  }

  /** The migrated part ends in the frontier entry, while there is one. */
  lemma MigLast(c: Config, a: Aux, t: int, f: nat)
    requires a.Fr(t) == Some(f) && f < |a.q| && Goes(c, a.q[f], t)
    ensures var m := Mig(c, a, t); m != [] && m[|m| - 1] == a.q[f]
  {
    PickLast(c, a.q[..f + 1], t);
  }
}
