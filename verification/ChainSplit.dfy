/**
 Splitting one chain of the auto-growing clock table into two, while inserts and
 lookups keep running (AutoHyperClockTable::SplitForGrow, DoInsert's head update and
 the full Lookup walk).

 The model is a state machine. One splitting thread, any number of inserting threads
 and one looking-up thread take turns; every store, compare-and-swap and pointer read
 of the source is a step of its own, except that an iteration of the splitting thread that
 loads a chain pointer and then stores one is a single step: once an entry is linked, no
 other thread writes its chain pointer. Lookups never write to the chain, so one looking-up
 thread stands for all of them.
 */
module ChainSplit {
  import opened Bits
  import opened Lists
  import opened Options

  /** A 128-bit hashed key; the low word is the one that selects the home slot. */
  datatype HashedKey = HashedKey(hi: nat, hash: nat)

  /**
   A "next with shift" word: an array index or, at the end of a chain, the home slot the
   chain belongs to, tagged with the number of hash bits in use. The lock flag is only
   meaningful on heads; an end marker always carries it, so locking it has no effect.
   */
  datatype Link = Next(idx: nat, shift: nat, locked: bool) | End(home: nat, shift: nat)

  const UNUSED: Link := Next(0, 0, false)

  function Lock(l: Link): Link {
    if l.Next? then l.(locked := true) else l
  }

  function Unlock(l: Link): Link {
    if l.Next? then l.(locked := false) else l
  }

  /**
   What is fixed during one split: the chain being split, its shift before the split, and
   the key that each slot holds. Entries are not cut out during a split (the rewrite
   lock excludes that), so a slot is filled at most once and its key can be a constant. But
   an entry may come to be under destruction at any time, after which no lookup can
   reference it.
   */
  datatype Config = Config(oldHome: nat, oldShift: nat, keys: seq<HashedKey>) {
    function NewShift(): nat { oldShift + 1 }
    function GrowHome(): nat { oldHome + Pow2(oldShift) }
    function Home(t: int): nat { if t == 0 then oldHome else GrowHome() }
    /** Which output chain a hash belongs to: 0 for the "zero chain", 1 for the "one chain". */
    function TargetOf(hash: nat): (t: nat)
      ensures t < 2
    {
      if BottomBits(hash, NewShift()) == oldHome then 0 else 1
    }
    predicate OnChain(hash: nat) { BottomBits(hash, oldShift) == oldHome }
    function Target(x: nat): (t: nat)
      requires x < |keys|
      ensures t < 2
    {
      TargetOf(keys[x].hash)
    }
  }

  // ---------------------------------------------------------------------------------
  // The threads
  // ---------------------------------------------------------------------------------

  /** Local variables of SplitForGrow; `first` is -1 while no entry has been seen. */
  datatype Locals = Locals(zero: Option<nat>, one: Option<nat>, cur: Option<nat>, first: int,
                           holdsZero: bool, holdsOne: bool)
  {
    function Frontier(t: int): Option<nat> { if t == 0 then zero else one }
    function SetFrontier(t: int, v: Option<nat>): Locals {
      if t == 0 then this.(zero := v) else this.(one := v)
    }
  }

  const NO_LOCALS := Locals(None, None, None, -1, false, false)

  /** Where UpgradeShiftsOnRange returns to. */
  datatype Return = AfterFirst | AfterSkip | AfterTail

  datatype Splitter =
    | Locking
    | Scanning(saved: Link, at: Link, v: Locals)
    | StoringOneHead(saved: Link, v: Locals)
    | CasingZeroHead(saved: Link, v: Locals)
    | Upgrading(v: Locals, chain: nat, stop: Link, ret: Return)
    | Looping(v: Locals)
    | UnlockingOne(v: Locals)
    | UnlockingZero(v: Locals)
    | Done

  /** An insert past the point where it owns a filled slot `idx` that is on no chain yet. */
  datatype Inserter =
    | Idle
    | Ready(idx: nat, home: nat, shift: nat)
    | Loaded(idx: nat, home: nat, shift: nat, head: Link)
    | Linked(idx: nat, home: nat, shift: nat, head: Link)

  /**
   A lookup: `at` is the entry whose pointer is read next (None for the head), `held` the
   last entry on the chain with a read reference. `since` records what was resident when
   the lookup started; it only serves to state what the lookup must not miss.
   */
  datatype Lookup =
    | NotStarted
    | Walking(key: HashedKey, home: nat, shift: nat, at: Option<nat>, held: Option<nat>, since: seq<nat>)
    | Found(key: HashedKey, slot: nat)
    | NotFound(key: HashedKey, since: seq<nat>)

  /** `log` lists the published entries, newest first; `condemned` are those under destruction. */
  datatype State = State(zeroHead: Link, oneHead: Link, next: seq<Link>, log: seq<nat>,
                         split: Splitter, inserters: seq<Inserter>, lookup: Lookup, condemned: set<nat>)
  {
    function Head(t: int): Link { if t == 0 then zeroHead else oneHead }
  }

  // ---------------------------------------------------------------------------------
  // Steps of the splitting thread
  // ---------------------------------------------------------------------------------

  function NewLinkTo(c: Config, f: Option<nat>, t: int): Link {
    if f.Some? then Next(f.value, c.NewShift(), false) else End(c.Home(t), c.NewShift())
  }

  function StartScan(head: Link): Splitter { Scanning(head, head, NO_LOCALS) }

  /** Records that entry x, which belongs to output chain t, was seen by the search. */
  function Note(v: Locals, x: nat, t: nat): Locals {
    var v1 := v.(cur := Some(x));
    if v.Frontier(t).Some? then v1
    else if v.Frontier(1 - t).Some? then v1.SetFrontier(t, Some(x))
    else v1.SetFrontier(t, Some(x)).(first := t)
  }

  /** One iteration of the search for the first entry of each output chain. */
  function ScanStep(c: Config, s: State, saved: Link, at: Link, v: Locals): Splitter {
    if at.End? then
      StoringOneHead(saved, v.(cur := None))
    else if at.idx >= |c.keys| || at.idx >= |s.next| then
      Scanning(saved, at, v)
    else
      var v' := Note(v, at.idx, c.Target(at.idx));
      if v'.zero.Some? && v'.one.Some? then
        StoringOneHead(saved, v')
      else
        Scanning(saved, s.next[at.idx], v')
  }

  /** The head update that completes the "big step", or the restart after a concurrent insert. */
  function CasStep(c: Config, s: State, saved: Link, v: Locals): State {
    if s.zeroHead == saved then
      var newHead := Lock(NewLinkTo(c, v.zero, 0));
      var v' := v.(holdsZero := newHead.Next?, holdsOne := v.one.Some?);
      s.(zeroHead := newHead, split := AfterBigStep(c, v'))
    else if saved.End? && s.zeroHead.Next? then
      s.(split := Locking)
    else
      s.(split := StartScan(s.zeroHead))
  }

  function AfterBigStep(c: Config, v: Locals): Splitter {
    if v.first < 0 then UnlockingOne(v) else
      var t: nat := v.first;
      var other := if t == 0 then v.one else v.zero;
      var stop := if other.Some? then Next(other.value, c.oldShift, false) else End(c.Home(t), c.NewShift());
      Upgrading(v, t, stop, AfterFirst)
  }

  function UpgradeReturn(v: Locals, ret: Return): Splitter {
    match ret
    case AfterFirst => if v.zero.None? then UnlockingOne(v) else Looping(v)
    case AfterSkip => Looping(v.(first := 1 - v.first))
    case AfterTail => UnlockingOne(v)
  }

  /** One iteration of UpgradeShiftsOnRange. */
  function UpgradeStep(c: Config, s: State, v: Locals, chain: nat, stop: Link, ret: Return): State {
    var f := v.Frontier(chain);
    if f.None? || f.value >= |s.next| then s else
      var x := f.value;
      var l := s.next[x];
      if l == stop then
        s.(split := UpgradeReturn(v, ret))
      else if l.End? then
        s.(next := s.next[x := stop], split := UpgradeReturn(v.SetFrontier(chain, None), ret))
      else
        s.(next := s.next[x := Next(l.idx, l.shift + 1, l.locked)],
           split := Upgrading(v.SetFrontier(chain, Some(l.idx)), chain, stop, ret))
  }

  /** One iteration of the migration loop. */
  function LoopStep(c: Config, s: State, v: Locals): State {
    if v.first < 0 || v.first > 1 then s else
      var t: nat := v.first;
      var f := v.Frontier(t);
      if f.None? || v.cur.None? || f.value >= |s.next| || v.cur.value >= |s.next| then s else
        var l := s.next[v.cur.value];
        if l.End? then
          s.(next := s.next[f.value := End(c.Home(t), c.NewShift())],
             split := Upgrading(v, 1 - t, End(c.Home(1 - t), c.NewShift()), AfterTail))
        else if l.idx >= |c.keys| then s
        else
          var v' := v.(cur := Some(l.idx));
          if c.Target(l.idx) == t then
            s.(next := s.next[f.value := Next(l.idx, c.NewShift(), false)],
               split := Upgrading(v'.SetFrontier(t, Some(l.idx)), 1 - t, l, AfterSkip))
          else
            s.(split := Looping(v'))
  }

  function SplitStep(c: Config, s: State): State {
    match s.split
    case Locking =>
      if s.zeroHead.Next? && s.zeroHead.locked then s
      else s.(zeroHead := Lock(s.zeroHead), split := StartScan(Lock(s.zeroHead)))
    case Scanning(saved, at, v) => s.(split := ScanStep(c, s, saved, at, v))
    case StoringOneHead(saved, v) =>
      s.(oneHead := Lock(NewLinkTo(c, v.one, 1)), split := CasingZeroHead(saved, v))
    case CasingZeroHead(saved, v) => CasStep(c, s, saved, v)
    case Upgrading(v, chain, stop, ret) => UpgradeStep(c, s, v, chain, stop, ret)
    case Looping(v) => LoopStep(c, s, v)
    case UnlockingOne(v) =>
      s.(oneHead := if v.holdsOne then Unlock(s.oneHead) else s.oneHead, split := UnlockingZero(v))
    case UnlockingZero(v) =>
      s.(zeroHead := if v.holdsZero then Unlock(s.zeroHead) else s.zeroHead, split := Done)
    case Done => s
  }

  /** Whether both heads carry the new shift, which redirects inserts and lookups. */
  predicate Switched(s: State) {
    s.split.Upgrading? || s.split.Looping? || s.split.UnlockingOne? || s.split.UnlockingZero? || s.split.Done?
  }

  // ---------------------------------------------------------------------------------
  // Steps of an inserting thread
  // ---------------------------------------------------------------------------------

  predicate SlotInUse(s: State, x: nat) {
    x in s.log || exists j :: 0 <= j < |s.inserters| && s.inserters[j] != Idle && s.inserters[j].idx == x
  }

  /** A new insert, having found slot x. It may start from an out-of-date table length. */
  function BeginInsert(c: Config, s: State, i: nat, x: nat, useNew: bool): State {
    if i < |s.inserters| && s.inserters[i].Idle? && x < |s.next| && x < |c.keys| && !SlotInUse(s, x)
       && c.OnChain(c.keys[x].hash)
    then
      if useNew && Switched(s) then
        s.(inserters := s.inserters[i := Ready(x, c.Home(c.Target(x)), c.NewShift())])
      else
        s.(inserters := s.inserters[i := Ready(x, c.oldHome, c.oldShift)])
    else s
  }

  function HeadAt(c: Config, s: State, home: nat): Link {
    if home == c.oldHome then s.zeroHead else s.oneHead
  }

  function SetHeadAt(c: Config, s: State, home: nat, l: Link): State {
    if home == c.oldHome then s.(zeroHead := l) else s.(oneHead := l)
  }

  /** One access of the retry loop at the end of DoInsert; `spurious` is a weak CAS failing for no reason. */
  function InsertStep(c: Config, s: State, i: nat, spurious: bool): State {
    if i >= |s.inserters| then s else
      match s.inserters[i]
      case Idle => s
      case Ready(x, home, shift) =>
        var l := HeadAt(c, s, home);
        if l.shift > shift && x < |c.keys| then
          // Pull out one more hash bit and retry.
          s.(inserters := s.inserters[i := Ready(x, home + BitValue(c.keys[x].hash, shift), shift + 1)])
        else
          s.(inserters := s.inserters[i := Loaded(x, home, shift, l)])
      case Loaded(x, home, shift, l) =>
        if x < |s.next| then
          s.(next := s.next[x := Unlock(l)], inserters := s.inserters[i := Linked(x, home, shift, l)])
        else s
      case Linked(x, home, shift, l) =>
        if !spurious && HeadAt(c, s, home) == l then
          var s1 := SetHeadAt(c, s, home, Next(x, shift, l.Next? && l.locked));
          s1.(log := [x] + s.log, inserters := s.inserters[i := Idle])
        else
          s.(inserters := s.inserters[i := Ready(x, home, shift)])
  }

  // ---------------------------------------------------------------------------------
  // Steps of the looking-up thread
  // ---------------------------------------------------------------------------------

  function BeginLookup(c: Config, s: State, key: HashedKey, useNew: bool): State {
    if !c.OnChain(key.hash) then s
    else if useNew && Switched(s) then
      s.(lookup := Walking(key, c.Home(c.TargetOf(key.hash)), c.NewShift(), None, None, s.log))
    else
      s.(lookup := Walking(key, c.oldHome, c.oldShift, None, None, s.log))
  }

  /**
   What the full Lookup loop does with the head or chain pointer l it has read: decide whether
   its shift is usable, and follow it, back up to the last held entry, or start again with one
   more hash bit. An entry under destruction is skipped whatever its home.
   */
  function Follow(c: Config, condemned: set<nat>, w: Lookup, l: Link): Lookup
    requires w.Walking?
  {
    if l.shift > w.shift then
      if w.at == w.held then
        w.(shift := w.shift + 1, home := BottomBits(w.key.hash, w.shift + 1), at := None, held := None)
      else
        w.(at := w.held)
    else
      var effectiveHome := if l.shift < w.shift then BottomBits(w.home, l.shift) else w.home;
      if l.End? then
        if l.home == effectiveHome then NotFound(w.key, w.since) else w.(at := w.held)
      else if l.idx >= |c.keys| then w
      else
        var y := l.idx;
        if y in condemned then
          w.(at := Some(y))
        else if c.keys[y] == w.key then
          Found(w.key, y)
        else if BottomBits(c.keys[y].hash, l.shift) == effectiveHome then
          if l.shift != w.shift && BottomBits(c.keys[y].hash, w.shift) != w.home then
            w.(at := Some(y))
          else
            w.(at := Some(y), held := Some(y))
        else
          w.(at := w.held)
  }

  /** One iteration of the full Lookup loop. */
  function LookupStep(c: Config, s: State): State {
    if !s.lookup.Walking? then s else
      var w := s.lookup;
      if w.at.Some? && w.at.value >= |s.next| then s else
        var l := if w.at.Some? then s.next[w.at.value] else HeadAt(c, s, w.home);
        s.(lookup := Follow(c, s.condemned, w, l))
  }

  // ---------------------------------------------------------------------------------
  // Runs
  // ---------------------------------------------------------------------------------

  datatype Action =
    | Split
    | Begin(i: nat, x: nat, useNew: bool)
    | Insert(i: nat, spurious: bool)
    | StartLookup(key: HashedKey, useNewLength: bool)
    | Walk
    | Condemn(x: nat)

  function Apply(c: Config, s: State, a: Action): State {
    match a
    case Split => SplitStep(c, s)
    case Begin(i, x, useNew) => BeginInsert(c, s, i, x, useNew)
    case Insert(i, spurious) => InsertStep(c, s, i, spurious)
    case StartLookup(key, useNew) => BeginLookup(c, s, key, useNew)
    case Walk => LookupStep(c, s)
    case Condemn(x) => s.(condemned := s.condemned + {x})
  }

  function Run(c: Config, s: State, acts: seq<Action>): State {
    if acts == [] then s else Apply(c, Run(c, s, acts[..|acts| - 1]), acts[|acts| - 1])
  }

  /** The pointer that leads to q[i] on the chain as it was before the split. */
  function OldLink(c: Config, q: seq<nat>, i: nat): Link {
    if i < |q| then Next(q[i], c.oldShift, false) else End(c.oldHome, c.oldShift)
  }

  ghost predicate ConfigOk(c: Config) {
    c.oldShift > 0 && c.oldHome < Pow2(c.oldShift)
  }

  ghost predicate LogOk(c: Config, next: seq<Link>, log: seq<nat>) {
    && |next| == |c.keys|
    && Distinct(log)
    && (forall i :: 0 <= i < |log| ==> log[i] < |c.keys| && c.OnChain(c.keys[log[i]].hash))
  }

  ghost predicate OldChain(c: Config, head: Link, next: seq<Link>, log: seq<nat>) {
    && Unlock(head) == OldLink(c, log, 0)
    && (forall i :: 0 <= i < |log| ==> log[i] < |next|)
    && (forall i {:trigger next[log[i]]} :: 0 <= i < |log| ==> next[log[i]] == OldLink(c, log, i + 1))
  }

  /** Any chain at oldHome, of any length, about to be split; any number of idle threads. */
  ghost predicate Init(c: Config, s: State) {
    && ConfigOk(c)
    && LogOk(c, s.next, s.log)
    && OldChain(c, s.zeroHead, s.next, s.log)
    && s.zeroHead == Unlock(s.zeroHead)
    && s.oneHead == UNUSED
    && s.split == Locking
    && (forall i :: 0 <= i < |s.inserters| ==> s.inserters[i] == Idle)
    && s.lookup == NotStarted
  }
}
