/**
 Removing entries from a chain of the auto-growing table. Threads compete for the chain's rewrite
 lock, a bit in the head pointer; the holder walks the chain and cuts out the entries that are
 being destroyed, while any number of inserts keep prepending entries at the head and any entry
 may start to be destroyed at any time. Entries are named by the slot they occupy. The thread that
 destroys an entry empties its slot once its own walk is over; the slot can then be used again, in
 this chain or in another. Each step is one atomic access to a pointer.
 */
module ChainPurge {
  import opened Lists
  import opened Options

  /** A pointer to a slot, or the end marker of the chain at some home. */
  datatype Ptr = End(home: nat) | To(entry: nat)

  /** A head pointer with its lock bit; an end marker carries no lock. */
  datatype Head = Head(ptr: Ptr, locked: bool)

  datatype Inserter =
    | Resting
    | Claimed(entry: nat)
    | Loaded(entry: nat, seen: Head)
    | Stored(entry: nat, seen: Head)

  datatype Phase = Examining | Stitching | ReadingNext | Finished

  /**
   The state of a walk: `ptr` leads to the entry at hand, `prev` is the last entry to keep, `pending`
   says that entries between the two must be cut out. `owned` lists the entries this thread is
   destroying: the one it came to remove and those it evicts on the way. `condemnedBefore` remembers
   which entries were being destroyed when the walk began and have not been emptied since.
   */
  datatype Walk = Walk(
    phase: Phase,
    ptr: Ptr,
    prev: Option<nat>,
    pending: bool,
    saved: Head,
    clock: bool,
    owned: seq<nat>,
    condemnedBefore: set<nat>)

  datatype Purger =
    | Absent
    | Acquiring(clock: bool, owned: seq<nat>)
    | Walking(walk: Walk)
    | Freeing(owned: seq<nat>)

  /** log lists all linked entries whose slots are not empty yet, newest first; condemned holds those being destroyed. */
  datatype State = State(
    home: nat,
    head: Head,
    next: map<nat, Ptr>,
    log: seq<nat>,
    condemned: set<nat>,
    inserters: seq<Inserter>,
    purgers: seq<Purger>)

  // Inserts.

  predicate Taken(s: State, e: nat) {
    || e in s.log
    || exists i :: 0 <= i < |s.inserters| && !s.inserters[i].Resting? && s.inserters[i].entry == e
  }

  /** One access of an insert: claim a slot, load the head, store the slot's pointer, swing the head. */
  function InsertStep(s: State, i: nat, e: nat, lucky: bool): State
    requires i < |s.inserters|
  {
    match s.inserters[i]
    case Resting => if Taken(s, e) then s else s.(inserters := s.inserters[i := Claimed(e)])
    case Claimed(x) => s.(inserters := s.inserters[i := Loaded(x, s.head)])
    case Loaded(x, seen) =>
      s.(next := s.next[x := seen.ptr], inserters := s.inserters[i := Stored(x, seen)])
    case Stored(x, seen) =>
      if lucky && s.head == seen then
        s.(head := Head(To(x), seen.locked), log := [x] + s.log, inserters := s.inserters[i := Resting])
      else s.(inserters := s.inserters[i := Claimed(x)])
  }

  // The rewrite lock and the walk.

  function Lock(h: Head): Head {
    if h.ptr.End? then h else h.(locked := true)
  }

  /** Or-in the lock bit: taken unless the bit was set already; an empty chain needs no lock. */
  function AcquireStep(s: State, p: nat, clock: bool, owned: seq<nat>): State
    requires p < |s.purgers|
  {
    if s.head.locked then s
    else if s.head.ptr.End? then s.(purgers := s.purgers[p := Freeing(owned)])
    else
      var walk := Walk(Examining, s.head.ptr, None, false, Lock(s.head), clock, owned, s.condemned);
      s.(head := Lock(s.head), purgers := s.purgers[p := Walking(walk)])
  }

  /** Look at the entry at hand; a clock-updating walk may condemn it. */
  function Examine(s: State, w: Walk, evict: bool): (set<nat>, Walk) {
    match w.ptr
    case End(_) => (s.condemned, w.(phase := if w.pending then Stitching else Finished))
    case To(e) =>
      var evicting := w.clock && evict && e !in s.condemned;
      if evicting then
        (s.condemned + {e}, w.(owned := w.owned + [e], pending := true, phase := ReadingNext))
      else if e in s.condemned then (s.condemned, w.(pending := true, phase := ReadingNext))
      else if w.pending then (s.condemned, w.(phase := Stitching))
      else (s.condemned, w.(prev := Some(e), phase := ReadingNext))
  }

  /** After the entries up to the one at hand have been cut out. */
  function Stitched(w: Walk): Walk {
    match w.ptr
    case End(_) => w.(pending := false, prev := None, phase := Finished)
    case To(e) => w.(pending := false, prev := Some(e), phase := ReadingNext)
  }

  function StitchStep(s: State, p: nat, w: Walk): State
    requires p < |s.purgers|
  {
    match w.prev
    case Some(e) => s.(next := s.next[e := w.ptr], purgers := s.purgers[p := Walking(Stitched(w))])
    case None =>
      if s.head == w.saved then
        var head := Lock(Head(w.ptr, false));
        s.(head := head, purgers := s.purgers[p := Walking(Stitched(w).(saved := head))])
      else
        var restart := w.(saved := s.head, ptr := s.head.ptr, pending := false, phase := Examining);
        s.(purgers := s.purgers[p := Walking(restart)])
  }

  /** The slot is about to hold something else, which no earlier walk has to account for. */
  function Forget(p: Purger, e: nat): Purger {
    if p.Walking? then Walking(p.walk.(condemnedBefore := p.walk.condemnedBefore - {e})) else p
  }

  /** Empty the slots this thread took out of use, one by one. */
  function FreeStep(s: State, p: nat, owned: seq<nat>): State
    requires p < |s.purgers|
  {
    if owned == [] then s.(purgers := s.purgers[p := Absent])
    else
      var e := owned[0];
      var purgers := seq(|s.purgers|, q requires 0 <= q < |s.purgers| => Forget(s.purgers[q], e));
      s.(log := Drop(s.log, e), condemned := s.condemned - {e}, purgers := purgers[p := Freeing(owned[1..])])
  }

  function PurgeStep(s: State, p: nat, evict: bool): State
    requires p < |s.purgers|
  {
    match s.purgers[p]
    case Absent => s
    case Acquiring(clock, owned) => AcquireStep(s, p, clock, owned)
    case Freeing(owned) => FreeStep(s, p, owned)
    case Walking(w) =>
      match w.phase
      case Examining =>
        var (condemned, w') := Examine(s, w, evict);
        s.(condemned := condemned, purgers := s.purgers[p := Walking(w')])
      case Stitching => StitchStep(s, p, w)
      case ReadingNext =>
        if w.ptr.To? && w.ptr.entry in s.next then
          s.(purgers := s.purgers[p := Walking(w.(ptr := s.next[w.ptr.entry], phase := Examining))])
        else s
      case Finished =>
        if w.saved.ptr.End? then s.(purgers := s.purgers[p := Freeing(w.owned)])
        else s.(head := s.head.(locked := false), purgers := s.purgers[p := Freeing(w.owned)])
  }

  datatype Action =
    | Insert(i: nat, entry: nat, lucky: bool)
    | BeginPurge(p: nat, clock: bool)
    | Purge(p: nat, evict: bool)
    | BeginRemove(p: nat, entry: nat)

  function Apply(s: State, a: Action): State {
    match a
    case Insert(i, e, lucky) => if i < |s.inserters| then InsertStep(s, i, e, lucky) else s
    case BeginPurge(p, clock) =>
      if p < |s.purgers| && s.purgers[p].Absent? then s.(purgers := s.purgers[p := Acquiring(clock, [])]) else s
    case Purge(p, evict) => if p < |s.purgers| then PurgeStep(s, p, evict) else s
    case BeginRemove(p, e) =>
      if p < |s.purgers| && s.purgers[p].Absent? && e in s.log && e !in s.condemned then
        s.(condemned := s.condemned + {e}, purgers := s.purgers[p := Acquiring(false, [e])])
      else s
  }

  function Run(s: State, acts: seq<Action>): State {
    if acts == [] then s else Apply(Run(s, acts[..|acts| - 1]), acts[|acts| - 1])
  }

  /** An empty chain; longer chains arise from inserts. */
  predicate Init(s: State) {
    && s.head == Head(End(s.home), false) && s.log == [] && s.condemned == {}
    && (forall i :: 0 <= i < |s.inserters| ==> s.inserters[i] == Resting)
    && (forall p :: 0 <= p < |s.purgers| ==> s.purgers[p] == Absent)
  }

  /** The thread that owns the rewrite lock. */
  predicate Holds(p: Purger) {
    p.Walking? && p.walk.saved.ptr.To?
  }

  /** Following the pointers from p visits exactly the entries of c, and then arrives at q. */
  predicate Leads(p: Ptr, next: map<nat, Ptr>, c: seq<nat>, q: Ptr)
    decreases |c|
  {
    if c == [] then p == q
    else p == To(c[0]) && c[0] in next && Leads(next[c[0]], next, c[1..], q)
  }
}
