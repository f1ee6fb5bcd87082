/**
 All chains of the auto-growing table at one table length, with lookups. The chains share one array
 of slots: a slot emptied after its entry was cut out of one chain may be claimed by an insert into
 any other, so a lookup that stands on a slot without holding a reference may be led astray. Every
 pointer access, and every look at a slot that takes a reference, is one step. Nothing stops an
 entry from being destroyed while a lookup holds a reference on it, which allows more than the code.
 */
module ChainTable {
  import opened Options
  import opened ChainPurge

  /** A hashed key, with the home that its hash gives it. */
  datatype Key = Key(home: nat, id: nat)

  /** One chain: what ChainPurge has besides the pointers. */
  datatype Home = Home(head: Head, log: seq<nat>, condemned: set<nat>, inserters: seq<Inserter>, purgers: seq<Purger>)

  /**
   A lookup: `at` is the slot whose pointer is read next (None for the head), `held` the last slot on
   the chain with a read reference. `wanted` is what the lookup must not miss: the matching entries
   that were linked and visible when it began and have been neither hidden nor condemned since.
   */
  datatype Lookup =
    | NotStarted
    | Reading(key: Key, at: Option<nat>, held: Option<nat>, wanted: set<nat>)
    | Matching(key: Key, slot: nat, held: Option<nat>, wanted: set<nat>)
    | Found(key: Key, slot: nat)
    | NotFound(key: Key, wanted: set<nat>)

  /** keys holds what was last written to each slot; hidden are the slots whose entry was made invisible. */
  datatype Table = Table(homes: seq<Home>, next: map<nat, Ptr>, keys: map<nat, Key>, hidden: set<nat>, lookups: seq<Lookup>)

  /** One chain with the shared pointers. */
  function View(t: Table, k: nat): State
    requires k < |t.homes|
  {
    var h := t.homes[k];
    State(k, h.head, t.next, h.log, h.condemned, h.inserters, h.purgers)
  }

  function Put(t: Table, k: nat, s: State): Table
    requires k < |t.homes|
  {
    t.(homes := t.homes[k := Home(s.head, s.log, s.condemned, s.inserters, s.purgers)], next := s.next)
  }

  predicate InUse(t: Table, e: nat) {
    exists k :: 0 <= k < |t.homes| && Taken(View(t, k), e)
  }

  function Lose(l: Lookup, gone: set<nat>): Lookup {
    match l
    case Reading(key, at, held, wanted) => Reading(key, at, held, wanted - gone)
    case Matching(key, slot, held, wanted) => Matching(key, slot, held, wanted - gone)
    case _ => l
  }

  function LoseAll(lookups: seq<Lookup>, gone: set<nat>): seq<Lookup> {
    seq(|lookups|, j requires 0 <= j < |lookups| => Lose(lookups[j], gone))
  }

  /** A step of an insert or a removal on chain k; an insert claims a slot that is free everywhere and writes its key. */
  function ChainStep(t: Table, k: nat, a: ChainPurge.Action, key: Key): Table
    requires k < |t.homes|
  {
    var s := View(t, k);
    if a.Insert? && a.i < |s.inserters| && s.inserters[a.i].Resting? then
      if InUse(t, a.entry) || key.home != k then t
      else Put(t, k, ChainPurge.Apply(s, a)).(keys := t.keys[a.entry := key], hidden := t.hidden - {a.entry})
    else
      var s' := ChainPurge.Apply(s, a);
      Put(t, k, s').(lookups := LoseAll(t.lookups, s'.condemned - s.condemned))
  }

  predicate Linked(t: Table, e: nat) {
    exists k :: 0 <= k < |t.homes| && e in t.homes[k].log && e !in t.homes[k].condemned
  }

  function Wanted(t: Table, key: Key): set<nat>
    requires key.home < |t.homes|
  {
    var h := t.homes[key.home];
    set e | e in h.log && e !in h.condemned && e !in t.hidden && e in t.keys && t.keys[e] == key
  }

  /** Read the head or a slot's pointer: follow it, finish at the end marker of the right home, or go back. */
  function ReadStep(t: Table, l: Lookup): Lookup
    requires l.Reading? && l.key.home < |t.homes|
  {
    if l.at.Some? && l.at.value !in t.next then l
    else
      var ptr := if l.at.Some? then t.next[l.at.value] else t.homes[l.key.home].head.ptr;
      match ptr
      case To(y) => Matching(l.key, y, l.held, l.wanted)
      case End(k) => if k == l.key.home then NotFound(l.key, l.wanted) else Reading(l.key, l.held, l.held, l.wanted)
  }

  /**
   Try to reference the slot. A slot that cannot be referenced is skipped; `published` decides that
   for a slot claimed by an insert that has not linked it yet.
   */
  function MatchStep(t: Table, l: Lookup, published: bool): Lookup
    requires l.Matching?
  {
    var y := l.slot;
    if !(Linked(t, y) || (published && InUse(t, y) && !Condemned(t, y))) then Reading(l.key, Some(y), l.held, l.wanted)
    else if y in t.keys && t.keys[y] == l.key && y !in t.hidden then Found(l.key, y)
    else if y in t.keys && t.keys[y].home == l.key.home then Reading(l.key, Some(y), Some(y), l.wanted)
    else Reading(l.key, l.held, l.held, l.wanted)
  }

  predicate Condemned(t: Table, e: nat) {
    exists k :: 0 <= k < |t.homes| && e in t.homes[k].condemned
  }

  datatype Action =
    | OnChain(k: nat, step: ChainPurge.Action, key: Key)
    | Hide(entry: nat)
    | StartLookup(j: nat, key: Key)
    | Look(j: nat, published: bool)

  function Apply(t: Table, a: Action): Table {
    match a
    case OnChain(k, step, key) => if k < |t.homes| then ChainStep(t, k, step, key) else t
    case Hide(e) => t.(hidden := t.hidden + {e}, lookups := LoseAll(t.lookups, {e}))
    case StartLookup(j, key) =>
      if j < |t.lookups| && key.home < |t.homes| then
        t.(lookups := t.lookups[j := Reading(key, None, None, Wanted(t, key))])
      else t
    case Look(j, published) =>
      if j >= |t.lookups| then t else
        match t.lookups[j]
        case Reading(key, _, _, _) =>
          if key.home < |t.homes| then t.(lookups := t.lookups[j := ReadStep(t, t.lookups[j])]) else t
        case Matching(_, _, _, _) => t.(lookups := t.lookups[j := MatchStep(t, t.lookups[j], published)])
        case _ => t
  }

  function Run(t: Table, acts: seq<Action>): Table {
    if acts == [] then t else Apply(Run(t, acts[..|acts| - 1]), acts[|acts| - 1])
  }

  /** Any number of empty chains, and no lookup under way. */
  predicate Init(t: Table) {
    && (forall k :: 0 <= k < |t.homes| ==> ChainPurge.Init(View(t, k)))
    && (forall j :: 0 <= j < |t.lookups| ==> t.lookups[j] == NotStarted)
  }
}
