/**
 CLOCK eviction without interference: what repeated visits do to one entry, and the sweep of the
 auto-growing table over its chains.
 */
module ClockEviction {
  import opened Options
  import opened Words
  import opened MetaWord
  import Bits
  import SlotProtocol

  // One entry.

  /** One undisturbed visit of the clock: the new word, or None if the visit evicts the entry. */
  function Visit(w: Word): Option<Word> {
    var (slot, agent) := SlotProtocol.ClockStep(SlotProtocol.Slot(w, [], []), w, true);
    if agent.Freeing? then None else Some(slot.meta)
  }

  function Visits(w: Word, k: nat): Option<Word> {
    if k == 0 then Some(w) else
      match Visit(w)
      case None => None
      case Some(w') => Visits(w', k - 1)
  }

  predicate Referenced(w: Word) {
    Acquires(w) != Releases(w)
  }

  /** The number of the visit that evicts an unreferenced entry. */
  function Lifetime(w: Word): nat {
    if Marker(w) == VISIBLE then (if Acquires(w) < MAX_COUNTDOWN then Acquires(w) else MAX_COUNTDOWN) + 1 else 1
  }

  lemma VisitReferenced(w: Word)
    requires Shareable(w) && Referenced(w)
    ensures Visit(w) == Some(w)
  {
  }

  lemma VisitUnreferenced(w: Word)
    requires Shareable(w) && !Referenced(w)
    ensures Lifetime(w) == 1 <==> Visit(w).None?
    ensures Visit(w).Some? ==>
              var w' := Visit(w).value; Shareable(w') && !Referenced(w') && Lifetime(w') == Lifetime(w) - 1
  {
    hide Acquires, Releases, Marker, Hit, Make;
    if Marker(w) == VISIBLE && Acquires(w) > 0 {
      var n := if Acquires(w) - 1 < MAX_COUNTDOWN - 1 then Acquires(w) - 1 else MAX_COUNTDOWN - 1;
      FieldsOfMake(n, n, Hit(w), VISIBLE);
    }
  }

  /** References protect: however often the clock comes by, a referenced entry stays as it is. */
  lemma {:induction false} ReferencedIsNeverEvicted(w: Word, k: nat)
    requires Shareable(w) && Referenced(w)
    ensures Visits(w, k) == Some(w)
  {
    hide Visit;
    if k > 0 {
      VisitReferenced(w);
      ReferencedIsNeverEvicted(w, k - 1);
    }
  }

  /** An unreferenced entry is evicted by exactly one visit, at the latest by number kMaxCountdown + 1. */
  lemma {:induction false} UnreferencedIsEvicted(w: Word, k: nat)
    requires Shareable(w) && !Referenced(w)
    ensures Visits(w, k).None? <==> k >= Lifetime(w)
    ensures 1 <= Lifetime(w) <= MAX_COUNTDOWN + 1
    decreases k
  {
    hide Visit, Lifetime;
    assert 1 <= Lifetime(w) <= MAX_COUNTDOWN + 1 by { LifetimeBounds(w); }
    if k > 0 {
      VisitUnreferenced(w);
      if Visit(w).Some? { UnreferencedIsEvicted(Visit(w).value, k - 1); }
    }
  }

  /** Left alone after its insertion, an entry survives as many visits as its priority gives it countdown. */
  lemma PriorityDecidesLifetime(p: SlotProtocol.Priority, k: nat)
    ensures var n := SlotProtocol.InitialCountdown(p);
            Visits(Make(n, n, 0, VISIBLE), k).None? <==> k > match p case High => 3 case Low => 2 case Bottom => 1
  {
    hide Make, Visits, Marker, Acquires, Releases;
    var n := SlotProtocol.InitialCountdown(p);
    var w := Make(n, n, 0, VISIBLE);
    FieldsOfMake(n, n, 0, VISIBLE);
    UnreferencedIsEvicted(w, k);
  }

  lemma LifetimeBounds(w: Word)
    ensures 1 <= Lifetime(w) <= MAX_COUNTDOWN + 1
  {
  }

  // One chain.

  datatype Entry = Entry(charge: nat, word: Word)

  /** A visit to every entry of a chain, cutting out those it evicts. */
  function Purge(chain: seq<Entry>): seq<Entry> {
    if chain == [] then [] else
      (match Visit(chain[0].word) case None => [] case Some(w) => [Entry(chain[0].charge, w)]) + Purge(chain[1..])
  }

  function TotalCharge(chain: seq<Entry>): nat {
    if chain == [] then 0 else chain[0].charge + TotalCharge(chain[1..])
  }

  /** Entries that are referenced. */
  function Pinned(chain: seq<Entry>): nat {
    if chain == [] then 0 else (if Referenced(chain[0].word) then 1 else 0) + Pinned(chain[1..])
  }

  /** What is left of one entry after k visits. */
  function After(e: Entry, k: nat): seq<Entry> {
    match Visits(e.word, k)
    case None => []
    case Some(w) => [Entry(e.charge, w)]
  }

  function AfterAll(chain: seq<Entry>, k: nat): seq<Entry> {
    if chain == [] then [] else After(chain[0], k) + AfterAll(chain[1..], k)
  }

  lemma {:induction false} PurgeConcat(s: seq<Entry>, t: seq<Entry>)
    ensures Purge(s + t) == Purge(s) + Purge(t)
  {
    if s == [] {
      assert s + t == t;
    } else {
      assert (s + t)[1..] == s[1..] + t;
      PurgeConcat(s[1..], t);
    }
  }

  lemma {:induction false} VisitsLast(w: Word, k: nat)
    ensures Visits(w, k + 1) == match Visits(w, k) case None => None case Some(w') => Visit(w')
    decreases k
  {
    hide Visit;
    if k > 0 && Visit(w).Some? { VisitsLast(Visit(w).value, k - 1); }
  }

  lemma PurgeAfter(e: Entry, k: nat)
    ensures Purge(After(e, k)) == After(e, k + 1)
  {
    VisitsLast(e.word, k);
  }

  lemma {:induction false} PurgeAfterAll(chain: seq<Entry>, k: nat)
    ensures Purge(AfterAll(chain, k)) == AfterAll(chain, k + 1)
  {
    hide After, Purge;
    if chain == [] {
      PurgeNothing();
    } else {
      PurgeConcat(After(chain[0], k), AfterAll(chain[1..], k));
      PurgeAfter(chain[0], k);
      PurgeAfterAll(chain[1..], k);
    }
  }

  lemma PurgeNothing()
    ensures Purge([]) == []
  {
  }

  lemma {:induction false} AfterNone(chain: seq<Entry>)
    ensures AfterAll(chain, 0) == chain
  {
    if chain != [] { AfterNone(chain[1..]); }
  }

  predicate AllShareable(chain: seq<Entry>) {
    forall e :: e in chain ==> Shareable(e.word)
  }

  /** The referenced entries of a chain, in order. */
  function PinnedEntries(chain: seq<Entry>): seq<Entry> {
    if chain == [] then [] else (if Referenced(chain[0].word) then [chain[0]] else []) + PinnedEntries(chain[1..])
  }

  /** Enough purges leave exactly the referenced entries, untouched and in order. */
  lemma {:induction false} PurgedToPinned(chain: seq<Entry>, k: nat)
    requires AllShareable(chain) && k > MAX_COUNTDOWN
    ensures AfterAll(chain, k) == PinnedEntries(chain)
  {
    if chain != [] {
      var e := chain[0];
      if Referenced(e.word) { ReferencedIsNeverEvicted(e.word, k); } else { UnreferencedIsEvicted(e.word, k); }
      PurgedToPinned(chain[1..], k);
    }
  }

  // The sweep.

  const STEP: nat := 4

  datatype EvictionData = EvictionData(freedCharge: nat, freedCount: nat, seenPinned: nat)

  /** Too little freed for the pinned entries seen. */
  predicate EffortExceeded(d: EvictionData, cap: nat) {
    (d.freedCount + 1) * cap <= d.seenPinned
  }

  lemma TotalOne(e: Entry)
    ensures TotalCharge([e]) == e.charge
  {
    assert [e][1..] == [];
  }

  lemma {:induction false} TotalConcat(s: seq<Entry>, t: seq<Entry>)
    ensures TotalCharge(s + t) == TotalCharge(s) + TotalCharge(t)
  {
    if s == [] {
      assert s + t == t;
    } else {
      assert (s + t)[1..] == s[1..] + t;
      TotalConcat(s[1..], t);
    }
  }

  /** Visit the entries of one chain, keeping those that survive. */
  method PurgeChain(chain: seq<Entry>, data: EvictionData) returns (kept: seq<Entry>, d: EvictionData)
    requires AllShareable(chain)
    ensures kept == Purge(chain)
    ensures d.freedCharge == data.freedCharge + (TotalCharge(chain) - TotalCharge(kept))
    ensures d.freedCount == data.freedCount + (|chain| - |kept|)
    ensures d.seenPinned == data.seenPinned + Pinned(chain)
  {
    hide Visit, Purge, TotalCharge, Pinned, Shareable, Referenced;
    kept, d := [], data;
    assert chain[..0] == [];
    PurgeNothing();
    NoTotals();
    for i := 0 to |chain|
      invariant kept == Purge(chain[..i])
      invariant d.freedCharge == data.freedCharge + (TotalCharge(chain[..i]) - TotalCharge(kept))
      invariant d.freedCount == data.freedCount + (i - |kept|)
      invariant d.seenPinned == data.seenPinned + Pinned(chain[..i])
    {
      var e := chain[i];
      assert chain[..i + 1] == chain[..i] + [e];
      ExtendPurge(chain[..i], e);
      if Referenced(e.word) {
        d := d.(seenPinned := d.seenPinned + 1);
      }
      var after := Visit(e.word);
      if after.None? {
        d := d.(freedCharge := d.freedCharge + e.charge, freedCount := d.freedCount + 1);
      } else {
        TotalConcat(kept, [Entry(e.charge, after.value)]);
        TotalOne(Entry(e.charge, after.value));
        kept := kept + [Entry(e.charge, after.value)];
      }
    }
    assert chain[..|chain|] == chain;
  }

  lemma NoTotals()
    ensures TotalCharge([]) == 0 && Pinned([]) == 0
  {
  }

  lemma ExtendPurge(s: seq<Entry>, e: Entry)
    ensures Purge(s + [e]) == Purge(s) + (match Visit(e.word) case None => [] case Some(w) => [Entry(e.charge, w)])
    ensures TotalCharge(s + [e]) == TotalCharge(s) + e.charge
    ensures Pinned(s + [e]) == Pinned(s) + (if Referenced(e.word) then 1 else 0)
  {
    hide Visit, Referenced;
    PurgeConcat(s, [e]);
    assert [e][1..] == [];
    TotalConcat(s, [e]);
    PinnedConcat(s, [e]);
  }

  lemma {:induction false} PinnedConcat(s: seq<Entry>, t: seq<Entry>)
    ensures Pinned(s + t) == Pinned(s) + Pinned(t)
  {
    hide Referenced;
    if s == [] {
      assert s + t == t;
    } else {
      assert (s + t)[1..] == s[1..] + t;
      PinnedConcat(s[1..], t);
    }
  }

  /** The group of homes a step of the sweep covers together: their position modulo the major part, by fours. */
  function Group(major: nat, home: nat): nat {
    (if home < major then home else home - major) / STEP
  }

  lemma {:induction false} OnePurgeKeepsShareable(chain: seq<Entry>)
    requires AllShareable(chain)
    ensures AllShareable(Purge(chain)) && Pinned(Purge(chain)) == Pinned(chain)
  {
    hide Visit, Shareable, Referenced;
    if chain != [] {
      OnePurgeKeepsShareable(chain[1..]);
      var w := chain[0].word;
      assert Shareable(w);
      if Referenced(w) { VisitReferenced(w); } else { VisitUnreferenced(w); }
      PinnedConcat(match Visit(w) case None => [] case Some(w') => [Entry(chain[0].charge, w')], Purge(chain[1..]));
    }
  }

  /** Visits do not change which entries are referenced. */
  lemma {:induction false} VisitsKeepPinned(chain: seq<Entry>, k: nat)
    requires AllShareable(chain)
    ensures AllShareable(AfterAll(chain, k)) && Pinned(AfterAll(chain, k)) == Pinned(chain)
  {
    hide Purge, AfterAll, Pinned, AllShareable;
    if k == 0 {
      AfterNone(chain);
    } else {
      VisitsKeepPinned(chain, k - 1);
      PurgeAfterAll(chain, k - 1);
      OnePurgeKeepsShareable(AfterAll(chain, k - 1));
    }
  }

  // What a number of visits to each home amounts to.

  lemma {:induction false} AfterShrinks(chain: seq<Entry>, k: nat)
    ensures TotalCharge(AfterAll(chain, k)) <= TotalCharge(chain) && |AfterAll(chain, k)| <= |chain|
  {
    hide After;
    if chain != [] {
      AfterShrinks(chain[1..], k);
      TotalConcat(After(chain[0], k), AfterAll(chain[1..], k));
      AfterOne(chain[0], k);
    }
  }

  lemma AfterOne(e: Entry, k: nat)
    ensures TotalCharge(After(e, k)) <= e.charge && |After(e, k)| <= 1
  {
    hide Visits;
    if Visits(e.word, k).Some? { TotalOne(Entry(e.charge, Visits(e.word, k).value)); }
  }

  function Plus(d: EvictionData, e: EvictionData): EvictionData {
    EvictionData(d.freedCharge + e.freedCharge, d.freedCount + e.freedCount, d.seenPinned + e.seenPinned)
  }

  /** k visits to a chain: the charge and the entries that are gone, and k sightings of each referenced entry. */
  function ChainTally(chain: seq<Entry>, k: nat): EvictionData {
    AfterShrinks(chain, k);
    EvictionData(TotalCharge(chain) - TotalCharge(AfterAll(chain, k)), |chain| - |AfterAll(chain, k)|, k * Pinned(chain))
  }

  /** visits[h] visits to each home h. */
  function Tally(homes: seq<seq<Entry>>, visits: seq<nat>): EvictionData
    requires |homes| == |visits|
  {
    if homes == [] then EvictionData(0, 0, 0)
    else Plus(ChainTally(homes[0], visits[0]), Tally(homes[1..], visits[1..]))
  }

  lemma {:induction false} TallyUpdate(homes: seq<seq<Entry>>, visits: seq<nat>, h: nat, k: nat)
    requires |homes| == |visits| && h < |homes|
    ensures Plus(Tally(homes, visits[h := k]), ChainTally(homes[h], visits[h])) == Plus(Tally(homes, visits), ChainTally(homes[h], k))
  {
    hide ChainTally;
    if h == 0 {
      assert visits[h := k][1..] == visits[1..];
    } else {
      assert visits[h := k][1..] == visits[1..][h - 1 := k];
      TallyUpdate(homes[1..], visits[1..], h - 1, k);
    }
  }

  lemma {:induction false} TallyNone(homes: seq<seq<Entry>>, visits: seq<nat>)
    requires |homes| == |visits| && forall h :: 0 <= h < |visits| ==> visits[h] == 0
    ensures Tally(homes, visits) == EvictionData(0, 0, 0)
  {
    if homes != [] {
      AfterNone(homes[0]);
      TallyNone(homes[1..], visits[1..]);
    }
  }

  lemma MulNext(k: nat, n: nat)
    ensures (k + 1) * n == k * n + n && 0 * n == 0
  {
  }

  /** One more visit to home h, as PurgeChain counts it. */
  lemma TallyVisit(homes: seq<seq<Entry>>, visits: seq<nat>, h: nat, data: EvictionData, d: EvictionData)
    requires |homes| == |visits| && h < |homes| && AllShareable(homes[h]) && data == Tally(homes, visits)
    requires var chain := AfterAll(homes[h], visits[h]); var kept := Purge(chain);
             && d.freedCharge == data.freedCharge + (TotalCharge(chain) - TotalCharge(kept))
             && d.freedCount == data.freedCount + (|chain| - |kept|)
             && d.seenPinned == data.seenPinned + Pinned(chain)
    ensures Purge(AfterAll(homes[h], visits[h])) == AfterAll(homes[h], visits[h] + 1)
    ensures d == Tally(homes, visits[h := visits[h] + 1])
  {
    hide Purge, AfterAll, TotalCharge, Pinned, AllShareable, Tally;
    var c, k := homes[h], visits[h];
    PurgeAfterAll(c, k);
    VisitsKeepPinned(c, k);
    MulNext(k, Pinned(c));
    TallyUpdate(homes, visits, h, k + 1);
  }

  /** Each home has had its visits. */
  ghost predicate Swept(now: seq<seq<Entry>>, before: seq<seq<Entry>>, visits: seq<nat>) {
    && |now| == |before| == |visits|
    && forall h :: 0 <= h < |now| ==> now[h] == AfterAll(before[h], visits[h])
  }

  /** One visit more to each home of a group below `upto`. */
  function Visited(visits: seq<nat>, major: nat, group: nat, upto: nat): seq<nat> {
    seq(|visits|, h requires 0 <= h < |visits| => visits[h] + (if h < upto && Group(major, h) == group then 1 else 0))
  }

  lemma VisitedHome(visits: seq<nat>, major: nat, group: nat, home: nat)
    requires home < |visits| && Group(major, home) == group
    ensures Visited(visits, major, group, home + 1) == Visited(visits, major, group, home)[home := visits[home] + 1]
    ensures Visited(visits, major, group, home)[home] == visits[home]
  {
    hide Group;
  }

  lemma VisitedSkip(visits: seq<nat>, major: nat, group: nat, from: nat, to: nat)
    requires from <= to && forall h: nat :: h < |visits| && from <= h < to ==> Group(major, h) != group
    ensures Visited(visits, major, group, to) == Visited(visits, major, group, from)
  {
    hide Group;
  }

  lemma VisitedAll(visits: seq<nat>, major: nat, group: nat, upto: nat)
    requires upto >= |visits|
    ensures Visited(visits, major, group, upto) == Visited(visits, major, group, |visits|) && Visited(visits, major, group, 0) == visits
  {
    hide Group;
  }

  // Which homes n steps of the clock pointer visit.

  /** The group that a clock pointer stands for. */
  function GroupOf(major: nat, pointer: nat): nat
    requires major > 0
  {
    pointer % major / STEP
  }

  /** How often the first n steps from a clock pointer visit a home. */
  function Owed(major: nat, from: nat, n: nat, home: nat): nat
    requires major > 0
  {
    if n == 0 then 0
    else Owed(major, from, n - 1, home) + (if GroupOf(major, from + STEP * (n - 1)) == Group(major, home) then 1 else 0)
  }

  function VisitsOf(length: nat, major: nat, from: nat, n: nat): seq<nat>
    requires major > 0
  {
    seq(length, h requires 0 <= h < length => Owed(major, from, n, h))
  }

  lemma NextVisits(length: nat, major: nat, from: nat, n: nat)
    requires major > 0
    ensures VisitsOf(length, major, from, n + 1) ==
            Visited(VisitsOf(length, major, from, n), major, GroupOf(major, from + STEP * n), length)
  {
    hide Group, GroupOf;
  }

  /** How many of the numbers below m leave the remainder x. */
  function Turns(m: nat, x: nat, k: nat): nat
    requires k > 0
  {
    m / k + (if m % k > x then 1 else 0)
  }

  lemma NextTurn(m: nat, x: nat, k: nat)
    requires x < k
    ensures Turns(m + 1, x, k) == Turns(m, x, k) + (if m % k == x then 1 else 0)
  {
    var q, r := m / k, m % k;
    if r + 1 < k {
      Bits.DivModUnique(m + 1, k, q, r + 1);
    } else {
      assert m + 1 == (q + 1) * k + 0;
      Bits.DivModUnique(m + 1, k, q + 1, 0);
    }
  }

  lemma FullTurns(m: nat, x: nat, k: nat, passes: nat)
    requires x < k
    ensures Turns(m + passes * k, x, k) == Turns(m, x, k) + passes
  {
    var q, r := m / k, m % k;
    assert m + passes * k == (q + passes) * k + r;
    Bits.DivModUnique(m + passes * k, k, q + passes, r);
  }

  lemma PointerGroup(m: nat, k: nat)
    requires k > 0
    ensures GroupOf(STEP * k, STEP * m) == m % k
  {
    var q, r := m / k, m % k;
    assert STEP * m == q * (STEP * k) + STEP * r by { assert STEP * (q * k) == q * (STEP * k); }
    Bits.DivModUnique(STEP * m, STEP * k, q, STEP * r);
  }

  lemma GroupBelow(k: nat, home: nat)
    requires k > 0 && home < 2 * (STEP * k)
    ensures Group(STEP * k, home) < k
  {
  }

  lemma {:induction false} OwedIs(k: nat, f: nat, n: nat, home: nat)
    requires k > 0 && home < 2 * (STEP * k)
    ensures Owed(STEP * k, STEP * f, n, home) == Turns(f + n, Group(STEP * k, home), k) - Turns(f, Group(STEP * k, home), k)
  {
    hide Turns, Group, GroupOf;
    if n > 0 {
      GroupBelow(k, home);
      OwedIs(k, f, n - 1, home);
      assert STEP * f + STEP * (n - 1) == STEP * (f + n - 1);
      PointerGroup(f + n - 1, k);
      NextTurn(f + n - 1, Group(STEP * k, home), k);
    }
  }

  lemma {:induction false} OwedMonotone(major: nat, from: nat, n: nat, n': nat, home: nat)
    requires major > 0 && n <= n'
    ensures Owed(major, from, n, home) <= Owed(major, from, n', home)
  {
    if n < n' { OwedMonotone(major, from, n, n' - 1, home); }
  }

  /** A pass visits each home exactly once, wherever it starts. */
  lemma PassesVisitAll(major: nat, from: nat, passes: nat, home: nat)
    requires major > 0 && major % STEP == 0 && from % STEP == 0 && home < 2 * major
    ensures Owed(major, from, passes * (major / STEP), home) == passes
  {
    hide Turns, Group, Owed;
    var k, f := major / STEP, from / STEP;
    GroupBelow(k, home);
    OwedIs(k, f, passes * k, home);
    FullTurns(f, Group(major, home), k, passes);
  }

  /** In between, no home is visited more often than the passes begun, nor less than those completed. */
  lemma VisitsAreEven(major: nat, from: nat, n: nat, passes: nat, home: nat)
    requires major > 0 && major % STEP == 0 && from % STEP == 0 && home < 2 * major
    requires passes * (major / STEP) <= n <= (passes + 1) * (major / STEP)
    ensures passes <= Owed(major, from, n, home) <= passes + 1
  {
    hide Owed;
    PassesVisitAll(major, from, passes, home);
    PassesVisitAll(major, from, passes + 1, home);
    OwedMonotone(major, from, passes * (major / STEP), n, home);
    OwedMonotone(major, from, n, (passes + 1) * (major / STEP), home);
  }

  // When the sweep stops.

  /** Steps after which every home has been visited kMaxCountdown + 1 times. */
  function FullSweep(major: nat): nat {
    (MAX_COUNTDOWN + 1) * (major / STEP)
  }

  /** What n steps amount to. */
  ghost function TallyAfter(before: seq<seq<Entry>>, major: nat, from: nat, n: nat): EvictionData
    requires major > 0
  {
    Tally(before, VisitsOf(|before|, major, from, n))
  }

  /** Enough freed, every home visited often enough, or too little freed for the effort. */
  predicate Stops(d: EvictionData, n: nat, major: nat, requested: nat, effortCap: nat) {
    d.freedCharge >= requested || n >= FullSweep(major) || EffortExceeded(d, effortCap)
  }

  class Sweeper {
    const major: nat
    const homes: array<seq<Entry>>
    var clockPointer: nat

    /** A current mask: the major part is the power of two below the table length, which is at least four. */
    ghost predicate Valid()
      reads this, homes
    {
      && major > 0 && major % STEP == 0 && major <= homes.Length <= 2 * major
      && clockPointer % STEP == 0
      && forall h :: 0 <= h < homes.Length ==> AllShareable(homes[h])
    }

    /** One step of the sweep: four neighbouring homes, and the four that share their lower hash bits. */
    method SweepGroup(base: nat, data: EvictionData, ghost before: seq<seq<Entry>>, ghost visits: seq<nat>, ghost g: nat)
      returns (d: EvictionData)
      requires major > 0 && major % STEP == 0 && major <= homes.Length <= 2 * major
      requires |before| == |visits| == homes.Length && g < major / STEP && base == STEP * g
      requires forall h :: 0 <= h < |before| ==> AllShareable(before[h])
      requires Swept(homes[..], before, visits) && data == Tally(before, visits)
      modifies homes
      ensures Swept(homes[..], before, Visited(visits, major, g, homes.Length))
      ensures d == Tally(before, Visited(visits, major, g, homes.Length))
    {
      hide AllShareable, Swept, Group, Visited, Tally, TotalCharge, Purge, Pinned, AfterAll;
      d := data;
      var b := base;
      NotYetGroup(major, g);
      VisitedSkip(visits, major, g, 0, base);
      VisitedAll(visits, major, g, homes.Length);
      while b < homes.Length
        invariant b == base || b == base + major || b == base + 2 * major
        invariant |Visited(visits, major, g, b)| == homes.Length
        invariant Swept(homes[..], before, Visited(visits, major, g, b)) && d == Tally(before, Visited(visits, major, g, b))
        decreases homes.Length - b
      {
        var i := 0;
        while i < STEP && b + i < homes.Length
          invariant i <= STEP
          invariant |Visited(visits, major, g, b + i)| == homes.Length
          invariant Swept(homes[..], before, Visited(visits, major, g, b + i)) && d == Tally(before, Visited(visits, major, g, b + i))
        {
          var home := b + i;
          InGroup(major, g, b, i);
          VisitedHome(visits, major, g, home);
          ghost var now, d0 := homes[..], d;
          assert AllShareable(homes[home]) by { SweptShareable(now, before, Visited(visits, major, g, home), home); }
          var kept;
          kept, d := PurgeChain(homes[home], d);
          homes[home] := kept;
          SweepHome(now, before, Visited(visits, major, g, home), home, d0, d, homes[..]);
          i := i + 1;
        }
        PastGroup(major, g, b, i, homes.Length);
        VisitedSkip(visits, major, g, b + i, b + major);
        b := b + major;
      }
      VisitedAll(visits, major, g, b);
    }

    /**
     Sweep until enough is freed, the effort is not worth it, or every home has been visited
     kMaxCountdown + 1 times, and not one step more.
     */
    method Evict(requested: nat, effortCap: nat) returns (data: EvictionData, ghost steps: nat)
      requires Valid()
      modifies this`clockPointer, homes
      ensures Valid() && steps > 0 && clockPointer == old(clockPointer) + STEP * steps
      ensures forall h :: 0 <= h < homes.Length ==>
                homes[h] == AfterAll(old(homes[h]), Owed(major, old(clockPointer), steps, h))
      ensures data == TallyAfter(old(homes[..]), major, old(clockPointer), steps)
      ensures Stops(data, steps, major, requested, effortCap) && steps <= FullSweep(major)
      ensures forall n :: 0 < n < steps ==> !Stops(TallyAfter(old(homes[..]), major, old(clockPointer), n), n, major, requested, effortCap)
    {
      hide AllShareable, Swept, Visited, Tally, Group, GroupOf, Owed, VisitsOf, EffortExceeded, AfterAll;
      data := EvictionData(0, 0, 0);
      steps := 0;
      ghost var before, from := homes[..], clockPointer;
      var first := true;
      var maxPointer := 0;
      StartOfSweep(before, major, from);
      while true
        invariant clockPointer % STEP == 0 && clockPointer == from + STEP * steps && steps < FullSweep(major)
        invariant first <==> steps == 0
        invariant !first ==> maxPointer == from + (MAX_COUNTDOWN + 1) * major
        invariant |homes[..]| == |before| == |VisitsOf(|before|, major, from, steps)|
        invariant Swept(homes[..], before, VisitsOf(|before|, major, from, steps))
        invariant data == TallyAfter(before, major, from, steps)
        invariant forall n :: 0 < n <= steps ==> !Stops(TallyAfter(before, major, from, n), n, major, requested, effortCap)
        decreases FullSweep(major) - steps
      {
        var old_ := clockPointer;
        clockPointer := clockPointer + STEP;
        BaseOfPointer(major, old_);
        NextVisits(|before|, major, from, steps);
        data := SweepGroup(old_ % major, data, before, VisitsOf(|before|, major, from, steps), GroupOf(major, old_));
        steps := steps + 1;
        VisitsLength(|before|, major, from, steps);
        if data.freedCharge >= requested {
          break;
        }
        if first {
          maxPointer := old_ + (MAX_COUNTDOWN + 1) * major;
          first := false;
        }
        if old_ + STEP >= maxPointer {
          break;
        }
        if EffortExceeded(data, effortCap) {
          break;
        }
      }
      SweptIs(homes[..], before, major, from, steps);
    }
  }

  /** The clock pointer leads to the first home of its group. */
  lemma BaseOfPointer(major: nat, pointer: nat)
    requires major > 0 && major % STEP == 0 && pointer % STEP == 0
    ensures pointer % major == STEP * GroupOf(major, pointer) && GroupOf(major, pointer) < major / STEP
  {
    var k, m := major / STEP, pointer / STEP;
    PointerGroup(m, k);
    var q, r := m / k, m % k;
    assert STEP * m == q * (STEP * k) + STEP * r by { assert STEP * (q * k) == q * (STEP * k); }
    Bits.DivModUnique(STEP * m, STEP * k, q, STEP * r);
  }

  lemma InGroup(major: nat, g: nat, b: nat, i: nat)
    requires major > 0 && major % STEP == 0 && g < major / STEP && i < STEP && (b == STEP * g || b == STEP * g + major)
    ensures Group(major, b + i) == g
  {
  }

  lemma NotYetGroup(major: nat, g: nat)
    requires major > 0 && major % STEP == 0 && g < major / STEP
    ensures forall h: nat :: h < STEP * g ==> Group(major, h) != g
  {
  }

  /** After the four homes at b, the next ones of the group are a major step away. */
  lemma PastGroup(major: nat, g: nat, b: nat, i: nat, length: nat)
    requires major > 0 && major % STEP == 0 && g < major / STEP && i <= STEP && length <= 2 * major
    requires (b == STEP * g || b == STEP * g + major) && (i == STEP || b + i >= length)
    ensures forall h: nat :: h < length && b + i <= h < b + major ==> Group(major, h) != g
  {
  }

  lemma SweptShareable(now: seq<seq<Entry>>, before: seq<seq<Entry>>, visits: seq<nat>, h: nat)
    requires Swept(now, before, visits) && h < |now| && AllShareable(before[h])
    ensures AllShareable(now[h])
  {
    hide AllShareable, AfterAll;
    VisitsKeepPinned(before[h], visits[h]);
  }

  /** One home gets its visit. */
  lemma SweepHome(now: seq<seq<Entry>>, before: seq<seq<Entry>>, visits: seq<nat>, h: nat,
                  data: EvictionData, d: EvictionData, now': seq<seq<Entry>>)
    requires Swept(now, before, visits) && h < |now| && AllShareable(before[h]) && data == Tally(before, visits)
    requires now' == now[h := Purge(now[h])]
    requires d.freedCharge == data.freedCharge + (TotalCharge(now[h]) - TotalCharge(now'[h]))
    requires d.freedCount == data.freedCount + (|now[h]| - |now'[h]|)
    requires d.seenPinned == data.seenPinned + Pinned(now[h])
    ensures Swept(now', before, visits[h := visits[h] + 1]) && d == Tally(before, visits[h := visits[h] + 1])
  {
    hide AllShareable, AfterAll, Purge, Tally, TotalCharge, Pinned;
    TallyVisit(before, visits, h, data, d);
  }

  lemma StartOfSweep(before: seq<seq<Entry>>, major: nat, from: nat)
    requires major > 0 && major % STEP == 0
    ensures FullSweep(major) > 0 && |VisitsOf(|before|, major, from, 0)| == |before|
    ensures Swept(before, before, VisitsOf(|before|, major, from, 0)) && TallyAfter(before, major, from, 0) == EvictionData(0, 0, 0)
  {
    hide AfterAll, Tally;
    TallyNone(before, VisitsOf(|before|, major, from, 0));
    forall h | 0 <= h < |before|
      ensures before[h] == AfterAll(before[h], 0)
    {
      AfterNone(before[h]);
    }
  }

  lemma VisitsLength(length: nat, major: nat, from: nat, n: nat)
    requires major > 0
    ensures |VisitsOf(length, major, from, n)| == length
  {
  }

  lemma SweptIs(now: seq<seq<Entry>>, before: seq<seq<Entry>>, major: nat, from: nat, n: nat)
    requires major > 0 && Swept(now, before, VisitsOf(|before|, major, from, n))
    requires forall h :: 0 <= h < |before| ==> AllShareable(before[h])
    ensures forall h :: 0 <= h < |now| ==> now[h] == AfterAll(before[h], Owed(major, from, n, h)) && AllShareable(now[h])
  {
    hide AfterAll, Owed, AllShareable;
    forall h | 0 <= h < |now|
      ensures AllShareable(now[h])
    {
      SweptShareable(now, before, VisitsOf(|before|, major, from, n), h);
    }
  }

  // What the sweep promises.

  /** A sweep that went all the way visited every home exactly kMaxCountdown + 1 times and left only referenced entries. */
  lemma FullSweepLeavesPinned(before: seq<seq<Entry>>, major: nat, from: nat, h: nat)
    requires major > 0 && major % STEP == 0 && from % STEP == 0 && h < |before| <= 2 * major && AllShareable(before[h])
    ensures Owed(major, from, FullSweep(major), h) == MAX_COUNTDOWN + 1
    ensures AfterAll(before[h], Owed(major, from, FullSweep(major), h)) == PinnedEntries(before[h])
  {
    hide Owed, AfterAll, PinnedEntries, AllShareable;
    PassesVisitAll(major, from, MAX_COUNTDOWN + 1, h);
    PurgedToPinned(before[h], MAX_COUNTDOWN + 1);
  }

  lemma {:induction false} NothingPinnedSeen(homes: seq<seq<Entry>>, visits: seq<nat>)
    requires |homes| == |visits| && forall h :: 0 <= h < |homes| ==> Pinned(homes[h]) == 0
    ensures Tally(homes, visits).seenPinned == 0
  {
    hide Pinned;
    if homes != [] { NothingPinnedSeen(homes[1..], visits[1..]); }
  }

  lemma {:induction false} NothingPinned(chain: seq<Entry>)
    requires Pinned(chain) == 0
    ensures PinnedEntries(chain) == []
  {
    if chain != [] { NothingPinned(chain[1..]); }
  }

  /** Without referenced entries the effort is always worth it: a sweep that stops has freed the request or emptied the table. */
  lemma UnreferencedTableIsFreed(before: seq<seq<Entry>>, major: nat, from: nat, n: nat, requested: nat, effortCap: nat, h: nat)
    requires major > 0 && major % STEP == 0 && from % STEP == 0 && h < |before| <= 2 * major && effortCap > 0
    requires forall i :: 0 <= i < |before| ==> AllShareable(before[i]) && Pinned(before[i]) == 0
    requires n <= FullSweep(major) && Stops(TallyAfter(before, major, from, n), n, major, requested, effortCap)
    ensures TallyAfter(before, major, from, n).freedCharge >= requested || AfterAll(before[h], Owed(major, from, n, h)) == []
  {
    hide Owed, AfterAll, PinnedEntries, AllShareable, Pinned, Tally, FullSweep;
    var d := TallyAfter(before, major, from, n);
    NothingPinnedSeen(before, VisitsOf(|before|, major, from, n));
    NeverExceeded(d, effortCap);
    FullSweepLeavesPinned(before, major, from, h);
    NothingPinned(before[h]);
  }

  lemma NeverExceeded(d: EvictionData, cap: nat)
    requires d.seenPinned == 0 && cap > 0
    ensures !EffortExceeded(d, cap)
  {
    assert (d.freedCount + 1) * cap == d.freedCount * cap + cap;
  }

  /** What a sweep reports as freed is what the homes lost. */
  lemma {:induction false} FreedIsLost(homes: seq<seq<Entry>>, visits: seq<nat>, now: seq<seq<Entry>>)
    requires Swept(now, homes, visits)
    ensures Tally(homes, visits).freedCharge == SumCharges(homes) - SumCharges(now)
    ensures Tally(homes, visits).freedCount == Entries(homes) - Entries(now)
  {
    hide AfterAll;
    if homes != [] { FreedIsLost(homes[1..], visits[1..], now[1..]); }
  }

  function SumCharges(homes: seq<seq<Entry>>): nat {
    if homes == [] then 0 else TotalCharge(homes[0]) + SumCharges(homes[1..])
  }

  function Entries(homes: seq<seq<Entry>>): nat {
    if homes == [] then 0 else |homes[0]| + Entries(homes[1..])
  }
}
