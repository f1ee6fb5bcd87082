/**
 A run in which the overflow correction breaks reference counting although only two agents ever act:
 enough lookups and releases of one entry without a clock update in between.
 */
module SlotOverflow {
  import opened Words
  import opened MetaWord
  import opened SlotProtocol
  import opened SlotTheorems

  lemma {:induction false} RunConcat(s: State, a: seq<Action>, b: seq<Action>)
    ensures Run(s, a + b) == Run(Run(s, a), b)
  {
    if b == [] {
      assert a + b == a;
    } else {
      assert (a + b)[..|a + b| - 1] == a + b[..|b| - 1];
      RunConcat(s, a, b[..|b| - 1]);
    }
  }

  lemma RunOne(s: State, a: Action)
    ensures Run(s, [a]) == Apply(s, a)
  {
    assert [a][..0] == [];
  }

  lemma RunMore(s: State, acts: seq<Action>, a: Action)
    ensures Run(s, acts + [a]) == Apply(Run(s, acts), a)
  {
    RunConcat(s, acts, [a]);
    RunOne(Run(s, acts), a);
  }

  // The words of the run.

  function Counted(a: nat, r: nat): Word
    requires a < COUNTER && r < COUNTER
  {
    Make(a, r, 0, VISIBLE)
  }

  lemma CountedFields(a: nat, r: nat)
    requires a < COUNTER && r < COUNTER
    ensures var w := Counted(a, r); Acquires(w) == a && Releases(w) == r && Hit(w) == 0 && Marker(w) == VISIBLE
  {
    hide Make, Acquires, Releases, Hit, Marker;
    FieldsOfMake(a, r, 0, VISIBLE);
  }

  lemma CountedIs(w: Word, a: nat, r: nat)
    requires Acquires(w) == a && Releases(w) == r && Hit(w) == 0 && Marker(w) == VISIBLE
    ensures a < COUNTER && r < COUNTER && w == Counted(a, r)
  {
    hide Make, Acquires, Releases, Hit, Marker;
    MakeOfFields(w);
  }

  lemma CountedSteps(a: nat, r: nat)
    requires a + 1 < COUNTER && r + 1 < COUNTER
    ensures AddAcquires(Counted(a, r), 1) == Counted(a + 1, r) && AddReleases(Counted(a, r), 1) == Counted(a, r + 1)
    ensures ClearTopBits(Counted(a, r)) == Counted(a % COUNTER_TOP, r % COUNTER_TOP)
  {
    hide Make, Acquires, Releases, Hit, Marker, AddAcquires, AddReleases, ClearTopBits, Counted;
    var w := Counted(a, r);
    CountedFields(a, r);
    AddAcquiresFields(w, 1);
    CountedIs(AddAcquires(w, 1), a + 1, r);
    AddReleasesFields(w, 1);
    CountedIs(AddReleases(w, 1), a, r + 1);
    ClearTopBitsFields(w);
    CountedIs(ClearTopBits(w), a % COUNTER_TOP, r % COUNTER_TOP);
  }

  // The states of the run.

  /** One entry, a user that keeps its handle, and a second agent a; the others are idle. */
  ghost predicate Holding(s: State, key: nat, w: Word, a: Agent) {
    && s.slot == Slot(w, [key], []) && |s.agents| >= 2
    && s.agents[0] == User(key, 1) && s.agents[1] == a
    && forall t :: 2 <= t < |s.agents| ==> s.agents[t] == Idle
  }

  lemma InsertKept(s: State, key: nat) returns (acts: seq<Action>)
    requires Init(s) && |s.agents| >= 2
    ensures Holding(Run(s, acts), key, Counted(1, 0), Idle)
  {
    hide Run, Make;
    var a, b, c := Do(0, Insert(key, Bottom, true)), Do(0, Step(false)), Do(0, Step(false));
    acts := [a] + [b] + [c];
    RunOne(s, a);
    RunMore(s, [a], b);
    RunMore(s, [a] + [b], c);
    assert Marker(0) == EMPTY;
  }

  /** The second agent looks the entry up. */
  lemma TakeHandle(s: State, key: nat, a: nat, r: nat) returns (acts: seq<Action>)
    requires a + 1 < COUNTER && r + 1 < COUNTER && Holding(s, key, Counted(a, r), Idle)
    ensures Holding(Run(s, acts), key, Counted(a + 1, r), User(key, 1))
  {
    hide Run, Counted, Marker, Shareable, AddAcquires, AddReleases, SetOccupied;
    acts := [Do(1, Lookup(key))] + [Do(1, Step(false))];
    RunOne(s, Do(1, Lookup(key)));
    RunMore(s, [Do(1, Lookup(key))], Do(1, Step(false)));
    CountedSteps(a, r);
    CountedFields(a, r);
  }

  /** It gives its handle back as useful, and corrects. */
  lemma GiveBack(s: State, key: nat, a: nat, r: nat) returns (acts: seq<Action>)
    requires a + 1 < COUNTER && r + 2 < COUNTER && Holding(s, key, Counted(a, r), User(key, 1))
    ensures Holding(Run(s, acts), key, Corrected(Counted(a, r), Counted(a, r + 1)), Idle)
  {
    hide Run, Counted, Marker, Corrected, Shareable, AddAcquires, AddReleases, SubAcquires;
    acts := [Do(1, Release(true, false))] + [Do(1, Step(false))];
    RunOne(s, Do(1, Release(true, false)));
    RunMore(s, [Do(1, Release(true, false))], Do(1, Step(false)));
    CountedSteps(a, r);
    CountedFields(a, r);
  }

  /** Below half its range the correction changes nothing, so lookups and releases pile up. */
  lemma {:induction false} PileUp(s: State, key: nat, n: nat) returns (acts: seq<Action>)
    requires Init(s) && |s.agents| >= 2 && 1 <= n < COUNTER_TOP
    ensures Holding(Run(s, acts), key, Counted(n, n - 1), Idle)
  {
    hide Run, Counted, Holding, ClearTopBits, NearOverflow;
    if n == 1 {
      acts := InsertKept(s, key);
    } else {
      var first := PileUp(s, key, n - 1);
      var taken := TakeHandle(Run(s, first), key, n - 1, n - 2);
      RunConcat(s, first, taken);
      var given := GiveBack(Run(s, first + taken), key, n, n - 2);
      RunConcat(s, first + taken, given);
      CountedSteps(n, n - 1);
      acts := first + taken + given;
    }
  }

  /**
   After enough of them, with only two handles out, giving one back leaves a reference count of
   2^29 + 1 for the one reference that is left, so the entry cannot be evicted or erased.
   */
  lemma TwoReferencesCanBreakTheCount(s: State, key: nat) returns (acts: seq<Action>)
    requires Init(s) && |s.agents| >= 2
    ensures var r := Run(s, acts);
            Shareable(r.slot.meta) && References(r.agents) == 1 && Refcount(r.slot.meta) == COUNTER_TOP + 1
  {
    hide Run, Counted, ClearTopBits, Acquires, Releases, Hit, Marker, Refcount;
    var n: nat := COUNTER_TOP - 1;
    var first := PileUp(s, key, n);
    var taken := TakeHandle(Run(s, first), key, n, n - 1);
    RunConcat(s, first, taken);
    var given := GiveBack(Run(s, first + taken), key, n + 1, n - 1);
    RunConcat(s, first + taken, given);
    acts := first + taken + given;
    CountedFields(n + 1, n - 1);
    CountedSteps(n + 1, n);
    CountedFields(0, n);
    RefcountIsDifference(Counted(0, n));
    IdleSums(Run(s, acts).agents[2..]);
    assert Run(s, acts).agents[1..][1..] == Run(s, acts).agents[2..];
    MarkerShareable(Counted(0, n));
  }
}
