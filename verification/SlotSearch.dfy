/**
 The search of the auto-growing table for a free slot, with no concurrent writer: the home slot,
 a hint, four neighbours, and then large jumps by a fixed increment. When the jumps come back to
 where they started, the start shifts by one slot, because the increment and the table length may
 share a factor.
 */
module SlotSearch {
  import opened Counting
  import opened Words

  // Walking round a table of n slots.

  /** Move d slots on, wrapping once. */
  function Shift(n: nat, x: nat, d: nat): (r: nat)
    requires x < n && d <= n
    ensures r < n
  {
    if x + d >= n then x + d - n else x + d
  }

  /** k jumps of length d. */
  function Jumps(n: nat, d: nat, x: nat, k: nat): (r: nat)
    requires x < n && d <= n
    ensures r < n
  {
    if k == 0 then x else Shift(n, Jumps(n, d, x, k - 1), d)
  }

  lemma {:induction false} JumpsAdd(n: nat, d: nat, x: nat, j: nat, k: nat)
    requires x < n && d <= n
    ensures Jumps(n, d, x, j + k) == Jumps(n, d, Jumps(n, d, x, j), k)
    decreases k
  {
    if k > 0 {
      JumpsAdd(n, d, x, j, k - 1);
      assert Jumps(n, d, x, j + k) == Shift(n, Jumps(n, d, x, j + (k - 1)), d);
    }
  }

  /** Jumping commutes with moving on. */
  lemma {:induction false} JumpsShift(n: nat, d: nat, x: nat, e: nat, k: nat)
    requires x < n && d <= n && e <= n
    ensures Jumps(n, d, Shift(n, x, e), k) == Shift(n, Jumps(n, d, x, k), e)
  {
    if k > 0 { JumpsShift(n, d, x, e, k - 1); }
  }

  lemma {:induction false} JumpsInjective(n: nat, d: nat, x: nat, y: nat, k: nat)
    requires x < n && y < n && d <= n && Jumps(n, d, x, k) == Jumps(n, d, y, k)
    ensures x == y
  {
    if k > 0 { JumpsInjective(n, d, x, y, k - 1); }
  }

  function Distance(n: nat, x: nat, y: nat): (e: nat)
    requires x < n && y < n
    ensures e < n && Shift(n, x, e) == y
  {
    if y >= x then y - x else y + n - x
  }

  /** The number of jumps after which a walk is back is the same for every start. */
  lemma SamePeriod(n: nat, d: nat, x: nat, y: nat, k: nat)
    requires x < n && y < n && d <= n
    ensures Jumps(n, d, x, k) == x <==> Jumps(n, d, y, k) == y
  {
    var e := Distance(n, x, y);
    JumpsShift(n, d, x, e, k);
    var f := Distance(n, y, x);
    JumpsShift(n, d, y, f, k);
  }

  /** m is the length of a round of jumps. */
  ghost predicate Period(n: nat, d: nat, m: nat) {
    && 0 < m && d <= n
    && forall x: nat, k: nat :: x < n && 0 < k <= m ==> (Jumps(n, d, x, k) == x <==> k == m)
  }

  /** The first k slots of a round. */
  function Round(n: nat, d: nat, x: nat, k: nat): set<nat>
    requires x < n && d <= n
  {
    if k == 0 then {} else Round(n, d, x, k - 1) + {Jumps(n, d, x, k - 1)}
  }

  lemma {:induction false} RoundHas(n: nat, d: nat, x: nat, k: nat, j: nat)
    requires x < n && d <= n && j < k
    ensures Jumps(n, d, x, j) in Round(n, d, x, k)
  {
    if j < k - 1 { RoundHas(n, d, x, k - 1, j); }
  }

  lemma {:induction false} RoundIndex(n: nat, d: nat, x: nat, k: nat, p: nat) returns (j: nat)
    requires x < n && d <= n && p in Round(n, d, x, k)
    ensures j < k && Jumps(n, d, x, j) == p
  {
    if p == Jumps(n, d, x, k - 1) { j := k - 1; } else { j := RoundIndex(n, d, x, k - 1, p); }
  }

  /** Before the walk is back at its start it does not repeat itself. */
  lemma NoEarlyRepeat(n: nat, d: nat, x: nat, j: nat, k: nat)
    requires x < n && d <= n && j < k && Jumps(n, d, x, j) == Jumps(n, d, x, k)
    ensures Jumps(n, d, x, k - j) == x
  {
    JumpsAdd(n, d, x, k - j, j);
    JumpsInjective(n, d, x, Jumps(n, d, x, k - j), j);
  }

  ghost predicate NotBack(n: nat, d: nat, x: nat, k: nat)
    requires x < n && d <= n
  {
    forall j: nat :: 0 < j < k ==> Jumps(n, d, x, j) != x
  }

  lemma {:induction false} RoundSize(n: nat, d: nat, x: nat, k: nat)
    requires x < n && d <= n && NotBack(n, d, x, k)
    ensures |Round(n, d, x, k)| == k
  {
    hide Jumps;
    if k > 0 {
      RoundSize(n, d, x, k - 1);
      var p := Jumps(n, d, x, k - 1);
      if p in Round(n, d, x, k - 1) {
        var j := RoundIndex(n, d, x, k - 1, p);
        NoEarlyRepeat(n, d, x, j, k - 1);
      }
    }
  }

  lemma {:induction false} RoundBounded(n: nat, d: nat, x: nat, k: nat)
    requires x < n && d <= n
    ensures forall p :: p in Round(n, d, x, k) ==> p < n
  {
    if k > 0 { RoundBounded(n, d, x, k - 1); }
  }

  /** A walk that is not back yet has made fewer jumps than there are slots. */
  lemma NotBackBound(n: nat, d: nat, x: nat, k: nat)
    requires x < n && d <= n && NotBack(n, d, x, k)
    ensures k <= n
  {
    RoundSize(n, d, x, k);
    RoundBounded(n, d, x, k);
    BoundedSize(Round(n, d, x, k), n);
  }

  lemma FirstReturnIsPeriod(n: nat, d: nat, x: nat, m: nat)
    requires x < n && d <= n && m > 0 && NotBack(n, d, x, m) && Jumps(n, d, x, m) == x
    ensures Period(n, d, m)
  {
    forall y: nat, k: nat | y < n && 0 < k <= m
      ensures Jumps(n, d, y, k) == y <==> k == m
    {
      SamePeriod(n, d, x, y, k);
    }
  }

  // Rounds from consecutive starts.

  /** All slots of c full rounds started at s, s + 1, ... */
  function Rounds(n: nat, d: nat, s: nat, m: nat, c: nat): set<nat>
    requires s < n && d <= n && c <= n
  {
    if c == 0 then {} else Rounds(n, d, s, m, c - 1) + Round(n, d, Shift(n, s, c - 1), m)
  }

  /** The round of a slot in a round is that round. */
  lemma SameRound(n: nat, d: nat, m: nat, x: nat, y: nat, p: nat)
    requires Period(n, d, m) && x < n && y < n && y in Round(n, d, x, m) && p in Round(n, d, y, m)
    ensures p in Round(n, d, x, m)
  {
    hide Jumps, Round;
    var i := RoundIndex(n, d, x, m, y);
    var j := RoundIndex(n, d, y, m, p);
    JumpsAdd(n, d, x, i, j);
    if i + j < m {
      RoundHas(n, d, x, m, i + j);
    } else {
      JumpsAdd(n, d, x, m, i + j - m);
      assert Jumps(n, d, x, m) == x;
      RoundHas(n, d, x, m, i + j - m);
    }
  }

  lemma RoundSymmetric(n: nat, d: nat, m: nat, x: nat, p: nat)
    requires Period(n, d, m) && x < n && p in Round(n, d, x, m)
    ensures p < n && x in Round(n, d, p, m)
  {
    hide Jumps, Round;
    var i := RoundIndex(n, d, x, m, p);
    JumpsAdd(n, d, x, i, m - i);
    assert Jumps(n, d, x, m) == x;
    if i == 0 { RoundHas(n, d, p, m, 0); assert Jumps(n, d, p, 0) == p by { NoJump(n, d, p); NoJump(n, d, x); } }
    else { RoundHas(n, d, p, m, m - i); }
    if i == 0 { NoJump(n, d, x); }
  }

  lemma NoJump(n: nat, d: nat, x: nat)
    requires x < n && d <= n
    ensures Jumps(n, d, x, 0) == x && Round(n, d, x, 0) == {}
  {
  }

  lemma {:induction false} RoundsIndex(n: nat, d: nat, s: nat, m: nat, c: nat, p: nat) returns (j: nat)
    requires s < n && d <= n && c <= n && p in Rounds(n, d, s, m, c)
    ensures j < c && p in Round(n, d, Shift(n, s, j), m)
  {
    if p in Round(n, d, Shift(n, s, c - 1), m) { j := c - 1; } else { j := RoundsIndex(n, d, s, m, c - 1, p); }
  }

  lemma {:induction false} RoundsHas(n: nat, d: nat, s: nat, m: nat, c: nat, j: nat, p: nat)
    requires s < n && d <= n && c <= n && j < c && p in Round(n, d, Shift(n, s, j), m)
    ensures p in Rounds(n, d, s, m, c)
  {
    if j < c - 1 { RoundsHas(n, d, s, m, c - 1, j, p); }
  }

  /** If the next start has been visited, the visited slots are closed under moving on by one. */
  lemma ClosedUnderOne(n: nat, d: nat, s: nat, m: nat, c: nat, p: nat)
    requires Period(n, d, m) && s < n && c < n && p < n && p in Rounds(n, d, s, m, c)
    requires Shift(n, s, c) in Rounds(n, d, s, m, c)
    ensures Shift(n, p, 1) in Rounds(n, d, s, m, c)
  {
    hide Jumps, Round, Rounds;
    var j := RoundsIndex(n, d, s, m, c, p);
    var x := Shift(n, s, j);
    var i := RoundIndex(n, d, x, m, p);
    JumpsShift(n, d, x, 1, i);
    var y := Shift(n, s, j + 1);
    assert Shift(n, x, 1) == y;
    RoundHas(n, d, y, m, i);
    if j + 1 < c {
      RoundsHas(n, d, s, m, c, j + 1, Shift(n, p, 1));
    } else {
      var j' := RoundsIndex(n, d, s, m, c, y);
      SameRound(n, d, m, Shift(n, s, j'), y, Shift(n, p, 1));
      RoundsHas(n, d, s, m, c, j', Shift(n, p, 1));
    }
  }

  lemma {:induction false} ClosedIsAll(n: nat, d: nat, s: nat, m: nat, c: nat, e: nat)
    requires Period(n, d, m) && s < n && 0 < c < n && e < n && Shift(n, s, c) in Rounds(n, d, s, m, c)
    ensures Shift(n, s, e) in Rounds(n, d, s, m, c)
  {
    hide Jumps, Round, Rounds;
    if e == 0 {
      RoundHas(n, d, s, m, 0);
      NoJump(n, d, s);
      RoundsHas(n, d, s, m, c, 0, s);
    } else {
      ClosedIsAll(n, d, s, m, c, e - 1);
      ClosedUnderOne(n, d, s, m, c, Shift(n, s, e - 1));
    }
  }

  lemma DisjointSizes(u: set<nat>, v: set<nat>)
    requires forall p :: p in v ==> p !in u
    ensures |u + v| == |u| + |v|
  {
    assert u !! v;
  }

  lemma RoundCounted(c: nat, m: nat)
    ensures (c + 1) * m == c * m + m && 0 * m == 0
  {
  }

  lemma FullRound(n: nat, d: nat, x: nat, m: nat)
    requires Period(n, d, m) && x < n
    ensures |Round(n, d, x, m)| == m && forall p :: p in Round(n, d, x, m) ==> p < n
  {
    hide Jumps, Round;
    assert NotBack(n, d, x, m);
    RoundSize(n, d, x, m);
    RoundBounded(n, d, x, m);
  }

  /** A round from a new start is disjoint from those before it. */
  lemma OneMoreRound(n: nat, d: nat, s: nat, m: nat, c: nat)
    requires Period(n, d, m) && s < n && c < n && Shift(n, s, c) !in Rounds(n, d, s, m, c)
    ensures |Rounds(n, d, s, m, c + 1)| == |Rounds(n, d, s, m, c)| + m
  {
    hide Jumps, Round, Shift;
    FullRound(n, d, Shift(n, s, c), m);
    NewRound(n, d, s, m, c);
    DisjointSizes(Rounds(n, d, s, m, c), Round(n, d, Shift(n, s, c), m));
  }

  lemma {:induction false} RoundsBounded(n: nat, d: nat, s: nat, m: nat, c: nat)
    requires Period(n, d, m) && s < n && c <= n
    ensures forall p :: p in Rounds(n, d, s, m, c) ==> p < n
  {
    hide Jumps, Round, Shift;
    if c > 0 {
      RoundsBounded(n, d, s, m, c - 1);
      FullRound(n, d, Shift(n, s, c - 1), m);
    }
  }

  /** As long as each start is new, the sizes of the rounds add up. */
  lemma {:induction false} RoundsSize(n: nat, d: nat, s: nat, m: nat, c: nat)
    requires Period(n, d, m) && s < n && c <= n
    requires forall j: nat :: j < c ==> Shift(n, s, j) !in Rounds(n, d, s, m, j)
    ensures |Rounds(n, d, s, m, c)| == Times(c, m)
  {
    hide Jumps, Rounds, Shift;
    if c > 0 {
      RoundsSize(n, d, s, m, c - 1);
      OneMoreRound(n, d, s, m, c - 1);
    } else {
      NoRounds(n, d, s, m);
    }
  }

  lemma NewRound(n: nat, d: nat, s: nat, m: nat, c: nat)
    requires Period(n, d, m) && s < n && c < n && Shift(n, s, c) !in Rounds(n, d, s, m, c)
    ensures forall p :: p in Round(n, d, Shift(n, s, c), m) ==> p !in Rounds(n, d, s, m, c)
  {
    hide Jumps, Round, Rounds, Shift;
    forall p | p in Round(n, d, Shift(n, s, c), m)
      ensures p !in Rounds(n, d, s, m, c)
    {
      if p in Rounds(n, d, s, m, c) { Overlap(n, d, s, m, c, p); }
    }
  }

  lemma Overlap(n: nat, d: nat, s: nat, m: nat, c: nat, p: nat)
    requires Period(n, d, m) && s < n && c < n
    requires p in Rounds(n, d, s, m, c) && p in Round(n, d, Shift(n, s, c), m)
    ensures Shift(n, s, c) in Rounds(n, d, s, m, c)
  {
    hide Jumps, Round, Rounds;
    var x := Shift(n, s, c);
    RoundSymmetric(n, d, m, x, p);
    var j := RoundsIndex(n, d, s, m, c, p);
    SameRound(n, d, m, Shift(n, s, j), p, x);
    RoundsHas(n, d, s, m, c, j, x);
  }

  lemma {:induction false} RoundsGrow(n: nat, d: nat, s: nat, m: nat, c: nat, c': nat)
    requires s < n && d <= n && c <= c' <= n
    ensures Rounds(n, d, s, m, c) <= Rounds(n, d, s, m, c')
  {
    if c < c' { RoundsGrow(n, d, s, m, c, c' - 1); }
  }

  /** Once the rounds together are longer than the table, they have covered it. */
  lemma EnoughRounds(n: nat, d: nat, s: nat, m: nat, c: nat, y: nat)
    requires Period(n, d, m) && s < n && y < n && c <= n && c * m > n
    ensures y in Rounds(n, d, s, m, c)
  {
    hide Jumps, Round, Rounds;
    if forall j: nat :: j < c ==> Shift(n, s, j) !in Rounds(n, d, s, m, j) {
      RoundsSize(n, d, s, m, c);
      RoundsBounded(n, d, s, m, c);
      TimesIs(c, m);
      BoundedSize(Rounds(n, d, s, m, c), n);
    } else {
      var j: nat :| j < c && Shift(n, s, j) in Rounds(n, d, s, m, j);
      if j == 0 { NoRounds(n, d, s, m); }
      ClosedIsAll(n, d, s, m, j, Distance(n, s, y));
      RoundsGrow(n, d, s, m, j, c);
    }
  }

  lemma NoRounds(n: nat, d: nat, s: nat, m: nat)
    requires s < n && d <= n
    ensures Rounds(n, d, s, m, 0) == {}
  {
  }

  // The search itself.

  datatype Slot = Empty | Match | Other

  datatype Outcome = Found(slot: nat) | AlreadyMatches | GaveUp

  const MAX_LINEAR_PROBE: nat := 4

  /** All slots of a set were tried in vain. */
  ghost predicate AllOther(slots: seq<Slot>, u: set<nat>) {
    forall p :: p in u ==> p < |slots| && slots[p] == Other
  }

  /** What the walk of jumps has tried: c whole rounds from `first` on, and k jumps from the current start. */
  ghost predicate Tried(slots: seq<Slot>, d: nat, first: nat, m: nat, c: nat, start: nat, k: nat)
    requires first < |slots| && start < |slots| && d <= |slots| && c <= |slots|
  {
    && AllOther(slots, Rounds(|slots|, d, first, m, c))
    && AllOther(slots, Round(|slots|, d, start, k + 1))
  }

  lemma RoundDone(slots: seq<Slot>, d: nat, first: nat, m: nat, c: nat, start: nat, k: nat)
    requires first < |slots| && start < |slots| && d <= |slots| && c < |slots|
    requires Tried(slots, d, first, m, c, start, k) && start == Shift(|slots|, first, c) && m == k + 1
    ensures AllOther(slots, Rounds(|slots|, d, first, m, c + 1))
  {
    assert Rounds(|slots|, d, first, m, c + 1) == Rounds(|slots|, d, first, m, c) + Round(|slots|, d, start, m);
  }

  lemma NextStart(n: nat, first: nat, c: nat)
    requires first < n && c < n
    ensures Shift(n, Shift(n, first, c), 1) == Shift(n, first, c + 1)
  {
  }

  lemma PeriodAboveOne(n: nat, d: nat, m: nat)
    requires Period(n, d, m) && 0 < d < n
    ensures m >= 2
  {
    NoJump(n, d, 0);
    assert Jumps(n, d, 0, 1) == Shift(n, 0, d) == d;
  }

  /** How many rounds can have been completed before the search gives up. */
  lemma RoundsBound(n: nat, m: nat, c: nat)
    requires m >= 2 && (c == 0 || MAX_LINEAR_PROBE + c * m <= 2 * n) && n >= 4
    ensures c < n
  {
    if c > 0 { assert c * m >= c * 2 by { assert c * m == c * 2 + c * (m - 2); } }
  }

  /** Giving up means that the completed rounds are longer than the table. */
  lemma GivingUpCovers(slots: seq<Slot>, d: nat, first: nat, m: nat, c: nat)
    requires |slots| >= 4 && first < |slots| && Period(|slots|, d, m) && c <= |slots|
    requires MAX_LINEAR_PROBE + c * m - 1 >= 2 * |slots|
    requires AllOther(slots, Rounds(|slots|, d, first, m, c))
    ensures forall p :: 0 <= p < |slots| ==> slots[p] == Other
  {
    hide Rounds, Period;
    forall p | 0 <= p < |slots|
      ensures slots[p] == Other
    {
      EnoughRounds(|slots|, d, first, m, c, p);
    }
  }

  /**
   Search for a free slot below the saved length n, preferring the home and then a slot just opened
   by growth, which lies beyond that length. Without concurrent writers it finds a free slot whenever
   there is one below n, unless it meets the same key first.
   */
  method FindSlot(table: seq<Slot>, n: nat, home: nat, likelyEmpty: nat, incr: nat) returns (r: Outcome)
    requires 4 <= n <= |table| && home < n && likelyEmpty < |table| && 0 < incr < n
    ensures r.Found? ==> (r.slot < n || r.slot == likelyEmpty) && r.slot < |table| && table[r.slot] == Empty
    ensures r.AlreadyMatches? ==> Match in table[..n]
    ensures r.GaveUp? ==> (forall p :: 0 <= p < n ==> table[p] == Other) && (likelyEmpty > 0 ==> table[likelyEmpty] != Empty)
    ensures table[home].Empty? ==> r == Found(home)
    ensures table[home].Other? && likelyEmpty > 0 && table[likelyEmpty].Empty? ==> r == Found(likelyEmpty)
  {
    var slots := table[..n];
    var idx := home;
    if slots[idx].Empty? { return Found(idx); }
    if slots[idx].Match? { return AlreadyMatches; }
    if likelyEmpty > 0 && table[likelyEmpty].Empty? { return Found(likelyEmpty); }
    var i := 0;
    while i < MAX_LINEAR_PROBE
      invariant idx < n && i <= MAX_LINEAR_PROBE && slots[idx] == Other
    {
      idx := Shift(n, idx, 1);
      if slots[idx].Empty? { return Found(idx); }
      if slots[idx].Match? { return AlreadyMatches; }
      i := i + 1;
    }
    r := JumpSearch(slots, idx, incr);
    assert forall p :: 0 <= p < n ==> slots[p] == table[p];
  }

  /** The second phase: jumps from a slot already tried. */
  method JumpSearch(slots: seq<Slot>, from: nat, incr: nat) returns (r: Outcome)
    requires |slots| >= 4 && from < |slots| && 0 < incr < |slots| && slots[from] == Other
    ensures r.Found? ==> r.slot < |slots| && slots[r.slot] == Empty
    ensures r.AlreadyMatches? ==> Match in slots
    ensures r.GaveUp? ==> forall p :: 0 <= p < |slots| ==> slots[p] == Other
  {
    hide Rounds, Round, Jumps, Period, AllOther;
    var n := |slots|;
    var idx, start, i := from, from, MAX_LINEAR_PROBE;
    ghost var k, c, m := 0, 0, 2;
    StartTried(slots, incr, from, m);
    while true
      invariant idx < n && start < n && c < n && m >= 2
      invariant start == Shift(n, from, c) && idx == Jumps(n, incr, start, k)
      invariant NotBack(n, incr, start, k + 1)
      invariant c > 0 ==> Period(n, incr, m) && MAX_LINEAR_PROBE + c * m <= 2 * n && k < m
      invariant i == MAX_LINEAR_PROBE + c * m + k
      invariant Tried(slots, incr, from, m, c, start, k)
      decreases 3 * n + MAX_LINEAR_PROBE - i
    {
      NotBackBound(n, incr, start, k + 1);
      NextJump(n, incr, start, k);
      idx := Shift(n, idx, incr);
      if idx == start {
        FirstReturnIsPeriod(n, incr, start, k + 1);
        PeriodAboveOne(n, incr, k + 1);
        if c > 0 { PeriodUnique(n, incr, m, k + 1); }
        SetPeriod(slots, incr, from, m, c, start, k);
        m := k + 1;
        RoundDone(slots, incr, from, m, c, start, k);
        NextStart(n, from, c);
        RoundCounted(c, m);
        assert i == MAX_LINEAR_PROBE + c * m + (m - 1);
        idx := Shift(n, idx, 1);
        start := Shift(n, start, 1);
        c, k := c + 1, 0;
        if i >= n && i >= n * 2 {
          GivingUpCovers(slots, incr, from, m, c);
          return GaveUp;
        }
        RoundsBound(n, m, c);
        NoJump(n, incr, start);
        assert AllOther(slots, {}) by { NothingTried(slots); }
      } else {
        if c > 0 { StillInRound(n, incr, start, m, k); }
        k := k + 1;
      }
      if slots[idx].Empty? { return Found(idx); }
      if slots[idx].Match? { return AlreadyMatches; }
      OneMoreTried(slots, incr, from, m, c, start, k);
      i := i + 1;
    }
  }

  lemma NothingTried(slots: seq<Slot>)
    ensures AllOther(slots, {})
  {
  }

  lemma StillInRound(n: nat, d: nat, x: nat, m: nat, k: nat)
    requires Period(n, d, m) && x < n && k < m && Jumps(n, d, x, k + 1) != x
    ensures k + 1 < m
  {
  }

  lemma StartTried(slots: seq<Slot>, d: nat, from: nat, m: nat)
    requires from < |slots| && d <= |slots| && slots[from] == Other
    ensures Tried(slots, d, from, m, 0, from, 0) && Jumps(|slots|, d, from, 0) == from && Shift(|slots|, from, 0) == from
  {
    assert Round(|slots|, d, from, 1) == {from};
  }

  lemma NextJump(n: nat, d: nat, x: nat, k: nat)
    requires x < n && d <= n
    ensures Jumps(n, d, x, k + 1) == Shift(n, Jumps(n, d, x, k), d)
  {
  }

  lemma PeriodUnique(n: nat, d: nat, m: nat, m': nat)
    requires n > 0 && Period(n, d, m) && Period(n, d, m')
    ensures m == m'
  {
    hide Jumps;
    var a, b := Jumps(n, d, 0, m), Jumps(n, d, 0, m');
  }

  /** With no round completed yet, the period may still be chosen. */
  lemma SetPeriod(slots: seq<Slot>, d: nat, first: nat, m: nat, c: nat, start: nat, k: nat)
    requires first < |slots| && start < |slots| && d <= |slots| && c <= |slots|
    requires Tried(slots, d, first, m, c, start, k) && (c > 0 ==> m == k + 1)
    ensures Tried(slots, d, first, k + 1, c, start, k)
  {
  }

  lemma OneMoreTried(slots: seq<Slot>, d: nat, first: nat, m: nat, c: nat, start: nat, k: nat)
    requires first < |slots| && start < |slots| && d <= |slots| && c <= |slots|
    requires AllOther(slots, Rounds(|slots|, d, first, m, c))
    requires AllOther(slots, Round(|slots|, d, start, k))
    requires slots[Jumps(|slots|, d, start, k)] == Other
    ensures Tried(slots, d, first, m, c, start, k)
  {
    assert Round(|slots|, d, start, k + 1) == Round(|slots|, d, start, k) + {Jumps(|slots|, d, start, k)};
  }

  /** Scale a 64-bit fraction to a range: the upper word of the product. */
  function FastRange64(fraction: nat, range: nat): nat {
    UpperWord(fraction * range)
  }

  function UpperWord(x: nat): nat {
    x / WORD
  }

  lemma ProductBounds(f: nat, range: nat)
    requires WORD <= 2 * f && f < WORD && range >= 2
    ensures WORD <= f * range < range * WORD
  {
    assert f * range == 2 * f + f * (range - 2);
    assert range * WORD == f * range + range * (WORD - f);
  }

  lemma UpperWordBounds(x: nat, range: nat)
    requires WORD <= x < range * WORD
    ensures 0 < UpperWord(x) < range
  {
  }

  /** The jump length: about 0.618 of the table, varied a little by the hash. */
  function JumpLength(hash: nat, length: nat): nat {
    FastRange64(0x9E3779B185EBCA87 + hash / 64, length)
  }

  /** For every 64-bit hash and every table of two or more slots the jump is proper. */
  lemma JumpLengthInRange(hash: nat, length: nat)
    requires hash < WORD && length >= 2
    ensures 0 < JumpLength(hash, length) < length
  {
    hide UpperWord;
    var f := 0x9E3779B185EBCA87 + hash / 64;
    ProductBounds(f, length);
    UpperWordBounds(f * length, length);
  }
}
