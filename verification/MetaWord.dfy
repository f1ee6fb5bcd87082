/**
 The 64-bit word that carries a slot's whole state: a 30-bit acquire counter, a 30-bit release
 counter, the hit bit and a 3-bit state marker, from the low end to the high end. Words are
 numbers below 2^64; every operation is the arithmetic one performed on the whole word.
 */
module MetaWord {
  import opened Words

  /** 2^30, one more than the largest counter value. */
  const COUNTER: nat := 0x4000_0000
  /** 2^29, the top bit of a counter. */
  const COUNTER_TOP: nat := 0x2000_0000
  /** 2^60, the hit bit. */
  const HIT: nat := 0x1000_0000_0000_0000
  /** 2^61, the lowest bit of the state marker. */
  const STATE: nat := 0x2000_0000_0000_0000

  const EMPTY: nat := 0
  const CONSTRUCTION: nat := 4
  const INVISIBLE: nat := 6
  const VISIBLE: nat := 7

  const MAX_COUNTDOWN: nat := 3

  function Acquires(w: Word): (r: nat)
    ensures r < COUNTER
  {
    w % COUNTER
  }

  function Releases(w: Word): (r: nat)
    ensures r < COUNTER
  {
    w / COUNTER % COUNTER
  }

  function Hit(w: Word): (r: nat)
    ensures r < 2
  {
    w / COUNTER / COUNTER % 2
  }

  function Marker(w: Word): (r: nat)
    ensures r < 8
  {
    w / COUNTER / COUNTER / 2
  }

  function Make(acquires: nat, releases: nat, hit: nat, marker: nat): Word
    requires acquires < COUNTER && releases < COUNTER && hit < 2 && marker < 8
  {
    acquires + releases * COUNTER + hit * HIT + marker * STATE
  }

  /** The fields determine the word, and any fields in range come from a word. */
  lemma FieldsOfMake(a: nat, r: nat, h: nat, m: nat)
    requires a < COUNTER && r < COUNTER && h < 2 && m < 8
    ensures var w := Make(a, r, h, m);
            Acquires(w) == a && Releases(w) == r && Hit(w) == h && Marker(w) == m
  {
    var w := Make(a, r, h, m);
    var high := r + COUNTER * (h + 2 * m);
    assert w == a + COUNTER * high;
    assert w / COUNTER == high;
    assert high / COUNTER == h + 2 * m;
  }

  lemma MakeOfFields(w: Word)
    ensures w == Make(Acquires(w), Releases(w), Hit(w), Marker(w))
  {
  }

  predicate Shareable(w: Word) {
    Marker(w) / 2 % 2 == 1
  }

  /** The source's reference count: difference of the counters, masked to the counter width. */
  function Refcount(w: Word): nat {
    (w - w / COUNTER) % COUNTER
  }

  lemma RefcountIsDifference(w: Word)
    ensures Refcount(w) == (Acquires(w) - Releases(w)) % COUNTER
    ensures Acquires(w) >= Releases(w) ==> Refcount(w) == Acquires(w) - Releases(w)
  {
    var high := w / COUNTER;
    assert w == Acquires(w) + COUNTER * high && high == Releases(w) + COUNTER * (high / COUNTER);
    var q := high - high / COUNTER;
    var d := Acquires(w) - Releases(w);
    assert w - high == d + COUNTER * q;
  }

  // Atomic read-modify-write operations on the word.

  function AddAcquires(w: Word, n: nat): Word {
    (w + n) % WORD
  }

  function SubAcquires(w: Word, n: nat): Word {
    (w - n) % WORD
  }

  function AddReleases(w: Word, n: nat): Word {
    (w + n * COUNTER) % WORD
  }

  /** Or-in the occupied bit. */
  function SetOccupied(w: Word): Word {
    if Marker(w) >= 4 then w else w + 4 * STATE
  }

  /** And-out the visible bit. */
  function ClearVisible(w: Word): Word {
    if Marker(w) % 2 == 1 then w - STATE else w
  }

  /** Or-in the hit bit. */
  function SetHit(w: Word): Word {
    if Hit(w) == 1 then w else w + HIT
  }

  /** And-out the top bit of both counters. */
  function ClearTopBits(w: Word): Word {
    w - (if Acquires(w) >= COUNTER_TOP then COUNTER_TOP else 0)
      - (if Releases(w) >= COUNTER_TOP then COUNTER_TOP * COUNTER else 0)
  }

  /** The test on the release counter: its top bit, or the bit worth MAX_COUNTDOWN + 1. */
  predicate NearOverflow(w: Word) {
    Releases(w) >= COUNTER_TOP || Releases(w) / (MAX_COUNTDOWN + 1) % 2 == 1
  }

  /** The correction applied to the current word once a thread has seen `seen`. */
  function Corrected(seen: Word, w: Word): Word {
    if NearOverflow(seen) then ClearTopBits(w) else w
  }

  lemma AddAcquiresFields(w: Word, n: nat)
    requires Acquires(w) + n < COUNTER
    ensures var w' := AddAcquires(w, n);
            && Acquires(w') == Acquires(w) + n && Releases(w') == Releases(w)
            && Hit(w') == Hit(w) && Marker(w') == Marker(w)
  {
    hide Acquires, Releases, Hit, Marker;
    MakeOfFields(w);
    FieldsOfMake(Acquires(w) + n, Releases(w), Hit(w), Marker(w));
  }

  /** Attempts on a word that is not shareable may spill from one counter into the other. */
  lemma AddAcquiresState(w: Word, n: nat)
    requires w % HIT + n < HIT
    ensures Hit(AddAcquires(w, n)) == Hit(w) && Marker(AddAcquires(w, n)) == Marker(w)
  {
    hide Hit, Marker;
    var q, r := w / HIT, w % HIT;
    assert w + n == q * HIT + (r + n);
    StateOfWord(q, r);
    StateOfWord(q, r + n);
  }

  lemma StateOfWord(q: nat, r: nat)
    requires r < HIT && q < 16
    ensures var w := q * HIT + r; w < WORD && Hit(w) == q % 2 && Marker(w) == q / 2
  {
    var w := q * HIT + r;
    assert COUNTER * COUNTER == HIT;
    assert w / COUNTER / COUNTER == q;
  }

  lemma SubAcquiresFields(w: Word, n: nat)
    requires n <= Acquires(w)
    ensures var w' := SubAcquires(w, n);
            && Acquires(w') == Acquires(w) - n && Releases(w') == Releases(w)
            && Hit(w') == Hit(w) && Marker(w') == Marker(w)
  {
    hide Acquires, Releases, Hit, Marker;
    MakeOfFields(w);
    FieldsOfMake(Acquires(w) - n, Releases(w), Hit(w), Marker(w));
  }

  lemma AddReleasesFields(w: Word, n: nat)
    requires Releases(w) + n < COUNTER
    ensures var w' := AddReleases(w, n);
            && Acquires(w') == Acquires(w) && Releases(w') == Releases(w) + n
            && Hit(w') == Hit(w) && Marker(w') == Marker(w)
  {
    hide Acquires, Releases, Hit, Marker;
    MakeOfFields(w);
    FieldsOfMake(Acquires(w), Releases(w) + n, Hit(w), Marker(w));
  }

  lemma SetOccupiedFields(w: Word)
    ensures var w' := SetOccupied(w);
            && Acquires(w') == Acquires(w) && Releases(w') == Releases(w) && Hit(w') == Hit(w)
            && Marker(w') == if Marker(w) >= 4 then Marker(w) else Marker(w) + 4
  {
    MakeOfFields(w);
    if Marker(w) < 4 { FieldsOfMake(Acquires(w), Releases(w), Hit(w), Marker(w) + 4); }
  }

  lemma ClearVisibleFields(w: Word)
    ensures var w' := ClearVisible(w);
            && Acquires(w') == Acquires(w) && Releases(w') == Releases(w) && Hit(w') == Hit(w)
            && Marker(w') == if Marker(w) % 2 == 1 then Marker(w) - 1 else Marker(w)
  {
    MakeOfFields(w);
    if Marker(w) % 2 == 1 { FieldsOfMake(Acquires(w), Releases(w), Hit(w), Marker(w) - 1); }
  }

  lemma SetHitFields(w: Word)
    ensures var w' := SetHit(w);
            && Acquires(w') == Acquires(w) && Releases(w') == Releases(w)
            && Hit(w') == 1 && Marker(w') == Marker(w)
  {
    MakeOfFields(w);
    FieldsOfMake(Acquires(w), Releases(w), 1, Marker(w));
  }

  lemma ClearTopBitsFields(w: Word)
    ensures var w' := ClearTopBits(w);
            && Acquires(w') == Acquires(w) % COUNTER_TOP && Releases(w') == Releases(w) % COUNTER_TOP
            && Hit(w') == Hit(w) && Marker(w') == Marker(w)
  {
    hide Acquires, Releases, Hit, Marker;
    MakeOfFields(w);
    FieldsOfMake(Acquires(w) % COUNTER_TOP, Releases(w) % COUNTER_TOP, Hit(w), Marker(w));
  }

  /**
   The overflow correction keeps the reference count exactly when it does not fire or the top
   bits of the two counters agree.
   */
  lemma CorrectionKeepsRefcount(seen: Word, w: Word)
    ensures Refcount(Corrected(seen, w)) == Refcount(w) <==>
            !NearOverflow(seen) || (Acquires(w) >= COUNTER_TOP <==> Releases(w) >= COUNTER_TOP)
  {
    hide Acquires, Releases, Refcount, ClearTopBits, Marker, Hit;
    ClearTopBitsFields(w);
    RefcountIsDifference(w);
    RefcountIsDifference(ClearTopBits(w));
  }
}
