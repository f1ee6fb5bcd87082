/**
 128-bit cache keys. Keys of files are made from unique ids by a reversible transformation; keys
 from two counters and the empty key live in the part of the key space that files never use.
 */
module CacheKeys {
  import opened Bits
  import opened Words

  /** Two words. Nothing below depends on their width, except the counters at the end. */
  datatype Pair = Pair(first: nat, second: nat)

  /** Exclusive or, bit by bit. */
  function Xor(a: nat, b: nat): nat
    decreases a + b
  {
    if a == 0 then b else if b == 0 then a
    else (if a % 2 == b % 2 then 0 else 1) + 2 * Xor(a / 2, b / 2)
  }

  lemma {:induction false} XorCommutes(a: nat, b: nat)
    ensures Xor(a, b) == Xor(b, a)
    decreases a + b
  {
    if a != 0 && b != 0 { XorCommutes(a / 2, b / 2); }
  }

  /** Exclusive or with the same word twice changes nothing. */
  lemma {:induction false} XorCancels(a: nat, b: nat)
    ensures Xor(Xor(a, b), b) == a
    decreases a + b
  {
    if a == 0 {
      XorSelf(b);
    } else if b != 0 {
      XorCancels(a / 2, b / 2);
      var x := Xor(a, b);
      assert x / 2 == Xor(a / 2, b / 2);
      if x == 0 { assert Xor(0, b / 2) == b / 2; }
    }
  }

  lemma {:induction false} XorSelf(a: nat)
    ensures Xor(a, a) == 0
  {
    if a != 0 { XorSelf(a / 2); }
  }

  lemma XorSwap(a: nat, b: nat)
    ensures Xor(Xor(a, b), a) == b && Xor(Xor(b, a), a) == b && Xor(a, Xor(b, a)) == b
  {
    XorCancels(b, a);
    XorCommutes(a, b);
    XorCommutes(Xor(b, a), a);
  }

  lemma XorZero(a: nat, b: nat)
    ensures Xor(a, b) == 0 <==> a == b
  {
    XorSelf(a);
    XorCancels(a, b);
  }

  lemma {:induction false} XorAssociates(a: nat, b: nat, c: nat)
    ensures Xor(Xor(a, b), c) == Xor(a, Xor(b, c))
    decreases a + b + c
  {
    if a == 0 || b == 0 || c == 0 {
      NoXor(a);
      NoXor(b);
      NoXor(c);
      NoXor(Xor(a, b));
    } else {
      XorAssociates(a / 2, b / 2, c / 2);
      XorHalves(a, b);
      XorHalves(b, c);
      XorHalves(Xor(a, b), c);
      XorHalves(a, Xor(b, c));
    }
  }

  lemma XorHalves(a: nat, b: nat)
    ensures Xor(a, b) / 2 == Xor(a / 2, b / 2) && Xor(a, b) % 2 == (if a % 2 == b % 2 then 0 else 1)
  {
    NoXor(a / 2);
    NoXor(b / 2);
  }

  /** Two exclusive ors agree exactly if their operands differ in the same bits. */
  lemma {:induction false} XorBalance(a: nat, x: nat, b: nat, y: nat)
    ensures Xor(a, x) == Xor(b, y) <==> Xor(a, b) == Xor(x, y)
  {
    hide Xor;
    XorZero(Xor(a, x), Xor(b, y));
    XorZero(Xor(a, b), Xor(x, y));
    XorAssociates(a, x, Xor(b, y));
    XorAssociates(x, b, y);
    XorCommutes(x, b);
    XorAssociates(b, x, y);
    XorAssociates(a, b, Xor(x, y));
  }

  /** What is needed of bit reversal: it undoes itself, and keeps zero. */
  ghost predicate Reversal(reverse: nat -> nat) {
    reverse(0) == 0 && forall x :: reverse(reverse(x)) == x
  }

  function PowerIf(set_: bool, w: nat): nat {
    if set_ then Pow2(w) else 0
  }

  /** The w lowest bits of x in reverse order. */
  function LowReversed(w: nat, x: nat): nat {
    if w == 0 then 0 else PowerIf(x % 2 == 1, w - 1) + LowReversed(w - 1, x / 2)
  }

  /** x moved up by w bits. */
  function Up(x: nat, w: nat): nat {
    if w == 0 then x else 2 * Up(x, w - 1)
  }

  /** x with its w lowest bits in reverse order. */
  function Reverse(w: nat, x: nat): nat {
    Up(Above(x, w), w) + LowReversed(w, x)
  }

  lemma {:induction false} ReversedBelow(w: nat, x: nat)
    ensures LowReversed(w, x) < Pow2(w)
  {
    if w > 0 { ReversedBelow(w - 1, x / 2); }
  }

  /** The highest bit becomes the lowest. */
  lemma {:induction false} TopComesLast(w: nat, top: bool, b: nat)
    requires b < Pow2(w)
    ensures LowReversed(w + 1, PowerIf(top, w) + b) == 2 * LowReversed(w, b) + PowerIf(top, 0)
  {
    var x := PowerIf(top, w) + b;
    assert LowReversed(w + 1, x) == PowerIf(x % 2 == 1, w) + LowReversed(w, x / 2);
    if w > 0 {
      assert x % 2 == b % 2 && x / 2 == PowerIf(top, w - 1) + b / 2;
      TopComesLast(w - 1, top, b / 2);
    }
  }

  lemma {:induction false} ReversedTwice(w: nat, x: nat)
    ensures LowReversed(w, LowReversed(w, x)) == BottomBits(x, w)
  {
    if w > 0 {
      ReversedTwice(w - 1, x / 2);
      ReversedBelow(w - 1, x / 2);
      TopComesLast(w - 1, x % 2 == 1, LowReversed(w - 1, x / 2));
    }
  }

  lemma {:induction false} UpAndBack(x: nat, w: nat, y: nat)
    requires y < Pow2(w)
    ensures Above(Up(x, w) + y, w) == x && LowReversed(w, Up(x, w) + y) == LowReversed(w, y)
  {
    if w > 0 {
      UpAndBack(x, w - 1, y / 2);
      assert (Up(x, w) + y) / 2 == Up(x, w - 1) + y / 2 && (Up(x, w) + y) % 2 == y % 2;
    }
  }

  lemma {:induction false} UpperAndLower(x: nat, w: nat)
    ensures x == Up(Above(x, w), w) + BottomBits(x, w)
  {
    if w > 0 { UpperAndLower(x / 2, w - 1); }
  }

  lemma ReverseTwice(w: nat, x: nat)
    ensures Reverse(w, Reverse(w, x)) == x
  {
    hide LowReversed, Pow2, Up, Above;
    ReversedBelow(w, x);
    UpAndBack(Above(x, w), w, LowReversed(w, x));
    ReversedTwice(w, x);
    UpperAndLower(x, w);
  }

  lemma {:induction false} NothingReversed(w: nat)
    ensures LowReversed(w, 0) == 0 && Up(0, w) == 0 && Above(0, w) == 0
  {
    if w > 0 { NothingReversed(w - 1); }
  }

  /** Bit reversal of words of any width has the properties used here. */
  lemma ReverseIsReversal(w: nat)
    ensures Reversal((x: nat) => Reverse(w, x))
  {
    hide Reverse;
    assert Reverse(w, 0) == 0 by { ReverseZero(w); }
    forall x: nat ensures Reverse(w, Reverse(w, x)) == x { ReverseTwice(w, x); }
  }

  lemma ReverseZero(w: nat)
    ensures Reverse(w, 0) == 0
  {
    NothingReversed(w);
  }

  /** The base key of a file, from its internal unique id. */
  function FromInternalUniqueId(reverse: nat -> nat, down: nat -> nat, id: Pair): Pair {
    var session := if id.first == 0 then id.second else id.first;
    var file := Xor(down(session), reverse(id.second));
    var offset := reverse(session);
    if file == 0 then Pair(offset, file) else Pair(file, offset)
  }

  /** And back. */
  function ToInternalUniqueId(reverse: nat -> nat, down: nat -> nat, key: Pair): Pair {
    var a, b := if key.second == 0 then key.second else key.first, if key.second == 0 then key.first else key.second;
    var session := reverse(b);
    Pair(session, reverse(Xor(a, down(session))))
  }

  lemma ReversalOfZero(reverse: nat -> nat, x: nat)
    requires Reversal(reverse)
    ensures reverse(x) == 0 <==> x == 0
  {
    assert reverse(reverse(x)) == x;
  }

  lemma NoXor(a: nat)
    ensures Xor(0, a) == a && Xor(a, 0) == a
  {
  }

  /** An id survives the round trip exactly when its first word is non-zero or it is empty. */
  lemma IdRoundTrip(reverse: nat -> nat, down: nat -> nat, id: Pair)
    requires Reversal(reverse) && down(0) == 0
    ensures ToInternalUniqueId(reverse, down, FromInternalUniqueId(reverse, down, id)) == id <==>
            id.first != 0 || id.second == 0
  {
    hide Xor;
    var session := if id.first == 0 then id.second else id.first;
    var d, r := down(session), reverse(id.second);
    XorSwap(d, r);
    XorZero(d, r);
    NoXor(d);
    ReversalOfZero(reverse, session);
    assert reverse(reverse(session)) == session && reverse(r) == id.second;
  }

  /** A key survives the round trip exactly when its first word is non-zero or it is empty. */
  lemma KeyRoundTrip(reverse: nat -> nat, down: nat -> nat, key: Pair)
    requires Reversal(reverse) && down(0) == 0
    ensures FromInternalUniqueId(reverse, down, ToInternalUniqueId(reverse, down, key)) == key <==>
            key.first != 0 || key.second == 0
  {
    var a, b := if key.second == 0 then key.second else key.first, if key.second == 0 then key.first else key.second;
    hide Xor;
    var session := reverse(b);
    var m := Xor(a, down(session));
    assert reverse(reverse(b)) == b && reverse(reverse(m)) == m;
    ReversalOfZero(reverse, b);
    XorSwap(down(session), a);
    NoXor(down(session));
  }

  /** A non-empty id gives a base key whose first word is non-zero. */
  lemma FileKeysAreNonZero(reverse: nat -> nat, down: nat -> nat, id: Pair)
    requires Reversal(reverse) && down(0) == 0
    ensures FromInternalUniqueId(reverse, down, id).first == 0 <==> id == Pair(0, 0)
  {
    var session := if id.first == 0 then id.second else id.first;
    ReversalOfZero(reverse, session);
  }

  // All keys handed out in a process.

  datatype Request = ForCacheLifetime | ForProcessLifetime | ForOffset(base: Pair, offset: nat)

  /** The id counter of the cache, counting up from zero, and that of the process, counting down. */
  datatype Counters = Counters(newId: nat, process: nat)

  const TOP: nat := 0x8000_0000_0000_0000
  const INITIAL: Counters := Counters(0, WORD - 1)

  function Advance(s: Counters, r: Request): Counters {
    match r
    case ForCacheLifetime => s.(newId := (s.newId + 1) % WORD)
    case ForProcessLifetime => s.(process := (s.process + WORD - 1) % WORD)
    case ForOffset(_, _) => s
  }

  function KeyFor(s: Counters, r: Request): Pair {
    match r
    case ForCacheLifetime => Pair(0, (s.newId + 1) % WORD)
    case ForProcessLifetime => Pair(0, s.process)
    case ForOffset(base, offset) => Pair(base.first, Xor(base.second, offset))
  }

  /** What the source asserts of each request: the counters keep to their halves, base keys are not empty. */
  predicate Allowed(s: Counters, r: Request) {
    match r
    case ForCacheLifetime => (s.newId + 1) % WORD < TOP
    case ForProcessLifetime => s.process >= TOP
    case ForOffset(base, _) => base.first != 0
  }

  function After(rs: seq<Request>): Counters {
    if rs == [] then INITIAL else Advance(After(rs[..|rs| - 1]), rs[|rs| - 1])
  }

  predicate AllowedRun(rs: seq<Request>) {
    forall i :: 0 <= i < |rs| ==> Allowed(After(rs[..i]), rs[i])
  }

  /** Key number i of a run. */
  function Issued(rs: seq<Request>, i: nat): Pair
    requires i < |rs|
  {
    KeyFor(After(rs[..i]), rs[i])
  }

  lemma AdvanceBounds(s: Counters, r: Request)
    requires Allowed(s, r) && s.newId < TOP && s.process < WORD
    ensures Advance(s, r).newId == s.newId + (if r.ForCacheLifetime? then 1 else 0) < TOP
    ensures Advance(s, r).process == s.process - (if r.ForProcessLifetime? then 1 else 0)
  {
  }

  lemma {:induction false} CounterBounds(rs: seq<Request>, i: nat)
    requires AllowedRun(rs) && i <= |rs|
    ensures After(rs[..i]).newId < TOP && After(rs[..i]).process < WORD
  {
    if i > 0 {
      CounterBounds(rs, i - 1);
      assert rs[..i][..i - 1] == rs[..i - 1];
      AdvanceBounds(After(rs[..i - 1]), rs[i - 1]);
    }
  }

  /** The counters move in one direction. */
  lemma {:induction false} CountersMove(rs: seq<Request>, i: nat, j: nat)
    requires AllowedRun(rs) && i <= j <= |rs|
    ensures After(rs[..i]).newId <= After(rs[..j]).newId && After(rs[..j]).process <= After(rs[..i]).process
    decreases j
  {
    hide After, AllowedRun, Allowed, Advance;
    if i < j {
      CountersMove(rs, i, j - 1);
      CounterBounds(rs, j - 1);
      OneStep(rs, j - 1);
      AllowedAt(rs, j - 1);
      AdvanceBounds(After(rs[..j - 1]), rs[j - 1]);
    }
  }

  /** Two requests, the second after the first. */
  lemma KeysDiffer(s: Counters, r: Request, s': Counters, r': Request)
    requires Allowed(s, r) && s.newId < TOP && s.process < WORD
    requires Allowed(s', r') && s'.newId < TOP && s'.process < WORD
    requires Advance(s, r).newId <= s'.newId && s'.process <= Advance(s, r).process
    ensures KeyFor(s, r) != Pair(0, 0) && KeyFor(s', r') != Pair(0, 0)
    ensures r.ForOffset? != r'.ForOffset? ==> KeyFor(s, r) != KeyFor(s', r')
    ensures !r.ForOffset? && !r'.ForOffset? ==> KeyFor(s, r) != KeyFor(s', r')
    ensures r.ForOffset? && r'.ForOffset? ==>
              (KeyFor(s, r) == KeyFor(s', r') <==>
               r.base.first == r'.base.first && Xor(r.base.second, r'.base.second) == Xor(r.offset, r'.offset))
  {
    hide Xor;
    AdvanceBounds(s, r);
    if r.ForOffset? && r'.ForOffset? { XorBalance(r.base.second, r.offset, r'.base.second, r'.offset); }
  }

  /**
   No request gets the empty key, and two requests of a run get the same key only if both are for
   offsets in files whose base keys have the same first word, at offsets that differ in exactly the
   bits in which the second words differ. Within one file these are equal offsets.
   */
  lemma KeysNeverCollide(rs: seq<Request>, i: nat, j: nat)
    requires AllowedRun(rs) && i < j < |rs|
    ensures Issued(rs, i) != Pair(0, 0) && Issued(rs, j) != Pair(0, 0)
    ensures rs[i].ForOffset? != rs[j].ForOffset? ==> Issued(rs, i) != Issued(rs, j)
    ensures !rs[i].ForOffset? && !rs[j].ForOffset? ==> Issued(rs, i) != Issued(rs, j)
    ensures rs[i].ForOffset? && rs[j].ForOffset? ==>
              (Issued(rs, i) == Issued(rs, j) <==>
               rs[i].base.first == rs[j].base.first &&
               Xor(rs[i].base.second, rs[j].base.second) == Xor(rs[i].offset, rs[j].offset))
    ensures rs[i].ForOffset? && rs[j].ForOffset? && rs[i].base == rs[j].base ==>
              (Issued(rs, i) == Issued(rs, j) <==> rs[i].offset == rs[j].offset)
  {
    if rs[i].ForOffset? && rs[j].ForOffset? {
      XorSelf(rs[i].base.second);
      XorZero(rs[i].offset, rs[j].offset);
    }
    hide KeyFor, Advance, After, AllowedRun;
    CountersMove(rs, i + 1, j);
    CounterBounds(rs, i);
    CounterBounds(rs, j);
    OneStep(rs, i);
    AllowedAt(rs, i);
    AllowedAt(rs, j);
    KeysDiffer(After(rs[..i]), rs[i], After(rs[..j]), rs[j]);
  }

  lemma OneStep(rs: seq<Request>, i: nat)
    requires i < |rs|
    ensures After(rs[..i + 1]) == Advance(After(rs[..i]), rs[i])
  {
    assert rs[..i + 1][..i] == rs[..i];
  }

  lemma AllowedAt(rs: seq<Request>, i: nat)
    requires AllowedRun(rs) && i < |rs|
    ensures Allowed(After(rs[..i]), rs[i])
  {
  }

  // Keys of two files.

  function WithOffset(base: Pair, offset: nat): Pair {
    KeyFor(INITIAL, ForOffset(base, offset))
  }

  /** x without its k lowest bits. */
  function Above(x: nat, k: nat): nat {
    if k == 0 then x else Above(x / 2, k - 1)
  }

  lemma {:induction false} AboveIsZero(x: nat, k: nat)
    ensures Above(x, k) == 0 <==> x < Pow2(k)
  {
    if k > 0 { AboveIsZero(x / 2, k - 1); }
  }

  lemma {:induction false} XorAbove(a: nat, b: nat, k: nat)
    ensures Above(Xor(a, b), k) == Xor(Above(a, k), Above(b, k))
  {
    if k > 0 {
      XorHalves(a, b);
      XorAbove(a / 2, b / 2, k - 1);
    }
  }

  /** Exclusive or stays below 2^k exactly if the operands agree above bit k. */
  lemma XorBelow(a: nat, b: nat, k: nat)
    ensures Xor(a, b) < Pow2(k) <==> Above(a, k) == Above(b, k)
  {
    AboveIsZero(Xor(a, b), k);
    XorAbove(a, b, k);
    XorZero(Above(a, k), Above(b, k));
  }

  /** Whether some offsets below 2^k in the two files have the same key. */
  ghost predicate Collide(a: Pair, b: Pair, k: nat) {
    exists x: nat, y: nat :: x < Pow2(k) && y < Pow2(k) && WithOffset(a, x) == WithOffset(b, y)
  }

  /** Files with offsets below 2^k share a key if and only if their base keys agree except for the k lowest bits. */
  lemma FilesCollideIff(a: Pair, b: Pair, k: nat)
    ensures Collide(a, b, k) <==> a.first == b.first && Above(a.second, k) == Above(b.second, k)
  {
    hide Xor, Above;
    if Collide(a, b, k) {
      var x: nat, y: nat :| x < Pow2(k) && y < Pow2(k) && WithOffset(a, x) == WithOffset(b, y);
      XorBalance(a.second, x, b.second, y);
      AboveIsZero(x, k);
      AboveIsZero(y, k);
      XorBelow(x, y, k);
      XorBelow(a.second, b.second, k);
    }
    if a.first == b.first && Above(a.second, k) == Above(b.second, k) {
      var x := Xor(a.second, b.second);
      XorBelow(a.second, b.second, k);
      XorSwap(a.second, b.second);
      NoXor(b.second);
      AboveIsZero(0, k);
      assert WithOffset(a, x) == WithOffset(b, 0) by { XorBalance(a.second, x, b.second, 0); NoXor(x); }
    }
  }

  /** The word of a file's base key that identifies the file within its session; zero makes the two words swap. */
  function FileWord(reverse: nat -> nat, down: nat -> nat, id: Pair): nat {
    Xor(down(id.first), reverse(id.second))
  }

  /**
   Two files of one session share a key if and only if the words of one base key were swapped, the
   other file's word happens to be the reversed session, and the offsets differ in exactly its bits.
   */
  lemma SessionFilesCollideIff(reverse: nat -> nat, down: nat -> nat, a: Pair, b: Pair, x: nat, y: nat)
    requires Reversal(reverse) && a.first == b.first != 0 && a.second != b.second
    ensures var f, g, session := FileWord(reverse, down, a), FileWord(reverse, down, b), reverse(a.first);
            WithOffset(FromInternalUniqueId(reverse, down, a), x) == WithOffset(FromInternalUniqueId(reverse, down, b), y) <==>
            Xor(x, y) == session && ((f == 0 && g == session) || (g == 0 && f == session))
  {
    hide Xor;
    var d, session := down(a.first), reverse(a.first);
    assert reverse(reverse(a.second)) == a.second && reverse(reverse(b.second)) == b.second;
    XorBalance(d, reverse(a.second), d, reverse(b.second));
    XorSelf(d);
    XorZero(reverse(a.second), reverse(b.second));
    XorBalance(0, x, session, y);
    XorBalance(session, x, 0, y);
    NoXor(session);
  }
}
