/**
 The hash table of the LRU cache: an array of chains, indexed by the upper bits of a 32-bit hash,
 that doubles when it is full. It must behave like a map from key to handle.
 */
module LruHandleTable {
  import opened Options
  import opened Bits

  datatype Key = Key(hash: nat, name: nat)

  datatype Entry = Entry(key: Key, handle: nat)

  /** The bucket of a w-bit hash in a table of 2^bits buckets: its upper bits. */
  function BucketOf(w: nat, hash: nat, bits: nat): nat
    requires bits <= w
  {
    Quotient(hash, Pow2(w - bits))
  }

  function Quotient(x: nat, d: nat): nat
    requires d > 0
  {
    x / d
  }

  // Chains and their contents.

  predicate DistinctKeys(s: seq<Entry>) {
    forall i, j :: 0 <= i < j < |s| ==> s[i].key != s[j].key
  }

  function Flat(b: seq<seq<Entry>>): seq<Entry> {
    if b == [] then [] else b[0] + Flat(b[1..])
  }

  function ToMap(s: seq<Entry>): map<Key, nat> {
    if s == [] then map[] else ToMap(s[1..])[s[0].key := s[0].handle]
  }

  ghost predicate BucketOk(w: nat, c: seq<Entry>, bits: nat, i: nat)
    requires bits <= w
  {
    DistinctKeys(c) && forall e :: e in c ==> e.key.hash < Pow2(w) && BucketOf(w, e.key.hash, bits) == i
  }

  ghost predicate BucketsOk(w: nat, b: seq<seq<Entry>>, bits: nat) {
    && bits <= w && |b| == Pow2(bits)
    && forall i :: 0 <= i < |b| ==> BucketOk(w, b[i], bits, i)
  }

  /** What the table stands for. */
  function Contents(b: seq<seq<Entry>>): map<Key, nat> {
    ToMap(Flat(b))
  }

  lemma {:induction false} FlatMembers(b: seq<seq<Entry>>, e: Entry)
    ensures e in Flat(b) <==> exists i :: 0 <= i < |b| && e in b[i]
  {
    hide Flat;
    if e in Flat(b) {
      var i := FlatIndex(b, e);
    } else if i :| 0 <= i < |b| && e in b[i] {
      FlatHas(b, i, e);
    }
  }

  lemma {:induction false} FlatHas(b: seq<seq<Entry>>, i: nat, e: Entry)
    requires i < |b| && e in b[i]
    ensures e in Flat(b)
  {
    if i > 0 { FlatHas(b[1..], i - 1, e); }
  }

  lemma {:induction false} FlatIndex(b: seq<seq<Entry>>, e: Entry) returns (i: nat)
    requires e in Flat(b)
    ensures i < |b| && e in b[i]
  {
    if e in b[0] {
      i := 0;
    } else {
      var j := FlatIndex(b[1..], e);
      i := j + 1;
    }
  }

  lemma {:induction false} FlatConcat(a: seq<seq<Entry>>, b: seq<seq<Entry>>)
    ensures Flat(a + b) == Flat(a) + Flat(b)
  {
    if a == [] {
      assert a + b == b;
    } else {
      assert (a + b)[1..] == a[1..] + b;
      FlatConcat(a[1..], b);
    }
  }

  lemma Regroup(a: seq<Entry>, b: seq<Entry>, c: seq<Entry>)
    ensures a + (b + c) == a + b + c
  {
  }

  /** Splitting out one bucket. */
  lemma FlatAt(b: seq<seq<Entry>>, i: nat)
    requires i < |b|
    ensures Flat(b) == Flat(b[..i]) + b[i] + Flat(b[i + 1..])
  {
    var t := b[i..];
    assert t[0] == b[i] && t[1..] == b[i + 1..];
    assert b == b[..i] + t;
    FlatConcat(b[..i], t);
    Regroup(Flat(b[..i]), b[i], Flat(b[i + 1..]));
  }

  /** Buckets later than n hold no hash of buckets before n. */
  lemma {:induction false} FlatDistinct(w: nat, b: seq<seq<Entry>>, bits: nat, n: nat)
    requires BucketsOk(w, b, bits) && n <= |b|
    ensures DistinctKeys(Flat(b[n..]))
    ensures forall e :: e in Flat(b[n..]) ==> e.key.hash < Pow2(w) && BucketOf(w, e.key.hash, bits) >= n
    decreases |b| - n
  {
    if n < |b| {
      FlatDistinct(w, b, bits, n + 1);
      assert BucketOk(w, b[n], bits, n);
      assert b[n..][0] == b[n] && b[n..][1..] == b[n + 1..];
      var s, t := b[n], Flat(b[n + 1..]);
      assert Flat(b[n..]) == s + t;
      assert forall i :: 0 <= i < |t| ==> t[i] in t;
      assert forall i :: 0 <= i < |s| ==> s[i] in s;
    } else {
      assert b[n..] == [];
    }
  }

  lemma {:induction false} ToMapMembers(s: seq<Entry>, k: Key)
    ensures k in ToMap(s) <==> exists e :: e in s && e.key == k
  {
    if s != [] {
      ToMapMembers(s[1..], k);
      if exists e :: e in s && e.key == k {
        var e :| e in s && e.key == k;
        if e != s[0] { assert e in s[1..]; }
      }
    }
  }

  lemma {:induction false} ToMapValue(s: seq<Entry>, e: Entry)
    requires DistinctKeys(s) && e in s
    ensures e.key in ToMap(s) && ToMap(s)[e.key] == e.handle
  {
    if e != s[0] {
      assert e in s[1..];
      ToMapValue(s[1..], e);
      var i :| 0 <= i < |s[1..]| && s[1..][i] == e;
      assert s[i + 1] == e;
    }
  }

  lemma {:induction false} ToMapSize(s: seq<Entry>)
    requires DistinctKeys(s)
    ensures |ToMap(s)| == |s|
  {
    if s != [] {
      ToMapSize(s[1..]);
      ToMapMembers(s[1..], s[0].key);
      assert forall e :: e in s[1..] ==> e.key != s[0].key;
    }
  }

  /** A map that agrees with all entries, and has no other keys, is the contents. */
  lemma ToMapIs(s: seq<Entry>, m: map<Key, nat>)
    requires DistinctKeys(s)
    requires forall e :: e in s ==> e.key in m && m[e.key] == e.handle
    requires forall k :: k in m ==> exists e :: e in s && e.key == k
    ensures ToMap(s) == m
  {
    forall k
      ensures k in ToMap(s) <==> k in m
      ensures k in m ==> ToMap(s)[k] == m[k]
    {
      ToMapMembers(s, k);
      if k in m {
        var e :| e in s && e.key == k;
        ToMapValue(s, e);
      }
    }
  }

  /** An entry of the table is in the bucket of its hash. */
  lemma EntryInBucket(w: nat, b: seq<seq<Entry>>, bits: nat, e: Entry)
    requires BucketsOk(w, b, bits) && e in Flat(b)
    ensures var i := BucketOf(w, e.key.hash, bits); i < |b| && e in b[i]
  {
    FlatMembers(b, e);
    var i :| 0 <= i < |b| && e in b[i];
    assert BucketOk(w, b[i], bits, i);
  }

  lemma AllDistinct(w: nat, b: seq<seq<Entry>>, bits: nat)
    requires BucketsOk(w, b, bits)
    ensures DistinctKeys(Flat(b))
  {
    FlatDistinct(w, b, bits, 0);
    assert b[0..] == b;
  }

  lemma BucketBelow(w: nat, hash: nat, bits: nat)
    requires bits <= w && hash < Pow2(w)
    ensures BucketOf(w, hash, bits) < Pow2(bits)
  {
    Pow2Product(bits, w - bits);
    DivBelow(hash, Pow2(bits), Pow2(w - bits));
  }

  lemma {:induction false} Pow2Product(a: nat, b: nat)
    ensures Pow2(a + b) == Pow2(a) * Pow2(b)
  {
    hide Pow2;
    if a == 0 {
      Pow2Zero();
    } else {
      Pow2Product(a - 1, b);
      Pow2Step(a - 1);
      Pow2Step(a + b - 1);
      DoubleProduct(Pow2(a - 1), Pow2(b));
    }
  }

  lemma Pow2Zero()
    ensures Pow2(0) == 1
  {
  }

  lemma Pow2Step(a: nat)
    ensures Pow2(a + 1) == 2 * Pow2(a)
  {
  }

  lemma DoubleProduct(x: nat, y: nat)
    ensures 2 * (x * y) == (2 * x) * y
  {
  }

  lemma DivBelow(x: nat, q: nat, d: nat)
    requires d > 0 && x < q * d
    ensures x / d < q
  {
    if x / d >= q { MulMonotone(q, x / d, d); }
  }

  /** Looking a key up in its bucket is looking it up in the map. */
  lemma FoundInBucket(w: nat, b: seq<seq<Entry>>, bits: nat, k: Key, c: nat, j: nat)
    requires BucketsOk(w, b, bits) && k.hash < Pow2(w) && c == BucketOf(w, k.hash, bits) && c < |b| && j <= |b[c]|
    requires forall i :: 0 <= i < j ==> b[c][i].key != k
    requires j == |b[c]| || b[c][j].key == k
    ensures k in Contents(b) <==> j < |b[c]|
    ensures j < |b[c]| ==> Contents(b)[k] == b[c][j].handle
  {
    AllDistinct(w, b, bits);
    ToMapMembers(Flat(b), k);
    if j < |b[c]| {
      FlatMembers(b, b[c][j]);
      ToMapValue(Flat(b), b[c][j]);
    } else if k in Contents(b) {
      var e :| e in Flat(b) && e.key == k;
      EntryInBucket(w, b, bits, e);
    }
  }

  // Changing one bucket.

  lemma BucketUpdated(w: nat, b: seq<seq<Entry>>, bits: nat, c: nat, x: seq<Entry>)
    requires BucketsOk(w, b, bits) && c < |b| && BucketOk(w, x, bits, c)
    ensures BucketsOk(w, b[c := x], bits)
    ensures |Flat(b[c := x])| == |Flat(b)| - |b[c]| + |x|
    ensures forall e :: e in Flat(b[c := x]) <==> e in x || (e in Flat(b) && e !in b[c])
  {
    var b' := b[c := x];
    FlatAt(b, c);
    FlatAt(b', c);
    assert b'[..c] == b[..c] && b'[c + 1..] == b[c + 1..];
    AllDistinct(w, b, bits);
    var l, m, r := Flat(b[..c]), b[c], Flat(b[c + 1..]);
    assert Flat(b) == l + m + r;
    assert forall e :: e in l || e in r ==> e !in m by { MiddleApart(l, m, r); }
  }

  lemma MiddleApart(l: seq<Entry>, m: seq<Entry>, r: seq<Entry>)
    requires DistinctKeys(l + m + r)
    ensures forall e :: e in l || e in r ==> e !in m
  {
    var s := l + m + r;
    forall e | e in m
      ensures e !in l && e !in r
    {
      var i :| 0 <= i < |m| && m[i] == e;
      assert s[|l| + i] == e;
      assert forall j :: 0 <= j < |l| ==> s[j] == l[j];
      assert forall j :: 0 <= j < |r| ==> s[|l| + |m| + j] == r[j];
    }
  }

  /** Writing an entry over the one with the same key, or at the end if there is none. */
  lemma PutEntry(w: nat, b: seq<seq<Entry>>, bits: nat, c: nat, j: nat, e: Entry)
    requires BucketsOk(w, b, bits) && e.key.hash < Pow2(w) && c == BucketOf(w, e.key.hash, bits) && c < |b| && j <= |b[c]|
    requires forall i :: 0 <= i < j ==> b[c][i].key != e.key
    requires j < |b[c]| ==> b[c][j].key == e.key
    ensures var x := if j < |b[c]| then b[c][j := e] else b[c] + [e];
            && BucketsOk(w, b[c := x], bits) && Contents(b[c := x]) == Contents(b)[e.key := e.handle]
            && |Flat(b[c := x])| == |Flat(b)| + (if j < |b[c]| then 0 else 1)
  {
    hide Flat, ToMap, BucketOf;
    var x := if j < |b[c]| then b[c][j := e] else b[c] + [e];
    var b', m := b[c := x], Contents(b)[e.key := e.handle];
    assert BucketOk(w, b[c], bits, c);
    BucketUpdated(w, b, bits, c, x);
    AllDistinct(w, b, bits);
    AllDistinct(w, b', bits);
    forall f | f in Flat(b')
      ensures f.key in m && m[f.key] == f.handle
    {
      if f != e { PutOther(w, b, bits, c, j, e, f); }
    }
    forall k | k in m
      ensures exists f :: f in Flat(b') && f.key == k
    {
      if k == e.key { assert e in x; assert e in Flat(b'); } else { StillThere(b, c, x, k, e.key); }
    }
    ToMapIs(Flat(b'), m);
  }

  lemma PutOther(w: nat, b: seq<seq<Entry>>, bits: nat, c: nat, j: nat, e: Entry, f: Entry)
    requires BucketsOk(w, b, bits) && e.key.hash < Pow2(w) && c == BucketOf(w, e.key.hash, bits) && c < |b| && j <= |b[c]|
    requires forall i :: 0 <= i < j ==> b[c][i].key != e.key
    requires j < |b[c]| ==> b[c][j].key == e.key
    requires f != e
    requires f in (if j < |b[c]| then b[c][j := e] else b[c] + [e]) || (f in Flat(b) && f !in b[c])
    ensures f.key != e.key && f.key in Contents(b) && Contents(b)[f.key] == f.handle
  {
    assert BucketOk(w, b[c], bits, c);
    AllDistinct(w, b, bits);
    if f in Flat(b) && f !in b[c] {
      EntryInBucket(w, b, bits, f);
    } else {
      FlatMembers(b, f);
    }
    ToMapValue(Flat(b), f);
  }

  lemma StillThere(b: seq<seq<Entry>>, c: nat, x: seq<Entry>, k: Key, gone: Key)
    requires c < |b| && k in Contents(b) && k != gone
    requires forall e :: e in b[c] && e.key != gone ==> e in x
    requires forall e :: e in Flat(b[c := x]) <==> e in x || (e in Flat(b) && e !in b[c])
    ensures exists f :: f in Flat(b[c := x]) && f.key == k
  {
    ToMapMembers(Flat(b), k);
    var f :| f in Flat(b) && f.key == k;
    assert f in Flat(b[c := x]);
  }

  lemma DropEntry(w: nat, b: seq<seq<Entry>>, bits: nat, c: nat, j: nat)
    requires BucketsOk(w, b, bits) && c < |b| && j < |b[c]|
    ensures var x := b[c][..j] + b[c][j + 1..];
            && BucketsOk(w, b[c := x], bits) && Contents(b[c := x]) == Contents(b) - {b[c][j].key}
            && |Flat(b[c := x])| == |Flat(b)| - 1
  {
    hide Flat, ToMap, BucketOf;
    var x, k := b[c][..j] + b[c][j + 1..], b[c][j].key;
    var b', m := b[c := x], Contents(b) - {k};
    assert BucketOk(w, b[c], bits, c);
    assert forall e :: e in x <==> e in b[c] && e.key != k;
    BucketUpdated(w, b, bits, c, x);
    AllDistinct(w, b, bits);
    AllDistinct(w, b', bits);
    forall f | f in Flat(b')
      ensures f.key in m && m[f.key] == f.handle
    {
      if f in x { FlatMembers(b, f); }
      ToMapValue(Flat(b), f);
      if f !in x { SameKeySameEntry(b, bits, w, f, b[c][j], c); }
    }
    forall q | q in m
      ensures exists f :: f in Flat(b') && f.key == q
    {
      StillThere(b, c, x, q, k);
    }
    ToMapIs(Flat(b'), m);
  }

  lemma SameKeySameEntry(b: seq<seq<Entry>>, bits: nat, w: nat, f: Entry, e: Entry, c: nat)
    requires BucketsOk(w, b, bits) && f in Flat(b) && c < |b| && e in b[c] && f !in b[c]
    ensures f.key != e.key
  {
    EntryInBucket(w, b, bits, f);
    assert BucketOk(w, b[c], bits, c);
  }

  // Doubling the table.

  /** The new buckets hold exactly the entries moved so far. */
  ghost predicate Moved(w: nat, nb: seq<seq<Entry>>, bits: nat, done: seq<Entry>) {
    && BucketsOk(w, nb, bits)
    && (forall e :: e in Flat(nb) <==> e in done)
    && |Flat(nb)| == |done|
  }

  lemma MoveOne(w: nat, nb: seq<seq<Entry>>, bits: nat, done: seq<Entry>, e: Entry)
    requires Moved(w, nb, bits, done) && DistinctKeys(done + [e]) && e.key.hash < Pow2(w)
    ensures var c := BucketOf(w, e.key.hash, bits); c < |nb| && Moved(w, nb[c := [e] + nb[c]], bits, done + [e])
  {
    hide Flat, BucketOf;
    BucketBelow(w, e.key.hash, bits);
    var c := BucketOf(w, e.key.hash, bits);
    var x := [e] + nb[c];
    assert BucketOk(w, nb[c], bits, c);
    forall f | f in nb[c]
      ensures f.key != e.key
    {
      FlatMembers(nb, f);
      var i :| 0 <= i < |done| && done[i] == f;
      assert (done + [e])[i] == f && (done + [e])[|done|] == e;
    }
    assert DistinctKeys(x);
    BucketUpdated(w, nb, bits, c, x);
    forall f
      ensures f in Flat(nb[c := x]) <==> f in done + [e]
    {
      if f in nb[c] { FlatMembers(nb, f); }
    }
  }

  lemma SameEntriesSameContents(w: nat, b: seq<seq<Entry>>, bits: nat, nb: seq<seq<Entry>>, bits': nat)
    requires BucketsOk(w, b, bits) && BucketsOk(w, nb, bits')
    requires forall e :: e in Flat(nb) <==> e in Flat(b)
    ensures Contents(nb) == Contents(b)
  {
    hide Flat, ToMap;
    AllDistinct(w, b, bits);
    AllDistinct(w, nb, bits');
    forall e | e in Flat(nb)
      ensures e.key in Contents(b) && Contents(b)[e.key] == e.handle
    {
      ToMapValue(Flat(b), e);
    }
    forall k | k in Contents(b)
      ensures exists e :: e in Flat(nb) && e.key == k
    {
      ToMapMembers(Flat(b), k);
    }
    ToMapIs(Flat(nb), Contents(b));
  }

  lemma {:induction false} EmptyBuckets(w: nat, b: seq<seq<Entry>>, bits: nat)
    requires bits <= w && |b| == Pow2(bits) && forall i :: 0 <= i < |b| ==> b[i] == []
    ensures Moved(w, b, bits, [])
  {
    EmptyFlat(b);
  }

  lemma {:induction false} EmptyFlat(b: seq<seq<Entry>>)
    requires forall i :: 0 <= i < |b| ==> b[i] == []
    ensures Flat(b) == []
  {
    if b != [] { EmptyFlat(b[1..]); }
  }

  /** The entries moved after i whole buckets and j entries of the next are a prefix of all entries. */
  lemma Progress(b: seq<seq<Entry>>, i: nat, j: nat)
    requires i < |b| && j <= |b[i]|
    ensures Flat(b[..i]) + b[i][..j] <= Flat(b)
    ensures j == |b[i]| ==> Flat(b[..i]) + b[i][..j] == Flat(b[..i + 1])
  {
    FlatAt(b, i);
    FlatAt(b[..i + 1], i);
    assert b[..i + 1][..i] == b[..i] && b[..i + 1][i + 1..] == [];
    assert Flat(b[..i + 1]) == Flat(b[..i]) + b[i];
  }

  class Table {
    const w: nat
    const maxBits: nat
    var bits: nat
    var buckets: array<seq<Entry>>
    var elems: nat

    ghost predicate Valid()
      reads this, buckets
    {
      BucketsOk(w, buckets[..], bits) && elems == |Flat(buckets[..])|
    }

    constructor (w: nat, maxBits: nat)
      requires w > 4
      ensures Valid() && this.w == w && this.maxBits == maxBits && fresh(buckets)
      ensures Contents(buckets[..]) == map[]
    {
      this.w, this.maxBits, bits, elems := w, maxBits, 4, 0;
      buckets := new seq<Entry>[Pow2(4)](_ => []);
      new;
      EmptyBuckets(w, buckets[..], bits);
      EmptyFlat(buckets[..]);
    }

    /** Position of a key in its chain, or the chain's length. */
    method FindPointer(k: Key) returns (c: nat, j: nat)
      requires Valid() && k.hash < Pow2(w)
      ensures c == BucketOf(w, k.hash, bits) < buckets.Length && j <= |buckets[c]|
      ensures forall i :: 0 <= i < j ==> buckets[c][i].key != k
      ensures j < |buckets[c]| ==> buckets[c][j].key == k
    {
      hide Flat, BucketOf;
      BucketBelow(w, k.hash, bits);
      c, j := BucketOf(w, k.hash, bits), 0;
      while j < |buckets[c]| && buckets[c][j].key != k
        invariant j <= |buckets[c]|
        invariant forall i :: 0 <= i < j ==> buckets[c][i].key != k
      {
        j := j + 1;
      }
    }

    method Lookup(k: Key) returns (r: Option<nat>)
      requires Valid() && k.hash < Pow2(w)
      ensures r == if k in Contents(buckets[..]) then Some(Contents(buckets[..])[k]) else None
    {
      hide Flat, BucketOf, Contents;
      var c, j := FindPointer(k);
      FoundInBucket(w, buckets[..], bits, k, c, j);
      r := if j < |buckets[c]| then Some(buckets[c][j].handle) else None;
    }

    /** Insert or replace; returns the handle replaced. */
    method Insert(k: Key, handle: nat) returns (old_: Option<nat>)
      requires Valid() && k.hash < Pow2(w)
      modifies this`bits, this`buckets, this`elems, buckets
      ensures Valid() && bits >= old(bits) && (buckets == old(buckets) || fresh(buckets))
      ensures Contents(buckets[..]) == old(Contents(buckets[..]))[k := handle]
      ensures old_ == if k in old(Contents(buckets[..])) then Some(old(Contents(buckets[..])[k])) else None
    {
      hide Flat, BucketOf, Contents;
      var c, j := FindPointer(k);
      FoundInBucket(w, buckets[..], bits, k, c, j);
      PutEntry(w, buckets[..], bits, c, j, Entry(k, handle));
      if j < |buckets[c]| {
        old_ := Some(buckets[c][j].handle);
        buckets[c] := buckets[c][j := Entry(k, handle)];
      } else {
        old_ := None;
        buckets[c] := buckets[c] + [Entry(k, handle)];
        elems := elems + 1;
        if elems >= buckets.Length {
          Resize();
        }
      }
    }

    method Remove(k: Key) returns (r: Option<nat>)
      requires Valid() && k.hash < Pow2(w)
      modifies this`elems, buckets
      ensures Valid()
      ensures Contents(buckets[..]) == old(Contents(buckets[..])) - {k}
      ensures r == if k in old(Contents(buckets[..])) then Some(old(Contents(buckets[..])[k])) else None
    {
      hide Flat, BucketOf, Contents;
      var c, j := FindPointer(k);
      FoundInBucket(w, buckets[..], bits, k, c, j);
      if j < |buckets[c]| {
        DropEntry(w, buckets[..], bits, c, j);
        r := Some(buckets[c][j].handle);
        buckets[c] := buckets[c][..j] + buckets[c][j + 1..];
        elems := elems - 1;
      } else {
        r := None;
      }
    }

    /** Visit the chains of a range of buckets, in order. */
    method ApplyToEntriesRange(begin: nat, end: nat) returns (visited: seq<Entry>)
      requires Valid() && begin <= end <= buckets.Length
      ensures visited == Flat(buckets[..][begin..end])
    {
      hide Flat, BucketOf, Contents;
      ghost var b := buckets[..][begin..end];
      visited := [];
      assert Flat(b[..0]) == [] by { EmptyFlat(b[..0]); }
      for i := begin to end
        invariant visited == Flat(b[..i - begin])
      {
        ghost var before := visited;
        assert b[i - begin] == buckets[i];
        for j := 0 to |buckets[i]|
          invariant visited == before + buckets[i][..j]
        {
          visited := visited + [buckets[i][j]];
        }
        Progress(b, i - begin, |buckets[i]|);
        assert buckets[i][..|buckets[i]|] == buckets[i];
      }
      assert b[..end - begin] == b;
    }

    /** Double the table; every entry moves to the front of its new chain. */
    method Resize()
      requires Valid()
      modifies this`bits, this`buckets
      ensures Valid() && elems == old(elems) && (buckets == old(buckets) || fresh(buckets))
      ensures Contents(buckets[..]) == old(Contents(buckets[..]))
      ensures bits == if old(bits) < maxBits && old(bits) + 1 < w then old(bits) + 1 else old(bits)
    {
      hide Flat, BucketOf, Contents;
      if bits >= maxBits || bits + 1 >= w {
        return;
      }
      var newBits := bits + 1;
      var newList := new seq<Entry>[Pow2(newBits)](_ => []);
      ghost var b, oldBits := buckets[..], bits;
      AllDistinct(w, b, bits);
      EmptyBuckets(w, newList[..], newBits);
      assert Flat(b[..0]) == [] by { EmptyFlat(b[..0]); }
      for i := 0 to buckets.Length
        invariant buckets[..] == b
        invariant Moved(w, newList[..], newBits, Flat(b[..i]))
      {
        var chain := buckets[i];
        assert chain[..0] == [] && Flat(b[..i]) + [] == Flat(b[..i]);
        for j := 0 to |chain|
          invariant buckets[..] == b
          invariant Moved(w, newList[..], newBits, Flat(b[..i]) + chain[..j])
        {
          var e := chain[j];
          MoveReady(w, b, oldBits, i, j);
          MoveOne(w, newList[..], newBits, Flat(b[..i]) + chain[..j], e);
          var c := BucketOf(w, e.key.hash, newBits);
          newList[c] := [e] + newList[c];
        }
        Progress(b, i, |chain|);
        assert chain[..|chain|] == chain;
      }
      assert b[..|b|] == b;
      SameEntriesSameContents(w, b, oldBits, newList[..], newBits);
      buckets, bits := newList, newBits;
    }
  }

  lemma MoveReady(w: nat, b: seq<seq<Entry>>, bits: nat, i: nat, j: nat)
    requires BucketsOk(w, b, bits) && i < |b| && j < |b[i]|
    ensures DistinctKeys(Flat(b[..i]) + b[i][..j] + [b[i][j]]) && b[i][j].key.hash < Pow2(w)
    ensures Flat(b[..i]) + b[i][..j + 1] == Flat(b[..i]) + b[i][..j] + [b[i][j]]
  {
    hide Flat;
    AllDistinct(w, b, bits);
    Progress(b, i, j + 1);
    assert BucketOk(w, b[i], bits, i);
    assert b[i][..j + 1] == b[i][..j] + [b[i][j]];
    var p := Flat(b[..i]) + b[i][..j + 1];
    assert p == Flat(b[..i]) + b[i][..j] + [b[i][j]];
    PrefixDistinct(p, Flat(b));
  }

  lemma PrefixDistinct(p: seq<Entry>, s: seq<Entry>)
    requires DistinctKeys(s) && p <= s
    ensures DistinctKeys(p)
  {
  }

  /** The element count is exactly the number of keys in the map. */
  lemma ElemsExact(w: nat, b: seq<seq<Entry>>, bits: nat)
    requires BucketsOk(w, b, bits)
    ensures |Flat(b)| == |Contents(b)|
  {
    AllDistinct(w, b, bits);
    ToMapSize(Flat(b));
  }
}
