/**
 Resumable iteration over the LRU hash table. A scan visits a few buckets per call and remembers
 its place as a position on the scale of hashes, so that the table may double between calls.
 */
module LruScan {
  import opened Bits
  import opened LruHandleTable

  /** A position on the scale 0 .. 2^v, or the end of the scan. */
  datatype Place = At(pos: nat) | Finished

  /** The table as one call finds it. */
  datatype Snapshot = Snapshot(buckets: seq<seq<Entry>>, bits: nat)

  /** Widths: w bits of hash, v bits of scan position. */
  ghost predicate SnapshotOk(w: nat, v: nat, t: Snapshot) {
    w <= v && BucketsOk(w, t.buckets, t.bits)
  }

  function Begin(v: nat, bits: nat, pos: nat): nat
    requires bits <= v
  {
    Quotient(pos, Pow2(v - bits))
  }

  /** One call: the entries it visits and the place it leaves behind. */
  function Call(v: nat, t: Snapshot, pos: nat, perCall: nat): (seq<Entry>, Place)
  {
    var begin := if t.bits <= v then Begin(v, t.bits, pos) else 0;
    var end := begin + perCall;
    if begin > |t.buckets| || t.bits > v then ([], Finished)
    else if end >= |t.buckets| then (Flat(t.buckets[begin..]), Finished)
    else (Flat(t.buckets[begin..end]), At(end * Pow2(v - t.bits)))
  }

  /** A whole scan: each call sees the table as it is then; calls after the end do nothing. */
  function Scan(v: nat, calls: seq<Snapshot>, perCall: nat): (seq<Entry>, Place) {
    if calls == [] then ([], At(0))
    else
      var (visited, place) := Scan(v, calls[..|calls| - 1], perCall);
      match place
      case Finished => (visited, Finished)
      case At(pos) =>
        var (more, next) := Call(v, calls[|calls| - 1], pos, perCall);
        (visited + more, next)
  }

  /** Tables only ever grow. */
  ghost predicate Growing(calls: seq<Snapshot>) {
    forall i, j :: 0 <= i < j < |calls| ==> calls[i].bits <= calls[j].bits
  }

  // Positions.

  lemma MulCancel(a: nat, b: nat, d: nat)
    requires d > 0
    ensures a <= b <==> a * d <= b * d
  {
    if a <= b { MulMonotone(a, b, d); } else { MulMonotone(b + 1, a, d); assert (b + 1) * d == b * d + d; }
  }

  lemma QuotientAtLeast(x: nat, d: nat, k: nat)
    requires d > 0
    ensures k <= Quotient(x, d) <==> k * d <= x
  {
    MulCancel(k, x / d, d);
    MulCancel(x / d + 1, k, d);
    assert (x / d + 1) * d == x / d * d + d;
  }

  /** A bucket index against a hash, on the common scale. */
  lemma BucketPosition(w: nat, v: nat, hash: nat, bits: nat, k: nat)
    requires bits <= w <= v
    ensures k <= BucketOf(w, hash, bits) <==> k * Pow2(v - bits) <= hash * Pow2(v - w)
  {
    hide Pow2;
    Pow2Product(w - bits, v - w);
    var p, q := Pow2(w - bits), Pow2(v - w);
    QuotientAtLeast(hash, p, k);
    MulCancel(k * p, hash, q);
    assert k * (p * q) == (k * p) * q;
  }

  /** A place left by a smaller table is a bucket boundary of a larger one. */
  lemma Boundary(v: nat, bits: nat, bits': nat, k: nat) returns (k': nat)
    requires bits <= bits' <= v
    ensures k * Pow2(v - bits) == k' * Pow2(v - bits') && Begin(v, bits', k * Pow2(v - bits)) == k'
  {
    hide Pow2;
    Pow2Product(bits' - bits, v - bits');
    var p, q := Pow2(bits' - bits), Pow2(v - bits');
    k' := k * p;
    assert k * (p * q) == (k * p) * q;
    assert k' * q + 0 == k' * q;
    DivModUnique(k' * q, q, k', 0);
  }

  // What one call visits.

  lemma Multiplicity(s: seq<Entry>, e: Entry)
    requires DistinctKeys(s)
    ensures multiset(s)[e] == if e in s then 1 else 0
  {
    if s != [] {
      assert s == [s[0]] + s[1..];
      Multiplicity(s[1..], e);
      assert forall x :: x in s[1..] ==> x.key != s[0].key;
    }
  }

  lemma InRange(w: nat, t: Snapshot, i: nat, j: nat, e: Entry)
    requires BucketsOk(w, t.buckets, t.bits) && i <= j <= |t.buckets| && e in Flat(t.buckets[i..j])
    ensures i <= BucketOf(w, e.key.hash, t.bits) < j
  {
    hide Flat;
    FlatMembers(t.buckets[i..j], e);
    var n :| 0 <= n < j - i && e in t.buckets[i..j][n];
    assert BucketOk(w, t.buckets[i + n], t.bits, i + n);
  }

  lemma RangeVisits(w: nat, t: Snapshot, i: nat, j: nat, e: Entry)
    requires BucketsOk(w, t.buckets, t.bits) && i <= j <= |t.buckets| && e in Flat(t.buckets)
    ensures multiset(Flat(t.buckets[i..j]))[e] == if i <= BucketOf(w, e.key.hash, t.bits) < j then 1 else 0
  {
    hide Flat, BucketOf;
    var b, c := t.buckets, BucketOf(w, e.key.hash, t.bits);
    EntryInBucket(w, b, t.bits, e);
    assert b == b[..i] + (b[i..j] + b[j..]);
    FlatConcat(b[..i], b[i..j] + b[j..]);
    FlatConcat(b[i..j], b[j..]);
    AllDistinct(w, b, t.bits);
    MiddleDistinct(Flat(b[..i]), Flat(b[i..j]), Flat(b[j..]));
    FlatMembers(b[i..j], e);
    if i <= c < j {
      assert b[i..j][c - i] == b[c];
    }
    if e in Flat(b[i..j]) { InRange(w, t, i, j, e); }
    Multiplicity(Flat(b[i..j]), e);
  }

  lemma MiddleDistinct(l: seq<Entry>, m: seq<Entry>, r: seq<Entry>)
    requires DistinctKeys(l + (m + r))
    ensures DistinctKeys(m)
  {
    var s := l + (m + r);
    assert forall i :: 0 <= i < |m| ==> s[|l| + i] == m[i];
  }

  /** A call visits exactly the resident entries between the place it starts from and the one it leaves. */
  lemma CallVisits(w: nat, v: nat, t: Snapshot, k: nat, bits: nat, perCall: nat, e: Entry) returns (k': nat)
    requires SnapshotOk(w, v, t) && bits <= t.bits && k < Pow2(bits) && perCall > 0 && e in Flat(t.buckets)
    ensures var pos := k * Pow2(v - bits); var (more, place) := Call(v, t, pos, perCall);
            var h := e.key.hash * Pow2(v - w);
            && (place.Finished? ==> multiset(more)[e] == if h < pos then 0 else 1)
            && (place.At? ==> k' < Pow2(t.bits) && place.pos == k' * Pow2(v - t.bits) && place.pos > pos)
            && (place.At? ==> multiset(more)[e] == if pos <= h < place.pos then 1 else 0)
  {
    hide Flat, BucketOf, Pow2;
    EntryInBucket(w, t.buckets, t.bits, e);
    var begin := Boundary(v, bits, t.bits, k);
    BoundaryInTable(v, bits, t.bits, k, begin);
    var n := |t.buckets|;
    k' := begin + perCall;
    BucketPosition(w, v, e.key.hash, t.bits, begin);
    if k' >= n {
      assert t.buckets[begin..] == t.buckets[begin..n];
      RangeVisits(w, t, begin, n, e);
    } else {
      BucketPosition(w, v, e.key.hash, t.bits, k');
      RangeVisits(w, t, begin, k', e);
      MulCancel(k', begin, Pow2(v - t.bits));
    }
  }

  lemma BoundaryInTable(v: nat, bits: nat, bits': nat, k: nat, k': nat)
    requires bits <= bits' <= v && k < Pow2(bits) && k * Pow2(v - bits) == k' * Pow2(v - bits')
    ensures k' < Pow2(bits')
  {
    hide Pow2;
    Pow2Product(bits, v - bits);
    Pow2Product(bits', v - bits');
    MulCancel(Pow2(bits), k, Pow2(v - bits));
    MulCancel(Pow2(bits'), k', Pow2(v - bits'));
  }

  lemma {:induction false} ScanCovers(w: nat, v: nat, calls: seq<Snapshot>, perCall: nat, e: Entry) returns (k: nat, bits: nat)
    requires w <= v && perCall > 0 && Growing(calls)
    requires forall i :: 0 <= i < |calls| ==> SnapshotOk(w, v, calls[i]) && e in Flat(calls[i].buckets)
    ensures var (visited, place) := Scan(v, calls, perCall);
            var h := e.key.hash * Pow2(v - w);
            && (place.Finished? ==> multiset(visited)[e] == 1)
            && (place.At? ==> multiset(visited)[e] == if h < place.pos then 1 else 0)
            && (place.At? ==> bits <= v && k < Pow2(bits) && place.pos == k * Pow2(v - bits))
            && (place.At? && calls != [] ==> bits <= calls[|calls| - 1].bits)
            && (place.At? && calls == [] ==> bits == 0)
  {
    hide Call;
    if calls == [] {
      k, bits := 0, 0;
    } else {
      var front, last := calls[..|calls| - 1], calls[|calls| - 1];
      k, bits := ScanCovers(w, v, front, perCall, e);
      var (visited, place) := Scan(v, front, perCall);
      if place.At? {
        k := CallVisits(w, v, last, k, bits, perCall, e);
        bits := last.bits;
        var (more, next) := Call(v, last, place.pos, perCall);
        assert multiset(visited + more)[e] == multiset(visited)[e] + multiset(more)[e];
      }
    }
  }

  /**
   A finished scan has visited every entry that was in the table throughout exactly once, although
   the table may have doubled any number of times between its calls.
   */
  lemma ResidentVisitedOnce(w: nat, v: nat, calls: seq<Snapshot>, perCall: nat, e: Entry)
    requires w <= v && perCall > 0 && Growing(calls)
    requires forall i :: 0 <= i < |calls| ==> SnapshotOk(w, v, calls[i]) && e in Flat(calls[i].buckets)
    requires Scan(v, calls, perCall).1.Finished?
    ensures multiset(Scan(v, calls, perCall).0)[e] == 1
  {
    var k, bits := ScanCovers(w, v, calls, perCall, e);
  }

  // Termination.

  lemma CallAdvances(w: nat, v: nat, t: Snapshot, k: nat, bits: nat, perCall: nat) returns (k': nat)
    requires SnapshotOk(w, v, t) && bits <= t.bits && k < Pow2(bits) && perCall > 0
    ensures var pos := k * Pow2(v - bits); var place := Call(v, t, pos, perCall).1;
            place.At? ==> k' < Pow2(t.bits) && place.pos == k' * Pow2(v - t.bits) && place.pos >= pos + Pow2(v - t.bits)
  {
    hide Flat, BucketOf, Pow2;
    var begin := Boundary(v, bits, t.bits, k);
    BoundaryInTable(v, bits, t.bits, k, begin);
    k' := begin + perCall;
    MulCancel(begin + 1, k', Pow2(v - t.bits));
    assert (begin + 1) * Pow2(v - t.bits) == begin * Pow2(v - t.bits) + Pow2(v - t.bits);
  }

  lemma OneTimesMore(n: nat, d: nat)
    ensures (n + 1) * d == n * d + d
  {
  }

  lemma {:induction false} ScanAdvances(w: nat, v: nat, calls: seq<Snapshot>, perCall: nat, max: nat) returns (k: nat, bits: nat)
    requires w <= v && perCall > 0 && Growing(calls) && max <= v
    requires forall i :: 0 <= i < |calls| ==> SnapshotOk(w, v, calls[i]) && calls[i].bits <= max
    ensures var place := Scan(v, calls, perCall).1;
            place.At? ==>
              && place.pos >= |calls| * Pow2(v - max)
              && bits <= max && k < Pow2(bits) && place.pos == k * Pow2(v - bits)
              && (if calls == [] then bits == 0 else bits <= calls[|calls| - 1].bits)
  {
    hide Call, Pow2, BucketsOk;
    if calls == [] {
      k, bits := 0, 0;
    } else {
      var front, last := calls[..|calls| - 1], calls[|calls| - 1];
      k, bits := ScanAdvances(w, v, front, perCall, max);
      var place := Scan(v, front, perCall).1;
      if place.At? {
        k := CallAdvances(w, v, last, k, bits, perCall);
        bits := last.bits;
        Pow2Monotone(v - max, v - bits);
        OneTimesMore(|front|, Pow2(v - max));
      }
    }
  }

  /** With at least one bucket per call, a scan ends after at most as many calls as the largest table has buckets. */
  lemma ScanFinishes(w: nat, v: nat, calls: seq<Snapshot>, perCall: nat, max: nat)
    requires w <= v && perCall > 0 && Growing(calls) && max <= v && |calls| >= Pow2(max)
    requires forall i :: 0 <= i < |calls| ==> SnapshotOk(w, v, calls[i]) && calls[i].bits <= max
    ensures Scan(v, calls, perCall).1.Finished?
  {
    hide Scan, Pow2;
    var k, bits := ScanAdvances(w, v, calls, perCall, max);
    Pow2Product(max, v - max);
    MulMonotone(Pow2(max), |calls|, Pow2(v - max));
    if bits <= v {
      Pow2Product(bits, v - bits);
      MulCancel(Pow2(bits), k, Pow2(v - bits));
    }
  }

  /** With zero buckets per call it never leaves its start, however often it is called. */
  lemma {:induction false} ZeroPerCallIsStuck(w: nat, v: nat, calls: seq<Snapshot>)
    requires forall i :: 0 <= i < |calls| ==> SnapshotOk(w, v, calls[i])
    ensures Scan(v, calls, 0) == ([], At(0))
  {
    hide Pow2;
    if calls != [] {
      ZeroPerCallIsStuck(w, v, calls[..|calls| - 1]);
      var t := calls[|calls| - 1];
      assert Begin(v, t.bits, 0) == 0 by { DivModUnique(0, Pow2(v - t.bits), 0, 0); }
      assert SnapshotOk(w, v, t);
      assert t.buckets[0..0] == [] && Flat([]) == [] && |t.buckets| > 0;
      var none: seq<Entry> := [];
      assert none + none == none && Call(v, t, 0, 0) == (none, At(0));
    }
  }

  // All shards, in rotation.

  /** What the scan of shard i finds in its first r calls; rounds[k][i] is the table of shard i in round k. */
  function Column(rounds: seq<seq<Snapshot>>, i: nat, r: nat): seq<Snapshot>
    requires r <= |rounds| && forall k :: 0 <= k < |rounds| ==> i < |rounds[k]|
  {
    seq(r, k requires 0 <= k < r => rounds[k][i])
  }

  /** n shards whose tables only grow, to at most 2^max buckets. */
  ghost predicate RoundsOk(w: nat, v: nat, rounds: seq<seq<Snapshot>>, n: nat, max: nat) {
    && w <= v && max <= v
    && (forall k :: 0 <= k < |rounds| ==> |rounds[k]| == n)
    && (forall k, i :: 0 <= k < |rounds| && 0 <= i < n ==> SnapshotOk(w, v, rounds[k][i]) && rounds[k][i].bits <= max)
    && (forall j, k, i :: 0 <= j < k < |rounds| && 0 <= i < n ==> rounds[j][i].bits <= rounds[k][i].bits)
  }

  lemma ColumnOk(w: nat, v: nat, rounds: seq<seq<Snapshot>>, n: nat, max: nat, i: nat, r: nat)
    requires RoundsOk(w, v, rounds, n, max) && i < n && r <= |rounds|
    ensures var calls := Column(rounds, i, r);
            && Growing(calls) && forall k :: 0 <= k < |calls| ==> SnapshotOk(w, v, calls[k]) && calls[k].bits <= max
  {
    hide SnapshotOk;
  }

  lemma ColumnNext(v: nat, rounds: seq<seq<Snapshot>>, i: nat, r: nat, perCall: nat)
    requires r < |rounds| && forall k :: 0 <= k < |rounds| ==> i < |rounds[k]|
    ensures var (visited, place) := Scan(v, Column(rounds, i, r), perCall);
            Scan(v, Column(rounds, i, r + 1), perCall) ==
            match place
            case Finished => (visited, Finished)
            case At(pos) => var (more, next) := Call(v, rounds[r][i], pos, perCall); (visited + more, next)
  {
    hide Call;
    var calls := Column(rounds, i, r + 1);
    assert calls[..r] == Column(rounds, i, r) && calls[r] == rounds[r][i];
  }

  lemma ColumnFinishes(w: nat, v: nat, rounds: seq<seq<Snapshot>>, n: nat, max: nat, i: nat, r: nat)
    requires RoundsOk(w, v, rounds, n, max) && i < n && r <= |rounds| && r >= Pow2(max)
    ensures Scan(v, Column(rounds, i, r), 1).1.Finished?
  {
    hide Scan, Pow2, SnapshotOk, Growing;
    ColumnOk(w, v, rounds, n, max, i, r);
    ScanFinishes(w, v, Column(rounds, i, r), 1, max);
  }

  /** The scan of shard i after r rounds. */
  ghost predicate Scanned(v: nat, rounds: seq<seq<Snapshot>>, i: nat, r: nat, visited: seq<Entry>, place: Place) {
    && r <= |rounds| && (forall k :: 0 <= k < |rounds| ==> i < |rounds[k]|)
    && Scan(v, Column(rounds, i, r), 1) == (visited, place)
  }

  /**
   Visit part of each shard in turn until no shard has work left. The source takes the smaller of
   the number asked for and one.
   */
  method ApplyToAllEntries(v: nat, rounds: seq<seq<Snapshot>>, n: nat, averageEntries: nat, ghost w: nat, ghost max: nat)
      returns (visited: seq<seq<Entry>>, turns: nat)
    requires RoundsOk(w, v, rounds, n, max) && averageEntries > 0 && |rounds| >= Pow2(max)
    ensures |visited| == n && 0 < turns <= Pow2(max)
    ensures forall i :: 0 <= i < n ==> Scanned(v, rounds, i, turns, visited[i], Finished)
  {
    hide RoundsOk, Scanned, Call, Pow2;
    var perCall := if averageEntries < 1 then averageEntries else 1;
    var states: seq<Place> := seq(n, i => At(0));
    visited := seq(n, i => []);
    turns := 0;
    forall i | 0 <= i < n ensures Scanned(v, rounds, i, 0, visited[i], states[i]) { NothingScanned(w, v, rounds, n, max, i); }
    assert Pow2(max) > 0;
    var remaining := true;
    ghost var busy := 0;
    while remaining
      invariant |visited| == n && |states| == n && turns <= Pow2(max)
      invariant forall i :: 0 <= i < n ==> Scanned(v, rounds, i, turns, visited[i], states[i])
      invariant turns == 0 ==> remaining
      invariant remaining && turns > 0 ==> busy < n && states[busy].At?
      invariant !remaining ==> forall i :: 0 <= i < n ==> states[i].Finished?
      decreases Pow2(max) - turns, remaining
    {
      assert turns < Pow2(max) by {
        if turns > 0 { StillAt(w, v, rounds, n, max, busy, turns, visited[busy], states[busy]); }
      }
      RoundLength(w, v, rounds, n, max, turns);
      remaining := false;
      for i := 0 to n
        invariant |visited| == n && |states| == n
        invariant forall j :: 0 <= j < i ==> Scanned(v, rounds, j, turns + 1, visited[j], states[j])
        invariant forall j :: i <= j < n ==> Scanned(v, rounds, j, turns, visited[j], states[j])
        invariant remaining ==> busy < i && states[busy].At?
        invariant !remaining ==> forall j :: 0 <= j < i ==> states[j].Finished?
      {
        var place := states[i];
        OneTurn(v, rounds, i, turns, visited[i], place);
        if place.At? {
          var (more, next) := Call(v, rounds[turns][i], place.pos, perCall);
          visited := visited[i := visited[i] + more];
          states := states[i := next];
          remaining := remaining || next.At?;
          if next.At? { busy := i; }
        }
      }
      turns := turns + 1;
    }
  }

  lemma NothingScanned(w: nat, v: nat, rounds: seq<seq<Snapshot>>, n: nat, max: nat, i: nat)
    requires RoundsOk(w, v, rounds, n, max) && i < n
    ensures Scanned(v, rounds, i, 0, [], At(0))
  {
    assert Column(rounds, i, 0) == [];
  }

  lemma RoundLength(w: nat, v: nat, rounds: seq<seq<Snapshot>>, n: nat, max: nat, r: nat)
    requires RoundsOk(w, v, rounds, n, max) && r < |rounds|
    ensures |rounds[r]| == n
  {
  }

  lemma StillAt(w: nat, v: nat, rounds: seq<seq<Snapshot>>, n: nat, max: nat, i: nat, r: nat, visited: seq<Entry>, place: Place)
    requires RoundsOk(w, v, rounds, n, max) && i < n && Scanned(v, rounds, i, r, visited, place) && place.At?
    ensures r < Pow2(max)
  {
    hide Scan, Pow2;
    if r >= Pow2(max) { ColumnFinishes(w, v, rounds, n, max, i, r); }
  }

  lemma OneTurn(v: nat, rounds: seq<seq<Snapshot>>, i: nat, r: nat, visited: seq<Entry>, place: Place)
    requires Scanned(v, rounds, i, r, visited, place) && r < |rounds| && i < |rounds[r]|
    ensures place.Finished? ==> Scanned(v, rounds, i, r + 1, visited, place)
    ensures place.At? ==>
              var (more, next) := Call(v, rounds[r][i], place.pos, 1); Scanned(v, rounds, i, r + 1, visited + more, next)
  {
    hide Scan, Call;
    ColumnNext(v, rounds, i, r, 1);
  }

  /** So each entry that stays in its shard throughout is visited exactly once. */
  lemma EveryShardVisitedOnce(w: nat, v: nat, rounds: seq<seq<Snapshot>>, n: nat, max: nat, i: nat, r: nat, visited: seq<Entry>, e: Entry)
    requires RoundsOk(w, v, rounds, n, max) && i < n && Scanned(v, rounds, i, r, visited, Finished)
    requires forall k :: 0 <= k < r ==> e in Flat(rounds[k][i].buckets)
    ensures multiset(visited)[e] == 1
  {
    hide Scan, SnapshotOk, Growing, Flat;
    ColumnOk(w, v, rounds, n, max, i, r);
    ResidentVisitedOnce(w, v, Column(rounds, i, r), 1, e);
  }
}
