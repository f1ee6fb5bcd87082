/**
 Storing a compressed value as a chain of chunks whose allocations match the bins of a memory
 allocator, and putting it together again.
 */
module ValueChunks {

  type Bytes = seq<bv8>

  /** Bytes of a chunk besides its data. */
  const OVERHEAD: nat := 23

  const BINS: seq<nat> := [128, 256, 512, 1024, 2048, 4096, 8192, 16384]

  /** One element of the chain: its data and the size of its allocation. */
  datatype Chunk = Chunk(data: Bytes, allocation: nat)

  function Concat(chunks: seq<Chunk>): Bytes {
    if chunks == [] then [] else chunks[0].data + Concat(chunks[1..])
  }

  lemma {:induction false} ConcatAppend(chunks: seq<Chunk>, c: Chunk)
    ensures Concat(chunks + [c]) == Concat(chunks) + c.data
  {
    if chunks == [] {
      assert chunks + [c] == [c];
    } else {
      assert (chunks + [c])[1..] == chunks[1..] + [c];
      ConcatAppend(chunks[1..], c);
    }
  }

  /** Position of the first bin larger than x, or the number of bins. */
  function UpperBound(x: nat): (i: nat)
    ensures i <= |BINS|
    ensures forall k :: 0 <= k < i ==> BINS[k] <= x
    ensures i < |BINS| ==> x < BINS[i]
  {
    if x < 128 then 0 else if x < 256 then 1 else if x < 512 then 2 else if x < 1024 then 3
    else if x < 2048 then 4 else if x < 4096 then 5 else if x < 8192 then 6 else if x < 16384 then 7 else 8
  }

  /** The allocation for the next chunk, when `size` bytes are left. */
  function NextAllocation(size: nat, compressed: bool): (a: nat)
    requires size > 0
    ensures OVERHEAD < a <= OVERHEAD + size
    ensures a == OVERHEAD + size || a in BINS
    ensures !compressed ==> a == OVERHEAD + size
  {
    var predicted := OVERHEAD + size;
    var upper := UpperBound(predicted);
    if upper == 0 || upper == |BINS| || BINS[upper] - predicted < BINS[0] || !compressed then predicted
    else
      assert BINS[upper - 1] in BINS;
      BINS[upper - 1]
  }

  /** Chunks as the source stores them: whole allocations, all but the last a bin. */
  ghost predicate WellFormed(chunks: seq<Chunk>) {
    && (forall i :: 0 <= i < |chunks| ==> chunks[i].data != [] && chunks[i].allocation == |chunks[i].data| + OVERHEAD)
    && (forall i :: 0 <= i < |chunks| - 1 ==> chunks[i].allocation in BINS)
  }

  lemma OneMoreChunk(chunks: seq<Chunk>, c: Chunk)
    requires WellFormed(chunks) && (chunks != [] ==> chunks[|chunks| - 1].allocation in BINS)
    requires c.data != [] && c.allocation == |c.data| + OVERHEAD
    ensures WellFormed(chunks + [c]) && Concat(chunks + [c]) == Concat(chunks) + c.data
  {
    ConcatAppend(chunks, c);
  }

  lemma NoChunks()
    ensures WellFormed([]) && Concat([]) == []
  {
  }

  /** Cut a value into chunks; the charge is the size of all allocations. */
  method Split(value: Bytes, compressed: bool) returns (chunks: seq<Chunk>, charge: nat)
    requires value != []
    ensures Concat(chunks) == value && chunks != [] && WellFormed(chunks)
    ensures charge == |value| + OVERHEAD * |chunks|
    ensures !compressed ==> |chunks| == 1
  {
    hide WellFormed, Concat;
    chunks, charge := [], 0;
    assert WellFormed([]) && Concat([]) == [] by { NoChunks(); }
    var pos := 0;
    while pos < |value|
      invariant pos <= |value| && Concat(chunks) == value[..pos]
      invariant WellFormed(chunks)
      invariant chunks != [] && pos < |value| ==> chunks[|chunks| - 1].allocation in BINS
      invariant charge == pos + OVERHEAD * |chunks|
      invariant !compressed ==> if pos == 0 then chunks == [] else |chunks| == 1 && pos == |value|
      decreases |value| - pos
    {
      var allocation := NextAllocation(|value| - pos, compressed);
      var size := allocation - OVERHEAD;
      var chunk := Chunk(value[pos..pos + size], allocation);
      OneMoreChunk(chunks, chunk);
      assert value[..pos + size] == value[..pos] + value[pos..pos + size];
      chunks := chunks + [chunk];
      pos, charge := pos + size, charge + allocation;
    }
    assert value[..pos] == value;
  }

  /** Put a value together from its chunks: first its size, then its bytes. */
  method Merge(chunks: seq<Chunk>) returns (value: Bytes, charge: nat)
    ensures value == Concat(chunks) && charge == |value|
  {
    charge := 0;
    assert chunks[..0] == [] && chunks[..|chunks|] == chunks;
    for i := 0 to |chunks|
      invariant charge == |Concat(chunks[..i])|
    {
      assert chunks[..i + 1] == chunks[..i] + [chunks[i]];
      ConcatAppend(chunks[..i], chunks[i]);
      charge := charge + |chunks[i].data|;
    }
    var buffer := new bv8[charge];
    var pos := 0;
    for i := 0 to |chunks|
      invariant pos == |Concat(chunks[..i])| <= charge && buffer[..pos] == Concat(chunks[..i])
    {
      assert chunks[..i + 1] == chunks[..i] + [chunks[i]];
      ConcatAppend(chunks[..i], chunks[i]);
      ConcatPrefix(chunks, i + 1);
      var data := chunks[i].data;
      for j := 0 to |data|
        invariant buffer[..pos + j] == Concat(chunks[..i]) + data[..j]
      {
        buffer[pos + j] := data[j];
      }
      pos := pos + |data|;
      assert data[..|data|] == data;
    }
    value := buffer[..];
  }

  lemma {:induction false} ConcatPrefix(chunks: seq<Chunk>, i: nat)
    requires i <= |chunks|
    ensures |Concat(chunks[..i])| <= |Concat(chunks)|
    decreases |chunks| - i
  {
    if i == |chunks| {
      assert chunks[..i] == chunks;
    } else {
      assert chunks[..i + 1] == chunks[..i] + [chunks[i]];
      ConcatAppend(chunks[..i], chunks[i]);
      ConcatPrefix(chunks, i + 1);
    }
  }

  /** Merging undoes splitting, for every non-empty value, compressed or not. */
  method RoundTrip(value: Bytes, compressed: bool) returns (back: Bytes)
    requires value != []
    ensures back == value
  {
    var chunks, charge := Split(value, compressed);
    var size;
    back, size := Merge(chunks);
  }
}
