/**
 DataProto batches, as sequences of rows: padding to the number of workers, chunking, the workers,
 concatenation and unpadding.
 */
module BatchAlgebra {
  import opened Tensors
  import opened Wrappers

  datatype Error = UnequalChunks

  // ---------- padding ----------

  /** `data` read round and round. */
  ghost predicate Cyclic<T>(pad: seq<T>, data: seq<T>)
    requires data != []
  {
    forall i :: 0 <= i < |pad| ==> pad[i] == data[i % |data|]
  }

  lemma {:induction false} CyclicAppend<T>(pad: seq<T>, data: seq<T>, take: nat)
    requires data != [] && Cyclic(pad, data) && |pad| % |data| == 0 && take <= |data|
    ensures Cyclic(pad + data[..take], data)
    ensures take == |data| ==> |pad + data[..take]| % |data| == 0
  {
    var n := |data|;
    forall i | 0 <= i < |pad| + take
      ensures (pad + data[..take])[i] == data[i % n]
    {
      if i >= |pad| && i - |pad| < n {
        ModShift(|pad| / n, i - |pad|, n);
      }
    }
    if take == n {
      assert |pad| + n == (|pad| / n + 1) * n;
      ModShift(|pad| / n + 1, 0, n);
    }
  }

  lemma {:induction false} ModShift(q: nat, r: nat, n: nat)
    requires r < n
    ensures (q * n + r) % n == r
  {
    var m := q * n + r;
    assert m / n * n <= m < (m / n + 1) * n;
    assert (q + 1) * n == q * n + n;
    CancelLess(m / n, q + 1, n);
    CancelLess(q, m / n + 1, n);
  }

  /** What the padding loop has collected: `data` and whole copies of it, then perhaps a part. */
  ghost predicate Padding<T>(pad: seq<T>, protos: seq<seq<T>>, data: seq<T>)
    requires data != []
  {
    Cyclic(pad, data) && Cat([data] + protos) == pad && |pad| >= |data| && pad[..|data|] == data
  }

  ghost predicate Whole<T>(pad: seq<T>, data: seq<T>)
    requires data != []
  {
    |pad| % |data| == 0
  }

  lemma {:induction false} PaddingStep<T>(pad: seq<T>, protos: seq<seq<T>>, data: seq<T>, take: nat)
    requires data != [] && Padding(pad, protos, data) && Whole(pad, data) && take <= |data|
    ensures Padding(pad + data[..take], protos + [data[..take]], data)
    ensures take == |data| ==> Whole(pad + data[..take], data)
  {
    CyclicAppend(pad, data, take);
    hide Cyclic;
    var more := [data] + (protos + [data[..take]]);
    assert more[..|more| - 1] == [data] + protos && more[|more| - 1] == data[..take];
  }

  /** The padding loop of pad_dataproto_to_divisor. */
  method PadRows<T>(data: seq<T>, padSize: nat) returns (padded: seq<T>)
    requires data != []
    ensures |padded| == |data| + padSize && padded[..|data|] == data && Cyclic(padded, data)
  {
    var protos: seq<seq<T>> := [];
    var remaining: nat := padSize;
    ghost var pad: seq<T> := data;
    CyclicSelf(data);
    assert [data] + protos == [data] && data[..|data|] == data;
    hide Whole, Cat;
    while remaining > 0
      invariant remaining + |pad| == |data| + padSize
      invariant Padding(pad, protos, data)
      invariant remaining > 0 ==> Whole(pad, data)
    {
      hide Padding;
      var take := if remaining < |data| then remaining else |data|;
      PaddingStep(pad, protos, data, take);
      protos := protos + [data[..take]];
      remaining := remaining - take;
      pad := pad + data[..take];
    }
    padded := Cat([data] + protos);
  }

  /** pad_dataproto_to_divisor; a divisor of zero is a ZeroDivisionError of the caller. */
  method PadToDivisor<T>(data: seq<T>, divisor: nat) returns (padded: seq<T>, padSize: nat)
    requires divisor > 0
    ensures |padded| == |data| + padSize && |padded| % divisor == 0 && padSize < divisor
    ensures padded[..|data|] == data
    ensures data != [] ==> Cyclic(padded, data)
  {
    if |data| % divisor != 0 {
      padSize := divisor - |data| % divisor;
      padded := PadRows(data, padSize);
      PadDivides(|data|, divisor);
    } else {
      padSize := 0;
      padded := data;
      if data != [] {
        CyclicSelf(data);
      }
    }
  }

  lemma {:induction false} CyclicSelf<T>(data: seq<T>)
    requires data != []
    ensures Cyclic(data, data) && Whole(data, data)
    ensures Cat([data]) == data
  {
    ModShift(1, 0, |data|);
    assert [data][..0] == [];
    forall i | 0 <= i < |data|
      ensures i % |data| == i
    {
      ModShift(0, i, |data|);
    }
  }

  lemma {:induction false} PadDivides(n: nat, d: nat)
    requires d > 0
    ensures (n + (d - n % d)) % d == 0
  {
    assert n + (d - n % d) == (n / d + 1) * d + 0;
    ModShift(n / d + 1, 0, d);
  }

  /** unpad_dataproto: `data[:-pad_size]` */
  function Unpad<T>(data: seq<T>, padSize: nat): seq<T> {
    if padSize == 0 then data
    else if padSize <= |data| then data[..|data| - padSize]
    else []
  }

  /** Unpadding drops the last padSize rows, or all rows if there are fewer. */
  lemma {:induction false} UnpadIs<T>(data: seq<T>, padSize: nat)
    ensures Unpad(data, padSize) <= data
    ensures |Unpad(data, padSize)| == if padSize <= |data| then |data| - padSize else 0
  {
  }

  // ---------- chunks ----------

  /** DataProto.chunk with padding disabled. */
  function ChunkBatch<T>(data: seq<T>, chunks: nat): Result<seq<seq<T>>, Error>
    requires chunks > 0
  {
    if |data| % chunks != 0 then Err(UnequalChunks) else Ok(Chunk(data, chunks))
  }

  /** DataProto.split */
  function SplitBatch<T>(data: seq<T>, size: nat): seq<seq<T>>
    requires size > 0
  {
    if data == [] then [] else Pieces(data, size)
  }

  function Map<T, U>(f: T -> U, s: seq<T>): (r: seq<U>)
    ensures |r| == |s| && forall i :: 0 <= i < |s| ==> r[i] == f(s[i])
  {
    seq(|s|, i requires 0 <= i < |s| => f(s[i]))
  }

  lemma {:induction false} MapCat<T, U>(f: T -> U, chunks: seq<seq<T>>, results: seq<seq<U>>)
    requires |chunks| == |results| && forall i :: 0 <= i < |chunks| ==> results[i] == Map(f, chunks[i])
    ensures Cat(results) == Map(f, Cat(chunks))
  {
    if chunks != [] {
      MapCat(f, chunks[..|chunks| - 1], results[..|results| - 1]);
    }
  }

  /** Splitting and concatenating gives the batch back; every piece but the last has `size` rows. */
  lemma {:induction false} SplitConcat<T>(data: seq<T>, size: nat)
    requires size > 0
    ensures var ps := SplitBatch(data, size);
            && Cat(ps) == data && (data == [] <==> ps == [])
            && (forall i :: 0 <= i < |ps| - 1 ==> |ps[i]| == size)
            && (ps != [] ==> 0 < |ps[|ps| - 1]| <= size)
  {
    CatOfPieces(data, size);
    if data != [] {
      PieceSizes(data, size);
    }
    hide Pieces;
  }

  /** Exactly an even batch is chunked, and concatenating gives it back, from chunks of equal length. */
  lemma {:induction false} ChunkConcat<T>(data: seq<T>, chunks: nat)
    requires chunks > 0
    ensures var c := ChunkBatch(data, chunks);
            && (c.Ok? <==> |data| % chunks == 0)
            && (c.Ok? ==>
                  && |c.value| == chunks && Cat(c.value) == data
                  && forall i :: 0 <= i < chunks ==> |c.value[i]| == |data| / chunks)
  {
    if |data| % chunks == 0 {
      EvenChunks(data, chunks);
      CatOfBlocks(data, chunks, |data| / chunks);
    }
  }

  /**
   The whole round: pad, chunk, let every worker process its rows, concatenate, unpad. The result
   is what one process would have computed, for every row-wise worker function and every number
   of workers.
   */
  method Distribute<T, U>(data: seq<T>, workers: nat, f: T -> U) returns (out: seq<U>)
    requires workers > 0
    ensures out == Map(f, data)
  {
    var padded, padSize := PadToDivisor(data, workers);
    var chunks := ChunkBatch(padded, workers);
    ChunkConcat(padded, workers);
    var results: seq<seq<U>> := [];
    for i := 0 to workers
      invariant |results| == i
      invariant forall j :: 0 <= j < i ==> results[j] == Map(f, chunks.value[j])
    {
      results := results + [Map(f, chunks.value[i])];
    }
    MapCat(f, chunks.value, results);
    out := Unpad(Cat(results), padSize);
    assert forall i :: 0 <= i < |data| ==> padded[i] == padded[..|data|][i];
  }

  /** With automatic padding the chunk assertion is off: five rows in four chunks give only three. */
  lemma {:induction false} FiveRowsInFourChunks<T>(x: seq<T>)
    requires |x| == 5
    ensures |Chunk(x, 4)| < 4
  {
    ChunkCount(x, 4);
  }
}
