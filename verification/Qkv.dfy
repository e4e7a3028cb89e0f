/**
 The fused QKV weight: the converter interleaves the rows of q, k and v group by group, the mergers
 take them apart again, from one tensor or from the row shards of the tensor-parallel ranks.
 A tensor is its sequence of rows.
 */
module Qkv {
  import opened Tensors
  import opened Wrappers

  datatype Error = AssertionError | RuntimeError | ZeroDivision

  datatype Fused<T> = Fused(q: seq<T>, k: seq<T>, v: seq<T>)

  /** `torch.cat([a, b, c], dim=1)` */
  function CatEach<T>(a: seq<seq<T>>, b: seq<seq<T>>, c: seq<seq<T>>): (r: seq<seq<T>>)
    requires |a| == |b| == |c|
    ensures |r| == |a| && forall i :: 0 <= i < |a| ==> r[i] == a[i] + b[i] + c[i]
  {
    seq(|a|, i requires 0 <= i < |a| => a[i] + b[i] + c[i])
  }

  // ---------- converter and merger ----------

  /** The fused rows, as convert_checkpoint_from_transformers_to_megatron builds them. */
  function PackQkv<T>(q: seq<T>, k: seq<T>, v: seq<T>, groups: nat, qSize: nat, kvSize: nat): seq<T>
    requires |q| == Rows(groups, qSize) && |k| == |v| == Rows(groups, kvSize)
  {
    Cat(CatEach(Blocks(q, groups, qSize), Blocks(k, groups, kvSize), Blocks(v, groups, kvSize)))
  }

  /** Rows lo..hi of every block, one after the other. */
  function Column<T>(blocks: seq<seq<T>>, lo: nat, hi: nat): seq<T>
    requires lo <= hi && forall i :: 0 <= i < |blocks| ==> hi <= |blocks[i]|
  {
    if blocks == [] then [] else Column(blocks[..|blocks| - 1], lo, hi) + blocks[|blocks| - 1][lo..hi]
  }

  /** What taking apart a list of blocks means. */
  function Columns<T>(blocks: seq<seq<T>>, qSize: nat, kvSize: nat): Fused<T>
    requires forall i :: 0 <= i < |blocks| ==> |blocks[i]| == qSize + 2 * kvSize
  {
    Fused(Column(blocks, 0, qSize),
          Column(blocks, qSize, qSize + kvSize),
          Column(blocks, qSize + kvSize, qSize + 2 * kvSize))
  }

  // ---------- chunks against the blocks of the fused layout ----------

  lemma {:induction false} Regroup(k: nat, perKv: nat, groups: nat)
    ensures (k * groups) * (perKv + 2) == Rows(groups, k * perKv + 2 * k)
    ensures (k * groups) * perKv == groups * (k * perKv)
  {
    assert (k * groups) * perKv == groups * (k * perKv);
  }

  /** With equal shares, chunking gives the blocks of the fused layout. */
  lemma {:induction false} ChunksAreBlocks<T>(x: seq<T>, kvSize: nat, perKv: nat, groups: nat)
    requires groups > 0 && |x| == kvSize * (perKv + 2) && kvSize % groups == 0
    ensures var k := kvSize / groups;
            && kvSize * perKv / groups == k * perKv
            && |x| == Rows(groups, k * perKv + 2 * k)
            && Chunk(x, groups) == Blocks(x, groups, k * perKv + 2 * k)
  {
    var k := kvSize / groups;
    var size := k * perKv + 2 * k;
    assert kvSize == k * groups;
    Regroup(k, perKv, groups);
    DivMul(k * perKv, groups);
    CeilMul(size, groups);
    if x == [] {
      assert size == 0 by {
        if size > 0 { Unfold(groups, size); }
      }
      EmptyBlocks(x, groups);
    } else {
      PiecesAreBlocks(x, groups, size);
    }
  }

  /** With unequal shares, the very first chunk does not have the rows the split asks for. */
  lemma {:induction false} FirstChunkMismatch<T>(x: seq<T>, kvSize: nat, perKv: nat, groups: nat)
    requires groups > 0 && |x| == kvSize * (perKv + 2) && kvSize % groups != 0
    ensures |Chunk(x, groups)| > 0
    ensures kvSize * perKv / groups + 2 * (kvSize / groups) != |Chunk(x, groups)[0]|
  {
    var a, b, n := kvSize * perKv / groups, kvSize / groups, groups;
    assert kvSize * (perKv + 2) == kvSize * perKv + 2 * kvSize;
    assert a * n <= kvSize * perKv && b * n < kvSize;
    assert (a + 2 * b) * n == a * n + 2 * (b * n);
    var f := |Chunk(x, groups)[0]|;
    FirstChunkLength(x, n);
    if a + 2 * b == f {
      assert false;
    }
  }

  function Append<T>(a: Fused<T>, b: Fused<T>): Fused<T> {
    Fused(a.q + b.q, a.k + b.k, a.v + b.v)
  }

  ghost predicate AllOf<T>(chunks: seq<seq<T>>, rows: nat) {
    forall j :: 0 <= j < |chunks| ==> |chunks[j]| == rows
  }

  /** The rows of q in one chunk. */
  function QRows(kvSize: nat, perKv: nat, groups: nat): nat
    requires groups > 0
  {
    kvSize * perKv / groups
  }

  /** Q, k and v of one tensor: defined when every chunk has the rows that the three parts need. */
  ghost function SplitOf<T>(x: seq<T>, kvSize: nat, perKv: nat, groups: nat): Option<Fused<T>> {
    if groups == 0 then None
    else
      var chunks, qRows, kvRows := Chunk(x, groups), QRows(kvSize, perKv, groups), kvSize / groups;
      if AllOf(chunks, qRows + 2 * kvRows) then Some(Columns(chunks, qRows, kvRows)) else None
  }

  /** With the rows of a fused tensor that is when the groups have equal shares. */
  lemma {:induction false} SplitOfBlocks<T>(x: seq<T>, kvSize: nat, perKv: nat, groups: nat)
    requires |x| == Rows(kvSize, perKv + 2) && groups > 0
    ensures kvSize % groups == 0 ==>
              && |x| == Rows(groups, kvSize / groups * perKv + 2 * (kvSize / groups))
              && SplitOf(x, kvSize, perKv, groups)
              == Some(Columns(Blocks(x, groups, kvSize / groups * perKv + 2 * (kvSize / groups)),
                              kvSize / groups * perKv, kvSize / groups))
    ensures kvSize % groups != 0 ==> SplitOf(x, kvSize, perKv, groups).None?
  {
    if kvSize % groups == 0 {
      ChunksAreBlocks(x, kvSize, perKv, groups);
    } else {
      FirstChunkMismatch(x, kvSize, perKv, groups);
    }
    hide Chunk, Blocks, Columns, Rows;
  }

  /** The three lists after `i` chunks. */
  ghost predicate SplitSoFar<T>(chunks: seq<seq<T>>, i: nat, qRows: nat, kvRows: nat, start: Fused<T>, f: Fused<T>)
    requires i <= |chunks|
  {
    && AllOf(chunks[..i], qRows + 2 * kvRows)
    && f == Append(start, Columns(chunks[..i], qRows, kvRows))
  }

  lemma {:induction false} SplitOne<T>(chunks: seq<seq<T>>, i: nat, qRows: nat, kvRows: nat, start: Fused<T>,
                                       f: Fused<T>)
    requires i < |chunks| && SplitSoFar(chunks, i, qRows, kvRows, start, f)
    requires |chunks[i]| == qRows + 2 * kvRows
    ensures SplitSoFar(chunks, i + 1, qRows, kvRows, start,
                       Fused(f.q + chunks[i][..qRows], f.k + chunks[i][qRows..qRows + kvRows],
                             f.v + chunks[i][qRows + kvRows..]))
  {
    var now := chunks[..i + 1];
    assert now[..i] == chunks[..i];
    forall j | 0 <= j < |now|
      ensures |now[j]| == qRows + 2 * kvRows
    {
      assert j < i ==> now[j] == chunks[..i][j];
    }
    assert chunks[i][qRows + kvRows..] == chunks[i][qRows + kvRows..qRows + 2 * kvRows];
  }

  /** The inner loop of both mergers: chunk, split every chunk in three, append to the three lists. */
  method SplitChunks<T>(x: seq<T>, kvSize: nat, perKv: nat, groups: nat, start: Fused<T>)
    returns (r: Result<Fused<T>, Error>)
    ensures r.Ok? <==> SplitOf(x, kvSize, perKv, groups).Some?
    ensures r.Err? ==> r.error == RuntimeError
    ensures r.Ok? ==> r.value == Append(start, SplitOf(x, kvSize, perKv, groups).value)
  {
    if groups == 0 {
      return Err(RuntimeError);
    }
    var chunks := Chunk(x, groups);
    var qRows, kvRows := QRows(kvSize, perKv, groups), kvSize / groups;
    assert chunks[..0] == [];
    assert Append(start, Columns(chunks[..0], qRows, kvRows)) == start;
    hide Chunk, Column, Columns, Append;
    var q, k, v := start.q, start.k, start.v;
    for i := 0 to |chunks|
      invariant SplitSoFar(chunks, i, qRows, kvRows, start, Fused(q, k, v))
    {
      var chunk := chunks[i];
      if qRows + kvRows + kvRows != |chunk| {
        return Err(RuntimeError);
      }
      SplitOne(chunks, i, qRows, kvRows, start, Fused(q, k, v));
      q := q + chunk[..qRows];
      k := k + chunk[qRows..qRows + kvRows];
      v := v + chunk[qRows + kvRows..];
    }
    assert chunks[..|chunks|] == chunks;
    r := Ok(Fused(q, k, v));
  }

  /** What splitting a fused tensor returns, when it does. */
  ghost function Split<T>(x: seq<T>, heads: nat, kvHeads: nat): Option<Fused<T>> {
    if kvHeads > 0 && heads % kvHeads == 0 && |x| % (heads / kvHeads + 2) == 0
    then SplitOf(x, |x| / (heads / kvHeads + 2), heads / kvHeads, kvHeads)
    else None
  }

  /** MegatronModelMerger._split_tensors for a fused QKV weight. */
  method SplitQkv<T>(x: seq<T>, heads: nat, kvHeads: nat) returns (r: Result<Fused<T>, Error>)
    ensures r.Ok? <==> Split(x, heads, kvHeads).Some?
    ensures r.Ok? ==> r.value == Split(x, heads, kvHeads).value
    ensures r == Err(ZeroDivision) <==> kvHeads == 0
    ensures r == Err(AssertionError) <==> kvHeads > 0 && (heads % kvHeads != 0 || |x| % (heads / kvHeads + 2) != 0)
  {
    if kvHeads == 0 {
      return Err(ZeroDivision);
    }
    if heads % kvHeads != 0 {
      return Err(AssertionError);
    }
    var perKv := heads / kvHeads;
    if |x| % (perKv + 2) != 0 {
      return Err(AssertionError);
    }
    hide SplitOf;
    r := SplitChunks(x, |x| / (perKv + 2), perKv, kvHeads, Fused([], [], []));
  }

  /** Q, k and v of the shards, one shard after the other. */
  ghost function MergeOf<T>(shards: seq<seq<T>>, kvSize: nat, perKv: nat, groups: nat): Option<Fused<T>> {
    if shards == [] then Some(Fused([], [], []))
    else
      var last := |shards| - 1;
      match (MergeOf(shards[..last], kvSize, perKv, groups), SplitOf(shards[last], kvSize, perKv, groups))
      case (Some(a), Some(b)) => Some(Append(a, b))
      case _ => None
  }

  /** Merging the row shards of the tensor-parallel ranks; the sizes come from the first shard. */
  ghost function Merge<T>(shards: seq<seq<T>>, heads: nat, kvHeads: nat): Option<Fused<T>>
    requires shards != []
  {
    if kvHeads > 0 && heads % kvHeads == 0 && |shards[0]| % (heads / kvHeads + 2) == 0
    then MergeOf(shards, |shards[0]| / (heads / kvHeads + 2), heads / kvHeads, kvHeads / |shards|)
    else None
  }

  /** MegatronModelMerger._merge_across_tp for a fused QKV weight. */
  method MergeAcrossTp<T>(shards: seq<seq<T>>, heads: nat, kvHeads: nat) returns (r: Result<Fused<T>, Error>)
    requires shards != []
    ensures r.Ok? <==> Merge(shards, heads, kvHeads).Some?
    ensures r.Ok? ==> r.value == Merge(shards, heads, kvHeads).value
    ensures r == Err(ZeroDivision) <==> kvHeads == 0
    ensures r == Err(AssertionError) <==>
              kvHeads > 0 && (heads % kvHeads != 0 || |shards[0]| % (heads / kvHeads + 2) != 0)
  {
    hide Merge, MergeOf;
    MergeCases(shards, heads, kvHeads);
    if kvHeads == 0 {
      return Err(ZeroDivision);
    }
    if heads % kvHeads != 0 {
      return Err(AssertionError);
    }
    var perKv, groups := heads / kvHeads, kvHeads / |shards|;
    if |shards[0]| % (perKv + 2) != 0 {
      return Err(AssertionError);
    }
    r := MergeShards(shards, |shards[0]| / (perKv + 2), perKv, groups);
  }

  lemma {:induction false} MergeCases<T>(shards: seq<seq<T>>, heads: nat, kvHeads: nat)
    requires shards != []
    ensures kvHeads == 0 || heads % kvHeads != 0 ==> Merge(shards, heads, kvHeads).None?
    ensures kvHeads > 0 && heads % kvHeads == 0 ==>
              Merge(shards, heads, kvHeads)
              == if |shards[0]| % (heads / kvHeads + 2) != 0 then None
                 else MergeOf(shards, |shards[0]| / (heads / kvHeads + 2), heads / kvHeads, kvHeads / |shards|)
  {
    hide MergeOf;
  }

  /** The loop over the shards. */
  method MergeShards<T>(shards: seq<seq<T>>, kvSize: nat, perKv: nat, groups: nat) returns (r: Result<Fused<T>, Error>)
    ensures r.Ok? <==> MergeOf(shards, kvSize, perKv, groups).Some?
    ensures r.Err? ==> r.error == RuntimeError
    ensures r.Ok? ==> r.value == MergeOf(shards, kvSize, perKv, groups).value
  {
    hide SplitOf, Append;
    var acc: Fused<T> := Fused([], [], []);
    for i := 0 to |shards|
      invariant MergeOf(shards[..i], kvSize, perKv, groups) == Some(acc)
    {
      assert shards[..i + 1][..i] == shards[..i];
      var one := SplitChunks(shards[i], kvSize, perKv, groups, acc);
      if one.Err? {
        MergeFails(shards, i + 1, kvSize, perKv, groups);
        return Err(RuntimeError);
      }
      acc := one.value;
    }
    assert shards[..|shards|] == shards;
    r := Ok(acc);
  }

  lemma {:induction false} MergeFails<T>(shards: seq<seq<T>>, i: nat, kvSize: nat, perKv: nat, groups: nat)
    requires i <= |shards| && MergeOf(shards[..i], kvSize, perKv, groups).None?
    ensures MergeOf(shards, kvSize, perKv, groups).None?
    decreases |shards| - i
  {
    hide SplitOf;
    if i == |shards| {
      assert shards[..i] == shards;
    } else {
      assert shards[..i + 1][..i] == shards[..i];
      MergeFails(shards, i + 1, kvSize, perKv, groups);
    }
  }

  // ---------- what splitting and merging mean ----------

  /** When the row count is the one of a fused tensor, `Split` takes apart its blocks. */
  lemma {:induction false} SplitIs<T>(x: seq<T>, kvHeads: nat, perKv: nat, k: nat)
    requires kvHeads > 0 && |x| == Rows(kvHeads, k * perKv + 2 * k)
    ensures Split(x, kvHeads * perKv, kvHeads) == Some(Columns(Blocks(x, kvHeads, k * perKv + 2 * k), k * perKv, k))
  {
    SplitCounts(|x|, kvHeads, perKv, k);
    Regroup(k, perKv, kvHeads);
    SplitOfBlocks(x, k * kvHeads, perKv, kvHeads);
    hide Columns, Blocks, SplitOf;
  }

  lemma {:induction false} SplitCounts(rows: nat, kvHeads: nat, perKv: nat, k: nat)
    requires kvHeads > 0 && rows == Rows(kvHeads, k * perKv + 2 * k)
    ensures kvHeads * perKv / kvHeads == perKv && kvHeads * perKv % kvHeads == 0
    ensures rows % (perKv + 2) == 0 && rows / (perKv + 2) == k * kvHeads
    ensures k * kvHeads / kvHeads == k && k * kvHeads % kvHeads == 0
  {
    assert kvHeads * perKv == perKv * kvHeads;
    DivMul(perKv, kvHeads);
    Regroup(k, perKv, kvHeads);
    DivMul(k * kvHeads, perKv + 2);
    DivMul(k, kvHeads);
  }

  /** The number of rows of a fused tensor with `k` rows of k per group. */
  function FusedRows(kvHeads: nat, perKv: nat, k: nat): nat {
    Rows(kvHeads, k * perKv + 2 * k)
  }

  lemma {:induction false} SplitHasRows<T>(x: seq<T>, heads: nat, kvHeads: nat) returns (k: nat)
    requires Split(x, heads, kvHeads).Some?
    ensures kvHeads > 0 && heads % kvHeads == 0 && heads == kvHeads * (heads / kvHeads)
    ensures |x| == FusedRows(kvHeads, heads / kvHeads, k)
  {
    hide SplitOf, FusedRows;
    var perKv := heads / kvHeads;
    var kvSize := |x| / (perKv + 2);
    k := kvSize / kvHeads;
    EqualShares(x, kvSize, perKv, kvHeads);
    RowsAre(|x|, kvSize, k, perKv, kvHeads);
  }

  lemma {:induction false} EqualShares<T>(x: seq<T>, kvSize: nat, perKv: nat, kvHeads: nat)
    requires kvHeads > 0 && |x| == kvSize * (perKv + 2) && SplitOf(x, kvSize, perKv, kvHeads).Some?
    ensures kvSize % kvHeads == 0
  {
    SplitOfBlocks(x, kvSize, perKv, kvHeads);
  }

  lemma {:induction false} RowsAre(rows: nat, kvSize: nat, k: nat, perKv: nat, kvHeads: nat)
    requires rows == kvSize * (perKv + 2) && kvSize == k * kvHeads
    ensures rows == FusedRows(kvHeads, perKv, k)
  {
    assert rows == (k * kvHeads) * (perKv + 2);
    Regroup(k, perKv, kvHeads);
  }

  /** Splitting succeeds exactly for the row counts of fused tensors. */
  lemma {:induction false} SplitsIff<T>(x: seq<T>, heads: nat, kvHeads: nat)
    ensures Split(x, heads, kvHeads).Some? <==>
            kvHeads > 0 && heads % kvHeads == 0 && exists k: nat :: |x| == FusedRows(kvHeads, heads / kvHeads, k)
  {
    if Split(x, heads, kvHeads).Some? {
      var k := SplitHasRows(x, heads, kvHeads);
    } else if kvHeads > 0 && heads % kvHeads == 0 {
      var perKv := heads / kvHeads;
      assert heads == kvHeads * perKv;
      hide Split;
      if k: nat :| |x| == FusedRows(kvHeads, perKv, k) {
        SplitIs(x, kvHeads, perKv, k);
        assert false;
      }
    }
  }

  /** The blocks of all shards, one shard after the other. */
  function AllBlocks<T>(shards: seq<seq<T>>, groups: nat, size: nat): (bs: seq<seq<T>>)
    requires forall i :: 0 <= i < |shards| ==> |shards[i]| == Rows(groups, size)
    ensures forall i :: 0 <= i < |bs| ==> |bs[i]| == size
  {
    if shards == [] then []
    else AllBlocks(shards[..|shards| - 1], groups, size) + Blocks(shards[|shards| - 1], groups, size)
  }

  lemma {:induction false} ColumnConcat<T>(a: seq<seq<T>>, b: seq<seq<T>>, lo: nat, hi: nat)
    requires lo <= hi && forall i :: 0 <= i < |a| ==> hi <= |a[i]|
    requires forall i :: 0 <= i < |b| ==> hi <= |b[i]|
    ensures forall i :: 0 <= i < |a + b| ==> hi <= |(a + b)[i]|
    ensures Column(a + b, lo, hi) == Column(a, lo, hi) + Column(b, lo, hi)
    decreases |b|
  {
    if b == [] {
      assert a + b == a;
    } else {
      var init := b[..|b| - 1];
      assert (a + b)[..|a + b| - 1] == a + init;
      ColumnConcat(a, init, lo, hi);
    }
  }

  lemma {:induction false} ColumnsConcat<T>(a: seq<seq<T>>, b: seq<seq<T>>, qRows: nat, kvRows: nat)
    requires forall i :: 0 <= i < |a| ==> |a[i]| == qRows + 2 * kvRows
    requires forall i :: 0 <= i < |b| ==> |b[i]| == qRows + 2 * kvRows
    ensures forall i :: 0 <= i < |a + b| ==> |(a + b)[i]| == qRows + 2 * kvRows
    ensures Columns(a + b, qRows, kvRows) == Append(Columns(a, qRows, kvRows), Columns(b, qRows, kvRows))
  {
    ColumnConcat(a, b, 0, qRows);
    ColumnConcat(a, b, qRows, qRows + kvRows);
    ColumnConcat(a, b, qRows + kvRows, qRows + 2 * kvRows);
  }

  lemma {:induction false} MergeOfBlocks<T>(shards: seq<seq<T>>, kvSize: nat, perKv: nat, groups: nat, k: nat)
    requires groups > 0 && kvSize == k * groups
    requires Rows(kvSize, perKv + 2) == Rows(groups, k * perKv + 2 * k)
    requires k * groups / groups == k && k * groups % groups == 0
    requires forall i :: 0 <= i < |shards| ==> |shards[i]| == Rows(kvSize, perKv + 2)
    ensures MergeOf(shards, kvSize, perKv, groups)
         == Some(Columns(AllBlocks(shards, groups, k * perKv + 2 * k), k * perKv, k))
  {
    hide Rows, Blocks, SplitOf;
    if shards != [] {
      var init, last := shards[..|shards| - 1], shards[|shards| - 1];
      MergeOfBlocks(init, kvSize, perKv, groups, k);
      SplitOfBlocks(last, kvSize, perKv, groups);
      var size := k * perKv + 2 * k;
      ColumnsConcat(AllBlocks(init, groups, size), Blocks(last, groups, size), k * perKv, k);
      hide Columns;
    }
  }

  // ---------- the round trip ----------

  lemma {:induction false} ColumnOfCatEach<T>(a: seq<seq<T>>, b: seq<seq<T>>, c: seq<seq<T>>, qSize: nat, kvSize: nat)
    requires |a| == |b| == |c|
    requires forall i :: 0 <= i < |a| ==> |a[i]| == qSize && |b[i]| == |c[i]| == kvSize
    ensures Columns(CatEach(a, b, c), qSize, kvSize) == Fused(Cat(a), Cat(b), Cat(c))
  {
    if a != [] {
      var n := |a| - 1;
      ColumnOfCatEach(a[..n], b[..n], c[..n], qSize, kvSize);
      assert CatEach(a, b, c)[..n] == CatEach(a[..n], b[..n], c[..n]);
      var last := CatEach(a, b, c)[n];
      assert last[0..qSize] == a[n] && last[qSize..qSize + kvSize] == b[n];
      assert last[qSize + kvSize..qSize + 2 * kvSize] == c[n];
    }
  }

  lemma {:induction false} ColumnsOfPack<T>(q: seq<T>, k: seq<T>, v: seq<T>, n: nat, qSize: nat, kvSize: nat)
    requires |q| == Rows(n, qSize) && |k| == |v| == Rows(n, kvSize)
    ensures |PackQkv(q, k, v, n, qSize, kvSize)| == Rows(n, qSize + 2 * kvSize)
    ensures Columns(Blocks(PackQkv(q, k, v, n, qSize, kvSize), n, qSize + 2 * kvSize), qSize, kvSize) == Fused(q, k, v)
  {
    var a, b, c := Blocks(q, n, qSize), Blocks(k, n, kvSize), Blocks(v, n, kvSize);
    BlocksOfCat(CatEach(a, b, c), qSize + 2 * kvSize);
    ColumnOfCatEach(a, b, c, qSize, kvSize);
    CatOfBlocks(q, n, qSize);
    CatOfBlocks(k, n, kvSize);
    CatOfBlocks(v, n, kvSize);
  }

  /** Where the rows are: group after group, in each the rows of q, then of k, then of v. */
  lemma {:induction false} PackedAt<T>(q: seq<T>, k: seq<T>, v: seq<T>, groups: nat, qSize: nat, kvSize: nat,
                                       size: nat, g: nat, j: nat)
    requires |q| == Rows(groups, qSize) && |k| == |v| == Rows(groups, kvSize) && g < groups
    requires size == qSize + 2 * kvSize
    ensures var x := PackQkv(q, k, v, groups, qSize, kvSize);
            && |x| == Rows(groups, size)
            && (j < qSize ==> RowIs(x, g * size + j, q, g * qSize + j))
            && (j < kvSize ==> RowIs(x, g * size + qSize + j, k, g * kvSize + j))
            && (j < kvSize ==> RowIs(x, g * size + qSize + kvSize + j, v, g * kvSize + j))
  {
    var a, b, c := Blocks(q, groups, qSize), Blocks(k, groups, kvSize), Blocks(v, groups, kvSize);
    var x := PackQkv(q, k, v, groups, qSize, kvSize);
    BlocksOfCat(CatEach(a, b, c), size);
    hide PackQkv, CatEach, Cat, Blocks, Rows, RowIs;
    assert Blocks(x, groups, size)[g] == a[g] + b[g] + c[g];
    if j < qSize {
      SameRow(x, groups, size, q, qSize, g, 0, j);
    }
    if j < kvSize {
      SameRow(x, groups, size, k, kvSize, g, qSize, j);
      SameRow(x, groups, size, v, kvSize, g, qSize + kvSize, j);
    }
  }

  /** Row j of block g of y lies `at` rows into block g of x. */
  lemma {:induction false} SameRow<T>(x: seq<T>, groups: nat, size: nat, y: seq<T>, part: nat, g: nat, at: nat, j: nat)
    requires |x| == Rows(groups, size) && |y| == Rows(groups, part) && g < groups && j < part && at + part <= size
    requires Blocks(x, groups, size)[g][at + j] == Blocks(y, groups, part)[g][j]
    ensures RowIs(x, g * size + at + j, y, g * part + j)
  {
    BlocksAt(x, groups, size, g, at + j);
    BlocksAt(y, groups, part, g, j);
    hide Blocks;
  }

  predicate RowIs<T(==)>(x: seq<T>, i: nat, y: seq<T>, j: nat) {
    i < |x| && j < |y| && x[i] == y[j]
  }

  /** Row counts of the three projections, as the converter computes them. */
  lemma {:induction false} PackCounts(heads: nat, kvHeads: nat, headDim: nat)
    requires kvHeads > 0 && heads % kvHeads == 0
    ensures headDim * heads / kvHeads == headDim * (heads / kvHeads)
    ensures heads * headDim == Rows(kvHeads, headDim * (heads / kvHeads))
    ensures heads == kvHeads * (heads / kvHeads)
  {
    var perKv := heads / kvHeads;
    assert heads == perKv * kvHeads;
    Assoc(headDim, perKv, kvHeads);
    DivMul(headDim * perKv, kvHeads);
  }

  /** Splitting the fused rows gives q, k and v back. */
  lemma {:induction false} SplitInvertsPack<T>(q: seq<T>, k: seq<T>, v: seq<T>, heads: nat, kvHeads: nat, headDim: nat)
    requires kvHeads > 0 && heads % kvHeads == 0
    requires |q| == heads * headDim && |k| == |v| == kvHeads * headDim
    ensures |q| == Rows(kvHeads, headDim * heads / kvHeads)
    ensures Split(PackQkv(q, k, v, kvHeads, headDim * heads / kvHeads, headDim), heads, kvHeads) == Some(Fused(q, k, v))
  {
    PackCounts(heads, kvHeads, headDim);
    hide PackQkv, Split;
    SplitPacked(q, k, v, heads, kvHeads, heads / kvHeads, headDim, headDim * heads / kvHeads);
  }

  lemma {:induction false} SplitPacked<T>(q: seq<T>, k: seq<T>, v: seq<T>, heads: nat, kvHeads: nat, perKv: nat,
                                          headDim: nat, qSize: nat)
    requires kvHeads > 0 && heads == kvHeads * perKv && qSize == headDim * perKv
    requires |q| == Rows(kvHeads, qSize) && |k| == |v| == Rows(kvHeads, headDim)
    ensures Split(PackQkv(q, k, v, kvHeads, qSize, headDim), heads, kvHeads) == Some(Fused(q, k, v))
  {
    hide PackQkv, Split, Columns, Blocks, Rows;
    ColumnsOfPack(q, k, v, kvHeads, qSize, headDim);
    SplitIs(PackQkv(q, k, v, kvHeads, qSize, headDim), kvHeads, perKv, headDim);
  }

  // ---------- tensor parallelism ----------

  lemma {:induction false} BlocksConcat<T>(x: seq<T>, y: seq<T>, m: nat, n: nat, size: nat)
    requires |x| == Rows(m, size) && |y| == Rows(n, size)
    ensures |x + y| == Rows(m + n, size)
    ensures Blocks(x + y, m + n, size) == Blocks(x, m, size) + Blocks(y, n, size)
    decreases m
  {
    assert (m + n) * size == m * size + n * size;
    hide Rows;
    if m == 0 {
      assert x + y == y;
    } else {
      Unfold(m, size);
      Unfold(m + n, size);
      assert (x + y)[size..] == x[size..] + y && (x + y)[..size] == x[..size];
      BlocksConcat(x[size..], y, m - 1, n, size);
    }
  }

  lemma {:induction false} AllBlocksCons<T>(x: seq<T>, shards: seq<seq<T>>, groups: nat, size: nat)
    requires |x| == Rows(groups, size) && forall i :: 0 <= i < |shards| ==> |shards[i]| == Rows(groups, size)
    ensures AllBlocks([x] + shards, groups, size) == Blocks(x, groups, size) + AllBlocks(shards, groups, size)
  {
    if shards == [] {
      assert [x] + shards == [x] && [x][..0] == [];
    } else {
      var init := shards[..|shards| - 1];
      AllBlocksCons(x, init, groups, size);
      assert ([x] + shards)[..|shards|] == [x] + init;
    }
  }

  /** The blocks of the row shards of a tensor are the blocks of the tensor. */
  lemma {:induction false} ShardedBlocks<T>(x: seq<T>, shards: nat, groups: nat, size: nat, rows: nat)
    requires rows == Rows(groups, size) && |x| == Rows(shards, rows)
    ensures |x| == Rows(shards * groups, size)
    ensures AllBlocks(Blocks(x, shards, rows), groups, size) == Blocks(x, shards * groups, size)
    decreases shards
  {
    Assoc(shards, groups, size);
    assert shards > 0 ==> groups + (shards - 1) * groups == shards * groups;
    hide Rows;
    if shards > 0 {
      Unfold(shards, rows);
      ShardedBlocks(x[rows..], shards - 1, groups, size, rows);
      AllBlocksCons(x[..rows], Blocks(x[rows..], shards - 1, rows), groups, size);
      assert x == x[..rows] + x[rows..];
      BlocksConcat(x[..rows], x[rows..], groups, (shards - 1) * groups, size);
    }
  }

  lemma {:induction false} MergeIs<T>(shards: seq<seq<T>>, groups: nat, perKv: nat, k: nat)
    requires shards != [] && groups > 0
    requires forall i :: 0 <= i < |shards| ==> |shards[i]| == Rows(groups, k * perKv + 2 * k)
    ensures Merge(shards, (groups * |shards|) * perKv, groups * |shards|)
         == Some(Columns(AllBlocks(shards, groups, k * perKv + 2 * k), k * perKv, k))
  {
    var kvHeads := groups * |shards|;
    MergeCounts(groups, |shards|, perKv);
    SplitCounts(|shards[0]|, groups, perKv, k);
    Regroup(k, perKv, groups);
    assert Rows(k * groups, perKv + 2) == Rows(groups, k * perKv + 2 * k);
    hide Rows, Columns, AllBlocks;
    MergeOfBlocks(shards, k * groups, perKv, groups, k);
  }

  lemma {:induction false} MergeCounts(groups: nat, tp: nat, perKv: nat)
    requires groups > 0 && tp > 0
    ensures groups * tp > 0 && groups * tp / tp == groups
    ensures (groups * tp) * perKv % (groups * tp) == 0 && (groups * tp) * perKv / (groups * tp) == perKv
  {
    DivMul(groups, tp);
    var kvHeads := groups * tp;
    assert kvHeads >= groups by { Unfold(tp, groups); assert kvHeads == Rows(tp, groups); }
    assert kvHeads * perKv == perKv * kvHeads;
    DivMul(perKv, kvHeads);
  }

  /** Merging the shards of a fused tensor is splitting the tensor, for every tensor that can be split. */
  lemma {:induction false} MergeIsSplit<T>(x: seq<T>, heads: nat, kvHeads: nat, tp: nat)
    requires tp > 0 && kvHeads % tp == 0 && Split(x, heads, kvHeads).Some?
    ensures |x| == Rows(tp, |x| / tp)
    ensures Merge(Blocks(x, tp, |x| / tp), heads, kvHeads) == Split(x, heads, kvHeads)
  {
    hide Split, Merge, Rows, FusedRows;
    var k := SplitHasRows(x, heads, kvHeads);
    MergeIsSplitAt(x, heads, kvHeads, heads / kvHeads, kvHeads / tp, tp, k);
  }

  lemma {:induction false} MergeIsSplitAt<T>(x: seq<T>, heads: nat, kvHeads: nat, perKv: nat, groups: nat, tp: nat,
                                             k: nat)
    requires tp > 0 && kvHeads > 0 && heads == kvHeads * perKv && kvHeads == groups * tp
    requires |x| == FusedRows(kvHeads, perKv, k)
    ensures |x| == Rows(tp, |x| / tp)
    ensures Merge(Blocks(x, tp, |x| / tp), heads, kvHeads) == Split(x, heads, kvHeads)
  {
    hide Split, Merge, Rows, Blocks;
    assert groups > 0 && heads == (groups * tp) * perKv;
    MergeIsSplitOf(x, perKv, groups, tp, k);
  }

  lemma {:induction false} MergeIsSplitOf<T>(x: seq<T>, perKv: nat, groups: nat, tp: nat, k: nat)
    requires tp > 0 && groups > 0 && |x| == Rows(groups * tp, k * perKv + 2 * k)
    ensures |x| == Rows(tp, |x| / tp)
    ensures Merge(Blocks(x, tp, |x| / tp), (groups * tp) * perKv, groups * tp)
         == Split(x, (groups * tp) * perKv, groups * tp)
  {
    var size := k * perKv + 2 * k;
    var rows := Rows(groups, size);
    Assoc(tp, groups, size);
    assert tp * groups == groups * tp;
    assert |x| == rows * tp;
    DivMul(rows, tp);
    ShardedBlocks(x, tp, groups, size, rows);
    hide Columns, Merge, Split, AllBlocks;
    MergeIs(Blocks(x, tp, rows), groups, perKv, k);
    MergeCounts(groups, tp, perKv);
    SplitIs(x, groups * tp, perKv, k);
  }

  lemma {:induction false} MergeOfCat<T>(shards: seq<seq<T>>, rows: nat, heads: nat, kvHeads: nat)
    requires shards != [] && forall i :: 0 <= i < |shards| ==> |shards[i]| == rows
    requires kvHeads % |shards| == 0 && Split(Cat(shards), heads, kvHeads).Some?
    ensures Merge(shards, heads, kvHeads) == Split(Cat(shards), heads, kvHeads)
  {
    hide Split, Merge, Blocks, Cat;
    BlocksOfCat(shards, rows);
    assert |Cat(shards)| == rows * |shards|;
    DivMul(rows, |shards|);
    MergeIsSplit(Cat(shards), heads, kvHeads, |shards|);
  }

  /** Packing q, k and v, sharding the fused rows evenly over the ranks and merging the shards gives q, k and v back. */
  lemma {:induction false} MergeInvertsPack<T>(q: seq<T>, k: seq<T>, v: seq<T>, heads: nat, kvHeads: nat, headDim: nat,
                                               shards: seq<seq<T>>, rows: nat)
    requires kvHeads > 0 && heads % kvHeads == 0 && |q| == heads * headDim && |k| == |v| == kvHeads * headDim
    requires shards != [] && kvHeads % |shards| == 0 && forall i :: 0 <= i < |shards| ==> |shards[i]| == rows
    ensures |q| == Rows(kvHeads, headDim * heads / kvHeads)
    ensures Cat(shards) == PackQkv(q, k, v, kvHeads, headDim * heads / kvHeads, headDim) ==>
              Merge(shards, heads, kvHeads) == Some(Fused(q, k, v))
  {
    hide PackQkv, Split, Merge, Blocks, Cat, Rows;
    SplitInvertsPack(q, k, v, heads, kvHeads, headDim);
    if Split(Cat(shards), heads, kvHeads).Some? {
      MergeOfCat(shards, rows, heads, kvHeads);
    }
  }
}
