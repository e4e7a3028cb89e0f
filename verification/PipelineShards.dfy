/** The dynamic pipeline split of the Megatron converters: first and last stage short, middle stages equal. */
module PipelineShards {
  import Tensors
  import opened Wrappers

  datatype Error = TooFewLayers | NoStages | NoCandidate

  function Sum(xs: seq<int>): int {
    if xs == [] then 0 else Sum(xs[..|xs| - 1]) + xs[|xs| - 1]
  }

  function CeilDiv(a: int, b: int): int
    requires b > 0
  {
    (a + b - 1) / b
  }

  /** A split of `layers` over `stages` stages, none of them empty. */
  ghost predicate IsSplit(xs: seq<int>, layers: int, stages: int) {
    && |xs| == stages
    && Sum(xs) == layers
    && forall i :: 0 <= i < |xs| ==> xs[i] >= 1
  }

  /** The largest stage of the split has exactly `m` layers. */
  ghost predicate MaxIs(xs: seq<int>, m: int) {
    && (forall i :: 0 <= i < |xs| ==> xs[i] <= m)
    && exists i :: 0 <= i < |xs| && xs[i] == m
  }

  // ---------- one candidate ----------

  /** The middle stages have m layers, the last one at most one more than the first; diff is what the first lacks. */
  ghost predicate IsCandidate(xs: seq<int>, diff: int, stages: int, m: int)
    requires stages >= 3
  {
    && |xs| == stages
    && (forall i :: 0 < i < stages - 1 ==> xs[i] == m)
    && xs[0] <= xs[stages - 1] <= xs[0] + 1
    && diff == m - xs[0]
  }

  /** Layers left for the first and the last stage when each middle stage has `m`. */
  function Ends(layers: int, stages: int, m: int): int {
    layers - m * (stages - 2)
  }

  function FirstStage(layers: int, stages: int, m: int): int {
    Ends(layers, stages, m) / 2
  }

  function LastStage(layers: int, stages: int, m: int): int {
    Ends(layers, stages, m) - FirstStage(layers, stages, m)
  }

  predicate Feasible(layers: int, stages: int, m: int) {
    0 < FirstStage(layers, stages, m) <= m && 0 < LastStage(layers, stages, m) <= m
  }

  function Repeat(x: int, n: nat): (r: seq<int>)
    ensures |r| == n && forall i :: 0 <= i < n ==> r[i] == x
  {
    seq(n, _ => x)
  }

  function Shards(layers: int, stages: int, m: int): seq<int>
    requires stages >= 2
  {
    [FirstStage(layers, stages, m)] + Repeat(m, stages - 2) + [LastStage(layers, stages, m)]
  }

  function Diff(layers: int, stages: int, m: int): int {
    var d := FirstStage(layers, stages, m) - m;
    if d < 0 then -d else d
  }

  lemma {:induction false} SumRepeat(x: int, n: nat)
    ensures Sum(Repeat(x, n)) == x * n
  {
    if n > 0 {
      SumRepeat(x, n - 1);
      assert Repeat(x, n)[..n - 1] == Repeat(x, n - 1);
      assert x * n == x * (n - 1) + x;
    }
  }

  lemma {:induction false} SumCons(x: int, xs: seq<int>)
    ensures Sum([x] + xs) == x + Sum(xs)
  {
    if xs == [] {
      assert [x] + xs == [x] && [x][..0] == [];
    } else {
      SumCons(x, xs[..|xs| - 1]);
      assert ([x] + xs)[..|xs|] == [x] + xs[..|xs| - 1];
    }
  }

  lemma {:induction false} SumOfPair(x: int, y: int)
    ensures Sum([x]) == x && Sum([x, y]) == x + y
  {
    assert [x][..0] == [] && [x, y][..1] == [x];
  }

  lemma {:induction false} CandidateIsSplit(layers: int, stages: int, m: int)
    requires stages >= 3 && Feasible(layers, stages, m)
    ensures IsSplit(Shards(layers, stages, m), layers, stages)
    ensures MaxIs(Shards(layers, stages, m), m)
    ensures IsCandidate(Shards(layers, stages, m), Diff(layers, stages, m), stages, m)
  {
    var f, l, mid := FirstStage(layers, stages, m), LastStage(layers, stages, m), Repeat(m, stages - 2);
    SumRepeat(m, stages - 2);
    SumCons(f, mid);
    assert ([f] + mid + [l])[..|mid| + 1] == [f] + mid;
    assert Shards(layers, stages, m)[1] == m;
  }

  // ---------- arithmetic of the candidates ----------

  lemma {:induction false} CeilSpec(a: int, b: int, m: int)
    requires b > 0
    ensures m >= CeilDiv(a, b) <==> m * b >= a
  {
    var q, r := (a + b - 1) / b, (a + b - 1) % b;
    assert a + b - 1 == q * b + r && 0 <= r < b;
    if m >= q {
      Tensors.Monotone(q, m, b);
    } else {
      Tensors.Monotone(m, q - 1, b);
      assert (q - 1) * b == q * b - b;
    }
  }

  /** A middle size works exactly when it covers an even share and leaves two layers for the ends. */
  lemma {:induction false} FeasibleIff(layers: int, stages: int, m: int)
    requires stages >= 3
    ensures Feasible(layers, stages, m) <==> m >= CeilDiv(layers, stages) && Ends(layers, stages, m) >= 2
  {
    CeilSpec(layers, stages, m);
    assert m * stages == m * (stages - 2) + 2 * m;
  }

  lemma {:induction false} Scale(d: int, s: int)
    requires d >= 1 && s >= 1
    ensures d * s >= s && d * s >= d
  {
    assert (d - 1) * s >= 0 && d * (s - 1) >= 0;
  }

  lemma {:induction false} EndsShrink(layers: int, stages: int, m: int, m': int)
    requires stages >= 3 && m < m'
    ensures Ends(layers, stages, m') < Ends(layers, stages, m)
  {
    Scale(m' - m, stages - 2);
    assert m' * (stages - 2) == m * (stages - 2) + (m' - m) * (stages - 2);
  }

  lemma {:induction false} DiffGrows(layers: int, stages: int, m: int, m': int)
    requires stages >= 3 && m < m' && Feasible(layers, stages, m) && Feasible(layers, stages, m')
    ensures Diff(layers, stages, m) < Diff(layers, stages, m')
  {
    EndsShrink(layers, stages, m, m');
  }

  // ---------- the search ----------

  /** `sorted(strategies, key=diff)[0]`: the sort is stable, so the first of the least ones. */
  method SortedFirst(strategies: seq<(seq<int>, int)>) returns (k: nat)
    requires strategies != []
    ensures k < |strategies|
    ensures forall j :: 0 <= j < |strategies| ==> strategies[k].1 <= strategies[j].1
    ensures forall j :: 0 <= j < k ==> strategies[k].1 < strategies[j].1
  {
    k := 0;
    for i := 1 to |strategies|
      invariant k < i
      invariant forall j :: 0 <= j < i ==> strategies[k].1 <= strategies[j].1
      invariant forall j :: 0 <= j < k ==> strategies[k].1 < strategies[j].1
    {
      if strategies[i].1 < strategies[k].1 {
        k := i;
      }
    }
  }

  /** The candidates for the middle sizes `mids`, in increasing order. */
  ghost predicate Collected(layers: int, stages: int, strategies: seq<(seq<int>, int)>, mids: seq<int>, n: int)
    requires stages >= 3
  {
    && |strategies| == |mids|
    && (forall k :: 0 <= k < |mids| ==>
          0 <= mids[k] < n && Feasible(layers, stages, mids[k])
          && strategies[k] == (Shards(layers, stages, mids[k]), Diff(layers, stages, mids[k])))
    && (forall j, k :: 0 <= j < k < |mids| ==> mids[j] < mids[k])
    && (forall m :: 0 <= m < n && Feasible(layers, stages, m) ==> m in mids)
  }

  lemma {:induction false} EvenShareFits(layers: int, stages: int)
    requires stages >= 3 && layers >= stages && Feasible(layers, stages, CeilDiv(layers, stages))
    ensures 0 <= CeilDiv(layers, stages) < layers
  {
    var c := CeilDiv(layers, stages);
    CeilSpec(layers, stages, 0);
    CeilSpec(layers, stages, c);
    FeasibleIff(layers, stages, c);
    Scale(c, stages - 2);
  }

  lemma {:induction false} NoneBelowEvenShare(layers: int, stages: int, m: int)
    requires stages >= 3 && Feasible(layers, stages, m)
    ensures CeilDiv(layers, stages) <= m && Feasible(layers, stages, CeilDiv(layers, stages))
  {
    var c := CeilDiv(layers, stages);
    FeasibleIff(layers, stages, m);
    if m > c {
      EndsShrink(layers, stages, c, m);
      FeasibleIff(layers, stages, c);
    }
  }

  lemma {:induction false} FirstCollected(layers: int, stages: int, strategies: seq<(seq<int>, int)>, mids: seq<int>)
    requires stages >= 3 && layers >= stages && Collected(layers, stages, strategies, mids, layers)
    ensures strategies != [] <==> Ends(layers, stages, CeilDiv(layers, stages)) >= 2
    ensures strategies != [] ==> mids[0] == CeilDiv(layers, stages)
    ensures forall k :: 0 < k < |strategies| ==> strategies[0].1 < strategies[k].1
  {
    var c := CeilDiv(layers, stages);
    FeasibleIff(layers, stages, c);
    if strategies != [] {
      NoneBelowEvenShare(layers, stages, mids[0]);
    }
    if Feasible(layers, stages, c) {
      EvenShareFits(layers, stages);
      assert c in mids;
    }
    forall k | 0 < k < |strategies|
      ensures strategies[0].1 < strategies[k].1
    {
      DiffGrows(layers, stages, mids[0], mids[k]);
    }
  }

  /** The loop over the middle sizes: it keeps the feasible ones, in order. */
  method Candidates(layers: int, stages: int) returns (strategies: seq<(seq<int>, int)>)
    requires layers >= stages >= 3
    ensures exists mids :: Collected(layers, stages, strategies, mids, layers)
    ensures forall k :: 0 <= k < |strategies| ==>
              var (xs, diff) := strategies[k];
              |xs| == stages && IsSplit(xs, layers, stages) && MaxIs(xs, xs[1]) && IsCandidate(xs, diff, stages, xs[1])
    ensures forall j, k :: 0 <= j < k < |strategies| ==>
              |strategies[j].0| == |strategies[k].0| == stages && strategies[j].0[1] < strategies[k].0[1]
  {
    hide Repeat;
    strategies := [];
    ghost var mids: seq<int> := [];
    for m := 0 to layers
      invariant Collected(layers, stages, strategies, mids, m)
    {
      var ends := layers - m * (stages - 2);
      var first := ends / 2;
      var last := ends - ends / 2;
      if 0 < first <= m && 0 < last <= m {
        var diff := if first - m < 0 then m - first else first - m;
        strategies := strategies + [([first] + Repeat(m, stages - 2) + [last], diff)];
        mids := mids + [m];
      }
    }
    CandidatesAre(layers, stages, strategies, mids);
    hide Collected, IsSplit, MaxIs, IsCandidate;
  }

  lemma {:induction false} CandidatesAre(layers: int, stages: int, strategies: seq<(seq<int>, int)>, mids: seq<int>)
    requires layers >= stages >= 3 && Collected(layers, stages, strategies, mids, layers)
    ensures forall k :: 0 <= k < |strategies| ==>
              var (xs, diff) := strategies[k];
              |xs| == stages && IsSplit(xs, layers, stages) && MaxIs(xs, xs[1]) && IsCandidate(xs, diff, stages, xs[1])
    ensures forall j, k :: 0 <= j < k < |strategies| ==>
              |strategies[j].0| == |strategies[k].0| == stages && strategies[j].0[1] < strategies[k].0[1]
  {
    forall k | 0 <= k < |strategies|
      ensures var (xs, diff) := strategies[k];
              |xs| == stages && IsSplit(xs, layers, stages) && MaxIs(xs, xs[1]) && xs[1] == mids[k]
              && IsCandidate(xs, diff, stages, xs[1])
    {
      CandidateIsSplit(layers, stages, mids[k]);
    }
    hide IsSplit, MaxIs, IsCandidate;
  }

  /**
   What the caller may expect: a split with the least possible largest stage. Every middle stage has
   an even share, and of the rest the last stage gets the odd layer; that leaves one list.
   */
  ghost predicate Even(xs: seq<int>, layers: int, stages: int)
    requires stages >= 1
  {
    && IsSplit(xs, layers, stages) && MaxIs(xs, CeilDiv(layers, stages))
    && (forall i :: 0 < i < stages - 1 ==> xs[i] == CeilDiv(layers, stages))
    && (stages >= 2 ==> xs[0] <= xs[stages - 1] <= xs[0] + 1)
  }

  /** The conditions leave no choice. */
  lemma {:induction false} EvenIsUnique(xs: seq<int>, ys: seq<int>, layers: int, stages: int)
    requires stages >= 1 && Even(xs, layers, stages) && Even(ys, layers, stages)
    ensures xs == ys
  {
    if stages == 1 {
      SumOfPair(xs[0], 0);
      SumOfPair(ys[0], 0);
      assert xs == [xs[0]] && ys == [ys[0]];
    } else {
      hide MaxIs, CeilDiv, Sum;
      SameMiddle(xs, ys);
    }
  }

  lemma {:induction false} SameMiddle(xs: seq<int>, ys: seq<int>)
    requires |xs| == |ys| >= 2 && Sum(xs) == Sum(ys)
    requires forall i :: 0 < i < |xs| - 1 ==> xs[i] == ys[i]
    requires xs[0] <= xs[|xs| - 1] <= xs[0] + 1 && ys[0] <= ys[|ys| - 1] <= ys[0] + 1
    ensures xs == ys
  {
    SumOfEnds(xs);
    SumOfEnds(ys);
    hide Sum;
    var last := |xs| - 1;
    assert xs[1..last] == ys[1..last];
  }

  lemma {:induction false} SumOfEnds(xs: seq<int>)
    requires |xs| >= 2
    ensures Sum(xs) == xs[0] + Sum(xs[1..|xs| - 1]) + xs[|xs| - 1]
  {
    var init := xs[..|xs| - 1];
    assert init == [xs[0]] + xs[1..|xs| - 1];
    SumCons(xs[0], xs[1..|xs| - 1]);
  }

  lemma {:induction false} OneStage(layers: int)
    requires layers >= 1
    ensures Even([layers], layers, 1)
  {
    SumOfPair(layers, 0);
    assert [layers][0] == CeilDiv(layers, 1);
  }

  lemma {:induction false} TwoStages(layers: int)
    requires layers >= 2
    ensures Even([layers / 2, layers - layers / 2], layers, 2)
  {
    SumOfPair(layers / 2, layers - layers / 2);
    assert [layers / 2, layers - layers / 2][1] == CeilDiv(layers, 2);
  }

  /**
   The split, or the reason there is none. With three stages or more the candidate list is empty,
   and indexing it fails, exactly when an even share for every middle stage leaves fewer than two
   layers for the ends.
   */
  method GetDynamicPipelineShards(layers: int, stages: int) returns (r: Result<seq<int>, Error>)
    ensures layers < stages ==> r == Err(TooFewLayers)
    ensures layers >= stages && stages < 1 ==> r == Err(NoStages)
    ensures layers >= stages >= 1 ==>
              if stages <= 2 || layers - CeilDiv(layers, stages) * (stages - 2) >= 2
              then r.Ok? && Even(r.value, layers, stages)
              else r == Err(NoCandidate)
  {
    hide IsSplit, MaxIs, Even, Collected, CeilDiv, Shards;
    if layers < stages {
      return Err(TooFewLayers);
    }
    if stages < 1 {
      return Err(NoStages);
    }
    if stages == 1 {
      OneStage(layers);
      return Ok([layers]);
    }
    if stages == 2 {
      TwoStages(layers);
      return Ok([layers / 2, layers - layers / 2]);
    }
    var strategies := Candidates(layers, stages);
    ghost var mids :| Collected(layers, stages, strategies, mids, layers);
    FirstCollected(layers, stages, strategies, mids);
    if strategies == [] {
      return Err(NoCandidate);
    }
    var k := SortedFirst(strategies);
    FirstIsEven(layers, stages, strategies, mids);
    r := Ok(strategies[k].0);
  }

  lemma {:induction false} FirstIsEven(layers: int, stages: int, strategies: seq<(seq<int>, int)>, mids: seq<int>)
    requires layers >= stages >= 3 && Collected(layers, stages, strategies, mids, layers) && strategies != []
    ensures Even(strategies[0].0, layers, stages)
  {
    FirstCollected(layers, stages, strategies, mids);
    CandidateIsSplit(layers, stages, mids[0]);
  }

  // ---------- optimality ----------

  lemma {:induction false} SumAtMost(xs: seq<int>, m: int)
    requires forall i :: 0 <= i < |xs| ==> xs[i] <= m
    ensures Sum(xs) <= |xs| * m
  {
    if xs != [] {
      SumAtMost(xs[..|xs| - 1], m);
      assert |xs| * m == (|xs| - 1) * m + m;
    }
  }

  /** No split has a smaller largest stage, so the split that is returned is as even as possible. */
  lemma {:induction false} EvenShareIsLeast(xs: seq<int>, layers: int, stages: int, m: int)
    requires stages >= 1 && |xs| == stages && Sum(xs) == layers
    requires forall i :: 0 <= i < |xs| ==> xs[i] <= m
    ensures m >= CeilDiv(layers, stages)
  {
    SumAtMost(xs, m);
    CeilSpec(layers, stages, m);
  }

  /** Five layers on four stages have a split, but the search finds none. */
  lemma {:induction false} FiveLayersOnFourStages()
    ensures IsSplit([1, 1, 1, 2], 5, 4)
    ensures forall m :: 0 <= m < 5 ==> !Feasible(5, 4, m)
  {
    SumOfPair(1, 2);
    SumCons(1, [1, 2]);
    SumCons(1, [1, 1, 2]);
    assert [1] + [1, 2] == [1, 1, 2] && [1] + [1, 1, 2] == [1, 1, 1, 2];
    forall m | 0 <= m < 5
      ensures !Feasible(5, 4, m)
    {
      FeasibleIff(5, 4, m);
    }
  }
}
