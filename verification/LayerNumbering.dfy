/** How the mergers renumber the layers of the pipeline stages, stage after stage. */
module LayerNumbering {

  // ---------- numbering by stage sizes ----------

  function Sum(sizes: seq<nat>, s: nat): nat
    requires s <= |sizes|
  {
    if s == 0 then 0 else Sum(sizes, s - 1) + sizes[s - 1]
  }

  /** `layers_cum` when stage `s` is reached: a stage without layers still advances it by one. */
  function Start(sizes: seq<nat>, s: nat): nat
    requires s <= |sizes|
  {
    if s == 0 then 0 else Start(sizes, s - 1) + if sizes[s - 1] == 0 then 1 else sizes[s - 1]
  }

  function Total(sizes: seq<nat>): nat {
    Sum(sizes, |sizes|)
  }

  /** The global number of a layer of a stage. */
  function Global(sizes: seq<nat>, s: nat, local: nat): nat
    requires s < |sizes| && local < sizes[s]
  {
    Start(sizes, s) + local
  }

  /** Every stage before a non-empty stage has a layer. */
  ghost predicate NoGap(sizes: seq<nat>) {
    forall i, j :: 0 <= i < j < |sizes| && sizes[i] == 0 ==> sizes[j] == 0
  }

  lemma {:induction false} StartIsSum(sizes: seq<nat>, s: nat)
    requires s <= |sizes| && forall i :: 0 <= i < s ==> sizes[i] > 0
    ensures Start(sizes, s) == Sum(sizes, s)
  {
    if s > 0 {
      StartIsSum(sizes, s - 1);
    }
  }

  lemma {:induction false} SumMonotone(sizes: seq<nat>, s: nat, t: nat)
    requires s <= t <= |sizes|
    ensures Sum(sizes, s) <= Sum(sizes, t)
    ensures s < t ==> Sum(sizes, s) + sizes[s] <= Sum(sizes, t)
    decreases t - s
  {
    if s < t {
      SumMonotone(sizes, s, t - 1);
    }
  }

  lemma {:induction false} StartAhead(sizes: seq<nat>, s: nat, empty: nat)
    requires s <= |sizes|
    ensures Start(sizes, s) >= Sum(sizes, s)
    ensures empty < s && sizes[empty] == 0 ==> Start(sizes, s) > Sum(sizes, s)
  {
    if s > 0 {
      StartAhead(sizes, s - 1, empty);
    }
  }

  /** The stage and local number of a global layer number, searching back from stage `k`. */
  function Locate(sizes: seq<nat>, k: nat, g: nat): (int, int)
    requires k <= |sizes|
  {
    if k == 0 then (-1, -1)
    else if g >= Sum(sizes, k - 1) && sizes[k - 1] > 0 then (k - 1, g - Sum(sizes, k - 1))
    else Locate(sizes, k - 1, g)
  }

  lemma {:induction false} LocateOk(sizes: seq<nat>, k: nat, g: nat)
    requires k <= |sizes| && g < Sum(sizes, k)
    ensures var (s, l) := Locate(sizes, k, g);
            0 <= s < k && 0 <= l < sizes[s] && g == Sum(sizes, s) + l
  {
    if !(g >= Sum(sizes, k - 1) && sizes[k - 1] > 0) {
      LocateOk(sizes, k - 1, g);
    }
  }

  lemma {:induction false} LocateUnique(sizes: seq<nat>, k: nat, s: nat, local: nat)
    requires s < k <= |sizes| && local < sizes[s]
    ensures Locate(sizes, k, Sum(sizes, s) + local) == (s, local)
  {
    if s < k - 1 {
      SumMonotone(sizes, s, k - 1);
      LocateUnique(sizes, k - 1, s, local);
    }
  }

  /** The numbers are exactly 0 .. total - 1, each for one layer. */
  ghost predicate IsBijection(sizes: seq<nat>) {
    && (forall s, l :: 0 <= s < |sizes| && 0 <= l < sizes[s] ==>
          Global(sizes, s, l) < Total(sizes) && Locate(sizes, |sizes|, Global(sizes, s, l)) == (s, l))
    && (forall g :: 0 <= g < Total(sizes) ==>
          var (s, l) := Locate(sizes, |sizes|, g);
          0 <= s < |sizes| && 0 <= l < sizes[s] && Global(sizes, s, l) == g)
  }

  lemma {:induction false} NoGapStarts(sizes: seq<nat>, s: nat)
    requires NoGap(sizes) && s < |sizes| && sizes[s] > 0
    ensures Start(sizes, s) == Sum(sizes, s)
  {
    StartIsSum(sizes, s);
  }

  /**
   The renumbering maps (stage, local layer) one to one onto 0 .. total - 1, in stage order,
   exactly when no stage without layers comes before a stage with layers.
   */
  lemma {:induction false} BijectionIffNoGap(sizes: seq<nat>)
    ensures IsBijection(sizes) <==> NoGap(sizes)
  {
    if NoGap(sizes) {
      forall s, l | 0 <= s < |sizes| && 0 <= l < sizes[s]
        ensures Global(sizes, s, l) < Total(sizes) && Locate(sizes, |sizes|, Global(sizes, s, l)) == (s, l)
      {
        NoGapStarts(sizes, s);
        SumMonotone(sizes, s, |sizes|);
        LocateUnique(sizes, |sizes|, s, l);
      }
      forall g | 0 <= g < Total(sizes)
        ensures var (s, l) := Locate(sizes, |sizes|, g);
                0 <= s < |sizes| && 0 <= l < sizes[s] && Global(sizes, s, l) == g
      {
        LocateOk(sizes, |sizes|, g);
        NoGapStarts(sizes, Locate(sizes, |sizes|, g).0);
      }
    } else {
      var i: nat, j: nat :| i < j < |sizes| && sizes[i] == 0 && sizes[j] != 0;
      GapOverflows(sizes, i, j);
    }
  }

  /** After a gap the last layer gets a number that is too large. */
  lemma {:induction false} GapOverflows(sizes: seq<nat>, empty: nat, s: nat)
    requires empty < s < |sizes| && sizes[empty] == 0 && sizes[s] > 0
    ensures !IsBijection(sizes)
    decreases |sizes| - s
  {
    if later: nat :| s < later < |sizes| && sizes[later] > 0 {
      GapOverflows(sizes, empty, later);
    } else {
      StartAhead(sizes, s, empty);
      SumTail(sizes, s + 1);
      assert Global(sizes, s, sizes[s] - 1) >= Total(sizes);
    }
  }

  lemma {:induction false} SumTail(sizes: seq<nat>, s: nat)
    requires s <= |sizes| && forall i :: s <= i < |sizes| ==> sizes[i] == 0
    ensures Total(sizes) == Sum(sizes, s)
    decreases |sizes| - s
  {
    if s < |sizes| {
      SumTail(sizes, s + 1);
    }
  }

  /** The distributed merger starts rank `r` at the cumulative sum of the shards before it. */
  lemma {:induction false} RankStart(shards: seq<nat>, r: nat)
    requires r < |shards|
    ensures Sum(shards, r) == Start(shards, r) <==> forall i :: 0 <= i < r ==> shards[i] > 0
  {
    if forall i :: 0 <= i < r ==> shards[i] > 0 {
      StartIsSum(shards, r);
    } else {
      var i: nat :| i < r && shards[i] == 0;
      StartAhead(shards, r, i);
    }
  }

  // ---------- the state dicts ----------

  /** A key of a state dict: a layer's, with the rest of its name, or one outside the layers. */
  datatype Name = Layer(no: nat, rest: string) | Other(name: string)

  datatype Item<V> = Item(name: Name, value: V)

  function Rename(start: nat, n: Name): Name {
    match n
    case Layer(no, rest) => Layer(no + start, rest)
    case Other(_) => n
  }

  /** `layers_handled`: the largest local layer number met, zero if there is none. */
  function Handled<V>(items: seq<Item<V>>): nat {
    if items == [] then 0
    else
      var m := Handled(items[..|items| - 1]);
      match items[|items| - 1].name
      case Layer(no, _) => if no > m then no else m
      case Other(_) => m
  }

  /** `layers_cum` after the given stages. */
  function StartOf<V>(stages: seq<seq<Item<V>>>): nat {
    if stages == [] then 0 else StartOf(stages[..|stages| - 1]) + Handled(stages[|stages| - 1]) + 1
  }

  function Put<V>(d: map<Name, V>, start: nat, items: seq<Item<V>>): map<Name, V> {
    if items == [] then d
    else
      var last := items[|items| - 1];
      Put(d, start, items[..|items| - 1])[Rename(start, last.name) := last.value]
  }

  /** The merged state dict of the stages, taken in this order. */
  function Merged<V>(stages: seq<seq<Item<V>>>): map<Name, V> {
    if stages == [] then map[]
    else
      var init := stages[..|stages| - 1];
      Put(Merged(init), StartOf(init), stages[|stages| - 1])
  }

  /** The stages of one virtual stage, by pipeline rank. */
  function Row<V>(dicts: seq<seq<seq<Item<V>>>>, v: nat, p: nat): seq<seq<Item<V>>>
    requires p <= |dicts| && forall i :: 0 <= i < |dicts| ==> v < |dicts[i]|
  {
    if p == 0 then [] else Row(dicts, v, p - 1) + [dicts[p - 1][v]]
  }

  /** All stages in the order the merger visits them: virtual stage first, then pipeline rank. */
  function Order<V>(dicts: seq<seq<seq<Item<V>>>>, vpp: nat): seq<seq<Item<V>>>
    requires forall i :: 0 <= i < |dicts| ==> vpp <= |dicts[i]|
  {
    if vpp == 0 then [] else Order(dicts, vpp - 1) + Row(dicts, vpp - 1, |dicts|)
  }

  lemma {:induction false} MergedSnoc<V>(stages: seq<seq<Item<V>>>, items: seq<Item<V>>)
    ensures Merged(stages + [items]) == Put(Merged(stages), StartOf(stages), items)
    ensures StartOf(stages + [items]) == StartOf(stages) + Handled(items) + 1
  {
    assert (stages + [items])[..|stages|] == stages;
  }

  lemma {:induction false} MergedEmpty<V>()
    ensures Merged<V>([]) == map[] && StartOf<V>([]) == 0
  {
  }

  /** The loop over the keys of one stage. */
  method MergeStage<V>(d: map<Name, V>, items: seq<Item<V>>, layersCum: nat)
    returns (merged: map<Name, V>, layersHandled: nat)
    ensures merged == Put(d, layersCum, items) && layersHandled == Handled(items)
  {
    merged, layersHandled := d, 0;
    for i := 0 to |items|
      invariant layersHandled == Handled(items[..i])
      invariant merged == Put(d, layersCum, items[..i])
    {
      assert items[..i + 1][..i] == items[..i];
      match items[i].name {
        case Layer(no, rest) =>
          layersHandled := if no > layersHandled then no else layersHandled;
          merged := merged[Layer(no + layersCum, rest) := items[i].value];
        case Other(_) =>
          merged := merged[items[i].name := items[i].value];
      }
    }
    assert items[..|items|] == items;
  }

  // ---------- nothing is lost ----------

  ghost predicate HasLayer<V>(items: seq<Item<V>>, l: nat) {
    exists i :: 0 <= i < |items| && items[i].name.Layer? && items[i].name.no == l
  }

  /** The layers of a stage are numbered 0 .. n - 1. */
  ghost predicate Complete<V>(items: seq<Item<V>>, n: nat) {
    && (forall i :: 0 <= i < |items| && items[i].name.Layer? ==> items[i].name.no < n)
    && (forall l: nat :: l < n ==> HasLayer(items, l))
  }

  ghost predicate AllComplete<V>(stages: seq<seq<Item<V>>>, sizes: seq<nat>) {
    |stages| == |sizes| && forall s :: 0 <= s < |stages| ==> Complete(stages[s], sizes[s])
  }

  lemma {:induction false} HandledIsMax<V>(items: seq<Item<V>>)
    ensures forall i :: 0 <= i < |items| && items[i].name.Layer? ==> items[i].name.no <= Handled(items)
    ensures Handled(items) > 0 ==> HasLayer(items, Handled(items))
  {
    if items != [] {
      var init := items[..|items| - 1];
      HandledIsMax(init);
      if Handled(items) == Handled(init) && Handled(init) > 0 {
        var i :| 0 <= i < |init| && init[i].name.Layer? && init[i].name.no == Handled(init);
        assert items[i].name.Layer? && items[i].name.no == Handled(items);
      }
      assert forall i :: 0 <= i < |init| ==> items[i] == init[i];
    }
  }

  lemma {:induction false} HandledComplete<V>(items: seq<Item<V>>, n: nat)
    requires Complete(items, n)
    ensures Handled(items) + 1 == if n == 0 then 1 else n
  {
    HandledIsMax(items);
    assert n > 0 ==> HasLayer(items, n - 1);
  }

  /** The running counter follows the stage sizes. */
  lemma {:induction false} StartOfSizes<V>(stages: seq<seq<Item<V>>>, sizes: seq<nat>, s: nat)
    requires AllComplete(stages, sizes) && s <= |stages|
    ensures StartOf(stages[..s]) == Start(sizes, s)
  {
    if s > 0 {
      StartOfSizes(stages, sizes, s - 1);
      HandledComplete(stages[s - 1], sizes[s - 1]);
      assert stages[..s][..s - 1] == stages[..s - 1];
    }
  }

  ghost predicate DistinctItems<V>(items: seq<Item<V>>) {
    forall i, j :: 0 <= i < j < |items| ==> items[i].name != items[j].name
  }

  lemma {:induction false} PutGets<V>(d: map<Name, V>, start: nat, items: seq<Item<V>>, i: nat)
    requires i < |items| && DistinctItems(items)
    ensures Rename(start, items[i].name) in Put(d, start, items)
    ensures Put(d, start, items)[Rename(start, items[i].name)] == items[i].value
  {
    if i < |items| - 1 {
      PutGets(d, start, items[..|items| - 1], i);
    }
  }

  /** Some entry of the stage is renamed to `k`. */
  ghost predicate Writes<V>(start: nat, items: seq<Item<V>>, k: Name) {
    exists i :: 0 <= i < |items| && Rename(start, items[i].name) == k
  }

  lemma {:induction false} PutFrame<V>(d: map<Name, V>, start: nat, items: seq<Item<V>>, k: Name)
    requires !Writes(start, items, k)
    ensures k in Put(d, start, items) <==> k in d
    ensures k in d ==> Put(d, start, items)[k] == d[k]
  {
    if items != [] {
      var init := items[..|items| - 1];
      assert !Writes(start, init, k) by {
        assert forall i :: 0 <= i < |init| ==> init[i] == items[i];
      }
      PutFrame(d, start, init, k);
    }
  }

  lemma {:induction false} StartGrows(sizes: seq<nat>, s: nat, t: nat)
    requires s < t <= |sizes|
    ensures Start(sizes, s) + sizes[s] <= Start(sizes, t)
    decreases t
  {
    if s < t - 1 {
      StartGrows(sizes, s, t - 1);
    }
  }

  /** No stage after `s`, up to `n`, writes the name `k`. */
  ghost predicate LastToWrite<V>(stages: seq<seq<Item<V>>>, sizes: seq<nat>, n: nat, s: nat, k: Name)
    requires n <= |stages| == |sizes|
  {
    forall t :: s < t < n ==> !Writes(Start(sizes, t), stages[t], k)
  }

  ghost predicate Occurs<V>(items: seq<Item<V>>, name: Name) {
    exists i :: 0 <= i < |items| && items[i].name == name
  }

  /** A later stage never writes the new name of a layer's entry; another name it writes only if it has it too. */
  lemma {:induction false} StagesApart<V>(stages: seq<seq<Item<V>>>, sizes: seq<nat>, s: nat, i: nat, t: nat)
    requires AllComplete(stages, sizes) && s < t < |stages| && i < |stages[s]|
    ensures var name := stages[s][i].name;
            Writes(Start(sizes, t), stages[t], Rename(Start(sizes, s), name)) <==>
              name.Other? && Occurs(stages[t], name)
  {
    StartGrows(sizes, s, t);
    assert Complete(stages[s], sizes[s]);
    var name := stages[s][i].name;
    if name.Other? && Occurs(stages[t], name) {
      var j :| 0 <= j < |stages[t]| && stages[t][j].name == name;
      assert Rename(Start(sizes, t), stages[t][j].name) == name;
    }
  }

  lemma {:induction false} MergedTake<V>(stages: seq<seq<Item<V>>>, sizes: seq<nat>, n: nat)
    requires AllComplete(stages, sizes) && 0 < n <= |stages|
    ensures Merged(stages[..n]) == Put(Merged(stages[..n - 1]), Start(sizes, n - 1), stages[n - 1])
  {
    StartOfSizes(stages, sizes, n - 1);
    hide AllComplete, Put;
    assert stages[..n][..n - 1] == stages[..n - 1];
  }

  /**
   A layer's entry is never overwritten, and another one only by a later stage with the same name:
   under its new name an entry has the value of the last stage that writes it, whether or not there
   are stages without layers.
   */
  lemma {:induction false} NothingLost<V>(stages: seq<seq<Item<V>>>, sizes: seq<nat>, n: nat, s: nat, i: nat)
    requires AllComplete(stages, sizes) && s < n <= |stages| && i < |stages[s]| && DistinctItems(stages[s])
    ensures var name := stages[s][i].name;
            var k := Rename(Start(sizes, s), name);
            && k in Merged(stages[..n])
            && (LastToWrite(stages, sizes, n, s, k) ==> Merged(stages[..n])[k] == stages[s][i].value)
            && (LastToWrite(stages, sizes, n, s, k) <==>
                  name.Layer? || forall t :: s < t < n ==> !Occurs(stages[t], name))
  {
    var name := stages[s][i].name;
    var k := Rename(Start(sizes, s), name);
    Survives(stages, sizes, n, s, i);
    forall t | s < t < n
      ensures Writes(Start(sizes, t), stages[t], k) <==> name.Other? && Occurs(stages[t], name)
    {
      StagesApart(stages, sizes, s, i, t);
    }
    hide Rename, Start, Writes, Occurs, Merged, AllComplete, DistinctItems;
  }

  lemma {:induction false} Survives<V>(stages: seq<seq<Item<V>>>, sizes: seq<nat>, n: nat, s: nat, i: nat)
    requires AllComplete(stages, sizes) && s < n <= |stages| && i < |stages[s]| && DistinctItems(stages[s])
    ensures var k := Rename(Start(sizes, s), stages[s][i].name);
            && k in Merged(stages[..n])
            && (LastToWrite(stages, sizes, n, s, k) ==> Merged(stages[..n])[k] == stages[s][i].value)
    decreases n
  {
    var k := Rename(Start(sizes, s), stages[s][i].name);
    var d := Merged(stages[..n - 1]);
    MergedTake(stages, sizes, n);
    hide Rename, Put, Merged, Start, AllComplete, DistinctItems, Writes;
    if s == n - 1 {
      PutGets(d, Start(sizes, s), stages[s], i);
    } else {
      Survives(stages, sizes, n - 1, s, i);
      StaysIn(d, Start(sizes, n - 1), stages[n - 1], k);
      if LastToWrite(stages, sizes, n, s, k) {
        assert !Writes(Start(sizes, n - 1), stages[n - 1], k);
        PutFrame(d, Start(sizes, n - 1), stages[n - 1], k);
      }
    }
  }

  lemma {:induction false} StaysIn<V>(d: map<Name, V>, start: nat, items: seq<Item<V>>, k: Name)
    requires k in d
    ensures k in Put(d, start, items)
  {
    if items != [] {
      StaysIn(d, start, items[..|items| - 1], k);
    }
  }

  /** Nothing else gets into the merged dict. */
  lemma {:induction false} NothingAdded<V>(stages: seq<seq<Item<V>>>, sizes: seq<nat>, n: nat, k: Name)
    returns (s: nat, i: nat)
    requires AllComplete(stages, sizes) && n <= |stages| && k in Merged(stages[..n])
    ensures s < n && i < |stages[s]| && k == Rename(Start(sizes, s), stages[s][i].name)
  {
    assert n > 0 by {
      assert stages[..0] == [];
    }
    MergedTake(stages, sizes, n);
    hide AllComplete, Put, Merged;
    if Writes(Start(sizes, n - 1), stages[n - 1], k) {
      s := n - 1;
      i :| i < |stages[s]| && Rename(Start(sizes, s), stages[s][i].name) == k;
    } else {
      PutFrame(Merged(stages[..n - 1]), Start(sizes, n - 1), stages[n - 1], k);
      s, i := NothingAdded(stages, sizes, n - 1, k);
    }
  }

  // ---------- what the merged dict holds ----------

  /** An entry of stage s goes under its global layer number, or under its own name, to the merged dict. */
  ghost predicate Stored<V>(stages: seq<seq<Item<V>>>, sizes: seq<nat>, s: nat, i: nat, merged: map<Name, V>)
    requires s < |stages| == |sizes| && i < |stages[s]|
  {
    match stages[s][i].name
    case Layer(l, rest) =>
      l < sizes[s] && Layer(Global(sizes, s, l), rest) in merged
      && merged[Layer(Global(sizes, s, l), rest)] == stages[s][i].value
    case Other(name) =>
      Other(name) in merged
      && ((forall t :: s < t < |stages| ==> !Occurs(stages[t], Other(name))) ==>
            merged[Other(name)] == stages[s][i].value)
  }

  /** A key of the merged dict comes from a stage. */
  ghost predicate Comes<V>(stages: seq<seq<Item<V>>>, sizes: seq<nat>, k: Name)
    requires |stages| == |sizes|
  {
    match k
    case Layer(g, rest) =>
      exists s, l :: 0 <= s < |stages| && 0 <= l < sizes[s] && Occurs(stages[s], Layer(l, rest))
                     && g == Global(sizes, s, l)
    case Other(_) => exists s :: 0 <= s < |stages| && Occurs(stages[s], k)
  }

  ghost predicate HasNumber<V>(merged: map<Name, V>, g: nat) {
    exists k :: k in merged && k.Layer? && k.no == g
  }

  /**
   The merged dict is the renumbering of the stages: every entry is stored, nothing else is, and
   without a gap the layer numbers are exactly 0 .. total - 1.
   */
  ghost predicate IsRenumbering<V>(stages: seq<seq<Item<V>>>, sizes: seq<nat>, merged: map<Name, V>)
    requires |stages| == |sizes|
  {
    && (forall s, i :: 0 <= s < |stages| && 0 <= i < |stages[s]| ==> Stored(stages, sizes, s, i, merged))
    && (forall k :: k in merged ==> Comes(stages, sizes, k))
    && (NoGap(sizes) ==> forall g: nat :: HasNumber(merged, g) <==> g < Total(sizes))
  }

  ghost predicate Consistent<V>(stages: seq<seq<Item<V>>>, sizes: seq<nat>) {
    AllComplete(stages, sizes) && forall s :: 0 <= s < |stages| ==> DistinctItems(stages[s])
  }

  lemma {:induction false} EntryStored<V>(stages: seq<seq<Item<V>>>, sizes: seq<nat>, s: nat, i: nat)
    requires Consistent(stages, sizes) && s < |stages| && i < |stages[s]|
    ensures Stored(stages, sizes, s, i, Merged(stages))
  {
    NothingLost(stages, sizes, |stages|, s, i);
    assert stages[..|stages|] == stages;
    assert Complete(stages[s], sizes[s]);
    hide Merged, LastToWrite, Start, AllComplete, Complete, DistinctItems, Occurs;
  }

  lemma {:induction false} KeyComes<V>(stages: seq<seq<Item<V>>>, sizes: seq<nat>, k: Name)
    requires Consistent(stages, sizes) && k in Merged(stages)
    ensures Comes(stages, sizes, k)
  {
    assert stages[..|stages|] == stages;
    var s, i := NothingAdded(stages, sizes, |stages|, k);
    assert Complete(stages[s], sizes[s]);
    assert Occurs(stages[s], stages[s][i].name);
    hide Merged, Start, AllComplete, Complete, DistinctItems, Occurs;
  }

  lemma {:induction false} NumbersExact<V>(stages: seq<seq<Item<V>>>, sizes: seq<nat>, g: nat)
    requires Consistent(stages, sizes) && NoGap(sizes)
    ensures HasNumber(Merged(stages), g) <==> g < Total(sizes)
  {
    BijectionIffNoGap(sizes);
    if HasNumber(Merged(stages), g) {
      var k :| k in Merged(stages) && k.Layer? && k.no == g;
      KeyComes(stages, sizes, k);
    }
    if g < Total(sizes) {
      var (s, l) := Locate(sizes, |sizes|, g);
      assert 0 <= s < |sizes| && 0 <= l < sizes[s] && Global(sizes, s, l) == g;
      assert Complete(stages[s], sizes[s]) && HasLayer(stages[s], l);
      var i :| 0 <= i < |stages[s]| && stages[s][i].name.Layer? && stages[s][i].name.no == l;
      EntryStored(stages, sizes, s, i);
      assert Layer(g, stages[s][i].name.rest) in Merged(stages);
    }
  }

  /** Every entry of complete stages, with distinct names in each, lands where it belongs. */
  lemma {:induction false} MergedIsRenumbering<V>(stages: seq<seq<Item<V>>>, sizes: seq<nat>)
    requires Consistent(stages, sizes)
    ensures IsRenumbering(stages, sizes, Merged(stages))
  {
    forall s, i | 0 <= s < |stages| && 0 <= i < |stages[s]|
      ensures Stored(stages, sizes, s, i, Merged(stages))
    {
      EntryStored(stages, sizes, s, i);
    }
    forall k | k in Merged(stages)
      ensures Comes(stages, sizes, k)
    {
      KeyComes(stages, sizes, k);
    }
    if NoGap(sizes) {
      forall g: nat
        ensures HasNumber(Merged(stages), g) <==> g < Total(sizes)
      {
        NumbersExact(stages, sizes, g);
      }
    }
    hide Stored, Comes, HasNumber, Merged, Consistent;
  }

  /** Whatever the sizes of the stages, if they are complete and their names distinct, this is their renumbering. */
  ghost predicate Renumbers<V>(stages: seq<seq<Item<V>>>, merged: map<Name, V>) {
    forall sizes: seq<nat> :: Consistent(stages, sizes) ==> IsRenumbering(stages, sizes, merged)
  }

  lemma {:induction false} MergedRenumbers<V>(stages: seq<seq<Item<V>>>)
    ensures Renumbers(stages, Merged(stages))
  {
    forall sizes: seq<nat> | Consistent(stages, sizes)
      ensures IsRenumbering(stages, sizes, Merged(stages))
    {
      MergedIsRenumbering(stages, sizes);
    }
  }

  lemma {:induction false} RowAt<V>(dicts: seq<seq<seq<Item<V>>>>, v: nat, n: nat, p: nat)
    requires p < n <= |dicts| && forall i :: 0 <= i < |dicts| ==> v < |dicts[i]|
    ensures |Row(dicts, v, n)| == n && Row(dicts, v, n)[p] == dicts[p][v]
  {
    if n > 1 {
      RowAt(dicts, v, n - 1, if p < n - 1 then p else 0);
    }
  }

  /** Stage v * ranks + p of the visit is virtual stage v of pipeline rank p. */
  lemma {:induction false} OrderAt<V>(dicts: seq<seq<seq<Item<V>>>>, vpp: nat, v: nat, p: nat)
    requires v < vpp && p < |dicts| && forall i :: 0 <= i < |dicts| ==> vpp <= |dicts[i]|
    ensures |Order(dicts, vpp)| == vpp * |dicts|
    ensures v * |dicts| + p < vpp * |dicts| && Order(dicts, vpp)[v * |dicts| + p] == dicts[p][v]
    decreases vpp
  {
    var n := |dicts|;
    RowAt(dicts, vpp - 1, n, p);
    assert (vpp - 1) * n + n == vpp * n;
    if vpp == 1 {
      assert v * n == 0;
    } else {
      OrderAt(dicts, vpp - 1, if v < vpp - 1 then v else 0, p);
    }
  }

  /** MegatronModelMerger._merge_state_dicts; dicts[pp][vpp] is the state dict of one stage. */
  method MergeStateDicts<V>(dicts: seq<seq<seq<Item<V>>>>) returns (merged: map<Name, V>)
    requires dicts != [] && forall p :: 0 <= p < |dicts| ==> |dicts[p]| == |dicts[0]|
    ensures merged == Merged(Order(dicts, |dicts[0]|))
    ensures Renumbers(Order(dicts, |dicts[0]|), merged)
  {
    hide Put, Handled, Merged, StartOf;
    merged := map[];
    var layersCum: nat := 0;
    MergedEmpty<V>();
    ghost var done: seq<seq<Item<V>>> := [];
    for v := 0 to |dicts[0]|
      invariant done == Order(dicts, v)
      invariant merged == Merged(done) && layersCum == StartOf(done)
    {
      for p := 0 to |dicts|
        invariant done == Order(dicts, v) + Row(dicts, v, p)
        invariant merged == Merged(done) && layersCum == StartOf(done)
      {
        var layersHandled;
        MergedSnoc(done, dicts[p][v]);
        merged, layersHandled := MergeStage(merged, dicts[p][v], layersCum);
        layersCum := layersCum + layersHandled + 1;
        done := done + [dicts[p][v]];
      }
    }
    MergedRenumbers(done);
  }
}
