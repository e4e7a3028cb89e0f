/**
 Greedy bucket packing, shared by the NCCL and the NIXL checkpoint engine.

 A bucket is described by the weights it holds; the engines never keep such a list, only the
 bytes and the metadata dict, and the lemmas here say when those two determine the list.
 */
module Packing {
  type byte = b: int | 0 <= b < 256

  /** A named tensor, seen as its raw bytes. */
  datatype Weight = Weight(name: string, data: seq<byte>)

  /** A value of the metadata dict; `size` stands for the item size times the number of elements. */
  datatype Entry = Entry(name: string, offset: nat, size: nat)

  // ---------- contents of buckets ----------

  /** The bytes of a bucket, laid end to end. */
  function Flat(ws: seq<Weight>): seq<byte> {
    if ws == [] then [] else Flat(ws[..|ws| - 1]) + ws[|ws| - 1].data
  }

  /** All weights of a sequence of buckets, in order. */
  function Concat(bs: seq<seq<Weight>>): seq<Weight> {
    if bs == [] then [] else Concat(bs[..|bs| - 1]) + bs[|bs| - 1]
  }

  ghost predicate DistinctNames(ws: seq<Weight>) {
    forall i, j :: 0 <= i < j < |ws| ==> ws[i].name != ws[j].name
  }

  // ---------- the metadata dict ----------

  /** Index of the entry with the given name, or |es| when there is none. */
  function Find(es: seq<Entry>, name: string): (i: nat)
    ensures i <= |es|
    ensures i < |es| ==> es[i].name == name
    ensures forall j :: 0 <= j < i ==> es[j].name != name
  {
    if es == [] then 0
    else if es[0].name == name then 0
    else 1 + Find(es[1..], name)
  }

  /** Assignment to a Python dict: a name already present keeps its place and takes the new value. */
  function Put(es: seq<Entry>, e: Entry): (r: seq<Entry>) {
    var i := Find(es, e.name);
    if i < |es| then es[i := e] else es + [e]
  }

  /** The metadata rank 0 builds while it fills a bucket with `ws`. */
  function Layout(ws: seq<Weight>): (es: seq<Entry>)
    ensures |es| <= |ws|
  {
    if ws == [] then []
    else
      var init, w := ws[..|ws| - 1], ws[|ws| - 1];
      Put(Layout(init), Entry(w.name, |Flat(init)|, |w.data|))
  }

  /** Reading a slice of a bucket; the engines index the uint8 buffer in the same way. */
  function Read(buf: seq<byte>, e: Entry): seq<byte>
    requires e.offset + e.size <= |buf|
  {
    buf[e.offset..e.offset + e.size]
  }

  ghost predicate InRange(buf: seq<byte>, es: seq<Entry>) {
    forall i :: 0 <= i < |es| ==> es[i].offset + es[i].size <= |buf|
  }

  /** What a receiver yields from one bucket. */
  function Unpack(buf: seq<byte>, es: seq<Entry>): (ws: seq<Weight>)
    requires InRange(buf, es)
    ensures |ws| == |es|
    ensures forall i :: 0 <= i < |es| ==> ws[i] == Weight(es[i].name, Read(buf, es[i]))
  {
    if es == [] then []
    else Unpack(buf, es[..|es| - 1]) + [Weight(es[|es| - 1].name, Read(buf, es[|es| - 1]))]
  }

  lemma {:induction false} FindAbsent(es: seq<Entry>, name: string)
    ensures Find(es, name) == |es| <==> forall j :: 0 <= j < |es| ==> es[j].name != name
  {
    if es != [] && es[0].name != name {
      FindAbsent(es[1..], name);
    }
  }

  /** The dict knows exactly the names of the bucket. */
  lemma {:induction false} LayoutKnows(ws: seq<Weight>, name: string)
    ensures Find(Layout(ws), name) < |Layout(ws)| <==> exists i :: 0 <= i < |ws| && ws[i].name == name
  {
    if ws != [] {
      var init, w := ws[..|ws| - 1], ws[|ws| - 1];
      LayoutKnows(init, name);
      var es, r := Layout(init), Layout(ws);
      FindAbsent(es, name);
      FindAbsent(r, name);
      var k := Find(es, w.name);
      assert forall i :: 0 <= i < |es| ==> r[i].name == es[i].name;
      assert r[k].name == w.name;
      assert forall i :: 0 <= i < |init| ==> ws[i] == init[i];
    }
  }

  lemma {:induction false} FlatOne(w: Weight)
    ensures Flat([w]) == w.data
  {
    assert [w][..0] == [];
  }

  lemma {:induction false} FlatSnoc(ws: seq<Weight>, w: Weight)
    ensures Flat(ws + [w]) == Flat(ws) + w.data
  {
    assert (ws + [w])[..|ws|] == ws;
  }

  lemma {:induction false} FlatPrefix(ws: seq<Weight>, k: nat)
    requires k <= |ws|
    ensures Flat(ws[..k]) <= Flat(ws)
    decreases |ws|
  {
    if k < |ws| {
      var init := ws[..|ws| - 1];
      assert ws[..k] == init[..k];
      FlatPrefix(init, k);
    } else {
      assert ws[..k] == ws;
    }
  }

  /** Offsets tile the bucket: entry i starts where the bytes of the first i weights end. */
  lemma {:induction false} LayoutTiles(ws: seq<Weight>)
    requires DistinctNames(ws)
    ensures |Layout(ws)| == |ws|
    ensures forall i :: 0 <= i < |ws| ==> Layout(ws)[i] == Entry(ws[i].name, |Flat(ws[..i])|, |ws[i].data|)
  {
    if ws != [] {
      var init, w := ws[..|ws| - 1], ws[|ws| - 1];
      LayoutTiles(init);
      LayoutKnows(init, w.name);
      forall i | 0 <= i < |ws|
        ensures Layout(ws)[i] == Entry(ws[i].name, |Flat(ws[..i])|, |ws[i].data|)
      {
        assert i < |init| ==> ws[..i] == init[..i];
      }
    }
  }

  lemma {:induction false} LayoutSnoc(ws: seq<Weight>, w: Weight)
    ensures Layout(ws + [w]) == Put(Layout(ws), Entry(w.name, |Flat(ws)|, |w.data|))
  {
    assert (ws + [w])[..|ws|] == ws;
  }

  lemma {:induction false} FlatAt(ws: seq<Weight>, i: nat)
    requires i < |ws|
    ensures Flat(ws[..i]) + ws[i].data <= Flat(ws)
  {
    FlatPrefix(ws, i + 1);
    assert ws[..i + 1] == ws[..i] + [ws[i]];
    FlatSnoc(ws[..i], ws[i]);
  }

  /** A slice of a buffer that starts with the bucket's bytes is the weight itself. */
  lemma {:induction false} ReadBack(buf: seq<byte>, ws: seq<Weight>, i: nat)
    requires DistinctNames(ws) && Flat(ws) <= buf && i < |ws|
    ensures |Layout(ws)| == |ws|
    ensures Layout(ws)[i].name == ws[i].name
    ensures Layout(ws)[i].offset + Layout(ws)[i].size <= |buf|
    ensures Read(buf, Layout(ws)[i]) == ws[i].data
  {
    LayoutTiles(ws);
    FlatAt(ws, i);
    SliceOfPrefix(buf, Flat(ws[..i]), ws[i].data);
  }

  lemma {:induction false} SliceOfPrefix(buf: seq<byte>, f: seq<byte>, d: seq<byte>)
    requires f + d <= buf
    ensures buf[|f|..|f| + |d|] == d
  {
    assert buf[|f|..|f| + |d|] == (f + d)[|f|..];
  }

  lemma {:induction false} LayoutInRange(buf: seq<byte>, ws: seq<Weight>)
    requires Flat(ws) <= buf
    ensures InRange(buf, Layout(ws))
  {
    if ws != [] {
      var init, w := ws[..|ws| - 1], ws[|ws| - 1];
      assert Flat(ws) == Flat(init) + w.data;
      LayoutInRange(buf, init);
    }
  }

  /** The metadata has as many entries as the bucket has weights exactly when the names differ. */
  lemma {:induction false} LayoutLength(ws: seq<Weight>)
    ensures |Layout(ws)| == |ws| <==> DistinctNames(ws)
  {
    if ws != [] {
      var init, w := ws[..|ws| - 1], ws[|ws| - 1];
      LayoutLength(init);
      if DistinctNames(ws) {
        LayoutTiles(ws);
      } else if DistinctNames(init) {
        var i :| 0 <= i < |init| && ws[i].name == w.name;
        assert init[i].name == w.name;
        LayoutKnows(init, w.name);
      }
    }
  }

  /**
   A receiver recovers a bucket exactly when no two of its weights share a name: the dict keeps one
   entry per name, so a repeated name loses the earlier weight.
   */
  lemma {:induction false} UnpackIffDistinct(buf: seq<byte>, ws: seq<Weight>)
    requires Flat(ws) <= buf
    ensures InRange(buf, Layout(ws))
    ensures Unpack(buf, Layout(ws)) == ws <==> DistinctNames(ws)
  {
    LayoutInRange(buf, ws);
    LayoutLength(ws);
    if DistinctNames(ws) {
      forall i | 0 <= i < |ws|
        ensures Unpack(buf, Layout(ws))[i] == ws[i]
      {
        ReadBack(buf, ws, i);
      }
    }
  }

  // ---------- greedy packing ----------

  /** The buckets rank 0 still closes when `cur` is in the open bucket and `rest` is to come. */
  function Greedy(cur: seq<Weight>, rest: seq<Weight>, cap: nat): (bs: seq<seq<Weight>>)
    ensures |bs| >= 1
    decreases |rest|
  {
    if rest == [] then [cur]
    else if |Flat(cur)| + |rest[0].data| > cap then [cur] + Greedy([rest[0]], rest[1..], cap)
    else Greedy(cur + [rest[0]], rest[1..], cap)
  }

  function Buckets(weights: seq<Weight>, cap: nat): seq<seq<Weight>> {
    Greedy([], weights, cap)
  }

  ghost predicate AllFit(ws: seq<Weight>, cap: nat) {
    forall i :: 0 <= i < |ws| ==> |ws[i].data| <= cap
  }

  ghost predicate BucketsFit(bs: seq<seq<Weight>>, cap: nat) {
    forall i :: 0 <= i < |bs| ==> |Flat(bs[i])| <= cap
  }

  lemma {:induction false} ConcatCons(b: seq<Weight>, bs: seq<seq<Weight>>)
    ensures Concat([b] + bs) == b + Concat(bs)
  {
    if bs == [] {
      assert [b] + bs == [b] && [b][..0] == [];
    } else {
      var last := |bs| - 1;
      ConcatCons(b, bs[..last]);
      assert ([b] + bs)[..|bs|] == [b] + bs[..last];
      assert Concat([b] + bs) == Concat([b] + bs[..last]) + bs[last];
    }
  }

  /** Packing is lossless: the buckets hold the input, in order, and nothing else. */
  lemma {:induction false} GreedyLossless(cur: seq<Weight>, rest: seq<Weight>, cap: nat)
    ensures Concat(Greedy(cur, rest, cap)) == cur + rest
    decreases |rest|
  {
    if rest == [] {
      ConcatCons(cur, []);
      assert [cur] + [] == [cur];
    } else if |Flat(cur)| + |rest[0].data| > cap {
      GreedyLossless([rest[0]], rest[1..], cap);
      ConcatCons(cur, Greedy([rest[0]], rest[1..], cap));
      assert cur + rest == cur + ([rest[0]] + rest[1..]);
    } else {
      GreedyLossless(cur + [rest[0]], rest[1..], cap);
      assert cur + rest == cur + [rest[0]] + rest[1..];
    }
  }

  /** Every bucket fits the buffer. */
  lemma {:induction false} GreedyFits(cur: seq<Weight>, rest: seq<Weight>, cap: nat)
    requires |Flat(cur)| <= cap && AllFit(rest, cap)
    ensures BucketsFit(Greedy(cur, rest, cap), cap)
    decreases |rest|
  {
    if rest != [] {
      FlatOne(rest[0]);
      FlatSnoc(cur, rest[0]);
      if |Flat(cur)| + |rest[0].data| > cap {
        GreedyFits([rest[0]], rest[1..], cap);
      } else {
        GreedyFits(cur + [rest[0]], rest[1..], cap);
      }
    }
  }

  /** The weight that opens the next bucket does not fit bucket k. */
  predicate Full(bs: seq<seq<Weight>>, k: nat, cap: nat)
    requires k + 1 < |bs|
  {
    bs[k + 1] != [] && |Flat(bs[k])| + |bs[k + 1][0].data| > cap
  }

  /** A bucket is closed only when the next weight does not fit it. */
  lemma {:induction false} GreedyIsMaximal(cur: seq<Weight>, rest: seq<Weight>, cap: nat)
    ensures var bs := Greedy(cur, rest, cap); forall k :: 0 <= k < |bs| - 1 ==> Full(bs, k, cap)
    decreases |rest|
  {
    if rest != [] {
      var w := rest[0];
      if |Flat(cur)| + |w.data| > cap {
        var bs := Greedy([w], rest[1..], cap);
        GreedyIsMaximal([w], rest[1..], cap);
        GreedyPrefix([w], rest[1..], cap);
        assert bs[0][0] == w;
        forall k | 0 <= k < |bs|
          ensures Full([cur] + bs, k, cap)
        {
          if k > 0 {
            assert Full(bs, k - 1, cap);
          }
        }
        assert Greedy(cur, rest, cap) == [cur] + bs;
      } else {
        GreedyIsMaximal(cur + [w], rest[1..], cap);
        assert Greedy(cur, rest, cap) == Greedy(cur + [w], rest[1..], cap);
      }
      hide Full;
    }
  }

  /** The open bucket is a prefix of the next one to be closed. */
  lemma {:induction false} GreedyPrefix(cur: seq<Weight>, rest: seq<Weight>, cap: nat)
    ensures cur <= Greedy(cur, rest, cap)[0]
    decreases |rest|
  {
    if rest != [] && |Flat(cur)| + |rest[0].data| <= cap {
      GreedyPrefix(cur + [rest[0]], rest[1..], cap);
    }
  }

  ghost predicate AllDistinct(bs: seq<seq<Weight>>) {
    forall k :: 0 <= k < |bs| ==> DistinctNames(bs[k])
  }

  /** What a receiver gets out of a bucket: one weight for every name. */
  function Kept(ws: seq<Weight>): (r: seq<Weight>)
    ensures |r| == |Layout(ws)| <= |ws|
  {
    LayoutInRange(Flat(ws), ws);
    Unpack(Flat(ws), Layout(ws))
  }

  /** It does not depend on what follows the bucket's bytes in the buffer. */
  lemma {:induction false} KeptFrom(buf: seq<byte>, ws: seq<Weight>)
    requires Flat(ws) <= buf
    ensures InRange(buf, Layout(ws)) && Unpack(buf, Layout(ws)) == Kept(ws)
  {
    var es, f := Layout(ws), Flat(ws);
    LayoutInRange(buf, ws);
    LayoutInRange(f, ws);
    hide Layout, Flat;
    forall i | 0 <= i < |es|
      ensures Read(buf, es[i]) == Read(f, es[i])
    {
      assert es[i].offset + es[i].size <= |f|;
      assert buf[..|f|] == f;
    }
  }

  /** The names of a bucket, each where it occurs first. */
  function Names(ws: seq<Weight>): seq<string> {
    if ws == [] then []
    else
      var names, name := Names(ws[..|ws| - 1]), ws[|ws| - 1].name;
      if name in names then names else names + [name]
  }

  /** The bytes of the last weight with this name. */
  function LastData(ws: seq<Weight>, name: string): seq<byte> {
    if ws == [] then []
    else if ws[|ws| - 1].name == name then ws[|ws| - 1].data
    else LastData(ws[..|ws| - 1], name)
  }

  lemma {:induction false} NamesAreThose(ws: seq<Weight>)
    ensures forall name :: name in Names(ws) <==> exists i :: 0 <= i < |ws| && ws[i].name == name
    ensures forall i, j :: 0 <= i < j < |Names(ws)| ==> Names(ws)[i] != Names(ws)[j]
  {
    if ws != [] {
      var init := ws[..|ws| - 1];
      NamesAreThose(init);
      forall name
        ensures name in Names(ws) <==> exists i :: 0 <= i < |ws| && ws[i].name == name
      {
        if i :| 0 <= i < |ws| && ws[i].name == name {
          assert i < |init| ==> init[i].name == name;
        }
        if name in Names(init) {
          var i :| 0 <= i < |init| && init[i].name == name;
          assert ws[i].name == name;
        }
      }
    }
  }

  /** The dict keeps the place of the first weight of a name and the slice of the last one. */
  lemma {:induction false} LayoutIs(ws: seq<Weight>, k: nat)
    requires k < |Names(ws)|
    ensures |Layout(ws)| == |Names(ws)|
    ensures var e := Layout(ws)[k];
            && e.name == Names(ws)[k] && e.offset + e.size <= |Flat(ws)|
            && Read(Flat(ws), e) == LastData(ws, e.name)
  {
    var init, w := ws[..|ws| - 1], ws[|ws| - 1];
    LayoutNames(init);
    FindAbsent(Layout(init), w.name);
    var at := Find(Layout(init), w.name);
    if at == k {
      SliceOfPrefix(Flat(ws), Flat(init), w.data);
    } else {
      LayoutIs(init, k);
      NamesAreThose(init);
      ReadPrefix(Flat(init), w.data, Layout(init)[k]);
      hide Flat, Read;
    }
  }

  lemma {:induction false} ReadPrefix(f: seq<byte>, d: seq<byte>, e: Entry)
    requires e.offset + e.size <= |f|
    ensures Read(f + d, e) == Read(f, e)
  {
  }

  lemma {:induction false} LayoutNames(ws: seq<Weight>)
    ensures |Layout(ws)| == |Names(ws)|
    ensures forall k :: 0 <= k < |Names(ws)| ==> Layout(ws)[k].name == Names(ws)[k]
  {
    if ws != [] {
      var init, w := ws[..|ws| - 1], ws[|ws| - 1];
      LayoutNames(init);
      FindAbsent(Layout(init), w.name);
    }
  }

  /** A receiver gets one weight for every name, in the order of first occurrence, with the bytes of the last one. */
  lemma {:induction false} KeptIs(ws: seq<Weight>)
    ensures |Kept(ws)| == |Names(ws)|
    ensures forall k :: 0 <= k < |Names(ws)| ==> Kept(ws)[k] == Weight(Names(ws)[k], LastData(ws, Names(ws)[k]))
  {
    LayoutNames(ws);
    hide Layout, Flat, LastData, Names;
    forall k | 0 <= k < |Names(ws)|
      ensures Kept(ws)[k] == Weight(Names(ws)[k], LastData(ws, Names(ws)[k]))
    {
      LayoutIs(ws, k);
    }
  }

  function KeptAll(bs: seq<seq<Weight>>): seq<Weight> {
    if bs == [] then [] else KeptAll(bs[..|bs| - 1]) + Kept(bs[|bs| - 1])
  }

  lemma {:induction false} KeptTake(bs: seq<seq<Weight>>, k: nat)
    requires k < |bs|
    ensures KeptAll(bs[..k + 1]) == KeptAll(bs[..k]) + Kept(bs[k])
  {
    assert bs[..k + 1][..k] == bs[..k];
  }

  lemma {:induction false} KeptMonotone(bs: seq<seq<Weight>>, n: nat)
    requires n <= |bs|
    ensures KeptAll(bs[..n]) <= KeptAll(bs)
    decreases |bs| - n
  {
    if n < |bs| {
      KeptTake(bs, n);
      KeptMonotone(bs, n + 1);
    } else {
      assert bs[..n] == bs;
    }
  }

  lemma {:induction false} KeptLength(bs: seq<seq<Weight>>)
    ensures |KeptAll(bs)| <= |Concat(bs)|
    ensures |KeptAll(bs)| == |Concat(bs)| ==> AllDistinct(bs)
  {
    hide Kept, DistinctNames;
    if bs != [] {
      KeptLength(bs[..|bs| - 1]);
      LayoutLength(bs[|bs| - 1]);
      if |KeptAll(bs)| == |Concat(bs)| {
        forall k | 0 <= k < |bs|
          ensures DistinctNames(bs[k])
        {
          assert k < |bs| - 1 ==> bs[..|bs| - 1][k] == bs[k];
        }
      }
    }
  }

  /** The receivers of all buckets get the weights exactly when no bucket repeats a name. */
  lemma {:induction false} KeptIffDistinct(bs: seq<seq<Weight>>)
    ensures KeptAll(bs) == Concat(bs) <==> AllDistinct(bs)
  {
    KeptLength(bs);
    if AllDistinct(bs) {
      KeptDistinct(bs);
    }
  }

  lemma {:induction false} KeptDistinct(bs: seq<seq<Weight>>)
    requires AllDistinct(bs)
    ensures KeptAll(bs) == Concat(bs)
  {
    if bs != [] {
      var last := |bs| - 1;
      assert AllDistinct(bs[..last]);
      KeptDistinct(bs[..last]);
      UnpackIffDistinct(Flat(bs[last]), bs[last]);
    }
  }

  /** Names that are distinct over the whole model are distinct within every bucket. */
  lemma {:induction false} BucketsDistinct(cur: seq<Weight>, rest: seq<Weight>, cap: nat)
    requires DistinctNames(cur + rest)
    ensures AllDistinct(Greedy(cur, rest, cap))
    decreases |rest|
  {
    assert DistinctNames(cur) by {
      assert forall i :: 0 <= i < |cur| ==> (cur + rest)[i] == cur[i];
    }
    if rest != [] {
      if |Flat(cur)| + |rest[0].data| > cap {
        assert [rest[0]] + rest[1..] == (cur + rest)[|cur|..];
        BucketsDistinct([rest[0]], rest[1..], cap);
      } else {
        assert (cur + [rest[0]]) + rest[1..] == cur + rest;
        BucketsDistinct(cur + [rest[0]], rest[1..], cap);
      }
    }
  }

  // ---------- the packing loop, one weight at a time ----------

  /** `closed` buckets of `bs` are done; `cur` is in the open one and `rest` is still to come. */
  ghost predicate Progress(bs: seq<seq<Weight>>, closed: nat, cur: seq<Weight>, rest: seq<Weight>, cap: nat) {
    closed < |bs| && bs[closed..] == Greedy(cur, rest, cap)
  }

  lemma {:induction false} FillStep(bs: seq<seq<Weight>>, closed: nat, cur: seq<Weight>, w: Weight,
                                    rest: seq<Weight>, cap: nat)
    requires Progress(bs, closed, cur, [w] + rest, cap)
    requires |Flat(cur)| + |w.data| <= cap
    ensures Progress(bs, closed, cur + [w], rest, cap)
    ensures Flat(cur + [w]) == Flat(cur) + w.data
    ensures Layout(cur + [w]) == Put(Layout(cur), Entry(w.name, |Flat(cur)|, |w.data|))
  {
    FlatSnoc(cur, w);
    LayoutSnoc(cur, w);
    assert ([w] + rest)[1..] == rest;
  }

  lemma {:induction false} CloseStep(bs: seq<seq<Weight>>, closed: nat, cur: seq<Weight>, w: Weight,
                                     rest: seq<Weight>, cap: nat)
    requires Progress(bs, closed, cur, [w] + rest, cap)
    requires |Flat(cur)| + |w.data| > cap
    ensures closed + 1 < |bs| && bs[closed] == cur
    ensures |w.data| <= cap ==> Progress(bs, closed + 1, [], [w] + rest, cap)
  {
    assert ([w] + rest)[1..] == rest && [] + [w] == [w];
    assert bs[closed] == bs[closed..][0];
    assert bs[closed + 1..] == bs[closed..][1..];
  }

  lemma {:induction false} LastStep(bs: seq<seq<Weight>>, closed: nat, cur: seq<Weight>, cap: nat)
    requires Progress(bs, closed, cur, [], cap)
    ensures closed + 1 == |bs| && bs[closed] == cur
  {
    assert bs[closed] == bs[closed..][0];
  }

  // ---------- minimality ----------

  /** Closing the open bucket early, at the next weight, costs at most one bucket. */
  lemma {:induction false} RestartCost(a: seq<Weight>, b: seq<Weight>, rest: seq<Weight>, cap: nat)
    requires AllFit(rest, cap)
    ensures |Greedy(a, rest, cap)| <= 1 + |Greedy(b, rest, cap)|
    decreases |rest|
  {
    if rest != [] {
      var w, tail := rest[0], rest[1..];
      FlatOne(w);
      if |Flat(a)| + |w.data| <= cap {
        RestartCost(a + [w], [w], tail, cap);
        RestartCost(a + [w], b + [w], tail, cap);
      } else {
        LighterIsNoWorse([w], b + [w], tail, cap) by { FlatSnoc(b, w); }
      }
    }
  }

  /** A bucket with fewer bytes in it never leads to more buckets. */
  lemma {:induction false} LighterIsNoWorse(a: seq<Weight>, b: seq<Weight>, rest: seq<Weight>, cap: nat)
    requires AllFit(rest, cap) && |Flat(a)| <= |Flat(b)|
    ensures |Greedy(a, rest, cap)| <= |Greedy(b, rest, cap)|
    decreases |rest|
  {
    if rest != [] {
      var w, tail := rest[0], rest[1..];
      FlatSnoc(a, w);
      FlatSnoc(b, w);
      if |Flat(b)| + |w.data| <= cap {
        LighterIsNoWorse(a + [w], b + [w], tail, cap);
      } else if |Flat(a)| + |w.data| <= cap {
        RestartCost(a + [w], [w], tail, cap);
      }
    }
  }

  /**
   Against any continuation of the packing: `ext` finishes the bucket that is open, `bs` are the
   buckets after it.
   */
  lemma {:induction false} GreedyBeats(cur: seq<Weight>, ext: seq<Weight>, bs: seq<seq<Weight>>, cap: nat)
    requires AllFit(ext + Concat(bs), cap) && BucketsFit(bs, cap)
    requires |Flat(cur + ext)| <= cap
    ensures |Greedy(cur, ext + Concat(bs), cap)| <= 1 + |bs|
    decreases |ext + Concat(bs)|, |bs|
  {
    var rest := ext + Concat(bs);
    if rest == [] {
    } else if ext != [] {
      assert rest[0] == ext[0] && rest[1..] == ext[1..] + Concat(bs);
      assert (cur + [ext[0]]) + ext[1..] == cur + ext;
      assert (cur + ext)[..|cur| + 1] == cur + [ext[0]];
      FlatPrefix(cur + ext, |cur| + 1);
      FlatSnoc(cur, ext[0]);
      GreedyBeats(cur + [ext[0]], ext[1..], bs, cap);
    } else if bs[0] == [] {
      assert bs == [[]] + bs[1..];
      ConcatCons([], bs[1..]);
      assert rest == [] + Concat(bs[1..]);
      GreedyBeats(cur, [], bs[1..], cap);
    } else {
      var w := bs[0][0];
      assert bs == [bs[0]] + bs[1..];
      ConcatCons(bs[0], bs[1..]);
      assert rest[0] == w && rest[1..] == bs[0][1..] + Concat(bs[1..]);
      assert [w] + bs[0][1..] == bs[0];
      GreedyBeats([w], bs[0][1..], bs[1..], cap);
      RestartCost(cur + [w], [w], rest[1..], cap);
    }
  }

  /** No order-preserving packing into buffers of the same size uses fewer buckets. */
  lemma {:induction false} GreedyMinimal(weights: seq<Weight>, bs: seq<seq<Weight>>, cap: nat)
    requires AllFit(weights, cap) && BucketsFit(bs, cap)
    requires Concat(bs) == weights && bs != []
    ensures |Buckets(weights, cap)| <= |bs|
  {
    assert bs == [bs[0]] + bs[1..];
    ConcatCons(bs[0], bs[1..]);
    assert [] + bs[0] == bs[0];
    GreedyBeats([], bs[0], bs[1..], cap);
  }
}
