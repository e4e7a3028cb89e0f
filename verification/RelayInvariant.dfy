/** The inductive invariant of the weight-sync chain, and the steps that keep it. */
module RelayInvariant {
  import opened Packing
  import opened Wrappers
  import opened RelayChain

  // ---------- how far a rank has come, read off its program counter ----------

  /** Buckets offered to the successor. */
  function Offered(k: Rank): int {
    if k.role.Master? then k.role.serial
    else if k.pc == First then 0 else if k.pc == Head then k.role.round - 1 else k.role.round
  }

  /** Offers whose completion was seen. */
  function Released(k: Rank): int {
    if k.role.Master? then if k.op.Some? then k.role.serial - 1 else k.role.serial
    else if k.pc == First then 0 else if k.pc in {Head, Next, Yield} then k.role.round - 1 else k.role.round
  }

  /** Messages taken from the predecessor. */
  function Received(k: Rank): int {
    if k.role.Master? || k.pc == First then 0
    else if k.pc == Wait || (k.pc == Yield && !k.role.meta.isLast) then k.role.round + 1
    else k.role.round
  }

  predicate IsReading(k: Rank) {
    k.role.Relay? && k.role.xfer.Reading?
  }

  /** Reads from the predecessor that are complete. */
  function Fetched(k: Rank): int {
    if IsReading(k) then Received(k) - 1 else Received(k)
  }

  // ---------- the invariant of one rank ----------

  /** The last `n` weights that were stored. */
  ghost function Current(c: Config, next: nat, n: nat): seq<Weight>
    requires n <= next <= |c.weights|
  {
    c.weights[next - n..next]
  }

  /** The open bucket holds the last `n` weights. */
  ghost predicate OpenWith(c: Config, bs: seq<seq<Weight>>, buf: seq<byte>, next: nat, offset: nat,
                           entries: seq<Entry>, serial: nat, n: nat)
  {
    && n <= next <= |c.weights|
    && var cur := Current(c, next, n);
    && entries == Layout(cur) && offset == |Flat(cur)| && Flat(cur) <= buf
    && Progress(bs, serial, cur, c.weights[next..], c.cap)
  }

  ghost predicate Open(c: Config, bs: seq<seq<Weight>>, buf: seq<byte>, next: nat, offset: nat,
                       entries: seq<Entry>, serial: nat)
  {
    exists n: nat :: OpenWith(c, bs, buf, next, offset, entries, serial, n)
  }

  ghost predicate MasterInv(c: Config, bs: seq<seq<Weight>>, k: Rank)
    requires k.role.Master?
  {
    var Master(next, offset, entries, serial) := k.role;
    && BuffersOk(c, k)
    && k.pc in {Fetch, Place, Flush, Done, Crashed}
    && serial <= |bs| && next <= |c.weights|
    && (k.op.Some? ==>
          && 1 <= serial
          && k.op.value == Op(Key(0, serial - 1), if k.pc == Flush then k.send else 1 - k.send)
          && Flat(bs[serial - 1]) <= k.bufs[k.op.value.buf])
    && (k.pc == Fetch ==> Open(c, bs, k.bufs[k.send], next, offset, entries, serial))
    && (k.pc == Place ==>
          && entries == [] && offset == 0 && next < |c.weights| && serial < |bs|
          && (|c.weights[next].data| <= c.cap ==> Open(c, bs, k.bufs[k.send], next, offset, entries, serial)))
    && (k.pc == Crashed ==> next < |c.weights| && |c.weights[next].data| > c.cap && serial < |bs|)
    && (k.pc in {Flush, Done} ==> serial == |bs|)
    && (k.pc == Flush ==> k.op.Some?)
    && (k.pc == Done ==> k.op.None?)
  }

  /** `m` is the metadata of bucket `j`, without the keys of any sender. */
  ghost predicate MetaFor(bs: seq<seq<Weight>>, j: int, m: Message) {
    0 <= j < |bs| && m == Message(None, None, Layout(bs[j]), j == |bs| - 1)
  }

  /** `buf` starts with the bytes of bucket `j`. */
  ghost predicate Holds(bs: seq<seq<Weight>>, j: int, buf: seq<byte>) {
    0 <= j < |bs| && Flat(bs[j]) <= buf
  }

  /** What the consumer has seen when `n` buckets and `y` tensors of the next one were yielded. */
  ghost predicate Yielded(bs: seq<seq<Weight>>, n: int, y: nat, out: seq<Weight>) {
    && 0 <= n < |bs| && y <= |Kept(bs[n])|
    && out == KeptAll(bs[..n]) + Kept(bs[n])[..y]
  }

  ghost predicate RelayInv(c: Config, bs: seq<seq<Weight>>, r: nat, k: Rank)
    requires k.role.Relay?
  {
    var Relay(round, meta, nextMeta, xfer, yieldAt, out) := k.role;
    && BuffersOk(c, k)
    && round <= |bs|
    && (k.op.Some? <==> r < c.last && (k.pc == Next || k.pc == Yield))
    && (k.op.Some? ==> round >= 1 && k.op.value == Op(Key(r, round), k.send))
    && (xfer.Reading? ==> xfer.dst == 1 - k.send && forall i :: i in xfer.copied ==> i < c.cap)
    && (xfer.Complete? ==> Holds(bs, round, k.bufs[1 - k.send]))
    && (k.pc in {Head, Next, Yield} ==>
          && MetaFor(bs, round - 1, meta)
          && Holds(bs, round - 1, k.bufs[k.send])
          && Yielded(bs, round - 1, yieldAt, out))
    && (k.pc in {Head, Next} ==> yieldAt == 0)
    && (k.pc == Next ==> !meta.isLast)
    && (k.pc in {First, Head, Next, Done} ==> xfer == Idle)
    && (k.pc == Yield ==> (xfer == Idle <==> meta.isLast))
    && (k.pc == Wait ==> xfer != Idle)
    && (xfer != Idle ==> MetaFor(bs, round, nextMeta))
    && (k.pc == First ==> round == 0)
    && (k.pc == Done ==> round == |bs|)
    && (k.pc in {First, Wait, Done} ==> out == KeptAll(bs[..round]))
    && k.pc in {First, Wait, Head, Next, Yield, Done}
  }

  ghost predicate RankInv(c: Config, bs: seq<seq<Weight>>, r: nat, k: Rank) {
    if k.role.Master? then r == 0 && MasterInv(c, bs, k) else 1 <= r <= c.last && RelayInv(c, bs, r, k)
  }

  // ---------- the invariant of one link ----------

  /** The message that offers the bucket in buffer `op.buf` of rank `l`. */
  ghost predicate Announces(bs: seq<seq<Weight>>, l: nat, op: Op, j: int, m: Message) {
    0 <= j < |bs| && m == Message(Some(op.key), Some(Desc(l, op.buf)), Layout(bs[j]), j == |bs| - 1)
  }

  /** The read of rank `b` copies, byte by byte, the buffer its predecessor offered. */
  ghost predicate ReadsFrom(c: Config, l: nat, op: Op, src: seq<byte>, b: Rank)
    requires IsReading(b)
  {
    var x := b.role.xfer;
    && x.src == Desc(l, op.buf) && x.key == op.key
    && x.dst < |b.bufs| && |b.bufs[x.dst]| == |src| == c.cap
    && forall i :: 0 <= i < c.cap && i in x.copied ==> b.bufs[x.dst][i] == src[i]
  }

  /** The link from rank `a`, number `l`, to rank `b`. */
  ghost predicate LinkInv(c: Config, bs: seq<seq<Weight>>, l: nat, a: Rank, b: Rank, k: Link) {
    && Released(a) <= Fetched(b) <= Received(b) <= Offered(a) <= Released(a) + 1
    && (a.op.Some? <==> Offered(a) == Released(a) + 1)
    && |k.msgs| == Offered(a) - Received(b)
    && |k.acks| == Fetched(b) - Released(a)
    && (k.msgs != [] ==> Announces(bs, l, a.op.value, Offered(a) - 1, k.msgs[0]))
    && (k.acks != [] ==> k.acks[0] == a.op.value.key)
    && (IsReading(b) ==> a.op.value.buf < |a.bufs| && ReadsFrom(c, l, a.op.value, a.bufs[a.op.value.buf], b))
  }

  ghost predicate InvFor(c: Config, bs: seq<seq<Weight>>, s: State) {
    && Shaped(c, s)
    && (forall r :: 0 <= r <= c.last ==> RankInv(c, bs, r, s.ranks[r]))
    && (forall l :: 0 <= l < c.last ==> LinkInv(c, bs, l, s.ranks[l], s.ranks[l + 1], s.links[l]))
  }

  ghost predicate Inv(c: Config, s: State) {
    InvFor(c, Buckets(c.weights, c.cap), s)
  }

  lemma {:induction false} InitInv(c: Config)
    ensures Inv(c, Init(c))
  {
    var s, bs := Init(c), Buckets(c.weights, c.cap);
    assert c.weights[0..] == c.weights && bs[0..] == bs && bs[..0] == [];
    OpenEmpty(c, bs, Zeros(c.cap), 0, 0);
    hide Open, Progress, Greedy, Layout, Flat, Kept, Holds, MetaFor, Yielded;
  }

  lemma {:induction false} OpenEmpty(c: Config, bs: seq<seq<Weight>>, buf: seq<byte>, next: nat, serial: nat)
    requires next <= |c.weights| && Progress(bs, serial, [], c.weights[next..], c.cap)
    ensures Open(c, bs, buf, next, 0, [], serial)
  {
    hide Progress;
    assert Current(c, next, 0) == [];
    assert OpenWith(c, bs, buf, next, 0, [], serial, 0);
  }

  // ---------- what a link can see of its two ranks ----------

  /** The successor cannot tell `k'` from `k`. */
  ghost predicate SameSender(k: Rank, k': Rank) {
    && Offered(k') == Offered(k) && Released(k') == Released(k) && k'.op == k.op
    && |k'.bufs| == |k.bufs|
    && (k.op.Some? && k.op.value.buf < |k.bufs| ==> k'.bufs[k.op.value.buf] == k.bufs[k.op.value.buf])
  }

  /** The predecessor cannot tell `k'` from `k`. */
  ghost predicate SameReceiver(k: Rank, k': Rank) {
    && Received(k') == Received(k)
    && (IsReading(k') <==> IsReading(k))
    && (IsReading(k) ==>
          && k'.role.xfer == k.role.xfer && |k'.bufs| == |k.bufs|
          && (k.role.xfer.dst < |k.bufs| ==> k'.bufs[k.role.xfer.dst] == k.bufs[k.role.xfer.dst]))
  }

  lemma {:induction false} SenderFrame(c: Config, bs: seq<seq<Weight>>, l: nat, a: Rank, a': Rank, b: Rank, k: Link)
    requires LinkInv(c, bs, l, a, b, k) && SameSender(a, a')
    ensures LinkInv(c, bs, l, a', b, k)
  {
  }

  lemma {:induction false} ReceiverFrame(c: Config, bs: seq<seq<Weight>>, l: nat, a: Rank, b: Rank, b': Rank, k: Link)
    requires LinkInv(c, bs, l, a, b, k) && SameReceiver(b, b')
    ensures LinkInv(c, bs, l, a, b', k)
  {
    if IsReading(b) {
      assert ReadsFrom(c, l, a.op.value, a.bufs[a.op.value.buf], b');
    }
  }

  // ---------- rank by rank ----------

  lemma {:induction false} StoreKeeps(c: Config, bs: seq<seq<Weight>>, k: Rank)
    requires k.role.Master? && MasterInv(c, bs, k) && k.role.next < |c.weights|
    requires k.pc == Place || (k.pc == Fetch && Fits(c, k))
    ensures MasterInv(c, bs, StoreRank(c, k)) && SameSender(k, StoreRank(c, k))
  {
    hide Open, Flat, Put, Kept, KeptAll, Yielded, Layout;
    var Master(next, offset, entries, serial) := k.role;
    var w := c.weights[next];
    if offset + |w.data| <= c.cap {
      StoreOpens(c, bs, k.bufs[k.send], next, offset, entries, serial);
      StoreSpliced(k.bufs[k.send], offset, w.data);
      assert MasterInv(c, bs, StoreRank(c, k));
    }
  }

  lemma {:induction false} StoreSpliced(b: seq<byte>, offset: nat, data: seq<byte>)
    requires offset + |data| <= |b|
    ensures |b[..offset] + data + b[offset + |data|..]| == |b|
  {
  }

  lemma {:induction false} StoreOpens(c: Config, bs: seq<seq<Weight>>, b: seq<byte>, next: nat, offset: nat,
                                      entries: seq<Entry>, serial: nat)
    requires next < |c.weights|
    requires Open(c, bs, b, next, offset, entries, serial)
    requires offset + |c.weights[next].data| <= c.cap == |b|
    ensures var w := c.weights[next];
            Open(c, bs, b[..offset] + w.data + b[offset + |w.data|..], next + 1, offset + |w.data|,
                 Put(entries, Entry(w.name, offset, |w.data|)), serial)
  {
    hide Layout, Greedy, Flat, Put, Progress;
    var n: nat :| OpenWith(c, bs, b, next, offset, entries, serial, n);
    var w, cur, rest := c.weights[next], Current(c, next, n), c.weights[next + 1..];
    assert c.weights[next..] == [w] + rest;
    FillStep(bs, serial, cur, w, rest, c.cap);
    assert Current(c, next + 1, n + 1) == cur + [w];
    assert b[..offset] == Flat(cur);
    assert OpenWith(c, bs, b[..offset] + w.data + b[offset + |w.data|..], next + 1, offset + |w.data|,
                    Put(entries, Entry(w.name, offset, |w.data|)), serial, n + 1);
  }

  lemma {:induction false} MasterOfferKeeps(c: Config, bs: seq<seq<Weight>>, k: Rank)
    requires k.role.Master? && MasterInv(c, bs, k)
    requires k.pc == Fetch && !Fits(c, k) && k.op.None?
    ensures MasterInv(c, bs, OfferRank(c, 0, k))
    ensures Announces(bs, 0, Op(Key(0, k.role.serial), k.send), k.role.serial, OfferMessage(c, 0, k))
  {
    hide Open, Flat, Kept, KeptAll, Yielded, Layout, Progress;
    var Master(next, offset, entries, serial) := k.role;
    OpenCloses(c, bs, k.bufs[k.send], next, offset, entries, serial);
    if next < |c.weights| && |c.weights[next].data| <= c.cap {
      OpenEmpty(c, bs, k.bufs[1 - k.send], next, serial + 1);
    }
  }

  /** A bucket that is offered is the next one of the packing. */
  lemma {:induction false} OpenCloses(c: Config, bs: seq<seq<Weight>>, buf: seq<byte>, next: nat, offset: nat,
                                      entries: seq<Entry>, serial: nat)
    requires Open(c, bs, buf, next, offset, entries, serial)
    requires next < |c.weights| ==> offset + |c.weights[next].data| > c.cap
    ensures serial < |bs| && entries == Layout(bs[serial]) && Flat(bs[serial]) <= buf
    ensures next <= |c.weights| && (next < |c.weights| <==> serial < |bs| - 1)
    ensures next < |c.weights| && |c.weights[next].data| <= c.cap ==>
              Progress(bs, serial + 1, [], c.weights[next..], c.cap)
  {
    hide Flat, Layout, Greedy, Progress;
    var n: nat :| OpenWith(c, bs, buf, next, offset, entries, serial, n);
    var cur := Current(c, next, n);
    if next < |c.weights| {
      var w, rest := c.weights[next], c.weights[next + 1..];
      assert c.weights[next..] == [w] + rest;
      CloseStep(bs, serial, cur, w, rest, c.cap);
    } else {
      assert c.weights[next..] == [];
      LastStep(bs, serial, cur, c.cap);
    }
  }

  lemma {:induction false} RelayOfferKeeps(c: Config, bs: seq<seq<Weight>>, r: nat, k: Rank)
    requires k.role.Relay? && RelayInv(c, bs, r, k) && k.pc == Head
    ensures RelayInv(c, bs, r, OfferRank(c, r, k)) && SameReceiver(k, OfferRank(c, r, k))
    ensures Announces(bs, r, Op(Key(r, k.role.round), k.send), k.role.round - 1, OfferMessage(c, r, k))
  {
  }

  lemma {:induction false} ReceiveKeeps(c: Config, bs: seq<seq<Weight>>, r: nat, k: Rank, l: nat, op: Op, m: Message)
    requires k.role.Relay? && RelayInv(c, bs, r, k) && k.pc in {First, Next}
    requires Announces(bs, l, op, k.role.round, m)
    ensures RelayInv(c, bs, r, ReceiveRank(k, m)) && SameSender(k, ReceiveRank(k, m))
    ensures Received(ReceiveRank(k, m)) == Received(k) + 1 && Fetched(ReceiveRank(k, m)) == Fetched(k)
  {
    hide Yielded, Holds, KeptAll, Layout, Flat, Kept, Open;
  }

  lemma {:induction false} CopyKeeps(c: Config, bs: seq<seq<Weight>>, r: nat, k: Rank, i: nat, remote: seq<byte>)
    requires k.role.Relay? && RelayInv(c, bs, r, k) && ReadsInside(c, k) && i < c.cap == |remote|
    ensures RelayInv(c, bs, r, CopyRank(c, k, i, remote)) && SameSender(k, CopyRank(c, k, i, remote))
  {
    hide Yielded, Holds, MetaFor, KeptAll;
  }

  lemma {:induction false} FinishKeeps(c: Config, bs: seq<seq<Weight>>, r: nat, k: Rank)
    requires k.role.Relay? && RelayInv(c, bs, r, k) && IsReading(k)
    requires Holds(bs, k.role.round, k.bufs[1 - k.send])
    ensures RelayInv(c, bs, r, FinishRank(k)) && SameSender(k, FinishRank(k))
  {
    hide Yielded, Holds, MetaFor, KeptAll;
  }

  lemma {:induction false} SwapKeeps(c: Config, bs: seq<seq<Weight>>, r: nat, k: Rank)
    requires k.role.Relay? && RelayInv(c, bs, r, k) && k.pc == Wait && k.role.xfer == Complete
    ensures RelayInv(c, bs, r, SwapRank(k)) && SameSender(k, SwapRank(k)) && SameReceiver(k, SwapRank(k))
  {
    hide Yielded, Holds, KeptAll, Layout, Flat, Kept, Open;
    NothingYielded(bs, k.role.round, k.role.out);
  }

  lemma {:induction false} NothingYielded(bs: seq<seq<Weight>>, n: nat, out: seq<Weight>)
    requires n < |bs| && out == KeptAll(bs[..n])
    ensures Yielded(bs, n, 0, out)
  {
    hide KeptAll, Kept;
    assert Kept(bs[n])[..0] == [];
  }

  lemma {:induction false} YieldKeeps(c: Config, bs: seq<seq<Weight>>, r: nat, k: Rank)
    requires k.role.Relay? && RelayInv(c, bs, r, k)
    requires k.pc == Yield && k.role.yieldAt < |k.role.meta.entries|
    ensures RelayInv(c, bs, r, YieldRank(k)) && SameSender(k, YieldRank(k)) && SameReceiver(k, YieldRank(k))
  {
    var e := k.role.meta.entries[k.role.yieldAt];
    YieldReads(bs, k.role.round - 1, k.role.yieldAt, k.bufs[k.send], k.role.out);
    YieldCounts(c, bs, r, k, k.role.out + [Weight(e.name, Read(k.bufs[k.send], e))]);
    assert YieldRank(k) == k.(role := k.role.(out := k.role.out + [Weight(e.name, Read(k.bufs[k.send], e))],
                                              yieldAt := k.role.yieldAt + 1));
    hide *;
  }

  lemma {:induction false} YieldCounts(c: Config, bs: seq<seq<Weight>>, r: nat, k: Rank, out: seq<Weight>)
    requires k.role.Relay? && RelayInv(c, bs, r, k) && k.pc == Yield
    requires Yielded(bs, k.role.round - 1, k.role.yieldAt + 1, out)
    ensures var k' := k.(role := k.role.(out := out, yieldAt := k.role.yieldAt + 1));
            RelayInv(c, bs, r, k') && SameSender(k, k') && SameReceiver(k, k')
  {
    hide Yielded, Layout, Flat, KeptAll, Kept, Holds, MetaFor;
  }

  lemma {:induction false} YieldReads(bs: seq<seq<Weight>>, n: int, y: nat, buf: seq<byte>, out: seq<Weight>)
    requires Holds(bs, n, buf) && Yielded(bs, n, y, out) && y < |Layout(bs[n])|
    ensures var e := Layout(bs[n])[y];
            && e.offset + e.size <= |buf|
            && Yielded(bs, n, y + 1, out + [Weight(e.name, Read(buf, e))])
  {
    hide Layout, Flat, KeptAll, Kept;
    KeptFrom(buf, bs[n]);
    assert Kept(bs[n])[..y + 1] == Kept(bs[n])[..y] + [Kept(bs[n])[y]];
  }

  lemma {:induction false} ReleaseRelay(c: Config, bs: seq<seq<Weight>>, r: nat, k: Rank)
    requires k.role.Relay? && RelayInv(c, bs, r, k)
    requires AwaitsAck(c, k)
    ensures RelayInv(c, bs, r, ReleasedRank(k))
  {
    hide Yielded, Holds, KeptAll, Layout, Flat, Kept, Open;
    YieldedWhole(bs, k.role.round - 1, k.role.yieldAt, k.role.out);
  }

  lemma {:induction false} ReleaseKeeps(c: Config, bs: seq<seq<Weight>>, r: nat, k: Rank)
    requires RankInv(c, bs, r, k)
    requires AwaitsAck(c, k) && (k.op.None? ==> r == c.last)
    ensures RankInv(c, bs, r, ReleasedRank(k)) && SameReceiver(k, ReleasedRank(k))
    ensures k.op.Some? ==> Released(ReleasedRank(k)) == Offered(ReleasedRank(k)) == Offered(k)
  {
    hide Yielded, Holds, KeptAll, Open;
    if k.role.Relay? {
      ReleaseRelay(c, bs, r, k);
    }
  }

  lemma {:induction false} YieldedWhole(bs: seq<seq<Weight>>, n: int, y: nat, out: seq<Weight>)
    requires Yielded(bs, n, y, out) && y >= |Layout(bs[n])|
    ensures out == KeptAll(bs[..n + 1])
  {
    assert Kept(bs[n])[..y] == Kept(bs[n]);
    KeptTake(bs, n);
  }

  // ---------- the whole chain, step by step ----------

  /** `s'` differs from `s` in rank `r` and its two links only, and there the invariant holds. */
  ghost predicate LocalStep(c: Config, bs: seq<seq<Weight>>, s: State, s': State, r: nat) {
    && |s.ranks| == |s'.ranks| == c.last + 1 && |s.links| == |s'.links| == c.last
    && r <= c.last
    && s'.ranks == s.ranks[r := s'.ranks[r]]
    && (forall l :: 0 <= l < c.last && l != r - 1 && l != r ==> s'.links[l] == s.links[l])
    && RankInv(c, bs, r, s'.ranks[r])
    && (r > 0 ==> LinkInv(c, bs, r - 1, s.ranks[r - 1], s'.ranks[r], s'.links[r - 1]))
    && (r < c.last ==> LinkInv(c, bs, r, s'.ranks[r], s.ranks[r + 1], s'.links[r]))
  }

  lemma {:induction false} FrameLink(c: Config, bs: seq<seq<Weight>>, s: State, s': State, r: nat, l: nat)
    requires LocalStep(c, bs, s, s', r) && l < c.last
    requires LinkInv(c, bs, l, s.ranks[l], s.ranks[l + 1], s.links[l])
    ensures LinkInv(c, bs, l, s'.ranks[l], s'.ranks[l + 1], s'.links[l])
  {
    hide RankInv, LinkInv;
    if l + 1 == r {
    } else if l == r {
    } else {
      assert s'.ranks[l] == s.ranks[l] && s'.ranks[l + 1] == s.ranks[l + 1];
    }
  }

  lemma {:induction false} Frame(c: Config, bs: seq<seq<Weight>>, s: State, s': State, r: nat)
    requires InvFor(c, bs, s) && LocalStep(c, bs, s, s', r)
    ensures InvFor(c, bs, s')
  {
    hide RankInv, LinkInv, BuffersOk;
    forall i | 0 <= i <= c.last
      ensures RankInv(c, bs, i, s'.ranks[i])
    {
    }
    forall l | 0 <= l < c.last
      ensures LinkInv(c, bs, l, s'.ranks[l], s'.ranks[l + 1], s'.links[l])
    {
      FrameLink(c, bs, s, s', r, l);
    }
    FrameShape(c, bs, s, s', r);
  }

  lemma {:induction false} FrameShape(c: Config, bs: seq<seq<Weight>>, s: State, s': State, r: nat)
    requires Shaped(c, s) && LocalStep(c, bs, s, s', r)
    ensures Shaped(c, s')
  {
    hide LinkInv;
    ShapeOf(c, bs, r, s'.ranks[r]);
  }

  lemma {:induction false} ShapeOf(c: Config, bs: seq<seq<Weight>>, r: nat, k: Rank)
    requires RankInv(c, bs, r, k)
    ensures BuffersOk(c, k) && (k.role.Master? <==> r == 0)
  {
  }

  /** The part of the invariant a step of rank `r` can depend on. */
  lemma {:induction false} Around(c: Config, bs: seq<seq<Weight>>, s: State, r: nat)
    requires InvFor(c, bs, s) && r <= c.last
    ensures Shaped(c, s) && BuffersOk(c, s.ranks[r]) && (s.ranks[r].role.Master? <==> r == 0)
    ensures RankInv(c, bs, r, s.ranks[r])
    ensures r > 0 ==> BuffersOk(c, s.ranks[r - 1]) && RankInv(c, bs, r - 1, s.ranks[r - 1])
    ensures r > 0 ==> LinkInv(c, bs, r - 1, s.ranks[r - 1], s.ranks[r], s.links[r - 1])
    ensures r < c.last ==> LinkInv(c, bs, r, s.ranks[r], s.ranks[r + 1], s.links[r])
  {
    hide RankInv, LinkInv, BuffersOk;
    if r < c.last {
      assert LinkInv(c, bs, r, s.ranks[r], s.ranks[r + 1], s.links[r]);
    }
    if r > 0 {
      assert LinkInv(c, bs, r - 1, s.ranks[r - 1], s.ranks[r], s.links[r - 1]);
    }
  }

  lemma {:induction false} StoreInv(c: Config, bs: seq<seq<Weight>>, s: State, e: Event)
    requires InvFor(c, bs, s)
    requires Enabled(c, s, e) && e.action.Store?
    ensures InvFor(c, bs, Do(c, s, e))
  {
    Around(c, bs, s, 0);
    var k := s.ranks[0];
    StoreKeeps(c, bs, k);
    hide LinkInv, RankInv, MasterInv, SameSender, StoreRank, InvFor;
    if c.last > 0 {
      SenderFrame(c, bs, 0, k, StoreRank(c, k), s.ranks[1], s.links[0]);
    }
    Frame(c, bs, s, Do(c, s, e), 0);
  }

  lemma {:induction false} OfferLink(c: Config, bs: seq<seq<Weight>>, l: nat, a: Rank, a': Rank, b: Rank, k: Link,
                                     m: Message)
    requires LinkInv(c, bs, l, a, b, k) && a.op.None?
    requires a'.op.Some? && Released(a') == Released(a) && Offered(a') == Offered(a) + 1
    requires Announces(bs, l, a'.op.value, Offered(a), m)
    ensures LinkInv(c, bs, l, a', b, k.(msgs := k.msgs + [m]))
  {
  }

  lemma {:induction false} OfferKeeps(c: Config, bs: seq<seq<Weight>>, r: nat, k: Rank)
    requires RankInv(c, bs, r, k)
    requires if k.role.Master? then k.pc == Fetch && !Fits(c, k) && k.op.None? && r < c.last else k.pc == Head
    ensures k.op.None?
    ensures var k' := OfferRank(c, r, k);
            && RankInv(c, bs, r, k')
            && SameReceiver(k, k')
            && (r < c.last ==>
                  && k'.op.Some? && Released(k') == Released(k) && Offered(k') == Offered(k) + 1
                  && Announces(bs, r, k'.op.value, Offered(k), OfferMessage(c, r, k)))
  {
    if k.role.Master? {
      MasterOfferKeeps(c, bs, k);
    } else {
      RelayOfferKeeps(c, bs, r, k);
    }
  }

  lemma {:induction false} OfferInv(c: Config, bs: seq<seq<Weight>>, s: State, e: Event)
    requires InvFor(c, bs, s)
    requires Enabled(c, s, e) && e.action.Offer?
    ensures InvFor(c, bs, Do(c, s, e))
  {
    var r := e.rank;
    hide LinkInv, RankInv, SameReceiver, OfferRank, OfferMessage, Announces, Offered, Released, InvFor;
    Around(c, bs, s, r);
    var k := s.ranks[r];
    OfferKeeps(c, bs, r, k);
    var k' := OfferRank(c, r, k);
    if r > 0 {
      ReceiverFrame(c, bs, r - 1, s.ranks[r - 1], k, k', s.links[r - 1]);
    }
    if r < c.last {
      OfferLink(c, bs, r, k, k', s.ranks[r + 1], s.links[r], OfferMessage(c, r, k));
    }
    Frame(c, bs, s, Do(c, s, e), r);
  }

  lemma {:induction false} ReceiveLink(c: Config, bs: seq<seq<Weight>>, l: nat, a: Rank, b: Rank, k: Link)
    requires LinkInv(c, bs, l, a, b, k) && k.msgs != [] && a.op.Some? && a.op.value.buf < |a.bufs|
    requires b.role.Relay? && BuffersOk(c, b) && |a.bufs[a.op.value.buf]| == c.cap
    requires Received(ReceiveRank(b, k.msgs[0])) == Received(b) + 1
    requires Fetched(ReceiveRank(b, k.msgs[0])) == Fetched(b)
    ensures LinkInv(c, bs, l, a, ReceiveRank(b, k.msgs[0]), k.(msgs := k.msgs[1..]))
  {
  }

  lemma {:induction false} OpInside(c: Config, bs: seq<seq<Weight>>, r: nat, k: Rank)
    requires RankInv(c, bs, r, k) && k.op.Some?
    ensures BuffersOk(c, k) && k.op.value.buf < |k.bufs| && |k.bufs[k.op.value.buf]| == c.cap
    ensures Holds(bs, Offered(k) - 1, k.bufs[k.op.value.buf])
    ensures k.role.Relay? ==> k.op.value.buf == k.send
  {
    hide Yielded, KeptAll, Layout, Flat, Kept, Open;
  }

  /** A step that only the predecessor can see. */
  lemma {:induction false} LeftStep(c: Config, bs: seq<seq<Weight>>, s: State, r: nat, k': Rank, l: Link)
    requires InvFor(c, bs, s) && 1 <= r <= c.last
    requires RankInv(c, bs, r, k') && SameSender(s.ranks[r], k')
    requires LinkInv(c, bs, r - 1, s.ranks[r - 1], k', l)
    ensures InvFor(c, bs, State(s.ranks[r := k'], s.links[r - 1 := l]))
  {
    hide LinkInv, RankInv, SameSender;
    if r < c.last {
      SenderFrame(c, bs, r, s.ranks[r], k', s.ranks[r + 1], s.links[r]);
    }
    Frame(c, bs, s, State(s.ranks[r := k'], s.links[r - 1 := l]), r);
  }

  /** A waiting message offers the bucket the receiver needs next. */
  lemma {:induction false} WaitingMessage(c: Config, bs: seq<seq<Weight>>, l: nat, a: Rank, b: Rank, k: Link)
    requires LinkInv(c, bs, l, a, b, k) && k.msgs != []
    ensures a.op.Some? && Offered(a) == Received(b) + 1
    ensures Announces(bs, l, a.op.value, Received(b), k.msgs[0])
  {
  }

  /** A read in progress reads the buffer its predecessor offered. */
  lemma {:induction false} ReadInProgress(c: Config, bs: seq<seq<Weight>>, l: nat, a: Rank, b: Rank, k: Link)
    requires LinkInv(c, bs, l, a, b, k) && IsReading(b)
    ensures a.op.Some? && Offered(a) == Received(b) == Fetched(b) + 1 && k.msgs == [] && k.acks == []
    ensures b.role.xfer.src == Desc(l, a.op.value.buf) && b.role.xfer.key == a.op.value.key
  {
  }

  lemma {:induction false} ReceivePair(c: Config, bs: seq<seq<Weight>>, r: nat, a: Rank, k: Rank, l: Link)
    requires 1 <= r && RankInv(c, bs, r - 1, a) && RankInv(c, bs, r, k) && LinkInv(c, bs, r - 1, a, k, l)
    requires k.role.Relay? && k.pc in {First, Next} && l.msgs != []
    ensures RankInv(c, bs, r, ReceiveRank(k, l.msgs[0])) && SameSender(k, ReceiveRank(k, l.msgs[0]))
    ensures LinkInv(c, bs, r - 1, a, ReceiveRank(k, l.msgs[0]), l.(msgs := l.msgs[1..]))
  {
    WaitingMessage(c, bs, r - 1, a, k, l);
    OpInside(c, bs, r - 1, a);
    ReceiveKeeps(c, bs, r, k, r - 1, a.op.value, l.msgs[0]);
    hide LinkInv, SameSender, Announces;
    ReceiveLink(c, bs, r - 1, a, k, l);
  }

  lemma {:induction false} ReceiveInv(c: Config, bs: seq<seq<Weight>>, s: State, e: Event)
    requires InvFor(c, bs, s)
    requires Enabled(c, s, e) && e.action.Receive?
    ensures InvFor(c, bs, Do(c, s, e))
  {
    var r := e.rank;
    hide LinkInv, RankInv, SameSender, ReceiveRank, InvFor;
    Around(c, bs, s, r);
    var a, k, l := s.ranks[r - 1], s.ranks[r], s.links[r - 1];
    ReceivePair(c, bs, r, a, k, l);
    LeftStep(c, bs, s, r, ReceiveRank(k, l.msgs[0]), l.(msgs := l.msgs[1..]));
  }

  lemma {:induction false} CopyLink(c: Config, bs: seq<seq<Weight>>, l: nat, a: Rank, b: Rank, k: Link, i: nat,
                                    remote: seq<byte>)
    requires LinkInv(c, bs, l, a, b, k)
    requires BuffersOk(c, b) && ReadsInside(c, b) && i < c.cap == |remote|
    requires a.op.Some? && a.op.value.buf < |a.bufs| && remote == a.bufs[a.op.value.buf]
    ensures LinkInv(c, bs, l, a, CopyRank(c, b, i, remote), k)
  {
    assert ReadsFrom(c, l, a.op.value, remote, CopyRank(c, b, i, remote));
  }

  lemma {:induction false} CopyPair(c: Config, bs: seq<seq<Weight>>, r: nat, a: Rank, k: Rank, l: Link, i: nat)
    requires 1 <= r && RankInv(c, bs, r - 1, a) && RankInv(c, bs, r, k) && LinkInv(c, bs, r - 1, a, k, l)
    requires BuffersOk(c, a) && BuffersOk(c, k) && ReadsInside(c, k) && i < c.cap
    ensures k.role.xfer.src.rank == r - 1
    ensures var k' := CopyRank(c, k, i, a.bufs[k.role.xfer.src.buf]);
            RankInv(c, bs, r, k') && SameSender(k, k') && LinkInv(c, bs, r - 1, a, k', l)
  {
    ReadInProgress(c, bs, r - 1, a, k, l);
    OpInside(c, bs, r - 1, a);
    var remote := a.bufs[k.role.xfer.src.buf];
    CopyKeeps(c, bs, r, k, i, remote);
    hide LinkInv, SameSender, RelayInv;
    CopyLink(c, bs, r - 1, a, k, l, i, remote);
  }

  lemma {:induction false} CopyInv(c: Config, bs: seq<seq<Weight>>, s: State, e: Event)
    requires InvFor(c, bs, s)
    requires Enabled(c, s, e) && e.action.Copy?
    ensures InvFor(c, bs, Do(c, s, e))
  {
    var r := e.rank;
    hide LinkInv, RankInv, SameSender, CopyRank, InvFor;
    Around(c, bs, s, r);
    var a, k, l := s.ranks[r - 1], s.ranks[r], s.links[r - 1];
    CopyPair(c, bs, r, a, k, l, e.action.i);
    LeftStep(c, bs, s, r, CopyRank(c, k, e.action.i, a.bufs[k.role.xfer.src.buf]), l);
    assert s.links[r - 1 := l] == s.links;
  }

  lemma {:induction false} FinishLink(c: Config, bs: seq<seq<Weight>>, l: nat, a: Rank, b: Rank, k: Link)
    requires LinkInv(c, bs, l, a, b, k) && IsReading(b)
    ensures LinkInv(c, bs, l, a, FinishRank(b), k.(acks := k.acks + [b.role.xfer.key]))
  {
  }

  /** When all bytes have arrived the reader holds the bucket that was offered. */
  lemma {:induction false} ReadIsWhole(c: Config, bs: seq<seq<Weight>>, l: nat, a: Rank, b: Rank, k: Link)
    requires LinkInv(c, bs, l, a, b, k) && IsReading(b) && BuffersOk(c, b)
    requires forall i :: 0 <= i < c.cap ==> i in b.role.xfer.copied
    requires a.op.Some? && a.op.value.buf < |a.bufs| && Holds(bs, Offered(a) - 1, a.bufs[a.op.value.buf])
    ensures b.role.xfer.dst < 2 && Holds(bs, Received(b) - 1, b.bufs[b.role.xfer.dst])
  {
    assert b.bufs[b.role.xfer.dst] == a.bufs[a.op.value.buf];
  }

  lemma {:induction false} FinishPair(c: Config, bs: seq<seq<Weight>>, r: nat, a: Rank, k: Rank, l: Link)
    requires 1 <= r && RankInv(c, bs, r - 1, a) && RankInv(c, bs, r, k) && LinkInv(c, bs, r - 1, a, k, l)
    requires IsReading(k) && forall i :: 0 <= i < c.cap ==> i in k.role.xfer.copied
    ensures RankInv(c, bs, r, FinishRank(k)) && SameSender(k, FinishRank(k))
    ensures LinkInv(c, bs, r - 1, a, FinishRank(k), l.(acks := l.acks + [k.role.xfer.key]))
  {
    ReadingInto(c, bs, r, k);
    hide LinkInv, SameSender, RelayInv, MasterInv, Holds;
    ReadInProgress(c, bs, r - 1, a, k, l);
    OpInside(c, bs, r - 1, a);
    FinishLink(c, bs, r - 1, a, k, l);
    ReadIsWhole(c, bs, r - 1, a, k, l);
    FinishKeeps(c, bs, r, k);
  }

  /** A read goes into the buffer that is not exposed, and is of the next bucket. */
  lemma {:induction false} ReadingInto(c: Config, bs: seq<seq<Weight>>, r: nat, k: Rank)
    requires RankInv(c, bs, r, k) && IsReading(k)
    ensures BuffersOk(c, k) && k.role.xfer.dst == 1 - k.send && Received(k) - 1 == k.role.round
    ensures forall i :: i in k.role.xfer.copied ==> i < c.cap
  {
    hide Yielded, KeptAll, Layout, Flat, Kept, Open, Holds, MetaFor;
  }

  lemma {:induction false} FinishInv(c: Config, bs: seq<seq<Weight>>, s: State, e: Event)
    requires InvFor(c, bs, s)
    requires Enabled(c, s, e) && e.action.Finish?
    ensures InvFor(c, bs, Do(c, s, e))
  {
    var r := e.rank;
    hide LinkInv, RankInv, SameSender, FinishRank, InvFor;
    Around(c, bs, s, r);
    var a, k, l := s.ranks[r - 1], s.ranks[r], s.links[r - 1];
    FinishPair(c, bs, r, a, k, l);
    LeftStep(c, bs, s, r, FinishRank(k), l.(acks := l.acks + [k.role.xfer.key]));
  }

  /** A step that neither neighbour can see. */
  lemma {:induction false} SilentStep(c: Config, bs: seq<seq<Weight>>, s: State, r: nat, k': Rank)
    requires InvFor(c, bs, s) && 1 <= r <= c.last
    requires RankInv(c, bs, r, k') && SameSender(s.ranks[r], k') && SameReceiver(s.ranks[r], k')
    ensures InvFor(c, bs, s.(ranks := s.ranks[r := k']))
  {
    hide RankInv, LinkInv, SameSender, SameReceiver;
    ReceiverFrame(c, bs, r - 1, s.ranks[r - 1], s.ranks[r], k', s.links[r - 1]);
    if r < c.last {
      SenderFrame(c, bs, r, s.ranks[r], k', s.ranks[r + 1], s.links[r]);
    }
    Frame(c, bs, s, s.(ranks := s.ranks[r := k']), r);
  }

  lemma {:induction false} SwapYieldInv(c: Config, bs: seq<seq<Weight>>, s: State, e: Event)
    requires InvFor(c, bs, s)
    requires Enabled(c, s, e) && (e.action.Swap? || e.action.YieldOne?)
    ensures InvFor(c, bs, Do(c, s, e))
  {
    var k := s.ranks[e.rank];
    assert RankInv(c, bs, e.rank, k);
    if e.action.Swap? {
      SwapKeeps(c, bs, e.rank, k);
      SilentStep(c, bs, s, e.rank, SwapRank(k));
    } else {
      YieldKeeps(c, bs, e.rank, k);
      SilentStep(c, bs, s, e.rank, YieldRank(k));
    }
  }

  lemma {:induction false} AckLink(c: Config, bs: seq<seq<Weight>>, l: nat, a: Rank, b: Rank, k: Link)
    requires LinkInv(c, bs, l, a, b, k) && k.acks != [] && a.op.Some?
    requires Released(ReleasedRank(a)) == Offered(ReleasedRank(a)) == Offered(a)
    ensures AckRank(a, k.acks[0]) == ReleasedRank(a)
    ensures LinkInv(c, bs, l, ReleasedRank(a), b, k.(acks := k.acks[1..]))
  {
  }

  lemma {:induction false} OnlyLastProceeds(c: Config, bs: seq<seq<Weight>>, r: nat, k: Rank)
    requires RankInv(c, bs, r, k) && k.role.Relay? && r == c.last
    ensures k.op.None?
  {
  }

  lemma {:induction false} AckInv(c: Config, bs: seq<seq<Weight>>, s: State, e: Event)
    requires InvFor(c, bs, s)
    requires Enabled(c, s, e) && (e.action.Ack? || e.action.Proceed?)
    ensures InvFor(c, bs, Do(c, s, e))
  {
    var r := e.rank;
    hide LinkInv, RankInv, SameReceiver, ReleasedRank, AckRank, AwaitsAck, InvFor;
    Around(c, bs, s, r);
    var k := s.ranks[r];
    if r == c.last {
      OnlyLastProceeds(c, bs, r, k);
    }
    ReleaseKeeps(c, bs, r, k);
    if r > 0 {
      ReceiverFrame(c, bs, r - 1, s.ranks[r - 1], k, ReleasedRank(k), s.links[r - 1]);
    }
    if r < c.last {
      AckLink(c, bs, r, k, s.ranks[r + 1], s.links[r]);
    }
    Frame(c, bs, s, Do(c, s, e), r);
  }

  /** Every step of every rank keeps the invariant. */
  lemma {:induction false} StepInv(c: Config, s: State, e: Event)
    requires Inv(c, s) && Enabled(c, s, e)
    ensures Inv(c, Do(c, s, e))
  {
    var bs := Buckets(c.weights, c.cap);
    match e.action
    case Store => StoreInv(c, bs, s, e);
    case Offer => OfferInv(c, bs, s, e);
    case Receive => ReceiveInv(c, bs, s, e);
    case Copy(_) => CopyInv(c, bs, s, e);
    case Finish => FinishInv(c, bs, s, e);
    case Swap => SwapYieldInv(c, bs, s, e);
    case YieldOne => SwapYieldInv(c, bs, s, e);
    case Ack => AckInv(c, bs, s, e);
    case Proceed => AckInv(c, bs, s, e);
  }
}
