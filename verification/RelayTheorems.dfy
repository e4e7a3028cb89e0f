/** What the weight-sync chain guarantees over all its runs. */
module RelayTheorems {
  import opened Packing
  import opened Wrappers
  import opened RelayChain
  import opened RelayInvariant

  // ---------- safety of one state and one step ----------

  /** Messages, notifications and reads in progress on link `l`. */
  function Outstanding(c: Config, s: State, l: nat): nat
    requires Shaped(c, s) && l < c.last
  {
    |s.links[l].msgs| + |s.links[l].acks| + if IsReading(s.ranks[l + 1]) then 1 else 0
  }

  /** A link carries one offer at most, and exactly while its sender has not seen it completed. */
  lemma {:induction false} OneOutstanding(c: Config, s: State, l: nat)
    requires Inv(c, s) && l < c.last
    ensures Outstanding(c, s, l) == if s.ranks[l].op.Some? then 1 else 0
    ensures s.links[l].acks != [] ==> s.links[l].acks[0] == s.ranks[l].op.value.key
    ensures s.links[l].msgs != [] ==>
              && s.links[l].msgs[0].key == Some(s.ranks[l].op.value.key)
              && s.links[l].msgs[0].desc == Some(Desc(l, s.ranks[l].op.value.buf))
  {
    Around(c, Buckets(c.weights, c.cap), s, l);
    var k := s.links[l];
    if k.msgs != [] {
      assert Announces(Buckets(c.weights, c.cap), l, s.ranks[l].op.value, Offered(s.ranks[l]) - 1, k.msgs[0]);
    }
  }

  /** The buffer that action `a` of rank `k` writes, if any. */
  function Written(k: Rank, a: Action): Option<nat> {
    if a.Store? then Some(k.send)
    else if a.Copy? && IsReading(k) then Some(k.role.xfer.dst)
    else None
  }

  lemma {:induction false} OnlyWritten(c: Config, s: State, e: Event, r: nat, b: nat)
    requires Shaped(c, s) && Enabled(c, s, e) && r <= c.last && b < 2
    requires r == e.rank ==> Written(s.ranks[r], e.action) != Some(b)
    ensures |Do(c, s, e).ranks| == |s.ranks| && |Do(c, s, e).ranks[r].bufs| == 2
    ensures Do(c, s, e).ranks[r].bufs[b] == s.ranks[r].bufs[b]
  {
    hide Fits, AwaitsAck, OfferMessage, Put, Read;
  }

  /** No action of a rank writes the buffer it has exposed, and no read is directed into it. */
  lemma {:induction false} WritesElsewhere(c: Config, bs: seq<seq<Weight>>, r: nat, k: Rank, a: Action)
    requires RankInv(c, bs, r, k) && k.op.Some?
    requires a.Store? ==> k.role.Master? && k.pc in {Fetch, Place}
    ensures k.op.value.buf < 2
    ensures Written(k, a) != Some(k.op.value.buf)
    ensures IsReading(k) ==> k.role.xfer.dst != k.op.value.buf
  {
  }

  /**
   Buffer safety: no step, of any rank, writes a buffer that is offered to the successor and not
   seen completed, and no read is ever directed into such a buffer.
   */
  lemma {:induction false} ExposedIsFrozen(c: Config, s: State, e: Event, r: nat)
    requires Inv(c, s) && Enabled(c, s, e) && r <= c.last
    requires s.ranks[r].op.Some?
    ensures s.ranks[r].op.value.buf < 2
    ensures |Do(c, s, e).ranks| == |s.ranks| && |Do(c, s, e).ranks[r].bufs| == 2
    ensures Do(c, s, e).ranks[r].bufs[s.ranks[r].op.value.buf] == s.ranks[r].bufs[s.ranks[r].op.value.buf]
    ensures IsReading(s.ranks[r]) ==> s.ranks[r].role.xfer.dst != s.ranks[r].op.value.buf
  {
    var bs := Buckets(c.weights, c.cap);
    Around(c, bs, s, r);
    hide RankInv, LinkInv, InvFor, Do, Written;
    var k := s.ranks[r];
    WritesElsewhere(c, bs, r, k, if e.rank == r then e.action else Swap);
    OnlyWritten(c, s, e, r, k.op.value.buf);
  }

  /** When the assertions of the source stop a rank: a weight too large, metadata without keys, a wrong notify key. */
  lemma {:induction false} AssertionsAre(c: Config, k: Rank, m: Message, ack: Key)
    requires BuffersOk(c, k) && k.pc != Crashed
    ensures k.role.Master? && k.role.next < |c.weights| ==>
              (StoreRank(c, k).pc == Crashed <==> k.role.offset + |c.weights[k.role.next].data| > c.cap)
    ensures k.role.Relay? ==> (ReceiveRank(k, m).pc == Crashed <==> m.key.None? || m.desc.None?)
    ensures k.op.Some? ==> (AckRank(k, ack).pc == Crashed <==> ack != k.op.value.key)
  {
  }

  // ---------- deadlock freedom ----------

  ghost predicate CanStep(c: Config, s: State)
    requires Shaped(c, s)
  {
    exists e :: Enabled(c, s, e)
  }

  /** A read in progress can always go on: a byte arrives, or the read is done. */
  lemma {:induction false} ReadMoves(c: Config, bs: seq<seq<Weight>>, s: State, r: nat)
    requires InvFor(c, bs, s) && 1 <= r <= c.last && IsReading(s.ranks[r])
    ensures CanStep(c, s)
  {
    Around(c, bs, s, r);
    var a, k := s.ranks[r - 1], s.ranks[r];
    ReadInProgress(c, bs, r - 1, a, k, s.links[r - 1]);
    OpInside(c, bs, r - 1, a);
    assert k.role.xfer.dst == 1 - k.send;
    if i: nat :| i < c.cap && i !in k.role.xfer.copied {
      assert Enabled(c, s, Event(r, Copy(i)));
    } else {
      assert Enabled(c, s, Event(r, Finish));
    }
  }

  /** Every bucket is offered at most once. */
  lemma {:induction false} OfferedBound(c: Config, bs: seq<seq<Weight>>, r: nat, k: Rank)
    requires RankInv(c, bs, r, k)
    ensures 0 <= Released(k) <= Offered(k) <= |bs|
    ensures 0 <= Fetched(k) <= Received(k) <= |bs|
    ensures k.pc == Done ==> Offered(k) == |bs| && k.op.None?
    ensures k.role.Relay? && k.pc == Done ==> Received(k) == |bs|
    ensures k.role.Relay? && k.pc in {First, Next} ==> Received(k) < |bs| || |bs| == 0
    ensures k.role.Relay? && k.pc == Wait ==> k.role.xfer == Complete || IsReading(k)
    ensures k.role.Relay? && k.pc == Yield && r < c.last ==> k.op.Some?
    ensures k.role.Relay? ==> k.pc in {First, Wait, Head, Next, Yield, Done}
    ensures k.role.Master? ==> k.pc in {Fetch, Place, Flush, Done, Crashed}
    ensures k.role.Master? && k.pc in {Place, Crashed} ==> k.role.next < |c.weights|
    ensures k.role.Master? && k.pc == Crashed ==> |c.weights[k.role.next].data| > c.cap
    ensures k.role.Master? && k.pc == Flush ==> k.op.Some?
  {
  }

  /** An offer that is neither acknowledged nor being read is still a message. */
  lemma {:induction false} StillMessage(c: Config, bs: seq<seq<Weight>>, l: nat, a: Rank, b: Rank, k: Link)
    requires LinkInv(c, bs, l, a, b, k) && RankInv(c, bs, l + 1, b)
    requires a.op.Some? && k.acks == [] && !IsReading(b)
    ensures k.msgs != []
  {
    hide RankInv;
  }

  lemma {:induction false} AckEnabled(c: Config, s: State, r: nat)
    requires Shaped(c, s) && r < c.last && s.ranks[r].op.Some? && AwaitsAck(c, s.ranks[r]) && s.links[r].acks != []
    ensures CanStep(c, s)
  {
    hide AwaitsAck;
    assert Enabled(c, s, Event(r, Ack));
  }

  /** What an offer that waits for its notification says about the successor. */
  lemma {:induction false} AwaitedSuccessor(c: Config, bs: seq<seq<Weight>>, s: State, r: nat)
    requires InvFor(c, bs, s) && r < c.last && s.ranks[r].op.Some?
    ensures Shaped(c, s)
    ensures s.links[r].acks == [] && !IsReading(s.ranks[r + 1]) ==>
              s.links[r].msgs != [] && s.ranks[r + 1].pc != Done
  {
    Around(c, bs, s, r);
    Around(c, bs, s, r + 1);
    var a, b := s.ranks[r], s.ranks[r + 1];
    OfferedBound(c, bs, r, a);
    OfferedBound(c, bs, r + 1, b);
    hide RankInv, InvFor, LinkInv, BuffersOk, Offered, Released, Fetched, Received;
    if s.links[r].acks == [] && !IsReading(b) {
      StillMessage(c, bs, r, a, b, s.links[r]);
      WaitingMessage(c, bs, r, a, b, s.links[r]);
    }
  }

  /** A rank that waits for its successor is not stuck: the successor, or a rank after it, can move. */
  lemma {:induction false} AckWaitMoves(c: Config, bs: seq<seq<Weight>>, s: State, r: nat)
    requires InvFor(c, bs, s) && r < c.last && s.ranks[r].op.Some? && AwaitsAck(c, s.ranks[r])
    ensures CanStep(c, s)
    decreases c.last - r, 0
  {
    AwaitedSuccessor(c, bs, s, r);
    hide InvFor, AwaitsAck, CanStep, Enabled, BuffersOk;
    if s.links[r].acks != [] {
      AckEnabled(c, s, r);
    } else if IsReading(s.ranks[r + 1]) {
      ReadMoves(c, bs, s, r + 1);
    } else {
      RelayMoves(c, bs, s, r + 1);
    }
  }

  /** A rollout rank with a message waiting can move, or a rank after it can. */
  lemma {:induction false} RelayMoves(c: Config, bs: seq<seq<Weight>>, s: State, r: nat)
    requires InvFor(c, bs, s) && 1 <= r <= c.last
    requires s.ranks[r].pc in {First, Next} ==> s.links[r - 1].msgs != []
    requires s.ranks[r].pc != Done
    ensures CanStep(c, s)
    decreases c.last - r, 1
  {
    hide RankInv, InvFor, LinkInv, Received, Offered, Released, Fetched;
    Around(c, bs, s, r);
    var k := s.ranks[r];
    OfferedBound(c, bs, r, k);
    match k.pc
    case First => assert Enabled(c, s, Event(r, Receive));
    case Next => assert Enabled(c, s, Event(r, Receive));
    case Head => assert Enabled(c, s, Event(r, Offer));
    case Wait =>
      if IsReading(k) { ReadMoves(c, bs, s, r); } else { assert Enabled(c, s, Event(r, Swap)); }
    case Yield =>
      if k.role.yieldAt < |k.role.meta.entries| {
        assert Enabled(c, s, Event(r, YieldOne));
      } else if r == c.last {
        assert Enabled(c, s, Event(r, Proceed));
      } else {
        AckWaitMoves(c, bs, s, r);
      }
  }

  /** Rank 0 can move until it is done or has met a weight that is too large. */
  lemma {:induction false} MasterMoves(c: Config, bs: seq<seq<Weight>>, s: State)
    requires InvFor(c, bs, s) && c.last >= 1 && s.ranks[0].pc !in {Done, Crashed}
    ensures CanStep(c, s)
  {
    Around(c, bs, s, 0);
    var k := s.ranks[0];
    OfferedBound(c, bs, 0, k);
    hide RankInv, InvFor, LinkInv;
    if k.pc == Place || (k.pc == Fetch && Fits(c, k)) {
      assert Enabled(c, s, Event(0, Store));
    } else if k.op.None? {
      assert Enabled(c, s, Event(0, Offer));
    } else {
      AckWaitMoves(c, bs, s, 0);
    }
  }

  /** A rank that is owed a message has a predecessor that is not done. */
  lemma {:induction false} OwedMessage(c: Config, bs: seq<seq<Weight>>, r: nat, a: Rank, k: Rank, l: Link)
    requires 1 <= r && RankInv(c, bs, r - 1, a) && RankInv(c, bs, r, k) && LinkInv(c, bs, r - 1, a, k, l)
    requires bs != [] && k.role.Relay? && k.pc in {First, Next} && l.msgs == []
    ensures a.pc != Done
  {
    OfferedBound(c, bs, r - 1, a);
    OfferedBound(c, bs, r, k);
    hide RankInv;
  }

  /** A rank that waits for a message is not stuck: some rank before it, or after that one, can move. */
  lemma {:induction false} MessageWaitMoves(c: Config, bs: seq<seq<Weight>>, s: State, r: nat)
    requires InvFor(c, bs, s) && bs != [] && 1 <= r <= c.last && s.ranks[r].pc != Done
    requires s.ranks[0].pc != Crashed
    ensures CanStep(c, s)
    decreases r
  {
    hide RankInv, InvFor, LinkInv;
    Around(c, bs, s, r);
    if s.ranks[r].pc in {First, Next} && s.links[r - 1].msgs == [] {
      OwedMessage(c, bs, r, s.ranks[r - 1], s.ranks[r], s.links[r - 1]);
      if r == 1 {
        MasterMoves(c, bs, s);
      } else {
        MessageWaitMoves(c, bs, s, r - 1);
      }
    } else {
      RelayMoves(c, bs, s, r);
    }
  }

  /** Deadlock freedom: a chain that has not finished can take a step, unless a weight was too large for rank 0. */
  lemma {:induction false} NoDeadlock(c: Config, s: State)
    requires c.last >= 1 && Inv(c, s) && !Final(c, s) && s.ranks[0].pc != Crashed
    ensures CanStep(c, s)
  {
    var bs := Buckets(c.weights, c.cap);
    var r: nat :| r <= c.last && s.ranks[r].pc != Done;
    if r == 0 {
      MasterMoves(c, bs, s);
    } else {
      MessageWaitMoves(c, bs, s, r);
    }
  }

  // ---------- termination ----------

  /** Bytes the rank has read so far. */
  function BytesRead(c: Config, k: Rank): int {
    Fetched(k) * c.cap + if IsReading(k) then |k.role.xfer.copied| else 0
  }

  /** Everything a rank has achieved, counted; no step takes any of it back. */
  function Progressed(c: Config, k: Rank): int {
    match k.role
    case Master(next, _, _, _) => next + Offered(k) + Released(k) + if k.pc == Crashed then 1 else 0
    case Relay(round, _, _, _, _, out) =>
      round + Offered(k) + Released(k) + Received(k) + Fetched(k) + |out| + BytesRead(c, k)
  }

  /** What a rank can achieve at most. */
  function RankBound(c: Config): nat {
    var n := |Buckets(c.weights, c.cap)|;
    |c.weights| + 5 * n + n * c.cap
  }

  lemma {:induction false} BelowCap(xs: set<nat>, n: nat)
    requires forall x :: x in xs ==> x < n
    ensures |xs| <= n
    decreases n
  {
    if n > 0 {
      BelowCap(xs - {n - 1}, n - 1);
      assert n - 1 in xs ==> |xs| == |xs - {n - 1}| + 1;
      assert n - 1 !in xs ==> xs - {n - 1} == xs;
    } else {
      assert xs == {};
    }
  }

  lemma {:induction false} MulMonotone(a: int, b: int, m: nat)
    requires 0 <= a <= b
    ensures 0 <= a * m <= b * m
    ensures (a + 1) * m == a * m + m
  {
    assert (b - a) * m >= 0;
  }

  /** a whole buffers and part of another one are at most n buffers. */
  lemma {:induction false} PartOf(a: int, x: int, n: int, m: nat)
    requires 0 <= a && 0 <= x && (if x == 0 then a <= n else a < n && x <= m)
    ensures 0 <= a * m + x <= n * m
  {
    MulMonotone(a, if x == 0 then n else n - 1, m);
    if x > 0 {
      MulMonotone(n - 1, n, m);
    }
  }

  lemma {:induction false} BytesBound(c: Config, bs: seq<seq<Weight>>, r: nat, k: Rank)
    requires RankInv(c, bs, r, k)
    ensures 0 <= BytesRead(c, k) <= |bs| * c.cap
    ensures IsReading(k) ==> |k.role.xfer.copied| <= c.cap
  {
    OfferedBound(c, bs, r, k);
    hide RankInv, Fetched, Received, Offered, Released;
    if IsReading(k) {
      ReadingInto(c, bs, r, k);
      BelowCap(k.role.xfer.copied, c.cap);
      PartOf(Fetched(k), |k.role.xfer.copied|, |bs|, c.cap);
    } else {
      PartOf(Fetched(k), 0, |bs|, c.cap);
    }
  }

  /** What a rank has yielded is a prefix of what the buckets hold for a receiver, at every moment. */
  lemma {:induction false} YieldedIsPrefix(c: Config, bs: seq<seq<Weight>>, r: nat, k: Rank)
    requires RankInv(c, bs, r, k) && k.role.Relay?
    ensures k.role.out <= KeptAll(bs)
    ensures k.pc == Done ==> k.role.out == KeptAll(bs)
  {
    hide Kept, KeptAll, Yielded, Layout, Flat, Open, Holds, MetaFor;
    var n: int := k.role.round;
    if k.pc in {Head, Next, Yield} {
      PartIsPrefix(bs, n - 1, k.role.yieldAt, k.role.out);
    } else {
      KeptMonotone(bs, n);
      assert n == |bs| ==> bs[..n] == bs;
    }
  }

  lemma {:induction false} PartIsPrefix(bs: seq<seq<Weight>>, n: int, y: nat, out: seq<Weight>)
    requires Yielded(bs, n, y, out)
    ensures out <= KeptAll(bs)
  {
    hide Kept, KeptAll;
    KeptTake(bs, n);
    KeptMonotone(bs, n + 1);
    assert out <= KeptAll(bs[..n + 1]);
  }

  lemma {:induction false} ProgressBound(c: Config, r: nat, k: Rank)
    requires RankInv(c, Buckets(c.weights, c.cap), r, k)
    ensures 0 <= Progressed(c, k) <= RankBound(c)
  {
    var bs := Buckets(c.weights, c.cap);
    OfferedBound(c, bs, r, k);
    BytesBound(c, bs, r, k);
    if k.role.Relay? {
      YieldedIsPrefix(c, bs, r, k);
      KeptLength(bs);
      GreedyLossless([], c.weights, c.cap);
      assert [] + c.weights == c.weights;
      assert k.role.round <= |bs|;
    }
  }

  lemma {:induction false} FinishProgresses(c: Config, bs: seq<seq<Weight>>, r: nat, k: Rank)
    requires RankInv(c, bs, r, k) && IsReading(k)
    ensures Progressed(c, FinishRank(k)) >= Progressed(c, k) + 1
  {
    OfferedBound(c, bs, r, k);
    BytesBound(c, bs, r, k);
    hide RankInv, BytesRead;
    FinishBytes(c, k);
  }

  lemma {:induction false} FinishBytes(c: Config, k: Rank)
    requires IsReading(k) && Fetched(k) >= 0 && |k.role.xfer.copied| <= c.cap
    ensures BytesRead(c, FinishRank(k)) >= BytesRead(c, k)
  {
    MulMonotone(Fetched(k), Fetched(k), c.cap);
  }

  lemma {:induction false} ReceiveProgresses(c: Config, bs: seq<seq<Weight>>, r: nat, k: Rank, m: Message)
    requires RankInv(c, bs, r, k) && k.role.Relay? && k.pc in {First, Next}
    requires RankInv(c, bs, r, ReceiveRank(k, m))
    ensures Progressed(c, ReceiveRank(k, m)) >= Progressed(c, k) + 1
  {
    assert Fetched(ReceiveRank(k, m)) == Fetched(k);
  }

  lemma {:induction false} CopyProgresses(c: Config, k: Rank, i: nat, remote: seq<byte>)
    requires BuffersOk(c, k) && ReadsInside(c, k) && i < c.cap == |remote| && i !in k.role.xfer.copied
    ensures Progressed(c, CopyRank(c, k, i, remote)) >= Progressed(c, k) + 1
  {
    assert Fetched(CopyRank(c, k, i, remote)) == Fetched(k);
  }

  lemma {:induction false} SwapProgresses(c: Config, bs: seq<seq<Weight>>, r: nat, k: Rank)
    requires RankInv(c, bs, r, k) && k.role.Relay? && k.pc == Wait && k.role.xfer == Complete
    ensures Progressed(c, SwapRank(k)) >= Progressed(c, k) + 1
  {
    assert Fetched(SwapRank(k)) == Fetched(k);
  }

  lemma {:induction false} YieldProgresses(c: Config, bs: seq<seq<Weight>>, r: nat, k: Rank)
    requires k.role.Relay? && BuffersOk(c, k) && k.role.yieldAt < |k.role.meta.entries|
    requires RankInv(c, bs, r, YieldRank(k))
    ensures Progressed(c, YieldRank(k)) >= Progressed(c, k) + 1
  {
    assert Fetched(YieldRank(k)) == Fetched(k);
  }

  lemma {:induction false} OfferProgresses(c: Config, bs: seq<seq<Weight>>, r: nat, k: Rank)
    requires RankInv(c, bs, r, k)
    requires if k.role.Master? then k.pc == Fetch && k.op.None? else k.pc == Head
    ensures Progressed(c, OfferRank(c, r, k)) >= Progressed(c, k) + 1
  {
    if k.role.Relay? {
      assert Fetched(OfferRank(c, r, k)) == Fetched(k);
    }
  }

  lemma {:induction false} ReleaseProgresses(c: Config, bs: seq<seq<Weight>>, r: nat, k: Rank)
    requires RankInv(c, bs, r, k) && AwaitsAck(c, k)
    ensures Progressed(c, ReleasedRank(k)) >= Progressed(c, k) + 1
  {
    if k.role.Relay? {
      assert Fetched(ReleasedRank(k)) == Fetched(k);
    }
  }

  lemma {:induction false} StoreProgresses(c: Config, bs: seq<seq<Weight>>, k: Rank)
    requires k.role.Master? && BuffersOk(c, k) && k.role.next < |c.weights| && k.pc in {Fetch, Place}
    requires RankInv(c, bs, 0, StoreRank(c, k))
    ensures Progressed(c, StoreRank(c, k)) >= Progressed(c, k) + 1
  {
  }

  lemma {:induction false} OneRankMoves(c: Config, s: State, e: Event)
    requires Shaped(c, s) && Enabled(c, s, e)
    ensures |Do(c, s, e).ranks| == |s.ranks|
    ensures Do(c, s, e).ranks == s.ranks[e.rank := Do(c, s, e).ranks[e.rank]]
  {
    hide StoreRank, OfferRank, ReceiveRank, CopyRank, FinishRank, SwapRank, YieldRank, ReleasedRank, AckRank,
         AwaitsAck, Fits, OfferMessage;
  }

  lemma {:induction false} ReaderProgresses(c: Config, bs: seq<seq<Weight>>, s: State, e: Event)
    requires InvFor(c, bs, s) && Enabled(c, s, e)
    requires e.action.Receive? || e.action.Copy? || e.action.Finish? || e.action.Swap?
    requires e.rank < |Do(c, s, e).ranks| && RankInv(c, bs, e.rank, Do(c, s, e).ranks[e.rank])
    ensures Progressed(c, Do(c, s, e).ranks[e.rank]) >= Progressed(c, s.ranks[e.rank]) + 1
  {
    var r := e.rank;
    hide InvFor, LinkInv, RankInv, Progressed, ReceiveRank, CopyRank, FinishRank, SwapRank;
    Around(c, bs, s, r);
    var k := s.ranks[r];
    match e.action
    case Receive => ReceiveProgresses(c, bs, r, k, s.links[r - 1].msgs[0]);
    case Copy(i) => CopyProgresses(c, k, i, s.ranks[k.role.xfer.src.rank].bufs[k.role.xfer.src.buf]);
    case Finish => FinishProgresses(c, bs, r, k);
    case Swap => SwapProgresses(c, bs, r, k);
  }

  lemma {:induction false} SenderProgresses(c: Config, bs: seq<seq<Weight>>, s: State, e: Event)
    requires InvFor(c, bs, s) && Enabled(c, s, e) && bs == Buckets(c.weights, c.cap)
    requires !e.action.Receive? && !e.action.Copy? && !e.action.Finish? && !e.action.Swap?
    requires e.rank < |Do(c, s, e).ranks| && RankInv(c, bs, e.rank, Do(c, s, e).ranks[e.rank])
    ensures Progressed(c, Do(c, s, e).ranks[e.rank]) >= Progressed(c, s.ranks[e.rank]) + 1
  {
    var r := e.rank;
    hide InvFor, LinkInv, RankInv, Progressed, StoreRank, OfferRank, YieldRank, ReleasedRank, AckRank, AwaitsAck,
         Fits, OfferMessage;
    Around(c, bs, s, r);
    var k := s.ranks[r];
    match e.action
    case Store => StoreProgresses(c, bs, k);
    case Offer => OfferProgresses(c, bs, r, k);
    case YieldOne => YieldProgresses(c, bs, r, k);
    case Ack =>
      AckKeyMatches(c, s, r);
      ReleaseProgresses(c, bs, r, k);
    case Proceed => ReleaseProgresses(c, bs, r, k);
  }

  /** The rank that takes a step achieves something. */
  lemma {:induction false} StepProgresses(c: Config, s: State, e: Event)
    requires Inv(c, s) && Enabled(c, s, e)
    ensures Inv(c, Do(c, s, e))
    ensures Progressed(c, Do(c, s, e).ranks[e.rank]) >= Progressed(c, s.ranks[e.rank]) + 1
  {
    var bs := Buckets(c.weights, c.cap);
    StepInv(c, s, e);
    hide InvFor, RankInv, Progressed, Do, Enabled;
    Around(c, bs, Do(c, s, e), e.rank);
    if e.action.Receive? || e.action.Copy? || e.action.Finish? || e.action.Swap? {
      ReaderProgresses(c, bs, s, e);
    } else {
      SenderProgresses(c, bs, s, e);
    }
  }

  /** The assertion on the notify key never fails. */
  lemma {:induction false} AckKeyMatches(c: Config, s: State, r: nat)
    requires Inv(c, s) && r < c.last && s.links[r].acks != []
    ensures s.ranks[r].op.Some? && s.links[r].acks[0] == s.ranks[r].op.value.key
    ensures AckRank(s.ranks[r], s.links[r].acks[0]) == ReleasedRank(s.ranks[r])
  {
    OneOutstanding(c, s, r);
  }

  function TotalProgress(c: Config, ranks: seq<Rank>): int {
    if ranks == [] then 0 else Progressed(c, ranks[0]) + TotalProgress(c, ranks[1..])
  }

  lemma {:induction false} TotalUpdate(c: Config, ranks: seq<Rank>, r: nat, k: Rank)
    requires r < |ranks|
    ensures TotalProgress(c, ranks[r := k]) == TotalProgress(c, ranks) - Progressed(c, ranks[r]) + Progressed(c, k)
  {
    if r == 0 {
      assert ranks[0 := k][1..] == ranks[1..];
    } else {
      assert ranks[r := k][1..] == ranks[1..][r - 1 := k];
      TotalUpdate(c, ranks[1..], r - 1, k);
    }
  }

  lemma {:induction false} TotalBound(c: Config, ranks: seq<Rank>, bound: nat)
    requires forall i :: 0 <= i < |ranks| ==> 0 <= Progressed(c, ranks[i]) <= bound
    ensures 0 <= TotalProgress(c, ranks) <= |ranks| * bound
  {
    hide Progressed;
    if ranks != [] {
      TotalBound(c, ranks[1..], bound);
      MulMonotone(|ranks| - 1, |ranks|, bound);
    }
  }

  lemma {:induction false} ChainBound(c: Config, s: State)
    requires Inv(c, s)
    ensures 0 <= TotalProgress(c, s.ranks) <= (c.last + 1) * RankBound(c)
  {
    forall r | 0 <= r <= c.last
      ensures 0 <= Progressed(c, s.ranks[r]) <= RankBound(c)
    {
      Around(c, Buckets(c.weights, c.cap), s, r);
      ProgressBound(c, r, s.ranks[r]);
    }
    TotalBound(c, s.ranks, RankBound(c));
  }

  // ---------- whole runs ----------

  lemma {:induction false} RunInv(c: Config, run: seq<State>, i: nat)
    requires Run(c, run) && i < |run|
    ensures Inv(c, run[i])
    ensures TotalProgress(c, run[i].ranks) >= i
  {
    if i == 0 {
      InitInv(c);
      ChainBound(c, Init(c));
    } else {
      RunInv(c, run, i - 1);
      assert Step(c, run[i - 1], run[i - 1 + 1]);
      var e :| Enabled(c, run[i - 1], e) && run[i] == Do(c, run[i - 1], e);
      StepProgresses(c, run[i - 1], e);
      OneRankMoves(c, run[i - 1], e);
      TotalUpdate(c, run[i - 1].ranks, e.rank, run[i].ranks[e.rank]);
    }
  }

  /**
   The only assertion that can fail, in any run, is the one of rank 0 on a weight that is too
   large: not the one on the notify key, nor on missing descriptors, nor a read out of bounds.
   */
  lemma {:induction false} NoCrash(c: Config, run: seq<State>, i: nat, r: nat)
    requires Run(c, run) && i < |run| && r <= c.last
    ensures r < |run[i].ranks|
    ensures run[i].ranks[r].pc == Crashed ==> r == 0 && !AllFit(c.weights, c.cap)
  {
    RunInv(c, run, i);
    Around(c, Buckets(c.weights, c.cap), run[i], r);
    OfferedBound(c, Buckets(c.weights, c.cap), r, run[i].ranks[r]);
  }

  /** Buffer safety over whole runs. */
  lemma {:induction false} BufferSafety(c: Config, run: seq<State>, i: nat, r: nat)
    requires Run(c, run) && i + 1 < |run| && r <= c.last
    ensures |run[i].ranks| == |run[i + 1].ranks| == c.last + 1
    ensures run[i].ranks[r].op.Some? ==>
              var b := run[i].ranks[r].op.value.buf;
              && b < |run[i].ranks[r].bufs| == |run[i + 1].ranks[r].bufs|
              && run[i + 1].ranks[r].bufs[b] == run[i].ranks[r].bufs[b]
              && (IsReading(run[i].ranks[r]) ==> run[i].ranks[r].role.xfer.dst != b)
  {
    RunInv(c, run, i);
    assert Step(c, run[i], run[i + 1]);
    var e :| Enabled(c, run[i], e) && run[i + 1] == Do(c, run[i], e);
    RunInv(c, run, i + 1);
    if run[i].ranks[r].op.Some? {
      ExposedIsFrozen(c, run[i], e, r);
    }
  }

  /** Termination: no run is longer than a bound that the weights and the chain determine. */
  lemma {:induction false} RunsTerminate(c: Config, run: seq<State>)
    requires Run(c, run)
    ensures |run| - 1 <= (c.last + 1) * RankBound(c)
  {
    RunInv(c, run, |run| - 1);
    ChainBound(c, run[|run| - 1]);
  }

  /** What a receiver of all buckets is left with; the weights themselves if no bucket repeats a name. */
  ghost function Receivable(c: Config): seq<Weight> {
    KeptAll(Buckets(c.weights, c.cap))
  }

  /** It is what rank 0 was given exactly when no bucket holds two weights of the same name. */
  lemma {:induction false} ReceivableIff(c: Config)
    ensures Receivable(c) == c.weights <==> AllDistinct(Buckets(c.weights, c.cap))
    ensures DistinctNames(c.weights) ==> Receivable(c) == c.weights
  {
    hide KeptAll, Kept, Layout, Flat, Greedy, AllDistinct, DistinctNames, Concat;
    var bs := Buckets(c.weights, c.cap);
    GreedyLossless([], c.weights, c.cap);
    assert [] + c.weights == c.weights;
    KeptIffDistinct(bs);
    if DistinctNames(c.weights) {
      BucketsDistinct([], c.weights, c.cap);
    }
  }

  /** At every moment a rollout rank has yielded a prefix of that, and nothing else. */
  lemma {:induction false} DeliversInOrder(c: Config, run: seq<State>, i: nat, r: nat)
    requires Run(c, run) && i < |run| && 1 <= r <= c.last
    ensures r < |run[i].ranks| && run[i].ranks[r].role.Relay?
    ensures run[i].ranks[r].role.out <= Receivable(c)
    ensures run[i].ranks[r].pc == Done ==> run[i].ranks[r].role.out == Receivable(c)
  {
    RunInv(c, run, i);
    Around(c, Buckets(c.weights, c.cap), run[i], r);
    YieldedIsPrefix(c, Buckets(c.weights, c.cap), r, run[i].ranks[r]);
  }

  /** No rank can take a step. */
  ghost predicate Stuck(c: Config, s: State) {
    Shaped(c, s) ==> !CanStep(c, s)
  }

  /** All ranks have finished, nothing is left on the links, and every rollout rank has yielded `ws`. */
  ghost predicate Delivered(c: Config, s: State, ws: seq<Weight>) {
    && Final(c, s)
    && |s.links| == c.last
    && (forall r :: 1 <= r <= c.last ==> s.ranks[r].role.Relay? && s.ranks[r].role.out == ws)
    && (forall l :: 0 <= l < c.last ==> s.links[l] == Link([], []))
  }

  /**
   End to end: a run that cannot go on has finished on every rank, no message or notification is
   left over, and every rollout rank has yielded, in order, what the buckets hold for a receiver;
   or rank 0 has stopped at a weight that is too large.
   */
  lemma {:induction false} EndToEnd(c: Config, run: seq<State>)
    requires c.last >= 1 && Run(c, run)
    requires Stuck(c, run[|run| - 1])
    ensures var s := run[|run| - 1];
            && |s.ranks| > 0
            && (if AllFit(c.weights, c.cap) then Delivered(c, s, Receivable(c)) else s.ranks[0].pc == Crashed)
  {
    var n, s := |run| - 1, run[|run| - 1];
    RunInv(c, run, n);
    RunStored(c, run, n);
    hide Receivable;
    if s.ranks[0].pc != Crashed {
      if !Final(c, s) {
        NoDeadlock(c, s);
        assert false;
      }
      FinalDelivers(c, run);
    } else {
      NoCrash(c, run, n, 0);
    }
  }

  lemma {:induction false} FinalDelivers(c: Config, run: seq<State>)
    requires Run(c, run) && Final(c, run[|run| - 1])
    ensures Delivered(c, run[|run| - 1], Receivable(c))
  {
    hide Receivable;
    var n, s, bs := |run| - 1, run[|run| - 1], Buckets(c.weights, c.cap);
    RunInv(c, run, n);
    forall r | 1 <= r <= c.last
      ensures s.ranks[r].role.Relay? && s.ranks[r].role.out == Receivable(c)
    {
      DeliversInOrder(c, run, n, r);
    }
    forall l | 0 <= l < c.last
      ensures s.links[l] == Link([], [])
    {
      OneOutstanding(c, s, l);
      Around(c, bs, s, l);
      OfferedBound(c, bs, l, s.ranks[l]);
    }
  }

  // ---------- weights that do not fit ----------

  /** Rank 0 has stored only weights that fit, and it is past its loop only when it has stored them all. */
  ghost predicate StoredFit(c: Config, s: State) {
    && Shaped(c, s)
    && var k := s.ranks[0];
    && k.role.next <= |c.weights|
    && (forall i :: 0 <= i < k.role.next ==> |c.weights[i].data| <= c.cap)
    && (k.pc in {Flush, Done} ==> k.role.next == |c.weights|)
  }

  lemma {:induction false} StoredStep(c: Config, s: State, e: Event)
    requires StoredFit(c, s) && Enabled(c, s, e) && Shaped(c, Do(c, s, e))
    ensures StoredFit(c, Do(c, s, e))
  {
    hide Put, Read, Stamp;
    if e.rank != 0 {
      OtherRank(c, s, e, 0);
    }
  }

  lemma {:induction false} OtherRank(c: Config, s: State, e: Event, r: nat)
    requires Shaped(c, s) && Enabled(c, s, e) && r <= c.last && r != e.rank
    ensures |Do(c, s, e).ranks| == |s.ranks| && Do(c, s, e).ranks[r] == s.ranks[r]
  {
    hide Put, Read, Stamp, StoreRank, OfferRank, ReceiveRank, CopyRank, FinishRank, SwapRank, YieldRank, AckRank,
         ReleasedRank;
  }

  lemma {:induction false} StepShaped(c: Config, s: State, e: Event)
    requires Shaped(c, s) && Enabled(c, s, e)
    ensures Shaped(c, Do(c, s, e))
  {
    hide Put, Read, Stamp;
    var t := Do(c, s, e);
    forall r | 0 <= r <= c.last
      ensures (t.ranks[r].role.Master? <==> r == 0) && BuffersOk(c, t.ranks[r])
    {
      if r != e.rank {
        OtherRank(c, s, e, r);
      }
    }
  }

  lemma {:induction false} RunStored(c: Config, run: seq<State>, i: nat)
    requires Run(c, run) && i < |run|
    ensures StoredFit(c, run[i])
  {
    if i > 0 {
      RunStored(c, run, i - 1);
      assert Step(c, run[i - 1], run[i - 1 + 1]);
      var e :| Enabled(c, run[i - 1], e) && run[i] == Do(c, run[i - 1], e);
      StepShaped(c, run[i - 1], e);
      StoredStep(c, run[i - 1], e);
    }
  }

  /**
   The exact condition: a run that cannot go on has delivered the weights of rank 0 to every
   rollout rank if and only if every weight fits a buffer and no bucket repeats a name.
   */
  lemma {:induction false} DeliveredIff(c: Config, run: seq<State>)
    requires c.last >= 1 && Run(c, run)
    requires Stuck(c, run[|run| - 1])
    ensures Delivered(c, run[|run| - 1], c.weights)
       <==> AllFit(c.weights, c.cap) && AllDistinct(Buckets(c.weights, c.cap))
  {
    var s := run[|run| - 1];
    RunStored(c, run, |run| - 1);
    ReceivableIff(c);
    hide Receivable;
    if AllFit(c.weights, c.cap) {
      EndToEnd(c, run);
      assert s.ranks[1].role.out == Receivable(c);
    }
  }
}
