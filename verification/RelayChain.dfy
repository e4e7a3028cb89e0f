/**
 The NIXL weight-sync chain as a state machine.

 Rank 0 fills two buffers in turn and offers each full one to rank 1; every rollout rank reads the
 offered buffer of its predecessor into one of its own two buffers while it offers and yields the
 other. A link carries metadata messages forward and completion notifications back. A one-sided
 read is not atomic: its bytes are copied one at a time, in any order, from whatever the remote
 buffer holds at that moment, interleaved with every other step.
 */
module RelayChain {
  import opened Packing
  import opened Wrappers

  /** `last` is the rank of the last rollout worker, so there are `last` of them. */
  datatype Config = Config(weights: seq<Weight>, cap: nat, last: nat)

  /** One of the two buffers of a rank; stands for the transfer descriptors. */
  datatype Desc = Desc(rank: nat, buf: nat)

  /** A notify key; uuid4 is abstracted as one key per offer of a rank. */
  datatype Key = Key(rank: nat, serial: nat)

  /** The metadata dict, with the two keys a sender adds and a receiver pops. */
  datatype Message = Message(key: Option<Key>, desc: Option<Desc>, entries: seq<Entry>, isLast: bool)

  const BLANK := Message(None, None, [], false)

  /** The dict display of the sender: an entry of the forwarded metadata would win over its own. */
  function Stamp(key: Key, desc: Desc, m: Message): Message {
    m.(key := if m.key.Some? then m.key else Some(key), desc := if m.desc.Some? then m.desc else Some(desc))
  }

  /** A ReadableOperation whose completion has not been seen. */
  datatype Op = Op(key: Key, buf: nat)

  /** A ReadOperation: `copied` are the byte positions that have arrived. */
  datatype Xfer = Idle | Reading(dst: nat, src: Desc, key: Key, copied: set<nat>) | Complete

  datatype Pc =
    | Fetch   // rank 0, head of the loop over the weights
    | Place   // rank 0, after the bucket was offered, about to store the weight
    | Flush   // rank 0, last bucket offered
    | First   // waiting for the first metadata
    | Head    // buffers just swapped
    | Next    // bucket offered, waiting for the next metadata
    | Yield   // yielding the tensors of the current bucket, then waiting for the successor
    | Wait    // waiting for the read in progress
    | Done
    | Crashed // an assertion of the source failed

  /** What only rank 0, or only a rollout rank, keeps. */
  datatype Role =
    | Master(next: nat, offset: nat, entries: seq<Entry>, serial: nat)
    | Relay(round: nat, meta: Message, nextMeta: Message, xfer: Xfer, yieldAt: nat, out: seq<Weight>)

  /** `send` is the buffer currently called send_buf; the other one is recv_buf. */
  datatype Rank = Rank(pc: Pc, bufs: seq<seq<byte>>, send: nat, op: Option<Op>, role: Role)

  datatype Link = Link(msgs: seq<Message>, acks: seq<Key>)

  /** links[l] joins rank l to rank l + 1. */
  datatype State = State(ranks: seq<Rank>, links: seq<Link>)

  datatype Action =
    | Store        // rank 0 copies the next weight into the open bucket
    | Offer        // metadata of the full bucket goes to the next rank
    | Receive      // metadata arrives, the read starts
    | Copy(i: nat) // one byte of the read in progress
    | Finish       // all bytes are there: the read is done and the remote rank is notified
    | Swap         // the rank sees its read done and swaps its buffers
    | YieldOne     // one tensor goes to the consumer
    | Ack          // the notification of the successor is consumed
    | Proceed      // the last rank has no successor to wait for

  datatype Event = Event(rank: nat, action: Action)

  function Zeros(n: nat): (s: seq<byte>)
    ensures |s| == n
  {
    seq(n, _ => 0)
  }

  function Init(c: Config): State {
    var bufs := [Zeros(c.cap), Zeros(c.cap)];
    State(
      [Rank(Fetch, bufs, 0, None, Master(0, 0, [], 0))]
      + seq(c.last, _ => Rank(First, bufs, 0, None, Relay(0, BLANK, BLANK, Idle, 0, []))),
      seq(c.last, _ => Link([], [])))
  }

  // ---------- what a step does to its own rank ----------

  predicate BuffersOk(c: Config, k: Rank) {
    |k.bufs| == 2 && k.send < 2 && |k.bufs[0]| == |k.bufs[1]| == c.cap
  }

  /** Does the next weight fit the open bucket? */
  predicate Fits(c: Config, k: Rank)
    requires k.role.Master?
  {
    k.role.next < |c.weights| && k.role.offset + |c.weights[k.role.next].data| <= c.cap
  }

  function StoreRank(c: Config, k: Rank): Rank
    requires k.role.Master? && BuffersOk(c, k) && k.role.next < |c.weights|
  {
    var Master(next, offset, entries, serial) := k.role;
    var w := c.weights[next];
    if offset + |w.data| <= c.cap then
      var b := k.bufs[k.send];
      k.(pc := Fetch,
         bufs := k.bufs[k.send := b[..offset] + w.data + b[offset + |w.data|..]],
         role := Master(next + 1, offset + |w.data|, Put(entries, Entry(w.name, offset, |w.data|)), serial))
    else k.(pc := Crashed)
  }

  /** The offer of rank `r`; only rank 0 swaps at this point, and not after the last bucket. */
  function OfferRank(c: Config, r: nat, k: Rank): Rank
    requires k.send < 2
  {
    match k.role
    case Master(next, offset, entries, serial) =>
      var op := Some(Op(Key(r, serial), k.send));
      if next < |c.weights|
      then Rank(Place, k.bufs, 1 - k.send, op, Master(next, 0, [], serial + 1))
      else Rank(Flush, k.bufs, k.send, op, Master(next, offset, entries, serial + 1))
    case Relay(round, meta, _, _, _, _) =>
      k.(pc := if meta.isLast then Yield else Next,
         op := if r < c.last then Some(Op(Key(r, round), k.send)) else None)
  }

  function OfferMessage(c: Config, r: nat, k: Rank): Message {
    match k.role
    case Master(next, _, entries, serial) =>
      Stamp(Key(r, serial), Desc(r, k.send), Message(None, None, entries, next >= |c.weights|))
    case Relay(round, meta, _, _, _, _) =>
      Stamp(Key(r, round), Desc(r, k.send), meta)
  }

  function ReceiveRank(k: Rank, m: Message): Rank
    requires k.role.Relay? && k.send < 2
  {
    if m.key.Some? && m.desc.Some? then
      k.(pc := if k.pc == First then Wait else Yield,
         role := k.role.(nextMeta := m.(key := None, desc := None),
                         xfer := Reading(1 - k.send, m.desc.value, m.key.value, {})))
    else k.(pc := Crashed)
  }

  /** One byte arrives; `remote` is what the predecessor's buffer holds now. */
  function CopyRank(c: Config, k: Rank, i: nat, remote: seq<byte>): Rank
    requires BuffersOk(c, k) && ReadsInside(c, k) && i < c.cap == |remote|
  {
    var x := k.role.xfer;
    k.(bufs := k.bufs[x.dst := k.bufs[x.dst][i := remote[i]]],
       role := k.role.(xfer := x.(copied := x.copied + {i})))
  }

  function FinishRank(k: Rank): Rank
    requires k.role.Relay?
  {
    k.(role := k.role.(xfer := Complete))
  }

  function SwapRank(k: Rank): Rank
    requires k.role.Relay? && k.send < 2
  {
    k.(pc := Head, send := 1 - k.send,
       role := k.role.(round := k.role.round + 1, meta := k.role.nextMeta, xfer := Idle, yieldAt := 0))
  }

  function YieldRank(k: Rank): Rank
    requires k.role.Relay? && |k.bufs| == 2 && k.send < 2 && k.role.yieldAt < |k.role.meta.entries|
  {
    var e := k.role.meta.entries[k.role.yieldAt];
    if e.offset + e.size <= |k.bufs[k.send]|
    then k.(role := k.role.(out := k.role.out + [Weight(e.name, Read(k.bufs[k.send], e))],
                            yieldAt := k.role.yieldAt + 1))
    else k.(pc := Crashed)
  }

  /** The completion of the outstanding offer was seen, or there is no successor to wait for. */
  function ReleasedRank(k: Rank): Rank {
    match k.role
    case Master(_, _, _, _) => k.(pc := if k.pc == Flush then Done else k.pc, op := None)
    case Relay(_, meta, _, _, _, _) => k.(pc := if meta.isLast then Done else Wait, op := None)
  }

  function AckRank(k: Rank, ack: Key): Rank
    requires k.op.Some?
  {
    if ack == k.op.value.key then ReleasedRank(k) else k.(pc := Crashed)
  }

  /** The rank has nothing left to do before it waits for its outstanding offer. */
  predicate AwaitsAck(c: Config, k: Rank) {
    if k.role.Master? then k.op.Some? && (k.pc == Flush || (k.pc == Fetch && !Fits(c, k)))
    else k.pc == Yield && k.role.yieldAt >= |k.role.meta.entries|
  }

  predicate ReadsInside(c: Config, k: Rank) {
    && k.role.Relay? && k.role.xfer.Reading?
    && k.role.xfer.dst < 2 && k.role.xfer.src.rank <= c.last && k.role.xfer.src.buf < 2
  }

  // ---------- steps of the whole chain ----------

  predicate Shaped(c: Config, s: State) {
    && |s.ranks| == c.last + 1 && |s.links| == c.last
    && (forall r :: 0 <= r <= c.last ==> (s.ranks[r].role.Master? <==> r == 0) && BuffersOk(c, s.ranks[r]))
  }

  predicate Enabled(c: Config, s: State, e: Event)
    requires Shaped(c, s)
  {
    var r := e.rank;
    r <= c.last &&
    var k := s.ranks[r];
    match e.action
    case Store =>
      k.role.Master? && k.role.next < |c.weights| && (k.pc == Place || (k.pc == Fetch && Fits(c, k)))
    case Offer =>
      if k.role.Master? then k.pc == Fetch && !Fits(c, k) && k.op.None? && r < c.last else k.pc == Head
    case Receive => k.role.Relay? && k.pc in {First, Next} && s.links[r - 1].msgs != []
    case Copy(i) => ReadsInside(c, k) && i < c.cap && i !in k.role.xfer.copied
    case Finish => ReadsInside(c, k) && forall i :: 0 <= i < c.cap ==> i in k.role.xfer.copied
    case Swap => k.role.Relay? && k.pc == Wait && k.role.xfer == Complete
    case YieldOne => k.role.Relay? && k.pc == Yield && k.role.yieldAt < |k.role.meta.entries|
    case Ack => r < c.last && k.op.Some? && AwaitsAck(c, k) && s.links[r].acks != []
    case Proceed => r == c.last && k.role.Relay? && AwaitsAck(c, k)
  }

  function Do(c: Config, s: State, e: Event): State
    requires Shaped(c, s) && Enabled(c, s, e)
  {
    var r := e.rank;
    var k := s.ranks[r];
    match e.action
    case Store => s.(ranks := s.ranks[r := StoreRank(c, k)])
    case Offer =>
      State(s.ranks[r := OfferRank(c, r, k)],
            if r < c.last
            then s.links[r := s.links[r].(msgs := s.links[r].msgs + [OfferMessage(c, r, k)])]
            else s.links)
    case Receive =>
      var l := s.links[r - 1];
      State(s.ranks[r := ReceiveRank(k, l.msgs[0])], s.links[r - 1 := l.(msgs := l.msgs[1..])])
    case Copy(i) =>
      var src := k.role.xfer.src;
      s.(ranks := s.ranks[r := CopyRank(c, k, i, s.ranks[src.rank].bufs[src.buf])])
    case Finish =>
      var l := s.links[r - 1];
      State(s.ranks[r := FinishRank(k)], s.links[r - 1 := l.(acks := l.acks + [k.role.xfer.key])])
    case Swap => s.(ranks := s.ranks[r := SwapRank(k)])
    case YieldOne => s.(ranks := s.ranks[r := YieldRank(k)])
    case Ack =>
      var l := s.links[r];
      State(s.ranks[r := AckRank(k, l.acks[0])], s.links[r := l.(acks := l.acks[1..])])
    case Proceed => s.(ranks := s.ranks[r := ReleasedRank(k)])
  }

  ghost predicate Step(c: Config, s: State, s': State) {
    Shaped(c, s) && exists e :: Enabled(c, s, e) && s' == Do(c, s, e)
  }

  /** A run of the chain: consecutive states of some interleaving of the ranks. */
  ghost predicate Run(c: Config, run: seq<State>) {
    && run != [] && run[0] == Init(c)
    && forall i :: 0 <= i < |run| - 1 ==> Step(c, run[i], run[i + 1])
  }

  predicate Final(c: Config, s: State) {
    |s.ranks| == c.last + 1 && forall r :: 0 <= r <= c.last ==> s.ranks[r].pc == Done
  }
}
