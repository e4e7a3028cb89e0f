/**
 The NCCL checkpoint engine: rank 0 fills two buffers in turn and broadcasts them, every other rank
 receives into two buffers in turn and yields the tensors.

 A broadcast runs in another thread while the caller goes on, so its buffer is read here at the
 last moment possible, when the caller waits for it; the loop also keeps that the buffer still
 holds what it held when the broadcast was started, so an earlier moment gives the same bytes.
 */
module NcclEngine {
  import opened Packing
  import opened Wrappers

  /** One collective: the whole buffer, and the metadata published beside it. */
  datatype Packet = Packet(bytes: seq<byte>, entries: seq<Entry>, isLast: bool)

  /** `p` carries bucket `k` of the packing. */
  ghost predicate Carries(p: Packet, bs: seq<seq<Weight>>, k: nat)
    requires k < |bs|
  {
    && Flat(bs[k]) <= p.bytes
    && p.entries == Layout(bs[k])
    && (p.isLast <==> k == |bs| - 1)
  }

  /** The packets so far carry the first buckets. */
  ghost predicate CarriesSome(wire: seq<Packet>, bs: seq<seq<Weight>>, cap: nat) {
    && |wire| <= |bs|
    && forall k :: 0 <= k < |wire| ==> |wire[k].bytes| == cap && Carries(wire[k], bs, k)
  }

  /**
   The state of the sending loop: `wire` is broadcast, `inFlight` is started but not waited for,
   the buffer `send` with its metadata holds the weights `cur`, and `rest` is still to come.
   */
  ghost predicate Sending(bs: seq<seq<Weight>>, cap: nat, wire: seq<Packet>, inFlight: Option<Packet>,
                          send: seq<byte>, entries: seq<Entry>, offset: nat, cur: seq<Weight>, rest: seq<Weight>)
  {
    && CarriesSome(wire, bs, cap)
    && (inFlight.Some? ==> CarriesSome(wire + [inFlight.value], bs, cap) && !inFlight.value.isLast)
    && |send| == cap && Flat(cur) <= send && entries == Layout(cur) && offset == |Flat(cur)|
    && Progress(bs, if inFlight.Some? then |wire| + 1 else |wire|, cur, rest, cap)
  }

  lemma {:induction false} WaitStep(bs: seq<seq<Weight>>, cap: nat, wire: seq<Packet>, p: Packet,
                 send: seq<byte>, entries: seq<Entry>, offset: nat, cur: seq<Weight>, rest: seq<Weight>)
    requires Sending(bs, cap, wire, Some(p), send, entries, offset, cur, rest)
    ensures Sending(bs, cap, wire + [p], None, send, entries, offset, cur, rest)
  {
  }

  lemma {:induction false} StartStep(bs: seq<seq<Weight>>, cap: nat, wire: seq<Packet>, send: seq<byte>,
                                     other: seq<byte>,
                  entries: seq<Entry>, offset: nat, cur: seq<Weight>, w: Weight, rest: seq<Weight>)
    requires Sending(bs, cap, wire, None, send, entries, offset, cur, [w] + rest)
    requires offset + |w.data| > cap >= |w.data| && |other| == cap
    ensures Sending(bs, cap, wire, Some(Packet(send, entries, false)), other, [], 0, [], [w] + rest)
  {
    CloseStep(bs, |wire|, cur, w, rest, cap);
  }

  lemma {:induction false} StoreStep(bs: seq<seq<Weight>>, cap: nat, wire: seq<Packet>, inFlight: Option<Packet>,
                                     send: seq<byte>,
                  stored: seq<byte>, entries: seq<Entry>, offset: nat, cur: seq<Weight>, w: Weight, rest: seq<Weight>)
    requires Sending(bs, cap, wire, inFlight, send, entries, offset, cur, [w] + rest)
    requires offset + |w.data| <= cap
    requires stored == send[..offset] + w.data + send[offset + |w.data|..]
    ensures Sending(bs, cap, wire, inFlight, stored, Put(entries, Entry(w.name, offset, |w.data|)),
                    offset + |w.data|, cur + [w], rest)
  {
    FillStep(bs, if inFlight.Some? then |wire| + 1 else |wire|, cur, w, rest, cap);
    assert send[..offset] == Flat(cur);
  }

  lemma {:induction false} FinishStep(bs: seq<seq<Weight>>, cap: nat, wire: seq<Packet>,
                   send: seq<byte>, entries: seq<Entry>, offset: nat, cur: seq<Weight>)
    requires Sending(bs, cap, wire, None, send, entries, offset, cur, [])
    ensures CarriesSome(wire + [Packet(send, entries, true)], bs, cap)
    ensures |wire| + 1 == |bs|
  {
    LastStep(bs, |wire|, cur, cap);
  }

  /** Copies `data` into `buf` at `offset`. */
  method Store(buf: array<byte>, offset: nat, data: seq<byte>)
    requires offset + |data| <= buf.Length
    modifies buf
    ensures buf[..] == old(buf[..])[..offset] + data + old(buf[..])[offset + |data|..]
  {
    forall j | 0 <= j < |data| {
      buf[offset + j] := data[j];
    }
  }

  /** A received broadcast fills the whole buffer. */
  method Land(buf: array<byte>, bytes: seq<byte>)
    requires |bytes| == buf.Length
    modifies buf
    ensures buf[..] == bytes
  {
    forall j | 0 <= j < |bytes| {
      buf[j] := bytes[j];
    }
  }

  /** A complete broadcast of `weights`. */
  ghost predicate CarriesAll(wire: seq<Packet>, weights: seq<Weight>, cap: nat) {
    var bs := Buckets(weights, cap);
    |wire| == |bs| && CarriesSome(wire, bs, cap)
  }

  /** A broadcast that a receiver can take apart: one last packet, and slices inside the buffer. */
  ghost predicate WellFormed(wire: seq<Packet>, cap: nat) {
    && wire != []
    && forall k :: 0 <= k < |wire| ==>
         && |wire[k].bytes| == cap
         && InRange(wire[k].bytes, wire[k].entries)
         && (wire[k].isLast <==> k == |wire| - 1)
  }

  ghost predicate Readable(wire: seq<Packet>) {
    forall k :: 0 <= k < |wire| ==> InRange(wire[k].bytes, wire[k].entries)
  }

  /** What the first n packets of a broadcast unpack to. */
  function UnpackFirst(wire: seq<Packet>, n: nat): seq<Weight>
    requires Readable(wire) && n <= |wire|
  {
    if n == 0 then [] else UnpackFirst(wire, n - 1) + Unpack(wire[n - 1].bytes, wire[n - 1].entries)
  }

  function UnpackAll(wire: seq<Packet>): seq<Weight>
    requires Readable(wire)
  {
    UnpackFirst(wire, |wire|)
  }

  class Engine {
    const bucketSize: nat
    var sendBuf: array<byte>
    var recvBuf: array<byte>

    ghost predicate Valid()
      reads this
    {
      sendBuf != recvBuf && sendBuf.Length == recvBuf.Length == bucketSize
    }

    constructor (bucketSize: nat)
      ensures Valid() && this.bucketSize == bucketSize
      ensures fresh(sendBuf) && fresh(recvBuf)
    {
      this.bucketSize := bucketSize;
      sendBuf := new byte[bucketSize](_ => 0);
      recvBuf := new byte[bucketSize](_ => 0);
    }

    /**
     Broadcasts `weights`; `wire` is what the collective transported. A weight larger than the
     buffer trips the assertion of the source, which is `ok == false` here.
     */
    method SendWeights(weights: seq<Weight>) returns (wire: seq<Packet>, ok: bool)
      requires Valid()
      modifies sendBuf, recvBuf
      ensures ok <==> AllFit(weights, bucketSize)
      ensures ok ==> CarriesAll(wire, weights, bucketSize)
    {
      var send, recv := sendBuf, recvBuf;
      var entries: seq<Entry> := [];
      var offset: nat := 0;
      var pending: array?<byte> := null;
      var pendingEntries: seq<Entry> := [];
      wire := [];
      ghost var bs := Buckets(weights, bucketSize);
      ghost var inFlight: Option<Packet>, cur: seq<Weight> := None, [];
      for i := 0 to |weights|
        invariant {send, recv} == {sendBuf, recvBuf} && send != recv
        invariant AllFit(weights[..i], bucketSize)
        invariant pending == null <==> inFlight.None?
        invariant pending != null ==> pending == recv && inFlight == Some(Packet(recv[..], pendingEntries, false))
        invariant Sending(bs, bucketSize, wire, inFlight, send[..], entries, offset, cur, weights[i..])
      {
        var w := weights[i];
        ghost var rest := weights[i + 1..];
        assert weights[i..] == [w] + rest;
        if offset + |w.data| > bucketSize {
          // wait for the previous broadcast
          if pending != null {
            WaitStep(bs, bucketSize, wire, inFlight.value, send[..], entries, offset, cur, [w] + rest);
            wire := wire + [Packet(pending[..], pendingEntries, false)];
          }
          // start the next one and swap the buffers
          if |w.data| <= bucketSize {
            StartStep(bs, bucketSize, wire, send[..], recv[..], entries, offset, cur, w, rest);
          }
          pending, pendingEntries := send, entries;
          inFlight := Some(Packet(send[..], entries, false));
          send, recv := recv, send;
          entries, offset, cur := [], 0, [];
        }
        if offset + |w.data| > bucketSize {
          assert weights[i] == w;
          return wire, false;
        }
        assert AllFit(weights[..i + 1], bucketSize);
        ghost var before := send[..];
        Store(send, offset, w.data);
        StoreStep(bs, bucketSize, wire, inFlight, before, send[..], entries, offset, cur, w, rest);
        entries := Put(entries, Entry(w.name, offset, |w.data|));
        offset := offset + |w.data|;
        cur := cur + [w];
      }
      // wait for the previous broadcast, then broadcast the last bucket
      if pending != null {
        WaitStep(bs, bucketSize, wire, inFlight.value, send[..], entries, offset, cur, []);
        wire := wire + [Packet(pending[..], pendingEntries, false)];
      }
      FinishStep(bs, bucketSize, wire, send[..], entries, offset, cur);
      wire := wire + [Packet(send[..], entries, true)];
      assert weights[..|weights|] == weights;
      ok := true;
    }

    /**
     Yields the weights of a broadcast. Every tensor is read from the send buffer, after the next
     packet has landed in the receive buffer, which is the latest moment the source allows.
     */
    method ReceiveWeights(wire: seq<Packet>) returns (out: seq<Weight>)
      requires Valid() && WellFormed(wire, bucketSize)
      modifies sendBuf, recvBuf
      ensures out == UnpackAll(wire)
    {
      var send, recv := sendBuf, recvBuf;
      out := [];
      Land(recv, wire[0].bytes);
      var entries, isLast := wire[0].entries, wire[0].isLast;
      send, recv := recv, send;
      var k := 0;
      while !isLast
        invariant k < |wire| && {send, recv} == {sendBuf, recvBuf} && send != recv
        invariant send[..] == wire[k].bytes && entries == wire[k].entries && isLast == wire[k].isLast
        invariant out == UnpackFirst(wire, k)
        decreases |wire| - k
      {
        // the broadcast of the next packet may write the receive buffer from here on
        Land(recv, wire[k + 1].bytes);
        assert send[..] == wire[k].bytes;
        out := out + Unpack(send[..], entries);
        entries, isLast := wire[k + 1].entries, wire[k + 1].isLast;
        send, recv := recv, send;
        k := k + 1;
      }
      out := out + Unpack(send[..], entries);
    }
  }

  lemma {:induction false} UnpackKept(wire: seq<Packet>, bs: seq<seq<Weight>>, cap: nat, n: nat)
    requires n <= |wire| && CarriesSome(wire, bs, cap) && Readable(wire)
    ensures UnpackFirst(wire, n) == KeptAll(bs[..n])
  {
    if n > 0 {
      UnpackOne(wire, bs, cap, n - 1);
      hide Unpack, Kept, KeptAll, CarriesSome;
      UnpackKept(wire, bs, cap, n - 1);
      KeptTake(bs, n - 1);
    }
  }

  lemma {:induction false} UnpackOne(wire: seq<Packet>, bs: seq<seq<Weight>>, cap: nat, k: nat)
    requires k < |wire| && CarriesSome(wire, bs, cap) && Readable(wire)
    ensures |wire| <= |bs| && Unpack(wire[k].bytes, wire[k].entries) == Kept(bs[k])
  {
    hide Layout, Flat, Unpack, Kept, InRange;
    assert Carries(wire[k], bs, k);
    KeptFrom(wire[k].bytes, bs[k]);
  }

  lemma {:induction false} BroadcastIsWellFormed(wire: seq<Packet>, weights: seq<Weight>, cap: nat)
    requires CarriesAll(wire, weights, cap)
    ensures WellFormed(wire, cap)
  {
    var bs := Buckets(weights, cap);
    forall k | 0 <= k < |wire|
      ensures InRange(wire[k].bytes, wire[k].entries) && |wire[k].bytes| == cap
      ensures wire[k].isLast <==> k == |wire| - 1
    {
      assert Carries(wire[k], bs, k);
      LayoutInRange(wire[k].bytes, bs[k]);
    }
  }

  /**
   What the receivers get is what rank 0 sent, in order, exactly when no bucket holds two weights
   of the same name.
   */
  lemma {:induction false} BroadcastIsLossless(wire: seq<Packet>, weights: seq<Weight>, cap: nat)
    requires CarriesAll(wire, weights, cap)
    ensures WellFormed(wire, cap)
    ensures UnpackAll(wire) == weights <==> AllDistinct(Buckets(weights, cap))
  {
    var bs := Buckets(weights, cap);
    var n := |bs|;
    BroadcastIsWellFormed(wire, weights, cap);
    assert Concat(bs) == weights by {
      GreedyLossless([], weights, cap);
      assert [] + weights == weights;
    }
    assert bs[..n] == bs;
    UnpackKept(wire, bs, cap, n);
    KeptIffDistinct(bs);
  }

  /** A whole weight update between rank 0 and one receiver. */
  method Synchronise(sender: Engine, receiver: Engine, weights: seq<Weight>) returns (out: seq<Weight>, ok: bool)
    requires sender.Valid() && receiver.Valid() && sender.bucketSize == receiver.bucketSize
    modifies sender.sendBuf, sender.recvBuf, receiver.sendBuf, receiver.recvBuf
    ensures ok <==> AllFit(weights, sender.bucketSize)
    ensures ok ==> (out == weights <==> AllDistinct(Buckets(weights, sender.bucketSize)))
    ensures ok && DistinctNames(weights) ==> out == weights
  {
    var wire;
    wire, ok := sender.SendWeights(weights);
    out := [];
    if ok {
      if DistinctNames(weights) {
        assert [] + weights == weights;
        BucketsDistinct([], weights, sender.bucketSize);
      }
      BroadcastIsLossless(wire, weights, sender.bucketSize);
      out := receiver.ReceiveWeights(wire);
    }
  }
}
