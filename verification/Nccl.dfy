/** The broadcast engine: a trainer fills one byte buffer while the other is in flight, a rollout
    rank reads one while the other is being received. */
module Nccl {
  import opened Buckets
  import opened Sequences

  /** One completed broadcast, as every rank sees it: the whole buffer and its metadata. */
  datatype Message = Message(bytes: seq<Byte>, meta: Meta, last: bool)

  /** A broadcast running in its own thread; it may read the buffer at any time until it is
      awaited. */
  class Broadcast {
    const bucket: array<Byte>
    const meta: Meta
    const last: bool
    ghost const snapshot: seq<Byte>

    constructor (bucket: array<Byte>, meta: Meta, last: bool)
      ensures this.bucket == bucket && this.meta == meta && this.last == last && snapshot == bucket[..]
    {
      this.bucket, this.meta, this.last, this.snapshot := bucket, meta, last, bucket[..];
    }
  }

  class Channel {
    var sent: seq<Message>

    constructor ()
      ensures sent == []
    {
      sent := [];
    }

    /** `wait_for_complete` at the trainer.  What arrives is well defined only because the buffer
        is as it was when the operation started. */
    method WaitForComplete(op: Broadcast)
      requires op.bucket[..] == op.snapshot
      modifies this
      ensures sent == old(sent) + [Message(op.snapshot, op.meta, op.last)]
    {
      sent := sent + [Message(op.bucket[..], op.meta, op.last)];
    }
  }

  /** `buf[offset : offset + len] = bytes` */
  method Store(buf: array<Byte>, offset: nat, bytes: seq<Byte>)
    requires offset + |bytes| <= buf.Length
    modifies buf
    ensures buf[..] == Write(old(buf[..]), offset, bytes)
  {
    forall j | 0 <= j < |bytes| {
      buf[offset + j] := bytes[j];
    }
  }

  /** Message k carries bucket k. */
  predicate Carries(msg: Message, bucket: seq<Weight>, size: nat, last: bool) {
    |msg.bytes| == size && Bytes(bucket) <= msg.bytes && msg.meta == MetaOf(bucket) && msg.last == last
  }

  ghost predicate CarriesAll(sent: seq<Message>, bs: seq<seq<Weight>>, size: nat) {
    |sent| <= |bs| && forall k :: 0 <= k < |sent| ==> Carries(sent[k], bs[k], size, k == |bs| - 1)
  }

  lemma CarriesNext(sent: seq<Message>, bs: seq<seq<Weight>>, size: nat, msg: Message)
    requires CarriesAll(sent, bs, size) && |sent| < |bs| && Carries(msg, bs[|sent|], size, |sent| == |bs| - 1)
    ensures CarriesAll(sent + [msg], bs, size)
  {
  }

  lemma StoreKeepsPrefix(buf: seq<Byte>, x: seq<Byte>, y: seq<Byte>)
    requires x <= buf && |x| + |y| <= |buf|
    ensures x + y <= Write(buf, |x|, y)
  {
  }

  /** The operation in flight holds bucket P of the packing, untouched. */
  ghost predicate InFlight(op: Broadcast, bs: seq<seq<Weight>>, P: nat, size: nat)
    reads op.bucket
    requires P < |bs|
  {
    op.bucket[..] == op.snapshot && Carries(Message(op.snapshot, op.meta, op.last), bs[P], size, P == |bs| - 1)
  }

  /** "wait previous broadcast op finish" */
  method AwaitPrevious(op: Broadcast?, ch: Channel, ghost bs: seq<seq<Weight>>, ghost P: nat, ghost size: nat)
    requires CarriesAll(ch.sent, bs, size) && P < |bs|
    requires op == null ==> P == 0 && |ch.sent| == 0
    requires op != null ==> P == |ch.sent| + 1 && InFlight(op, bs, P - 1, size)
    modifies ch
    ensures CarriesAll(ch.sent, bs, size) && |ch.sent| == P
  {
    if op != null {
      CarriesNext(ch.sent, bs, size, Message(op.snapshot, op.meta, op.last));
      ch.WaitForComplete(op);
    }
  }

  /** The buffer being filled holds the open bucket, the P-th of the packing, so far weights
      first..i. */
  ghost predicate Open(ws: seq<Weight>, B: nat, first: nat, i: nat, P: nat, meta: Meta, offset: nat, buf: seq<Byte>) {
    && first <= i <= |ws| && P < |Pack(ws, B)| && Pack(ws, B)[P..] == PackFrom(ws[first..i], ws[i..], B)
    && AllFit(ws[..i], B) && meta == MetaOf(ws[first..i]) && offset == |Bytes(ws[first..i])| <= B
    && |buf| == B && Bytes(ws[first..i]) <= buf
  }

  lemma OpenFirst(ws: seq<Weight>, B: nat, buf: seq<Byte>)
    requires |buf| == B
    ensures Open(ws, B, 0, 0, 0, [], 0, buf) && CarriesAll([], Pack(ws, B), B) && |Pack(ws, B)| > 0
  {
    assert ws[0..0] == [] && ws[0..] == ws && Pack(ws, B)[0..] == Pack(ws, B);
  }

  /** One more weight. */
  lemma OpenFills(ws: seq<Weight>, B: nat, first: nat, i: nat, P: nat, meta: Meta, offset: nat, buf: seq<Byte>)
    requires Open(ws, B, first, i, P, meta, offset, buf) && i < |ws| && offset + |ws[i].1| <= B
    ensures Open(ws, B, first, i + 1, P, Put(meta, ws[i].0, Slot(offset, |ws[i].1|)), offset + |ws[i].1|,
                 Write(buf, offset, ws[i].1))
  {
    hide Pack, PackFrom, Bytes, MetaOf, Put, AllFit, Write;
    FillFacts(ws, B, first, i);
    StoreKeepsPrefix(buf, Bytes(ws[first..i]), ws[i].1);
  }

  /** The bucket is full: its broadcast carries it, and the other buffer opens the next one, unless
      the weight fits no bucket. */
  lemma OpenFlushes(ws: seq<Weight>, B: nat, first: nat, i: nat, P: nat, meta: Meta, offset: nat, buf: seq<Byte>, other: seq<Byte>)
    requires Open(ws, B, first, i, P, meta, offset, buf) && i < |ws| && offset + |ws[i].1| > B && |other| == B
    ensures |ws[i].1| > B ==> !AllFit(ws, B) && P + 1 == |Pack(ws, B)|
    ensures |ws[i].1| <= B ==> Open(ws, B, i, i, P + 1, [], 0, other)
    ensures |ws[i].1| <= B ==> Carries(Message(buf, meta, false), Pack(ws, B)[P], B, P == |Pack(ws, B)| - 1)
  {
    hide Pack, PackFrom, Put;
    FlushFacts(ws, B, first, i, P);
  }

  lemma OpenEnds(ws: seq<Weight>, B: nat, first: nat, P: nat, meta: Meta, offset: nat, buf: seq<Byte>)
    requires Open(ws, B, first, |ws|, P, meta, offset, buf)
    ensures AllFit(ws, B) && P + 1 == |Pack(ws, B)|
    ensures Carries(Message(buf, meta, true), Pack(ws, B)[P], B, P == |Pack(ws, B)| - 1)
  {
    hide Pack, PackFrom, Put;
    FlushFacts(ws, B, first, |ws|, P);
  }

  /** `send_weights` on the master.  It stops on its size assertion exactly when some weight fits no
      bucket; what the ranks receive are the greedily packed buckets, in order, the final one
      marked. */
  method SendWeights(ws: seq<Weight>, bufA: array<Byte>, bufB: array<Byte>, ch: Channel) returns (ok: bool)
    requires bufA != bufB && bufA.Length == bufB.Length && ch.sent == []
    modifies bufA, bufB, ch
    ensures ok <==> AllFit(ws, bufA.Length)
    ensures CarriesAll(ch.sent, Pack(ws, bufA.Length), bufA.Length)
    ensures |ch.sent| == |Pack(ws, bufA.Length)| - if ok then 0 else 1
  {
    hide Pack, PackFrom, Bytes, MetaOf, Carries, Put, CarriesAll, AllFit, Write, Open;
    var B := bufA.Length;
    var sendBuf, recvBuf := bufA, bufB;
    var op: Broadcast? := null;
    var meta: Meta := [];
    var offset: nat := 0;
    ghost var first: nat, P: nat := 0, 0;
    ghost var bs := Pack(ws, B);
    OpenFirst(ws, B, sendBuf[..]);
    for i := 0 to |ws|
      invariant {sendBuf, recvBuf} == {bufA, bufB} && sendBuf != recvBuf
      invariant Open(ws, B, first, i, P, meta, offset, sendBuf[..]) && P < |bs|
      invariant CarriesAll(ch.sent, bs, B)
      invariant op == null ==> P == 0 && |ch.sent| == 0
      invariant op != null ==> P == |ch.sent| + 1 && op.bucket == recvBuf && InFlight(op, bs, P - 1, B)
    {
      var w := ws[i];
      if offset + |w.1| > B {
        OpenFlushes(ws, B, first, i, P, meta, offset, sendBuf[..], recvBuf[..]);
        AwaitPrevious(op, ch, bs, P, B);
        op := new Broadcast(sendBuf, meta, false);
        sendBuf, recvBuf := recvBuf, sendBuf;
        if |w.1| > B {
          return false;
        }
        OpenInRange(ws, B, i, i, P + 1, [], 0, sendBuf[..]);
        first, P := i, P + 1;
        meta, offset := [], 0;
      }
      OpenFills(ws, B, first, i, P, meta, offset, sendBuf[..]);
      meta := Put(meta, w.0, Slot(offset, |w.1|));
      Store(sendBuf, offset, w.1);
      offset := offset + |w.1|;
    }
    OpenEnds(ws, B, first, P, meta, offset, sendBuf[..]);
    AwaitPrevious(op, ch, bs, P, B);
    op := new Broadcast(sendBuf, meta, true);
    CarriesNext(ch.sent, bs, B, Message(op.snapshot, op.meta, op.last));
    ch.WaitForComplete(op);
    ok := true;
  }

  lemma OpenInRange(ws: seq<Weight>, B: nat, first: nat, i: nat, P: nat, meta: Meta, offset: nat, buf: seq<Byte>)
    requires Open(ws, B, first, i, P, meta, offset, buf)
    ensures P < |Pack(ws, B)|
  {
  }

  // ---- the receiving ranks -----------------------------------------------------------------

  /** A broadcast under way has written some part of the buffer: nothing may be assumed of it. */
  method Arriving(buf: array<Byte>, data: seq<Byte>)
    requires |data| == buf.Length
    modifies buf
  {
    var n :| 0 <= n <= |data|;
    forall i | 0 <= i < n {
      buf[i] := data[i];
    }
  }

  /** The broadcast has completed: the whole buffer is the sender's. */
  method Arrived(buf: array<Byte>, data: seq<Byte>)
    requires |data| == buf.Length
    modifies buf
    ensures buf[..] == data
  {
    forall i | 0 <= i < |data| {
      buf[i] := data[i];
    }
  }

  lemma ReadsItems(msg: Message, bucket: seq<Weight>, size: nat, last: bool)
    requires Carries(msg, bucket, size, last)
    ensures |Items(bucket)| == |msg.meta| && |msg.bytes| == size
    ensures forall i :: 0 <= i < |msg.meta| ==>
      var s := msg.meta[i].1;
      s.offset + s.size <= size && Items(bucket)[i] == (msg.meta[i].0, msg.bytes[s.offset..s.offset + s.size])
  {
    BucketRoundTrip(bucket, msg.bytes);
  }

  /** The yield loop over one bucket's metadata. */
  method YieldBucket(buf: array<Byte>, msg: Message, ghost bucket: seq<Weight>, ghost last: bool, out: seq<Weight>)
    returns (out': seq<Weight>)
    requires Carries(msg, bucket, buf.Length, last) && buf[..] == msg.bytes
    ensures out' == out + Items(bucket)
  {
    hide *;
    ReadsItems(msg, bucket, buf.Length, last);
    ghost var items := Items(bucket);
    out' := [];
    for i := 0 to |msg.meta|
      invariant out' == items[..i]
    {
      var (name, slot) := msg.meta[i];
      out' := out' + [(name, buf[slot.offset..slot.offset + slot.size])];
    }
    out' := out + out';
  }

  /** `receive_weights`: whatever part of the next bucket has already landed, the rank yields the
      items of every bucket from the buffer that is not being written. */
  method ReceiveWeights(msgs: seq<Message>, bufA: array<Byte>, bufB: array<Byte>, ghost bs: seq<seq<Weight>>)
    returns (out: seq<Weight>)
    requires bufA != bufB && bufA.Length == bufB.Length
    requires CarriesAll(msgs, bs, bufA.Length) && |msgs| == |bs| > 0
    modifies bufA, bufB
    ensures out == Delivered(bs)
  {
    hide Delivered, Items, Carries;
    var sendBuf, recvBuf := bufA, bufB;
    var k := 0;
    CarriesFacts(msgs, bs, bufA.Length, 0);
    Arriving(recvBuf, msgs[0].bytes);
    Arrived(recvBuf, msgs[0].bytes);
    sendBuf, recvBuf := recvBuf, sendBuf;
    out := [];
    assert Delivered(bs[..0]) == [] by { NothingDelivered(bs); }
    while !msgs[k].last
      invariant 0 <= k < |bs| && {sendBuf, recvBuf} == {bufA, bufB} && sendBuf != recvBuf
      invariant sendBuf[..] == msgs[k].bytes && out == Delivered(bs[..k])
      decreases |bs| - k
    {
      CarriesFacts(msgs, bs, bufA.Length, k);
      CarriesFacts(msgs, bs, bufA.Length, k + 1);
      Arriving(recvBuf, msgs[k + 1].bytes);
      out := YieldBucket(sendBuf, msgs[k], bs[k], false, out);
      DeliveredNext(bs, k);
      Arrived(recvBuf, msgs[k + 1].bytes);
      k := k + 1;
      sendBuf, recvBuf := recvBuf, sendBuf;
    }
    CarriesFacts(msgs, bs, bufA.Length, k);
    out := YieldBucket(sendBuf, msgs[k], bs[k], true, out);
    DeliveredNext(bs, k);
    assert bs[..k + 1] == bs;
  }

  lemma NothingDelivered(bs: seq<seq<Weight>>)
    ensures Delivered(bs[..0]) == []
  {
  }

  lemma CarriesFacts(msgs: seq<Message>, bs: seq<seq<Weight>>, size: nat, k: nat)
    requires CarriesAll(msgs, bs, size) && |msgs| == |bs| && k < |bs|
    ensures Carries(msgs[k], bs[k], size, k == |bs| - 1)
    ensures |msgs[k].bytes| == size && (msgs[k].last <==> k == |bs| - 1)
  {
  }

  /** Master and one rollout rank: the rank yields, in order and once each, exactly the items of the
      packed buckets; they are the weights sent when no bucket repeats a name, and only then. */
  method Transfer(ws: seq<Weight>, a: array<Byte>, b: array<Byte>, x: array<Byte>, y: array<Byte>)
    returns (ok: bool, out: seq<Weight>)
    requires a != b && x != y && a.Length == b.Length == x.Length == y.Length
    modifies a, b, x, y
    ensures ok <==> AllFit(ws, a.Length)
    ensures ok ==> out == Delivered(Pack(ws, a.Length))
    ensures ok ==> (out == ws <==> forall k :: 0 <= k < |Pack(ws, a.Length)| ==> DistinctNames(Pack(ws, a.Length)[k]))
  {
    hide Pack, CarriesAll, AllFit, DistinctNames, Delivered, Flatten;
    var ch := new Channel();
    ok := SendWeights(ws, a, b, ch);
    out := [];
    ghost var bs := Pack(ws, a.Length);
    if ok {
      out := ReceiveWeights(ch.sent, x, y, bs);
      DeliveredIsSent(bs);
      PackCharacterised(ws, bs, a.Length);
    }
  }
}
