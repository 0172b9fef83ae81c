/** The guarantees of the Mooncake chain over every run of a job with recognisable buckets. */
module MooncakeTheorems {
  import opened Buckets
  import opened Mooncake
  import opened MooncakeInvariant

  // ---- copy safety -------------------------------------------------------------------------

  /** Rank r has announced half b and its successor has not copied it yet. */
  predicate Pending(s: System, r: nat, b: bool) {
    && r + 1 < |s|
    && var q := s[r + 1];
    && ((exists info :: info in q.inbox && info.ptr == b)
        || (q.p.pc.WaitOwn? && q.p.pc.info.ptr == b)
        || (q.p.pc.Copy? && q.p.pc.info.ptr == b))
  }

  /** The step writes new data into rank r's half b. */
  predicate Overwrites(j: Job, s: System, r: nat, b: bool)
    requires r < |s|
  {
    var p := s[r].p;
    || (p.pc.Filling? && p.pc.i < |j.ws| && p.pc.offset + |j.ws[p.pc.i].1| <= j.B && b == Odd(p.sent))
    || (p.pc.Copy? && b == Odd(p.idx))
  }

  /** `Overwrites` misses no write but the successor's four magic bytes. */
  lemma OnlyOverwrites(j: Job, s: System, r: nat, i: nat, b: bool)
    requires r < |s| && i < |s| && Guard(j, s, r) && !(i == r && Overwrites(j, s, r, b))
    requires !(s[r].p.pc.Mark? && i + 1 == r && b == s[r].p.pc.info.ptr)
    ensures |Apply(j, s, r)| == |s| && Apply(j, s, r)[i].p.bufs.Get(b) == s[i].p.bufs.Get(b)
  {
    hide Write, Put, InBounds, Read;
  }

  lemma QueueIndex(j: Job, p: Process, q: Process, inbox: seq<Info>, info: Info) returns (k: nat)
    requires Link(j, p, q, inbox) && info in inbox
    ensures q.taken <= k < p.sent && info.ptr == Odd(k)
  {
    hide Buffers, Bytes, Bs, MetaOf;
    var i :| 0 <= i < |inbox| && inbox[i] == info;
    k := q.taken + i;
  }

  lemma PendingIndex(j: Job, s: System, r: nat, b: bool) returns (k: nat)
    requires r + 1 < |s| && LinkAt(j, s, r) && ReceiverInv(j, s[r + 1].p, r + 2 < |s|) && Pending(s, r, b)
    ensures s[r + 1].p.idx <= k < s[r].p.sent && b == Odd(k)
  {
    var q := s[r + 1];
    CountsOf(j, q.p, r + 2 < |s|);
    BuffersOf(j, s[r].p, q.p, q.inbox);
    hide Buffers, Link, ReceiverInv, Odd, Bs;
    if info :| info in q.inbox && info.ptr == b {
      k := QueueIndex(j, s[r].p, q.p, q.inbox, info);
    } else {
      k := q.p.idx;
    }
  }

  /** A rank about to write is one bucket ahead of its successor at most. */
  lemma WriterCounts(j: Job, r: nat, p: Process, q: Process, inbox: seq<Info>)
    requires ProcInv(j, r, p, true) && Link(j, p, q, inbox)
    requires p.pc.Filling? ==> p.pc.i < |j.ws| && p.pc.offset + |j.ws[p.pc.i].1| <= j.B
    ensures p.pc.Filling? || p.pc.Copy? ==> p.sent <= q.idx + 1
    ensures p.pc.Copy? ==> p.sent == p.idx
  {
    BuffersOf(j, p, q, inbox);
    if r > 0 {
      CountsOf(j, p, true);
    } else if p.pc.Filling? {
      FillInv(j, p, p.bufs);
    }
    hide Bs, Content, Link, ReceiverInv, SenderInv, Odd, Sized, Bytes;
  }

  /** The half being written is free: its old bucket is copied. */
  lemma WritesFreeHalf(j: Job, r: nat, p: Process, q: Process, inbox: seq<Info>, k: nat)
    requires ProcInv(j, r, p, true) && Link(j, p, q, inbox) && q.idx <= k < p.sent
    requires p.pc.Filling? ==> p.pc.i < |j.ws| && p.pc.offset + |j.ws[p.pc.i].1| <= j.B
    ensures p.pc.Filling? ==> Odd(k) != Odd(p.sent)
    ensures p.pc.Copy? ==> Odd(k) != Odd(p.idx)
  {
    hide *;
    WriterCounts(j, r, p, q, inbox);
    OddNext(k);
  }

  /** As long as no wait has ended on data, no half still pending is about to be written. */
  lemma InvSafe(j: Job, s: System, r: nat, b: bool)
    requires Inv(j, s) && r < |s| && Overwrites(j, s, r, b)
    ensures !Pending(s, r, b)
  {
    hide LastRank, Link, SenderInv, ReceiverInv;
    if r + 1 < |s| && Pending(s, r, b) {
      assert LinkAt(j, s, r) && ProcInv(j, r, s[r].p, true) && ProcInv(j, r + 1, s[r + 1].p, r + 2 < |s|);
      var k := PendingIndex(j, s, r, b);
      WritesFreeHalf(j, r, s[r].p, s[r + 1].p, s[r + 1].inbox, k);
      hide Inv;
    }
  }

  /** Some rank is about to overwrite a half its successor has not copied yet. */
  ghost predicate EarlyOverwrite(j: Job, s: System) {
    exists r: nat, b: bool :: r < |s| && Guard(j, s, r) && Overwrites(j, s, r, b) && Pending(s, r, b)
  }

  /** No rank overwrites a half before its successor has copied it, in any interleaving. */
  lemma NoEarlyOverwrite(j: Job, run: seq<System>, i: nat)
    requires IsRun(j, run) && Recognisable(j) && i < |run|
    ensures !EarlyOverwrite(j, run[i])
  {
    hide IsRun, Recognisable, Inv, Guard, Overwrites, Pending;
    var s := run[i];
    RunInv(j, run, i);
    forall r: nat, b | r < |s| && Overwrites(j, s, r, b) ensures !Pending(s, r, b) {
      InvSafe(j, s, r, b);
    }
  }

  /** Every rank copies exactly the sender's buckets, in order, and all of them if it returns. */
  lemma CopiesAreBuckets(j: Job, run: seq<System>, i: nat, r: nat)
    requires IsRun(j, run) && Recognisable(j) && i < |run| && 0 < r < |run[i]|
    ensures var p, bs := run[i][r].p, Pack(j.ws, j.B);
            && |p.copies| <= |bs| && (forall k :: 0 <= k < |p.copies| ==> p.copies[k] == Bytes(bs[k]))
            && (p.pc.Done? ==> |p.copies| == |bs|)
  {
    RunInv(j, run, i);
    assert ProcInv(j, r, run[i][r].p, r + 1 < |run[i]|);
    CountsOf(j, run[i][r].p, r + 1 < |run[i]|);
  }

  lemma LastYieldedPrefix(j: Job, p: Process)
    requires LastRank(j, p)
    ensures p.yielded <= Delivered(Bs(j))
    ensures p.idx == |Bs(j)| ==> p.yielded == Delivered(Bs(j))
  {
    hide Bytes, Items, Delivered, Bs;
    var bs := Bs(j);
    if p.idx < |bs| {
      DeliveredPrefix(bs, p.idx, if p.pc.Yielding? then p.pc.k else 0);
    } else {
      assert bs[..p.idx] == bs;
    }
  }

  /** The last rank, whose buffers nobody marks, hands out a prefix of the item stream, and all
      of it once it returns. */
  lemma LastRankDelivers(j: Job, run: seq<System>, i: nat)
    requires IsRun(j, run) && Recognisable(j) && i < |run|
    ensures |run[i]| >= 2
    ensures var p := run[i][|run[i]| - 1].p;
            && p.yielded <= Delivered(Pack(j.ws, j.B))
            && (p.pc.Done? ==> p.yielded == Delivered(Pack(j.ws, j.B)))
  {
    RunInv(j, run, i);
    hide Recognisable, SenderInv, LinkAt, IsRun, Delivered, Pack, LastRank, Bytes;
    var p := run[i][|run[i]| - 1].p;
    assert ProcInv(j, |run[i]| - 1, p, false);
    LastYieldedPrefix(j, p);
  }

  // ---- what the other ranks hand out -------------------------------------------------------

  /** An item's bytes as rank r, at item k of bucket c, finds them. */
  function View(s: System, r: nat, slot: Slot): seq<Byte>
    requires r < |s| && InBounds(slot, s[r].p.bufs.Get(Odd(s[r].p.idx)))
  {
    Read(s[r].p.bufs.Get(Odd(s[r].p.idx)), slot)
  }

  predicate AtItem(j: Job, s: System, r: nat, c: nat, k: nat) {
    r < |s| && s[r].p.idx == c && s[r].p.pc.Yielding? && s[r].p.pc.k == k
  }

  /** What a rank before the last finds for an item: the weight sent, or, once its successor is
      done with the bucket, the weight with the magic word over the bucket's head. */
  lemma ViewIsTrueOrMarked(j: Job, s: System, r: nat, c: nat, k: nat)
    requires Inv(j, s) && AtItem(j, s, r, c, k) && r + 1 < |s|
    ensures r > 0 && c < |Bs(j)| && s[r].p.pc.info == InfoOf(j, c)
    ensures |Items(Bs(j)[c])| == |MetaOf(Bs(j)[c])| && |Overlay(Bytes(Bs(j)[c]))| == |Bytes(Bs(j)[c])|
    ensures k < |MetaOf(Bs(j)[c])| ==>
              var slot := MetaOf(Bs(j)[c])[k].1;
              && InBounds(slot, s[r].p.bufs.Get(Odd(c))) && InBounds(slot, Bytes(Bs(j)[c]))
              && View(s, r, slot) == if s[r + 1].p.idx > c then Read(Overlay(Bytes(Bs(j)[c])), slot) else Items(Bs(j)[c])[k].1
  {
    YieldingCounts(j, s, r);
    SlotsSeparate(Bs(j)[c]);
    BucketRoundTrip(Bs(j)[c], Bytes(Bs(j)[c]));
    hide Inv, Bytes, Bs, MetaOf, Items, InfoOf;
  }

  lemma YieldingCounts(j: Job, s: System, r: nat)
    requires Inv(j, s) && r + 1 < |s| && s[r].p.pc.Yielding?
    ensures r > 0 && s[r].p.idx < |Bs(j)| && s[r].p.pc.info == InfoOf(j, s[r].p.idx) && s[r].p.pc.k <= |MetaOf(Bs(j)[s[r].p.idx])|
    ensures Content(j, s[r].p.bufs, s[r].p.idx, s[r + 1].p.idx)
  {
    hide Link, LastRank, SenderInv, Bytes, Bs, MetaOf, Content;
    assert ProcInv(j, r, s[r].p, true) && LinkAt(j, s, r);
    BuffersOf(j, s[r].p, s[r + 1].p, s[r + 1].inbox);
    if r == 0 {
      SenderPcs(j, s[0].p);
    } else {
      CountsOf(j, s[r].p, true);
    }
  }

  // ---- progress ----------------------------------------------------------------------------

  ghost predicate CanStep(j: Job, s: System) {
    exists r: nat :: r < |s| && Guard(j, s, r)
  }

  ghost predicate CanStepAfter(j: Job, s: System, r: nat) {
    exists q: nat :: r < q < |s| && Guard(j, s, q)
  }

  /** A receiver that is neither waiting nor finished can step. */
  lemma BusyCanStep(j: Job, s: System, r: nat)
    requires Inv(j, s) && j.B >= 4 && 0 < r < |s|
    requires s[r].p.pc.Copy? || s[r].p.pc.Forward? || s[r].p.pc.Yielding? || s[r].p.pc.Mark?
    ensures Guard(j, s, r)
  {
    ReceiverSizes(j, s, r);
    BucketsBounded([], j.ws, j.B);
    SlotsSeparate(Bs(j)[s[r].p.idx]);
    hide Inv, Bytes, MetaOf, Pack;
  }

  lemma ReceiverSizes(j: Job, s: System, r: nat)
    requires Inv(j, s) && 0 < r < |s|
    ensures Sized(j, s[r].p) && Sized(j, s[r - 1].p)
    ensures var pc := s[r].p.pc; pc.Copy? || pc.Forward? || pc.Yielding? || pc.Mark? ==> IsInfo(j, pc.info, s[r].p.idx)
  {
    hide Inv, Link, LastRank, Buffers, Sized;
    ReceiverFacts(j, s, r);
    BuffersOf(j, s[r - 1].p, s[r].p, s[r].inbox);
    if r + 1 < |s| {
      BuffersOf(j, s[r].p, s[r + 1].p, s[r + 1].inbox);
    } else {
      LastSized(j, s[r].p);
    }
    hide Bytes, Bs, IsInfo, AllFit;
  }

  lemma LastSized(j: Job, p: Process)
    requires LastRank(j, p)
    ensures Sized(j, p)
  {
    hide Bytes, Bs, Items, Delivered, Sized;
  }

  lemma UnmarkedMeans(j: Job, p: Process, q: Process, inbox: seq<Info>, k: nat)
    requires Link(j, p, q, inbox) && k < p.sent <= k + 2 && !Marked(p.bufs.Get(Odd(k)))
    requires k + 1 < p.sent ==> !Reusing(p)
    ensures q.idx <= k
  {
    hide Bytes, Bs, Marked;
  }

  /** As long as rank r + 1 is not done with a bucket rank r has announced, it can step, or it
      waits for a rank further down that can. */
  lemma {:induction false} SuccessorCanStep(j: Job, s: System, r: nat, k: nat)
    requires Inv(j, s) && j.B >= 4 && r + 1 < |s| && s[r + 1].p.idx <= k < s[r].p.sent
    ensures CanStepAfter(j, s, r)
    decreases |s| - r
  {
    hide *;
    var q := s[r + 1].p;
    ReceiverFacts(j, s, r + 1);
    BuffersOf(j, s[r].p, q, s[r + 1].inbox);
    IdleMeans(j, s[r].p, q, s[r + 1].inbox, r + 2 < |s|);
    if q.pc.WaitOwn? && !Marked(q.bufs.Get(Odd(q.idx))) {
      UnmarkedMeans(j, q, s[r + 2].p, s[r + 2].inbox, q.idx - 2);
      SuccessorCanStep(j, s, r + 1, q.idx - 2);
      FurtherDown(j, s, r);
    } else {
      ReceiverCanStep(j, s, r + 1);
      Witness(j, s, r, r + 1);
    }
  }

  lemma Witness(j: Job, s: System, r: nat, q: nat)
    requires r < q < |s| && Guard(j, s, q)
    ensures CanStepAfter(j, s, r)
  {
  }

  lemma FurtherDown(j: Job, s: System, r: nat)
    requires CanStepAfter(j, s, r + 1)
    ensures CanStepAfter(j, s, r)
  {
    hide Guard;
  }

  /** A rank polling for the word of bucket k is waiting for a later rank that can step. */
  lemma MarkComes(j: Job, s: System, r: nat, k: nat)
    requires Inv(j, s) && j.B >= 4 && r + 1 < |s|
    requires k < s[r].p.sent <= k + 2 && !Marked(s[r].p.bufs.Get(Odd(k)))
    requires k + 1 < s[r].p.sent ==> !Reusing(s[r].p)
    ensures exists q: nat :: r < q < |s| && Guard(j, s, q)
  {
    hide Inv, Link, Guard, Marked, Buffers;
    LinkFacts(j, s, r);
    UnmarkedMeans(j, s[r].p, s[r + 1].p, s[r + 1].inbox, k);
    SuccessorCanStep(j, s, r, k);
  }

  lemma IdleMeans(j: Job, p: Process, q: Process, inbox: seq<Info>, hasNext: bool)
    requires Link(j, p, q, inbox) && ReceiverInv(j, q, hasNext)
    ensures q.pc.Recv? && q.idx < p.sent ==> inbox != []
    ensures q.pc.Done? ==> q.idx == |Bs(j)|
    ensures q.pc.WaitOwn? ==> hasNext && q.idx >= 2 && q.sent == q.idx && !Reusing(q) && Odd(q.idx - 2) == Odd(q.idx)
    ensures q.pc.Recv? && AllFit(j.ws, j.B) ==> q.idx < |Bs(j)|
    ensures q.idx == |Bs(j)| ==> (q.pc.Recv? || q.pc.Done?) && (hasNext ==> q.sent == |Bs(j)|)
  {
    CountsOf(j, q, hasNext);
    hide Buffers, Bs, Bytes;
  }

  lemma ReceiverCanStep(j: Job, s: System, r: nat)
    requires Inv(j, s) && j.B >= 4 && 0 < r < |s| && !s[r].p.pc.Done?
    requires s[r].p.pc.Recv? ==> s[r].inbox != []
    requires s[r].p.pc.WaitOwn? ==> Marked(s[r].p.bufs.Get(Odd(s[r].p.idx)))
    ensures Guard(j, s, r)
  {
    ReceiverPcs(j, s, r);
    hide Inv;
    if !s[r].p.pc.WaitOwn? && !s[r].p.pc.Recv? {
      BusyCanStep(j, s, r);
    }
  }

  lemma PcsOf(j: Job, p: Process, hasNext: bool)
    requires ReceiverInv(j, p, hasNext)
    ensures !p.pc.Filling? && !p.pc.WaitSlot? && !p.pc.FinalWait? && !p.pc.Failed?
  {
    hide Bs, Bytes, AllFit, Counts, IsInfo;
  }

  lemma ReceiverPcs(j: Job, s: System, r: nat)
    requires Inv(j, s) && 0 < r < |s|
    ensures var pc := s[r].p.pc; !pc.Filling? && !pc.WaitSlot? && !pc.FinalWait? && !pc.Failed?
  {
    hide *;
    ReceiverFacts(j, s, r);
    PcsOf(j, s[r].p, r + 1 < |s|);
  }

  lemma SenderCanStep(j: Job, s: System)
    requires Inv(j, s) && j.B >= 4 && !s[0].p.pc.Done? && !s[0].p.pc.Failed?
    ensures CanStep(j, s)
  {
    hide LastRank, Bytes, MetaOf, Marked, Content, ReceiverInv, PackFrom, AllFit, Link, Buffers;
    assert ProcInv(j, 0, s[0].p, true);
    LinkFacts(j, s, 0);
    BuffersOf(j, s[0].p, s[1].p, s[1].inbox);
    var p := s[0].p;
    if p.pc.WaitSlot? && !Marked(p.bufs.Get(Odd(p.sent))) {
      OddNext(p.sent - 2);
      MarkComes(j, s, 0, p.sent - 2);
    } else if p.pc.FinalWait? && !Marked(p.bufs.Get(Odd(p.sent - 1))) {
      MarkComes(j, s, 0, p.sent - 1);
    } else {
      assert Guard(j, s, 0);
    }
  }

  /** Where nothing can step the sender has published every bucket ... */
  lemma StuckSender(j: Job, s: System)
    requires Inv(j, s) && j.B >= 4 && !CanStep(j, s)
    ensures s[0].p.pc.Done? || s[0].p.pc.Failed?
    ensures s[0].p.sent == |Bs(j)| && (AllFit(j.ws, j.B) <==> s[0].p.pc.Done?)
  {
    hide LastRank, Bytes, MetaOf, Bs, ReceiverInv, PackFrom, CanStep, LinkAt, AllFit;
    assert ProcInv(j, 0, s[0].p, true);
    if !s[0].p.pc.Done? && !s[0].p.pc.Failed? {
      SenderCanStep(j, s);
    }
  }

  /** ... and every rank after it is done with all of them. */
  lemma {:induction false} StuckReceiver(j: Job, s: System, r: nat)
    requires Inv(j, s) && j.B >= 4 && !CanStep(j, s) && 0 < r < |s|
    ensures s[r].p.idx == |Bs(j)| && (AllFit(j.ws, j.B) ==> s[r].p.pc.Done?)
    ensures r + 1 < |s| ==> s[r].p.sent == |Bs(j)|
  {
    hide *;
    if r == 1 {
      StuckSender(j, s);
    } else {
      StuckReceiver(j, s, r - 1);
    }
    ReceiverFacts(j, s, r);
    BuffersOf(j, s[r - 1].p, s[r].p, s[r].inbox);
    if s[r].p.idx < |Bs(j)| {
      SuccessorCanStep(j, s, r - 1, s[r].p.idx);
      AnyStep(j, s, r - 1);
    }
    IdleMeans(j, s[r - 1].p, s[r].p, s[r].inbox, r + 1 < |s|);
  }

  lemma AnyStep(j: Job, s: System, r: nat)
    requires CanStepAfter(j, s, r)
    ensures CanStep(j, s)
  {
    hide Guard;
  }

  /** No deadlock, with halves that hold the word: a reachable state where nothing can step is one
      where every rank has returned, or where the sender stopped on an oversized weight and all
      other ranks are done with everything published. */
  lemma NoDeadlock(j: Job, run: seq<System>, i: nat)
    requires IsRun(j, run) && Recognisable(j) && j.B >= 4 && i < |run| && !CanStep(j, run[i])
    ensures |run[i]| >= 2
    ensures if AllFit(j.ws, j.B) then forall r: nat :: r < |run[i]| ==> run[i][r].p.pc.Done?
            else run[i][0].p.pc.Failed? && forall r: nat :: 0 < r < |run[i]| ==> run[i][r].p.idx == |Pack(j.ws, j.B)|
  {
    RunInv(j, run, i);
    hide LinkAt, LastRank, ProcInv, AllFit, CanStep, IsRun, Recognisable;
    StuckSender(j, run[i]);
    forall r: nat | 0 < r < |run[i]|
      ensures run[i][r].p.idx == |Bs(j)| && (AllFit(j.ws, j.B) ==> run[i][r].p.pc.Done?)
    {
      StuckReceiver(j, run[i], r);
    }
  }
}
