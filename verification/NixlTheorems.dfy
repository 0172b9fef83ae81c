/** The guarantees of the NIXL chain, over every run and any number of ranks. */
module NixlTheorems {
  import opened Buckets
  import opened Options
  import opened Nixl
  import opened NixlInvariant

  // ---- buffer safety -----------------------------------------------------------------------

  /** Rank r has announced buffer b and the successor has not finished reading it. */
  predicate Outstanding(s: System, r: nat, b: bool) {
    && r + 1 < |s|
    && ((exists m :: m in s[r + 1].inbox && m.buf == b)
        || (s[r + 1].p.op.Some? && s[r + 1].p.op.value.src == b))
  }

  /** Rank r is handing out views of buffer b, or is about to, or its caller may still use them. */
  predicate BeingYielded(s: System, r: nat, b: bool) {
    r < |s| && b == s[r].p.send
    && (s[r].p.pc.Top? || s[r].p.pc.Want? || s[r].p.pc.Yielding? || s[r].p.pc.AwaitAck? || s[r].p.pc.YieldingLast?)
  }

  /** The step writes into rank r's buffer b: a fill, or the landing of a remote read. */
  predicate Overwrites(j: Job, s: System, r: nat, a: Action, b: bool)
    requires r < |s| && Guard(j, s, r, a)
  {
    if a.Transfer? then s[r].p.op.value.dst == b
    else Fills(j, s[r].p.pc) && s[r].p.pc.offset + |j.ws[s[r].p.pc.i].1| <= j.B && s[r].p.send == b
  }

  /** `Overwrites` misses no write: every other buffer of every rank is untouched. */
  lemma OnlyOverwrites(j: Job, s: System, r: nat, a: Action, i: nat, b: bool)
    requires r < |s| && i < |s| && Guard(j, s, r, a) && !(i == r && Overwrites(j, s, r, a, b))
    ensures |Apply(j, s, r, a)| == |s| && Apply(j, s, r, a)[i].p.bufs.Get(b) == s[i].p.bufs.Get(b)
  {
    hide Write, Put, InBounds;
    if a.Program? {
      if Fills(j, s[r].p.pc) {
        hide Acked, Publish;
      } else {
        ProgramKeepsBuffers(j, s, r);
      }
    }
  }

  lemma ProgramKeepsBuffers(j: Job, s: System, r: nat)
    requires r < |s| && Guard(j, s, r, Program) && !Fills(j, s[r].p.pc)
    ensures |Apply(j, s, r, Program)| == |s|
    ensures forall i: nat :: i < |s| ==> Apply(j, s, r, Program)[i].p.bufs == s[i].p.bufs
  {
    hide Write, Put, InBounds, Read;
    if s[r].p.pc.Filling? {
      FlushKeepsBuffers(j, s, r);
    } else {
      hide SenderStep;
    }
  }

  lemma FlushKeepsBuffers(j: Job, s: System, r: nat)
    requires r < |s| && Guard(j, s, r, Program) && s[r].p.pc.Filling? && !Fills(j, s[r].p.pc)
    ensures |SenderStep(j, s, r)| == |s|
    ensures forall i: nat :: i < |s| ==> SenderStep(j, s, r)[i].p.bufs == s[i].p.bufs
  {
    hide Write, Put;
  }

  lemma NoUnsafeWrite(j: Job, s: System, r: nat, a: Action, b: bool)
    requires Inv(j, s) && r < |s| && Guard(j, s, r, a) && Overwrites(j, s, r, a, b)
    ensures !Outstanding(s, r, b) && !BeingYielded(s, r, b)
  {
    hide Bytes, MetaOf, Bs, Items, Delivered, Put, AllFit, PackFrom, Holds, IsBucket, SenderInv, ReceiverInv, LinkAt;
    assert ProcInv(j, r, s[r].p, r + 1 < |s|);
    if a.Transfer? {
      assert LinkAt(j, s, r - 1);
      LandingTarget(j, s, r);
    } else {
      FillTarget(j, r, s[r].p);
    }
    if r + 1 < |s| {
      assert LinkAt(j, s, r);
      if Outstanding(s, r, b) {
        OutstandingIsLast(j, s, r, b);
      }
    }
  }

  /** Only the latest announced bucket can be outstanding. */
  lemma OutstandingIsLast(j: Job, s: System, r: nat, b: bool)
    requires r + 1 < |s| && LinkAt(j, s, r) && Outstanding(s, r, b)
    ensures s[r].p.published > 0 && b == Loc(r, s[r].p.published - 1)
  {
    hide Bs, MetaOf, Last;
  }

  lemma FillTarget(j: Job, r: nat, p: Process)
    requires ProcInv(j, r, p, true) || ProcInv(j, r, p, false)
    requires p.pc.Filling?
    ensures r == 0 && p.send == Loc(0, p.published)
    ensures p.published > 0 ==> p.send != Loc(0, p.published - 1)
  {
    hide Bytes, MetaOf, Bs, Items, Delivered, Put, AllFit, PackFrom, Holds;
  }

  lemma LandingTarget(j: Job, s: System, r: nat)
    requires 0 < r < |s| && ProcInv(j, r, s[r].p, r + 1 < |s|) && LinkAt(j, s, r - 1) && s[r].p.op.Some?
    ensures var p := s[r].p;
            && (p.published > 0 ==> p.op.value.dst != Loc(r, p.published - 1))
            && !BeingYielded(s, r, p.op.value.dst)
  {
    hide Bytes, MetaOf, Bs, Items, Delivered, Put, AllFit, PackFrom, Holds, IsBucket;
  }

  /** While a buffer is outstanding or being yielded, no step of any rank changes its bytes. */
  lemma BufferSafety(j: Job, run: seq<System>, i: nat, r: nat, b: bool)
    requires IsRun(j, run) && i + 1 < |run| && r < |run[i]|
    requires Outstanding(run[i], r, b) || BeingYielded(run[i], r, b)
    ensures |run[i + 1]| == |run[i]| && run[i + 1][r].p.bufs.Get(b) == run[i][r].p.bufs.Get(b)
  {
    hide Inv, Apply, Guard, Outstanding, BeingYielded, Overwrites, IsInit;
    RunInv(j, run, i);
    assert Step(j, run[i], run[i + 1]);
    var q: nat, a :| q < |run[i]| && Guard(j, run[i], q, a) && run[i + 1] == Apply(j, run[i], q, a);
    if q == r && Overwrites(j, run[i], q, a, b) {
      NoUnsafeWrite(j, run[i], q, a, b);
      assert false;
    }
    OnlyOverwrites(j, run[i], q, a, r, b);
  }

  // ---- delivery ----------------------------------------------------------------------------

  lemma YieldedPrefix(j: Job, r: nat, p: Process, hasNext: bool)
    requires r > 0 && ReceiverInv(j, r, p, hasNext)
    ensures p.yielded <= Delivered(Bs(j))
  {
    hide Bytes, MetaOf, Bs, Items, Delivered, AllFit, Holds;
    var bs, T := Bs(j), p.taken;
    match p.pc {
      case First =>
      case FirstRead(_) =>
      case Top(_) => DeliveredPrefix(bs, T - 1, 0);
      case Want(_) => DeliveredPrefix(bs, T - 1, 0);
      case Yielding(_, _, k) => DeliveredPrefix(bs, T - 2, k);
      case AwaitAck(_) => DeliveredPrefix(bs, T - 2, 0);
      case AwaitRead(_) => DeliveredPrefix(bs, T - 2, 0);
      case YieldingLast(_, k) => DeliveredPrefix(bs, T - 1, k);
      case _ =>
    }
  }

  /** In every interleaving each rollout rank is handed a prefix of the same item stream, and
      all of it once it returns. */
  lemma ChainDelivers(j: Job, run: seq<System>, i: nat, r: nat)
    requires IsRun(j, run) && i < |run| && 0 < r < |run[i]|
    ensures run[i][r].p.yielded <= Delivered(Pack(j.ws, j.B))
    ensures run[i][r].p.pc.Done? ==> run[i][r].p.yielded == Delivered(Pack(j.ws, j.B))
  {
    hide Bytes, MetaOf, Items, Delivered, AllFit, Holds, IsInit, Step, LinkAt;
    RunInv(j, run, i);
    assert ProcInv(j, r, run[i][r].p, r + 1 < |run[i]|);
    YieldedPrefix(j, r, run[i][r].p, r + 1 < |run[i]|);
  }

  /** Names and bytes arrive exactly as sent iff no bucket repeats a name. */
  lemma DeliveryIsExact(j: Job)
    requires AllFit(j.ws, j.B)
    ensures Delivered(Pack(j.ws, j.B)) == j.ws <==>
            forall k :: 0 <= k < |Pack(j.ws, j.B)| ==> DistinctNames(Pack(j.ws, j.B)[k])
  {
    PackFromIsGreedy([], j.ws, j.B);
    assert [] + j.ws == j.ws;
    DeliveredIsSent(Pack(j.ws, j.B));
  }

  /** No assertion fires, except the sender's on a weight larger than a bucket. */
  lemma NoCrash(j: Job, run: seq<System>, i: nat, r: nat)
    requires IsRun(j, run) && i < |run| && r < |run[i]|
    ensures run[i][r].p.pc.Failed? ==> r == 0 && !AllFit(j.ws, j.B)
  {
    hide Bytes, MetaOf, Bs, Items, Delivered, AllFit, Holds, PackFrom, IsInit, Step, LinkAt;
    RunInv(j, run, i);
    assert ProcInv(j, r, run[i][r].p, r + 1 < |run[i]|);
  }

  // ---- progress ----------------------------------------------------------------------------

  ghost predicate CanStep(j: Job, s: System) {
    exists r: nat, a :: r < |s| && Guard(j, s, r, a)
  }

  /** A rank whose publication is not acknowledged is waiting for a later rank that can step. */
  lemma {:induction false} AckComes(j: Job, s: System, r: nat)
    requires Inv(j, s) && r < |s| && !AckReady(s[r])
    ensures exists q: nat, a :: r < q < |s| && Guard(j, s, q, a)
    decreases |s| - r
  {
    hide Bytes, MetaOf, Bs, Items, Delivered, Put, AllFit, PackFrom, Holds, SenderInv;
    assert ProcInv(j, r, s[r].p, r + 1 < |s|);
    LastAwaitsNothing(j, r, s[r].p, r + 1 < |s|);
    assert LinkAt(j, s, r);
    var n := s[r + 1];
    assert ProcInv(j, r + 1, n.p, r + 2 < |s|);
    if n.p.op.Some? {
      assert Guard(j, s, r + 1, Transfer);
    } else if !AckReady(n) && (n.p.pc.AwaitAck? || n.p.pc.AwaitLast?) {
      AckComes(j, s, r + 1);
    } else {
      YieldInBounds(j, r + 1, n, r + 2 < |s|);
      assert Guard(j, s, r + 1, Program);
    }
  }

  lemma LastAwaitsNothing(j: Job, r: nat, p: Process, hasNext: bool)
    requires ProcInv(j, r, p, hasNext)
    ensures !hasNext ==> p.awaiting.None?
  {
  }

  lemma YieldInBounds(j: Job, r: nat, n: Node, hasNext: bool)
    requires r > 0 && ReceiverInv(j, r, n.p, hasNext)
    ensures n.p.pc.Yielding? && n.p.pc.k < |n.p.pc.m.meta| ==> InBounds(n.p.pc.m.meta[n.p.pc.k].1, n.p.bufs.Get(n.p.send))
    ensures n.p.pc.YieldingLast? && n.p.pc.k < |n.p.pc.m.meta| ==> InBounds(n.p.pc.m.meta[n.p.pc.k].1, n.p.bufs.Get(n.p.send))
  {
    hide ReceiverInv;
    if n.p.pc.Yielding? || n.p.pc.YieldingLast? {
      YieldInv(j, r, n, hasNext);
    }
  }

  /** With every rank before r finished, rank r is finished or some rank can step. */
  lemma {:induction false} ProgressFrom(j: Job, s: System, r: nat)
    requires Inv(j, s) && 0 < r <= |s| && s[r - 1].p.pc.Done? && !CanStep(j, s)
    ensures forall i: nat :: r <= i < |s| ==> s[i].p.pc.Done?
    decreases |s| - r
  {
    hide Inv, CanStep;
    if r < |s| {
      if !s[r].p.pc.Done? {
        NextCanStep(j, s, r);
        assert false;
      }
      ProgressFrom(j, s, r + 1);
    }
  }

  lemma NextCanStep(j: Job, s: System, r: nat)
    requires Inv(j, s) && 0 < r < |s| && s[r - 1].p.pc.Done? && !s[r].p.pc.Done?
    ensures CanStep(j, s)
  {
    hide Bytes, MetaOf, Bs, Items, Delivered, Put, AllFit, PackFrom, Holds;
    var n := s[r];
    assert ProcInv(j, r - 1, s[r - 1].p, true) && ProcInv(j, r, n.p, r + 1 < |s|);
    assert LinkAt(j, s, r - 1);
    if !AckReady(n) {
      AckComes(j, s, r);
    } else {
      YieldInBounds(j, r, n, r + 1 < |s|);
      assert Guard(j, s, r, Program);
    }
  }

  lemma SenderCanStep(j: Job, s: System)
    requires Inv(j, s) && !s[0].p.pc.Done? && !s[0].p.pc.Failed?
    ensures CanStep(j, s)
  {
    hide Bytes, MetaOf, Bs, Items, Delivered, Put, AllFit, PackFrom, Holds, ReceiverInv;
    assert ProcInv(j, 0, s[0].p, true) && LinkAt(j, s, 0);
    if !AckReady(s[0]) {
      AckComes(j, s, 0);
    } else {
      assert Guard(j, s, 0, Program);
    }
  }

  /** No deadlock: a reachable state where nothing can step is one where every rank has
      returned, or where the sender stopped on an oversized weight. */
  lemma NoDeadlock(j: Job, run: seq<System>, i: nat)
    requires IsRun(j, run) && i < |run| && !CanStep(j, run[i])
    ensures |run[i]| >= 2
    ensures if AllFit(j.ws, j.B) then forall r: nat :: r < |run[i]| ==> run[i][r].p.pc.Done?
            else run[i][0].p.pc.Failed?
  {
    hide Bytes, MetaOf, Bs, Items, Delivered, AllFit, Holds, PackFrom, IsInit, Step, Guard, ReceiverInv;
    RunInv(j, run, i);
    assert ProcInv(j, 0, run[i][0].p, true);
    if !run[i][0].p.pc.Failed? {
      if !run[i][0].p.pc.Done? {
        SenderCanStep(j, run[i]);
        assert false;
      }
      ProgressFrom(j, run[i], 1);
    }
  }
}
