/** Every run of the Mooncake chain is finite, with a bound known before it starts. */
module MooncakeTermination {
  import opened Buckets
  import opened Mooncake
  import opened MooncakeInvariant
  import opened MooncakeTheorems

  /** Steps a receiver has before it is done with the bucket it works on, beyond its items. */
  function Position(pc: Pc): int {
    match pc
    case WaitOwn(_) => 5
    case Copy(_) => 4
    case Forward(_) => 3
    case Yielding(_, k) => 2 - k
    case Mark(info) => 1 - |info.meta|
    case _ => 0
  }

  /** Items of the buckets from c on. */
  function ItemsLeft(j: Job, c: nat): int
    requires c <= |Bs(j)|
  {
    |Delivered(Bs(j))| - |Delivered(Bs(j)[..c])|
  }

  /** Steps one rank still has before it. */
  function Remaining(j: Job, r: nat, p: Process): int {
    if r == 0 then
      match p.pc
      case Filling(_, i, _, _, flushed) => 3 * (|j.ws| - i) + (if flushed then 1 else 3)
      case WaitSlot(i) => 3 * (|j.ws| - i) + 2
      case FinalWait => 1
      case _ => 0
    else if p.idx <= |Bs(j)| then
      6 * (|Bs(j)| - p.taken) + ItemsLeft(j, p.idx) + Position(p.pc)
    else 0
  }

  function Total(j: Job, s: System, r: nat): int
    requires r <= |s|
  {
    if r == 0 then 0 else Total(j, s, r - 1) + Remaining(j, r - 1, s[r - 1].p)
  }

  lemma NextItems(j: Job, c: nat)
    requires c < |Bs(j)|
    ensures ItemsLeft(j, c) == ItemsLeft(j, c + 1) + |MetaOf(Bs(j)[c])|
    ensures ItemsLeft(j, c + 1) >= 0
  {
    DeliveredNext(Bs(j), c);
    DeliveredPrefix(Bs(j), c, 0);
    BucketRoundTrip(Bs(j)[c], Bytes(Bs(j)[c]));
    hide Bytes, MetaOf, Items, Delivered, Bs;
  }

  lemma AllItems(j: Job)
    ensures ItemsLeft(j, |Bs(j)|) == 0 && ItemsLeft(j, 0) == |Delivered(Bs(j))|
  {
    assert Bs(j)[..|Bs(j)|] == Bs(j) && Bs(j)[..0] == [];
  }

  lemma RemainingNat(j: Job, r: nat, p: Process, hasNext: bool)
    requires ProcInv(j, r, p, hasNext)
    ensures Remaining(j, r, p) >= 0
  {
    if r == 0 {
      hide Bytes, MetaOf, Bs, Put, AllFit, PackFrom, ItemsLeft;
    } else {
      CountsOf(j, p, hasNext);
      AllItems(j);
      if p.idx < |Bs(j)| {
        NextItems(j, p.idx);
      }
      hide Bytes, MetaOf, Bs, AllFit, ItemsLeft;
    }
  }

  lemma {:induction false} TotalNat(j: Job, s: System, r: nat)
    requires Inv(j, s) && r <= |s|
    ensures Total(j, s, r) >= 0
  {
    hide ProcInv, LinkAt, LastRank;
    if r > 0 {
      TotalNat(j, s, r - 1);
      assert ProcInv(j, r - 1, s[r - 1].p, r - 1 + 1 < |s|);
      RemainingNat(j, r - 1, s[r - 1].p, r - 1 + 1 < |s|);
    }
  }

  lemma {:induction false} TotalDrops(j: Job, s: System, s': System, q: nat, r: nat)
    requires |s'| == |s| && q < |s| && r <= |s|
    requires forall i: nat :: i < |s| && i != q ==> Remaining(j, i, s'[i].p) == Remaining(j, i, s[i].p)
    requires Remaining(j, q, s'[q].p) < Remaining(j, q, s[q].p)
    ensures Total(j, s', r) <= Total(j, s, r)
    ensures q < r ==> Total(j, s', r) < Total(j, s, r)
  {
    hide Remaining;
    if r > 0 {
      TotalDrops(j, s, s', q, r - 1);
    }
  }

  lemma SenderDrops(j: Job, s: System)
    requires Inv(j, s) && Guard(j, s, 0)
    ensures Remaining(j, 0, Apply(j, s, 0)[0].p) < Remaining(j, 0, s[0].p)
  {
    hide Bytes, MetaOf, Bs, Put, AllFit, PackFrom, Write, ReceiverInv, LinkAt, LastRank, ItemsLeft;
    assert ProcInv(j, 0, s[0].p, true);
    SenderPcs(j, s[0].p);
  }

  lemma ReceiverDrops(j: Job, s: System, r: nat)
    requires Inv(j, s) && 0 < r < |s| && Guard(j, s, r)
    ensures Remaining(j, r, Apply(j, s, r)[r].p) < Remaining(j, r, s[r].p)
  {
    hide Inv, Bs, Bytes, MetaOf, Write, InBounds, Read, ItemsLeft, Link, LastRank, ReceiverInv, AllFit;
    ReceiverPcs(j, s, r);
    ReceiverFacts(j, s, r);
    var p := s[r].p;
    CountsOf(j, p, r + 1 < |s|);
    BucketInHand(j, p, r + 1 < |s|);
    if p.idx < |Bs(j)| {
      NextItems(j, p.idx);
    }
  }

  lemma BucketInHand(j: Job, p: Process, hasNext: bool)
    requires ReceiverInv(j, p, hasNext)
    ensures p.pc.Yielding? || p.pc.Mark? ==> p.idx < |Bs(j)| && p.pc.info.meta == MetaOf(Bs(j)[p.idx])
    ensures p.pc.Yielding? ==> p.pc.k <= |p.pc.info.meta|
  {
    hide Bs, Bytes, AllFit, MetaOf;
    match p.pc {
      case Yielding(info, k) => assert IsInfo(j, info, p.idx);
      case Mark(info) => assert IsInfo(j, info, p.idx);
      case _ =>
    }
  }

  /** Nobody's share changes but that of the rank that steps. */
  lemma OthersKeep(j: Job, s: System, r: nat, i: nat)
    requires r < |s| && Guard(j, s, r) && i < |s| && i != r
    ensures |Apply(j, s, r)| == |s| && Apply(j, s, r)[i].p == s[i].p.(bufs := Apply(j, s, r)[i].p.bufs)
  {
    hide Write, Put, InBounds, Read;
  }

  lemma SameRemaining(j: Job, r: nat, p: Process, b: Two)
    ensures Remaining(j, r, p.(bufs := b)) == Remaining(j, r, p)
  {
    hide Bs, ItemsLeft;
  }

  lemma RankDrops(j: Job, s: System, r: nat)
    requires Inv(j, s) && r < |s| && Guard(j, s, r)
    ensures |Apply(j, s, r)| == |s| && Total(j, Apply(j, s, r), |s|) < Total(j, s, |s|)
  {
    hide Inv, Guard, Apply, Remaining, Total;
    var s' := Apply(j, s, r);
    forall i: nat | i < |s| && i != r
      ensures |s'| == |s| && Remaining(j, i, s'[i].p) == Remaining(j, i, s[i].p)
    {
      OthersKeep(j, s, r, i);
      SameRemaining(j, i, s[i].p, s'[i].p.bufs);
    }
    SizeKept(j, s, r);
    if r == 0 {
      SenderDrops(j, s);
    } else {
      ReceiverDrops(j, s, r);
    }
    TotalDrops(j, s, s', r, |s|);
  }

  lemma SizeKept(j: Job, s: System, r: nat)
    requires r < |s| && Guard(j, s, r)
    ensures |Apply(j, s, r)| == |s|
  {
    hide Write, Put, InBounds, Read;
  }

  /** Every step of every rank strictly decreases the work the system has before it. */
  lemma StepDrops(j: Job, s: System, s': System)
    requires Inv(j, s) && Step(j, s, s')
    ensures |s'| == |s| && Total(j, s', |s|) < Total(j, s, |s|)
  {
    hide Inv, Guard, Apply, Total;
    var r: nat :| r < |s| && Guard(j, s, r) && s' == Apply(j, s, r);
    RankDrops(j, s, r);
  }

  /** No run is longer than the work the first state has before it, whatever the interleaving. */
  lemma {:induction false} RunsAreBounded(j: Job, run: seq<System>, i: nat)
    requires IsRun(j, run) && Recognisable(j) && i < |run|
    ensures |run[i]| == |run[0]| && i + Total(j, run[i], |run[i]|) <= Total(j, run[0], |run[0]|)
    ensures i <= Total(j, run[0], |run[0]|)
  {
    hide Inv, Step, IsInit, Total, Recognisable;
    RunInv(j, run, i);
    TotalNat(j, run[i], |run[i]|);
    if i > 0 {
      RunsAreBounded(j, run, i - 1);
      RunInv(j, run, i - 1);
      StepDrops(j, run[i - 1], run[i]);
    }
  }

  /** The bound in closed form: linear in the weights for the sender, and in buckets and items
      for each of the |s| - 1 receivers. */
  lemma {:induction false} InitialWork(j: Job, s: System, r: nat)
    requires IsInit(j, s) && 1 <= r <= |s|
    ensures Total(j, s, r) == 3 * |j.ws| + 3 + (r - 1) * (6 * |Bs(j)| + |Delivered(Bs(j))|)
  {
    AllItems(j);
    hide Bs, Delivered, ItemsLeft;
    if r == 1 {
      assert Total(j, s, 0) == 0;
    } else {
      InitialWork(j, s, r - 1);
      assert Remaining(j, r - 1, s[r - 1].p) == 6 * |Bs(j)| + |Delivered(Bs(j))|;
    }
  }

  /** Polling always ends: with every weight small enough and halves that hold the word, a run
      that cannot be extended has ended with every rank returned, every rank's copies the sender's
      buckets and the last rank holding all items; and no run exceeds the bound. */
  lemma EveryRunCompletes(j: Job, run: seq<System>)
    requires IsRun(j, run) && Recognisable(j) && AllFit(j.ws, j.B) && j.B >= 4
    ensures |run[0]| >= 2 && |run[|run| - 1]| == |run[0]|
    ensures var s := run[|run| - 1];
            || CanStep(j, s)
            || (&& (forall r: nat :: r < |s| ==> s[r].p.pc.Done?)
                && (forall r: nat :: 0 < r < |s| ==> CopiedAll(j, s[r].p))
                && s[|s| - 1].p.yielded == Delivered(Pack(j.ws, j.B)))
    ensures |run| <= 3 * |j.ws| + 4 + (|run[0]| - 1) * (6 * |Pack(j.ws, j.B)| + |Delivered(Pack(j.ws, j.B))|)
  {
    assert |run[0]| >= 2;
    hide Step, Guard, Apply, CanStep, Total, IsInit, Recognisable, AllFit;
    var last := |run| - 1;
    RunsAreBounded(j, run, last);
    InitialWork(j, run[0], |run[0]|);
    if !CanStep(j, run[last]) {
      NoDeadlock(j, run, last);
      forall r: nat | 0 < r < |run[last]| ensures CopiedAll(j, run[last][r].p) {
        CopiesAreBuckets(j, run, last, r);
      }
      LastRankDelivers(j, run, last);
    }
  }

  predicate CopiedAll(j: Job, p: Process) {
    var bs := Pack(j.ws, j.B);
    |p.copies| == |bs| && forall k :: 0 <= k < |bs| ==> p.copies[k] == Bytes(bs[k])
  }
}
