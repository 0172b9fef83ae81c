/** Every run of the NIXL chain is finite, with a bound known before it starts. */
module NixlTermination {
  import opened Buckets
  import opened Options
  import opened Nixl
  import opened NixlInvariant
  import opened NixlTheorems

  function Rank(pc: Pc): nat {
    match pc
    case FirstRead(_) => 8
    case Yielding(_, _, _) => 7
    case AwaitAck(_) => 6
    case AwaitRead(_) => 5
    case Top(_) => 4
    case YieldingLast(_, _) => 3
    case AwaitLast => 2
    case Want(_) => 1
    case _ => 0
  }

  /** Program steps and landings one rank still has before it. */
  function Remaining(j: Job, r: nat, p: Process): int {
    if r == 0 then
      match p.pc
      case Filling(_, i, _, _, flushed) => 3 * (|j.ws| - i) + 3 + (if flushed then 0 else 1)
      case FinalWait => 1
      case _ => 0
    else
      10 * (|Bs(j)| - p.taken) + (|Delivered(Bs(j))| - |p.yielded|) + Rank(p.pc) + (if p.op.Some? then 1 else 0)
  }

  function Total(j: Job, s: System, r: nat): int
    requires r <= |s|
  {
    if r == 0 then 0 else Total(j, s, r - 1) + Remaining(j, r - 1, s[r - 1].p)
  }

  lemma RemainingNat(j: Job, r: nat, p: Process, hasNext: bool)
    requires ProcInv(j, r, p, hasNext)
    ensures Remaining(j, r, p) >= 0
  {
    if r > 0 {
      YieldedPrefix(j, r, p, hasNext);
    }
    hide Bytes, MetaOf, Bs, Items, Delivered, Put, AllFit, PackFrom, Holds;
  }

  lemma {:induction false} TotalNat(j: Job, s: System, r: nat)
    requires Inv(j, s) && r <= |s|
    ensures Total(j, s, r) >= 0
  {
    hide ProcInv, LinkAt;
    if r > 0 {
      TotalNat(j, s, r - 1);
      RemainingNat(j, r - 1, s[r - 1].p, r - 1 + 1 < |s|);
    }
  }

  lemma {:induction false} TotalDrops(j: Job, s: System, s': System, q: nat, r: nat)
    requires |s'| == |s| && q < |s| && r <= |s|
    requires forall i: nat :: i < |s| && i != q ==> s'[i].p == s[i].p
    requires Remaining(j, q, s'[q].p) < Remaining(j, q, s[q].p)
    ensures Total(j, s', r) <= Total(j, s, r)
    ensures q < r ==> Total(j, s', r) < Total(j, s, r)
  {
    hide Remaining;
    if r > 0 {
      TotalDrops(j, s, s', q, r - 1);
    }
  }

  lemma SenderDrops(j: Job, s: System)
    requires Inv(j, s) && Guard(j, s, 0, Program)
    ensures var s' := Apply(j, s, 0, Program);
            && |s'| == |s| && (forall i: nat :: 0 < i < |s| ==> s'[i].p == s[i].p)
            && Remaining(j, 0, s'[0].p) < Remaining(j, 0, s[0].p)
  {
    hide Bytes, MetaOf, Bs, Items, Delivered, Put, AllFit, PackFrom, Holds, Write, ReceiverInv, LinkAt;
    assert ProcInv(j, 0, s[0].p, true);
    AckMatchesIfReady(j, s, 0);
  }

  lemma AckMatchesIfReady(j: Job, s: System, r: nat)
    requires Inv(j, s) && r < |s|
    ensures AckReady(s[r]) ==> Acked(s[r]).p == s[r].p.(awaiting := None)
  {
    if AckReady(s[r]) {
      AckMatches(j, s, r);
    }
  }

  lemma ReceiverDrops(j: Job, s: System, r: nat)
    requires Inv(j, s) && 0 < r < |s| && Guard(j, s, r, Program)
    ensures var s' := Apply(j, s, r, Program);
            && |s'| == |s| && (forall i: nat :: i < |s| && i != r ==> s'[i].p == s[i].p)
            && Remaining(j, r, s'[r].p) < Remaining(j, r, s[r].p)
  {
    hide Bs, Delivered, Inv, ReceiverInv, InBounds, Read, SenderStep, Take, Yielded, Guard, Apply, Remaining, After;
    ReceiverPc(j, s, r);
    AckMatchesIfReady(j, s, r);
    if s[r].p.pc.Top? {
      TopDrops(j, s, r);
    } else {
      ApplyIsAfter(j, s, r);
      AfterDrops(j, r, s[r]);
    }
  }

  lemma ReceiverPc(j: Job, s: System, r: nat)
    requires Inv(j, s) && 0 < r < |s|
    ensures !s[r].p.pc.Filling? && !s[r].p.pc.FinalWait? && !s[r].p.pc.Failed?
  {
    hide SenderInv, ReceiverInv, LinkAt;
    assert ProcInv(j, r, s[r].p, r + 1 < |s|);
    NotAReceiverPc(j, r, s[r].p, r + 1 < |s|);
  }

  lemma TopDrops(j: Job, s: System, r: nat)
    requires 0 < r < |s| && s[r].p.pc.Top? && Guard(j, s, r, Program)
    ensures var s' := Apply(j, s, r, Program);
            && |s'| == |s| && (forall i: nat :: i < |s| && i != r ==> s'[i].p == s[i].p)
            && Remaining(j, r, s'[r].p) < Remaining(j, r, s[r].p)
  {
    hide Bs, Delivered;
  }

  lemma ApplyIsAfter(j: Job, s: System, r: nat)
    requires 0 < r < |s| && Guard(j, s, r, Program)
    requires !s[r].p.pc.Top? && !s[r].p.pc.Filling? && !s[r].p.pc.FinalWait?
    requires AckReady(s[r]) ==> Acked(s[r]).p == s[r].p.(awaiting := None)
    ensures !s[r].p.pc.Done? && !s[r].p.pc.Failed?
    ensures s[r].p.pc.First? || s[r].p.pc.Want? ==> s[r].inbox != []
    ensures s[r].p.pc.Yielding? && s[r].p.pc.k < |s[r].p.pc.m.meta| ==>
              InBounds(s[r].p.pc.m.meta[s[r].p.pc.k].1, s[r].p.bufs.Get(s[r].p.send))
    ensures s[r].p.pc.YieldingLast? && s[r].p.pc.k < |s[r].p.pc.m.meta| ==>
              InBounds(s[r].p.pc.m.meta[s[r].p.pc.k].1, s[r].p.bufs.Get(s[r].p.send))
    ensures var s' := Apply(j, s, r, Program);
            && |s'| == |s| && (forall i: nat :: i < |s| && i != r ==> s'[i].p == s[i].p)
            && s'[r].p == After(s[r])
  {
    hide InBounds, Read, Take, Yielded, SenderStep;
  }

  lemma AfterDrops(j: Job, r: nat, n: Node)
    requires r > 0 && !n.p.pc.Top? && !n.p.pc.Filling? && !n.p.pc.FinalWait? && !n.p.pc.Failed? && !n.p.pc.Done?
    requires n.p.pc.First? || n.p.pc.Want? ==> n.inbox != []
    requires n.p.pc.Yielding? && n.p.pc.k < |n.p.pc.m.meta| ==> InBounds(n.p.pc.m.meta[n.p.pc.k].1, n.p.bufs.Get(n.p.send))
    requires n.p.pc.YieldingLast? && n.p.pc.k < |n.p.pc.m.meta| ==> InBounds(n.p.pc.m.meta[n.p.pc.k].1, n.p.bufs.Get(n.p.send))
    ensures Remaining(j, r, After(n)) < Remaining(j, r, n.p)
  {
    hide Bs, Delivered, InBounds, Read;
  }

  lemma StepDrops(j: Job, s: System, s': System)
    requires Inv(j, s) && Step(j, s, s')
    ensures |s'| == |s| && Total(j, s', |s|) < Total(j, s, |s|)
  {
    hide Inv, Guard;
    var r: nat, a :| r < |s| && Guard(j, s, r, a) && s' == Apply(j, s, r, a);
    if a.Transfer? {
      LandingDrops(j, s, r);
    } else {
      hide Apply, Remaining;
      if r == 0 {
        SenderDrops(j, s);
      } else {
        ReceiverDrops(j, s, r);
      }
    }
    TotalDrops(j, s, s', r, |s|);
  }

  lemma LandingDrops(j: Job, s: System, r: nat)
    requires r < |s| && Guard(j, s, r, Transfer)
    ensures var s' := Apply(j, s, r, Transfer);
            && |s'| == |s| && (forall i: nat :: i < |s| && i != r ==> s'[i].p == s[i].p)
            && Remaining(j, r, s'[r].p) < Remaining(j, r, s[r].p)
  {
    hide Bs, Delivered;
  }

  /** No run is longer than the work the first state has before it, whatever the interleaving. */
  lemma {:induction false} RunsAreBounded(j: Job, run: seq<System>, i: nat)
    requires IsRun(j, run) && i < |run|
    ensures |run[i]| == |run[0]| && i + Total(j, run[i], |run[i]|) <= Total(j, run[0], |run[0]|)
    ensures i <= Total(j, run[0], |run[0]|)
  {
    hide Inv, Step, IsInit, Total;
    RunInv(j, run, i);
    TotalNat(j, run[i], |run[i]|);
    if i > 0 {
      RunsAreBounded(j, run, i - 1);
      RunInv(j, run, i - 1);
      StepDrops(j, run[i - 1], run[i]);
    }
  }

  /** The bound in closed form: linear in the weights for the sender, and in buckets and items
      for each of the |s| - 1 receivers. */
  lemma {:induction false} InitialWork(j: Job, s: System, r: nat)
    requires IsInit(j, s) && 1 <= r <= |s|
    ensures Total(j, s, r) == 3 * |j.ws| + 4 + (r - 1) * (10 * |Bs(j)| + |Delivered(Bs(j))|)
  {
    hide Bs, Delivered;
    if r == 1 {
      assert Total(j, s, 0) == 0;
    } else {
      InitialWork(j, s, r - 1);
      assert Remaining(j, r - 1, s[r - 1].p) == 10 * |Bs(j)| + |Delivered(Bs(j))|;
    }
  }

  /** Main result: with every weight small enough, a run that cannot be extended has ended with
      every rank returned and every rollout rank holding all items; and no run exceeds the bound. */
  lemma EveryRunCompletes(j: Job, run: seq<System>)
    requires IsRun(j, run) && AllFit(j.ws, j.B)
    ensures var s := run[|run| - 1];
            || CanStep(j, s)
            || (&& (forall r: nat :: r < |s| ==> s[r].p.pc.Done?)
                && (forall r: nat :: 0 < r < |s| ==> s[r].p.yielded == Delivered(Pack(j.ws, j.B))))
    ensures |run| <= 3 * |j.ws| + 5 + (|run[0]| - 1) * (10 * |Pack(j.ws, j.B)| + |Delivered(Pack(j.ws, j.B))|)
  {
    assert |run[0]| >= 2;
    hide Step, Guard, Apply, CanStep, Total, IsInit;
    var last := |run| - 1;
    if !CanStep(j, run[last]) {
      NoDeadlock(j, run, last);
      forall r: nat | 0 < r < |run[last]| ensures run[last][r].p.yielded == Delivered(Pack(j.ws, j.B)) {
        ChainDelivers(j, run, last, r);
      }
    }
    RunsAreBounded(j, run, last);
    InitialWork(j, run[0], |run[0]|);
  }
}
