/** The Mooncake guarantees are exact: a job with a bucket that is not recognisable has, for every
    number of ranks, a run that overwrites data not yet copied; and a rank that is not the last
    hands out the magic word instead of data in some run of every job where the word shows. */
module MooncakeExact {
  import opened Buckets
  import opened Mooncake
  import opened MooncakeInvariant
  import opened MooncakeTheorems
  import opened MooncakeTermination

  // ---- building runs -----------------------------------------------------------------------

  ghost predicate Reachable(j: Job, s: System) {
    exists run: seq<System> :: IsRun(j, run) && run[|run| - 1] == s
  }

  lemma RunTo(j: Job, s: System) returns (run: seq<System>)
    requires Reachable(j, s)
    ensures IsRun(j, run) && run != [] && run[|run| - 1] == s
  {
    hide IsInit, Step;
    run :| IsRun(j, run) && run[|run| - 1] == s;
  }

  lemma ReachStep(j: Job, s: System, r: nat)
    requires Reachable(j, s) && r < |s| && Guard(j, s, r)
    ensures Reachable(j, Apply(j, s, r))
  {
    hide IsInit, Guard, Apply;
    var run: seq<System> :| IsRun(j, run) && run[|run| - 1] == s;
    var longer := run + [Apply(j, s, r)];
    assert Step(j, s, Apply(j, s, r));
    hide Step;
    forall i | 0 <= i < |longer| - 1 ensures Step(j, longer[i], longer[i + 1]) {
      if i < |run| - 1 {
        assert longer[i] == run[i] && longer[i + 1] == run[i + 1];
      }
    }
    assert longer[0] == run[0];
    assert IsRun(j, longer);
  }

  /** Reached without taking data for an acknowledgement. */
  ghost predicate Good(j: Job, s: System) {
    Reachable(j, s) && Inv(j, s)
  }

  /** Every bucket before m that is reused is distinguishable. */
  ghost predicate Clear(j: Job, m: nat) {
    forall k: nat :: k < m ==> Distinguishable(j, k)
  }

  /** No rank has announced more than the sender. */
  lemma {:induction false} SentFalls(j: Job, s: System, r: nat)
    requires Inv(j, s) && 0 < r < |s|
    ensures s[r].p.taken <= s[0].p.sent
    ensures r + 1 < |s| ==> s[r].p.sent <= s[r].p.taken
    ensures s[r].p.pc.WaitOwn? ==> s[r].p.sent < s[r].p.taken
  {
    hide Inv, Link, ReceiverInv, LastRank;
    ReceiverFacts(j, s, r);
    BuffersOf(j, s[r - 1].p, s[r].p, s[r].inbox);
    if r > 1 {
      SentFalls(j, s, r - 1);
    }
    ReceiverSent(j, s[r].p, r + 1 < |s|);
  }

  lemma ReceiverSent(j: Job, p: Process, hasNext: bool)
    requires ReceiverInv(j, p, hasNext)
    ensures hasNext ==> p.sent <= p.taken
    ensures p.pc.WaitOwn? ==> p.sent < p.taken
  {
    CountsOf(j, p, hasNext);
    hide Bs, Bytes, AllFit, MetaOf, IsInfo;
  }

  /** What a step of rank q changes of another rank i: nothing, but for the mark on its predecessor. */
  predicate Kept(s: System, s': System, i: nat) {
    && i < |s| == |s'|
    && s'[i].p == s[i].p.(bufs := s'[i].p.bufs)
    && forall b :: Marked(s[i].p.bufs.Get(b)) ==> Marked(s'[i].p.bufs.Get(b))
  }

  lemma KeptTwice(s: System, s': System, t: System, i: nat)
    requires Kept(s, s', i) && Kept(s', t, i)
    ensures Kept(s, t, i)
  {
    hide Marked;
  }

  lemma LaterStepKeeps(j: Job, s: System, q: nat, i: nat)
    requires q < |s| && Guard(j, s, q) && i < q
    ensures Kept(s, Apply(j, s, q), i)
  {
    var s' := Apply(j, s, q);
    hide Put, InBounds, Read;
    if s[q].p.pc.Mark? && i + 1 == q {
      var p, h := s[i].p, s[q].p.pc.info.ptr;
      assert Write(p.bufs.Get(h), 0, MAGIC)[..4] == MAGIC;
      assert s'[i].p.bufs == p.bufs.Set(h, Write(p.bufs.Get(h), 0, MAGIC));
    } else {
      assert s'[i].p == s[i].p;
    }
  }

  /** A step of a receiver, while all buckets it may be waiting for are distinguishable. */
  lemma ReceiverStep(j: Job, s: System, q: nat, m: nat)
    requires Good(j, s) && 0 < q < |s| && Guard(j, s, q) && Clear(j, m) && s[0].p.sent <= m + 2
    ensures var s' := Apply(j, s, q);
            && |s'| == |s| && Good(j, s') && Total(j, s', |s|) < Total(j, s, |s|) && Total(j, s', |s|) >= 0
            && forall i: nat :: i < q ==> Kept(s, s', i)
  {
    hide Reachable, Inv, Guard, Apply, Total, Distinguishable, Kept;
    ReachStep(j, s, q);
    SentFalls(j, s, q);
    ReceiverPcs(j, s, q);
    MarksAreTrue(j, s, q);
    RankPreserves(j, s, q);
    RankDrops(j, s, q);
    TotalNat(j, Apply(j, s, q), |s|);
    forall i: nat | i < q ensures Kept(s, Apply(j, s, q), i) {
      LaterStepKeeps(j, s, q, i);
    }
  }

  /** The ranks after r can go on by themselves until rank r + 1 is done with bucket k. */
  lemma {:induction false} SuccessorFinishes(j: Job, s: System, r: nat, k: nat, m: nat) returns (t: System)
    requires Good(j, s) && j.B >= 4 && r + 1 < |s| && k < s[r].p.sent
    requires Clear(j, m) && s[0].p.sent <= m + 2
    ensures Good(j, t) && |t| == |s| && t[r + 1].p.idx > k
    ensures forall i: nat :: i <= r ==> Kept(s, t, i)
    decreases Total(j, s, |s|)
  {
    hide Reachable, Inv, Guard, Apply, Total, Clear, Marked;
    if s[r + 1].p.idx > k {
      t := s;
    } else {
      SuccessorCanStep(j, s, r, k);
      var q: nat :| r < q < |s| && Guard(j, s, q);
      ReceiverStep(j, s, q, m);
      var s' := Apply(j, s, q);
      assert Kept(s, s', r) && Kept(s, s', 0);
      t := SuccessorFinishes(j, s', r, k, m);
      forall i: nat | i <= r ensures Kept(s, t, i) {
        KeptTwice(s, s', t, i);
      }
    }
  }

  // ---- the sender alone ----------------------------------------------------------------------

  /** The open bucket is a prefix of the one that will be published. */
  lemma {:induction false} OpenIsPrefix(cur: seq<Weight>, rest: seq<Weight>, B: nat)
    ensures cur <= PackFrom(cur, rest, B)[0]
    decreases |rest|
  {
    if rest != [] && |Bytes(cur)| + |rest[0].1| <= B {
      OpenIsPrefix(cur + [rest[0]], rest[1..], B);
    }
  }

  lemma OpenBytes(j: Job, p: Process)
    requires SenderInv(j, p) && p.pc.Filling? && p.sent < |Bs(j)|
    requires !(p.pc.flushed && |j.ws[p.pc.i].1| > j.B)
    ensures p.pc.first <= p.pc.i <= |j.ws|
    ensures Bytes(j.ws[p.pc.first..p.pc.i]) <= Bytes(Bs(j)[p.sent])
  {
    OpenIsPrefix(j.ws[p.pc.first..p.pc.i], j.ws[p.pc.i..], j.B);
    assert Bs(j)[p.sent..][0] == Bs(j)[p.sent];
    PrefixBytes(j.ws[p.pc.first..p.pc.i], Bs(j)[p.sent]);
  }

  /** Writing part of a bucket that looks marked over a marked half leaves it marked. */
  lemma StaysMarked(buf: seq<Byte>, done: seq<Byte>, x: seq<Byte>, full: seq<Byte>)
    requires Marked(buf) && done <= buf && |done| + |x| <= |buf| && done + x <= full && LooksMarked(full)
    ensures Marked(Write(buf, |done|, x))
  {
    var w, y := Write(buf, |done|, x), done + x;
    forall i | 0 <= i < 4 ensures w[i] == MAGIC[i] {
      assert buf[..4][i] == MAGIC[i];
      if i < |y| {
        assert w[i] == y[i] == full[i] == MAGIC[i];
      } else {
        assert w[i] == buf[i];
      }
    }
    assert w[..4] == MAGIC;
  }

  /** How far a filling step of the sender gets: the other half is left alone, and a marked half
      stays marked while it takes a bucket that looks marked. */
  predicate Filled(j: Job, s: System, t: System) {
    && |t| == |s| >= 2
    && (forall i: nat :: 0 < i < |s| ==> t[i].p == s[i].p)
    && |Bs(j)| > s[0].p.sent
    && t[0].p.bufs.Get(!Odd(s[0].p.sent)) == s[0].p.bufs.Get(!Odd(s[0].p.sent))
    && (LooksMarked(Bytes(Bs(j)[s[0].p.sent])) && Marked(s[0].p.bufs.Get(Odd(s[0].p.sent))) ==>
          Marked(t[0].p.bufs.Get(Odd(s[0].p.sent))))
  }

  /** The sender is filling a bucket that is not the final one. */
  predicate Opening(j: Job, s: System, m: nat) {
    |s| >= 2 && s[0].p.pc.Filling? && s[0].p.sent == m && m + 1 < |Bs(j)|
  }

  lemma SenderState(j: Job, s: System)
    requires Inv(j, s)
    ensures SenderInv(j, s[0].p) && Link(j, s[0].p, s[1].p, s[1].inbox) && Buffers(j, s[0].p, s[1].p.idx) && Sized(j, s[0].p)
  {
    hide SenderInv, Link, LastRank, Buffers;
    assert ProcInv(j, 0, s[0].p, true);
    LinkFacts(j, s, 0);
    BuffersOf(j, s[0].p, s[1].p, s[1].inbox);
  }

  /** In a bucket that is not the final one no weight is oversized. */
  lemma NotOversized(j: Job, p: Process)
    requires SenderInv(j, p) && ((p.pc.Filling? && p.sent + 1 < |Bs(j)|) || (p.pc.WaitSlot? && p.sent < |Bs(j)|))
    ensures p.pc.i < |j.ws| && |j.ws[p.pc.i].1| <= j.B
  {
    if p.pc.Filling? {
      assert Bs(j)[p.sent..] == PackFrom(j.ws[p.pc.first..p.pc.i], j.ws[p.pc.i..], j.B);
      hide Bs;
    }
  }

  /** The sender's program step, whatever it is, while it fills. */
  lemma SenderMoves(j: Job, s: System)
    requires Good(j, s) && Opening(j, s, s[0].p.sent)
    ensures Guard(j, s, 0) && Good(j, Apply(j, s, 0)) && |Apply(j, s, 0)| == |s|
    ensures forall i: nat :: 0 < i < |s| ==> Apply(j, s, 0)[i].p == s[i].p
  {
    hide Inv, Bytes, Bs, Link, Buffers, Put, MetaOf, Reachable, SenderInv, Write;
    SenderState(j, s);
    SenderIndex(j, s[0].p);
    assert Guard(j, s, 0);
    assert TrueMark(j, s, 0);
    hide TrueMark, Sized, Guard, Apply;
    ReachStep(j, s, 0);
    RankPreserves(j, s, 0);
    SizeKept(j, s, 0);
    forall i: nat | 0 < i < |s| ensures Apply(j, s, 0)[i].p == s[i].p {
      FillOthers(j, s, i);
    }
  }

  lemma FillOthers(j: Job, s: System, i: nat)
    requires |s| >= 2 && s[0].p.pc.Filling? && Guard(j, s, 0) && 0 < i < |s|
    ensures |Apply(j, s, 0)| == |s| && Apply(j, s, 0)[i].p == s[i].p
  {
    hide Write, Put;
  }

  /** What a fill writes: the next bytes of the bucket. */
  lemma FillWrites(j: Job, s: System)
    requires Inv(j, s) && Opening(j, s, s[0].p.sent) && Guard(j, s, 0) && Inv(j, Apply(j, s, 0))
    requires s[0].p.pc.i < |j.ws| && s[0].p.pc.offset + |j.ws[s[0].p.pc.i].1| <= j.B
    ensures var p, s' := s[0].p, Apply(j, s, 0);
            var buf, x := p.bufs.Get(Odd(p.sent)), j.ws[p.pc.i].1;
            && p.pc.first <= p.pc.i && p.pc.offset == |Bytes(j.ws[p.pc.first..p.pc.i])|
            && Bytes(j.ws[p.pc.first..p.pc.i]) <= buf && p.pc.offset + |x| <= |buf|
            && Bytes(j.ws[p.pc.first..p.pc.i]) + x <= Bytes(Bs(j)[p.sent])
            && s'[0].p.bufs == p.bufs.Set(Odd(p.sent), Write(buf, p.pc.offset, x))
            && s'[0].p.sent == p.sent && s'[0].p.pc.Filling? && s'[0].p.pc.i == p.pc.i + 1 && s'[0].p.pc.first == p.pc.first
            && !s'[0].p.pc.flushed
  {
    hide Inv, Apply, Guard, SenderInv, Link, Bytes, Bs, MetaOf, Put, Write;
    SenderState(j, s);
    SenderState(j, Apply(j, s, 0));
    FillShape(j, s);
    FillWritten(j, s[0].p);
    OpenBytes(j, Apply(j, s, 0)[0].p);
    OpenInHalf(j, s[0].p, s[1].p.idx);
    hide Buffers;
  }

  lemma OpenInHalf(j: Job, p: Process, G: nat)
    requires Buffers(j, p, G) && p.pc.Filling? && p.sent < |Bs(j)| && p.pc.first <= p.pc.i <= |j.ws|
    ensures Bytes(j.ws[p.pc.first..p.pc.i]) <= p.bufs.Get(Odd(p.sent)) && |p.bufs.Get(Odd(p.sent))| == j.B
  {
    hide Bytes, Bs, Content;
  }

  lemma FillShape(j: Job, s: System)
    requires |s| >= 2 && s[0].p.pc.Filling? && Guard(j, s, 0)
    requires s[0].p.pc.i < |j.ws| && s[0].p.pc.offset + |j.ws[s[0].p.pc.i].1| <= j.B
    ensures |Apply(j, s, 0)| == |s|
    ensures var p, p' := s[0].p, Apply(j, s, 0)[0].p;
            var buf, x := p.bufs.Get(Odd(p.sent)), j.ws[p.pc.i].1;
            && p.pc.offset + |x| <= |buf| && p'.bufs == p.bufs.Set(Odd(p.sent), Write(buf, p.pc.offset, x))
            && p'.sent == p.sent && p'.pc.Filling? && p'.pc.i == p.pc.i + 1 && p'.pc.first == p.pc.first && !p'.pc.flushed
  {
    hide Write, Put;
  }

  lemma FillWritten(j: Job, p: Process)
    requires SenderInv(j, p) && p.pc.Filling? && p.sent + 1 < |Bs(j)|
    requires p.pc.i < |j.ws| && p.pc.offset + |j.ws[p.pc.i].1| <= j.B
    ensures p.pc.first <= p.pc.i && p.pc.offset == |Bytes(j.ws[p.pc.first..p.pc.i])|
    ensures Bytes(j.ws[p.pc.first..p.pc.i + 1]) == Bytes(j.ws[p.pc.first..p.pc.i]) + j.ws[p.pc.i].1
  {
    FillFacts(j.ws, j.B, p.pc.first, p.pc.i);
    hide Bytes, Bs, PackFrom, MetaOf;
  }

  /** One step of the sender while the bucket is open. */
  lemma FillStep(j: Job, s: System) returns (t: System)
    requires Good(j, s) && Opening(j, s, s[0].p.sent)
    requires s[0].p.pc.i < |j.ws| && s[0].p.pc.offset + |j.ws[s[0].p.pc.i].1| <= j.B
    ensures Good(j, t) && Filled(j, s, t) && Opening(j, t, s[0].p.sent)
    ensures t[0].p.pc.i == s[0].p.pc.i + 1
  {
    SenderMoves(j, s);
    hide Inv, Reachable, Bytes, Bs, Guard, LooksMarked, Marked, Apply;
    t := Apply(j, s, 0);
    FillWrites(j, s);
    var p := s[0].p;
    if LooksMarked(Bytes(Bs(j)[p.sent])) && Marked(p.bufs.Get(Odd(p.sent))) {
      StaysMarked(p.bufs.Get(Odd(p.sent)), Bytes(j.ws[p.pc.first..p.pc.i]), j.ws[p.pc.i].1, Bytes(Bs(j)[p.sent]));
    }
  }

  /** The sender has published bucket m and polls for the half it needs next, but for the very first. */
  predicate Published(s: System, m: nat) {
    |s| >= 2 && s[0].p.sent == m + 1 && (if m == 0 then s[0].p.pc.Filling? else s[0].p.pc.WaitSlot?)
  }

  lemma PublishStep(j: Job, s: System) returns (t: System)
    requires Good(j, s) && Opening(j, s, s[0].p.sent)
    requires s[0].p.pc.i < |j.ws| ==> s[0].p.pc.offset + |j.ws[s[0].p.pc.i].1| > j.B
    ensures Good(j, t) && Filled(j, s, t) && Published(t, s[0].p.sent)
  {
    SenderMoves(j, s);
    hide Reachable, LooksMarked, Marked;
    SenderState(j, s);
    hide Inv;
    t := Apply(j, s, 0);
    NotOversized(j, s[0].p);
    FlushedFits(j, s[0].p);
    hide Bytes, Bs, Link, Put, MetaOf, PackFrom, SenderInv, Buffers;
  }

  lemma FlushedFits(j: Job, p: Process)
    requires SenderInv(j, p) && p.pc.Filling? && p.sent + 1 < |Bs(j)|
    ensures p.pc.flushed ==> p.pc.i < |j.ws| && p.pc.offset + |j.ws[p.pc.i].1| <= j.B
  {
    NotOversized(j, p);
    if p.pc.flushed {
      assert j.ws[p.pc.first..p.pc.i] == [];
      EmptyBytes();
    }
  }

  /** The sender fills its bucket and publishes it. */
  lemma {:induction false} FillsBucket(j: Job, s: System) returns (t: System)
    requires Good(j, s) && Opening(j, s, s[0].p.sent)
    ensures Good(j, t) && Filled(j, s, t) && Published(t, s[0].p.sent)
    decreases if s[0].p.pc.i <= |j.ws| then |j.ws| - s[0].p.pc.i else 0
  {
    hide Good, Marked, LooksMarked, Bytes, Bs;
    var pc := s[0].p.pc;
    if pc.i < |j.ws| && pc.offset + |j.ws[pc.i].1| <= j.B {
      var s' := FillStep(j, s);
      t := FillsBucket(j, s');
    } else {
      t := PublishStep(j, s);
    }
  }

  /** The sender's poll succeeds on a true mark. */
  lemma PassStep(j: Job, s: System) returns (t: System)
    requires Good(j, s) && |s| >= 2 && s[0].p.pc.WaitSlot? && s[0].p.sent + 1 < |Bs(j)|
    requires Marked(s[0].p.bufs.Get(Odd(s[0].p.sent))) && s[1].p.idx >= s[0].p.sent - 1
    ensures Good(j, t) && |t| == |s| && Opening(j, t, s[0].p.sent) && t[0].p.bufs == s[0].p.bufs
    ensures forall i: nat :: 0 < i < |s| ==> t[i] == s[i]
  {
    t := Apply(j, s, 0);
    ReachStep(j, s, 0);
    RankPreserves(j, s, 0);
    hide Inv, Bs, Reachable, Marked;
  }

  // ---- everything up to bucket m, one bucket after the other -------------------------------------

  /** Bucket m is about to be filled, and the first rollout rank is done with all before it. */
  ghost predicate Level(j: Job, s: System, m: nat) {
    && Good(j, s) && Opening(j, s, m) && s[1].p.idx == m
    && Marked(s[0].p.bufs.a) && Marked(s[0].p.bufs.b)
  }

  function Start(j: Job, n: nat): System
    requires n >= 2 && j.B >= 4
  {
    var half := MAGIC + seq(j.B - 4, i => 0);
    seq(n, r => Node(Process(Two(half, half), 0, 0, 0, [], [], if r == 0 then Filling(0, 0, 0, [], false) else Recv), []))
  }

  lemma StartGood(j: Job, n: nat)
    requires n >= 2 && j.B >= 4
    ensures |Start(j, n)| == n && Good(j, Start(j, n))
    ensures Marked(Start(j, n)[0].p.bufs.a) && Marked(Start(j, n)[0].p.bufs.b)
  {
    var s := Start(j, n);
    var half := s[0].p.bufs.a;
    assert |half| == j.B && half[..4] == MAGIC;
    assert IsInit(j, s);
    assert IsRun(j, [s]) && [s][|[s]| - 1] == s;
    InitInv(j, s);
  }

  /** From one level to the next, if the bucket between them is distinguishable. */
  lemma NextLevel(j: Job, s: System, m: nat, k: nat) returns (t: System)
    requires Level(j, s, m) && j.B >= 4 && m < k && k + 2 < |Bs(j)| && Clear(j, k)
    ensures |t| == |s| && Level(j, t, m + 1)
  {
    hide Good, Marked, LooksMarked, Bytes, Bs, Clear;
    var s1 := FillsBucket(j, s);
    var s2 := SuccessorFinishes(j, s1, 0, m, k);
    assert Kept(s1, s2, 0);
    DoneIsMarked(j, s2, m);
    OddNext(m);
    assert Marked(s2[0].p.bufs.a) && Marked(s2[0].p.bufs.b);
    if m == 0 {
      t := s2;
    } else {
      t := PassStep(j, s2);
    }
  }

  /** Where the successor is done with the last bucket announced, its half is marked. */
  lemma DoneIsMarked(j: Job, s: System, m: nat)
    requires Good(j, s) && |s| >= 2 && s[0].p.sent == m + 1 && s[1].p.idx > m
    ensures s[1].p.idx == m + 1 && Marked(s[0].p.bufs.Get(Odd(m)))
  {
    hide *;
    GoodInv(j, s);
    SenderState(j, s);
    BuffersOf(j, s[0].p, s[1].p, s[1].inbox);
    DoneContent(j, s[0].p, s[1].p.idx);
  }

  lemma GoodInv(j: Job, s: System)
    requires Good(j, s)
    ensures Inv(j, s)
  {
    hide Inv, Reachable;
  }

  lemma DoneContent(j: Job, p: Process, G: nat)
    requires Buffers(j, p, G) && 1 <= p.sent <= G
    ensures Marked(p.bufs.Get(Odd(p.sent - 1)))
  {
    hide Bytes, Bs, Overlay, Marked;
  }

  lemma {:induction false} Climb(j: Job, n: nat, m: nat, k: nat) returns (s: System)
    requires n >= 2 && j.B >= 4 && m <= k && k + 2 < |Bs(j)| && Clear(j, k)
    ensures |s| == n && Level(j, s, m)
  {
    hide Good, Clear, Bs, Marked;
    if m == 0 {
      StartGood(j, n);
      s := Start(j, n);
      assert Level(j, s, 0);
    } else {
      s := Climb(j, n, m - 1, k);
      s := NextLevel(j, s, m - 1, k);
    }
  }

  // ---- a bucket that looks marked ----------------------------------------------------------------

  /** Rank 1 has not copied bucket k yet. */
  predicate BeforeCopy(q: Process, k: nat) {
    q.idx < k || (q.idx == k && (q.pc.Recv? || q.pc.WaitOwn? || q.pc.Copy?))
  }

  lemma StaysBefore(j: Job, s: System, q: nat, k: nat)
    requires Inv(j, s) && 0 < q < |s| && Guard(j, s, q) && |s| >= 2 && BeforeCopy(s[1].p, k) && k < |Bs(j)| - 1
    requires !(s[1].p.idx == k && s[1].p.pc.Copy?)
    ensures |Apply(j, s, q)| == |s| && BeforeCopy(Apply(j, s, q)[1].p, k)
  {
    hide Inv, Bs, Apply, Guard;
    SizeKept(j, s, q);
    if q != 1 {
      OthersKeep(j, s, q, 1);
    } else {
      OwnStep(j, s, 1);
    }
  }

  /** The order in which a receiver goes through its program. */
  lemma OwnStep(j: Job, s: System, r: nat)
    requires Inv(j, s) && 0 < r < |s| && Guard(j, s, r)
    ensures |Apply(j, s, r)| == |s|
    ensures var p, p' := s[r].p, Apply(j, s, r)[r].p;
            if p.pc.Mark? then p'.idx == p.idx + 1 && (p.idx < |Bs(j)| - 1 ==> p'.pc.Recv?) else p'.idx == p.idx
    ensures var pc, pc' := s[r].p.pc, Apply(j, s, r)[r].p.pc;
            && (pc.Recv? ==> pc'.WaitOwn? || pc'.Copy?)
            && (pc.WaitOwn? ==> pc'.Copy?)
            && (pc.Copy? ==> pc'.Forward?)
            && (pc.Forward? ==> pc'.Yielding? && pc'.k == 0)
            && (pc.Yielding? && pc.k < |pc.info.meta| ==> pc'.Yielding? && pc'.k == pc.k + 1)
    ensures var p := s[r].p; p.pc.Yielding? ==> p.idx < |Bs(j)| && p.pc.info.meta == MetaOf(Bs(j)[p.idx])
  {
    hide Inv, Bs, ReceiverInv, Link, LastRank, Bytes, MetaOf;
    ReceiverPcs(j, s, r);
    ReceiverFacts(j, s, r);
    BucketInHand(j, s[r].p, r + 1 < |s|);
    if s[r].p.pc.Mark? {
      MarkMeans(j, s[r].p, r + 1 < |s|);
    }
    hide Write, InBounds, Read, Marked;
  }

  lemma MarkMeans(j: Job, p: Process, hasNext: bool)
    requires ReceiverInv(j, p, hasNext) && p.pc.Mark?
    ensures p.pc.info.last ==> p.idx == |Bs(j)| - 1
  {
    hide Bs, Bytes, AllFit, MetaOf;
    match p.pc {
      case Mark(info) => assert IsInfo(j, info, p.idx);
      case _ =>
    }
  }

  /** The ranks after the sender go on until rank 1 is about to copy bucket k. */
  lemma {:induction false} SuccessorCopies(j: Job, s: System, k: nat, m: nat) returns (t: System)
    requires Good(j, s) && j.B >= 4 && |s| >= 2 && k < s[0].p.sent && k < |Bs(j)| - 1 && BeforeCopy(s[1].p, k)
    requires Clear(j, m) && s[0].p.sent <= m + 2
    ensures Good(j, t) && |t| == |s| && t[1].p.idx == k && t[1].p.pc.Copy? && Kept(s, t, 0)
    decreases Total(j, s, |s|)
  {
    hide Reachable, Inv, Guard, Apply, Total, Clear, Marked, Bs;
    if s[1].p.idx == k && s[1].p.pc.Copy? {
      t := s;
    } else {
      SuccessorCanStep(j, s, 0, k);
      var q: nat :| 0 < q < |s| && Guard(j, s, q);
      ReceiverStep(j, s, q, m);
      StaysBefore(j, s, q, k);
      var s' := Apply(j, s, q);
      assert Kept(s, s', 0);
      t := SuccessorCopies(j, s', k, m);
      KeptTwice(s, s', t, 0);
    }
  }

  /** Rank 1 is about to copy bucket k, which is intact, and the sender about to overwrite it. */
  ghost predicate Racing(j: Job, s: System, k: nat) {
    && Good(j, s) && |s| >= 2 && k + 2 < |Bs(j)|
    && s[0].p.pc.WaitSlot? && s[0].p.sent == k + 2 && Marked(s[0].p.bufs.Get(Odd(k)))
    && s[1].p.pc.Copy? && s[1].p.idx == k
  }

  lemma Attack(j: Job, n: nat, k: nat) returns (s: System)
    requires n >= 2 && j.B >= 4 && k + 2 < |Bs(j)| && Clear(j, k) && LooksMarked(Bytes(Bs(j)[k]))
    ensures |s| == n && Racing(j, s, k)
  {
    hide Good, Marked, LooksMarked, Bytes, Bs, Clear;
    OddNext(k);
    var s0 := Climb(j, n, k, k);
    var s1 := FillsBucket(j, s0);
    var s2 := s1;
    if k > 0 {
      s2 := PassStep(j, s1);
    }
    AtBucket(j, s0, k);
    var s3 := FillsBucket(j, s2);
    assert Marked(s3[0].p.bufs.Get(Odd(k)));
    s := SuccessorCopies(j, s3, k, k);
  }

  lemma AtBucket(j: Job, s: System, k: nat)
    requires Level(j, s, k)
    ensures BeforeCopy(s[1].p, k)
  {
    SenderState(j, s);
    ReceiverFacts(j, s, 1);
    LevelIdle(j, s[0].p, s[1].p, s[1].inbox, 1 + 1 < |s|);
  }

  lemma LevelIdle(j: Job, p: Process, q: Process, inbox: seq<Info>, hasNext: bool)
    requires Link(j, p, q, inbox) && ReceiverInv(j, q, hasNext) && p.sent == q.idx < |Bs(j)|
    ensures q.pc.Recv?
  {
    BuffersOf(j, p, q, inbox);
    CountsOf(j, q, hasNext);
    hide Bs, Bytes, Buffers, Counts, IsInfo, Link, AllFit;
  }

  lemma {:induction false} LeastBad(j: Job, k: nat) returns (m: nat)
    requires !Distinguishable(j, k)
    ensures m <= k && !Distinguishable(j, m) && Clear(j, m)
  {
    hide Distinguishable;
    if i: nat :| i < k && !Distinguishable(j, i) {
      m := LeastBad(j, i);
    } else {
      m := k;
    }
  }

  function FirstBytes(ws: seq<Weight>): seq<Byte> {
    if ws == [] then [] else ws[0].1
  }

  /** The weight the sender is about to write is the next bucket's first. */
  lemma NextBucketStarts(j: Job, p: Process)
    requires SenderInv(j, p) && p.pc.WaitSlot? && p.sent < |Bs(j)|
    ensures p.pc.i < |j.ws| && |j.ws[p.pc.i].1| <= j.B && FirstBytes(Bs(j)[p.sent]) == j.ws[p.pc.i].1
  {
    NotOversized(j, p);
    var rest := j.ws[p.pc.i..];
    PackFromStep([], rest, j.B);
    EmptyBytes();
    assert [] + [rest[0]] == [rest[0]];
    OpenIsPrefix([rest[0]], rest[1..], j.B);
    assert Bs(j)[p.sent..][0] == Bs(j)[p.sent];
  }

  lemma RacingFacts(j: Job, s: System, k: nat)
    requires Racing(j, s, k)
    ensures Bytes(Bs(j)[k]) <= s[0].p.bufs.Get(Odd(k))
    ensures s[0].p.pc.i < |j.ws| && |j.ws[s[0].p.pc.i].1| <= j.B && Sized(j, s[0].p) && FirstBytes(Bs(j)[k + 2]) == j.ws[s[0].p.pc.i].1
    ensures IsInfo(j, s[1].p.pc.info, k) && s[1].p.pc.info.ptr == Odd(k) && |s[1].p.copies| == k && Sized(j, s[1].p)
  {
    hide Inv, Bytes, Bs, Link, ReceiverInv, SenderInv, Buffers, FirstBytes, IsInfo, Sized;
    SenderState(j, s);
    NextBucketStarts(j, s[0].p);
    ReceiverFacts(j, s, 1);
    CountsOf(j, s[1].p, 1 + 1 < |s|);
    SourceIntact(j, s[0].p, s[1].p, s[1].inbox);
    ReceiverSizes(j, s, 1);
  }

  /** The sender's poll ends on data, and the half is refilled. */
  lemma RaceLost(j: Job, s: System, k: nat) returns (t: System)
    requires Racing(j, s, k)
    ensures Reachable(j, t) && |t| == |s| && t[1] == s[1] && EarlyOverwrite(j, t)
    ensures t[0].p == s[0].p.(pc := Filling(s[0].p.pc.i, s[0].p.pc.i, 0, [], true))
    ensures Guard(j, t, 0) && Overwrites(j, t, 0, Odd(k)) && s[0].p.pc.i < |j.ws| && |j.ws[s[0].p.pc.i].1| <= j.B
    ensures |t[0].p.bufs.Get(Odd(k))| == j.B
  {
    hide Inv, Bytes, Bs, Marked, Reachable, EarlyOverwrite, SenderInv, IsInfo;
    RacingFacts(j, s, k);
    SenderState(j, s);
    hide Link, Buffers;
    OddNext(k);
    assert Guard(j, s, 0);
    t := Apply(j, s, 0);
    ReachStep(j, s, 0);
    hide Apply;
    Race(j, t, k);
  }

  lemma Race(j: Job, t: System, k: nat)
    requires |t| >= 2 && Guard(j, t, 0) && Overwrites(j, t, 0, Odd(k)) && t[1].p.pc.Copy? && t[1].p.pc.info.ptr == Odd(k)
    ensures EarlyOverwrite(j, t)
  {
    hide Guard, Overwrites;
    assert Pending(t, 0, Odd(k));
  }

  /** The condition is exact: for any number of ranks, no run overwrites a half before it is copied
      if and only if every bucket whose half is used again can be told from the magic word. */
  lemma SafeIffRecognisable(j: Job, n: nat)
    requires n >= 2
    ensures Recognisable(j) <==>
              forall run: seq<System>, i: nat :: IsRun(j, run) && |run[0]| == n && i < |run| ==> !EarlyOverwrite(j, run[i])
  {
    hide Distinguishable, IsRun, EarlyOverwrite, Racing;
    if Recognisable(j) {
      forall run: seq<System>, i: nat | IsRun(j, run) && i < |run| ensures !EarlyOverwrite(j, run[i]) {
        NoEarlyOverwrite(j, run, i);
      }
    } else {
      var bad: nat :| !Distinguishable(j, bad);
      var k := LeastBad(j, bad);
      NotDistinguishable(j, k);
      var s := Attack(j, n, k);
      var t := RaceLost(j, s, k);
      var run := RunTo(j, t);
      SameSize(j, run, |run| - 1);
    }
  }

  lemma NotDistinguishable(j: Job, k: nat)
    requires !Distinguishable(j, k)
    ensures k + 2 < |Bs(j)| && LooksMarked(Bytes(Bs(j)[k]))
  {
  }

  lemma {:induction false} SameSize(j: Job, run: seq<System>, i: nat)
    requires IsRun(j, run) && i < |run|
    ensures |run[i]| == |run[0]|
  {
    hide IsInit, Guard, Apply;
    if i > 0 {
      SameSize(j, run, i - 1);
      assert Step(j, run[i - 1], run[i - 1 + 1]);
      var r: nat :| r < |run[i - 1]| && Guard(j, run[i - 1], r) && run[i] == Apply(j, run[i - 1], r);
      SizeKept(j, run[i - 1], r);
    }
  }

  // ---- what the race costs -----------------------------------------------------------------------

  predicate Agree(x: seq<Byte>, y: seq<Byte>) {
    x <= y || y <= x
  }

  lemma Overwritten(buf: seq<Byte>, x: seq<Byte>, y: seq<Byte>)
    requires |x| <= |buf| && y <= buf && !Agree(x, y)
    ensures Write(buf, 0, x)[..|y|] != y
  {
  }

  /** A job with a bucket that looks marked, and whose half is refilled with something else, has a
      run in which rank 1 copies something that was never sent as that bucket. */
  lemma WrongCopy(j: Job, n: nat, k: nat) returns (run: seq<System>)
    requires n >= 2 && j.B >= 4 && k + 2 < |Bs(j)| && Clear(j, k) && LooksMarked(Bytes(Bs(j)[k]))
    requires !Agree(FirstBytes(Bs(j)[k + 2]), Bytes(Bs(j)[k]))
    ensures IsRun(j, run) && run != [] && |run[|run| - 1]| == n
    ensures var p := run[|run| - 1][1].p; |p.copies| == k + 1 && p.copies[k] != Bytes(Bs(j)[k])
  {
    hide IsRun, Good, Inv, Reachable, Bytes, Bs, Marked, LooksMarked, Clear, Agree, EarlyOverwrite, FirstBytes;
    var s := Attack(j, n, k);
    RacingFacts(j, s, k);
    var t := RaceLost(j, s, k);
    var u := Refill(j, t, k);
    Overwritten(t[0].p.bufs.Get(Odd(k)), j.ws[t[0].p.pc.i].1, Bytes(Bs(j)[k]));
    run := CopyNow(j, u, k);
  }

  lemma Refill(j: Job, t: System, k: nat) returns (u: System)
    requires Reachable(j, t) && |t| >= 2 && Guard(j, t, 0) && t[0].p.pc.Filling? && t[0].p.pc.i < |j.ws|
    requires t[0].p.pc.offset == 0 && |j.ws[t[0].p.pc.i].1| <= j.B && Odd(t[0].p.sent) == Odd(k)
    ensures Reachable(j, u) && |u| == |t| && u[1] == t[1]
    ensures |j.ws[t[0].p.pc.i].1| <= |t[0].p.bufs.Get(Odd(k))|
    ensures u[0].p.bufs.Get(Odd(k)) == Write(t[0].p.bufs.Get(Odd(k)), 0, j.ws[t[0].p.pc.i].1)
  {
    hide Reachable, Put, Write;
    u := Apply(j, t, 0);
    ReachStep(j, t, 0);
  }

  lemma CopyNow(j: Job, u: System, k: nat) returns (run: seq<System>)
    requires Reachable(j, u) && |u| >= 2 && u[1].p.pc.Copy? && u[1].p.idx == k && IsInfo(j, u[1].p.pc.info, k)
    requires |u[0].p.bufs.Get(Odd(k))| == j.B && Sized(j, u[1].p) && |Bytes(Bs(j)[k])| <= j.B
    requires |u[1].p.copies| == k
    ensures IsRun(j, run) && run != [] && |run[|run| - 1]| == |u|
    ensures var p := run[|run| - 1][1].p; |p.copies| == k + 1 && p.copies[k] == u[0].p.bufs.Get(Odd(k))[..|Bytes(Bs(j)[k])|]
  {
    hide Reachable, Write, Bytes, Bs, MetaOf, IsRun;
    ReachStep(j, u, 1);
    run := RunTo(j, Apply(j, u, 1));
  }

  const ONES: seq<Byte> := [1, 1, 1, 1]
  const TWOS: seq<Byte> := [2, 2, 2, 2]

  const WordJob := Job([("a", MAGIC), ("b", ONES), ("c", TWOS)], 4)

  lemma WordBuckets()
    ensures Pack(WordJob.ws, WordJob.B) == [[WordJob.ws[0]], [WordJob.ws[1]], [WordJob.ws[2]]]
    ensures Bytes([WordJob.ws[0]]) == MAGIC
  {
    var ws: seq<Weight> := WordJob.ws;
    PackFromStep([], ws, 4);
    PackFromStep([ws[0]], ws[1..], 4);
    PackFromStep([ws[1]], ws[2..], 4);
    assert [] + [ws[0]] == [ws[0]];
    assert ws[1..][1..] == ws[2..] && ws[2..][1..] == [];
    BytesAppend([], ws[0]);
    assert Bytes([]) + MAGIC == MAGIC;
  }

  /** The least such job: a first bucket that is the magic word is taken for an acknowledgement. */
  lemma WordInDataBreaksCopies() returns (run: seq<System>)
    ensures IsRun(WordJob, run) && run != [] && |run[|run| - 1]| == 2 && AllFit(WordJob.ws, WordJob.B)
    ensures var p := run[|run| - 1][1].p;
            |p.copies| == 1 && p.copies[0] != Bytes(Pack(WordJob.ws, WordJob.B)[0])
  {
    WordBuckets();
    assert !Agree(TWOS, MAGIC) by { assert TWOS[0] != MAGIC[0]; }
    hide IsRun, Pack, Bytes;
    run := WrongCopy(WordJob, 2, 0);
  }

  // ---- views of the ranks before the last ------------------------------------------------------------

  /** Rank r is about to hand out something else than item k of bucket c. */
  ghost predicate WrongView(j: Job, s: System, r: nat, c: nat, k: nat) {
    && AtItem(j, s, r, c, k) && c < |Bs(j)| && k < |MetaOf(Bs(j)[c])| == |Items(Bs(j)[c])|
    && InBounds(MetaOf(Bs(j)[c])[k].1, s[r].p.bufs.Get(Odd(s[r].p.idx)))
    && View(s, r, MetaOf(Bs(j)[c])[k].1) != Items(Bs(j)[c])[k].1
  }

  /** The magic word over the bucket's head shows in item k. */
  predicate Shows(ws: seq<Weight>, k: nat) {
    && k < |MetaOf(ws)| == |Items(ws)| && InBounds(MetaOf(ws)[k].1, Overlay(Bytes(ws)))
    && Read(Overlay(Bytes(ws)), MetaOf(ws)[k].1) != Items(ws)[k].1
  }

  /** ... in some state of some run with n ranks. */
  ghost predicate EverWrong(j: Job, n: nat, r: nat, c: nat, k: nat) {
    exists run: seq<System>, i: nat :: IsRun(j, run) && i < |run| && |run[0]| == n && WrongView(j, run[i], r, c, k)
  }

  predicate BeforeItem(p: Process, c: nat, k: nat) {
    || p.idx < c
    || (p.idx == c && (p.pc.Recv? || p.pc.WaitOwn? || p.pc.Copy? || p.pc.Forward? || (p.pc.Yielding? && p.pc.k <= k)))
  }

  lemma StaysBeforeItem(j: Job, s: System, q: nat, r: nat, c: nat, k: nat)
    requires Inv(j, s) && q < |s| && Guard(j, s, q) && 0 < r < |s| && BeforeItem(s[r].p, c, k)
    requires c < |Bs(j)| && k < |MetaOf(Bs(j)[c])| && !AtItem(j, s, r, c, k)
    ensures |Apply(j, s, q)| == |s| && BeforeItem(Apply(j, s, q)[r].p, c, k)
  {
    hide Inv, Bs, Apply, Guard, MetaOf;
    SizeKept(j, s, q);
    if q != r {
      OthersKeep(j, s, q, r);
    } else {
      OwnStep(j, s, r);
    }
  }

  /** Every item of every bucket comes up at every rank. */
  lemma {:induction false} ReachItem(j: Job, s: System, r: nat, c: nat, k: nat) returns (t: System)
    requires Good(j, s) && Recognisable(j) && j.B >= 4 && 0 < r < |s| && BeforeItem(s[r].p, c, k)
    requires c < |Bs(j)| && k < |MetaOf(Bs(j)[c])|
    ensures Good(j, t) && |t| == |s| && AtItem(j, t, r, c, k)
    decreases Total(j, s, |s|)
  {
    hide Reachable, Inv, Guard, Apply, Total, Recognisable, Bs, MetaOf, BeforeItem;
    if AtItem(j, s, r, c, k) {
      t := s;
    } else {
      NotStuck(j, s, r, c, k);
      var q: nat :| q < |s| && Guard(j, s, q);
      var s' := Apply(j, s, q);
      StaysBeforeItem(j, s, q, r, c, k);
      ReachStep(j, s, q);
      RankDrops(j, s, q);
      assert Step(j, s, s');
      StepPreserves(j, s, s');
      TotalNat(j, s', |s'|);
      t := ReachItem(j, s', r, c, k);
    }
  }

  lemma NotStuck(j: Job, s: System, r: nat, c: nat, k: nat)
    requires Inv(j, s) && j.B >= 4 && 0 < r < |s| && BeforeItem(s[r].p, c, k) && c < |Bs(j)|
    ensures CanStep(j, s)
  {
    hide Inv, CanStep, Bs;
    if !CanStep(j, s) {
      StuckReceiver(j, s, r);
    }
  }

  /** Exact for each item: a rank that is not the last hands out something else than item k of
      bucket c in some run if and only if the magic word over the bucket's head shows in it. */
  lemma WrongViewIff(j: Job, n: nat, r: nat, c: nat, k: nat)
    requires Recognisable(j) && j.B >= 4 && 0 < r < n - 1 && c < |Bs(j)| && k < |MetaOf(Bs(j)[c])|
    ensures Shows(Bs(j)[c], k) <==> EverWrong(j, n, r, c, k)
  {
    hide IsRun, Recognisable, Good, WrongView, Shows, Bs, MetaOf;
    if Shows(Bs(j)[c], k) {
      StartGood(j, n);
      assert BeforeItem(Start(j, n)[r].p, c, k);
      var s := ReachItem(j, Start(j, n), r, c, k);
      var t := MarkNow(j, s, r, c, k);
      var run := RunTo(j, t);
      SameSize(j, run, |run| - 1);
    }
    forall run: seq<System>, i: nat | IsRun(j, run) && i < |run| && |run[0]| == n && WrongView(j, run[i], r, c, k)
      ensures Shows(Bs(j)[c], k)
    {
      RunInv(j, run, i);
      SameSize(j, run, i);
      WrongMeansShows(j, run[i], r, c, k);
    }
  }

  lemma MarkNow(j: Job, s: System, r: nat, c: nat, k: nat) returns (t: System)
    requires Good(j, s) && Recognisable(j) && j.B >= 4 && 0 < r && r + 1 < |s| && AtItem(j, s, r, c, k)
    requires c < |Bs(j)| && Shows(Bs(j)[c], k)
    ensures Reachable(j, t) && |t| == |s| && WrongView(j, t, r, c, k)
  {
    hide Inv, Reachable, Bs, MetaOf, Items, Bytes, Overlay, Distinguishable, ReceiverInv, Link, LastRank, Marked;
    SentYielding(j, s, r);
    ReceiverFacts(j, s, 1);
    BuffersOf(j, s[0].p, s[1].p, s[1].inbox);
    assert Clear(j, |Bs(j)|);
    t := SuccessorFinishes(j, s, r, c, |Bs(j)|);
    assert Kept(s, t, r);
    ViewIsTrueOrMarked(j, t, r, c, k);
  }

  lemma SentYielding(j: Job, s: System, r: nat)
    requires Inv(j, s) && 0 < r && r + 1 < |s| && s[r].p.pc.Yielding?
    ensures s[r].p.sent == s[r].p.idx + 1
  {
    hide Inv, Link, LastRank;
    ReceiverFacts(j, s, r);
    CountsOf(j, s[r].p, true);
    hide ReceiverInv, Bs;
  }

  lemma WrongMeansShows(j: Job, s: System, r: nat, c: nat, k: nat)
    requires Inv(j, s) && r + 1 < |s| && WrongView(j, s, r, c, k)
    ensures Shows(Bs(j)[c], k)
  {
    hide Inv, Bs, MetaOf, Items, Bytes, Overlay;
    ViewIsTrueOrMarked(j, s, r, c, k);
  }

  /** With distinct names the slots of a bucket cover its bytes, so reading them all is reading it. */
  lemma {:induction false} ReadCovers(ws: seq<Weight>, buf: seq<Byte>)
    requires DistinctNames(ws) && |Bytes(ws)| <= |buf|
    ensures forall i :: 0 <= i < |MetaOf(ws)| ==> InBounds(MetaOf(ws)[i].1, buf)
    ensures Bytes(ReadAll(buf, MetaOf(ws))) == buf[..|Bytes(ws)|]
  {
    if ws != [] {
      var init, last := ws[..|ws| - 1], ws[|ws| - 1];
      assert Bytes(ws) == Bytes(init) + last.1;
      assert ws == init + [last];
      hide *;
      InitDistinct(init, last);
      ReadCovers(init, buf);
      MetaIsFresh(init, last);
      ReadCoversLast(init, last, buf);
    }
  }

  lemma InitDistinct(init: seq<Weight>, last: Weight)
    requires DistinctNames(init + [last])
    ensures DistinctNames(init)
  {
    AppendNames(init, last);
  }

  lemma ReadCoversLast(init: seq<Weight>, last: Weight, buf: seq<Byte>)
    requires |Bytes(init)| + |last.1| <= |buf| && forall i :: 0 <= i < |MetaOf(init)| ==> InBounds(MetaOf(init)[i].1, buf)
    requires Bytes(ReadAll(buf, MetaOf(init))) == buf[..|Bytes(init)|]
    ensures var m := MetaOf(init) + [(last.0, Slot(|Bytes(init)|, |last.1|))];
            && (forall i :: 0 <= i < |m| ==> InBounds(m[i].1, buf))
            && Bytes(ReadAll(buf, m)) == buf[..|Bytes(init)| + |last.1|]
  {
    hide Bytes, MetaOf, ReadAll;
    var a, b := |Bytes(init)|, |last.1|;
    ReadAllAppend(buf, MetaOf(init), (last.0, Slot(a, b)));
    BytesAppend(ReadAll(buf, MetaOf(init)), (last.0, Read(buf, Slot(a, b))));
    assert buf[..a] + buf[a..a + b] == buf[..a + b];
  }

  lemma MetaIsFresh(init: seq<Weight>, last: Weight)
    requires DistinctNames(init + [last])
    ensures MetaOf(init + [last]) == MetaOf(init) + [(last.0, Slot(|Bytes(init)|, |last.1|))]
  {
    MetaAppend(init, last);
    AppendNames(init, last);
    MetaNames(init);
    PutIsAppend(MetaOf(init), last.0, Slot(|Bytes(init)|, |last.1|));
  }

  lemma {:induction false} MetaNames(ws: seq<Weight>)
    ensures forall n :: Has(MetaOf(ws), n) ==> Has(ws, n)
  {
    if ws != [] {
      var init, last := ws[..|ws| - 1], ws[|ws| - 1];
      assert ws == init + [last];
      MetaNames(init);
      PutKeepsNames(MetaOf(init), last.0, Slot(|Bytes(init)|, |last.1|));
      var i := |ws| - 1;
      assert ws[i].0 == last.0;
      forall n | Has(init, n) ensures Has(ws, n) {
        var i :| 0 <= i < |init| && init[i].0 == n;
        assert ws[i].0 == n;
      }
    }
  }

  lemma {:induction false} ReadAllAppend(buf: seq<Byte>, m: Meta, e: (string, Slot))
    requires (forall i :: 0 <= i < |m| ==> InBounds(m[i].1, buf)) && InBounds(e.1, buf)
    ensures ReadAll(buf, m + [e]) == ReadAll(buf, m) + [(e.0, Read(buf, e.1))]
  {
    if m == [] {
      assert [] + [e] == [e];
    } else {
      assert (m + [e])[1..] == m[1..] + [e];
      ReadAllAppend(buf, m[1..], e);
    }
  }

  /** In a bucket without repeated names the word shows somewhere unless the bucket looks marked. */
  lemma ShowsSomewhere(ws: seq<Weight>)
    requires DistinctNames(ws)
    ensures LooksMarked(Bytes(ws)) <==> forall k: nat :: !Shows(ws, k)
  {
    var x, o := Bytes(ws), Overlay(Bytes(ws));
    assert |o| == |x| && (o == x <==> LooksMarked(x));
    BucketRoundTrip(ws, x);
    ReadCovers(ws, o);
    ItemsAreWeights(ws);
    hide LooksMarked, Overlay, Bytes, MetaOf, Items;
    if forall k: nat :: !Shows(ws, k) {
      forall i | 0 <= i < |MetaOf(ws)| ensures ReadAll(o, MetaOf(ws))[i] == ReadAll(x, MetaOf(ws))[i] {
        assert !Shows(ws, i);
      }
      assert ReadAll(o, MetaOf(ws)) == ReadAll(x, MetaOf(ws));
      assert o[..|x|] == o;
    }
  }

  /** Recognisable buckets do not make the views safe: with distinct names, a rank that is not the
      last hands out a wrong item of bucket c in some run if and only if the bucket can be told from
      the magic word, as every bucket whose half is used again can. */
  lemma MarkedViewsAreYielded(j: Job, n: nat, r: nat, c: nat)
    requires Recognisable(j) && j.B >= 4 && 0 < r < n - 1 && c < |Bs(j)| && DistinctNames(Bs(j)[c])
    ensures !LooksMarked(Bytes(Bs(j)[c])) <==> exists k: nat :: EverWrong(j, n, r, c, k)
    ensures c + 2 < |Bs(j)| ==> !LooksMarked(Bytes(Bs(j)[c]))
  {
    assert Distinguishable(j, c);
    hide Recognisable, EverWrong, Shows, Bs, LooksMarked, Bytes, DistinctNames;
    ShowsSomewhere(Bs(j)[c]);
    forall k: nat ensures Shows(Bs(j)[c], k) <==> EverWrong(j, n, r, c, k) {
      if Shows(Bs(j)[c], k) || EverWrong(j, n, r, c, k) {
        ItemInRange(j, n, r, c, k);
        WrongViewIff(j, n, r, c, k);
      }
    }
  }

  lemma ItemInRange(j: Job, n: nat, r: nat, c: nat, k: nat)
    requires c < |Bs(j)| && (Shows(Bs(j)[c], k) || EverWrong(j, n, r, c, k))
    ensures k < |MetaOf(Bs(j)[c])|
  {
    hide IsRun, Bs, Bytes, MetaOf, Items, Overlay;
  }
}
