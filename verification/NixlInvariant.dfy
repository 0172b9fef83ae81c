/** What every reachable state of the NIXL chain satisfies, for any number of ranks. */
module NixlInvariant {
  import opened Buckets
  import opened Options
  import opened Nixl

  function Bs(j: Job): (bs: seq<seq<Weight>>)
    ensures |bs| >= 1
  {
    Pack(j.ws, j.B)
  }

  /** The buffer of rank r that holds bucket k. */
  function Loc(r: nat, k: nat): bool {
    if r == 0 then k % 2 == 1 else k % 2 == 0
  }

  predicate Last(j: Job, k: nat) {
    AllFit(j.ws, j.B) && k == |Bs(j)| - 1
  }

  predicate IsBucket(j: Job, m: Msg, k: nat) {
    k < |Bs(j)| && m.meta == MetaOf(Bs(j)[k]) && m.last == Last(j, k)
  }

  function MsgOf(j: Job, r: nat, k: nat): Msg
    requires k < |Bs(j)|
  {
    Msg(k, Loc(r, k), MetaOf(Bs(j)[k]), Last(j, k))
  }

  /** Rank r's buffers still hold bucket k. */
  predicate Holds(j: Job, r: nat, p: Process, k: nat) {
    k < |Bs(j)| && Bytes(Bs(j)[k]) <= p.bufs.Get(Loc(r, k))
  }

  predicate Sized(j: Job, p: Process) {
    |p.bufs.a| == |p.bufs.b| == j.B
  }

  function Prev(published: nat): Option<nat> {
    if published == 0 then None else Some(published - 1)
  }

  // ---- one rank ----------------------------------------------------------------------------

  predicate SenderInv(j: Job, p: Process) {
    var nb := |Bs(j)|;
    && Sized(j, p)
    && p.taken == p.copied == 0 && p.op.None? && p.yielded == []
    && p.published <= nb
    && (p.published > 0 ==> Holds(j, 0, p, p.published - 1))
    && match p.pc
       case Filling(first, i, offset, meta, flushed) =>
         && first <= i <= |j.ws| && AllFit(j.ws[..i], j.B)
         && p.awaiting == Prev(p.published)
         && var open := j.ws[first..i];
         && offset == |Bytes(open)| && meta == MetaOf(open)
         && p.send == Loc(0, p.published)
         && Bytes(open) <= p.bufs.Get(p.send)
         && (flushed ==> first == i < |j.ws|)
         && if flushed && |j.ws[i].1| > j.B then p.published == nb
            else p.published < nb && Bs(j)[p.published..] == PackFrom(open, j.ws[i..], j.B)
       case FinalWait => p.published == nb && p.awaiting == Prev(nb) && AllFit(j.ws, j.B)
       case Done => p.published == nb && p.awaiting.None? && AllFit(j.ws, j.B)
       case Failed => p.published == nb && p.awaiting == Prev(nb) && !AllFit(j.ws, j.B)
       case _ => false
  }

  /** Publications of a receiver that has announced its first c buckets; the last rank has none. */
  predicate Announced(p: Process, c: nat, hasNext: bool, acked: bool) {
    && p.published == (if hasNext then c else 0)
    && p.awaiting == (if acked || !hasNext then None else Prev(c))
  }

  predicate ReceiverInv(j: Job, r: nat, p: Process, hasNext: bool) {
    var bs := Bs(j);
    var T := p.taken;
    && Sized(j, p)
    && p.copied <= T <= p.copied + 1 && T <= |bs|
    && (p.op.Some? <==> p.copied < T)
    && (p.copied >= 1 ==> Holds(j, r, p, p.copied - 1))
    && (p.copied >= 2 ==> Holds(j, r, p, p.copied - 2))
    && match p.pc
       case First => T == 0 && Announced(p, 0, hasNext, true) && !p.send && p.yielded == []
       case FirstRead(m) =>
         T == 1 && Announced(p, 0, hasNext, true) && !p.send && p.yielded == [] && IsBucket(j, m, 0)
       case Top(m) =>
         && T == p.copied >= 1 && Announced(p, T - 1, hasNext, true)
         && p.send == Loc(r, T - 1) && IsBucket(j, m, T - 1) && p.yielded == Delivered(bs[..T - 1])
       case Want(m) =>
         && T == p.copied >= 1 && Announced(p, T, hasNext, false)
         && p.send == Loc(r, T - 1) && IsBucket(j, m, T - 1) && !m.last && p.yielded == Delivered(bs[..T - 1])
       case Yielding(m, next, k) =>
         && T >= 2 && Announced(p, T - 1, hasNext, false)
         && p.send == Loc(r, T - 2) && IsBucket(j, m, T - 2) && IsBucket(j, next, T - 1)
         && k <= |Items(bs[T - 2])| && p.yielded == Delivered(bs[..T - 2]) + Items(bs[T - 2])[..k]
       case AwaitAck(next) =>
         && T >= 2 && Announced(p, T - 1, hasNext, false)
         && p.send == Loc(r, T - 2) && IsBucket(j, next, T - 1) && p.yielded == Delivered(bs[..T - 1])
       case AwaitRead(next) =>
         && T >= 2 && Announced(p, T - 1, hasNext, true)
         && p.send == Loc(r, T - 2) && IsBucket(j, next, T - 1) && p.yielded == Delivered(bs[..T - 1])
       case YieldingLast(m, k) =>
         && T == p.copied == |bs| && Announced(p, T, hasNext, false)
         && p.send == Loc(r, T - 1) && IsBucket(j, m, T - 1) && m.last
         && k <= |Items(bs[T - 1])| && p.yielded == Delivered(bs[..T - 1]) + Items(bs[T - 1])[..k]
       case AwaitLast =>
         && T == p.copied == |bs| && Announced(p, T, hasNext, false) && AllFit(j.ws, j.B)
         && p.send == Loc(r, T - 1) && p.yielded == Delivered(bs)
       case Done =>
         && T == p.copied == |bs| && Announced(p, T, hasNext, true) && AllFit(j.ws, j.B)
         && p.send == Loc(r, T - 1) && p.yielded == Delivered(bs)
       case _ => false
  }

  predicate ProcInv(j: Job, r: nat, p: Process, hasNext: bool) {
    if r == 0 then SenderInv(j, p) && hasNext else ReceiverInv(j, r, p, hasNext)
  }

  // ---- one link ----------------------------------------------------------------------------

  function AckedCount(p: Process): int {
    if p.awaiting.Some? then p.published - 1 else p.published
  }

  /** Between rank r (`p`, its notifications) and rank r + 1 (`q`, its messages): at most one
      publication is unacknowledged, and it is in exactly one of message, read, notification. */
  predicate Link(j: Job, r: nat, p: Process, notifs: seq<nat>, q: Process, inbox: seq<Msg>) {
    && 0 <= AckedCount(p) <= q.copied <= q.taken <= p.published <= |Bs(j)|
    && (p.awaiting.Some? ==> p.awaiting.value == p.published - 1)
    && inbox == (if q.taken < p.published then [MsgOf(j, r, q.taken)] else [])
    && notifs == (if AckedCount(p) < q.copied then [p.published - 1] else [])
    && q.op == (if q.copied < q.taken then Some(ReadOp(Loc(r, q.copied), Loc(r + 1, q.copied), q.copied)) else None)
  }

  predicate LinkAt(j: Job, s: System, r: nat)
    requires r + 1 < |s|
  {
    Link(j, r, s[r].p, s[r].notifs, s[r + 1].p, s[r + 1].inbox)
  }

  ghost predicate Inv(j: Job, s: System) {
    && |s| >= 2
    && (forall r: nat :: r < |s| ==> ProcInv(j, r, s[r].p, r + 1 < |s|))
    && (forall r: nat :: r + 1 < |s| ==> LinkAt(j, s, r))
  }

  // ---- preservation ------------------------------------------------------------------------

  lemma InitInv(j: Job, s: System)
    requires IsInit(j, s)
    ensures Inv(j, s)
  {
    assert j.ws[..0] == [] && j.ws[0..] == j.ws;
  }

  /** A step of rank r changes its own process and queues, its successor's messages and its
      predecessor's notifications; these are the obligations left. */
  lemma Frame(j: Job, s: System, s': System, r: nat)
    requires Inv(j, s) && |s'| == |s| && r < |s|
    requires forall i: nat :: i < |s| && i != r ==> s'[i].p == s[i].p
    requires forall i: nat :: i < |s| && i != r && i + 1 != r ==> s'[i].notifs == s[i].notifs
    requires forall i: nat :: i < |s| && i != r && i != r + 1 ==> s'[i].inbox == s[i].inbox
    requires ProcInv(j, r, s'[r].p, r + 1 < |s|)
    requires r + 1 < |s| ==> LinkAt(j, s', r)
    requires r > 0 ==> LinkAt(j, s', r - 1)
    ensures Inv(j, s')
  {
    hide ProcInv;
    forall i: nat | i + 1 < |s| ensures LinkAt(j, s', i) {
      assert LinkAt(j, s, i);
    }
    forall i: nat | i < |s| ensures ProcInv(j, i, s'[i].p, i + 1 < |s'|) {
      assert ProcInv(j, i, s[i].p, i + 1 < |s|);
    }
  }

  lemma WriteExtends(buf: seq<Byte>, done: seq<Byte>, x: seq<Byte>)
    requires done <= buf && |done| + |x| <= |buf|
    ensures done + x <= Write(buf, |done|, x)
  {
  }

  lemma FillInv(j: Job, p: Process)
    requires SenderInv(j, p) && p.pc.Filling? && p.pc.i < |j.ws|
    requires p.pc.offset + |j.ws[p.pc.i].1| <= j.B
    ensures var (name, x) := j.ws[p.pc.i];
            SenderInv(j, p.(bufs := p.bufs.Set(p.send, Write(p.bufs.Get(p.send), p.pc.offset, x)),
                            pc := Filling(p.pc.first, p.pc.i + 1, p.pc.offset + |x|, Put(p.pc.meta, name, Slot(p.pc.offset, |x|)), false)))
  {
    hide Bytes, MetaOf, PackFrom, Put, Bs, AllFit, Write;
    var (first, i) := (p.pc.first, p.pc.i);
    FillFacts(j.ws, j.B, first, i);
    WriteExtends(p.bufs.Get(p.send), Bytes(j.ws[first..i]), j.ws[i].1);
  }

  /** The notification a rank waits for is the one that arrives: the key assertion holds. */
  lemma AckMatches(j: Job, s: System, r: nat)
    requires Inv(j, s) && r < |s| && AckReady(s[r])
    ensures r + 1 == |s| ==> s[r].p.awaiting.None?
    ensures Acked(s[r]) == Node(s[r].p.(awaiting := None), if s[r].p.awaiting.None? then s[r].notifs else [], s[r].inbox)
    ensures r + 1 < |s| && s[r].p.awaiting.Some? ==> s[r + 1].p.copied == s[r].p.published
  {
    assert ProcInv(j, r, s[r].p, r + 1 < |s|);
    if r + 1 < |s| {
      assert LinkAt(j, s, r);
    }
  }

  /** What a link sees of a process. */
  predicate SameLinks(p: Process, q: Process) {
    p.published == q.published && p.awaiting == q.awaiting && p.taken == q.taken && p.copied == q.copied && p.op == q.op
  }

  lemma LocalStep(j: Job, s: System, r: nat, q: Process)
    requires Inv(j, s) && r < |s| && SameLinks(s[r].p, q) && ProcInv(j, r, q, r + 1 < |s|)
    ensures Inv(j, s[r := s[r].(p := q)])
  {
    hide ProcInv;
    assert r + 1 < |s| ==> LinkAt(j, s, r);
    assert r > 0 ==> LinkAt(j, s, r - 1);
    Frame(j, s, s[r := s[r].(p := q)], r);
  }

  /** Consuming the awaited notification. */
  lemma AckStep(j: Job, s: System, r: nat, q: Process)
    requires Inv(j, s) && r < |s| && AckReady(s[r]) && ProcInv(j, r, q, r + 1 < |s|)
    requires SameLinks(s[r].p.(awaiting := None), q)
    ensures Inv(j, s[r := Acked(s[r]).(p := q)])
  {
    hide ProcInv;
    AckMatches(j, s, r);
    assert r + 1 < |s| ==> LinkAt(j, s, r);
    assert r > 0 ==> LinkAt(j, s, r - 1);
    Frame(j, s, s[r := Acked(s[r]).(p := q)], r);
  }

  /** Announcing the next bucket once the previous one is acknowledged. */
  lemma PublishStep(j: Job, s: System, r: nat, q: Process, m: Msg)
    requires Inv(j, s) && r + 1 < |s| && AckReady(s[r]) && ProcInv(j, r, q, true)
    requires s[r].p.published < |Bs(j)| && m == MsgOf(j, r, s[r].p.published)
    requires SameLinks(s[r].p.(published := s[r].p.published + 1, awaiting := Some(s[r].p.published)), q)
    ensures Inv(j, s[r := Acked(s[r]).(p := q)][r + 1 := s[r + 1].(inbox := s[r + 1].inbox + [m])])
  {
    hide ProcInv;
    AckMatches(j, s, r);
    assert LinkAt(j, s, r);
    assert r > 0 ==> LinkAt(j, s, r - 1);
    Frame(j, s, s[r := Acked(s[r]).(p := q)][r + 1 := s[r + 1].(inbox := s[r + 1].inbox + [m])], r);
  }

  predicate Fills(j: Job, pc: Pc) {
    pc.Filling? && pc.i < |j.ws| && (pc.offset + |j.ws[pc.i].1| <= j.B || pc.flushed)
  }

  lemma SenderFills(j: Job, s: System)
    requires Inv(j, s) && Guard(j, s, 0, Program) && Fills(j, s[0].p.pc)
    ensures Inv(j, Apply(j, s, 0, Program))
  {
    hide SenderInv, ReceiverInv, LinkAt;
    var p, p' := s[0].p, SenderStep(j, s, 0)[0].p;
    assert ProcInv(j, 0, p, true);
    if p.pc.offset + |j.ws[p.pc.i].1| <= j.B {
      FillInv(j, p);
    } else {
      OversizeInv(j, p);
    }
    LocalStep(j, s, 0, p');
    assert Apply(j, s, 0, Program) == s[0 := s[0].(p := p')];
  }

  lemma SenderFlushes(j: Job, s: System)
    requires Inv(j, s) && Guard(j, s, 0, Program) && s[0].p.pc.Filling? && !Fills(j, s[0].p.pc)
    ensures Inv(j, Apply(j, s, 0, Program))
  {
    hide SenderInv, ReceiverInv, LinkAt;
    var p := s[0].p;
    assert ProcInv(j, 0, p, true);
    AckMatches(j, s, 0);
    FlushInv(j, p);
    var p' := Apply(j, s, 0, Program)[0].p;
    PublishStep(j, s, 0, p', MsgOf(j, 0, p.published));
    assert Apply(j, s, 0, Program) == s[0 := Acked(s[0]).(p := p')][1 := s[1].(inbox := s[1].inbox + [MsgOf(j, 0, p.published)])];
  }

  lemma SenderFinishes(j: Job, s: System)
    requires Inv(j, s) && Guard(j, s, 0, Program) && s[0].p.pc.FinalWait?
    ensures Inv(j, Apply(j, s, 0, Program))
  {
    hide ReceiverInv, LinkAt;
    var p := s[0].p;
    assert ProcInv(j, 0, p, true);
    AckMatches(j, s, 0);
    AckStep(j, s, 0, p.(awaiting := None, pc := Done));
    assert Apply(j, s, 0, Program) == s[0 := Acked(s[0]).(p := p.(awaiting := None, pc := Done))];
  }

  lemma OversizeInv(j: Job, p: Process)
    requires SenderInv(j, p) && Fills(j, p.pc) && p.pc.offset + |j.ws[p.pc.i].1| > j.B
    ensures SenderInv(j, p.(pc := Failed))
  {
    assert |j.ws[p.pc.i].1| > j.B;
  }

  lemma SenderPreserves(j: Job, s: System)
    requires Inv(j, s) && Guard(j, s, 0, Program)
    ensures Inv(j, Apply(j, s, 0, Program))
  {
    hide ReceiverInv, LinkAt, Apply;
    assert ProcInv(j, 0, s[0].p, true);
    if s[0].p.pc.FinalWait? {
      SenderFinishes(j, s);
    } else if Fills(j, s[0].p.pc) {
      SenderFills(j, s);
    } else {
      SenderFlushes(j, s);
    }
  }

  /** Publishing the open bucket, by a flush or as the last one. */
  lemma FlushInv(j: Job, p: Process)
    requires SenderInv(j, p) && p.pc.Filling? && !Fills(j, p.pc)
    ensures p.published < |Bs(j)| && Msg(p.published, p.send, p.pc.meta, p.pc.i == |j.ws|) == MsgOf(j, 0, p.published)
    ensures var q := p.(published := p.published + 1, awaiting := Some(p.published));
            SenderInv(j, if p.pc.i == |j.ws| then q.(pc := FinalWait)
                         else q.(send := !p.send, pc := Filling(p.pc.i, p.pc.i, 0, [], true)))
  {
    hide Bytes, MetaOf, Put, Pack, AllFit, PackFrom;
    FlushFacts(j.ws, j.B, p.pc.first, p.pc.i, p.published);
  }

  // ---- receivers ---------------------------------------------------------------------------

  lemma LocOther(r: nat, k: nat)
    ensures Loc(r, k + 1) == !Loc(r, k)
  {
  }

  /** The process after a receiver's program step, apart from its queues. */
  function After(n: Node): Process
    requires n.p.pc.First? || n.p.pc.Want? ==> n.inbox != []
    requires n.p.pc.Yielding? && n.p.pc.k < |n.p.pc.m.meta| ==> InBounds(n.p.pc.m.meta[n.p.pc.k].1, n.p.bufs.Get(n.p.send))
    requires n.p.pc.YieldingLast? && n.p.pc.k < |n.p.pc.m.meta| ==> InBounds(n.p.pc.m.meta[n.p.pc.k].1, n.p.bufs.Get(n.p.send))
  {
    var p := n.p;
    match p.pc
    case First => Take(n).p.(pc := FirstRead(n.inbox[0]))
    case FirstRead(m) => p.(send := !p.send, pc := Top(m))
    case Want(m) => Take(n).p.(pc := Yielding(m, n.inbox[0], 0))
    case Yielding(m, next, k) =>
      if k < |m.meta| then Yielded(p, m, k).(pc := Yielding(m, next, k + 1)) else p.(pc := AwaitAck(next))
    case AwaitAck(next) => p.(awaiting := None, pc := AwaitRead(next))
    case AwaitRead(next) => p.(send := !p.send, pc := Top(next))
    case YieldingLast(m, k) =>
      if k < |m.meta| then Yielded(p, m, k).(pc := YieldingLast(m, k + 1)) else p.(pc := AwaitLast)
    case AwaitLast => p.(awaiting := None, pc := Done)
    case _ => p
  }

  /** What the item being yielded is: the slice of send_buf is the weight that was sent. */
  lemma YieldedItem(j: Job, r: nat, p: Process, m: Msg, c: nat)
    requires IsBucket(j, m, c) && Holds(j, r, p, c)
    ensures |Items(Bs(j)[c])| == |m.meta|
    ensures forall k :: 0 <= k < |m.meta| ==>
              && InBounds(m.meta[k].1, p.bufs.Get(Loc(r, c)))
              && (m.meta[k].0, Read(p.bufs.Get(Loc(r, c)), m.meta[k].1)) == Items(Bs(j)[c])[k]
  {
    BucketRoundTrip(Bs(j)[c], p.bufs.Get(Loc(r, c)));
  }

  lemma TakeNextInv(j: Job, r: nat, n: Node, hasNext: bool)
    requires r > 0 && ReceiverInv(j, r, n.p, hasNext) && n.p.taken < |Bs(j)|
    requires n.inbox == [MsgOf(j, r - 1, n.p.taken)]
    requires n.p.pc.First? || n.p.pc.Want?
    ensures ReceiverInv(j, r, After(n), hasNext)
    ensures After(n).op.value.dst == Loc(r, n.p.taken)
  {
    hide MetaOf, Bytes, Items, Pack, AllFit, Bs, Delivered;
    if n.p.taken > 0 {
      LocOther(r, n.p.taken - 1);
    }
  }

  lemma YieldInv(j: Job, r: nat, n: Node, hasNext: bool)
    requires r > 0 && ReceiverInv(j, r, n.p, hasNext) && (n.p.pc.Yielding? || n.p.pc.YieldingLast?)
    ensures n.p.pc.k < |n.p.pc.m.meta| ==> InBounds(n.p.pc.m.meta[n.p.pc.k].1, n.p.bufs.Get(n.p.send))
    ensures ReceiverInv(j, r, After(n), hasNext)
  {
    hide *;
    if n.p.pc.Yielding? {
      YieldMidInv(j, r, n, hasNext);
    } else {
      YieldLastInv(j, r, n, hasNext);
    }
  }

  lemma YieldMidInv(j: Job, r: nat, n: Node, hasNext: bool)
    requires r > 0 && ReceiverInv(j, r, n.p, hasNext) && n.p.pc.Yielding?
    ensures n.p.pc.k < |n.p.pc.m.meta| ==> InBounds(n.p.pc.m.meta[n.p.pc.k].1, n.p.bufs.Get(n.p.send))
    ensures ReceiverInv(j, r, After(n), hasNext)
  {
    hide MetaOf, Bytes, Items, Delivered, Bs, Loc, InBounds, Read, AllFit;
    var bs, c, k := Bs(j), n.p.taken - 2, n.p.pc.k;
    YieldedItem(j, r, n.p, n.p.pc.m, c);
    hide IsBucket, Holds, Announced;
    if k < |Items(bs[c])| {
      PrefixGrows(Delivered(bs[..c]), Items(bs[c]), k);
    } else {
      YieldedAll(bs, c);
    }
  }

  lemma YieldLastInv(j: Job, r: nat, n: Node, hasNext: bool)
    requires r > 0 && ReceiverInv(j, r, n.p, hasNext) && n.p.pc.YieldingLast?
    ensures n.p.pc.k < |n.p.pc.m.meta| ==> InBounds(n.p.pc.m.meta[n.p.pc.k].1, n.p.bufs.Get(n.p.send))
    ensures ReceiverInv(j, r, After(n), hasNext)
  {
    hide MetaOf, Bytes, Items, Delivered, Bs, Loc, InBounds, Read, AllFit;
    var bs, c, k := Bs(j), n.p.taken - 1, n.p.pc.k;
    YieldedItem(j, r, n.p, n.p.pc.m, c);
    LastIsLast(j, n.p.pc.m, c);
    hide IsBucket, Holds, Announced;
    if k < |Items(bs[c])| {
      PrefixGrows(Delivered(bs[..c]), Items(bs[c]), k);
    } else {
      YieldedAll(bs, c);
    }
  }

  lemma LastIsLast(j: Job, m: Msg, c: nat)
    requires IsBucket(j, m, c)
    ensures m.last ==> AllFit(j.ws, j.B)
  {
    hide Bs, MetaOf, AllFit;
  }

  lemma PrefixGrows<T>(a: seq<T>, b: seq<T>, k: nat)
    requires k < |b|
    ensures a + b[..k] + [b[k]] == a + b[..k + 1]
  {
  }

  lemma SwapInv(j: Job, r: nat, n: Node, hasNext: bool)
    requires r > 0 && ReceiverInv(j, r, n.p, hasNext) && n.p.op.None?
    requires n.p.pc.FirstRead? || n.p.pc.AwaitRead?
    ensures ReceiverInv(j, r, After(n), hasNext)
  {
    hide MetaOf, Bytes, Items, Pack, AllFit, Bs;
    assert Bs(j)[..0] == [];
    if n.p.taken > 1 {
      LocOther(r, n.p.taken - 2);
    }
  }

  lemma TopInv(j: Job, r: nat, p: Process, hasNext: bool)
    requires r > 0 && ReceiverInv(j, r, p, hasNext) && p.pc.Top?
    ensures var q := if hasNext then p.(published := p.published + 1, awaiting := Some(p.published)) else p;
            ReceiverInv(j, r, q.(pc := if p.pc.m.last then YieldingLast(p.pc.m, 0) else Want(p.pc.m)), hasNext)
    ensures hasNext ==> p.published < |Bs(j)| && Msg(p.published, p.send, p.pc.m.meta, p.pc.m.last) == MsgOf(j, r, p.published)
  {
    hide MetaOf, Bytes, Pack, AllFit, Bs;
    assert Items(Bs(j)[p.taken - 1])[..0] == [];
  }

  lemma AckInv(j: Job, r: nat, n: Node, hasNext: bool)
    requires r > 0 && ReceiverInv(j, r, n.p, hasNext) && (n.p.pc.AwaitAck? || n.p.pc.AwaitLast?)
    ensures ReceiverInv(j, r, After(n), hasNext)
  {
    hide MetaOf, Bytes, Items, Pack, AllFit, Bs, Delivered;
  }

  /** Reading a message starts the read it describes. */
  lemma TakeStep(j: Job, s: System, r: nat, q: Process)
    requires Inv(j, s) && 0 < r < |s| && s[r].inbox != [] && ProcInv(j, r, q, r + 1 < |s|)
    requires SameLinks(s[r].p.(taken := s[r].p.taken + 1, op := Some(ReadOp(s[r].inbox[0].buf, Loc(r, s[r].p.taken), s[r].inbox[0].key))), q)
    requires s[r].p.copied == s[r].p.taken
    ensures Inv(j, s[r := Take(s[r]).(p := q)])
  {
    hide ProcInv;
    assert LinkAt(j, s, r - 1);
    assert r + 1 < |s| ==> LinkAt(j, s, r);
    Frame(j, s, s[r := Take(s[r]).(p := q)], r);
  }

  lemma InboxHead(j: Job, s: System, r: nat)
    requires Inv(j, s) && 0 < r < |s| && s[r].inbox != []
    ensures s[r].p.taken < |Bs(j)| && s[r].inbox == [MsgOf(j, r - 1, s[r].p.taken)]
  {
    hide ProcInv;
    assert LinkAt(j, s, r - 1);
  }

  lemma ReceiverTakes(j: Job, s: System, r: nat)
    requires Inv(j, s) && 0 < r < |s| && Guard(j, s, r, Program) && (s[r].p.pc.First? || s[r].p.pc.Want?)
    ensures Inv(j, Apply(j, s, r, Program))
  {
    hide LinkAt, SenderInv;
    assert ProcInv(j, r, s[r].p, r + 1 < |s|);
    InboxHead(j, s, r);
    TakeNextInv(j, r, s[r], r + 1 < |s|);
    TakeStep(j, s, r, After(s[r]));
    assert Apply(j, s, r, Program) == s[r := Take(s[r]).(p := After(s[r]))];
  }

  lemma ReceiverPublishes(j: Job, s: System, r: nat)
    requires Inv(j, s) && 0 < r < |s| && s[r].p.pc.Top?
    ensures Inv(j, Apply(j, s, r, Program))
  {
    hide LinkAt, SenderInv, ReceiverInv;
    var p, hasNext := s[r].p, r + 1 < |s|;
    assert ProcInv(j, r, p, hasNext);
    TopInv(j, r, p, hasNext);
    var p' := Apply(j, s, r, Program)[r].p;
    if hasNext {
      TopAwaitsNothing(j, r, p, hasNext);
      PublishStep(j, s, r, p', MsgOf(j, r, p.published));
      assert Apply(j, s, r, Program) == s[r := Acked(s[r]).(p := p')][r + 1 := s[r + 1].(inbox := s[r + 1].inbox + [MsgOf(j, r, p.published)])];
    } else {
      LocalStep(j, s, r, p');
      assert Apply(j, s, r, Program) == s[r := s[r].(p := p')];
    }
  }

  lemma TopAwaitsNothing(j: Job, r: nat, p: Process, hasNext: bool)
    requires r > 0 && ReceiverInv(j, r, p, hasNext) && p.pc.Top?
    ensures p.awaiting.None?
  {
  }

  lemma ReceiverPreserves(j: Job, s: System, r: nat)
    requires Inv(j, s) && 0 < r < |s| && Guard(j, s, r, Program)
    ensures Inv(j, Apply(j, s, r, Program))
  {
    hide LinkAt, SenderInv, ReceiverInv;
    var n, hasNext := s[r], r + 1 < |s|;
    assert ProcInv(j, r, n.p, hasNext);
    match n.p.pc {
      case First => ReceiverTakes(j, s, r);
      case Want(_) => ReceiverTakes(j, s, r);
      case Top(_) => ReceiverPublishes(j, s, r);
      case FirstRead(_) =>
        SwapInv(j, r, n, hasNext);
        LocalStep(j, s, r, After(n));
        assert Apply(j, s, r, Program) == s[r := n.(p := After(n))];
      case AwaitRead(_) =>
        SwapInv(j, r, n, hasNext);
        LocalStep(j, s, r, After(n));
        assert Apply(j, s, r, Program) == s[r := n.(p := After(n))];
      case Yielding(_, _, _) =>
        YieldInv(j, r, n, hasNext);
        LocalStep(j, s, r, After(n));
        assert Apply(j, s, r, Program) == s[r := n.(p := After(n))];
      case YieldingLast(_, _) =>
        YieldInv(j, r, n, hasNext);
        LocalStep(j, s, r, After(n));
        assert Apply(j, s, r, Program) == s[r := n.(p := After(n))];
      case AwaitAck(_) => ReceiverAcks(j, s, r);
      case AwaitLast => ReceiverAcks(j, s, r);
      case _ => NotAReceiverPc(j, r, n.p, hasNext);
    }
  }

  lemma NotAReceiverPc(j: Job, r: nat, p: Process, hasNext: bool)
    requires r > 0 && ReceiverInv(j, r, p, hasNext)
    ensures !p.pc.Filling? && !p.pc.FinalWait? && !p.pc.Failed?
  {
  }

  lemma ReceiverAcks(j: Job, s: System, r: nat)
    requires Inv(j, s) && 0 < r < |s| && Guard(j, s, r, Program) && (s[r].p.pc.AwaitAck? || s[r].p.pc.AwaitLast?)
    ensures Inv(j, Apply(j, s, r, Program))
  {
    hide LinkAt, SenderInv, ReceiverInv;
    var n := s[r];
    assert ProcInv(j, r, n.p, r + 1 < |s|);
    AckMatches(j, s, r);
    AckInv(j, r, n, r + 1 < |s|);
    AckStep(j, s, r, After(n));
    assert Apply(j, s, r, Program) == s[r := Acked(n).(p := After(n))];
  }

  // ---- the copy of a remote read -----------------------------------------------------------

  /** A rank's last announced bucket is still in the buffer it announced. */
  lemma AnnouncedIsHeld(j: Job, r: nat, p: Process, hasNext: bool)
    requires ProcInv(j, r, p, hasNext) && p.published > 0
    ensures Holds(j, r, p, p.published - 1)
  {
  }

  lemma CopyInv(j: Job, r: nat, p: Process, hasNext: bool, buf: seq<Byte>)
    requires r > 0 && ReceiverInv(j, r, p, hasNext) && p.op.Some? && p.op.value.dst == Loc(r, p.copied)
    requires |buf| == j.B && p.copied < |Bs(j)| && Bytes(Bs(j)[p.copied]) <= buf
    ensures ReceiverInv(j, r, p.(bufs := p.bufs.Set(p.op.value.dst, buf), op := None, copied := p.copied + 1), hasNext)
  {
    hide MetaOf, Bytes, Items, Pack, AllFit, Bs, Delivered;
    if p.copied > 0 {
      LocOther(r, p.copied - 1);
    }
  }

  lemma ProcSized(j: Job, r: nat, p: Process, hasNext: bool)
    requires ProcInv(j, r, p, hasNext)
    ensures Sized(j, p)
  {
  }

  lemma TransferPreserves(j: Job, s: System, r: nat)
    requires Inv(j, s) && r < |s| && Guard(j, s, r, Transfer)
    ensures Inv(j, Apply(j, s, r, Transfer))
  {
    hide SenderInv, ReceiverInv, Holds, MetaOf, Bytes, Pack, Bs, AllFit, Last;
    var p, pr, op := s[r].p, s[r - 1].p, s[r].p.op.value;
    assert ProcInv(j, r, p, r + 1 < |s|) && ProcInv(j, r - 1, pr, true);
    assert LinkAt(j, s, r - 1);
    AnnouncedIsHeld(j, r - 1, pr, true);
    ProcSized(j, r - 1, pr, true);
    HoldsMeans(j, r - 1, pr, p.copied);
    CopyInv(j, r, p, r + 1 < |s|, pr.bufs.Get(op.src));
    assert r + 1 < |s| ==> LinkAt(j, s, r);
    assert r >= 2 ==> LinkAt(j, s, r - 2);
    var s' := Apply(j, s, r, Transfer);
    assert LinkAt(j, s', r - 1);
    Frame(j, s, s', r);
  }

  lemma HoldsMeans(j: Job, r: nat, p: Process, k: nat)
    requires Holds(j, r, p, k)
    ensures k < |Bs(j)| && Bytes(Bs(j)[k]) <= p.bufs.Get(Loc(r, k))
  {
  }

  lemma StepPreserves(j: Job, s: System, s': System)
    requires Inv(j, s) && Step(j, s, s')
    ensures Inv(j, s')
  {
    hide ProcInv, LinkAt, Apply, Guard;
    var r: nat, a :| r < |s| && Guard(j, s, r, a) && s' == Apply(j, s, r, a);
    if a.Transfer? {
      TransferPreserves(j, s, r);
    } else if r == 0 {
      SenderPreserves(j, s);
    } else {
      ReceiverPreserves(j, s, r);
    }
  }

  /** Every state of every interleaving satisfies the invariant. */
  lemma {:induction false} RunInv(j: Job, run: seq<System>, i: nat)
    requires IsRun(j, run) && i < |run|
    ensures Inv(j, run[i])
  {
    hide Inv, Step, IsInit;
    if i == 0 {
      InitInv(j, run[0]);
    } else {
      RunInv(j, run, i - 1);
      StepPreserves(j, run[i - 1], run[i]);
    }
  }
}
