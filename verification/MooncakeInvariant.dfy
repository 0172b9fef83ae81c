/** What every state of the Mooncake chain satisfies as long as no rank has taken data for an
    acknowledgement; with recognisable buckets, that is every reachable state. */
module MooncakeInvariant {
  import opened Buckets
  import opened Mooncake

  function Bs(j: Job): (bs: seq<seq<Weight>>)
    ensures |bs| >= 1
  {
    Pack(j.ws, j.B)
  }

  predicate Last(j: Job, k: nat) {
    AllFit(j.ws, j.B) && k == |Bs(j)| - 1
  }

  /** Every rank keeps bucket k in half k mod 2, so all ranks announce it alike. */
  function InfoOf(j: Job, k: nat): Info
    requires k < |Bs(j)|
  {
    Info(Odd(k), |Bytes(Bs(j)[k])|, MetaOf(Bs(j)[k]), Last(j, k))
  }

  predicate IsInfo(j: Job, info: Info, k: nat) {
    k < |Bs(j)| && info == InfoOf(j, k)
  }

  // ---- one rank: its counters and its log ---------------------------------------------------

  predicate SenderInv(j: Job, p: Process) {
    var nb := |Bs(j)|;
    && p.idx == p.taken == 0 && p.copies == [] && p.yielded == []
    && p.sent <= nb
    && match p.pc
       case Filling(first, i, offset, meta, flushed) =>
         && first <= i <= |j.ws| && AllFit(j.ws[..i], j.B)
         && offset == |Bytes(j.ws[first..i])| && meta == MetaOf(j.ws[first..i])
         && (flushed ==> first == i < |j.ws|)
         && if flushed && |j.ws[i].1| > j.B then p.sent == nb
            else p.sent < nb && Bs(j)[p.sent..] == PackFrom(j.ws[first..i], j.ws[i..], j.B)
       case WaitSlot(i) =>
         && i < |j.ws| && p.sent >= 2 && AllFit(j.ws[..i], j.B)
         && if |j.ws[i].1| > j.B then p.sent == nb
            else p.sent < nb && Bs(j)[p.sent..] == PackFrom([], j.ws[i..], j.B)
       case FinalWait => p.sent == nb && AllFit(j.ws, j.B)
       case Done => p.sent == nb && AllFit(j.ws, j.B)
       case Failed => p.sent == nb && !AllFit(j.ws, j.B)
       case _ => false
  }

  /** Counters of a receiver working on bucket c: whether it has been copied, and sent on. */
  predicate Counts(p: Process, c: nat, copied: bool, sent: bool, hasNext: bool) {
    && p.idx == c && p.taken == c + 1
    && |p.copies| == (if copied then c + 1 else c)
    && p.sent == (if !hasNext then 0 else if sent then c + 1 else c)
  }

  predicate ReceiverInv(j: Job, p: Process, hasNext: bool) {
    var bs := Bs(j);
    && p.taken <= |bs|
    && (forall k :: 0 <= k < |p.copies| ==> k < |bs| && p.copies[k] == Bytes(bs[k]))
    && match p.pc
       case Recv =>
         && p.taken == p.idx == |p.copies| && p.sent == (if hasNext then p.idx else 0)
         && (p.idx == |bs| ==> !AllFit(j.ws, j.B))
       case Done =>
         && p.taken == p.idx == |p.copies| == |bs| && p.sent == (if hasNext then p.idx else 0)
         && AllFit(j.ws, j.B)
       case WaitOwn(info) => hasNext && p.idx >= 2 && Counts(p, p.idx, false, false, hasNext) && IsInfo(j, info, p.idx)
       case Copy(info) => Counts(p, p.idx, false, false, hasNext) && IsInfo(j, info, p.idx)
       case Forward(info) => Counts(p, p.idx, true, false, hasNext) && IsInfo(j, info, p.idx)
       case Yielding(info, k) => Counts(p, p.idx, true, true, hasNext) && IsInfo(j, info, p.idx) && k <= |info.meta|
       case Mark(info) => Counts(p, p.idx, true, true, hasNext) && IsInfo(j, info, p.idx)
       case _ => false
  }

  predicate ProcInv(j: Job, r: nat, p: Process, hasNext: bool) {
    if r == 0 then hasNext && SenderInv(j, p) else ReceiverInv(j, p, hasNext)
  }

  // ---- one link: buffer contents against the successor's progress ---------------------------

  /** The bytes x once the magic word is written over their head. */
  function Overlay(x: seq<Byte>): seq<Byte> {
    if |x| < 4 then MAGIC[..|x|] else MAGIC + x[4..]
  }

  /** Half k mod 2 holds bucket k, its head replaced by the magic word once the successor (which
      has finished G rounds) is done with it. */
  predicate Content(j: Job, b: Two, k: nat, G: nat) {
    var buf := b.Get(Odd(k));
    && k < |Bs(j)|
    && if k < G then Marked(buf) && Overlay(Bytes(Bs(j)[k])) <= buf else Bytes(Bs(j)[k]) <= buf
  }

  /** The rank is past its wait: it is writing the half of bucket sent - 2 again, or has just. */
  predicate Reusing(p: Process) {
    p.pc.Filling? || p.pc.Failed? || p.pc.Copy? || p.pc.Forward?
  }

  predicate Sized(j: Job, p: Process) {
    |p.bufs.a| == |p.bufs.b| == j.B
  }

  predicate Buffers(j: Job, p: Process, G: nat) {
    && Sized(j, p)
    && (p.sent >= 1 ==> Content(j, p.bufs, p.sent - 1, G))
    && (p.sent >= 2 ==> if Reusing(p) && p.sent < |Bs(j)| then G >= p.sent - 1 else Content(j, p.bufs, p.sent - 2, G))
    && (p.pc.Filling? && p.sent < |Bs(j)| && p.pc.first <= p.pc.i <= |j.ws| ==>
          Bytes(j.ws[p.pc.first..p.pc.i]) <= p.bufs.Get(Odd(p.sent)))
    && (p.pc.Forward? ==> p.sent < |Bs(j)| && Bytes(Bs(j)[p.sent]) <= p.bufs.Get(Odd(p.sent)))
  }

  /** Rank r (`p`) and rank r + 1 (`q`, its queue). */
  predicate Link(j: Job, p: Process, q: Process, inbox: seq<Info>) {
    && q.idx <= |q.copies| <= q.taken <= p.sent <= |Bs(j)|
    && p.sent <= q.idx + 2
    && |inbox| == p.sent - q.taken
    && (forall i :: 0 <= i < |inbox| ==> inbox[i] == InfoOf(j, q.taken + i))
    && Buffers(j, p, q.idx)
  }

  predicate LinkAt(j: Job, s: System, r: nat)
    requires r + 1 < |s|
  {
    Link(j, s[r].p, s[r + 1].p, s[r + 1].inbox)
  }

  /** The last rank's buffers are never marked; what it yields is what it copied. */
  predicate LastRank(j: Job, p: Process) {
    var bs := Bs(j);
    && Sized(j, p)
    && (p.pc.Forward? || p.pc.Yielding? || p.pc.Mark? ==>
          p.idx < |bs| && Bytes(bs[p.idx]) <= p.bufs.Get(Odd(p.idx)))
    && p.idx <= |bs|
    && match p.pc
       case Yielding(info, k) =>
         p.idx < |bs| && k <= |Items(bs[p.idx])| && p.yielded == Delivered(bs[..p.idx]) + Items(bs[p.idx])[..k]
       case Mark(_) => p.idx < |bs| && p.yielded == Delivered(bs[..p.idx + 1])
       case _ => p.yielded == Delivered(bs[..p.idx])
  }

  ghost predicate Inv(j: Job, s: System) {
    && |s| >= 2
    && (forall r: nat :: r < |s| ==> ProcInv(j, r, s[r].p, r + 1 < |s|))
    && (forall r: nat :: r + 1 < |s| ==> LinkAt(j, s, r))
    && LastRank(j, s[|s| - 1].p)
  }

  lemma InitInv(j: Job, s: System)
    requires IsInit(j, s)
    ensures Inv(j, s)
  {
    assert j.ws[..0] == [] && j.ws[0..] == j.ws;
    assert Bs(j)[..0] == [];
  }

  /** A step of rank r touches its own process, the successor's queue and the predecessor's
      buffers; these are the obligations left. */
  lemma Frame(j: Job, s: System, s': System, r: nat)
    requires Inv(j, s) && |s'| == |s| && r < |s|
    requires forall i: nat :: i < |s| && i != r && i + 1 != r ==> s'[i].p == s[i].p
    requires forall i: nat :: i < |s| && i != r && i != r + 1 ==> s'[i].inbox == s[i].inbox
    requires r > 0 ==> s'[r - 1].p == s[r - 1].p.(bufs := s'[r - 1].p.bufs)
    requires ProcInv(j, r, s'[r].p, r + 1 < |s|)
    requires r + 1 < |s| ==> LinkAt(j, s', r)
    requires r + 1 == |s| ==> LastRank(j, s'[r].p)
    requires r > 0 ==> LinkAt(j, s', r - 1)
    ensures Inv(j, s')
  {
    hide Buffers, LastRank, SenderInv, ReceiverInv;
    forall i: nat | i < |s| ensures ProcInv(j, i, s'[i].p, i + 1 < |s'|) {
      assert ProcInv(j, i, s[i].p, i + 1 < |s|);
      if i + 1 == r {
        BufsNotInProcInv(j, i, s[i].p, s'[i].p.bufs, true);
      }
    }
    forall i: nat | i + 1 < |s| ensures LinkAt(j, s', i) {
      assert LinkAt(j, s, i);
    }
  }

  lemma BufsNotInProcInv(j: Job, r: nat, p: Process, b: Two, hasNext: bool)
    requires ProcInv(j, r, p, hasNext)
    ensures ProcInv(j, r, p.(bufs := b), hasNext)
  {
    var q := p.(bufs := b);
    if r > 0 {
      assert q.copies == p.copies && q.pc == p.pc;
      assert ReceiverInv(j, q, hasNext);
    }
  }

  // ---- the sender ---------------------------------------------------------------------------

  lemma OddNext(k: nat)
    ensures Odd(k + 1) == !Odd(k) && Odd(k + 2) == Odd(k)
  {
  }

  lemma FillInv(j: Job, p: Process, b: Two)
    requires SenderInv(j, p) && p.pc.Filling? && p.pc.i < |j.ws| && p.pc.offset + |j.ws[p.pc.i].1| <= j.B
    ensures p.sent < |Bs(j)|
    ensures var (name, x) := j.ws[p.pc.i];
            SenderInv(j, p.(bufs := b, pc := Filling(p.pc.first, p.pc.i + 1, p.pc.offset + |x|, Put(p.pc.meta, name, Slot(p.pc.offset, |x|)), false)))
  {
    hide MetaOf, PackFrom, Put, AllFit, Bytes, Bs;
    FillFacts(j.ws, j.B, p.pc.first, p.pc.i);
  }

  lemma FillBuffers(j: Job, p: Process, G: nat, p': Process, w: seq<Byte>)
    requires Buffers(j, p, G) && p.pc.Filling? && p.sent < |Bs(j)| && |w| == j.B
    requires p'.bufs == p.bufs.Set(Odd(p.sent), w) && p'.sent == p.sent && p'.pc.Filling?
    requires p'.pc.first <= p'.pc.i <= |j.ws| ==> Bytes(j.ws[p'.pc.first..p'.pc.i]) <= w
    ensures Buffers(j, p', G)
  {
    hide Bytes, Bs, Content;
    if p.sent > 0 {
      OddNext(p.sent - 1);
      SameHalf(j, p.bufs, p'.bufs, p.sent - 1, G);
    }
  }

  /** What a half holds is a matter of that half. */
  lemma SameHalf(j: Job, b: Two, b': Two, k: nat, G: nat)
    requires b'.Get(Odd(k)) == b.Get(Odd(k))
    ensures Content(j, b', k, G) == Content(j, b, k, G)
  {
    hide Bytes, Bs, Marked, Overlay;
  }

  lemma SenderFills(j: Job, s: System)
    requires Inv(j, s) && Guard(j, s, 0) && s[0].p.pc.Filling?
    requires s[0].p.pc.i < |j.ws| && s[0].p.pc.offset + |j.ws[s[0].p.pc.i].1| <= j.B
    ensures Inv(j, Apply(j, s, 0))
  {
    hide MetaOf, PackFrom, AllFit, ReceiverInv, LastRank, Bytes, Bs, Link;
    var p, s' := s[0].p, Apply(j, s, 0);
    assert ProcInv(j, 0, p, true) && LinkAt(j, s, 0);
    FillInv(j, p, s'[0].p.bufs);
    FillFacts(j.ws, j.B, p.pc.first, p.pc.i);
    BuffersOf(j, p, s[1].p, s[1].inbox);
    var buf := p.bufs.Get(Odd(p.sent));
    WriteAppends(buf, Bytes(j.ws[p.pc.first..p.pc.i]), j.ws[p.pc.i].1);
    FillBuffers(j, p, s[1].p.idx, s'[0].p, Write(buf, p.pc.offset, j.ws[p.pc.i].1));
    LinkSends(j, p, s'[0].p, s[1].p, s[1].inbox);
    hide SenderInv, Write, Put, Buffers;
    SenderFrame(j, s, s');
  }

  lemma WriteAppends(buf: seq<Byte>, done: seq<Byte>, x: seq<Byte>)
    requires done <= buf && |done| + |x| <= |buf|
    ensures done + x <= Write(buf, |done|, x)
  {
  }

  /** The info the sender publishes is the next bucket's, and it moves on as it must. */
  lemma SendInv(j: Job, p: Process)
    requires SenderInv(j, p) && p.pc.Filling? && !(p.pc.flushed && p.pc.i < |j.ws|)
    requires p.pc.i < |j.ws| ==> p.pc.offset + |j.ws[p.pc.i].1| > j.B
    ensures p.sent < |Bs(j)| && Bytes(j.ws[p.pc.first..p.pc.i]) == Bytes(Bs(j)[p.sent])
    ensures Info(Odd(p.sent), p.pc.offset, p.pc.meta, p.pc.i == |j.ws|) == InfoOf(j, p.sent)
    ensures SenderInv(j, p.(sent := p.sent + 1,
                            pc := if p.pc.i == |j.ws| then FinalWait
                                  else if p.sent > 0 then WaitSlot(p.pc.i)
                                  else Filling(p.pc.i, p.pc.i, 0, [], true)))
  {
    hide MetaOf, PackFrom, Put, AllFit, Bytes, Pack;
    FlushFacts(j.ws, j.B, p.pc.first, p.pc.i, p.sent);
  }

  /** Publishing: the half just filled becomes bucket `sent`, the other keeps its content. */
  lemma SendLink(j: Job, p: Process, q: Process, inbox: seq<Info>, pc: Pc)
    requires Link(j, p, q, inbox) && p.pc.Filling? && p.sent < |Bs(j)|
    requires p.pc.first <= p.pc.i <= |j.ws| && Bytes(j.ws[p.pc.first..p.pc.i]) == Bytes(Bs(j)[p.sent])
    requires pc.FinalWait? || pc.WaitSlot? || (p.sent == 0 && pc == Filling(p.pc.i, p.pc.i, 0, [], true))
    ensures Link(j, p.(sent := p.sent + 1, pc := pc), q, inbox + [InfoOf(j, p.sent)])
  {
    hide Bytes, Bs, MetaOf, Buffers;
    SendBuffers(j, p, q.idx, pc);
  }

  lemma SendBuffers(j: Job, p: Process, G: nat, pc: Pc)
    requires Buffers(j, p, G) && p.pc.Filling? && p.sent < |Bs(j)| && G <= p.sent
    requires p.pc.first <= p.pc.i <= |j.ws| && Bytes(j.ws[p.pc.first..p.pc.i]) == Bytes(Bs(j)[p.sent])
    requires pc.FinalWait? || pc.WaitSlot? || (p.sent == 0 && pc == Filling(p.pc.i, p.pc.i, 0, [], true))
    ensures Buffers(j, p.(sent := p.sent + 1, pc := pc), G)
    ensures p.sent + 1 <= G + 2
  {
    EmptyBytes();
    assert j.ws[p.pc.i..p.pc.i] == [];
    hide Bytes, Bs, Marked;
    if p.sent > 0 {
      OddNext(p.sent - 1);
    }
  }

  lemma SenderFrame(j: Job, s: System, s': System)
    requires Inv(j, s) && |s'| == |s| && SenderInv(j, s'[0].p) && Link(j, s'[0].p, s[1].p, s'[1].inbox)
    requires forall i: nat :: 0 < i < |s| ==> s'[i].p == s[i].p
    requires forall i: nat :: 1 < i < |s| ==> s'[i].inbox == s[i].inbox
    ensures Inv(j, s')
  {
    hide SenderInv, ReceiverInv, Link, LastRank;
    Frame(j, s, s', 0);
  }

  lemma SenderSends(j: Job, s: System)
    requires Inv(j, s) && Guard(j, s, 0) && s[0].p.pc.Filling?
    requires var pc := s[0].p.pc; pc.i < |j.ws| ==> pc.offset + |j.ws[pc.i].1| > j.B
    ensures Inv(j, Apply(j, s, 0))
  {
    hide MetaOf, AllFit, ReceiverInv, LastRank, Bytes, Bs, SenderInv, Link, InfoOf, Write, Put;
    var p, s' := s[0].p, Apply(j, s, 0);
    assert ProcInv(j, 0, p, true) && LinkAt(j, s, 0);
    SenderIndex(j, p);
    if p.pc.flushed && p.pc.i < |j.ws| {
      StopInv(j, p, s[1].p, s[1].inbox);
    } else {
      SendInv(j, p);
      SendLink(j, p, s[1].p, s[1].inbox, s'[0].p.pc);
    }
    SenderFrame(j, s, s');
  }

  lemma SenderIndex(j: Job, p: Process)
    requires SenderInv(j, p) && p.pc.Filling?
    ensures p.pc.first <= p.pc.i <= |j.ws|
  {
  }

  lemma StopInv(j: Job, p: Process, q: Process, inbox: seq<Info>)
    requires SenderInv(j, p) && p.pc.Filling? && p.pc.flushed && p.pc.i < |j.ws| && Link(j, p, q, inbox)
    requires p.pc.offset + |j.ws[p.pc.i].1| > j.B
    ensures SenderInv(j, p.(pc := Failed)) && Link(j, p.(pc := Failed), q, inbox)
  {
    StopSender(j, p);
    hide SenderInv, Bs, Content, Bytes, InfoOf;
  }

  lemma StopSender(j: Job, p: Process)
    requires SenderInv(j, p) && p.pc.Filling? && p.pc.flushed && p.pc.i < |j.ws|
    requires p.pc.offset + |j.ws[p.pc.i].1| > j.B
    ensures SenderInv(j, p.(pc := Failed)) && p.sent == |Bs(j)|
  {
    assert j.ws[p.pc.first..p.pc.i] == [];
    EmptyBytes();
    hide MetaOf, Bs, PackFrom, Bytes;
    Oversize(j, p.pc.i);
  }

  lemma EmptyBytes()
    ensures Bytes([]) == []
  {
  }

  lemma Oversize(j: Job, i: nat)
    requires i < |j.ws| && |j.ws[i].1| > j.B
    ensures !AllFit(j.ws, j.B)
  {
  }

  /** Seeing the word in the half of bucket k means the successor is done with bucket k. */
  lemma MagicMeansDone(j: Job, b: Two, k: nat, G: nat)
    requires Distinguishable(j, k) && k + 2 < |Bs(j)| && Content(j, b, k, G) && Marked(b.Get(Odd(k)))
    ensures k < G
  {
    hide Bytes, Pack;
    if k >= G {
      PrefixesAgree(Bytes(Bs(j)[k]), MAGIC, b.Get(Odd(k)));
    }
  }

  lemma PrefixesAgree(x: seq<Byte>, y: seq<Byte>, buf: seq<Byte>)
    requires x <= buf && |y| <= |buf| && buf[..|y|] == y
    ensures x <= y || y <= x
  {
  }

  /** Rank r, if it is about to reuse a half, does so after its successor is done with it. */
  predicate TrueMark(j: Job, s: System, r: nat)
    requires r < |s|
  {
    (s[r].p.pc.WaitSlot? || s[r].p.pc.WaitOwn?) && r + 1 < |s| && 2 <= s[r].p.sent < |Bs(j)| ==>
      s[r + 1].p.idx >= s[r].p.sent - 1
  }

  lemma WaitInv(j: Job, p: Process)
    requires SenderInv(j, p)
    ensures p.pc.WaitSlot? ==> p.sent >= 2 && SenderInv(j, p.(pc := Filling(p.pc.i, p.pc.i, 0, [], true)))
    ensures p.pc.FinalWait? ==> SenderInv(j, p.(pc := Done))
  {
    EmptyBytes();
    hide Bytes, Bs, PackFrom, AllFit;
    assert p.pc.WaitSlot? ==> j.ws[p.pc.i..p.pc.i] == [];
  }

  lemma WaitBuffers(j: Job, p: Process, G: nat)
    requires Buffers(j, p, G) && p.pc.WaitSlot? && p.sent >= 2 && p.pc.i <= |j.ws|
    requires p.sent < |Bs(j)| ==> G >= p.sent - 1
    ensures Buffers(j, p.(pc := Filling(p.pc.i, p.pc.i, 0, [], true)), G)
  {
    EmptyBytes();
    hide Bytes, Bs, Content, Marked;
    assert j.ws[p.pc.i..p.pc.i] == [];
  }

  lemma SenderWaits(j: Job, s: System)
    requires Inv(j, s) && Guard(j, s, 0) && TrueMark(j, s, 0) && (s[0].p.pc.WaitSlot? || s[0].p.pc.FinalWait?)
    ensures Inv(j, Apply(j, s, 0))
  {
    hide ReceiverInv, LastRank, Bs, Marked, Link, Buffers;
    var p, s' := s[0].p, Apply(j, s, 0);
    assert ProcInv(j, 0, p, true) && LinkAt(j, s, 0);
    BuffersOf(j, p, s[1].p, s[1].inbox);
    WaitInv(j, p);
    if p.pc.WaitSlot? {
      WaitBuffers(j, p, s[1].p.idx);
    } else {
      BuffersIgnorePc(j, p, s'[0].p, s[1].p.idx);
    }
    LinkSends(j, p, s'[0].p, s[1].p, s[1].inbox);
    hide SenderInv;
    SenderFrame(j, s, s');
  }

  lemma SenderPreserves(j: Job, s: System)
    requires Inv(j, s) && Guard(j, s, 0) && TrueMark(j, s, 0)
    ensures Inv(j, Apply(j, s, 0))
  {
    hide ReceiverInv, LastRank, LinkAt, Apply;
    assert ProcInv(j, 0, s[0].p, true);
    var pc := s[0].p.pc;
    if !pc.Filling? {
      SenderWaits(j, s);
    } else if pc.i < |j.ws| && pc.offset + |j.ws[pc.i].1| <= j.B {
      SenderFills(j, s);
    } else {
      SenderSends(j, s);
    }
  }

  // ---- receivers ----------------------------------------------------------------------------

  /** What a receiver's step must leave true, one obligation at a time. */
  lemma ReceiverFrame(j: Job, s: System, s': System, r: nat)
    requires Inv(j, s) && |s'| == |s| && 0 < r < |s|
    requires forall i: nat :: i < |s| && i != r && i + 1 != r ==> s'[i].p == s[i].p
    requires forall i: nat :: i < |s| && i != r && i != r + 1 ==> s'[i].inbox == s[i].inbox
    requires s'[r - 1].p == s[r - 1].p.(bufs := s'[r - 1].p.bufs)
    requires ReceiverInv(j, s'[r].p, r + 1 < |s|)
    requires Link(j, s'[r - 1].p, s'[r].p, s'[r].inbox)
    requires r + 1 < |s| ==> Link(j, s'[r].p, s[r + 1].p, s'[r + 1].inbox)
    requires r + 1 == |s| ==> LastRank(j, s'[r].p)
    ensures Inv(j, s')
  {
    hide Link, LastRank, ReceiverInv, SenderInv;
    Frame(j, s, s', r);
  }

  lemma ReceiverFacts(j: Job, s: System, r: nat)
    requires Inv(j, s) && 0 < r < |s|
    ensures ReceiverInv(j, s[r].p, r + 1 < |s|)
    ensures Link(j, s[r - 1].p, s[r].p, s[r].inbox)
    ensures r + 1 < |s| ==> Link(j, s[r].p, s[r + 1].p, s[r + 1].inbox)
    ensures r + 1 == |s| ==> LastRank(j, s[r].p)
  {
    hide Link, LastRank, ReceiverInv, SenderInv;
    assert ProcInv(j, r, s[r].p, r + 1 < |s|) && LinkAt(j, s, r - 1);
    assert r + 1 < |s| ==> LinkAt(j, s, r);
  }

  /** The successor side of a link only reads these four fields. */
  lemma LinkReads(j: Job, p: Process, q: Process, q': Process, inbox: seq<Info>)
    requires Link(j, p, q, inbox) && q'.idx == q.idx && q'.taken == q.taken
    requires q.idx <= |q'.copies| <= q.taken
    ensures Link(j, p, q', inbox)
  {
    hide Buffers, InfoOf, Bs;
  }

  /** ... and the publisher side only these, when nothing is sent. */
  lemma LinkSends(j: Job, p: Process, p': Process, q: Process, inbox: seq<Info>)
    requires Link(j, p, q, inbox) && p'.sent == p.sent && Buffers(j, p', q.idx)
    ensures Link(j, p', q, inbox)
  {
    hide Buffers;
  }

  lemma BuffersIgnorePc(j: Job, p: Process, p': Process, G: nat)
    requires Buffers(j, p, G) && p'.bufs == p.bufs && p'.sent == p.sent
    requires !p'.pc.Filling? && !p'.pc.Forward?
    requires Reusing(p') == Reusing(p) || (p.sent >= 2 && Reusing(p') ==> G >= p.sent - 1)
    requires Reusing(p) ==> Reusing(p') || p.sent < 2
    ensures Buffers(j, p', G)
  {
    hide Content, Bytes;
  }

  lemma TakenBucket(j: Job, p: Process, q: Process, inbox: seq<Info>)
    requires Link(j, p, q, inbox) && inbox != []
    ensures IsInfo(j, inbox[0], q.taken)
    ensures Link(j, p, q.(taken := q.taken + 1), inbox[1..])
  {
    hide Buffers, MetaOf, Bytes, Bs;
    assert inbox[0] == InfoOf(j, q.taken + 0);
    forall i | 0 <= i < |inbox[1..]| ensures inbox[1..][i] == InfoOf(j, q.taken + 1 + i) {
      assert inbox[1..][i] == inbox[i + 1] == InfoOf(j, q.taken + (i + 1));
    }
  }

  lemma CountsOf(j: Job, p: Process, hasNext: bool)
    requires ReceiverInv(j, p, hasNext)
    ensures p.idx <= |p.copies| <= p.taken <= |Bs(j)|
    ensures p.pc.WaitOwn? || p.pc.Copy? ==> Counts(p, p.idx, false, false, hasNext) && p.idx < p.taken && p.pc.info.ptr == Odd(p.idx)
    ensures p.pc.Forward? ==> Counts(p, p.idx, true, false, hasNext) && |p.copies| == p.idx + 1
    ensures p.pc.Yielding? || p.pc.Mark? ==> Counts(p, p.idx, true, true, hasNext) && |p.copies| == p.idx + 1
  {
    hide Bytes, Bs;
    match p.pc {
      case WaitOwn(info) => assert Counts(p, p.idx, false, false, hasNext);
      case Copy(info) => assert Counts(p, p.idx, false, false, hasNext);
      case Forward(info) => assert Counts(p, p.idx, true, false, hasNext);
      case Yielding(info, k) => assert Counts(p, p.idx, true, true, hasNext);
      case Mark(info) => assert Counts(p, p.idx, true, true, hasNext);
      case _ =>
    }
  }

  lemma ReceiverTakes(j: Job, s: System, r: nat)
    requires Inv(j, s) && 0 < r < |s| && Guard(j, s, r) && s[r].p.pc.Recv?
    ensures Inv(j, Apply(j, s, r))
  {
    hide Inv, LinkAt, Link, SenderInv, Bs, MetaOf, Bytes, Items, Delivered, Buffers, InfoOf, AllFit;
    ReceiverFacts(j, s, r);
    var p, s' := s[r].p, Apply(j, s, r);
    CountsOf(j, p, r + 1 < |s|);
    TakenBucket(j, s[r - 1].p, p, s[r].inbox);
    LinkReads(j, s[r - 1].p, p.(taken := p.taken + 1), s'[r].p, s'[r].inbox);
    if r + 1 < |s| {
      BuffersOf(j, p, s[r + 1].p, s[r + 1].inbox);
      BuffersIgnorePc(j, p, s'[r].p, s[r + 1].p.idx);
      LinkSends(j, p, s'[r].p, s[r + 1].p, s[r + 1].inbox);
    }
    ReceiverFrame(j, s, s', r);
  }

  lemma BuffersOf(j: Job, p: Process, q: Process, inbox: seq<Info>)
    requires Link(j, p, q, inbox)
    ensures Sized(j, p) && Buffers(j, p, q.idx) && q.idx <= |q.copies| <= q.taken <= p.sent <= |Bs(j)| && p.sent <= q.idx + 2
  {
    hide Content;
  }

  lemma ReceiverWaits(j: Job, s: System, r: nat)
    requires Inv(j, s) && 0 < r < |s| && Guard(j, s, r) && TrueMark(j, s, r) && s[r].p.pc.WaitOwn?
    ensures Inv(j, Apply(j, s, r))
  {
    hide Inv, LinkAt, Link, SenderInv, Bs, MetaOf, Bytes, Items, Delivered, Content, Marked, InfoOf, AllFit;
    ReceiverFacts(j, s, r);
    var p, s' := s[r].p, Apply(j, s, r);
    CountsOf(j, p, r + 1 < |s|);
    LinkReads(j, s[r - 1].p, p, s'[r].p, s[r].inbox);
    BuffersOf(j, p, s[r + 1].p, s[r + 1].inbox);
    BuffersIgnorePc(j, p, s'[r].p, s[r + 1].p.idx);
    LinkSends(j, p, s'[r].p, s[r + 1].p, s[r + 1].inbox);
    ReceiverFrame(j, s, s', r);
  }

  /** The bucket a receiver is about to copy is intact in its predecessor's buffer. */
  lemma SourceIntact(j: Job, p: Process, q: Process, inbox: seq<Info>)
    requires Link(j, p, q, inbox) && q.idx < q.taken
    ensures q.idx < |Bs(j)| && Bytes(Bs(j)[q.idx]) <= p.bufs.Get(Odd(q.idx))
    ensures |p.bufs.Get(Odd(q.idx))| == j.B
  {
    hide Bytes, Bs, InfoOf;
  }

  /** A copy lands in the half that is free, and leaves the other alone. */
  lemma CopyBuffers(j: Job, p: Process, G: nat, p': Process, w: seq<Byte>)
    requires Buffers(j, p, G) && p.pc.Copy? && p.sent < |Bs(j)|
    requires |w| == j.B && Bytes(Bs(j)[p.sent]) <= w
    requires p'.bufs == p.bufs.Set(Odd(p.sent), w) && p'.sent == p.sent && p'.pc.Forward?
    ensures Buffers(j, p', G)
  {
    hide Bytes, Bs, Content;
    if p.sent > 0 {
      OddNext(p.sent - 1);
      SameHalf(j, p.bufs, p'.bufs, p.sent - 1, G);
    }
  }

  lemma WriteAtStart(buf: seq<Byte>, x: seq<Byte>)
    requires |x| <= |buf|
    ensures x <= Write(buf, 0, x)
  {
  }

  lemma ReceiverCopies(j: Job, s: System, r: nat)
    requires Inv(j, s) && 0 < r < |s| && Guard(j, s, r) && s[r].p.pc.Copy?
    ensures Inv(j, Apply(j, s, r))
  {
    hide Inv, LinkAt, Link, SenderInv, MetaOf, Bytes, Bs, Items, Delivered, Buffers, AllFit, Write;
    ReceiverFacts(j, s, r);
    var p, s' := s[r].p, Apply(j, s, r);
    CountsOf(j, p, r + 1 < |s|);
    SourceIntact(j, s[r - 1].p, p, s[r].inbox);
    var x := Bytes(Bs(j)[p.idx]);
    assert s[r - 1].p.bufs.Get(p.pc.info.ptr)[..p.pc.info.len] == x;
    assert s' == At(s, r, s'[r].p);
    LinkReads(j, s[r - 1].p, p, s'[r].p, s[r].inbox);
    if r + 1 < |s| {
      BuffersOf(j, p, s[r + 1].p, s[r + 1].inbox);
      WriteAtStart(p.bufs.Get(Odd(p.idx)), x);
      CopyBuffers(j, p, s[r + 1].p.idx, s'[r].p, Write(p.bufs.Get(Odd(p.idx)), 0, x));
      LinkSends(j, p, s'[r].p, s[r + 1].p, s[r + 1].inbox);
    } else {
      LastCopies(j, p, x, p.pc.info);
    }
    ReceiverFrame(j, s, s', r);
  }

  lemma LastCopies(j: Job, p: Process, x: seq<Byte>, info: Info)
    requires LastRank(j, p) && p.pc.Copy? && p.idx < |Bs(j)| && x == Bytes(Bs(j)[p.idx]) && |x| <= j.B
    ensures LastRank(j, p.(bufs := p.bufs.Set(Odd(p.idx), Write(p.bufs.Get(Odd(p.idx)), 0, x)),
                           copies := p.copies + [x], pc := Forward(info)))
  {
    WriteAtStart(p.bufs.Get(Odd(p.idx)), x);
    hide Bytes, Bs, Items, Delivered, Write;
  }

  /** Sending on the bucket just copied. */
  lemma ForwardLink(j: Job, p: Process, q: Process, inbox: seq<Info>, pc: Pc)
    requires Link(j, p, q, inbox) && p.pc.Forward? && p.sent < |Bs(j)| && pc.Yielding?
    ensures Link(j, p.(sent := p.sent + 1, pc := pc), q, inbox + [InfoOf(j, p.sent)])
  {
    hide Bytes, Bs, MetaOf, Marked;
    if p.sent > 0 {
      OddNext(p.sent - 1);
    }
    ForwardBuffers(j, p, q.idx, pc);
    hide Buffers;
  }

  lemma ForwardBuffers(j: Job, p: Process, G: nat, pc: Pc)
    requires Buffers(j, p, G) && p.pc.Forward? && p.sent < |Bs(j)| && pc.Yielding? && G <= p.sent
    ensures Buffers(j, p.(sent := p.sent + 1, pc := pc), G)
  {
    hide Bytes, Bs, MetaOf, Marked;
  }

  lemma ReceiverForwards(j: Job, s: System, r: nat)
    requires Inv(j, s) && 0 < r < |s| && Guard(j, s, r) && s[r].p.pc.Forward?
    ensures Inv(j, Apply(j, s, r))
  {
    hide Inv, LinkAt, Link, SenderInv, MetaOf, Bytes, Bs, Items, Delivered, Buffers, AllFit;
    ReceiverFacts(j, s, r);
    var p, s' := s[r].p, Apply(j, s, r);
    CountsOf(j, p, r + 1 < |s|);
    LinkReads(j, s[r - 1].p, p, s'[r].p, s[r].inbox);
    if r + 1 < |s| {
      ForwardLink(j, p, s[r + 1].p, s[r + 1].inbox, s'[r].p.pc);
    } else {
      assert Items(Bs(j)[p.idx])[..0] == [];
    }
    ReceiverFrame(j, s, s', r);
  }

  lemma ReceiverYields(j: Job, s: System, r: nat)
    requires Inv(j, s) && 0 < r < |s| && Guard(j, s, r) && s[r].p.pc.Yielding?
    ensures Inv(j, Apply(j, s, r))
  {
    hide Inv, LinkAt, Link, SenderInv, LastRank, MetaOf, Bytes, Bs, Items, Delivered, Buffers, AllFit, InBounds, Read, InfoOf;
    ReceiverFacts(j, s, r);
    var p, s' := s[r].p, Apply(j, s, r);
    CountsOf(j, p, r + 1 < |s|);
    LinkReads(j, s[r - 1].p, p, s'[r].p, s[r].inbox);
    if r + 1 < |s| {
      BuffersOf(j, p, s[r + 1].p, s[r + 1].inbox);
      BuffersIgnorePc(j, p, s'[r].p, s[r + 1].p.idx);
      LinkSends(j, p, s'[r].p, s[r + 1].p, s[r + 1].inbox);
    } else {
      LastYields(j, p);
    }
    ReceiverFrame(j, s, s', r);
  }

  lemma LastYields(j: Job, p: Process)
    requires LastRank(j, p) && p.pc.Yielding? && IsInfo(j, p.pc.info, p.idx)
    ensures |Items(Bs(j)[p.idx])| == |p.pc.info.meta|
    ensures p.pc.k < |p.pc.info.meta| ==>
              && InBounds(p.pc.info.meta[p.pc.k].1, p.bufs.Get(Odd(p.idx)))
              && LastRank(j, p.(yielded := p.yielded + [(p.pc.info.meta[p.pc.k].0, Read(p.bufs.Get(Odd(p.idx)), p.pc.info.meta[p.pc.k].1))],
                                pc := Yielding(p.pc.info, p.pc.k + 1)))
    ensures p.pc.k == |p.pc.info.meta| ==> LastRank(j, p.(pc := Mark(p.pc.info)))
  {
    var c, k := p.idx, p.pc.k;
    YieldedItem(j, p.bufs.Get(Odd(c)), p.pc.info.meta, c);
    hide Bytes, MetaOf, Items, Delivered, InBounds, Read, Bs, IsInfo;
    if k < |Items(Bs(j)[c])| {
      assert Items(Bs(j)[c])[..k + 1] == Items(Bs(j)[c])[..k] + [Items(Bs(j)[c])[k]];
    } else {
      YieldedAll(Bs(j), c);
    }
  }

  /** What the item being yielded is: the slice of the buffer is the weight that was sent. */
  lemma YieldedItem(j: Job, buf: seq<Byte>, m: Meta, c: nat)
    requires c < |Bs(j)| && m == MetaOf(Bs(j)[c]) && Bytes(Bs(j)[c]) <= buf
    ensures |Items(Bs(j)[c])| == |m|
    ensures forall k :: 0 <= k < |m| ==> InBounds(m[k].1, buf) && (m[k].0, Read(buf, m[k].1)) == Items(Bs(j)[c])[k]
  {
    BucketRoundTrip(Bs(j)[c], buf);
  }

  lemma MarkLink(j: Job, p: Process, q: Process, inbox: seq<Info>, q': Process)
    requires Link(j, p, q, inbox) && q.idx < |q.copies| && |p.bufs.Get(Odd(q.idx))| >= 4
    requires q'.idx == q.idx + 1 && q'.copies == q.copies && q'.taken == q.taken
    ensures Link(j, p.(bufs := p.bufs.Set(Odd(q.idx), Write(p.bufs.Get(Odd(q.idx)), 0, MAGIC))), q', inbox)
  {
    MarkBuffers(j, p, q.idx);
    hide Buffers, Write;
  }

  lemma OverlayWritten(buf: seq<Byte>, x: seq<Byte>)
    requires x <= buf && |buf| >= 4
    ensures Overlay(x) <= Write(buf, 0, MAGIC) && Marked(Write(buf, 0, MAGIC))
  {
    var w := Write(buf, 0, MAGIC);
    assert w == MAGIC + buf[4..];
    assert w[..4] == MAGIC;
    if |x| >= 4 {
      assert Overlay(x) == w[..|x|];
    } else {
      assert Overlay(x) == w[..|x|];
    }
  }

  /** Marking bucket G in the predecessor's buffers. */
  lemma MarkBuffers(j: Job, p: Process, G: nat)
    requires Buffers(j, p, G) && G < p.sent <= G + 2 && |p.bufs.Get(Odd(G))| >= 4
    ensures Buffers(j, p.(bufs := p.bufs.Set(Odd(G), Write(p.bufs.Get(Odd(G)), 0, MAGIC))), G + 1)
  {
    var w := Write(p.bufs.Get(Odd(G)), 0, MAGIC);
    if Bytes(Bs(j)[G]) <= p.bufs.Get(Odd(G)) {
      OverlayWritten(p.bufs.Get(Odd(G)), Bytes(Bs(j)[G]));
    }
    hide Bs, Bytes, Marked, Write, Overlay;
    OddNext(G);
    if G > 0 {
      OddNext(G - 1);
    }
    if p.sent == G + 1 {
      assert Content(j, p.bufs.Set(Odd(G), w), G, G + 1);
    }
  }

  lemma ReceiverMarks(j: Job, s: System, r: nat)
    requires Inv(j, s) && 0 < r < |s| && Guard(j, s, r) && s[r].p.pc.Mark?
    ensures Inv(j, Apply(j, s, r))
  {
    hide Inv, LinkAt, Link, SenderInv, MetaOf, Bytes, Bs, Items, Delivered, Buffers, AllFit, Write;
    ReceiverFacts(j, s, r);
    var p, s' := s[r].p, Apply(j, s, r);
    CountsOf(j, p, r + 1 < |s|);
    MarkLink(j, s[r - 1].p, p, s[r].inbox, s'[r].p);
    if r + 1 < |s| {
      BuffersOf(j, p, s[r + 1].p, s[r + 1].inbox);
      BuffersIgnorePc(j, p, s'[r].p, s[r + 1].p.idx);
      LinkSends(j, p, s'[r].p, s[r + 1].p, s[r + 1].inbox);
    }
    ReceiverFrame(j, s, s', r);
  }

  lemma ReceiverPreserves(j: Job, s: System, r: nat)
    requires Inv(j, s) && 0 < r < |s| && Guard(j, s, r) && TrueMark(j, s, r)
    ensures Inv(j, Apply(j, s, r))
  {
    hide SenderInv, LastRank, LinkAt, Apply;
    assert ProcInv(j, r, s[r].p, r + 1 < |s|);
    match s[r].p.pc {
      case Recv => ReceiverTakes(j, s, r);
      case WaitOwn(_) => ReceiverWaits(j, s, r);
      case Copy(_) => ReceiverCopies(j, s, r);
      case Forward(_) => ReceiverForwards(j, s, r);
      case Yielding(_, _) => ReceiverYields(j, s, r);
      case Mark(_) => ReceiverMarks(j, s, r);
      case _ =>
    }
  }

  /** Every step keeps the invariant, but for a wait that ends on data. */
  lemma RankPreserves(j: Job, s: System, r: nat)
    requires Inv(j, s) && r < |s| && Guard(j, s, r) && TrueMark(j, s, r)
    ensures Inv(j, Apply(j, s, r))
  {
    hide Inv, Apply, Guard, TrueMark;
    if r == 0 {
      SenderPreserves(j, s);
    } else {
      ReceiverPreserves(j, s, r);
    }
  }

  /** A wait for a distinguishable bucket ends only on the successor's word. */
  lemma MarksAreTrue(j: Job, s: System, r: nat)
    requires Inv(j, s) && r < |s| && Guard(j, s, r)
    requires (s[r].p.pc.WaitSlot? || s[r].p.pc.WaitOwn?) && s[r].p.sent >= 2 ==> Distinguishable(j, s[r].p.sent - 2)
    ensures TrueMark(j, s, r)
  {
    hide Inv, Bytes, Bs, Distinguishable, MetaOf, Read, InBounds;
    var p := s[r].p;
    if (p.pc.WaitSlot? || p.pc.WaitOwn?) && r + 1 < |s| && 2 <= p.sent < |Bs(j)| {
      LinkFacts(j, s, r);
      OddNext(p.sent - 2);
      MagicMeansDone(j, p.bufs, p.sent - 2, s[r + 1].p.idx);
    }
  }

  /** A half too short for the word never shows it. */
  lemma TinyHalves(j: Job, s: System, r: nat)
    requires Inv(j, s) && r < |s| && Guard(j, s, r) && j.B < 4
    ensures TrueMark(j, s, r)
  {
    hide Inv, Bytes, Bs, MetaOf, Read, InBounds, Content;
    if r + 1 < |s| {
      LinkFacts(j, s, r);
      NeverMarked(j, s[r].p, s[r + 1].p.idx);
    }
  }

  lemma NeverMarked(j: Job, p: Process, G: nat)
    requires Buffers(j, p, G) && j.B < 4
    ensures forall k: nat :: !Marked(p.bufs.Get(Odd(k)))
  {
    hide Content, Bytes, Bs;
  }

  lemma LinkFacts(j: Job, s: System, r: nat)
    requires Inv(j, s) && r + 1 < |s|
    ensures Link(j, s[r].p, s[r + 1].p, s[r + 1].inbox) && Buffers(j, s[r].p, s[r + 1].p.idx)
    ensures s[r].p.pc.WaitOwn? ==> r > 0 && s[r].p.sent == s[r].p.idx
  {
    hide Link, SenderInv, ReceiverInv, LastRank;
    assert LinkAt(j, s, r) && ProcInv(j, r, s[r].p, true);
    BuffersOf(j, s[r].p, s[r + 1].p, s[r + 1].inbox);
    WaitOwnCounts(j, r, s[r].p);
  }

  lemma WaitOwnCounts(j: Job, r: nat, p: Process)
    requires ProcInv(j, r, p, true)
    ensures p.pc.WaitOwn? ==> r > 0 && p.sent == p.idx
  {
    hide SenderInv, ReceiverInv;
    if r > 0 {
      CountsOf(j, p, true);
    } else {
      SenderPcs(j, p);
    }
  }

  lemma SenderPcs(j: Job, p: Process)
    requires SenderInv(j, p)
    ensures p.pc.Filling? || p.pc.WaitSlot? || p.pc.FinalWait? || p.pc.Done? || p.pc.Failed?
  {
    hide Bs, Bytes, PackFrom, AllFit, MetaOf;
  }

  lemma StepPreserves(j: Job, s: System, s': System)
    requires Inv(j, s) && Recognisable(j) && Step(j, s, s')
    ensures Inv(j, s')
  {
    hide Inv, Apply, Guard, Distinguishable;
    var r: nat :| r < |s| && Guard(j, s, r) && s' == Apply(j, s, r);
    if j.B < 4 {
      TinyHalves(j, s, r);
    } else {
      MarksAreTrue(j, s, r);
    }
    RankPreserves(j, s, r);
  }

  /** Every state of every interleaving satisfies the invariant. */
  lemma {:induction false} RunInv(j: Job, run: seq<System>, i: nat)
    requires IsRun(j, run) && Recognisable(j) && i < |run|
    ensures Inv(j, run[i])
  {
    hide Inv, Step, IsInit, Recognisable;
    if i == 0 {
      InitInv(j, run[0]);
    } else {
      RunInv(j, run, i - 1);
      StepPreserves(j, run[i - 1], run[i]);
    }
  }
}
