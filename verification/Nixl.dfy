/** The NIXL weight transfer: rank 0 packs buckets, ranks 1..N store and forward them along a
    chain.  Every rank owns two buffers it swaps, a queue of messages from its predecessor and a
    queue of read notifications from its successor.  Ranks step in any order, and the copy of a
    remote read lands at any moment between its start and its completion. */
module Nixl {
  import opened Buckets
  import opened Options

  /** What a publication carries; `buf` names the publisher's buffer, the key is fresh per agent. */
  datatype Msg = Msg(key: nat, buf: bool, meta: Meta, last: bool)

  /** A read in flight: from the predecessor's buffer `src` into the own buffer `dst`. */
  datatype ReadOp = ReadOp(src: bool, dst: bool, key: nat)

  datatype Pc =
    // the sender; `first` is history: where the open bucket starts
    | Filling(first: nat, i: nat, offset: nat, meta: Meta, flushed: bool)
    | FinalWait
    // a receiver
    | First
    | FirstRead(m: Msg)
    | Top(m: Msg)
    | Want(m: Msg)
    | Yielding(m: Msg, next: Msg, k: nat)
    | AwaitAck(next: Msg)
    | AwaitRead(next: Msg)
    | YieldingLast(m: Msg, k: nat)
    | AwaitLast
    // either
    | Done
    | Failed

  /** One rank's program: `send` is the buffer currently called send_buf; `taken` and `copied`
      count messages read and reads completed, `yielded` is what its caller has been given. */
  datatype Process = Process(bufs: Two, send: bool, published: nat, awaiting: Option<nat>,
                             taken: nat, op: Option<ReadOp>, copied: nat, yielded: seq<Weight>, pc: Pc)

  datatype Node = Node(p: Process, notifs: seq<nat>, inbox: seq<Msg>)

  type System = seq<Node>

  datatype Job = Job(ws: seq<Weight>, B: nat)

  datatype Action = Program | Transfer

  // ---- the steps ----------------------------------------------------------------------------

  /** The previous publication has been acknowledged, or there is none. */
  predicate AckReady(n: Node) {
    n.p.awaiting.None? || n.notifs != []
  }

  predicate Guard(j: Job, s: System, r: nat, a: Action)
    requires r < |s|
  {
    var n := s[r];
    if a.Transfer? then r > 0 && n.p.op.Some?
    else match n.p.pc
      case Filling(_, i, offset, _, flushed) =>
        && i <= |j.ws|
        && |n.p.bufs.Get(n.p.send)| == j.B
        && ((i < |j.ws| && (offset + |j.ws[i].1| <= j.B || flushed)) || AckReady(n))
      case FinalWait => n.notifs != []
      case First => n.inbox != []
      case FirstRead(_) => n.p.op.None?
      case Top(_) => true
      case Want(_) => n.inbox != []
      case Yielding(m, _, k) => k < |m.meta| ==> InBounds(m.meta[k].1, n.p.bufs.Get(n.p.send))
      case AwaitAck(_) => AckReady(n)
      case AwaitRead(_) => n.p.op.None?
      case YieldingLast(m, k) => k < |m.meta| ==> InBounds(m.meta[k].1, n.p.bufs.Get(n.p.send))
      case AwaitLast => AckReady(n)
      case Done => false
      case Failed => false
  }

  /** `wait_for_complete` on the own publication: take the notification and compare its key. */
  function Acked(n: Node): Node
    requires AckReady(n)
  {
    if n.p.awaiting.None? then n
    else if n.notifs[0] == n.p.awaiting.value
    then n.(p := n.p.(awaiting := None), notifs := n.notifs[1..])
    else n.(p := n.p.(pc := Failed), notifs := n.notifs[1..])
  }

  /** `ReadableOperation`: announce the send buffer to the next rank, if there is one. */
  function Publish(s: System, r: nat, meta: Meta, last: bool): System
    requires r < |s|
  {
    if r + 1 == |s| then s
    else
      var p := s[r].p;
      s[r := s[r].(p := p.(published := p.published + 1, awaiting := Some(p.published)))]
       [r + 1 := s[r + 1].(inbox := s[r + 1].inbox + [Msg(p.published, p.send, meta, last)])]
  }

  /** `read_metadata` and `begin_read` into the receive buffer. */
  function Take(n: Node): Node
    requires n.inbox != []
  {
    var m := n.inbox[0];
    n.(p := n.p.(taken := n.p.taken + 1, op := Some(ReadOp(m.buf, !n.p.send, m.key))), inbox := n.inbox[1..])
  }

  function At(s: System, r: nat, pc: Pc): System
    requires r < |s|
  {
    s[r := s[r].(p := s[r].p.(pc := pc))]
  }

  function Yielded(p: Process, m: Msg, k: nat): Process
    requires k < |m.meta| && InBounds(m.meta[k].1, p.bufs.Get(p.send))
  {
    p.(yielded := p.yielded + [(m.meta[k].0, Read(p.bufs.Get(p.send), m.meta[k].1))])
  }

  function SenderStep(j: Job, s: System, r: nat): System
    requires r < |s| && Guard(j, s, r, Program) && s[r].p.pc.Filling?
  {
    var n := s[r];
    var Filling(first, i, offset, meta, flushed) := n.p.pc;
    if i < |j.ws| && offset + |j.ws[i].1| <= j.B then
      var (name, x) := j.ws[i];
      s[r := n.(p := n.p.(bufs := n.p.bufs.Set(n.p.send, Write(n.p.bufs.Get(n.p.send), offset, x)),
                          pc := Filling(first, i + 1, offset + |x|, Put(meta, name, Slot(offset, |x|)), false)))]
    else if i < |j.ws| && flushed then
      At(s, r, Failed)
    else
      var n' := Acked(n);
      if n'.p.pc.Failed? then s[r := n']
      else
        var s' := Publish(s[r := n'], r, meta, i == |j.ws|);
        if i == |j.ws| then At(s', r, FinalWait)
        else s'[r := s'[r].(p := s'[r].p.(send := !n.p.send, pc := Filling(i, i, 0, [], true)))]
  }

  function Apply(j: Job, s: System, r: nat, a: Action): System
    requires r < |s| && Guard(j, s, r, a)
  {
    var n := s[r];
    if a.Transfer? then
      var op := n.p.op.value;
      s[r := n.(p := n.p.(bufs := n.p.bufs.Set(op.dst, s[r - 1].p.bufs.Get(op.src)), op := None, copied := n.p.copied + 1))]
       [r - 1 := s[r - 1].(notifs := s[r - 1].notifs + [op.key])]
    else match n.p.pc
      case Filling(_, _, _, _, _) => SenderStep(j, s, r)
      case FinalWait =>
        var n' := Acked(n);
        if n'.p.pc.Failed? then s[r := n'] else At(s[r := n'], r, Done)
      case First => At(s[r := Take(n)], r, FirstRead(n.inbox[0]))
      case FirstRead(m) => At(s[r := n.(p := n.p.(send := !n.p.send))], r, Top(m))
      case Top(m) => At(Publish(s, r, m.meta, m.last), r, if m.last then YieldingLast(m, 0) else Want(m))
      case Want(m) => At(s[r := Take(n)], r, Yielding(m, n.inbox[0], 0))
      case Yielding(m, next, k) =>
        if k < |m.meta| then At(s[r := n.(p := Yielded(n.p, m, k))], r, Yielding(m, next, k + 1))
        else At(s, r, AwaitAck(next))
      case AwaitAck(next) =>
        var n' := Acked(n);
        if n'.p.pc.Failed? then s[r := n'] else At(s[r := n'], r, AwaitRead(next))
      case AwaitRead(next) => At(s[r := n.(p := n.p.(send := !n.p.send))], r, Top(next))
      case YieldingLast(m, k) =>
        if k < |m.meta| then At(s[r := n.(p := Yielded(n.p, m, k))], r, YieldingLast(m, k + 1))
        else At(s, r, AwaitLast)
      case AwaitLast =>
        var n' := Acked(n);
        if n'.p.pc.Failed? then s[r := n'] else At(s[r := n'], r, Done)
  }

  predicate IsInit(j: Job, s: System) {
    && |s| >= 2
    && forall r :: 0 <= r < |s| ==>
         && s[r].notifs == [] && s[r].inbox == []
         && |s[r].p.bufs.a| == |s[r].p.bufs.b| == j.B
         && s[r].p == Process(s[r].p.bufs, false, 0, None, 0, None, 0, [],
                              if r == 0 then Filling(0, 0, 0, [], false) else First)
  }

  ghost predicate Step(j: Job, s: System, s': System) {
    exists r: nat, a :: r < |s| && Guard(j, s, r, a) && s' == Apply(j, s, r, a)
  }

  ghost predicate IsRun(j: Job, run: seq<System>) {
    && run != [] && IsInit(j, run[0])
    && forall i :: 0 <= i < |run| - 1 ==> Step(j, run[i], run[i + 1])
  }
}
