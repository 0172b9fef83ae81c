/** The Mooncake weight transfer: a chain like NIXL's, but acknowledged through memory.  A rank
    that has used a bucket overwrites the first four bytes of its predecessor's buffer with a
    magic word; the predecessor polls for the word before it reuses that buffer. */
module Mooncake {
  import opened Buckets

  const MAGIC: seq<Byte> := [0xAB, 0xDC, 0xEF, 0x88]

  datatype Info = Info(ptr: bool, len: nat, meta: Meta, last: bool)

  datatype Pc =
    // the sender; `first` is history: where the open bucket starts
    | Filling(first: nat, i: nat, offset: nat, meta: Meta, flushed: bool)
    | WaitSlot(i: nat)
    | FinalWait
    // a receiver
    | Recv
    | WaitOwn(info: Info)
    | Copy(info: Info)
    | Forward(info: Info)
    | Yielding(info: Info, k: nat)
    | Mark(info: Info)
    // either
    | Done
    | Failed

  /** `sent` counts infos sent on, `idx` completed receive rounds, `taken` infos received;
      `copies` and `yielded` log what was read from the predecessor and what was handed out. */
  datatype Process = Process(bufs: Two, sent: nat, idx: nat, taken: nat,
                             copies: seq<seq<Byte>>, yielded: seq<Weight>, pc: Pc)

  datatype Node = Node(p: Process, inbox: seq<Info>)

  type System = seq<Node>

  datatype Job = Job(ws: seq<Weight>, B: nat)

  predicate Odd(k: nat) {
    k % 2 == 1
  }

  /** `wait_for_complete` would return. */
  predicate Marked(buf: seq<Byte>) {
    |buf| >= 4 && buf[..4] == MAGIC
  }

  /** What rank r needs to take its next step: every rank runs one sequential program. */
  predicate Guard(j: Job, s: System, r: nat)
    requires r < |s|
  {
    var n := s[r];
    match n.p.pc
    case Filling(_, i, offset, _, _) => i <= |j.ws| && |n.p.bufs.Get(Odd(n.p.sent))| == j.B
    case WaitSlot(_) => Marked(n.p.bufs.Get(Odd(n.p.sent)))
    case FinalWait => n.p.sent > 0 && Marked(n.p.bufs.Get(Odd(n.p.sent - 1)))
    case Recv => r > 0 && n.inbox != []
    case WaitOwn(_) => Marked(n.p.bufs.Get(Odd(n.p.idx)))
    case Copy(info) =>
      r > 0 && info.len <= |n.p.bufs.Get(Odd(n.p.idx))| && info.len <= |s[r - 1].p.bufs.Get(info.ptr)|
    case Forward(_) => true
    case Yielding(info, k) => k < |info.meta| ==> InBounds(info.meta[k].1, n.p.bufs.Get(Odd(n.p.idx)))
    case Mark(info) => r > 0 && |s[r - 1].p.bufs.Get(info.ptr)| >= 4
    case Done => false
    case Failed => false
  }

  function At(s: System, r: nat, p: Process): System
    requires r < |s|
  {
    s[r := s[r].(p := p)]
  }

  /** `store.send_obj` to the next rank, if there is one. */
  function Send(s: System, r: nat, info: Info): System
    requires r < |s|
  {
    if r + 1 == |s| then s
    else At(s, r, s[r].p.(sent := s[r].p.sent + 1))[r + 1 := s[r + 1].(inbox := s[r + 1].inbox + [info])]
  }

  function SenderStep(j: Job, s: System, r: nat): System
    requires r < |s| && s[r].p.pc.Filling? && Guard(j, s, r)
  {
    var p, h := s[r].p, Odd(s[r].p.sent);
    var Filling(first, i, offset, meta, flushed) := p.pc;
    if i < |j.ws| && offset + |j.ws[i].1| <= j.B then
      var (name, x) := j.ws[i];
      At(s, r, p.(bufs := p.bufs.Set(h, Write(p.bufs.Get(h), offset, x)),
                  pc := Filling(first, i + 1, offset + |x|, Put(meta, name, Slot(offset, |x|)), false)))
    else if i < |j.ws| && flushed then
      At(s, r, p.(pc := Failed))
    else
      var s' := Send(s, r, Info(h, offset, meta, i == |j.ws|));
      At(s', r, s'[r].p.(pc := if i == |j.ws| then FinalWait
                               else if p.sent > 0 then WaitSlot(i)
                               else Filling(i, i, 0, [], true)))
  }

  function Apply(j: Job, s: System, r: nat): System
    requires r < |s| && Guard(j, s, r)
  {
    var n := s[r];
    var p, h := n.p, Odd(n.p.idx);
    match p.pc
    case Filling(_, _, _, _, _) => SenderStep(j, s, r)
    case WaitSlot(i) => At(s, r, p.(pc := Filling(i, i, 0, [], true)))
    case FinalWait => At(s, r, p.(pc := Done))
    case Recv =>
      var info := n.inbox[0];
      s[r := Node(p.(taken := p.taken + 1, pc := if p.idx >= 2 && r + 1 < |s| then WaitOwn(info) else Copy(info)), n.inbox[1..])]
    case WaitOwn(info) => At(s, r, p.(pc := Copy(info)))
    case Copy(info) =>
      var x := s[r - 1].p.bufs.Get(info.ptr)[..info.len];
      At(s, r, p.(bufs := p.bufs.Set(h, Write(p.bufs.Get(h), 0, x)), copies := p.copies + [x], pc := Forward(info)))
    case Forward(info) =>
      var s' := Send(s, r, info.(ptr := h));
      At(s', r, s'[r].p.(pc := Yielding(info, 0)))
    case Yielding(info, k) =>
      if k < |info.meta| then
        At(s, r, p.(yielded := p.yielded + [(info.meta[k].0, Read(p.bufs.Get(h), info.meta[k].1))], pc := Yielding(info, k + 1)))
      else At(s, r, p.(pc := Mark(info)))
    case Mark(info) =>
      var b := s[r - 1].p.bufs;
      At(At(s, r - 1, s[r - 1].p.(bufs := b.Set(info.ptr, Write(b.Get(info.ptr), 0, MAGIC)))),
         r, p.(idx := p.idx + 1, pc := if info.last then Done else Recv))
  }

  predicate IsInit(j: Job, s: System) {
    && |s| >= 2
    && forall r :: 0 <= r < |s| ==>
         && s[r].inbox == []
         && |s[r].p.bufs.a| == |s[r].p.bufs.b| == j.B
         && s[r].p == Process(s[r].p.bufs, 0, 0, 0, [], [], if r == 0 then Filling(0, 0, 0, [], false) else Recv)
  }

  ghost predicate Step(j: Job, s: System, s': System) {
    exists r: nat :: r < |s| && Guard(j, s, r) && s' == Apply(j, s, r)
  }

  ghost predicate IsRun(j: Job, run: seq<System>) {
    && run != [] && IsInit(j, run[0])
    && forall i :: 0 <= i < |run| - 1 ==> Step(j, run[i], run[i + 1])
  }

  /** Where these bytes are all a half holds of its four polled bytes, or cover them, the word may
      be read from them: none of them differs from it. */
  predicate LooksMarked(x: seq<Byte>) {
    x <= MAGIC || MAGIC <= x
  }

  predicate Distinguishable(j: Job, k: nat) {
    k + 2 < |Pack(j.ws, j.B)| ==> !LooksMarked(Bytes(Pack(j.ws, j.B)[k]))
  }

  /** What acknowledgement by magic word rests on: no bucket whose half is used again looks
      acknowledged by itself.  The last two buckets may be anything, and halves too short to hold
      the word are never reused. */
  ghost predicate Recognisable(j: Job) {
    j.B >= 4 ==> forall k: nat :: Distinguishable(j, k)
  }
}
