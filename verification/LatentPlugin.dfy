/** The decoding plugin, one request at a time: detect the open literal, force K sentinels whose
    embeddings are projector outputs, force the close literal. */
module LatentPlugin {
  import opened Latent
  import opened Options
  import opened Sequences

  datatype Config = Config(open: seq<int>, close: seq<int>, K: nat, sentinel: int) {
    /** The plugin disables itself when a literal has no tokens. */
    predicate Usable() { open != [] && close != [] }
  }

  /** The per-request fields; `captured` is what is exported for the cached path. */
  datatype Req<E> = Req(pendingFirst: bool, nextEmbed: Option<E>, remaining: nat, closeRemaining: nat,
                        buf: seq<int>, captured: seq<E>)

  /** `patched_preprocess`: the last input embedding of this step, the override being consumed. */
  function InputEmbed<E, H>(net: Net<E, H>, r: Req<E>, last: int): E {
    if r.nextEmbed.Some? then r.nextEmbed.value else net.embed(last)
  }

  /** The `remaining > 0` assertion of `patched_execute_model` would fire. */
  predicate ExecuteFails<E>(r: Req<E>, override: bool) {
    !r.pendingFirst && override && r.remaining == 0
  }

  /** `patched_execute_model` for one request: new state, and whether sampling is skipped. */
  function Execute<E>(r: Req<E>, override: bool, p: E): (Req<E>, bool)
    requires !ExecuteFails(r, override)
  {
    if r.pendingFirst then
      (r.(pendingFirst := false, nextEmbed := Some(p), captured := r.captured + [p]), true)
    else if override then
      var left := r.remaining - 1;
      if left > 0 then (r.(remaining := left, nextEmbed := Some(p), captured := r.captured + [p]), true)
      else (r.(remaining := left, nextEmbed := None), true)
    else (r, false)
  }

  /** `deque(maxlen=n)` append */
  function Push(buf: seq<int>, t: int, n: nat): seq<int> {
    var b := buf + [t];
    if |b| > n then b[|b| - n..] else b
  }

  /** `patched_update_after` for one request, first pass: the rest of a close literal is forced;
      otherwise, outside any block, the sample enters the window that detects the open literal. */
  function FirstPass<E>(c: Config, r: Req<E>, skip: bool, sampled: int): (Req<E>, int)
    requires c.Usable() && r.closeRemaining <= |c.close|
  {
    if r.closeRemaining > 0 then
      (r.(closeRemaining := r.closeRemaining - 1), c.close[|c.close| - r.closeRemaining])
    else if skip || r.pendingFirst || r.nextEmbed.Some? || r.remaining > 0 then (r, sampled)
    else
      var buf := Push(r.buf, sampled, |c.open|);
      if buf == c.open then (r.(remaining := c.K, pendingFirst := true, buf := []), sampled)
      else (r.(buf := buf), sampled)
  }

  /** Second pass, for a skipped step: a sentinel, or after the last latent step the close literal. */
  function SecondPass<E>(c: Config, r: Req<E>): (Req<E>, int)
    requires c.Usable()
  {
    if r.remaining == 0 && !r.pendingFirst then
      (if |c.close| > 1 then r.(closeRemaining := |c.close| - 1) else r, c.close[0])
    else (r, c.sentinel)
  }

  function Update<E>(c: Config, r: Req<E>, skip: bool, sampled: int): (Req<E>, int)
    requires c.Usable() && r.closeRemaining <= |c.close|
  {
    var (r1, out) := FirstPass(c, r, skip, sampled);
    if skip then SecondPass(c, r1) else (r1, out)
  }

  /** A request in flight: its state, the embeddings consumed so far, the token to feed next, and
      the output with its truly forced sentinels. */
  datatype Stream<E> = Stream(r: Req<E>, used: seq<E>, last: int, outs: seq<int>, mask: seq<bool>)

  predicate StepFails<E>(s: Stream<E>) {
    ExecuteFails(s.r, s.r.nextEmbed.Some?)
  }

  /** One decoding step with the given sample. */
  function Step<E, H>(net: Net<E, H>, c: Config, s: Stream<E>, sampled: int): Stream<E>
    requires c.Usable() && !StepFails(s) && s.r.closeRemaining <= |c.close|
  {
    var used := s.used + [InputEmbed(net, s.r, s.last)];
    var override := s.r.nextEmbed.Some?;
    var (r1, skip) := Execute(s.r.(nextEmbed := None), override, Z(net, used));
    var (r2, out) := Update(c, r1, skip, sampled);
    Stream(r2, used, out, s.outs + [out], s.mask + [r2.nextEmbed.Some?])
  }

  /** A new request after a prompt whose embeddings are `ctx`, its last token plain text. */
  function Start<E>(ctx: seq<E>, last: int): Stream<E>
    requires ctx != []
  {
    Stream(Req(false, None, 0, 0, [], []), ctx[..|ctx| - 1], last, [], [])
  }

  /** A whole generation; None when the assertion stops it.  (The close literal is never indexed out of
      range: `OutputParses` shows that with K >= 1 the run always goes on.) */
  function Run<E, H>(net: Net<E, H>, c: Config, s: Stream<E>, samples: seq<int>): Option<Stream<E>>
    requires c.Usable()
    decreases |samples|
  {
    if samples == [] then Some(s)
    else match Run(net, c, s, samples[..|samples| - 1])
      case None => None
      case Some(t) =>
        if StepFails(t) || t.r.closeRemaining > |c.close| then None
        else Some(Step(net, c, t, samples[|samples| - 1]))
  }

  // ---- the output grammar ------------------------------------------------------------------

  predicate Occurs(open: seq<int>, xs: seq<int>, i: nat) {
    i + |open| <= |xs| && xs[i..i + |open|] == open
  }

  ghost predicate Free(open: seq<int>, xs: seq<int>) {
    forall i: nat :: !Occurs(open, xs, i)
  }

  /** `open` ends `xs` and occurs nowhere before. */
  ghost predicate EndsFirst(open: seq<int>, xs: seq<int>) {
    |open| <= |xs| && Occurs(open, xs, |xs| - |open|) && forall i: nat :: i < |xs| - |open| ==> !Occurs(open, xs, i)
  }

  /** A stretch with its forced block: K sentinels and the close literal. */
  function BlockOf(c: Config, s: seq<int>): seq<int> {
    s + Copies(c.K, c.sentinel) + c.close
  }

  function BlockMask(c: Config, s: seq<int>): (m: seq<bool>)
    ensures |m| == |BlockOf(c, s)|
  {
    Falses(|s|) + Trues(c.K) + Falses(|c.close|)
  }

  function Blocks(c: Config, ss: seq<seq<int>>): seq<int> {
    if ss == [] then [] else Blocks(c, ss[..|ss| - 1]) + BlockOf(c, ss[|ss| - 1])
  }

  function BlocksMask(c: Config, ss: seq<seq<int>>): (m: seq<bool>)
    ensures |m| == |Blocks(c, ss)|
  {
    if ss == [] then [] else BlocksMask(c, ss[..|ss| - 1]) + BlockMask(c, ss[|ss| - 1])
  }

  /** What the output looks like: complete blocks, each after free text that first reaches the
      open literal at its end, and then free text or the beginning of one more block. */
  datatype Parse = Parse(ss: seq<seq<int>>, tail: seq<int>, cut: bool, s: seq<int>)

  ghost predicate Parses(c: Config, outs: seq<int>, mask: seq<bool>, p: Parse) {
    && outs == Blocks(c, p.ss) + p.tail
    && (forall k :: 0 <= k < |p.ss| ==> EndsFirst(c.open, p.ss[k]))
    && if p.cut then
         && EndsFirst(c.open, p.s) && p.s <= p.tail < BlockOf(c, p.s)
         && mask == BlocksMask(c, p.ss) + BlockMask(c, p.s)[..|p.tail|]
       else
         Free(c.open, p.tail) && mask == BlocksMask(c, p.ss) + Falses(|p.tail|)
  }

  /** The request fields after n tokens of a block have been forced. */
  predicate InBlock<E>(c: Config, r: Req<E>, n: nat) {
    && n < c.K + |c.close| && r.buf == []
    && r.pendingFirst == (n == 0)
    && r.nextEmbed.Some? == (1 <= n <= c.K)
    && r.remaining == (if n == 0 then c.K else if n <= c.K then c.K - n + 1 else 0)
    && r.closeRemaining == (if n <= c.K then 0 else c.K + |c.close| - n)
  }

  predicate OutsideBlock<E>(c: Config, r: Req<E>, tail: seq<int>) {
    && !r.pendingFirst && r.nextEmbed.None? && r.remaining == 0 && r.closeRemaining == 0
    && r.buf == (if |tail| <= |c.open| then tail else tail[|tail| - |c.open|..])
  }

  /** The state always knows where in the grammar the output stands. */
  ghost predicate Tracks<E>(c: Config, s: Stream<E>, p: Parse) {
    && Parses(c, s.outs, s.mask, p)
    && if p.cut then InBlock(c, s.r, |p.tail| - |p.s|) else OutsideBlock(c, s.r, p.tail) && p.s == []
  }

  lemma BlocksAppend(c: Config, ss: seq<seq<int>>, s: seq<int>)
    ensures Blocks(c, ss + [s]) == Blocks(c, ss) + BlockOf(c, s)
    ensures BlocksMask(c, ss + [s]) == BlocksMask(c, ss) + BlockMask(c, s)
  {
    assert (ss + [s])[..|ss|] == ss;
  }

  /** Inside a block the request's next token and next state do not depend on the sample. */
  lemma ForcedRequest<E, H>(net: Net<E, H>, c: Config, s: Stream<E>, sampled: int, n: nat)
    requires c.Usable() && c.K >= 1 && InBlock(c, s.r, n)
    ensures !StepFails(s) && s.r.closeRemaining <= |c.close|
    ensures var t := Step(net, c, s, sampled);
            && t.outs == s.outs + [if n < c.K then c.sentinel else c.close[n - c.K]]
            && t.mask == s.mask + [n < c.K]
            && if n + 1 < c.K + |c.close| then InBlock(c, t.r, n + 1) else OutsideBlock(c, t.r, [])
  {
  }

  /** One more token of a begun block. */
  lemma BlockGrows(c: Config, outs: seq<int>, mask: seq<bool>, p: Parse) returns (p': Parse)
    requires c.Usable() && Parses(c, outs, mask, p) && p.cut
    ensures var n := |p.tail| - |p.s|;
            && n < c.K + |c.close|
            && Parses(c, outs + [if n < c.K then c.sentinel else c.close[n - c.K]], mask + [n < c.K], p')
            && (n + 1 < c.K + |c.close| ==> p' == p.(tail := p'.tail) && |p'.tail| == |p.tail| + 1)
            && (n + 1 == c.K + |c.close| ==> p' == Parse(p.ss + [p.s], [], false, []))
  {
    hide Blocks, BlocksMask, EndsFirst, Free, BlockOf, BlockMask;
    var n, b, m := |p.tail| - |p.s|, BlockOf(c, p.s), BlockMask(c, p.s);
    BlockShape(c, p.s, |p.tail|);
    BlocksAppend(c, p.ss, p.s);
    NothingOccurs(c.open);
    if |p.tail| + 1 < |b| {
      p' := p.(tail := p.tail + [b[|p.tail|]]);
      assert p'.tail == b[..|p'.tail|] && p.s <= p'.tail;
    } else {
      p' := Parse(p.ss + [p.s], [], false, []);
      assert p.tail + [b[|p.tail|]] == b && m[..|p.tail|] + [m[|p.tail|]] == m;
    }
  }

  /** The tokens of a block, by position. */
  lemma BlockShape(c: Config, s: seq<int>, i: nat)
    requires |s| <= i < |BlockOf(c, s)|
    ensures |BlockOf(c, s)| == |s| + c.K + |c.close|
    ensures BlockOf(c, s)[i] == (if i - |s| < c.K then c.sentinel else c.close[i - |s| - c.K])
    ensures BlockMask(c, s)[i] == (i - |s| < c.K)
    ensures BlockMask(c, s)[..i + 1] == BlockMask(c, s)[..i] + [BlockMask(c, s)[i]]
  {
  }

  /** Forced tokens: one more of the block, whatever was sampled. */
  lemma ForcedStep<E, H>(net: Net<E, H>, c: Config, s: Stream<E>, sampled: int, p: Parse) returns (p': Parse)
    requires c.Usable() && c.K >= 1 && Tracks(c, s, p) && p.cut
    ensures !StepFails(s) && s.r.closeRemaining <= |c.close|
    ensures Tracks(c, Step(net, c, s, sampled), p')
  {
    ForcedRequest(net, c, s, sampled, |p.tail| - |p.s|);
    p' := BlockGrows(c, s.outs, s.mask, p);
    hide Parses, InBlock, OutsideBlock, Step;
  }

  lemma NothingOccurs(open: seq<int>)
    requires open != []
    ensures Free(open, [])
  {
  }

  lemma SampledRequest<E, H>(net: Net<E, H>, c: Config, s: Stream<E>, sampled: int, tail: seq<int>)
    requires c.Usable() && c.K >= 1 && OutsideBlock(c, s.r, tail)
    ensures !StepFails(s) && s.r.closeRemaining <= |c.close|
    ensures var t, window := Step(net, c, s, sampled), Push(s.r.buf, sampled, |c.open|);
            && t.outs == s.outs + [sampled] && t.mask == s.mask + [false]
            && (if window == c.open then InBlock(c, t.r, 0) else OutsideBlock(c, t.r, tail + [sampled]))
            && window == (if |tail| + 1 <= |c.open| then tail + [sampled] else (tail + [sampled])[|tail| + 1 - |c.open|..])
  {
  }

  /** The sampled token completes the open literal: a block begins. */
  lemma OpenSampled(c: Config, outs: seq<int>, mask: seq<bool>, p: Parse, t: int) returns (p': Parse)
    requires c.Usable() && Parses(c, outs, mask, p) && !p.cut && EndsFirst(c.open, p.tail + [t])
    ensures p' == Parse(p.ss, p.tail + [t], true, p.tail + [t]) && Parses(c, outs + [t], mask + [false], p')
  {
    hide Blocks, BlocksMask, EndsFirst, Free, BlockOf, BlockMask, Falses;
    var tail := p.tail + [t];
    StretchShape(c, p.tail, t);
    p' := Parse(p.ss, tail, true, tail);
    assert outs + [t] == Blocks(c, p.ss) + tail;
    assert mask + [false] == BlocksMask(c, p.ss) + (Falses(|p.tail|) + [false]);
  }

  /** The sampled token is more free text. */
  lemma TextSampled(c: Config, outs: seq<int>, mask: seq<bool>, p: Parse, t: int) returns (p': Parse)
    requires c.Usable() && Parses(c, outs, mask, p) && !p.cut && Free(c.open, p.tail + [t])
    ensures p' == p.(tail := p.tail + [t]) && Parses(c, outs + [t], mask + [false], p')
  {
    hide Blocks, BlocksMask, EndsFirst, Free, BlockOf, BlockMask, Falses;
    var tail := p.tail + [t];
    StretchShape(c, p.tail, t);
    p' := p.(tail := tail);
    assert outs + [t] == Blocks(c, p.ss) + tail;
    assert mask + [false] == BlocksMask(c, p.ss) + (Falses(|p.tail|) + [false]);
  }

  /** A sampled token: the window of the last |open| tokens decides whether a block begins. */
  lemma SampledStep<E, H>(net: Net<E, H>, c: Config, s: Stream<E>, sampled: int, p: Parse) returns (p': Parse)
    requires c.Usable() && c.K >= 1 && Tracks(c, s, p) && !p.cut
    ensures !StepFails(s) && s.r.closeRemaining <= |c.close|
    ensures Tracks(c, Step(net, c, s, sampled), p')
  {
    hide Parses, EndsFirst, Free, InBlock, OutsideBlock, Step, Push;
    var window := Push(s.r.buf, sampled, |c.open|);
    SampledRequest(net, c, s, sampled, p.tail);
    assert Free(c.open, p.tail) by { TailIsFree(c, s.outs, s.mask, p); }
    WindowDecides(c.open, p.tail, sampled, window);
    if window == c.open {
      p' := OpenSampled(c, s.outs, s.mask, p, sampled);
    } else {
      p' := TextSampled(c, s.outs, s.mask, p, sampled);
    }
  }

  lemma TailIsFree(c: Config, outs: seq<int>, mask: seq<bool>, p: Parse)
    requires Parses(c, outs, mask, p) && !p.cut
    ensures Free(c.open, p.tail)
  {
  }

  lemma StretchShape(c: Config, tail: seq<int>, t: int)
    requires c.Usable()
    ensures Falses(|tail|) + [false] == Falses(|tail| + 1) == BlockMask(c, tail + [t])[..|tail| + 1]
    ensures tail + [t] < BlockOf(c, tail + [t])
  {
  }

  lemma WindowDecides(open: seq<int>, tail: seq<int>, t: int, window: seq<int>)
    requires open != [] && Free(open, tail)
    requires window == (if |tail| + 1 <= |open| then tail + [t] else (tail + [t])[|tail| + 1 - |open|..])
    ensures window == open ==> EndsFirst(open, tail + [t])
    ensures window != open ==> Free(open, tail + [t])
  {
    var xs := tail + [t];
    forall i: nat | i + |open| < |xs| ensures !Occurs(open, xs, i) {
      assert !Occurs(open, tail, i);
      assert xs[i..i + |open|] == tail[i..i + |open|];
    }
    if |xs| >= |open| {
      assert xs[|xs| - |open|..] == xs[|xs| - |open|..|xs| - |open| + |open|];
    }
  }

  /** Grammar: for any samples and any K >= 1 the assertion never fires and the output parses as
      free stretches ending in the open literal, exactly K sentinels, the whole close literal,
      the last block possibly cut; and the mask marks exactly the forced sentinels. */
  lemma {:induction false} OutputParses<E, H>(net: Net<E, H>, c: Config, ctx: seq<E>, last: int, samples: seq<int>) returns (p: Parse)
    requires c.Usable() && c.K >= 1 && ctx != []
    ensures var r := Run(net, c, Start(ctx, last), samples);
            r.Some? && |r.value.outs| == |samples| && Tracks(c, r.value, p)
    decreases |samples|
  {
    if samples == [] {
      p := Parse([], [], false, []);
      NothingOccurs(c.open);
    } else {
      var n := |samples| - 1;
      var q := OutputParses(net, c, ctx, last, samples[..n]);
      var t := Run(net, c, Start(ctx, last), samples[..n]).value;
      hide *;
      if q.cut {
        p := ForcedStep(net, c, t, samples[n], q);
      } else {
        p := SampledStep(net, c, t, samples[n], q);
      }
      StepLength(net, c, t, samples[n]);
      RunNext(net, c, Start(ctx, last), samples, t);
    }
  }

  lemma RunNext<E, H>(net: Net<E, H>, c: Config, s: Stream<E>, samples: seq<int>, t: Stream<E>)
    requires c.Usable() && samples != [] && Run(net, c, s, samples[..|samples| - 1]) == Some(t)
    requires !StepFails(t) && t.r.closeRemaining <= |c.close|
    ensures Run(net, c, s, samples) == Some(Step(net, c, t, samples[|samples| - 1]))
  {
  }

  lemma StepLength<E, H>(net: Net<E, H>, c: Config, s: Stream<E>, sampled: int)
    requires c.Usable() && !StepFails(s) && s.r.closeRemaining <= |c.close|
    ensures |Step(net, c, s, sampled).outs| == |s.outs| + 1
  {
  }

  // ---- K = 0 -------------------------------------------------------------------------------

  /** The request fields when n tokens of the open literal have been sampled. */
  function Typing<E>(c: Config, n: nat): Req<E>
    requires n <= |c.open|
  {
    if n < |c.open| then Req(false, None, 0, 0, c.open[..n], []) else Req(true, None, 0, 0, [], [])
  }

  lemma TypeOne<E, H>(net: Net<E, H>, c: Config, s: Stream<E>, n: nat)
    requires c.Usable() && c.K == 0 && n < |c.open| && s.r == Typing(c, n)
    ensures !StepFails(s) && Step(net, c, s, c.open[n]).r == Typing(c, n + 1)
  {
    assert c.open[..n] + [c.open[n]] == c.open[..n + 1];
    assert c.open[..|c.open|] == c.open;
  }

  /** Sampling the open literal from the start fills the window and triggers the block. */
  lemma {:induction false} TypesOpen<E, H>(net: Net<E, H>, c: Config, ctx: seq<E>, last: int, n: nat)
    requires c.Usable() && c.K == 0 && ctx != [] && n <= |c.open|
    ensures var r := Run(net, c, Start(ctx, last), c.open[..n]); r.Some? && r.value.r == Typing(c, n)
  {
    if n > 0 {
      TypesOpen(net, c, ctx, last, n - 1);
      var t := Run(net, c, Start(ctx, last), c.open[..n - 1]).value;
      TypeOne(net, c, t, n - 1);
      assert c.open[..n][..n - 1] == c.open[..n - 1];
      assert t.r.closeRemaining == 0;
      hide *;
      RunNext(net, c, Start(ctx, last), c.open[..n], t);
    }
  }

  /** With K = 0 the same output stops the engine two steps after the open literal. */
  lemma ZeroLatentsFails<E, H>(net: Net<E, H>, c: Config, ctx: seq<E>, last: int, x: int, y: int)
    requires c.Usable() && c.K == 0 && ctx != []
    ensures Run(net, c, Start(ctx, last), c.open + [x, y]) == None
  {
    var n, xs := |c.open|, c.open + [x, y];
    TypesOpen(net, c, ctx, last, n);
    assert c.open[..n] == c.open;
    assert xs[..n + 1] == c.open + [x] && (c.open + [x])[..n] == c.open;
    var t := Run(net, c, Start(ctx, last), c.open).value;
    assert Run(net, c, Start(ctx, last), c.open + [x]) == Some(Step(net, c, t, x));
  }

  /** The assertion can never fire exactly when at least one latent position is configured. */
  lemma NeverFailsIffPositive<E, H>(net: Net<E, H>, c: Config, ctx: seq<E>, last: int)
    requires c.Usable() && ctx != []
    ensures (forall samples :: Run(net, c, Start(ctx, last), samples).Some?) <==> c.K >= 1
  {
    if c.K >= 1 {
      forall samples ensures Run(net, c, Start(ctx, last), samples).Some? {
        var _ := OutputParses(net, c, ctx, last, samples);
      }
    } else {
      ZeroLatentsFails(net, c, ctx, last, 0, 0);
    }
  }

  // ---- the embeddings ----------------------------------------------------------------------

  /** Entries of `xs` at masked positions. */
  function Select<T>(xs: seq<T>, mask: seq<bool>): seq<T>
    requires |xs| == |mask|
  {
    if xs == [] then []
    else
      var n := |xs| - 1;
      Select(xs[..n], mask[..n]) + (if mask[n] then [xs[n]] else [])
  }

  /** What the stream has consumed, the embedding waiting to be consumed, and what was captured,
      against the one embedding sequence. */
  ghost predicate Agrees<E, H>(net: Net<E, H>, ctx: seq<E>, s: Stream<E>) {
    && |s.outs| == |s.mask|
    && var v := Extend(net, ctx, s.outs, s.mask);
    && s.used + [InputEmbed(net, s.r, s.last)] == v
    && s.r.captured == Select(v[|ctx|..], s.mask)
  }

  /** What one step consumes, emits and captures. */
  lemma StepConsumes<E, H>(net: Net<E, H>, c: Config, s: Stream<E>, sampled: int)
    requires c.Usable() && !StepFails(s) && s.r.closeRemaining <= |c.close|
    ensures var t, v := Step(net, c, s, sampled), s.used + [InputEmbed(net, s.r, s.last)];
            var m := t.r.nextEmbed.Some?;
            && t.used == v && t.outs == s.outs + [t.last] && t.mask == s.mask + [m]
            && InputEmbed(net, t.r, t.last) == Value(net, v, t.last, m)
            && t.r.captured == s.r.captured + (if m then [Z(net, v)] else [])
  {
  }

  lemma SelectSnoc<T>(xs: seq<T>, mask: seq<bool>, x: T, m: bool)
    requires |xs| == |mask|
    ensures Select(xs + [x], mask + [m]) == Select(xs, mask) + if m then [x] else []
  {
    assert (xs + [x])[..|xs|] == xs && (mask + [m])[..|xs|] == mask;
  }

  lemma TailSnoc<T>(v: seq<T>, n: nat, x: T)
    requires n <= |v|
    ensures (v + [x])[n..] == v[n..] + [x]
  {
  }

  lemma ValueWhenMasked<E, H>(net: Net<E, H>, ctx: seq<E>, id: int)
    ensures Value(net, ctx, id, true) == Z(net, ctx)
  {
  }

  lemma StepAgrees<E, H>(net: Net<E, H>, c: Config, ctx: seq<E>, s: Stream<E>, sampled: int)
    requires c.Usable() && !StepFails(s) && s.r.closeRemaining <= |c.close| && Agrees(net, ctx, s)
    ensures Agrees(net, ctx, Step(net, c, s, sampled))
  {
    hide Step, Extend, Value, Z, InputEmbed, Select;
    var t, v := Step(net, c, s, sampled), Extend(net, ctx, s.outs, s.mask);
    StepConsumes(net, c, s, sampled);
    var m := t.r.nextEmbed.Some?;
    ExtendStep(net, ctx, s.outs, s.mask, t.last, m);
    TailSnoc(v, |ctx|, Value(net, v, t.last, m));
    SelectSnoc(v[|ctx|..], s.mask, Value(net, v, t.last, m), m);
    ValueWhenMasked(net, v, t.last);
  }

  /** Rollout = training: for any samples the embeddings the decoding steps consumed are the
      position-by-position ones of the same tokens and sentinel mask, and the captured values are
      those at the sentinels, one for one. */
  lemma {:induction false} RolloutEmbeddings<E, H>(net: Net<E, H>, c: Config, ctx: seq<E>, last: int, samples: seq<int>)
    requires c.Usable() && ctx != [] && ctx[|ctx| - 1] == net.embed(last)
    requires Run(net, c, Start(ctx, last), samples).Some?
    ensures Agrees(net, ctx, Run(net, c, Start(ctx, last), samples).value)
    decreases |samples|
  {
    if samples == [] {
      assert ctx[..|ctx| - 1] + [ctx[|ctx| - 1]] == ctx;
    } else {
      var n := |samples| - 1;
      RolloutEmbeddings(net, c, ctx, last, samples[..n]);
      StepAgrees(net, c, ctx, Run(net, c, Start(ctx, last), samples[..n]).value, samples[n]);
      hide Agrees, Step;
    }
  }

  lemma {:induction false} SelectCounts<T>(xs: seq<T>, mask: seq<bool>)
    requires |xs| == |mask|
    ensures |Select(xs, mask)| == multiset(mask)[true]
  {
    if xs != [] {
      var n := |xs| - 1;
      SelectCounts(xs[..n], mask[..n]);
      assert mask == mask[..n] + [mask[n]];
    }
  }

  /** On a plain prompt: the consumed embeddings are a prefix of the training expansion of prompt
      plus output, all of it but the last output token. */
  lemma RolloutIsUnroll<E, H>(net: Net<E, H>, c: Config, prompt: seq<int>, samples: seq<int>)
    requires c.Usable() && c.K >= 1 && prompt != []
    ensures var r := Run(net, c, Start(Embeds(net, prompt), prompt[|prompt| - 1]), samples);
            && r.Some? && |r.value.outs| == |r.value.mask|
            && var v := Unroll(net, prompt + r.value.outs, Falses(|prompt|) + r.value.mask);
            && |v| > 0 && r.value.used == v[..|v| - 1]
            && |r.value.r.captured| == multiset(r.value.mask)[true]
  {
    hide Run, Extend, Tracks, Select, Value;
    var ctx, last := Embeds(net, prompt), prompt[|prompt| - 1];
    var _ := OutputParses(net, c, ctx, last, samples);
    RolloutEmbeddings(net, c, ctx, last, samples);
    var s := Run(net, c, Start(ctx, last), samples).value;
    ExtendText(net, [], prompt);
    assert [] + ctx == ctx;
    ExtendConcat(net, [], prompt, Falses(|prompt|), s.outs, s.mask);
    SelectCounts(Extend(net, ctx, s.outs, s.mask)[|ctx|..], s.mask);
    assert (s.used + [InputEmbed(net, s.r, s.last)])[..|s.used|] == s.used;
  }
}
