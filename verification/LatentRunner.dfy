/** The plugin as it runs: request objects updated in place, a whole batch per step. */
module LatentRunner {
  import opened Latent
  import opened LatentPlugin
  import opened Options

  class Request<E> {
    var pendingFirst: bool
    var nextEmbed: Option<E>
    var remaining: nat
    var closeRemaining: nat
    var buf: seq<int>
    var captured: seq<E>

    constructor ()
      ensures View() == Req(false, None, 0, 0, [], [])
    {
      pendingFirst, nextEmbed, remaining, closeRemaining, buf, captured := false, None, 0, 0, [], [];
    }

    function View(): Req<E>
      reads this
    {
      Req(pendingFirst, nextEmbed, remaining, closeRemaining, buf, captured)
    }

    /** `patched_preprocess` consuming the waiting embedding. */
    method Take() returns (e: E)
      requires View().nextEmbed.Some?
      modifies this
      ensures View() == old(View()).(nextEmbed := None) && Some(e) == old(View()).nextEmbed
    {
      e := nextEmbed.value;
      nextEmbed := None;
    }

    /** The body of the loop in `patched_execute_model`. */
    method Advance(override: bool, p: E) returns (ok: bool, skip: bool)
      modifies this
      ensures ok == !ExecuteFails(old(View()), override)
      ensures ok ==> (View(), skip) == Execute(old(View()), override, p)
    {
      ok, skip := true, false;
      if pendingFirst {
        pendingFirst := false;
        nextEmbed := Some(p);
        captured := captured + [p];
        skip := true;
      } else if override {
        if remaining == 0 {
          return false, false;
        }
        remaining := remaining - 1;
        if remaining > 0 {
          nextEmbed := Some(p);
          captured := captured + [p];
        } else {
          nextEmbed := None;
        }
        skip := true;
      }
    }

    /** The body of the first loop in `patched_update_after`. */
    method Detect(c: Config, skip: bool, sampled: int) returns (out: int)
      requires c.Usable() && closeRemaining <= |c.close|
      modifies this
      ensures (View(), out) == FirstPass(c, old(View()), skip, sampled)
    {
      out := sampled;
      if closeRemaining > 0 {
        out := c.close[|c.close| - closeRemaining];
        closeRemaining := closeRemaining - 1;
      } else if !skip && !(pendingFirst || nextEmbed.Some? || remaining > 0) {
        buf := Push(buf, sampled, |c.open|);
        if buf == c.open {
          remaining := c.K;
          pendingFirst := true;
          buf := [];
        }
      }
    }

    /** The body of its second loop. */
    method Force(c: Config) returns (out: int)
      requires c.Usable()
      modifies this
      ensures (View(), out) == SecondPass(c, old(View()))
    {
      if remaining == 0 && !pendingFirst {
        out := c.close[0];
        if |c.close| > 1 {
          closeRemaining := |c.close| - 1;
        }
      } else {
        out := c.sentinel;
      }
    }
  }

  predicate Distinct<E>(batch: seq<Request<E>>) {
    forall i, j :: 0 <= i < j < |batch| ==> batch[i] != batch[j]
  }

  /** The cumulative token offsets of a batch: request i owns positions starts[i] to starts[i+1],
      at least one of them. */
  predicate Offsets(starts: seq<nat>, n: nat, total: nat) {
    && |starts| == n + 1 && starts[n] <= total
    && forall i, j :: 0 <= i < j <= n ==> starts[i] < starts[j]
  }

  /** The last input position of request i. */
  function LastOf(starts: seq<nat>, n: nat, total: nat, i: nat): (p: nat)
    requires Offsets(starts, n, total) && i < n
    ensures p < total && starts[i] <= p && p + 1 == starts[i + 1]
  {
    assert starts[i] < starts[i + 1];
    assert i + 1 < n ==> starts[i + 1] < starts[n];
    starts[i + 1] - 1
  }

  /** No overriding request among the first k has p as its last input position. */
  ghost predicate Untouched(starts: seq<nat>, overrides: seq<bool>, n: nat, total: nat, k: nat, p: int)
    requires Offsets(starts, n, total) && k <= n && |overrides| == n
  {
    forall i: nat :: i < k && overrides[i] ==> LastOf(starts, n, total, i) != p
  }

  lemma LastsDiffer(starts: seq<nat>, n: nat, total: nat, i: nat)
    requires Offsets(starts, n, total) && i < n
    ensures forall j: nat :: j < n && j != i ==> LastOf(starts, n, total, j) != LastOf(starts, n, total, i)
  {
  }

  method Waiting<E>(batch: seq<Request<E>>) returns (mask: seq<bool>)
    ensures |mask| == |batch| && forall i :: 0 <= i < |batch| ==> mask[i] == batch[i].View().nextEmbed.Some?
  {
    mask := [];
    for i := 0 to |batch|
      invariant |mask| == i && forall j :: 0 <= j < i ==> mask[j] == batch[j].nextEmbed.Some?
    {
      mask := mask + [batch[i].nextEmbed.Some?];
    }
  }

  /** The loop of `patched_preprocess`: each waiting embedding is written over the last position
      of its request. */
  method Splice<E>(batch: seq<Request<E>>, overrides: seq<bool>, starts: seq<nat>, embeds: array<E>)
    requires Distinct(batch) && Offsets(starts, |batch|, embeds.Length) && |overrides| == |batch|
    requires forall i :: 0 <= i < |batch| ==> overrides[i] == batch[i].View().nextEmbed.Some?
    modifies batch, embeds
    ensures forall i :: 0 <= i < |batch| ==> batch[i].View() == old(batch[i].View()).(nextEmbed := None)
    ensures forall i :: 0 <= i < |batch| && overrides[i] ==>
      Some(embeds[LastOf(starts, |batch|, embeds.Length, i)]) == old(batch[i].View()).nextEmbed
    ensures forall p :: 0 <= p < embeds.Length && Untouched(starts, overrides, |batch|, embeds.Length, |batch|, p) ==>
        embeds[p] == old(embeds[p])
  {
    hide LastOf, Offsets;
    for i := 0 to |batch|
      invariant forall j :: 0 <= j < i ==> batch[j].View() == old(batch[j].View()).(nextEmbed := None)
      invariant forall j :: i <= j < |batch| ==> batch[j].View() == old(batch[j].View())
      invariant forall j :: 0 <= j < i && overrides[j] ==>
        Some(embeds[LastOf(starts, |batch|, embeds.Length, j)]) == old(batch[j].View()).nextEmbed
      invariant forall p :: 0 <= p < embeds.Length && Untouched(starts, overrides, |batch|, embeds.Length, i, p) ==>
        embeds[p] == old(embeds[p])
    {
      if overrides[i] {
        LastsDiffer(starts, |batch|, embeds.Length, i);
        var e := batch[i].Take();
        embeds[LastOf(starts, |batch|, embeds.Length, i)] := e;
      }
    }
  }

  lemma EveryPosition(starts: seq<nat>, n: nat)
    requires |starts| == n + 1 && forall i :: 0 <= i <= n ==> starts[i] == i
    ensures Offsets(starts, n, n) && forall i: nat :: i < n ==> LastOf(starts, n, n, i) == i
  {
  }

  /** A step in terms of the three patched methods. */
  ghost predicate StepShape<E, H>(net: Net<E, H>, c: Config, s: Stream<E>, sampled: int)
    requires c.Usable() && s.r.closeRemaining <= |c.close|
  {
    var used, r, override := s.used + [InputEmbed(net, s.r, s.last)], s.r.(nextEmbed := None), s.r.nextEmbed.Some?;
    && StepFails(s) == ExecuteFails(r, override)
    && (!ExecuteFails(r, override) ==>
          var (r1, skip) := Execute(r, override, net.proj(net.hidden(used)));
          && r1.closeRemaining <= |c.close|
          && var (r2, out) := Update(c, r1, skip, sampled);
             Serves(Step(net, c, s, sampled), r2, used, out))
  }

  lemma StepIs<E, H>(net: Net<E, H>, c: Config, s: Stream<E>, sampled: int)
    requires c.Usable() && s.r.closeRemaining <= |c.close|
    ensures StepShape(net, c, s, sampled)
  {
  }

  /** Request i's samples. */
  function Column(draws: seq<seq<int>>, i: nat): (col: seq<int>)
    requires forall t :: 0 <= t < |draws| ==> i < |draws[t]|
    ensures |col| == |draws|
  {
    seq(|draws|, t requires 0 <= t < |draws| => draws[t][i])
  }

  /** After k steps the batch's state for request i is that of its own run over its own samples. */
  ghost predicate Alone<E, H>(net: Net<E, H>, c: Config, ctx: seq<E>, last: int, draws: seq<seq<int>>, k: nat, i: nat,
                              s: Stream<E>, r: Req<E>, used: seq<E>, newest: int, outs: seq<int>)
    requires c.Usable() && ctx != [] && k <= |draws| && forall t :: 0 <= t < |draws| ==> i < |draws[t]|
  {
    && Run(net, c, Start(ctx, last), Column(draws[..k], i)) == Some(s)
    && Serves(s, r, used, newest) && s.outs == outs && s.r.closeRemaining <= |c.close|
  }

  lemma AloneFirst<E, H>(net: Net<E, H>, c: Config, ctx: seq<E>, last: int, draws: seq<seq<int>>, i: nat)
    requires c.Usable() && ctx != [] && forall t :: 0 <= t < |draws| ==> i < |draws[t]|
    ensures Alone(net, c, ctx, last, draws, 0, i, Start(ctx, last), Req(false, None, 0, 0, [], []), ctx[..|ctx| - 1], last, [])
  {
  }

  lemma AloneServes<E, H>(net: Net<E, H>, c: Config, ctx: seq<E>, last: int, draws: seq<seq<int>>, k: nat, i: nat,
                          s: Stream<E>, r: Req<E>, used: seq<E>, newest: int, outs: seq<int>)
    requires c.Usable() && ctx != [] && k <= |draws| && forall t :: 0 <= t < |draws| ==> i < |draws[t]|
    requires Alone(net, c, ctx, last, draws, k, i, s, r, used, newest, outs)
    ensures Serves(s, r, used, newest) && s.r.closeRemaining <= |c.close|
    ensures k == |draws| ==>
      var run := Run(net, c, Start(ctx, last), Column(draws, i)); run.Some? && run.value.r == r && run.value.outs == outs
  {
    assert draws[..|draws|] == draws;
  }

  /** One more step of a request's own run, or its failure. */
  lemma AloneNext<E, H>(net: Net<E, H>, c: Config, ctx: seq<E>, last: int, draws: seq<seq<int>>, k: nat, i: nat,
                        s: Stream<E>, r: Req<E>, used: seq<E>, newest: int, outs: seq<int>)
    requires c.Usable() && ctx != [] && k < |draws| && forall t :: 0 <= t < |draws| ==> i < |draws[t]|
    requires Alone(net, c, ctx, last, draws, k, i, s, r, used, newest, outs)
    ensures s.r.closeRemaining <= |c.close|
    ensures if StepFails(s) then Run(net, c, Start(ctx, last), Column(draws, i)).None?
            else var s' := Step(net, c, s, draws[k][i]);
                 Alone(net, c, ctx, last, draws, k + 1, i, s', s'.r, s'.used, s'.last, outs + [s'.last])
  {
    var col := Column(draws[..k + 1], i);
    assert col[..k] == Column(draws[..k], i) && col[k] == draws[k][i];
    if StepFails(s) {
      FailsForGood(net, c, Start(ctx, last), draws, k + 1, i);
    } else {
      RunNext(net, c, Start(ctx, last), col, s);
      hide Run;
      assert Step(net, c, s, draws[k][i]).outs == outs + [Step(net, c, s, draws[k][i]).last];
    }
  }

  /** A run that has failed does not come back. */
  lemma {:induction false} FailsForGood<E, H>(net: Net<E, H>, c: Config, s: Stream<E>, draws: seq<seq<int>>, k: nat, i: nat)
    requires c.Usable() && k <= |draws| && forall t :: 0 <= t < |draws| ==> i < |draws[t]|
    requires Run(net, c, s, Column(draws[..k], i)).None?
    ensures Run(net, c, s, Column(draws, i)).None?
    decreases |draws| - k
  {
    if k == |draws| {
      assert draws[..k] == draws;
    } else {
      var col := Column(draws[..k + 1], i);
      assert col[..k] == Column(draws[..k], i);
      FailsForGood(net, c, s, draws, k + 1, i);
    }
  }

  lemma TwoPasses<E>(c: Config, r: Req<E>, skip: bool, sampled: int)
    requires c.Usable() && r.closeRemaining <= |c.close|
    ensures var first := FirstPass(c, r, skip, sampled);
            Update(c, r, skip, sampled) == if skip then SecondPass(c, first.0) else first
  {
  }

  class Runner<E, H> {
    const net: Net<E, H>
    const config: Config
    var overrideMask: seq<bool>
    var skipMask: seq<bool>

    constructor (net: Net<E, H>, config: Config)
      ensures this.net == net && this.config == config
    {
      this.net, this.config, overrideMask, skipMask := net, config, [], [];
    }

    /** `patched_preprocess`: a waiting embedding replaces the one of the request's last input
        position, and nothing else in the batch. */
    method Preprocess(batch: seq<Request<E>>, inputIds: seq<int>, starts: seq<nat>) returns (embeds: array<E>)
      requires Distinct(batch) && Offsets(starts, |batch|, |inputIds|)
      modifies this`overrideMask, batch
      ensures fresh(embeds) && embeds.Length == |inputIds|
      ensures |overrideMask| == |batch|
      ensures forall i :: 0 <= i < |batch| ==> overrideMask[i] == old(batch[i].View()).nextEmbed.Some?
      ensures forall i :: 0 <= i < |batch| ==> batch[i].View() == old(batch[i].View()).(nextEmbed := None)
      ensures forall i :: 0 <= i < |batch| ==>
        var p := LastOf(starts, |batch|, |inputIds|, i);
        embeds[p] == InputEmbed(net, old(batch[i].View()), inputIds[p])
      ensures forall p :: 0 <= p < |inputIds| && Untouched(starts, overrideMask, |batch|, |inputIds|, |batch|, p) ==>
        embeds[p] == net.embed(inputIds[p])
    {
      hide LastOf, Offsets;
      var overrides := Waiting(batch);
      overrideMask := overrides;
      embeds := new E[|inputIds|](p requires 0 <= p < |inputIds| => net.embed(inputIds[p]));
      if forall i :: 0 <= i < |overrides| ==> !overrides[i] {
        return;
      }
      Splice(batch, overrides, starts, embeds);
      forall i: nat | i < |batch| ensures
        var p := LastOf(starts, |batch|, |inputIds|, i);
        embeds[p] == InputEmbed(net, old(batch[i].View()), inputIds[p])
      {
        LastsDiffer(starts, |batch|, |inputIds|, i);
      }
    }

    /** `patched_execute_model` after the forward: `hs` holds each request's last hidden state.
        `ok` is false when the `remaining > 0` assertion stops the engine. */
    method ExecuteModel(batch: seq<Request<E>>, hs: seq<H>) returns (ok: bool)
      requires Distinct(batch) && |hs| == |batch| == |overrideMask|
      modifies this`skipMask, batch
      ensures ok <==> forall i :: 0 <= i < |batch| ==> !ExecuteFails(old(batch[i].View()), overrideMask[i])
      ensures ok ==> |skipMask| == |batch|
      ensures ok ==> forall i :: 0 <= i < |batch| ==>
        (batch[i].View(), skipMask[i]) == Execute(old(batch[i].View()), overrideMask[i], net.proj(hs[i]))
    {
      hide Execute, ExecuteFails;
      var skips := [];
      for i := 0 to |batch|
        invariant |skips| == i
        invariant forall j :: 0 <= j < i ==> !ExecuteFails(old(batch[j].View()), overrideMask[j])
        invariant forall j :: 0 <= j < i ==>
          (batch[j].View(), skips[j]) == Execute(old(batch[j].View()), overrideMask[j], net.proj(hs[j]))
        invariant forall j :: i <= j < |batch| ==> batch[j].View() == old(batch[j].View())
      {
        var fine, skip := batch[i].Advance(overrideMask[i], net.proj(hs[i]));
        if !fine {
          return false;
        }
        skips := skips + [skip];
      }
      skipMask := skips;
      return true;
    }

    /** The first pass over the batch. */
    method DetectAll(batch: seq<Request<E>>, skips: seq<bool>, outputs: array<int>)
      requires config.Usable() && Distinct(batch) && outputs.Length == |batch| == |skips|
      requires forall i :: 0 <= i < |batch| ==> batch[i].closeRemaining <= |config.close|
      modifies batch, outputs
      ensures forall i :: 0 <= i < |batch| ==>
        (batch[i].View(), outputs[i]) == FirstPass(config, old(batch[i].View()), skips[i], old(outputs[i]))
    {
      hide FirstPass;
      for i := 0 to |batch|
        invariant forall j :: 0 <= j < i ==>
          (batch[j].View(), outputs[j]) == FirstPass(config, old(batch[j].View()), skips[j], old(outputs[j]))
        invariant forall j :: i <= j < |batch| ==>
          batch[j].View() == old(batch[j].View()) && outputs[j] == old(outputs[j])
      {
        outputs[i] := batch[i].Detect(config, skips[i], outputs[i]);
      }
    }

    /** The second pass, over the skipped requests. */
    method ForceAll(batch: seq<Request<E>>, skips: seq<bool>, outputs: array<int>)
      requires config.Usable() && Distinct(batch) && outputs.Length == |batch| == |skips|
      modifies batch, outputs
      ensures forall i :: 0 <= i < |batch| ==>
        (batch[i].View(), outputs[i]) ==
        if skips[i] then SecondPass(config, old(batch[i].View())) else old((batch[i].View(), outputs[i]))
    {
      hide SecondPass;
      for i := 0 to |batch|
        invariant forall j :: 0 <= j < i ==>
          (batch[j].View(), outputs[j]) ==
          if skips[j] then SecondPass(config, old(batch[j].View())) else old((batch[j].View(), outputs[j]))
        invariant forall j :: i <= j < |batch| ==>
          batch[j].View() == old(batch[j].View()) && outputs[j] == old(outputs[j])
      {
        if skips[i] {
          outputs[i] := batch[i].Force(config);
        }
      }
    }

    /** `patched_update_after`: two passes over the batch, the sampled tokens replaced in place. */
    method UpdateAfter(batch: seq<Request<E>>, outputs: array<int>)
      requires config.Usable() && Distinct(batch) && outputs.Length == |batch|
      requires skipMask == [] || |skipMask| == |batch|
      requires forall i :: 0 <= i < |batch| ==> batch[i].closeRemaining <= |config.close|
      modifies this`skipMask, batch, outputs
      ensures forall i :: 0 <= i < |batch| ==>
        (batch[i].View(), outputs[i]) ==
        Update(config, old(batch[i].View()), old(skipMask) != [] && old(skipMask)[i], old(outputs[i]))
      ensures skipMask == []
    {
      hide FirstPass, SecondPass, Update;
      var skips := if skipMask == [] then seq(|batch|, _ => false) else skipMask;
      DetectAll(batch, skips, outputs);
      ForceAll(batch, skips, outputs);
      forall i | 0 <= i < |batch|
        ensures (batch[i].View(), outputs[i]) == Update(config, old(batch[i].View()), skips[i], old(outputs[i]))
      {
        TwoPasses(config, old(batch[i].View()), skips[i], old(outputs[i]));
      }
      skipMask := [];
    }

    /** One decoding step of the whole batch: `used` are the requests' key/value contexts, `lasts`
        their newest tokens, `samples` what the sampler draws; `streams` are the requests as if
        each ran alone. */
    method DecodeStep(batch: seq<Request<E>>, used: seq<seq<E>>, lasts: seq<int>, samples: seq<int>,
                      ghost streams: seq<Stream<E>>)
      returns (ok: bool, used': seq<seq<E>>, outs: seq<int>)
      requires config.Usable() && Distinct(batch)
      requires |used| == |lasts| == |samples| == |streams| == |batch|
      requires forall i :: 0 <= i < |batch| ==> Serves(streams[i], batch[i].View(), used[i], lasts[i])
      requires forall i :: 0 <= i < |batch| ==> streams[i].r.closeRemaining <= |config.close|
      modifies this, batch
      ensures ok <==> forall i :: 0 <= i < |batch| ==> !StepFails(streams[i])
      ensures ok ==> |used'| == |outs| == |batch|
      ensures ok ==> forall i :: 0 <= i < |batch| ==>
        Serves(Step(net, config, streams[i], samples[i]), batch[i].View(), used'[i], outs[i])
    {
      hide Step, Execute, ExecuteFails, Update, InputEmbed, Offsets, LastOf;
      var starts := seq(|batch| + 1, i => i);
      EveryPosition(starts, |batch|);
      var embeds := Preprocess(batch, lasts, starts);
      used' := seq(|batch|, i requires 0 <= i < |batch| && i < embeds.Length reads embeds => used[i] + [embeds[i]]);
      var hs := seq(|batch|, i requires 0 <= i < |batch| => net.hidden(used'[i]));
      outs := [];
      forall i | 0 <= i < |batch| ensures StepShape(net, config, streams[i], samples[i]) {
        StepIs(net, config, streams[i], samples[i]);
      }
      ok := ExecuteModel(batch, hs);
      if ok {
        var outputs := new int[|batch|](i requires 0 <= i < |batch| => samples[i]);
        UpdateAfter(batch, outputs);
        outs := outputs[..];
      }
    }

    /** A whole batch of fresh requests decoded together: it finishes exactly when every request
        alone would, and then each request has the state and the output it would have alone, with
        its own column of samples. */
    method Generate(batch: seq<Request<E>>, ctxs: seq<seq<E>>, lasts: seq<int>, draws: seq<seq<int>>)
      returns (ok: bool, outs: seq<seq<int>>)
      requires config.Usable() && Distinct(batch) && |ctxs| == |lasts| == |batch|
      requires forall i :: 0 <= i < |batch| ==> ctxs[i] != [] && batch[i].View() == Req(false, None, 0, 0, [], [])
      requires forall t :: 0 <= t < |draws| ==> |draws[t]| == |batch|
      modifies this, batch
      ensures ok <==> forall i :: 0 <= i < |batch| ==>
        Run(net, config, Start(ctxs[i], lasts[i]), Column(draws, i)).Some?
      ensures ok ==> |outs| == |batch| && forall i :: 0 <= i < |batch| ==>
        var s := Run(net, config, Start(ctxs[i], lasts[i]), Column(draws, i)).value;
        batch[i].View() == s.r && outs[i] == s.outs
    {
      hide Run, Step, StepFails, Column, Start, Serves, Alone, Config.Usable, Distinct;
      var used := seq(|batch|, i requires 0 <= i < |batch| => ctxs[i][..|ctxs[i]| - 1]);
      var last := lasts;
      outs := seq(|batch|, _ => []);
      ghost var streams := seq(|batch|, i requires 0 <= i < |batch| => Start(ctxs[i], lasts[i]));
      forall i | 0 <= i < |batch| ensures
        Alone(net, config, ctxs[i], lasts[i], draws, 0, i, streams[i], batch[i].View(), used[i], last[i], outs[i])
      {
        AloneFirst(net, config, ctxs[i], lasts[i], draws, i);
      }
      for t := 0 to |draws|
        invariant |used| == |last| == |outs| == |streams| == |batch|
        invariant forall i :: 0 <= i < |batch| ==>
          Alone(net, config, ctxs[i], lasts[i], draws, t, i, streams[i], batch[i].View(), used[i], last[i], outs[i])
      {
        forall i | 0 <= i < |batch| ensures
          Serves(streams[i], batch[i].View(), used[i], last[i]) && streams[i].r.closeRemaining <= |config.close|
        {
          AloneServes(net, config, ctxs[i], lasts[i], draws, t, i, streams[i], batch[i].View(), used[i], last[i], outs[i]);
        }
        label before:
        var fine, used', tokens := DecodeStep(batch, used, last, draws[t], streams);
        if !fine {
          ghost var i :| 0 <= i < |batch| && StepFails(streams[i]);
          AloneNext(net, config, ctxs[i], lasts[i], draws, t, i, streams[i], old@before(batch[i].View()), used[i], last[i], outs[i]);
          return false, [];
        }
        var outs' := seq(|batch|, i requires 0 <= i < |batch| => outs[i] + [tokens[i]]);
        ghost var streams' := seq(|batch|, i requires 0 <= i < |batch| => Step(net, config, streams[i], draws[t][i]));
        forall i | 0 <= i < |batch| ensures
          Alone(net, config, ctxs[i], lasts[i], draws, t + 1, i, streams'[i], batch[i].View(), used'[i], tokens[i], outs'[i])
        {
          AloneNext(net, config, ctxs[i], lasts[i], draws, t, i, streams[i], old@before(batch[i].View()), used[i], last[i], outs[i]);
          ServesParts(streams'[i], batch[i].View(), used'[i], tokens[i]);
        }
        used, last, outs, streams := used', tokens, outs', streams';
      }
      forall i | 0 <= i < |batch| ensures
        var run := Run(net, config, Start(ctxs[i], lasts[i]), Column(draws, i));
        run.Some? && run.value.r == batch[i].View() && run.value.outs == outs[i]
      {
        AloneServes(net, config, ctxs[i], lasts[i], draws, |draws|, i, streams[i], batch[i].View(), used[i], last[i], outs[i]);
      }
      ok := true;
    }
  }

  lemma ServesParts<E>(s: Stream<E>, r: Req<E>, used: seq<E>, last: int)
    requires Serves(s, r, used, last)
    ensures s.r == r && s.used == used && s.last == last
  {
  }

  /** The batch's state for a request is that of its own stream. */
  ghost predicate Serves<E>(s: Stream<E>, r: Req<E>, used: seq<E>, last: int) {
    s.r == r && s.used == used && s.last == last
  }
}
