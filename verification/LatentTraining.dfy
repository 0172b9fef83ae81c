/** From the agent loop to the training forward: padding, stacking over the batch, selection by the
    attention mask; and the agreement of the cached with the recomputed embeddings. */
module LatentTraining {
  import opened Latent
  import opened LatentAgent
  import opened LatentCache
  import opened LatentExpand
  import opened LatentForward
  import opened LatentMask
  import opened LatentPlugin
  import opened LatentRows
  import opened LatentSeams
  import opened Options
  import opened Sequences

  /** A prompt padded on the left to `left` entries and a response padded on the right to `right`. */
  function Padded<T>(prompt: seq<T>, resp: seq<T>, left: nat, right: nat, pad: T): (s: seq<T>)
    requires |prompt| <= left && |resp| <= right
    ensures |s| == left + right
  {
    Copies(left - |prompt|, pad) + prompt + resp + Copies(right - |resp|, pad)
  }

  function Attention(n: nat, m: nat, left: nat, right: nat): (s: seq<bool>)
    requires n <= left && m <= right
    ensures |s| == left + right
  {
    Falses(left - n) + Trues(n + m) + Falses(right - m)
  }

  lemma {:induction false} SelectAppend<T>(xs: seq<T>, m1: seq<bool>, ys: seq<T>, m2: seq<bool>)
    requires |xs| == |m1| && |ys| == |m2|
    ensures Select(xs + ys, m1 + m2) == Select(xs, m1) + Select(ys, m2)
  {
    if ys == [] {
      assert xs + ys == xs && m1 + m2 == m1;
    } else {
      var n := |ys| - 1;
      SelectAppend(xs, m1, ys[..n], m2[..n]);
      assert (xs + ys)[..|xs| + n] == xs + ys[..n] && (m1 + m2)[..|xs| + n] == m1 + m2[..n];
    }
  }

  lemma {:induction false} SelectUniform<T>(xs: seq<T>, b: bool)
    ensures Select(xs, Copies(|xs|, b)) == if b then xs else []
  {
    if xs != [] {
      var n := |xs| - 1;
      SelectUniform(xs[..n], b);
      assert Copies(|xs|, b)[..n] == Copies(n, b);
    }
  }

  /** Selecting by the attention mask undoes the padding. */
  lemma SelectUnpads<T>(prompt: seq<T>, resp: seq<T>, left: nat, right: nat, pad: T)
    requires |prompt| <= left && |resp| <= right
    ensures Select(Padded(prompt, resp, left, right, pad), Attention(|prompt|, |resp|, left, right)) == prompt + resp
  {
    var a, b := Copies(left - |prompt|, pad), Copies(right - |resp|, pad);
    SelectAppend(a, Copies(|a|, false), prompt + resp, Copies(|prompt + resp|, true));
    SelectAppend(a + (prompt + resp), Copies(|a|, false) + Copies(|prompt + resp|, true), b, Copies(|b|, false));
    SelectUniform(a, false);
    SelectUniform(prompt + resp, true);
    SelectUniform(b, false);
    assert a + (prompt + resp) + b == Padded(prompt, resp, left, right, pad);
    assert Copies(|a|, false) + Copies(|prompt + resp|, true) + Copies(|b|, false) ==
           Attention(|prompt|, |resp|, left, right);
  }

  /** The postprocess wrapper: the response's values, as many as the response is wide, at their place
      in the padded row. */
  method PadLatent<E>(z: seq<E>, left: nat, right: nat, zero: E) returns (padded: array<E>)
    ensures padded.Length == left + right
    ensures var kept := if |z| <= right then z else z[..right];
            padded[..] == Copies(left, zero) + kept + Copies(right - |kept|, zero)
  {
    padded := new E[left + right](_ => zero);
    var actual := if |z| < right then |z| else right;
    forall i | 0 <= i < actual {
      padded[left + i] := z[i];
    }
  }

  /** The stacking wrapper: a row without values gets zeros of the common length. */
  method StackLatent<E>(rows: seq<Option<seq<E>>>, seqlen: nat, zero: E) returns (full: seq<seq<E>>)
    ensures |full| == |rows|
    ensures forall i :: 0 <= i < |rows| ==>
      full[i] == if rows[i].Some? then rows[i].value
                 else Copies(Common(rows, seqlen), zero)
    ensures forall j :: IsFirstPresent(rows, j) ==> Common(rows, seqlen) == |rows[j].value|
    ensures (forall j :: 0 <= j < |rows| ==> rows[j].None?) ==> Common(rows, seqlen) == seqlen
  {
    CommonIs(rows, seqlen);
    var len := seqlen;
    var i := 0;
    while i < |rows| && rows[i].None?
      invariant i <= |rows| && Common(rows, seqlen) == Common(rows[i..], seqlen)
    {
      assert rows[i..][1..] == rows[i + 1..];
      i := i + 1;
    }
    if i < |rows| {
      len := |rows[i].value|;
    }
    full := [];
    for k := 0 to |rows|
      invariant |full| == k
      invariant forall j :: 0 <= j < k ==>
        full[j] == if rows[j].Some? then rows[j].value else Copies(Common(rows, seqlen), zero)
    {
      full := full + [if rows[k].Some? then rows[k].value else Copies(len, zero)];
    }
  }

  predicate IsFirstPresent<E>(rows: seq<Option<seq<E>>>, j: int) {
    0 <= j < |rows| && rows[j].Some? && forall i :: 0 <= i < j ==> rows[i].None?
  }

  lemma {:induction false} CommonIs<E>(rows: seq<Option<seq<E>>>, seqlen: nat)
    ensures forall j :: IsFirstPresent(rows, j) ==> Common(rows, seqlen) == |rows[j].value|
    ensures (forall j :: 0 <= j < |rows| ==> rows[j].None?) ==> Common(rows, seqlen) == seqlen
  {
    if rows != [] && rows[0].None? {
      CommonIs(rows[1..], seqlen);
      forall j | IsFirstPresent(rows, j) ensures Common(rows, seqlen) == |rows[j].value| {
        assert IsFirstPresent(rows[1..], j - 1);
      }
    }
  }

  /** The length of the first row that has values, else the given one. */
  function Common<E>(rows: seq<Option<seq<E>>>, seqlen: nat): nat {
    if rows == [] then seqlen else if rows[0].Some? then |rows[0].value| else Common(rows[1..], seqlen)
  }

  /** The values that reach the training forward, when the row has n prompt tokens and m response
      tokens. */
  function Reaching<E>(n: nat, m: nat, dense: Option<seq<E>>, zero: E): (z: seq<E>)
    requires dense.Some? ==> |dense.value| == m
    ensures |z| == n + m
  {
    Copies(n, zero) + if dense.Some? then dense.value else Copies(m, zero)
  }

  /** What padding, stacking and unpadding together do to one row. */
  lemma LatentReaches<E>(n: nat, m: nat, dense: Option<seq<E>>, left: nat, right: nat, zero: E, row: seq<E>)
    requires n <= left && m <= right && (dense.Some? ==> |dense.value| == m)
    requires row == if dense.Some? then Copies(left, zero) + dense.value + Copies(right - m, zero)
                    else Copies(left + right, zero)
    ensures |row| == left + right
    ensures Select(row, Attention(n, m, left, right)) == Reaching(n, m, dense, zero)
  {
    var z := if dense.Some? then dense.value else Copies(m, zero);
    SelectUnpads(Copies(n, zero), z, left, right, zero);
    assert row == Padded(Copies(n, zero), z, left, right, zero);
  }

  /** A mask that agrees with the true one up to b and is off after: the cached values placed under
      it are again what a recomputation gives. */
  lemma PlacedSolves<E, H>(net: Net<E, H>, n: nat, ids: seq<int>, mask: seq<bool>, dense: Option<seq<E>>, zero: E,
                           b: nat, rebuilt: seq<bool>)
    requires n <= |ids| == |mask| == |rebuilt| && forall i :: 0 <= i < n ==> !mask[i]
    requires forall i :: 0 <= i < |ids| ==> (rebuilt[i] <==> i < b && mask[i])
    requires DenseRight(n, Unroll(net, ids, mask), mask, dense)
    ensures Where(rebuilt, Reaching(n, |ids| - n, dense, zero), Embeds(net, ids)) == Unroll(net, ids, rebuilt)
  {
    assert dense.Some? ==> |dense.value| == |ids| - n;
    hide *;
    var v := Unroll(net, ids, mask);
    var out := Where(rebuilt, Reaching(n, |ids| - n, dense, zero), Embeds(net, ids));
    ExtendUnique(net, [], ids, mask, v);
    assert Solves(net, [], ids, mask, v) by { UnrollIs(net, ids, mask); }
    forall i: nat | i < |ids| ensures out[i] == if rebuilt[i] then v[i] else net.embed(ids[i]) {
      PlacedAt(net, n, ids, mask, dense, zero, rebuilt, v, i);
    }
    forall i: nat | i < |ids| ensures out[i] == Value(net, out[..i], ids[i], rebuilt[i]) {
      OutSolves(net, ids, mask, rebuilt, b, v, out, i);
    }
    MakeSolution(net, ids, rebuilt, out);
  }

  lemma OutSolves<E, H>(net: Net<E, H>, ids: seq<int>, mask: seq<bool>, rebuilt: seq<bool>, b: nat, v: seq<E>, out: seq<E>, i: nat)
    requires |ids| == |mask| == |rebuilt| == |out| && i < |ids| && Solves(net, [], ids, mask, v) && |v| == |ids|
    requires forall i :: 0 <= i < |ids| ==> (rebuilt[i] <==> i < b && mask[i])
    requires forall i: nat :: i < |ids| ==> out[i] == if rebuilt[i] then v[i] else net.embed(ids[i])
    ensures out[i] == Value(net, out[..i], ids[i], rebuilt[i])
  {
    hide *;
    ValueIs(net, out[..i], ids[i], false);
    if rebuilt[i] {
      forall j: nat | j < i ensures out[j] == v[j] {
        ValueAt(net, ids, mask, v, j);
        ValueIs(net, v[..j], ids[j], false);
      }
      assert out[..i] == v[..i];
      ValueAt(net, ids, mask, v, i);
    }
  }

  lemma UnrollIs<E, H>(net: Net<E, H>, ids: seq<int>, mask: seq<bool>)
    requires |ids| == |mask|
    ensures Unroll(net, ids, mask) == Extend(net, [], ids, mask)
  {
  }

  lemma ValueIs<E, H>(net: Net<E, H>, ctx: seq<E>, id: int, masked: bool)
    ensures Value(net, ctx, id, masked) == if masked then Z(net, ctx) else net.embed(id)
  {
  }

  lemma PlacedAt<E, H>(net: Net<E, H>, n: nat, ids: seq<int>, mask: seq<bool>, dense: Option<seq<E>>, zero: E,
                       rebuilt: seq<bool>, v: seq<E>, i: nat)
    requires n <= |ids| == |mask| == |rebuilt| && i < |ids| && DenseRight(n, v, mask, dense)
    requires rebuilt[i] ==> mask[i] && n <= i
    ensures |v| == |ids| && (dense.Some? ==> |dense.value| == |ids| - n)
    ensures Where(rebuilt, Reaching(n, |ids| - n, dense, zero), Embeds(net, ids))[i] ==
            if rebuilt[i] then v[i] else net.embed(ids[i])
  {
  }

  /** The cached branch against the recomputed one, on one row whose true mask parses: under the
      mask the forward rebuilds they give the same embeddings, also when the row is cut inside a
      block; and when it is not, that mask is the true one. */
  lemma CachedIsRecomputed<E, H>(net: Net<E, H>, c: Config, n: nat, ids: seq<int>, mask: seq<bool>, dense: Option<seq<E>>,
                                 zero: E, p: Parse, rebuilt: seq<bool>)
    requires Unambiguous(c) && Parses(c, ids, mask, p) && Rebuilt(c, ids, rebuilt) && |mask| == |ids|
    requires n <= |ids| && forall i :: 0 <= i < n ==> !mask[i]
    requires DenseRight(n, Unroll(net, ids, mask), mask, dense)
    ensures Where(rebuilt, Reaching(n, |ids| - n, dense, zero), Embeds(net, ids)) == Unroll(net, ids, rebuilt)
    ensures !CutInside(p) <==> rebuilt == mask
  {
    hide Parses, Covered, Unambiguous, Unroll, CutInside, DenseRight, Where, Reaching, BlocksMask;
    MaskAgreement(c, ids, mask, p);
    forall i: nat | i < |ids| ensures rebuilt[i] <==> i < |Blocks(c, p.ss)| && mask[i] {
      RowCovered(c, ids, mask, p, i);
      if i < |Blocks(c, p.ss)| {
        RowPrefix(c, ids, mask, p, i);
      }
    }
    PlacedSolves(net, n, ids, mask, dense, zero, |Blocks(c, p.ss)|, rebuilt);
    assert (forall i: nat :: i < |ids| ==> (Covered(c, ids, i) <==> mask[i])) <==> rebuilt == mask;
  }

  lemma RowPrefix(c: Config, ids: seq<int>, mask: seq<bool>, p: Parse, i: nat)
    requires Parses(c, ids, mask, p) && i < |ids| && i < |Blocks(c, p.ss)|
    ensures i < |mask| && mask[i] == BlocksMask(c, p.ss)[i]
  {
  }

  lemma ValueAt<E, H>(net: Net<E, H>, ids: seq<int>, mask: seq<bool>, v: seq<E>, i: nat)
    requires |ids| == |mask| && Solves(net, [], ids, mask, v) && i < |ids|
    ensures v[i] == Value(net, v[..i], ids[i], mask[i])
  {
    var none: seq<E> := [];
    assert v[|none| + i] == Value(net, v[..|none| + i], ids[i], mask[i]);
  }

  lemma MakeSolution<E, H>(net: Net<E, H>, ids: seq<int>, mask: seq<bool>, out: seq<E>)
    requires |ids| == |mask| == |out|
    requires forall i :: 0 <= i < |ids| ==> out[i] == Value(net, out[..i], ids[i], mask[i])
    ensures out == Unroll(net, ids, mask)
  {
    ExtendUnique(net, [], ids, mask, out);
  }

  /** The rebuilt mask is the true one up to a point and empty after it, on a row whose parts fit
      together; so both branches use the same embeddings, the rollout's own if the row does not end
      inside a block. */
  lemma SeamlessAgrees<E, H>(net: Net<E, H>, c: Config, prompt: seq<int>, script: seq<Turn>, parts: seq<Part<E>>, resp: seq<int>,
                             dense: Option<seq<E>>, zero: E, rebuilt: seq<bool>)
    requires Unambiguous(c) && History(net, c, script, parts) && resp <= Ids(parts) && |Ids(parts)| == |Truth(parts)|
    requires Seamless(c, prompt, parts, prompt + resp) && Rebuilt(c, prompt + resp, rebuilt)
    requires var truth := Falses(|prompt|) + Truth(parts)[..|resp|];
             DenseRight(|prompt|, Unroll(net, prompt + resp, truth), truth, dense)
    ensures var ids := prompt + resp;
            Where(rebuilt, Reaching(|prompt|, |resp|, dense, zero), Embeds(net, ids)) == Unroll(net, ids, rebuilt)
    ensures var truth := Falses(|prompt|) + Truth(parts)[..|resp|];
            rebuilt == truth <==> !EndsInBlock(c, truth)
  {
    var ids, truth := prompt + resp, Falses(|prompt|) + Truth(parts)[..|resp|];
    assert Ids(parts)[..|resp|] == resp;
    hide Ids, Truth, History, Seamless, Parses, Unroll, DenseRight, Where, Reaching, Rebuilt, EndsInBlock, CutInside, NeverBegins;
    var p := RowParses(net, c, prompt, script, parts, |resp|, ids);
    CutShows(c, ids, truth, p);
    CachedIsRecomputed(net, c, |prompt|, ids, truth, dense, zero, p, rebuilt);
  }

  /** End to end, for one response: roll it out, pad, stack, unpad, and run the training forward with
      and without the cached values.  On a clean rollout whose parts fit together both use the same
      embeddings, under the mask rebuilt from the tokens; and that is the true mask, the embeddings
      the rollout's own, exactly when the row does not end inside a block. */
  method RolloutThenTrain<E, H>(net: Net<E, H>, c: Config, prompt: seq<int>, script: seq<Turn>, maxTurns: nat,
                                left: nat, right: nat, zero: E)
    returns (cached: Result<seq<E>>, recomputed: Result<seq<E>>, resp: seq<int>, ghost rebuilt: seq<bool>, ghost parts: seq<Part<E>>)
    requires c.Usable() && c.K >= 1 && prompt != [] && maxTurns <= |script| && |prompt| <= left
    ensures History(net, c, script, parts) && Complete(script, maxTurns, right, parts) && Chained(net, prompt, parts)
    ensures |Ids(parts)| == |Truth(parts)| && resp == Ids(parts)[..if |Ids(parts)| < right then |Ids(parts)| else right]
    ensures Rebuilt(c, prompt + resp, rebuilt) && recomputed == Ok(Unroll(net, prompt + resp, rebuilt))
    ensures Unambiguous(c) && Clean(c, script, parts) && Seamless(c, prompt, parts, prompt + resp) ==>
              && cached == recomputed
              && var truth := Falses(|prompt|) + Truth(parts)[..|resp|];
                 rebuilt == truth <==> !EndsInBlock(c, truth)
  {
    hide Unroll, Parses, Covered, Unambiguous, Clean, Ids, Truth, Observed, Scripted, DenseRight, CutInside, Seamless, EndsInBlock;
    hide Complete, Chained, Masks;
    var respMask, dense;
    resp, respMask, dense, parts := RunAgent(net, c, prompt, script, maxTurns, right, zero);
    var n, m, ids := |prompt|, |resp|, prompt + resp;
    var rows: seq<Option<seq<E>>> := [None];
    assert rows[1..] == [] && Common(rows, left + right) == left + right;
    if dense.Some? {
      var padded := PadLatent(dense.value, left, right, zero);
      rows := [Some(padded[..])];
    }
    var full := StackLatent(rows, left + right, zero);
    LatentReaches(n, m, dense, left, right, zero, full[0]);
    var z := Select(full[0], Attention(n, m, left, right));
    ghost var other;
    cached, other := LatentModelForward(net, c, ids, None, Some(z));
    recomputed, rebuilt := LatentModelForward(net, c, ids, None, None);
    assert other == rebuilt;
    if Unambiguous(c) && Clean(c, script, parts) && Seamless(c, prompt, parts, ids) {
      SeamlessAgrees(net, c, prompt, script, parts, resp, dense, zero, rebuilt);
      NothingMarked(net, ids, rebuilt, Reaching(n, m, dense, zero));
    }
  }

  lemma NothingMarked<E, H>(net: Net<E, H>, ids: seq<int>, mask: seq<bool>, z: seq<E>)
    requires |mask| == |ids| == |z|
    ensures !Any(mask) ==> Where(mask, z, Embeds(net, ids)) == Embeds(net, ids)
  {
  }
}
