/** The network as latent reasoning sees it, and the one embedding sequence that plugin, training
    expansion and cached path are all meant to produce. */
module Latent {

  /** `embed` looks a token up, `hidden` is the last position's hidden state after a causal
      forward over the embeddings so far, `proj` is the latent projector. */
  datatype Net<!E, !H> = Net(embed: int -> E, hidden: seq<E> -> H, proj: H -> E)

  function Z<E, H>(net: Net<E, H>, ctx: seq<E>): E {
    net.proj(net.hidden(ctx))
  }

  /** The embedding of one position: its token's, or the projection of everything before it. */
  function Value<E, H>(net: Net<E, H>, ctx: seq<E>, id: int, masked: bool): E {
    if masked then Z(net, ctx) else net.embed(id)
  }

  /** Embeddings of `ids` appended to those of the context, position by position. */
  function Extend<E, H>(net: Net<E, H>, ctx: seq<E>, ids: seq<int>, mask: seq<bool>): (out: seq<E>)
    requires |ids| == |mask|
    ensures |out| == |ctx| + |ids|
    decreases |ids|
  {
    if ids == [] then ctx
    else
      var init := Extend(net, ctx, ids[..|ids| - 1], mask[..|ids| - 1]);
      init + [Value(net, init, ids[|ids| - 1], mask[|ids| - 1])]
  }

  function Unroll<E, H>(net: Net<E, H>, ids: seq<int>, mask: seq<bool>): (out: seq<E>)
    requires |ids| == |mask|
    ensures |out| == |ids|
  {
    Extend(net, [], ids, mask)
  }

  function Falses(n: nat): (s: seq<bool>)
    ensures |s| == n && forall i :: 0 <= i < n ==> !s[i]
  {
    seq(n, _ => false)
  }

  function Trues(n: nat): (s: seq<bool>)
    ensures |s| == n && forall i :: 0 <= i < n ==> s[i]
  {
    seq(n, _ => true)
  }

  function Embeds<E, H>(net: Net<E, H>, ids: seq<int>): (out: seq<E>)
    ensures |out| == |ids| && forall i :: 0 <= i < |ids| ==> out[i] == net.embed(ids[i])
  {
    seq(|ids|, i requires 0 <= i < |ids| => net.embed(ids[i]))
  }

  lemma ExtendStep<E, H>(net: Net<E, H>, ctx: seq<E>, ids: seq<int>, mask: seq<bool>, id: int, m: bool)
    requires |ids| == |mask|
    ensures Extend(net, ctx, ids + [id], mask + [m]) ==
            Extend(net, ctx, ids, mask) + [Value(net, Extend(net, ctx, ids, mask), id, m)]
  {
    assert (ids + [id])[..|ids|] == ids && (mask + [m])[..|ids|] == mask;
  }

  /** Extending in two parts is extending by the whole: the rollout may stop and go on. */
  lemma {:induction false} ExtendConcat<E, H>(net: Net<E, H>, ctx: seq<E>, ids: seq<int>, mask: seq<bool>, ids': seq<int>, mask': seq<bool>)
    requires |ids| == |mask| && |ids'| == |mask'|
    ensures Extend(net, Extend(net, ctx, ids, mask), ids', mask') == Extend(net, ctx, ids + ids', mask + mask')
    decreases |ids'|
  {
    if ids' == [] {
      assert ids + ids' == ids && mask + mask' == mask;
    } else {
      var n := |ids'| - 1;
      ExtendConcat(net, ctx, ids, mask, ids'[..n], mask'[..n]);
      assert ids + ids' == (ids + ids'[..n]) + [ids'[n]];
      assert mask + mask' == (mask + mask'[..n]) + [mask'[n]];
      ExtendStep(net, ctx, ids + ids'[..n], mask + mask'[..n], ids'[n], mask'[n]);
    }
  }

  /** Causality: cutting the input cuts the output. */
  lemma {:induction false} ExtendPrefix<E, H>(net: Net<E, H>, ctx: seq<E>, ids: seq<int>, mask: seq<bool>, n: nat)
    requires |ids| == |mask| && n <= |ids|
    ensures Extend(net, ctx, ids, mask)[..|ctx| + n] == Extend(net, ctx, ids[..n], mask[..n])
    decreases |ids|
  {
    if n < |ids| {
      var k := |ids| - 1;
      ExtendPrefix(net, ctx, ids[..k], mask[..k], n);
      assert ids[..k][..n] == ids[..n] && mask[..k][..n] == mask[..n];
    } else {
      assert ids[..n] == ids && mask[..n] == mask;
    }
  }

  /** The position-by-position equation: the context first, then each embedding determined by
      the ones before it. */
  ghost predicate Solves<E, H>(net: Net<E, H>, ctx: seq<E>, ids: seq<int>, mask: seq<bool>, out: seq<E>)
    requires |ids| == |mask|
  {
    && |out| == |ctx| + |ids| && ctx <= out
    && forall i :: 0 <= i < |ids| ==> out[|ctx| + i] == Value(net, out[..|ctx| + i], ids[i], mask[i])
  }

  /** `Extend` is its only solution. */
  lemma {:induction false} ExtendUnique<E, H>(net: Net<E, H>, ctx: seq<E>, ids: seq<int>, mask: seq<bool>, out: seq<E>)
    requires |ids| == |mask|
    ensures out == Extend(net, ctx, ids, mask) <==> Solves(net, ctx, ids, mask, out)
    decreases |ids|
  {
    if |out| == |ctx| + |ids| && ids != [] {
      var n := |ids| - 1;
      var init := out[..|ctx| + n];
      assert out == init + [out[|ctx| + n]];
      ExtendUnique(net, ctx, ids[..n], mask[..n], init);
      forall i | 0 <= i < n
        ensures ids[..n][i] == ids[i] && init[|ctx| + i] == out[|ctx| + i] && init[..|ctx| + i] == out[..|ctx| + i]
      {
      }
      assert Solves(net, ctx, ids, mask, out) ==> Solves(net, ctx, ids[..n], mask[..n], init);
      if out == Extend(net, ctx, ids, mask) {
        ExtendPrefix(net, ctx, ids, mask, n);
        forall i | 0 <= i < |ids| ensures out[|ctx| + i] == Value(net, out[..|ctx| + i], ids[i], mask[i]) {
          if i < n {
            assert init[|ctx| + i] == Value(net, init[..|ctx| + i], ids[..n][i], mask[..n][i]);
          }
        }
      }
    }
  }

  /** Unmasked positions cost no forward: their embeddings are the tokens' own. */
  lemma {:induction false} ExtendText<E, H>(net: Net<E, H>, ctx: seq<E>, ids: seq<int>)
    ensures Extend(net, ctx, ids, Falses(|ids|)) == ctx + Embeds(net, ids)
  {
    var out := ctx + Embeds(net, ids);
    ExtendUnique(net, ctx, ids, Falses(|ids|), out);
  }
}
