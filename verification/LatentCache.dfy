/** The cached path: the agent loop runs the plugin turn by turn and maps the captured values to
    response positions; padding, stacking and unpadding bring them to the training forward. */
module LatentCache {
  import opened Latent
  import opened LatentForward
  import opened LatentMask
  import opened LatentPlugin
  import opened LatentRows
  import opened Options

  // ---- captured values and their positions -------------------------------------------------

  /** Positions of the sentinel in a turn's tokens, in order. */
  function Positions(ids: seq<int>, sentinel: int): (ps: seq<nat>)
    ensures forall k :: 0 <= k < |ps| ==> ps[k] < |ids|
  {
    if ids == [] then []
    else
      var n := |ids| - 1;
      Positions(ids[..n], sentinel) + if ids[n] == sentinel then [n] else []
  }

  /** `_build_turn_z_positions` */
  function TurnPositions(ids: seq<int>, sentinel: int, nz: nat): seq<nat> {
    var ps := Positions(ids, sentinel);
    ps[..if |ps| < nz then |ps| else nz]
  }

  /** When the sentinel tokens are the forced ones, the k-th captured value belongs to the k-th
      sentinel position. */
  lemma {:induction false} SelectPositions<T>(xs: seq<T>, mask: seq<bool>, ids: seq<int>, sentinel: int)
    requires |xs| == |mask| == |ids| && forall j :: 0 <= j < |ids| ==> mask[j] == (ids[j] == sentinel)
    ensures var ps, zs := Positions(ids, sentinel), Select(xs, mask);
            && |ps| == |zs| && (forall k :: 0 <= k < |ps| ==> mask[ps[k]] && zs[k] == xs[ps[k]])
            && forall j :: 0 <= j < |ids| && mask[j] ==> j in ps
  {
    if ids != [] {
      var n := |ids| - 1;
      SelectPositions(xs[..n], mask[..n], ids[..n], sentinel);
      forall j | 0 <= j < |ids| && mask[j] ensures j in Positions(ids, sentinel) {
        assert j < n ==> mask[..n][j];
      }
    }
  }

  // ---- what a row's cached values must be --------------------------------------------------

  /** The pairs gathered for a response after a prompt of n tokens, whose row embeddings are v: a
      value for each latent position and for no other, the embedding that position really has. */
  ghost predicate PairsRight<E>(n: nat, v: seq<E>, mask: seq<bool>, pairs: seq<(nat, E)>) {
    && |mask| == |v| && n <= |v|
    && (forall k :: 0 <= k < |pairs| ==> PairRight(n, v, mask, pairs[k]))
    && (forall j :: n <= j < |v| && mask[j] ==> exists k :: 0 <= k < |pairs| && n + pairs[k].0 == j)
  }

  ghost predicate PairRight<E>(n: nat, v: seq<E>, mask: seq<bool>, pair: (nat, E))
    requires |mask| == |v|
  {
    n + pair.0 < |v| && mask[n + pair.0] && pair.1 == v[n + pair.0]
  }

  function PairUp<E>(offset: nat, ps: seq<nat>, zs: seq<E>): (pairs: seq<(nat, E)>)
    requires |ps| <= |zs|
    ensures |pairs| == |ps| && forall k :: 0 <= k < |ps| ==> pairs[k] == (offset + ps[k], zs[k])
  {
    seq(|ps|, k requires 0 <= k < |ps| => (offset + ps[k], zs[k]))
  }

  /** Going on: the values of the new part, each at its own position. */
  lemma PairsAppend<E>(n: nat, v: seq<E>, mask: seq<bool>, pairs: seq<(nat, E)>, x: seq<E>, m: seq<bool>, ps: seq<nat>, zs: seq<E>)
    requires PairsRight(n, v, mask, pairs) && |x| == |m| && |ps| == |zs|
    requires forall k :: 0 <= k < |ps| ==> ps[k] < |x| && m[ps[k]] && zs[k] == x[ps[k]]
    requires forall j :: 0 <= j < |x| && m[j] ==> j in ps
    ensures PairsRight(n, v + x, mask + m, pairs + PairUp(|v| - n, ps, zs))
  {
    var all := pairs + PairUp(|v| - n, ps, zs);
    forall k | 0 <= k < |all| ensures PairRight(n, v + x, mask + m, all[k]) {
      if k < |pairs| {
        assert PairRight(n, v, mask, pairs[k]);
      }
    }
    hide PairRight;
    forall j | n <= j < |v + x| && (mask + m)[j] ensures exists k :: 0 <= k < |all| && n + all[k].0 == j {
      var k := PairFor(n, v, mask, pairs, x, m, ps, zs, j);
    }
  }

  lemma PairFor<E>(n: nat, v: seq<E>, mask: seq<bool>, pairs: seq<(nat, E)>, x: seq<E>, m: seq<bool>, ps: seq<nat>, zs: seq<E>, j: nat)
    returns (k: nat)
    requires PairsRight(n, v, mask, pairs) && |x| == |m| && |ps| == |zs|
    requires forall j :: 0 <= j < |x| && m[j] ==> j in ps
    requires n <= j < |v + x| && (mask + m)[j]
    ensures var all := pairs + PairUp(|v| - n, ps, zs); k < |all| && n + all[k].0 == j
  {
    hide PairRight;
    if j < |v| {
      k :| 0 <= k < |pairs| && n + pairs[k].0 == j;
    } else {
      var i :| 0 <= i < |ps| && ps[i] == j - |v|;
      k := |pairs| + i;
    }
  }

  lemma UnrollFront<E, H>(net: Net<E, H>, ids: seq<int>, mask: seq<bool>, n: nat)
    requires |ids| == |mask| && n <= |ids|
    ensures Unroll(net, ids, mask)[..n] == Unroll(net, ids[..n], mask[..n])
  {
    hide Extend;
    var none: seq<E> := [];
    ExtendPrefix(net, none, ids, mask, n);
    assert |none| + n == n;
  }

  lemma UnrollExtends<E, H>(net: Net<E, H>, ids: seq<int>, mask: seq<bool>, ids': seq<int>, mask': seq<bool>)
    requires |ids| == |mask| && |ids'| == |mask'|
    ensures Unroll(net, ids + ids', mask + mask') == Extend(net, Unroll(net, ids, mask), ids', mask')
  {
    hide Extend;
    ExtendConcat(net, [], ids, mask, ids', mask');
  }

  lemma UnrollGrows<E, H>(net: Net<E, H>, ids: seq<int>, mask: seq<bool>, ids': seq<int>, mask': seq<bool>)
    requires |ids| == |mask| && |ids'| == |mask'|
    ensures var v, w := Unroll(net, ids, mask), Unroll(net, ids + ids', mask + mask');
            w == Extend(net, v, ids', mask') && w == v + w[|ids|..]
  {
    hide *;
    var w := Unroll(net, ids + ids', mask + mask');
    UnrollExtends(net, ids, mask, ids', mask');
    UnrollFront(net, ids + ids', mask + mask', |ids|);
    assert (ids + ids')[..|ids|] == ids && (mask + mask')[..|ids|] == mask;
    assert w == w[..|ids|] + w[|ids|..];
  }

  /** More text adds no value. */
  lemma PairsText<E, H>(net: Net<E, H>, n: nat, ids: seq<int>, mask: seq<bool>, pairs: seq<(nat, E)>, text: seq<int>)
    requires |ids| == |mask| && PairsRight(n, Unroll(net, ids, mask), mask, pairs)
    ensures PairsRight(n, Unroll(net, ids + text, mask + Falses(|text|)), mask + Falses(|text|), pairs)
  {
    hide Unroll, Extend, PairsRight;
    UnrollGrows(net, ids, mask, text, Falses(|text|));
    var x := Unroll(net, ids + text, mask + Falses(|text|))[|ids|..];
    PairsAppend(n, Unroll(net, ids, mask), mask, pairs, x, Falses(|text|), [], []);
    assert pairs + PairUp<E>(|ids| - n, [], []) == pairs by { PairsBound(n, Unroll(net, ids, mask), mask, pairs); }
  }

  lemma PairsBound<E>(n: nat, v: seq<E>, mask: seq<bool>, pairs: seq<(nat, E)>)
    requires PairsRight(n, v, mask, pairs)
    ensures |mask| == |v| && n <= |v|
  {
  }

  /** A turn without freely sampled sentinels adds exactly the values of its latent positions. */
  lemma PairsTurn<E, H>(net: Net<E, H>, n: nat, ids: seq<int>, mask: seq<bool>, pairs: seq<(nat, E)>,
                        outs: seq<int>, outMask: seq<bool>, zs: seq<E>, sentinel: int)
    requires |ids| == |mask| && PairsRight(n, Unroll(net, ids, mask), mask, pairs) && |outs| == |outMask|
    requires forall j :: 0 <= j < |outs| ==> outMask[j] == (outs[j] == sentinel)
    requires zs == Select(Extend(net, Unroll(net, ids, mask), outs, outMask)[|ids|..], outMask)
    ensures n <= |ids| && |TurnPositions(outs, sentinel, |zs|)| == |zs|
    ensures PairsRight(n, Unroll(net, ids + outs, mask + outMask), mask + outMask,
                       pairs + PairUp(|ids| - n, TurnPositions(outs, sentinel, |zs|), zs))
  {
    hide Unroll, Extend, Select, Positions, PairsRight;
    PairsBound(n, Unroll(net, ids, mask), mask, pairs);
    UnrollGrows(net, ids, mask, outs, outMask);
    var x := Unroll(net, ids + outs, mask + outMask)[|ids|..];
    SelectPositions(x, outMask, outs, sentinel);
    var ps := Positions(outs, sentinel);
    assert TurnPositions(outs, sentinel, |zs|) == ps;
    PairsAppend(n, Unroll(net, ids, mask), mask, pairs, x, outMask, ps, zs);
  }

  // ---- one turn ----------------------------------------------------------------------------

  /** The turn sampled no sentinel of its own and, if the agent goes on after it, did not stop with
      a forced embedding still waiting. */
  predicate CleanTurn<E>(c: Config, s: Stream<E>, goesOn: bool) {
    && |s.outs| == |s.mask|
    && (forall j :: 0 <= j < |s.outs| && s.outs[j] == c.sentinel ==> s.mask[j])
    && (goesOn ==> s.r.nextEmbed.None?)
  }

  lemma {:induction false} RunLast<E, H>(net: Net<E, H>, c: Config, s: Stream<E>, samples: seq<int>)
    requires c.Usable() && Run(net, c, s, samples).Some?
    ensures var t := Run(net, c, s, samples).value;
            s.outs <= t.outs && t.last == if |t.outs| == |s.outs| then s.last else t.outs[|t.outs| - 1]
    decreases |samples|
  {
    if samples != [] {
      var n := |samples| - 1;
      RunLast(net, c, s, samples[..n]);
      StepConsumes(net, c, Run(net, c, s, samples[..n]).value, samples[n]);
      hide Step;
    }
  }

  /** The plugin's run of a turn: its output parses, its captured values are those of its mask, and
      what the server then holds is the embedding sequence of everything so far. */
  lemma TurnRuns<E, H>(net: Net<E, H>, c: Config, kv: seq<E>, last: int, samples: seq<int>) returns (p: Parse)
    requires c.Usable() && c.K >= 1 && kv != [] && kv[|kv| - 1] == net.embed(last)
    ensures var r := Run(net, c, Start(kv, last), samples);
            && r.Some?
            && var s := r.value;
               && Parses(c, s.outs, s.mask, p) && |s.outs| == |s.mask|
               && s.last == (if s.outs == [] then last else s.outs[|s.outs| - 1])
               && var v := Extend(net, kv, s.outs, s.mask);
                  && s.r.captured == Select(v[|kv|..], s.mask)
                  && |s.used| + 1 == |kv| + |s.outs|
                  && (s.r.nextEmbed.None? ==> s.used + [net.embed(s.last)] == v)
  {
    p := OutputParses(net, c, kv, last, samples);
    RolloutEmbeddings(net, c, kv, last, samples);
    RunLast(net, c, Start(kv, last), samples);
    hide Run, Extend, Parses, Select;
    var s := Run(net, c, Start(kv, last), samples).value;
    assert |s.used + [InputEmbed(net, s.r, s.last)]| == |s.used| + 1;
  }

  /** On a clean turn the mask is the sentinel tokens. */
  lemma CleanMask<E>(c: Config, s: Stream<E>, goesOn: bool, p: Parse)
    requires CleanTurn(c, s, goesOn) && Parses(c, s.outs, s.mask, p)
    ensures forall j :: 0 <= j < |s.outs| ==> s.mask[j] == (s.outs[j] == c.sentinel)
  {
    hide Parses;
    forall j: nat | j < |s.outs| ensures s.mask[j] ==> s.outs[j] == c.sentinel {
      RowMasked(c, s.outs, s.mask, p, j);
    }
  }

  // ---- densify -----------------------------------------------------------------------------

  /** e is a value gathered for position j, or zero when there is none. */
  ghost predicate Placed<E>(pairs: seq<(nat, E)>, j: nat, zero: E, e: E) {
    if exists k :: 0 <= k < |pairs| && pairs[k].0 == j then
      exists k :: 0 <= k < |pairs| && pairs[k] == (j, e)
    else e == zero
  }

  /** None when no pair lies before n, else a value per position. */
  ghost predicate IsDense<E>(pairs: seq<(nat, E)>, n: nat, zero: E, dense: Option<seq<E>>) {
    && (dense.None? <==> forall k :: 0 <= k < |pairs| ==> pairs[k].0 >= n)
    && (dense.Some? ==> |dense.value| == n && forall j :: 0 <= j < n ==> Placed(pairs, j, zero, dense.value[j]))
  }

  lemma PlaceOne<E>(pairs: seq<(nat, E)>, pair: (nat, E), j: nat, zero: E, e: E)
    requires Placed(pairs, j, zero, e)
    ensures Placed(pairs + [pair], j, zero, if pair.0 == j then pair.1 else e)
  {
    var all := pairs + [pair];
    if pair.0 == j {
      assert all[|pairs|] == (j, pair.1);
    } else {
      assert forall k :: 0 <= k < |pairs| ==> all[k] == pairs[k];
    }
  }

  /** The sparse pairs as one value per response position. */
  method Densify<E>(pairs: seq<(nat, E)>, n: nat, zero: E) returns (dense: Option<seq<E>>)
    ensures IsDense(pairs, n, zero, dense)
  {
    if forall k :: 0 <= k < |pairs| ==> pairs[k].0 >= n {
      return None;
    }
    var z := new E[n](_ => zero);
    for i := 0 to |pairs|
      invariant forall j :: 0 <= j < n ==> Placed(pairs[..i], j, zero, z[j])
    {
      forall j: nat | j < n ensures Placed(pairs[..i + 1], j, zero, if pairs[i].0 == j then pairs[i].1 else z[j]) {
        PlaceOne(pairs[..i], pairs[i], j, zero, z[j]);
        assert pairs[..i + 1] == pairs[..i] + [pairs[i]];
      }
      hide Placed;
      if pairs[i].0 < n {
        z[pairs[i].0] := pairs[i].1;
      }
    }
    assert pairs[..|pairs|] == pairs;
    dense := Some(z[..]);
  }

  /** The dense values agree with the row's embeddings wherever the row is latent. */
  ghost predicate DenseRight<E>(n: nat, v: seq<E>, mask: seq<bool>, dense: Option<seq<E>>) {
    && |v| == |mask| && n <= |v| && (dense.Some? ==> n + |dense.value| == |v|)
    && forall j :: n <= j < |v| && mask[j] ==> dense.Some? && dense.value[j - n] == v[j]
  }

  lemma PlacedIsRight<E>(n: nat, v: seq<E>, mask: seq<bool>, pairs: seq<(nat, E)>, i: nat, zero: E, e: E)
    requires |mask| == |v| && forall k :: 0 <= k < |pairs| ==> PairRight(n, v, mask, pairs[k])
    requires i < |pairs| && Placed(pairs, pairs[i].0, zero, e)
    ensures n + pairs[i].0 < |v| && e == v[n + pairs[i].0]
  {
    var j := pairs[i].0;
    var k :| 0 <= k < |pairs| && pairs[k] == (j, e);
    assert PairRight(n, v, mask, pairs[k]);
  }

  lemma PairsMakeDense<E>(n: nat, v: seq<E>, mask: seq<bool>, pairs: seq<(nat, E)>, m: nat, zero: E, dense: Option<seq<E>>)
    requires PairsRight(n, v, mask, pairs) && n + m <= |v| && IsDense(pairs, m, zero, dense)
    ensures |mask| == |v| && DenseRight(n, v[..n + m], mask[..n + m], dense)
  {
    hide Placed, PairRight;
    forall j | n <= j < n + m && mask[j] ensures dense.Some? && dense.value[j - n] == v[j] {
      var k :| 0 <= k < |pairs| && n + pairs[k].0 == j;
      assert pairs[k].0 < m;
      PlacedIsRight(n, v, mask, pairs, k, zero, dense.value[j - n]);
    }
  }
}
