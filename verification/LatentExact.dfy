/** When exactly the values cached in the rollout may stand in for a recomputation. */
module LatentExact {
  import opened Latent
  import opened LatentCache
  import opened LatentForward
  import opened LatentTraining
  import opened Options

  /** The rebuilt mask is the true one up to some position and empty after it. */
  ghost predicate CutOff(mask: seq<bool>, rebuilt: seq<bool>)
    requires |mask| == |rebuilt|
  {
    exists b: nat :: CutAt(mask, rebuilt, b)
  }

  ghost predicate CutAt(mask: seq<bool>, rebuilt: seq<bool>, b: nat)
    requires |mask| == |rebuilt|
  {
    forall i :: 0 <= i < |mask| ==> (rebuilt[i] <==> i < b && mask[i])
  }

  /** An embedding that remembers where it comes from. */
  datatype Trace = Token | Projected(seen: seq<Trace>)

  function Recorder(): Net<Trace, seq<Trace>> {
    Net(_ => Token, xs => xs, xs => Projected(xs))
  }

  /** With values that are right for the true mask, the cached branch is the recomputation under the
      rebuilt mask. */
  ghost predicate Interchangeable<E, H>(net: Net<E, H>, n: nat, ids: seq<int>, mask: seq<bool>, rebuilt: seq<bool>,
                                        dense: Option<seq<E>>, zero: E)
    requires n <= |ids| == |mask| == |rebuilt|
  {
    DenseRight(n, Unroll(net, ids, mask), mask, dense) ==>
      && (dense.Some? ==> |dense.value| == |ids| - n)
      && Where(rebuilt, Reaching(n, |ids| - n, dense, zero), Embeds(net, ids)) == Unroll(net, ids, rebuilt)
  }

  lemma Recorded(ids: seq<int>, mask: seq<bool>, i: nat)
    requires i < |ids| == |mask|
    ensures var v := Unroll(Recorder(), ids, mask); v[i] == if mask[i] then Projected(v[..i]) else Token
  {
    var net := Recorder();
    var v := Unroll(net, ids, mask);
    UnrollIs(net, ids, mask);
    ExtendUnique(net, [], ids, mask, v);
    hide Unroll, Extend;
    ValueAt(net, ids, mask, v, i);
    ValueIs(net, v[..i], ids[i], mask[i]);
  }

  lemma {:induction false} LastMarked(m: seq<bool>) returns (b: nat)
    ensures b <= |m| && (b > 0 ==> m[b - 1]) && forall i :: b <= i < |m| ==> !m[i]
  {
    if m == [] || m[|m| - 1] {
      b := |m|;
    } else {
      b := LastMarked(m[..|m| - 1]);
    }
  }

  /** In the recording network the branches agree only if every rebuilt position is truly latent and
      everything before it agrees. */
  lemma RecorderTells(n: nat, ids: seq<int>, mask: seq<bool>, rebuilt: seq<bool>, i: nat)
    requires n <= |ids| == |mask| == |rebuilt| && i < |ids| && rebuilt[i]
    requires forall dense :: Interchangeable(Recorder(), n, ids, mask, rebuilt, dense, Token)
    ensures mask[i] && mask[..i] == rebuilt[..i]
  {
    hide Unroll, Interchangeable;
    var v, w := Unroll(Recorder(), ids, mask), Unroll(Recorder(), ids, rebuilt);
    var dense := Gathered(n, v, mask);
    assert Interchangeable(Recorder(), n, ids, mask, rebuilt, dense, Token);
    SameAt(n, ids, mask, rebuilt, v, w, i);
    Recorded(ids, mask, i);
    Recorded(ids, rebuilt, i);
    SameTraces(ids, mask, rebuilt, i);
  }

  /** The true values at the latent positions, and nothing elsewhere. */
  function Gathered(n: nat, v: seq<Trace>, mask: seq<bool>): Option<seq<Trace>>
    requires n <= |v| == |mask|
  {
    Some(seq(|v| - n, j requires 0 <= j < |v| - n => if mask[n + j] then v[n + j] else Token))
  }

  lemma SameAt(n: nat, ids: seq<int>, mask: seq<bool>, rebuilt: seq<bool>, v: seq<Trace>, w: seq<Trace>, i: nat)
    requires n <= |ids| == |mask| == |rebuilt| && i < |ids| && rebuilt[i]
    requires v == Unroll(Recorder(), ids, mask) && w == Unroll(Recorder(), ids, rebuilt)
    requires Interchangeable(Recorder(), n, ids, mask, rebuilt, Gathered(n, v, mask), Token)
    ensures w[i] == if n <= i && mask[i] then v[i] else Token
  {
    hide Unroll, Embeds;
    assert DenseRight(n, v, mask, Gathered(n, v, mask));
  }

  lemma SameTraces(ids: seq<int>, mask: seq<bool>, rebuilt: seq<bool>, i: nat)
    requires i <= |ids| == |mask| == |rebuilt|
    requires Unroll(Recorder(), ids, mask)[..i] == Unroll(Recorder(), ids, rebuilt)[..i]
    ensures mask[..i] == rebuilt[..i]
  {
    hide Unroll;
    var v, w := Unroll(Recorder(), ids, mask), Unroll(Recorder(), ids, rebuilt);
    forall j | 0 <= j < i ensures mask[j] == rebuilt[j] {
      Recorded(ids, mask, j);
      Recorded(ids, rebuilt, j);
      assert v[j] == v[..i][j] == w[..i][j] == w[j];
    }
  }

  /** Exact: the cached values do for every network if and only if the rebuilt mask is the true one,
      possibly cut off. */
  lemma CachedIffCutOff(n: nat, ids: seq<int>, mask: seq<bool>, rebuilt: seq<bool>)
    requires n <= |ids| == |mask| == |rebuilt| && forall i :: 0 <= i < n ==> !mask[i]
    ensures CutOff(mask, rebuilt) <==>
            forall net: Net<Trace, seq<Trace>>, dense, zero :: Interchangeable(net, n, ids, mask, rebuilt, dense, zero)
  {
    hide Interchangeable;
    if b: nat :| CutAt(mask, rebuilt, b) {
      forall net: Net<Trace, seq<Trace>>, dense, zero ensures Interchangeable(net, n, ids, mask, rebuilt, dense, zero) {
        CutOffWorks(net, n, ids, mask, rebuilt, dense, zero, b);
      }
    }
    if forall net: Net<Trace, seq<Trace>>, dense, zero :: Interchangeable(net, n, ids, mask, rebuilt, dense, zero) {
      var b := LastMarked(rebuilt);
      if b > 0 {
        RecorderTells(n, ids, mask, rebuilt, b - 1);
        assert forall i :: 0 <= i < b - 1 ==> mask[i] == mask[..b - 1][i] == rebuilt[..b - 1][i] == rebuilt[i];
      }
      assert CutAt(mask, rebuilt, b);
    }
  }

  /** In any network the values do under a cut-off mask. */
  lemma CutOffWorks<E, H>(net: Net<E, H>, n: nat, ids: seq<int>, mask: seq<bool>, rebuilt: seq<bool>, dense: Option<seq<E>>, zero: E, b: nat)
    requires n <= |ids| == |mask| == |rebuilt| && CutAt(mask, rebuilt, b) && forall i :: 0 <= i < n ==> !mask[i]
    ensures Interchangeable(net, n, ids, mask, rebuilt, dense, zero)
  {
    hide Unroll, Where, Reaching;
    if DenseRight(n, Unroll(net, ids, mask), mask, dense) {
      PlacedSolves(net, n, ids, mask, dense, zero, b, rebuilt);
    }
  }
}
