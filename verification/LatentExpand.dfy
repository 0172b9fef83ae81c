/** Training-side expansion: the loop over latent blocks with a growing key/value cache, and the
    row forward that substitutes either its result or cached projector outputs. */
module LatentExpand {
  import opened Latent

  datatype Result<T> = Ok(value: T) | Err

  predicate AllIs(mask: seq<bool>, a: nat, b: nat, v: bool) {
    forall i :: a <= i < b && i < |mask| ==> mask[i] == v
  }

  /** The end of the block before block k, or the start of the row. */
  function After(ends: seq<nat>, k: nat): nat
    requires k <= |ends|
  {
    if k == 0 then 0 else ends[k - 1]
  }

  /** A maximal true run [s, e) whose predecessor ended at `prev`. */
  predicate Block(mask: seq<bool>, prev: nat, s: nat, e: nat, first: bool) {
    && prev <= s < e <= |mask| && (first || prev < s)
    && AllIs(mask, prev, s, false) && AllIs(mask, s, e, true)
  }

  /** Blocks 0..n of the lists are maximal true runs of the mask, in order. */
  predicate Runs(mask: seq<bool>, starts: seq<nat>, ends: seq<nat>, n: nat)
    requires n <= |starts| && n <= |ends|
  {
    forall k :: 0 <= k < n ==> Block(mask, After(ends, k), starts[k], ends[k], k == 0)
  }

  predicate AreBlocks(mask: seq<bool>, starts: seq<nat>, ends: seq<nat>) {
    && |starts| == |ends| && Runs(mask, starts, ends, |starts|)
    && AllIs(mask, After(ends, |ends|), |mask|, false)
  }

  /** The lists after looking at the first i differences; `open` when a block has no end yet. */
  predicate Scanned(mask: seq<bool>, starts: seq<nat>, ends: seq<nat>, i: nat, open: bool) {
    && |starts| == |ends| + (if open then 1 else 0)
    && Runs(mask, starts, ends, |ends|)
    && (if ends == [] then true else ends[|ends| - 1] < i)
    && if open then
         var s := starts[|ends|];
         && After(ends, |ends|) <= s < i && (ends != [] ==> ends[|ends| - 1] < s)
         && AllIs(mask, After(ends, |ends|), s, false) && AllIs(mask, s, i, true)
       else AllIs(mask, After(ends, |ends|), i, false)
  }

  lemma StartBlock(mask: seq<bool>, starts: seq<nat>, ends: seq<nat>, i: nat)
    requires Scanned(mask, starts, ends, i, false) && i < |mask| && mask[i]
    ensures Scanned(mask, starts + [i], ends, i + 1, true)
  {
    hide Block;
    forall k | 0 <= k < |ends| ensures (starts + [i])[k] == starts[k] {}
  }

  lemma EndBlock(mask: seq<bool>, starts: seq<nat>, ends: seq<nat>, i: nat)
    requires Scanned(mask, starts, ends, i, true) && i <= |mask| && (i < |mask| ==> !mask[i])
    ensures Scanned(mask, starts, ends + [i], i + 1, false)
  {
    var ends' := ends + [i];
    assert Block(mask, After(ends, |ends|), starts[|ends|], i, |ends| == 0);
    assert AllIs(mask, i, i + 1, false);
    hide Block, AllIs, After;
    AfterAppended(ends, i);
    forall k | 0 <= k < |ends'| ensures Block(mask, After(ends', k), starts[k], ends'[k], k == 0) {
      if k < |ends| {
        assert ends'[k] == ends[k];
        assert Block(mask, After(ends, k), starts[k], ends[k], k == 0);
      }
    }
  }

  lemma AfterAppended(ends: seq<nat>, i: nat)
    ensures forall k :: 0 <= k <= |ends| ==> After(ends + [i], k) == After(ends, k)
    ensures After(ends + [i], |ends| + 1) == i
  {
  }

  lemma SameState(mask: seq<bool>, starts: seq<nat>, ends: seq<nat>, i: nat, open: bool)
    requires Scanned(mask, starts, ends, i, open) && i <= |mask|
    requires i < |mask| ==> mask[i] == open
    requires i == |mask| ==> !open
    ensures Scanned(mask, starts, ends, i + 1, open)
  {
    hide Block;
  }

  function Fenced(mask: seq<bool>): (r: seq<bool>)
    ensures |r| == |mask| + 2
  {
    [false] + mask + [false]
  }

  lemma FencedAt(mask: seq<bool>, i: nat)
    requires i <= |mask|
    ensures Fenced(mask)[i + 1] == (i < |mask| && mask[i]) && !Fenced(mask)[|mask| + 1]
  {
  }

  /** The mask padded with one false on each side, differenced; a rise starts a block, a fall
      ends one. */
  method FindBlocks(mask: seq<bool>) returns (starts: seq<nat>, ends: seq<nat>)
    ensures AreBlocks(mask, starts, ends)
  {
    var padded := Fenced(mask);
    starts, ends := [], [];
    assert Scanned(mask, [], [], 0, padded[0]);
    hide *;
    for i := 0 to |mask| + 1
      invariant Scanned(mask, starts, ends, i, padded[i])
    {
      FencedAt(mask, i);
      if !padded[i] && padded[i + 1] {
        StartBlock(mask, starts, ends, i);
        starts := starts + [i];
      } else if padded[i] && !padded[i + 1] {
        EndBlock(mask, starts, ends, i);
        ends := ends + [i];
      } else {
        SameState(mask, starts, ends, i, padded[i]);
      }
    }
    FencedAt(mask, |mask|);
    ScanDone(mask, starts, ends);
  }

  lemma ScanDone(mask: seq<bool>, starts: seq<nat>, ends: seq<nat>)
    requires Scanned(mask, starts, ends, |mask| + 1, false)
    ensures AreBlocks(mask, starts, ends)
  {
    hide Block;
  }

  /** `base_forward_fn` over a cache of everything processed: the cache afterwards, and the last
      position's hidden state. */
  function Forward<E, H>(net: Net<E, H>, past: seq<E>, embeds: seq<E>): (seq<E>, H) {
    (past + embeds, net.hidden(past + embeds))
  }

  lemma ExtendBlockText<E, H>(net: Net<E, H>, ids: seq<int>, mask: seq<bool>, a: nat, b: nat)
    requires |ids| == |mask| && a <= b <= |ids| && AllIs(mask, a, b, false)
    ensures Unroll(net, ids[..b], mask[..b]) == Unroll(net, ids[..a], mask[..a]) + Embeds(net, ids[a..b])
  {
    hide Extend, Embeds, AllIs;
    ExtendConcat(net, [], ids[..a], mask[..a], ids[a..b], mask[a..b]);
    assert ids[..a] + ids[a..b] == ids[..b] && mask[..a] + mask[a..b] == mask[..b];
    TextMask(mask, a, b);
    ExtendText(net, Unroll(net, ids[..a], mask[..a]), ids[a..b]);
  }

  lemma TextMask(mask: seq<bool>, a: nat, b: nat)
    requires a <= b <= |mask| && AllIs(mask, a, b, false)
    ensures mask[a..b] == Falses(b - a)
  {
  }

  lemma UnrollNext<E, H>(net: Net<E, H>, ids: seq<int>, mask: seq<bool>, i: nat)
    requires |ids| == |mask| && i < |ids|
    ensures Unroll(net, ids[..i + 1], mask[..i + 1]) ==
            Unroll(net, ids[..i], mask[..i]) + [Value(net, Unroll(net, ids[..i], mask[..i]), ids[i], mask[i])]
  {
    assert ids[..i + 1] == ids[..i] + [ids[i]] && mask[..i + 1] == mask[..i] + [mask[i]];
    ExtendStep(net, [], ids[..i], mask[..i], ids[i], mask[i]);
  }

  lemma BlockFacts(mask: seq<bool>, starts: seq<nat>, ends: seq<nat>, n: nat)
    requires AreBlocks(mask, starts, ends) && n < |starts|
    ensures After(ends, n) <= starts[n] < ends[n] <= |mask| && (n > 0 ==> After(ends, n) < starts[n])
    ensures AllIs(mask, After(ends, n), starts[n], false) && AllIs(mask, starts[n], ends[n], true)
  {
  }

  lemma FirstBlock(mask: seq<bool>, starts: seq<nat>, ends: seq<nat>)
    requires AreBlocks(mask, starts, ends) && |mask| > 0
    ensures mask[0] <==> |starts| > 0 && starts[0] == 0
  {
    if |starts| > 0 {
      BlockFacts(mask, starts, ends, 0);
    }
  }

  /** `_expand_latent_blocks`.  It stops on its own assertion exactly when the row starts with a
      masked position (and on concatenating nothing when the row is empty); otherwise the cached
      loop yields the embeddings that a fresh forward at every masked position would. */
  method ExpandLatentBlocks<E, H>(net: Net<E, H>, ids: seq<int>, mask: seq<bool>) returns (r: Result<seq<E>>)
    requires |ids| == |mask|
    ensures r.Ok? <==> |ids| > 0 && !mask[0]
    ensures r.Ok? ==> r.value == Unroll(net, ids, mask)
  {
    hide Runs, Unroll, Extend, AllIs;
    var starts, ends := FindBlocks(mask);
    var all: seq<E> := [];
    var past: seq<E> := [];
    var processed: nat := 0;
    if |mask| > 0 {
      FirstBlock(mask, starts, ends);
    }
    assert Unroll(net, ids[..0], mask[..0]) == [];
    for n := 0 to |starts|
      invariant processed == After(ends, n) <= |ids| && (n > 0 ==> |ids| > 0 && !mask[0])
      invariant all == past == Unroll(net, ids[..processed], mask[..processed])
    {
      var start, end := starts[n], ends[n];
      BlockFacts(mask, starts, ends, n);
      if !(processed < start) {
        return Err;
      }
      ExtendBlockText(net, ids, mask, processed, start);
      var text := Embeds(net, ids[processed..start]);
      all := all + text;
      var (past', lastH) := Forward(net, past, text);
      past := past';
      for k := 0 to end - start
        invariant all == past == Unroll(net, ids[..start + k], mask[..start + k])
        invariant k < end - start ==> lastH == net.hidden(past)
      {
        assert mask[start + k] by { MaskIn(mask, start, end, start + k); }
        UnrollNext(net, ids, mask, start + k);
        var z := net.proj(lastH);
        all := all + [z];
        var (past'', h) := Forward(net, past, [z]);
        past := past'';
        if k < end - start - 1 {
          lastH := h;
        }
      }
      processed := end;
    }
    if processed < |ids| {
      ExtendBlockText(net, ids, mask, processed, |ids|);
      all := all + Embeds(net, ids[processed..]);
    }
    assert ids[..|ids|] == ids && mask[..|ids|] == mask;
    return if all == [] then Err else Ok(all);
  }

  lemma MaskIn(mask: seq<bool>, a: nat, b: nat, i: nat)
    requires AllIs(mask, a, b, true) && a <= i < b && i < |mask|
    ensures mask[i]
  {
  }
}
