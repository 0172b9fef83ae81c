/** The training forward over one row: rebuild the mask, then either run the expansion or put
    cached projector outputs in place. */
module LatentForward {
  import opened Latent
  import opened LatentExpand
  import opened LatentMask
  import opened LatentPlugin
  import opened Options

  function Where<E>(mask: seq<bool>, z: seq<E>, e: seq<E>): (out: seq<E>)
    requires |mask| == |z| == |e|
    ensures |out| == |e| && forall i :: 0 <= i < |e| ==> out[i] == if mask[i] then z[i] else e[i]
  {
    seq(|e|, i requires 0 <= i < |e| => if mask[i] then z[i] else e[i])
  }

  ghost predicate Rebuilt(c: Config, ids: seq<int>, mask: seq<bool>) {
    |mask| == |ids| && forall i :: 0 <= i < |ids| ==> mask[i] == Covered(c, ids, i)
  }

  lemma RebuiltStart(c: Config, ids: seq<int>, mask: seq<bool>)
    requires c.Usable() && Rebuilt(c, ids, mask) && ids != []
    ensures !mask[0]
  {
    assert forall s: nat :: !Inside(c, s, 0);
  }

  lemma NoLatent<E, H>(net: Net<E, H>, ids: seq<int>, mask: seq<bool>)
    requires |mask| == |ids| && forall i :: 0 <= i < |ids| ==> !mask[i]
    ensures Unroll(net, ids, mask) == Embeds(net, ids)
  {
    assert mask == Falses(|ids|);
    ExtendText(net, [], ids);
  }

  ghost predicate Any(mask: seq<bool>) {
    exists i :: 0 <= i < |mask| && mask[i]
  }

  /** `_latent_model_forward` up to its final forward: the row embeddings.  `given` is the caller's
      latent mask, `cache` the projector outputs of the rollout.  Without either it never fails and
      gives the position-by-position embeddings under the rebuilt mask; a mask that marks something
      fails when it has the wrong length, begins with a marked position, or meets a cache of the
      wrong length. */
  method LatentModelForward<E, H>(net: Net<E, H>, c: Config, ids: seq<int>, given: Option<seq<bool>>, cache: Option<seq<E>>)
    returns (r: Result<seq<E>>, ghost mask: seq<bool>)
    ensures given.Some? ==> mask == given.value
    ensures given.None? ==> |mask| == |ids| && if c.Usable() then Rebuilt(c, ids, mask) else !Any(mask)
    ensures !Any(mask) ==> r == Ok(Embeds(net, ids))
    ensures Any(mask) && |mask| != |ids| ==> r.Err?
    ensures Any(mask) && |mask| == |ids| && cache.None? ==> r == if mask[0] then Err else Ok(Unroll(net, ids, mask))
    ensures Any(mask) && |mask| == |ids| && cache.Some? ==>
              r == if |cache.value| != |ids| then Err else Ok(Where(mask, cache.value, Embeds(net, ids)))
    ensures given.None? && cache.None? ==> r == Ok(Unroll(net, ids, mask))
  {
    hide Covered, Unroll;
    var latentMask := given;
    if given.None? && c.open != [] && c.close != [] {
      var latent := ReconstructLatentMask(c, ids);
      latentMask := Some(latent[..]);
      RebuiltMask(c, ids, latent[..]);
    }
    mask := if latentMask.Some? then latentMask.value else Falses(|ids|);
    var hasLatent := latentMask.Some? && exists i :: 0 <= i < |latentMask.value| && latentMask.value[i];
    if !hasLatent {
      if |mask| == |ids| {
        NoLatent(net, ids, mask);
      }
      return Ok(Embeds(net, ids)), mask;
    }
    var marked := latentMask.value;
    if |marked| != |ids| {
      return Err, mask;
    }
    if cache.Some? {
      if |cache.value| != |ids| {
        return Err, mask;
      }
      return Ok(Where(marked, cache.value, Embeds(net, ids))), mask;
    }
    if given.None? {
      RebuiltStart(c, ids, mask);
    }
    r := ExpandLatentBlocks(net, ids, marked);
  }

  lemma RebuiltMask(c: Config, ids: seq<int>, mask: seq<bool>)
    requires c.Usable() && |mask| == |ids|
    requires forall i :: 0 <= i < |ids| ==> (mask[i] <==> c.K > 0 && c.Usable() && Covered(c, ids, i))
    ensures Rebuilt(c, ids, mask)
  {
    hide Match;
    if c.K == 0 {
      assert forall i, s: nat :: !Inside(c, s, i);
    }
  }
}
