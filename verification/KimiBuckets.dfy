/** One trainer rank's share of the tensors, in buckets. */
module KimiBuckets {
  import opened Buckets
  import opened Sequences
  import opened Options

  /** The rank that position n belongs to. */
  function RankOf(n: nat, world: nat): (r: nat)
    requires world > 0
    ensures r < world
  {
    n % world
  }

  /** The tensors at positions congruent to the rank. */
  function Share(ws: seq<Weight>, world: nat, rank: nat): seq<Weight>
    requires world > 0
  {
    if ws == [] then []
    else
      var n := |ws| - 1;
      Share(ws[..n], world, rank) + if RankOf(n, world) == rank then [ws[n]] else []
  }

  /** Buckets closed so far: in order, none empty, only single tensors over the limit, and each
      closed because the next one's first tensor would not have fitted. */
  ghost predicate Tight(bs: seq<seq<Weight>>, limit: nat) {
    && (forall k :: 0 <= k < |bs| ==> bs[k] != [] && (|Bytes(bs[k])| > limit ==> |bs[k]| == 1))
    && (forall k :: 0 < k < |bs| ==> bs[k] != [] && |Bytes(bs[k - 1])| + |bs[k][0].1| > limit)
  }

  function Dicts(bs: seq<seq<Weight>>): (r: seq<seq<Weight>>)
    ensures |r| == |bs| && forall i :: 0 <= i < |r| ==> r[i] == Items(bs[i])
  {
    seq(|bs|, i requires 0 <= i < |bs| => Items(bs[i]))
  }

  lemma ItemsAppend(ws: seq<Weight>, w: Weight)
    ensures Items(ws + [w]) == Put(Items(ws), w.0, w.1) && Items(ws + [w]) != []
  {
    assert (ws + [w])[..|ws|] == ws;
    PutEffect(Items(ws), w.0, w.1);
  }

  lemma NoItems(ws: seq<Weight>)
    ensures Items(ws) == [] <==> ws == []
  {
    if ws != [] {
      PutEffect(Items(ws[..|ws| - 1]), ws[|ws| - 1].0, ws[|ws| - 1].1);
    }
  }

  /** The open bucket `cur` after the closed ones. */
  ghost predicate Filling(bs: seq<seq<Weight>>, cur: seq<Weight>, limit: nat) {
    && Tight(bs, limit) && (cur == [] ==> bs == [])
    && (cur != [] ==> Tight(bs + [cur], limit))
  }

  lemma FillMore(bs: seq<seq<Weight>>, cur: seq<Weight>, w: Weight, limit: nat)
    requires Filling(bs, cur, limit) && (|Bytes(cur)| + |w.1| <= limit || cur == [])
    ensures Filling(bs, cur + [w], limit) && Flatten(bs) + (cur + [w]) == Flatten(bs) + cur + [w]
  {
    BytesAppend(cur, w);
    hide Bytes;
    var all: seq<seq<Weight>> := bs + [cur + [w]];
    forall k | 0 <= k < |all| ensures all[k] != [] && (|Bytes(all[k])| > limit ==> |all[k]| == 1) {
      if k < |bs| { assert all[k] == bs[k]; }
    }
    if cur != [] {
      var was: seq<seq<Weight>> := bs + [cur];
      forall k | 0 < k < |all| ensures all[k] != [] && |Bytes(all[k - 1])| + |all[k][0].1| > limit {
        assert was[k] != [] && |Bytes(was[k - 1])| + |was[k][0].1| > limit;
        assert all[k - 1] == was[k - 1];
      }
    }
  }

  lemma FillClose(bs: seq<seq<Weight>>, cur: seq<Weight>, w: Weight, limit: nat)
    requires Filling(bs, cur, limit) && cur != [] && |Bytes(cur)| + |w.1| > limit
    ensures Filling(bs + [cur], [w], limit)
    ensures Flatten(bs + [cur]) + [w] == Flatten(bs) + cur + [w] && Dicts(bs + [cur]) == Dicts(bs) + [Items(cur)]
  {
    FlattenAppend(bs, cur);
    BytesAppend([], w);
    assert [] + [w] == [w];
    hide Bytes, Flatten, Items;
    var was: seq<seq<Weight>> := bs + [cur];
    var all: seq<seq<Weight>> := was + [[w]];
    forall k | 0 <= k < |all| ensures all[k] != [] && (|Bytes(all[k])| > limit ==> |all[k]| == 1) {
      if k < |was| { assert all[k] == was[k]; }
    }
    forall k | 0 < k < |all| ensures all[k] != [] && |Bytes(all[k - 1])| + |all[k][0].1| > limit {
      if k < |was| {
        assert all[k] == was[k] && all[k - 1] == was[k - 1];
      }
    }
  }

  lemma ShareNext(ws: seq<Weight>, world: nat, rank: nat, i: nat)
    requires world > 0 && i < |ws|
    ensures Share(ws[..i + 1], world, rank) == Share(ws[..i], world, rank) + if RankOf(i, world) == rank then [ws[i]] else []
  {
    assert ws[..i + 1][..i] == ws[..i];
  }

  lemma BucketOf(w: Weight)
    ensures Bytes([w]) == w.1 && Items([w]) == [(w.0, w.1)] && Bytes([]) == [] && Items([]) == []
  {
    assert [w][..0] == [];
  }

  /** `ckpt_get_named_tensor_buckets`, its yields in a list; None for the ValueError.  The buckets
      are the dicts of consecutive runs of the rank's share. */
  method NamedTensorBuckets(ws: seq<Weight>, limit: int, world: nat, rank: nat)
    returns (r: Option<seq<seq<Weight>>>, ghost bs: seq<seq<Weight>>)
    requires world > 0
    ensures r.None? <==> limit <= 0
    ensures r.Some? ==> r.value == Dicts(bs) && Flatten(bs) == Share(ws, world, rank) && Tight(bs, limit)
  {
    bs := [];
    if limit <= 0 {
      return None, bs;
    }
    var out: seq<seq<Weight>> := [];
    var bucket: seq<Weight> := [];
    var size: nat := 0;
    ghost var cur: seq<Weight> := [];
    assert Dicts([]) == [] && Filling([], [], limit);
    hide Bytes, Items, Share, Flatten, Dicts, Filling, Put;
    BucketOf(("", []));
    StartFlat(ws, world, rank);
    for i := 0 to |ws|
      invariant out == Dicts(bs) && bucket == Items(cur) && size == |Bytes(cur)|
      invariant Filling(bs, cur, limit) && Flatten(bs) + cur == Share(ws[..i], world, rank)
    {
      var w := ws[i];
      ShareNext(ws, world, rank, i);
      if RankOf(i, world) == rank {
        NoItems(cur);
        if size + |w.1| > limit && bucket != [] {
          FillClose(bs, cur, w, limit);
          BucketOf(w);
          out := out + [bucket];
          bs, cur := bs + [cur], [w];
          bucket := Put([], w.0, w.1);
          size := |w.1|;
          assert bucket == Items(cur) by { PutFirst(w); }
        } else {
          ghost var fits := size + |w.1| <= limit || cur == [];
          FillMore(bs, cur, w, limit);
          ItemsAppend(cur, w);
          BytesAppend(cur, w);
          bucket := Put(bucket, w.0, w.1);
          size := size + |w.1|;
          cur := cur + [w];
        }
      }
    }
    assert ws[..|ws|] == ws;
    NoItems(cur);
    FillEnd(bs, cur, limit);
    if bucket != [] {
      out := out + [bucket];
      bs := bs + [cur];
    }
    r := Some(out);
  }

  lemma PutFirst(w: Weight)
    ensures Put([], w.0, w.1) == [(w.0, w.1)]
  {
  }

  lemma StartFlat(ws: seq<Weight>, world: nat, rank: nat)
    requires world > 0
    ensures Flatten<Weight>([]) + [] == Share(ws[..0], world, rank)
  {
  }

  lemma FillEnd(bs: seq<seq<Weight>>, cur: seq<Weight>, limit: nat)
    requires Filling(bs, cur, limit)
    ensures cur == [] ==> Tight(bs, limit) && Flatten(bs) == Flatten(bs) + cur
    ensures cur != [] ==> Tight(bs + [cur], limit) && Flatten(bs + [cur]) == Flatten(bs) + cur
    ensures cur != [] ==> Dicts(bs + [cur]) == Dicts(bs) + [Items(cur)]
  {
    FlattenAppend(bs, cur);
    hide Bytes, Items, Flatten;
  }

  // ---- all ranks ---------------------------------------------------------------------------

  /** The shares of ranks 0..k together. */
  ghost function Shares(ws: seq<Weight>, world: nat, k: nat): multiset<Weight>
    requires world > 0
  {
    if k == 0 then multiset{} else Shares(ws, world, k - 1) + multiset(Share(ws, world, k - 1))
  }

  lemma ShareLast(ws: seq<Weight>, world: nat, rank: nat)
    requires world > 0 && ws != []
    ensures var n := |ws| - 1;
            multiset(Share(ws, world, rank)) ==
            multiset(Share(ws[..n], world, rank)) + if RankOf(n, world) == rank then multiset{ws[n]} else multiset{}
  {
  }

  lemma SharesStep(ws: seq<Weight>, world: nat, k: nat)
    requires world > 0
    ensures Shares(ws, world, 0) == multiset{}
    ensures Shares(ws, world, k + 1) == Shares(ws, world, k) + multiset(Share(ws, world, k))
  {
  }

  lemma {:induction false} SharesNext(ws: seq<Weight>, world: nat, k: nat)
    requires world > 0 && ws != [] && k <= world
    ensures var n := |ws| - 1;
            Shares(ws, world, k) == Shares(ws[..n], world, k) + if RankOf(n, world) < k then multiset{ws[n]} else multiset{}
  {
    hide *;
    var n := |ws| - 1;
    if k == 0 {
      SharesStep(ws, world, 0);
      SharesStep(ws[..n], world, 0);
    } else {
      SharesNext(ws, world, k - 1);
      SharesStep(ws, world, k - 1);
      SharesStep(ws[..n], world, k - 1);
      ShareLast(ws, world, k - 1);
    }
  }

  /** The ranks' shares are a partition: together they are all tensors, each once. */
  lemma {:induction false} SharesPartition(ws: seq<Weight>, world: nat)
    requires world > 0
    ensures Shares(ws, world, world) == multiset(ws)
  {
    hide *;
    if ws == [] {
      NoShares(world, world);
    } else {
      var n := |ws| - 1;
      SharesPartition(ws[..n], world);
      SharesNext(ws, world, world);
      assert ws == ws[..n] + [ws[n]];
    }
  }

  lemma {:induction false} NoShares(world: nat, k: nat)
    requires world > 0
    ensures Shares([], world, k) == multiset{}
  {
    if k > 0 {
      NoShares(world, k - 1);
    }
  }
}
