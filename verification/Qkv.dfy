/** Query, key and value rows interleaved group by group, and taken apart again, whole or from
    tensor-parallel partitions.  A row is opaque; a bias is a column of one-entry rows. */
module Qkv {
  import opened Arithmetic
  import opened Sequences

  datatype Result<T> = Ok(q: seq<T>, k: seq<T>, v: seq<T>) | Err

  /** `split(w)`: consecutive pieces of w rows, the last possibly shorter. */
  function Pieces<T>(t: seq<T>, w: nat): seq<seq<T>>
    requires w > 0
  {
    if t == [] then [] else if |t| <= w then [t] else [t[..w]] + Pieces(t[w..], w)
  }

  ghost predicate AllLong<T>(xs: seq<seq<T>>, w: nat) {
    forall i :: 0 <= i < |xs| ==> |xs[i]| == w
  }

  lemma {:induction false} PiecesOfFlat<T>(xs: seq<seq<T>>, w: nat)
    requires w > 0 && AllLong(xs, w)
    ensures Pieces(Flatten(xs), w) == xs && |Flatten(xs)| == |xs| * w
  {
    if xs != [] {
      PiecesOfFlat(xs[1..], w);
      assert |Flatten(xs)| == w + |Flatten(xs[1..])|;
      assert |xs| * w == w + (|xs| - 1) * w;
      assert Flatten(xs)[..w] == xs[0] && Flatten(xs)[w..] == Flatten(xs[1..]);
      assert xs == [xs[0]] + xs[1..];
      if |xs| == 1 {
        assert Flatten(xs) == xs[0];
      } else {
        assert |Flatten(xs[1..])| >= w by { Positive(|xs| - 1, w); }
      }
    }
  }

  lemma Positive(n: int, w: int)
    requires n > 0 && w > 0
    ensures n * w >= w
  {
  }

  lemma {:induction false} FlatOfPieces<T>(t: seq<T>, w: nat, n: nat)
    requires w > 0 && |t| == n * w
    ensures Flatten(Pieces(t, w)) == t && |Pieces(t, w)| == n && AllLong(Pieces(t, w), w)
    decreases n
  {
    if n > 0 {
      assert |t| == (n - 1) * w + w;
      if n == 1 {
        assert Flatten([t]) == t + Flatten<T>([]);
      } else {
        Positive(n - 1, w);
        FlatOfPieces(t[w..], w, n - 1);
        assert t == t[..w] + t[w..];
      }
    }
  }

  // ---- packing -----------------------------------------------------------------------------

  /** One query group: the rows of its query heads, of its key head, of its value head. */
  datatype Group<T> = Group(q: seq<T>, k: seq<T>, v: seq<T>)

  function Rows<T>(g: Group<T>): seq<T> {
    g.q + g.k + g.v
  }

  function MapRows<T>(gs: seq<Group<T>>): (r: seq<seq<T>>)
    ensures |r| == |gs| && forall i :: 0 <= i < |gs| ==> r[i] == Rows(gs[i])
  {
    seq(|gs|, i requires 0 <= i < |gs| => Rows(gs[i]))
  }

  /** The three weights as `view([groups, rows, -1])` groups them. */
  function GroupsOf<T>(q: seq<T>, k: seq<T>, v: seq<T>, a: nat, b: nat): (gs: seq<Group<T>>)
    requires a > 0 && b > 0 && |Pieces(q, a)| == |Pieces(k, b)| == |Pieces(v, b)|
    ensures |gs| == |Pieces(q, a)|
  {
    seq(|Pieces(q, a)|, i requires 0 <= i < |Pieces(q, a)| => Group(Pieces(q, a)[i], Pieces(k, b)[i], Pieces(v, b)[i]))
  }

  /** `cat([q, k, v], dim=1).view(-1, hidden)` */
  function Pack<T>(q: seq<T>, k: seq<T>, v: seq<T>, a: nat, b: nat): seq<T>
    requires a > 0 && b > 0 && |Pieces(q, a)| == |Pieces(k, b)| == |Pieces(v, b)|
  {
    Flatten(MapRows(GroupsOf(q, k, v, a, b)))
  }

  ghost predicate Uniform<T>(gs: seq<Group<T>>, a: nat, b: nat) {
    forall i :: 0 <= i < |gs| ==> |gs[i].q| == a && |gs[i].k| == b && |gs[i].v| == b
  }

  function Qs<T>(gs: seq<Group<T>>): seq<T> { if gs == [] then [] else Qs(gs[..|gs| - 1]) + gs[|gs| - 1].q }
  function Ks<T>(gs: seq<Group<T>>): seq<T> { if gs == [] then [] else Ks(gs[..|gs| - 1]) + gs[|gs| - 1].k }
  function Vs<T>(gs: seq<Group<T>>): seq<T> { if gs == [] then [] else Vs(gs[..|gs| - 1]) + gs[|gs| - 1].v }

  // ---- unpacking ---------------------------------------------------------------------------

  /** A partition that holds `groups` whole groups of d rows per head, perKv query heads each. */
  ghost predicate Holds<T>(t: seq<T>, gs: seq<Group<T>>, perKv: nat, groups: nat, d: nat) {
    |gs| == groups > 0 && d > 0 && Uniform(gs, perKv * d, d) && t == Flatten(MapRows(gs))
  }

  lemma RowsLong<T>(t: seq<T>, gs: seq<Group<T>>, perKv: nat, groups: nat, d: nat)
    requires Holds(t, gs, perKv, groups, d)
    ensures var w := (perKv + 2) * d; w > 0 && |t| == groups * w && Pieces(t, w) == MapRows(gs)
  {
    var w := (perKv + 2) * d;
    assert w == perKv * d + 2 * d;
    Positive(perKv + 2, d);
    assert AllLong(MapRows(gs), w);
    PiecesOfFlat(MapRows(gs), w);
  }

  /** The sizes the mergers compute on such a partition. */
  lemma SizesRight<T>(t: seq<T>, gs: seq<Group<T>>, perKv: nat, groups: nat, d: nat)
    requires Holds(t, gs, perKv, groups, d)
    ensures |t| == groups * ((perKv + 2) * d) && |t| > 0
    ensures |t| % (perKv + 2) == 0 && |t| / (perKv + 2) == groups * d
    ensures (groups * d) * perKv / groups == perKv * d && (groups * d) / groups == d
    ensures (|t| + groups - 1) / groups == (perKv + 2) * d
    ensures Pieces(t, (perKv + 2) * d) == MapRows(gs)
  {
    RowsLong(t, gs, perKv, groups, d);
    hide Uniform, Pieces, MapRows, Flatten;
    SizesArithmetic(|t|, perKv, groups, d);
  }

  lemma SizesArithmetic(n: nat, perKv: nat, groups: nat, d: nat)
    requires groups > 0 && d > 0 && n == groups * ((perKv + 2) * d)
    ensures n > 0 && n % (perKv + 2) == 0 && n / (perKv + 2) == groups * d
    ensures (groups * d) * perKv / groups == perKv * d && (groups * d) / groups == d
    ensures (n + groups - 1) / groups == (perKv + 2) * d
  {
    var w := (perKv + 2) * d;
    Positive(perKv + 2, d);
    Positive(groups, w);
    assert n == (perKv + 2) * (groups * d);
    Divides(perKv + 2, groups * d);
    assert (groups * d) * perKv == groups * (perKv * d);
    Divides(groups, perKv * d);
    Divides(groups, d);
    RoundsUp(groups, w);
  }

  lemma RoundsUp(n: int, w: int)
    requires n > 0
    ensures (n * w + n - 1) / n == w
  {
    Quotient(n * w + n - 1, n, w, n - 1);
  }

  lemma GroupsNext<T>(gs: seq<Group<T>>, i: nat)
    requires i < |gs|
    ensures Qs(gs[..i + 1]) == Qs(gs[..i]) + gs[i].q
    ensures Ks(gs[..i + 1]) == Ks(gs[..i]) + gs[i].k
    ensures Vs(gs[..i + 1]) == Vs(gs[..i]) + gs[i].v
  {
    assert gs[..i + 1][..i] == gs[..i];
  }

  lemma GroupSplits<T>(t: seq<T>, gs: seq<Group<T>>, perKv: nat, groups: nat, d: nat, i: nat)
    requires Holds(t, gs, perKv, groups, d) && i < |gs|
    ensures var rows, a := MapRows(gs)[i], perKv * d;
            |rows| == a + d + d && rows[..a] == gs[i].q && rows[a..a + d] == gs[i].k && rows[a + d..] == gs[i].v
  {
  }

  /** The computed split sizes cut a chunk into the group's three parts. */
  lemma ChunkIsGroup<T>(t: seq<T>, gs: seq<Group<T>>, perKv: nat, groups: nat, kvSize: nat, d: nat, i: nat)
    requires groups > 0 && Holds(t, gs, perKv, groups, d) && kvSize == groups * d && i < |gs|
    ensures Cuts(MapRows(gs)[i], gs[i], QueryShare(kvSize, perKv, groups), Share(kvSize, groups))
  {
    SizesRight(t, gs, perKv, groups, d);
    GroupSplits(t, gs, perKv, groups, d, i);
    hide Holds, Pieces, MapRows;
  }

  lemma PiecesAre<T>(t: seq<T>, gs: seq<Group<T>>, perKv: nat, groups: nat, d: nat)
    requires groups > 0 && Holds(t, gs, perKv, groups, d)
    ensures t != [] && Pieces(t, Width(|t|, groups)) == MapRows(gs)
  {
    hide *;
    SizesRight(t, gs, perKv, groups, d);
    WidthIs(|t|, groups, (perKv + 2) * d);
  }

  lemma WidthIs(n: nat, groups: nat, w: nat)
    requires groups > 0 && (n + groups - 1) / groups == w
    ensures Width(n, groups) == w
  {
  }

  lemma ChunksAreGroups<T>(t: seq<T>, gs: seq<Group<T>>, perKv: nat, groups: nat, kvSize: nat, d: nat)
    requires groups > 0 && Holds(t, gs, perKv, groups, d) && kvSize == groups * d
    ensures t != [] && AllCut(Pieces(t, Width(|t|, groups)), gs, QueryShare(kvSize, perKv, groups), Share(kvSize, groups))
  {
    PiecesAre(t, gs, perKv, groups, d);
    hide Holds, Pieces, MapRows, Cuts, Width, QueryShare, Share;
    forall i: nat | i < |gs| ensures Cuts(MapRows(gs)[i], gs[i], QueryShare(kvSize, perKv, groups), Share(kvSize, groups)) {
      ChunkIsGroup(t, gs, perKv, groups, kvSize, d, i);
    }
  }

  lemma NoGroups<T>(gs: seq<Group<T>>)
    ensures Qs<T>([]) == [] && Ks<T>([]) == [] && Vs<T>([]) == []
    ensures Unpacked(gs, 0, [], [], [])
  {
  }

  /** The loop of both mergers over one partition: `chunk(groups)`, then each chunk split in three.
      Err when the sizes do not add up to a chunk's. */
  method UnpackPart<T>(t: seq<T>, perKv: nat, groups: nat, kvSize: nat, ghost gs: seq<Group<T>>, ghost d: nat)
    returns (r: Result<T>)
    requires groups > 0
    ensures Holds(t, gs, perKv, groups, d) && kvSize == groups * d ==> r == Ok(Qs(gs), Ks(gs), Vs(gs))
  {
    hide *;
    if Holds(t, gs, perKv, groups, d) && kvSize == groups * d {
      ChunksAreGroups(t, gs, perKv, groups, kvSize, d);
    }
    if t == [] {
      return Err;
    }
    r := UnpackChunks(Pieces(t, Width(|t|, groups)), QueryShare(kvSize, perKv, groups), Share(kvSize, groups), gs);
  }

  /** The rows of one of `groups` chunks of n rows. */
  function Width(n: nat, groups: nat): (w: nat)
    requires groups > 0
    ensures n > 0 ==> w > 0
  {
    (n + groups - 1) / groups
  }

  /** `kv_size // num_query_groups` */
  function Share(size: nat, groups: nat): nat
    requires groups > 0
  {
    size / groups
  }

  /** `kv_size * num_q_per_kv // num_query_groups` */
  function QueryShare(kvSize: nat, perKv: nat, groups: nat): nat
    requires groups > 0
  {
    kvSize * perKv / groups
  }

  /** The two split sizes cut the chunk into the group's three parts. */
  ghost predicate Cuts<T>(chunk: seq<T>, g: Group<T>, sq: nat, sk: nat) {
    sq + sk + sk == |chunk| && chunk[..sq] == g.q && chunk[sq..sq + sk] == g.k && chunk[sq + sk..] == g.v
  }

  ghost predicate AllCut<T>(chunks: seq<seq<T>>, gs: seq<Group<T>>, sq: nat, sk: nat) {
    |chunks| == |gs| && forall i: nat :: i < |gs| ==> Cuts(chunks[i], gs[i], sq, sk)
  }

  /** The loop over the chunks. */
  method UnpackChunks<T>(chunks: seq<seq<T>>, sq: nat, sk: nat, ghost gs: seq<Group<T>>) returns (r: Result<T>)
    ensures AllCut(chunks, gs, sq, sk) ==> r == Ok(Qs(gs), Ks(gs), Vs(gs))
  {
    hide Qs, Ks, Vs, Unpacked, Cuts;
    var q, k, v := [], [], [];
    ghost var good := AllCut(chunks, gs, sq, sk);
    NoGroups(gs);
    for i := 0 to |chunks|
      invariant good ==> Unpacked(gs, i, q, k, v)
    {
      var chunk := chunks[i];
      if good {
        assert Cuts(chunk, gs[i], sq, sk);
        UnpackedNext(gs, i, q, k, v, chunk, sq, sk);
      }
      if sq + sk + sk != |chunk| {
        return Err;
      }
      q := q + chunk[..sq];
      k := k + chunk[sq..sq + sk];
      v := v + chunk[sq + sk..];
    }
    if good {
      AllUnpacked(gs, q, k, v);
    }
    return Ok(q, k, v);
  }

  /** The first n groups' rows are out. */
  ghost predicate Unpacked<T>(gs: seq<Group<T>>, n: nat, q: seq<T>, k: seq<T>, v: seq<T>) {
    n <= |gs| && q == Qs(gs[..n]) && k == Ks(gs[..n]) && v == Vs(gs[..n])
  }

  lemma UnpackedNext<T>(gs: seq<Group<T>>, n: nat, q: seq<T>, k: seq<T>, v: seq<T>, chunk: seq<T>, sq: nat, sk: nat)
    requires n < |gs| && Unpacked(gs, n, q, k, v) && Cuts(chunk, gs[n], sq, sk)
    ensures sq + sk + sk == |chunk|
    ensures Unpacked(gs, n + 1, q + chunk[..sq], k + chunk[sq..sq + sk], v + chunk[sq + sk..])
  {
    GroupsNext(gs, n);
    hide Qs, Ks, Vs;
  }

  lemma AllUnpacked<T>(gs: seq<Group<T>>, q: seq<T>, k: seq<T>, v: seq<T>)
    requires Unpacked(gs, |gs|, q, k, v)
    ensures q == Qs(gs) && k == Ks(gs) && v == Vs(gs)
  {
    assert gs[..|gs|] == gs;
  }

  /** `_split_tensors` on a QKV weight: the whole tensor is one partition with all the groups. */
  method SplitTensors<T>(t: seq<T>, heads: nat, kv: nat, ghost gs: seq<Group<T>>, ghost d: nat) returns (r: Result<T>)
    requires kv > 0
    ensures heads % kv == 0 && Holds(t, gs, heads / kv, kv, d) ==> r == Ok(Qs(gs), Ks(gs), Vs(gs))
    ensures heads % kv != 0 ==> r.Err?
  {
    if heads % kv != 0 {
      return Err;
    }
    var perKv := heads / kv;
    if Holds(t, gs, perKv, kv, d) {
      SizesRight(t, gs, perKv, kv, d);
    }
    hide *;
    if |t| % (perKv + 2) != 0 {
      return Err;
    }
    r := UnpackPart(t, perKv, kv, |t| / (perKv + 2), gs, d);
  }

  // ---- tensor-parallel partitions ----------------------------------------------------------

  /** Partition i holds the groups parts[i]. */
  ghost predicate Sharded<T>(tp: seq<seq<T>>, parts: seq<seq<Group<T>>>, perKv: nat, groups: nat, d: nat) {
    |tp| == |parts| && forall i :: 0 <= i < |tp| ==> Holds(tp[i], parts[i], perKv, groups, d)
  }

  function AllGroups<T>(parts: seq<seq<Group<T>>>): seq<Group<T>> {
    if parts == [] then [] else AllGroups(parts[..|parts| - 1]) + parts[|parts| - 1]
  }

  lemma GroupsSnoc<T>(gs: seq<Group<T>>, g: Group<T>)
    ensures Qs(gs + [g]) == Qs(gs) + g.q && Ks(gs + [g]) == Ks(gs) + g.k && Vs(gs + [g]) == Vs(gs) + g.v
  {
    assert (gs + [g])[..|gs|] == gs;
  }

  lemma {:induction false} GroupsAppend<T>(a: seq<Group<T>>, b: seq<Group<T>>)
    ensures Qs(a + b) == Qs(a) + Qs(b) && Ks(a + b) == Ks(a) + Ks(b) && Vs(a + b) == Vs(a) + Vs(b)
  {
    NoGroups<T>([]);
    hide *;
    if b == [] {
      assert a + b == a;
    } else {
      var n := |b| - 1;
      GroupsAppend(a, b[..n]);
      assert a + b == (a + b[..n]) + [b[n]] && b == b[..n] + [b[n]];
      GroupsSnoc(a + b[..n], b[n]);
      GroupsSnoc(b[..n], b[n]);
    }
  }

  lemma ShardAt<T>(tp: seq<seq<T>>, parts: seq<seq<Group<T>>>, perKv: nat, groups: nat, d: nat, i: nat)
    requires Sharded(tp, parts, perKv, groups, d) && i < |tp|
    ensures |parts| == |tp| && Holds(tp[i], parts[i], perKv, groups, d)
  {
  }

  lemma MergedNext<T>(parts: seq<seq<Group<T>>>, i: nat)
    requires i < |parts|
    ensures var a, b := AllGroups(parts[..i]), AllGroups(parts[..i + 1]);
            && Qs(b) == Qs(a) + Qs(parts[i]) && Ks(b) == Ks(a) + Ks(parts[i]) && Vs(b) == Vs(a) + Vs(parts[i])
    ensures AllGroups(parts[..0]) == []
  {
    hide Qs, Ks, Vs;
    GroupsAppend(AllGroups(parts[..i]), parts[i]);
    assert parts[..i + 1][..i] == parts[..i];
  }

  /** The loop over the partitions. */
  method MergeParts<T>(tp: seq<seq<T>>, perKv: nat, groups: nat, size: nat, ghost parts: seq<seq<Group<T>>>, ghost d: nat,
                       ghost good: bool)
    returns (r: Result<T>)
    requires groups > 0 && (good ==> Sharded(tp, parts, perKv, groups, d) && size == groups * d)
    ensures good ==> r == Ok(Qs(AllGroups(parts)), Ks(AllGroups(parts)), Vs(AllGroups(parts)))
  {
    var q, k, v := [], [], [];
    NoGroups<T>([]);
    assert AllGroups(parts[..0]) == [];
    hide *;
    if good {
      ShardCount(tp, parts, perKv, groups, d);
    }
    for i := 0 to |tp|
      invariant good ==> (q, k, v) == (Qs(AllGroups(parts[..i])), Ks(AllGroups(parts[..i])), Vs(AllGroups(parts[..i])))
    {
      ghost var gs: seq<Group<T>> := [];
      if good {
        ShardAt(tp, parts, perKv, groups, d, i);
        MergedNext(parts, i);
        gs := parts[i];
      }
      var part := UnpackPart(tp[i], perKv, groups, size, gs, d);
      if part.Err? {
        return Err;
      }
      q, k, v := q + part.q, k + part.k, v + part.v;
    }
    assert good ==> parts[..|parts|] == parts;
    return Ok(q, k, v);
  }

  lemma ShardCount<T>(tp: seq<seq<T>>, parts: seq<seq<Group<T>>>, perKv: nat, groups: nat, d: nat)
    requires Sharded(tp, parts, perKv, groups, d)
    ensures |tp| == |parts|
  {
  }

  /** The sizes are taken from the first partition. */
  method MergePartitions<T>(tp: seq<seq<T>>, perKv: nat, groups: nat, ghost parts: seq<seq<Group<T>>>, ghost d: nat)
    returns (r: Result<T>)
    requires tp != []
    ensures Sharded(tp, parts, perKv, groups, d) ==>
              r == Ok(Qs(AllGroups(parts)), Ks(AllGroups(parts)), Vs(AllGroups(parts)))
  {
    hide *;
    ghost var good := Sharded(tp, parts, perKv, groups, d);
    if good {
      ShardAt(tp, parts, perKv, groups, d, 0);
      HoldsSize(tp[0], parts[0], perKv, groups, d);
    }
    if |tp[0]| % (perKv + 2) != 0 || groups == 0 {
      return Err;
    }
    r := MergeParts(tp, perKv, groups, |tp[0]| / (perKv + 2), parts, d, good);
  }

  /** `_merge_across_tp` on a QKV weight. */
  method MergeAcrossTp<T>(tp: seq<seq<T>>, heads: nat, kv: nat, ghost parts: seq<seq<Group<T>>>, ghost d: nat)
    returns (r: Result<T>)
    requires kv > 0 && tp != []
    ensures heads % kv == 0 && kv % |tp| == 0 && Sharded(tp, parts, heads / kv, kv / |tp|, d) ==>
              r == Ok(Qs(AllGroups(parts)), Ks(AllGroups(parts)), Vs(AllGroups(parts)))
    ensures heads % kv != 0 ==> r.Err?
  {
    hide *;
    if heads % kv != 0 {
      return Err;
    }
    r := MergePartitions(tp, heads / kv, kv / |tp|, parts, d);
  }

  lemma HoldsSize<T>(t: seq<T>, gs: seq<Group<T>>, perKv: nat, groups: nat, d: nat)
    requires Holds(t, gs, perKv, groups, d)
    ensures groups > 0 && |t| % (perKv + 2) == 0 && |t| / (perKv + 2) == groups * d
  {
    SizesRight(t, gs, perKv, groups, d);
  }

  // ---- round trips -------------------------------------------------------------------------

  lemma PiecesLong<T>(t: seq<T>, w: nat, n: nat)
    requires w > 0 && |t| == n * w
    ensures |Pieces(t, w)| == n && AllLong(Pieces(t, w), w) && Flatten(Pieces(t, w)) == t
  {
    FlatOfPieces(t, w, n);
  }

  lemma {:induction false} QsOfPieces<T>(gs: seq<Group<T>>, qs: seq<seq<T>>, ks: seq<seq<T>>, vs: seq<seq<T>>)
    requires |gs| == |qs| == |ks| == |vs| && forall i :: 0 <= i < |gs| ==> gs[i] == Group(qs[i], ks[i], vs[i])
    ensures Qs(gs) == Flatten(qs) && Ks(gs) == Flatten(ks) && Vs(gs) == Flatten(vs)
  {
    if gs != [] {
      var n := |gs| - 1;
      QsOfPieces(gs[..n], qs[..n], ks[..n], vs[..n]);
      LastPiece(qs);
      LastPiece(ks);
      LastPiece(vs);
    }
  }

  lemma LastPiece<T>(xs: seq<seq<T>>)
    requires xs != []
    ensures Flatten(xs) == Flatten(xs[..|xs| - 1]) + xs[|xs| - 1]
  {
    var n := |xs| - 1;
    assert xs == xs[..n] + [xs[n]];
    FlattenConcat(xs[..n], [xs[n]]);
    assert Flatten([xs[n]]) == xs[n] + Flatten<T>([]);
  }

  lemma GroupsUniform<T>(q: seq<T>, k: seq<T>, v: seq<T>, a: nat, b: nat, kv: nat)
    requires a > 0 && b > 0 && |q| == kv * a && |k| == |v| == kv * b
    ensures |Pieces(q, a)| == |Pieces(k, b)| == |Pieces(v, b)| == kv
    ensures var gs := GroupsOf(q, k, v, a, b); Uniform(gs, a, b) && Qs(gs) == q && Ks(gs) == k && Vs(gs) == v
  {
    PiecesLong(q, a, kv);
    PiecesLong(k, b, kv);
    PiecesLong(v, b, kv);
    hide Pieces, Flatten, Qs, Ks, Vs, MapRows;
    QsOfPieces(GroupsOf(q, k, v, a, b), Pieces(q, a), Pieces(k, b), Pieces(v, b));
  }

  /** The packed tensor holds all groups, and they hold the three weights. */
  lemma PackHolds<T>(q: seq<T>, k: seq<T>, v: seq<T>, perKv: nat, kv: nat, d: nat) returns (gs: seq<Group<T>>)
    requires perKv > 0 && kv > 0 && d > 0 && |q| == kv * (perKv * d) && |k| == |v| == kv * d
    ensures perKv * d > 0 && |Pieces(q, perKv * d)| == |Pieces(k, d)| == |Pieces(v, d)|
    ensures Holds(Pack(q, k, v, perKv * d, d), gs, perKv, kv, d)
    ensures Qs(gs) == q && Ks(gs) == k && Vs(gs) == v
  {
    hide Pieces, Flatten, Qs, Ks, Vs, MapRows, Uniform;
    Positive(perKv, d);
    GroupsUniform(q, k, v, perKv * d, d, kv);
    gs := GroupsOf(q, k, v, perKv * d, d);
  }

  /** Round trip through one tensor. */
  method PackThenSplit<T>(q: seq<T>, k: seq<T>, v: seq<T>, heads: nat, kv: nat, d: nat) returns (r: Result<T>)
    requires heads > 0 && kv > 0 && d > 0 && heads % kv == 0
    requires |q| == kv * (heads / kv * d) && |k| == |v| == kv * d
    ensures r == Ok(q, k, v)
  {
    ghost var gs := PackHolds(q, k, v, HeadsPer(heads, kv), kv, d);
    hide *;
    r := SplitTensors(Pack(q, k, v, heads / kv * d, d), heads, kv, gs, d);
  }

  function HeadsPer(heads: nat, kv: nat): (n: nat)
    requires heads > 0 && kv > 0 && heads % kv == 0
    ensures n > 0 && n == heads / kv
  {
    assert heads == kv * (heads / kv);
    heads / kv
  }

  /** `n` equal shards of a sequence. */
  function Shards<T>(t: seq<T>, n: nat): seq<seq<T>>
    requires n > 0 && |t| >= n && |t| % n == 0
  {
    Pieces(t, |t| / n)
  }

  lemma {:induction false} AllGroupsOf<T>(gs: seq<Group<T>>, m: nat, n: nat)
    requires m > 0 && |gs| == n * m
    ensures |Pieces(gs, m)| == n && AllLong(Pieces(gs, m), m) && AllGroups(Pieces(gs, m)) == gs
  {
    FlatOfPieces(gs, m, n);
    AllGroupsConcat(Pieces(gs, m));
  }

  lemma {:induction false} AllGroupsConcat<T>(parts: seq<seq<Group<T>>>)
    ensures AllGroups(parts) == Flatten(parts)
  {
    if parts != [] {
      AllGroupsConcat(parts[..|parts| - 1]);
      LastPiece(parts);
    }
  }

  /** The rows of groups, part by part. */
  function PartRows<T>(parts: seq<seq<Group<T>>>): (r: seq<seq<T>>)
    ensures |r| == |parts| && forall i :: 0 <= i < |r| ==> r[i] == Flatten(MapRows(parts[i]))
  {
    seq(|parts|, i requires 0 <= i < |parts| => Flatten(MapRows(parts[i])))
  }

  lemma {:induction false} RowsByPart<T>(parts: seq<seq<Group<T>>>)
    ensures Flatten(MapRows(AllGroups(parts))) == Flatten(PartRows(parts))
  {
    if parts == [] {
      assert MapRows<T>([]) == [];
    } else {
      var n := |parts| - 1;
      RowsByPart(parts[..n]);
      assert MapRows(AllGroups(parts)) == MapRows(AllGroups(parts[..n])) + MapRows(parts[n]);
      FlattenConcat(MapRows(AllGroups(parts[..n])), MapRows(parts[n]));
      LastPiece(PartRows(parts));
      assert PartRows(parts)[..n] == PartRows(parts[..n]);
    }
  }

  /** Equal shards of a packed tensor hold whole groups when their number divides the groups'. */
  lemma ShardsHold<T>(t: seq<T>, gs: seq<Group<T>>, perKv: nat, kv: nat, d: nat, n: nat)
    requires Holds(t, gs, perKv, kv, d) && n > 0 && kv % n == 0
    ensures |t| >= n && |t| % n == 0
    ensures kv / n > 0 && Sharded(Shards(t, n), Pieces(gs, kv / n), perKv, kv / n, d) && AllGroups(Pieces(gs, kv / n)) == gs
    ensures |Shards(t, n)| == n
  {
    var m, w := kv / n, (perKv + 2) * d;
    SizesRight(t, gs, perKv, kv, d);
    HoldsParts(t, gs, perKv, kv, d);
    hide *;
    ShardSizes(|t|, kv, n, w);
    AllGroupsOf(gs, m, n);
    var parts := Pieces(gs, m);
    RowsByPart(parts);
    forall i | 0 <= i < n ensures |PartRows(parts)[i]| == m * w && Holds(PartRows(parts)[i], parts[i], perKv, m, d) {
      PartHolds(gs, parts, m, n, perKv, d, i);
    }
    MakeLong(PartRows(parts), m * w);
    PiecesOfFlat(PartRows(parts), m * w);
    MakeSharded(t, n, m * w, parts, perKv, m, d);
  }

  lemma HoldsParts<T>(t: seq<T>, gs: seq<Group<T>>, perKv: nat, kv: nat, d: nat)
    requires Holds(t, gs, perKv, kv, d)
    ensures |gs| == kv > 0 && d > 0 && Uniform(gs, perKv * d, d) && t == Flatten(MapRows(gs))
  {
  }

  lemma ShardSizes(len: nat, kv: nat, n: nat, w: nat)
    requires len == kv * w > 0 && n > 0 && kv % n == 0
    ensures kv / n > 0 && kv == n * (kv / n) && w > 0 && kv / n * w > 0
    ensures len == n * (kv / n * w) && len >= n && len % n == 0 && len / n == kv / n * w
  {
    var m := kv / n;
    assert kv == n * m;
    assert m > 0;
    Positive(m, w);
    assert len == n * (m * w);
    TimesLarge(n, m * w);
    Divides(n, m * w);
  }

  lemma PartHolds<T>(gs: seq<Group<T>>, parts: seq<seq<Group<T>>>, m: nat, n: nat, perKv: nat, d: nat, i: nat)
    requires m > 0 && d > 0 && |gs| == n * m && i < n == |parts| && parts == Pieces(gs, m) && AllLong(parts, m)
    requires Uniform(gs, perKv * d, d)
    ensures Holds(PartRows(parts)[i], parts[i], perKv, m, d) && |PartRows(parts)[i]| == m * ((perKv + 2) * d)
  {
    PartUniform(gs, m, n, perKv * d, d, i);
    assert Holds(PartRows(parts)[i], parts[i], perKv, m, d);
    SizesRight(PartRows(parts)[i], parts[i], perKv, m, d);
  }

  lemma MakeLong<T>(xs: seq<seq<T>>, w: nat)
    requires forall i :: 0 <= i < |xs| ==> |xs[i]| == w
    ensures AllLong(xs, w)
  {
  }

  lemma MakeSharded<T>(t: seq<T>, n: nat, w: nat, parts: seq<seq<Group<T>>>, perKv: nat, m: nat, d: nat)
    requires n > 0 && w > 0 && |t| >= n && |t| % n == 0 && |t| / n == w && |parts| == n
    requires Pieces(t, w) == PartRows(parts) && forall i :: 0 <= i < n ==> Holds(PartRows(parts)[i], parts[i], perKv, m, d)
    ensures Sharded(Shards(t, n), parts, perKv, m, d) && |Shards(t, n)| == n
  {
    hide Pieces, Holds;
  }

  lemma TimesLarge(n: int, x: int)
    requires n > 0 && x > 0
    ensures n * x >= n
  {
  }

  lemma {:induction false} PartUniform<T>(gs: seq<Group<T>>, m: nat, n: nat, a: nat, b: nat, i: nat)
    requires m > 0 && |gs| == n * m && i < n && Uniform(gs, a, b)
    ensures i < |Pieces(gs, m)| && Uniform(Pieces(gs, m)[i], a, b)
    decreases n
  {
    assert n * m == (n - 1) * m + m;
    if n > 1 {
      Positive(n - 1, m);
      if i > 0 {
        PartUniform(gs[m..], m, n - 1, a, b, i - 1);
      }
    }
  }

  /** Round trip through any tensor-parallel sharding whose degree divides the number of groups. */
  method PackShardMerge<T>(q: seq<T>, k: seq<T>, v: seq<T>, heads: nat, kv: nat, d: nat, n: nat) returns (r: Result<T>)
    requires heads > 0 && kv > 0 && d > 0 && heads % kv == 0 && n > 0 && kv % n == 0
    requires |q| == kv * (heads / kv * d) && |k| == |v| == kv * d
    ensures r == Ok(q, k, v)
  {
    ghost var gs := PackHolds(q, k, v, HeadsPer(heads, kv), kv, d);
    ShardsHold(Pack(q, k, v, heads / kv * d, d), gs, HeadsPer(heads, kv), kv, d, n);
    hide *;
    var tp := Shards(Pack(q, k, v, heads / kv * d, d), n);
    r := MergeAcrossTp(tp, heads, kv, Pieces(gs, kv / n), d);
  }
}
