/** Who talks to whom: the lists `build_topology` hands to the workers, the checks made on them,
    and the chain they describe. */
module NixlTopology {
  import opened Options

  /** Per-worker arguments of `init_process_group`. */
  datatype Kwargs<A> = Kwargs(rank: seq<int>, worldSize: seq<int>, prev: seq<Option<A>>, next: seq<Option<A>>)

  /** Where Python puts a slice bound: negative counts from the end, then clamp. */
  function Bound(i: int, n: nat): (b: nat)
    ensures b <= n
  {
    var k := if i < 0 then i + n else i;
    if k < 0 then 0 else if k > n then n else k
  }

  /** `xs[start:stop]` */
  function Slice<T>(xs: seq<T>, start: int, stop: int): seq<T> {
    var a, b := Bound(start, |xs|), Bound(stop, |xs|);
    if a <= b then xs[a..b] else []
  }

  /** `[x] * n`, empty for n <= 0 */
  function Times<T>(x: T, n: int): seq<T> {
    if n <= 0 then [] else seq(n, _ => x)
  }

  function Somes<A>(xs: seq<A>): seq<Option<A>> {
    seq(|xs|, i requires 0 <= i < |xs| => Some(xs[i]))
  }

  function BuildTopology<A>(T: nat, R: nat, metadata: seq<A>): (Kwargs<A>, Kwargs<A>)
    requires T >= 1 && R >= 1 && |metadata| == T + R
  {
    (Kwargs([0] + Times(-1, T - 1), Times(R + 1, T), Times(None, T),
            [Some(metadata[Bound(0 - R, |metadata|)])] + Times(None, T - 1)),
     Kwargs(seq(R, i => i + 1), Times(R + 1, R),
            Somes([metadata[0]] + Slice(metadata, 0 - R, -1)),
            Somes(Slice(metadata, 1 - R, |metadata|)) + [None]))
  }

  /** Every list has one entry per worker. */
  predicate Lengths<A>(k: Kwargs<A>, workers: nat) {
    |k.rank| == |k.worldSize| == |k.prev| == |k.next| == workers
  }

  /** The assertions at the head of `init_process_group`. */
  predicate InitAccepts<A>(rank: int, worldSize: int, prev: Option<A>, next: Option<A>) {
    if rank < 0 then prev.None? && next.None?
    else if rank == 0 then prev.None? && next.Some?
    else if rank < worldSize - 1 then prev.Some? && next.Some?
    else if rank == worldSize - 1 then prev.Some? && next.None?
    else true
  }

  predicate AllAccept<A>(k: Kwargs<A>, workers: nat)
    requires Lengths(k, workers)
  {
    forall i :: 0 <= i < workers ==> InitAccepts(k.rank[i], k.worldSize[i], k.prev[i], k.next[i])
  }

  /** The agent of chain rank r: trainer 0, then the rollout workers in order. */
  function ChainAgent<A>(T: nat, R: nat, metadata: seq<A>, r: nat): A
    requires T >= 1 && |metadata| == T + R && r <= R
  {
    if r == 0 then metadata[0] else metadata[T + r - 1]
  }

  /** Worker of rank r is linked to exactly its neighbours of a chain of ranks 0..R. */
  ghost predicate Linked<A>(T: nat, R: nat, metadata: seq<A>, r: nat, prev: Option<A>, next: Option<A>)
    requires T >= 1 && |metadata| == T + R && r <= R
  {
    && prev == (if r == 0 then None else Some(ChainAgent(T, R, metadata, r - 1)))
    && next == (if r == R then None else Some(ChainAgent(T, R, metadata, r + 1)))
  }

  /** With at least two rollout workers the arguments are accepted and link ranks 0..R into one
      chain, the other trainers standing aside. */
  lemma TopologyIsChain<A>(T: nat, R: nat, metadata: seq<A>)
    requires T >= 1 && R >= 2 && |metadata| == T + R
    ensures var (t, o) := BuildTopology(T, R, metadata);
            && Lengths(t, T) && Lengths(o, R) && AllAccept(t, T) && AllAccept(o, R)
            && t.rank[0] == 0 && Linked(T, R, metadata, 0, t.prev[0], t.next[0])
            && (forall i :: 0 < i < T ==> t.rank[i] == -1)
            && (forall i :: 0 <= i < R ==> o.rank[i] == i + 1 && Linked(T, R, metadata, i + 1, o.prev[i], o.next[i]))
            && (forall i :: 0 <= i < T ==> t.worldSize[i] == R + 1) && (forall i :: 0 <= i < R ==> o.worldSize[i] == R + 1)
  {
    var (t, o) := BuildTopology(T, R, metadata);
    RolloutLists(T, R, metadata);
    forall i | 0 <= i < R
      ensures o.rank[i] == i + 1 && Linked(T, R, metadata, i + 1, o.prev[i], o.next[i])
      ensures InitAccepts(o.rank[i], o.worldSize[i], o.prev[i], o.next[i])
    {
    }
  }

  lemma RolloutLists<A>(T: nat, R: nat, metadata: seq<A>)
    requires T >= 1 && R >= 2 && |metadata| == T + R
    ensures Slice(metadata, 0 - R, -1) == metadata[T..T + R - 1]
    ensures Slice(metadata, 1 - R, |metadata|) == metadata[T + 1..]
    ensures Bound(0 - R, |metadata|) == T
  {
  }

  /** With a single rollout worker the slice for `next` starts at index 0, so it is the whole
      list: the per-worker length check rejects the topology. */
  lemma SingleRolloutRejected<A>(T: nat, metadata: seq<A>)
    requires T >= 1 && |metadata| == T + 1
    ensures var (t, o) := BuildTopology(T, 1, metadata);
            Lengths(t, T) && !Lengths(o, 1) && |o.next| == |metadata| + 1
  {
  }

  /** The set-up goes through exactly for two or more rollout workers. */
  lemma TopologyAccepted<A>(T: nat, R: nat, metadata: seq<A>)
    requires T >= 1 && R >= 1 && |metadata| == T + R
    ensures var (t, o) := BuildTopology(T, R, metadata);
            (Lengths(t, T) && Lengths(o, R) && AllAccept(t, T) && AllAccept(o, R)) <==> R >= 2
  {
    if R == 1 {
      SingleRolloutRejected(T, metadata);
    } else {
      TopologyIsChain(T, R, metadata);
    }
  }
}
