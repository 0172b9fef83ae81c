/** Dynamic batching of single-query searches. */
module Batcher {
  import opened Options
  import opened Sequences

  type Query = string

  /** What the index answers: for a query and k, k document numbers, negative past the last hit. */
  datatype Index = Index(find: (Query, nat) -> seq<int>) {
    ghost predicate Valid() {
      forall q, k: nat {:trigger find(q, k)} :: |find(q, k)| == k
    }

    /** A larger k only adds answers. */
    ghost predicate PrefixStable() {
      forall q, j: nat, k: nat {:trigger find(q, j), find(q, k)} :: j <= k ==> find(q, j) <= find(q, k)
    }
  }

  /** Some front of the row, without a negative entry and ended only by one. */
  predicate AreHits(row: seq<int>, h: seq<int>) {
    h <= row && (forall i :: 0 <= i < |h| ==> h[i] >= 0) && (|h| < |row| ==> row[|h|] < 0)
  }

  /** The hits of one row of the index's answer: up to the first negative entry. */
  function Hits(row: seq<int>): (h: seq<int>)
    ensures AreHits(row, h)
  {
    if row == [] || row[0] < 0 then []
    else
      var tl := Hits(row[1..]);
      assert row == [row[0]] + row[1..];
      [row[0]] + tl
  }

  /** A search for this query alone. */
  function Solo(index: Index, q: Query, k: nat): seq<int> {
    Hits(index.find(q, k))
  }

  /** There is only one such front. */
  lemma HitsUnique(row: seq<int>, h: seq<int>)
    ensures AreHits(row, h) <==> h == Hits(row)
  {
    var g := Hits(row);
    assert forall i :: 0 <= i < |g| ==> g[i] == row[i] >= 0;
    if AreHits(row, h) {
      assert forall i :: 0 <= i < |h| ==> h[i] == row[i] >= 0;
    }
  }

  /** Cutting a row and cutting its hits are the same. */
  lemma {:induction false} HitsCut(row: seq<int>, n: nat)
    requires n <= |row|
    ensures Hits(row[..n]) == if |Hits(row)| <= n then Hits(row) else Hits(row)[..n]
  {
    if n > 0 && row[0] >= 0 {
      assert row[..n][1..] == row[1..][..n - 1];
      HitsCut(row[1..], n - 1);
    }
  }

  /** `results[i][:tk]` */
  function Cut(hits: seq<int>, k: nat): seq<int> {
    if |hits| <= k then hits else hits[..k]
  }

  /** A wider search cut down is the narrower search, provided the index is prefix-stable, */
  lemma WideThenCut(index: Index, q: Query, k: nat, wide: nat)
    requires index.Valid() && index.PrefixStable() && k <= wide
    ensures Cut(Solo(index, q, wide), k) == Solo(index, q, k)
  {
    var a, b := index.find(q, k), index.find(q, wide);
    assert a == b[..k];
    HitsCut(b, k);
  }

  /** and only then: an index that answers a narrower search differently is noticed. */
  lemma UnstableNoticed(index: Index)
    requires index.Valid() && forall q, k: nat {:trigger index.find(q, k)} :: forall i :: 0 <= i < k ==> index.find(q, k)[i] >= 0
    ensures index.PrefixStable() <==>
            forall q, k: nat, wide: nat {:trigger Solo(index, q, k), Solo(index, q, wide)} :: k <= wide ==> Cut(Solo(index, q, wide), k) == Solo(index, q, k)
  {
    if index.PrefixStable() {
      forall q, k: nat, wide: nat | k <= wide ensures Cut(Solo(index, q, wide), k) == Solo(index, q, k) {
        WideThenCut(index, q, k, wide);
      }
    } else {
      var q, k: nat, wide: nat :| k <= wide && !(index.find(q, k) <= index.find(q, wide));
      AllHits(index.find(q, k));
      AllHits(index.find(q, wide));
      assert Cut(Solo(index, q, wide), k) != Solo(index, q, k);
    }
  }

  lemma {:induction false} AllHits(row: seq<int>)
    requires forall i :: 0 <= i < |row| ==> row[i] >= 0
    ensures Hits(row) == row
  {
    if row != [] {
      AllHits(row[1..]);
      assert row == [row[0]] + row[1..];
    }
  }

  // ---- futures and requests ----------------------------------------------------------------

  datatype State = Pending | Result(hits: seq<int>) | Failed | Cancelled

  class Future {
    var state: State

    constructor ()
      ensures state == Pending
    {
      state := Pending;
    }

    /** Setting a future that is done would raise. */
    method SetResult(hits: seq<int>)
      requires state == Pending
      modifies this
      ensures state == Result(hits)
    {
      state := Result(hits);
    }

    method SetException()
      requires state == Pending
      modifies this
      ensures state == Failed
    {
      state := Failed;
    }
  }

  datatype Request = Request(query: Query, topk: nat, future: Future)

  predicate Separate(rs: seq<Request>) {
    forall i, j :: 0 <= i < j < |rs| ==> rs[i].future != rs[j].future
  }

  ghost function Futures(rs: seq<Request>): set<object> {
    set i | 0 <= i < |rs| :: rs[i].future
  }

  // ---- the search --------------------------------------------------------------------------

  /** `_search_by_vectors` for one query: hits are gathered until the first negative entry. */
  method GatherHits(row: seq<int>) returns (hits: seq<int>)
    ensures hits == Hits(row) && AreHits(row, hits)
  {
    hide AreHits;
    hits := [];
    var j := 0;
    assert row[0..] == row;
    while j < |row|
      invariant j <= |row| && Hits(row) == hits + Hits(row[j..])
    {
      var idx := row[j];
      if idx < 0 {
        return;
      }
      assert row[j..][1..] == row[j + 1..];
      hits := hits + [idx];
      j := j + 1;
    }
  }

  /** `search`: one row of hits per query.  None when the executor raised. */
  method Search(index: Index, queries: seq<Query>, k: nat, raises: bool) returns (r: Option<seq<seq<int>>>)
    ensures r.None? <==> raises
    ensures r.Some? ==> |r.value| == |queries| && forall i :: 0 <= i < |queries| ==> r.value[i] == Solo(index, queries[i], k)
  {
    if raises {
      return None;
    }
    var results: seq<seq<int>> := [];
    for i := 0 to |queries|
      invariant |results| == i && forall j :: 0 <= j < i ==> results[j] == Solo(index, queries[j], k)
    {
      var hits := GatherHits(index.find(queries[i], k));
      results := results + [hits];
    }
    return Some(results);
  }

  /** `max(topks)` */
  method MaxTopk(items: seq<Request>) returns (m: nat)
    requires items != []
    ensures forall i :: 0 <= i < |items| ==> items[i].topk <= m
    ensures exists i :: 0 <= i < |items| && items[i].topk == m
  {
    m := items[0].topk;
    for i := 1 to |items|
      invariant forall j :: 0 <= j < i ==> items[j].topk <= m
      invariant exists j :: 0 <= j < i && items[j].topk == m
    {
      if items[i].topk > m {
        m := items[i].topk;
      }
    }
  }

  // ---- one batch ---------------------------------------------------------------------------

  /** A batch: a front of the queue, within the maximum, that ends only when it is full, the queue is
      empty or the deadline has passed. */
  ghost predicate Drained(queue: seq<Request>, maxBatch: nat, timeout: nat, items: seq<Request>) {
    && items <= queue && 1 <= |items| <= maxBatch && |items| <= timeout + 1
    && (|items| == maxBatch || |items| == |queue| || |items| == timeout + 1)
  }

  /** Drains the queue into one batch: the first request is awaited, then more until the batch is
      full or the deadline passes; `timeout` says before which further request it does. */
  method Drain(queue: seq<Request>, maxBatch: nat, timeout: nat) returns (items: seq<Request>)
    requires queue != [] && maxBatch >= 1
    ensures Drained(queue, maxBatch, timeout, items)
  {
    items := [queue[0]];
    while |items| < maxBatch && |items| < |queue| && |items| <= timeout
      invariant 1 <= |items| <= maxBatch && |items| <= timeout + 1 && items <= queue
    {
      items := items + [queue[|items|]];
    }
  }

  /** A request's future after its batch: resolved with its own answer, or failed with the batch, if it
      was still pending; otherwise as it was. */
  ghost predicate Settled(index: Index, r: Request, before: State, after: State, raises: bool) {
    after == if before != Pending then before
             else if raises then Failed
             else Result(Solo(index, r.query, r.topk))
  }

  /** The search and the completion of one batch. */
  method Complete(index: Index, items: seq<Request>, raises: bool)
    requires items != [] && Separate(items) && index.Valid() && index.PrefixStable()
    modifies Futures(items)
    ensures forall i :: 0 <= i < |items| ==>
      Settled(index, items[i], old(items[i].future.state), items[i].future.state, raises)
  {
    var queries := seq(|items|, i requires 0 <= i < |items| => items[i].query);
    var maxTopk := MaxTopk(items);
    var results := Search(index, queries, maxTopk, raises);
    hide Index.Valid, Index.PrefixStable, Solo;
    for i := 0 to |items|
      invariant forall j :: 0 <= j < i ==>
        Settled(index, items[j], old(items[j].future.state), items[j].future.state, raises)
      invariant forall j :: i <= j < |items| ==> items[j].future.state == old(items[j].future.state)
    {
      var fut := items[i].future;
      assert fut in Futures(items);
      if fut.state == Pending {
        if results.Some? {
          WideThenCut(index, items[i].query, items[i].topk, maxTopk);
          fut.SetResult(Cut(results.value[i], items[i].topk));
        } else {
          fut.SetException();
        }
      }
    }
  }

  // ---- the loop ----------------------------------------------------------------------------

  /** The batch that holds the i-th request of the queue. */
  ghost function BatchOf(batches: seq<seq<Request>>, i: nat): (b: nat)
    requires i < |Flatten(batches)|
    ensures b < |batches| && |Flatten(batches[..b])| <= i < |Flatten(batches[..b + 1])|
  {
    var n := |batches| - 1;
    FlattenLast(batches);
    assert batches[..n + 1] == batches;
    if i >= |Flatten(batches[..n])| then n
    else
      var b := BatchOf(batches[..n], i);
      assert batches[..n][..b] == batches[..b] && batches[..n][..b + 1] == batches[..b + 1];
      b
  }

  /** Where a batch is appended, its requests are in it and all others stay where they were. */
  lemma BatchAppended(batches: seq<seq<Request>>, items: seq<Request>, i: nat)
    requires i < |Flatten(batches)| + |items|
    ensures Flatten(batches + [items]) == Flatten(batches) + items
    ensures BatchOf(batches + [items], i) == if i < |Flatten(batches)| then BatchOf(batches, i) else |batches|
  {
    FlattenAppend(batches, items);
    var all := batches + [items];
    assert all[..|batches|] == batches;
  }

  /** A future after everything queued is served: resolved with its own query's answer, or failed if
      the search of its own batch failed. */
  ghost predicate Served(index: Index, queue: seq<Request>, i: nat, before: State, after: State,
                         batches: seq<seq<Request>>, raises: nat -> bool)
    requires i < |queue|
  {
    i < |Flatten(batches)| && Settled(index, queue[i], before, after, raises(BatchOf(batches, i)))
  }

  lemma SeparatePart(queue: seq<Request>, a: nat, b: nat)
    requires Separate(queue) && a <= b <= |queue|
    ensures Separate(queue[a..b]) && Futures(queue[a..b]) <= Futures(queue)
    ensures forall i :: 0 <= i < |queue| && !(a <= i < b) ==> queue[i].future !in Futures(queue[a..b])
  {
    var part := queue[a..b];
    forall i | 0 <= i < |part| ensures part[i].future in Futures(queue) {
      assert part[i] == queue[a + i];
    }
  }

  /** `_run` until everything that was queued is served: `timeouts` and `raises` say, batch by batch,
      when the deadline passes and whether the search fails.  The batches are the queue cut into
      pieces, each as long as maximum, queue and deadline allow; every future still pending is resolved, with its own
      query's answer at its own top-k unless the search of its own batch failed; a future that was
      done stays as it is. */
  method Run(index: Index, queue: seq<Request>, maxBatch: nat, timeouts: nat -> nat, raises: nat -> bool)
    returns (ghost batches: seq<seq<Request>>)
    requires maxBatch >= 1 && Separate(queue) && index.Valid() && index.PrefixStable()
    modifies Futures(queue)
    ensures Flatten(batches) == queue && AllDrained(queue, maxBatch, timeouts, batches)
    ensures forall i :: 0 <= i < |queue| ==>
      Served(index, queue, i, old(queue[i].future.state), queue[i].future.state, batches, raises)
  {
    hide Index.Valid, Index.PrefixStable, Settled, Separate, BatchOf, Flatten, AllDrained;
    batches := [];
    var n, served := 0, 0;
    NoBatches(queue, maxBatch, timeouts);
    while served < |queue|
      invariant served <= |queue| && Flatten(batches) == queue[..served] && n == |batches|
      invariant AllDrained(queue, maxBatch, timeouts, batches)
      invariant forall i :: 0 <= i < served ==>
        Served(index, queue, i, old(queue[i].future.state), queue[i].future.state, batches, raises)
      invariant forall i :: served <= i < |queue| ==> queue[i].future.state == old(queue[i].future.state)
      decreases |queue| - served
    {
      var items := Drain(queue[served..], maxBatch, timeouts(n));
      var next := served + |items|;
      assert items == queue[served..next];
      SeparatePart(queue, served, next);
      Complete(index, items, raises(n));
      assert forall i :: served <= i < next ==> queue[i] == items[i - served];
      forall i | 0 <= i < next
        ensures Served(index, queue, i, old(queue[i].future.state), queue[i].future.state, batches + [items], raises)
      {
        BatchAppended(batches, items, i);
      }
      BatchAppended(batches, items, served);
      DrainedNext(queue, maxBatch, timeouts, batches, items);
      assert queue[..next] == queue[..served] + items;
      batches := batches + [items];
      served, n := next, n + 1;
    }
    assert queue[..|queue|] == queue;
  }

  lemma NoBatches(queue: seq<Request>, maxBatch: nat, timeouts: nat -> nat)
    ensures Flatten<Request>([]) == [] && AllDrained(queue, maxBatch, timeouts, [])
  {
  }

  /** Each batch was drained from what the ones before it left, up to its own deadline. */
  ghost predicate AllDrained(queue: seq<Request>, maxBatch: nat, timeouts: nat -> nat, batches: seq<seq<Request>>) {
    forall b: nat :: b < |batches| ==>
      |Flatten(batches[..b])| <= |queue| && Drained(queue[|Flatten(batches[..b])|..], maxBatch, timeouts(b), batches[b])
  }

  lemma DrainedNext(queue: seq<Request>, maxBatch: nat, timeouts: nat -> nat, batches: seq<seq<Request>>, items: seq<Request>)
    requires AllDrained(queue, maxBatch, timeouts, batches) && |Flatten(batches)| <= |queue|
    requires Drained(queue[|Flatten(batches)|..], maxBatch, timeouts(|batches|), items)
    ensures AllDrained(queue, maxBatch, timeouts, batches + [items])
  {
    hide Drained, Flatten;
    var all := batches + [items];
    forall b: nat | b < |all|
      ensures |Flatten(all[..b])| <= |queue| && Drained(queue[|Flatten(all[..b])|..], maxBatch, timeouts(b), all[b])
    {
      assert all[..b] == batches[..b] && (b == |batches| ==> batches[..b] == batches);
    }
  }
}
