/** Sending a batch through equal-sized workers: cyclic padding, chunking, concatenation, unpadding. */
module Dispatch {
  import opened Arithmetic
  import opened Options

  /** A batch of rows: a tensor part, which may be missing, and named non-tensor columns. */
  datatype Proto<T, U> = Proto(batch: Option<seq<T>>, cols: map<string, seq<U>>)

  datatype Row<T, U> = Row(t: Option<T>, u: map<string, U>)

  /** Every part has n rows, and there is some part to tell. */
  predicate Aligned<T, U>(p: Proto<T, U>, n: nat) {
    && (p.batch.Some? ==> |p.batch.value| == n) && (forall k :: k in p.cols ==> |p.cols[k]| == n)
    && (p.batch.Some? || p.cols.Keys != {})
  }

  predicate Alike<T, U>(p: Proto<T, U>, q: Proto<T, U>) {
    p.batch.Some? == q.batch.Some? && p.cols.Keys == q.cols.Keys
  }

  function RowAt<T, U>(p: Proto<T, U>, n: nat, i: nat): Row<T, U>
    requires Aligned(p, n) && i < n
  {
    Row(if p.batch.Some? then Some(p.batch.value[i]) else None, map k | k in p.cols :: p.cols[k][i])
  }

  function Rows<T, U>(p: Proto<T, U>, n: nat): (r: seq<Row<T, U>>)
    requires Aligned(p, n)
    ensures |r| == n
  {
    seq(n, i requires 0 <= i < n => RowAt(p, n, i))
  }

  /** `len(data)` */
  method Length<T, U>(p: Proto<T, U>, ghost n: nat) returns (len: nat)
    requires Aligned(p, n)
    ensures len == n
  {
    if p.batch.Some? {
      return |p.batch.value|;
    }
    var k :| k in p.cols;
    return |p.cols[k]|;
  }

  /** `data[a:b]` */
  function Slice<T, U>(p: Proto<T, U>, n: nat, a: nat, b: nat): Proto<T, U>
    requires Aligned(p, n) && a <= b <= n
  {
    Proto(if p.batch.Some? then Some(p.batch.value[a..b]) else None, map k | k in p.cols :: p.cols[k][a..b])
  }

  lemma SliceRowAt<T, U>(p: Proto<T, U>, n: nat, a: nat, b: nat, i: nat)
    requires Aligned(p, n) && a <= b <= n && i < b - a
    ensures var s := Slice(p, n, a, b); Aligned(s, b - a) && Alike(s, p) && RowAt(s, b - a, i) == RowAt(p, n, a + i)
  {
    var s := Slice(p, n, a, b);
    assert s.cols.Keys == p.cols.Keys;
    assert RowAt(s, b - a, i).u == RowAt(p, n, a + i).u;
  }

  lemma SliceRows<T, U>(p: Proto<T, U>, n: nat, a: nat, b: nat)
    requires Aligned(p, n) && a <= b <= n
    ensures var s := Slice(p, n, a, b); Aligned(s, b - a) && Alike(s, p) && Rows(s, b - a) == Rows(p, n)[a..b]
  {
    var s := Slice(p, n, a, b);
    assert s.cols.Keys == p.cols.Keys;
    hide RowAt;
    forall i: nat | i < b - a ensures Rows(s, b - a)[i] == Rows(p, n)[a..b][i] {
      SliceRowAt(p, n, a, b, i);
    }
  }

  /** Two batches one after the other; `concat` does this over a list. */
  function Append<T, U>(p: Proto<T, U>, q: Proto<T, U>): Proto<T, U>
    requires Alike(p, q)
  {
    Proto(if p.batch.Some? then Some(p.batch.value + q.batch.value) else None, map k | k in p.cols :: p.cols[k] + q.cols[k])
  }

  lemma AppendRowAt<T, U>(p: Proto<T, U>, n: nat, q: Proto<T, U>, m: nat, i: nat)
    requires Alike(p, q) && Aligned(p, n) && Aligned(q, m) && i < n + m
    ensures var r := Append(p, q);
            Aligned(r, n + m) && RowAt(r, n + m, i) == if i < n then RowAt(p, n, i) else RowAt(q, m, i - n)
  {
    var r := Append(p, q);
    assert r.cols.Keys == p.cols.Keys == q.cols.Keys;
    if i < n {
      assert RowAt(r, n + m, i).u == RowAt(p, n, i).u;
    } else {
      assert RowAt(r, n + m, i).u == RowAt(q, m, i - n).u;
    }
  }

  lemma AppendRows<T, U>(p: Proto<T, U>, n: nat, q: Proto<T, U>, m: nat)
    requires Alike(p, q) && Aligned(p, n) && Aligned(q, m)
    ensures var r := Append(p, q); Aligned(r, n + m) && Alike(r, p) && Rows(r, n + m) == Rows(p, n) + Rows(q, m)
  {
    var r := Append(p, q);
    assert r.cols.Keys == p.cols.Keys;
    hide RowAt;
    forall i: nat | i < n + m ensures Rows(r, n + m)[i] == (Rows(p, n) + Rows(q, m))[i] {
      AppendRowAt(p, n, q, m, i);
    }
  }

  /** Batches that can be concatenated, with their sizes. */
  ghost predicate Joinable<T, U>(ps: seq<Proto<T, U>>, ns: seq<nat>) {
    |ps| == |ns| > 0 && forall i :: 0 <= i < |ps| ==> Aligned(ps[i], ns[i]) && Alike(ps[i], ps[0])
  }

  ghost function AllRows<T, U>(ps: seq<Proto<T, U>>, ns: seq<nat>): seq<Row<T, U>>
    requires |ps| == |ns| && forall i :: 0 <= i < |ps| ==> Aligned(ps[i], ns[i])
  {
    if ps == [] then [] else AllRows(ps[..|ps| - 1], ns[..|ps| - 1]) + Rows(ps[|ps| - 1], ns[|ps| - 1])
  }

  lemma {:induction false} AllRowsSnoc<T, U>(ps: seq<Proto<T, U>>, ns: seq<nat>, p: Proto<T, U>, n: nat)
    requires |ps| == |ns| && (forall i :: 0 <= i < |ps| ==> Aligned(ps[i], ns[i])) && Aligned(p, n)
    ensures forall i :: 0 <= i < |ps| + 1 ==> Aligned((ps + [p])[i], (ns + [n])[i])
    ensures AllRows(ps + [p], ns + [n]) == AllRows(ps, ns) + Rows(p, n)
  {
    assert (ps + [p])[..|ps|] == ps && (ns + [n])[..|ps|] == ns;
  }

  /** The first i batches have been put together in r. */
  ghost predicate Joined<T, U>(ps: seq<Proto<T, U>>, ns: seq<nat>, i: nat, r: Proto<T, U>, n: nat)
    requires Joinable(ps, ns) && 0 < i <= |ps|
  {
    Aligned(r, n) && Alike(r, ps[0]) && Rows(r, n) == AllRows(ps[..i], ns[..i])
  }

  lemma JoinFirst<T, U>(ps: seq<Proto<T, U>>, ns: seq<nat>)
    requires Joinable(ps, ns)
    ensures Joined(ps, ns, 1, ps[0], ns[0])
  {
    OneRows(ps, ns);
  }

  lemma JoinNext<T, U>(ps: seq<Proto<T, U>>, ns: seq<nat>, i: nat, r: Proto<T, U>, n: nat)
    requires Joinable(ps, ns) && 0 < i < |ps| && Joined(ps, ns, i, r, n)
    ensures Alike(r, ps[i]) && Joined(ps, ns, i + 1, Append(r, ps[i]), n + ns[i])
  {
    hide Aligned, Alike, Rows, Append, AllRows;
    AlikeBoth(r, ps[0], ps[i]);
    AppendRows(r, n, ps[i], ns[i]);
    AlikeBoth(Append(r, ps[i]), r, ps[0]);
    AllRowsSnoc(ps[..i], ns[..i], ps[i], ns[i]);
    assert ps[..i + 1] == ps[..i] + [ps[i]] && ns[..i + 1] == ns[..i] + [ns[i]];
  }

  lemma JoinedAll<T, U>(ps: seq<Proto<T, U>>, ns: seq<nat>, r: Proto<T, U>, n: nat)
    requires Joinable(ps, ns) && Joined(ps, ns, |ps|, r, n)
    ensures Aligned(r, n) && Alike(r, ps[0]) && Rows(r, n) == AllRows(ps, ns)
  {
    assert ps[..|ps|] == ps && ns[..|ps|] == ns;
  }

  lemma JoinSome<T, U>(ps: seq<Proto<T, U>>, ns: seq<nat>)
    requires Joinable(ps, ns)
    ensures |ps| == |ns| > 0
  {
  }

  /** `DataProto.concat` */
  method Concat<T, U>(ps: seq<Proto<T, U>>, ghost ns: seq<nat>) returns (r: Proto<T, U>, ghost n: nat)
    requires Joinable(ps, ns)
    ensures Aligned(r, n) && Alike(r, ps[0]) && Rows(r, n) == AllRows(ps, ns)
  {
    hide *;
    JoinSome(ps, ns);
    JoinFirst(ps, ns);
    r := ps[0];
    n := ns[0];
    for i := 1 to |ps|
      invariant Joined(ps, ns, i, r, n)
    {
      JoinNext(ps, ns, i, r, n);
      r := Append(r, ps[i]);
      n := n + ns[i];
    }
    JoinedAll(ps, ns, r, n);
  }

  lemma OneRows<T, U>(ps: seq<Proto<T, U>>, ns: seq<nat>)
    requires Joinable(ps, ns)
    ensures AllRows(ps[..1], ns[..1]) == Rows(ps[0], ns[0])
  {
    assert ps[..1] == [] + [ps[0]] && ns[..1] == [] + [ns[0]];
    AllRowsSnoc<T, U>([], [], ps[0], ns[0]);
  }

  lemma AlikeBoth<T, U>(p: Proto<T, U>, q: Proto<T, U>, r: Proto<T, U>)
    requires Alike(p, q) && (Alike(r, q) || Alike(q, r))
    ensures Alike(p, r)
  {
  }

  // ---- padding -----------------------------------------------------------------------------

  /** The first k entries of xs repeated for ever. */
  function Cyclic<X>(xs: seq<X>, k: nat): (r: seq<X>)
    requires xs != []
    ensures |r| == k && forall i :: 0 <= i < k ==> r[i] == xs[i % |xs|]
  {
    seq(k, i requires 0 <= i < k => xs[i % |xs|])
  }

  /** The padding loop takes whole copies of the batch, and then its beginning. */
  lemma CyclicGrows<X>(xs: seq<X>, k: nat, take: nat)
    requires xs != [] && take <= |xs| && k % |xs| == 0
    ensures Cyclic(xs, k + take) == Cyclic(xs, k) + xs[..take]
  {
    forall r: nat | r < take ensures Cyclic(xs, k + take)[k + r] == xs[..take][r] {
      AfterMultiple(k, r, |xs|);
    }
  }

  /** The batch and the paddings gathered so far, `taken` rows of them. */
  ghost predicate Padding<T, U>(p: Proto<T, U>, n: nat, ps: seq<Proto<T, U>>, ns: seq<nat>, taken: nat)
    requires Aligned(p, n) && n > 0
  {
    Joinable(ps, ns) && ps[0] == p && Rows(p, n) != [] && AllRows(ps, ns) == Rows(p, n) + Cyclic(Rows(p, n), taken)
  }

  lemma PaddingNext<T, U>(p: Proto<T, U>, n: nat, ps: seq<Proto<T, U>>, ns: seq<nat>, taken: nat, take: nat)
    requires Aligned(p, n) && n > 0 && Padding(p, n, ps, ns, taken) && take <= n && WholeCopies(taken, n)
    ensures Padding(p, n, ps + [Slice(p, n, 0, take)], ns + [take], taken + take)
  {
    RowsCount(p, n);
    SliceRows(p, n, 0, take);
    hide Aligned, Rows, Alike, Slice, Cyclic, AllRows;
    JoinOne(ps, ns, Slice(p, n, 0, take), take);
    AllRowsSnoc(ps, ns, Slice(p, n, 0, take), take);
    CyclicGrows(Rows(p, n), taken, take);
    assert Rows(p, n)[0..take] == Rows(p, n)[..take];
  }

  lemma PaddingDone<T, U>(p: Proto<T, U>, n: nat, ps: seq<Proto<T, U>>, ns: seq<nat>, taken: nat, r: Proto<T, U>, m: nat)
    requires Aligned(p, n) && n > 0 && Padding(p, n, ps, ns, taken)
    requires Aligned(r, m) && Rows(r, m) == AllRows(ps, ns) && Alike(r, ps[0])
    ensures m == n + taken && Alike(r, p) && Rows(r, m) == Rows(p, n) + Cyclic(Rows(p, n), taken)
  {
    RowsCount(p, n);
    RowsCount(r, m);
  }

  /** `pad_dataproto_to_divisor`: fewer than `divisor` rows are added, a cyclic repeat of the batch. */
  method PadToDivisor<T, U>(p: Proto<T, U>, ghost n: nat, divisor: nat) returns (padded: Proto<T, U>, padSize: nat)
    requires Aligned(p, n) && n > 0 && divisor > 0
    ensures padSize < divisor && (n + padSize) % divisor == 0
    ensures Aligned(padded, n + padSize) && Alike(padded, p) && |Rows(p, n)| == n
    ensures Rows(padded, n + padSize) == Rows(p, n) + Cyclic(Rows(p, n), padSize)
  {
    var len := Length(p, n);
    PadStart(p, n);
    AlikeSelf(p);
    RowsCount(p, n);
    hide *;
    if len % divisor != 0 {
      FillsUp(len, divisor);
      padSize := divisor - len % divisor;
      padded := PadBy(p, n, len, padSize);
    } else {
      padSize := 0;
      padded := p;
      assert Rows(p, n) + Cyclic(Rows(p, n), 0) == Rows(p, n);
    }
  }

  /** The padding loop. */
  method PadBy<T, U>(p: Proto<T, U>, ghost n: nat, len: nat, padSize: nat) returns (padded: Proto<T, U>)
    requires Aligned(p, n) && n == len > 0
    ensures Aligned(padded, n + padSize) && Alike(padded, p) && |Rows(p, n)| == n
    ensures Rows(padded, n + padSize) == Rows(p, n) + Cyclic(Rows(p, n), padSize)
  {
    PadStart(p, n);
    RowsCount(p, n);
    hide *;
    var ps := [p];
    var remaining: nat := padSize;
    ghost var ns: seq<nat> := [n];
    ghost var taken: nat := 0;
    while remaining > 0
      invariant taken + remaining == padSize && (remaining > 0 ==> WholeCopies(taken, n))
      invariant Padding(p, n, ps, ns, taken)
      decreases remaining
    {
      var take := if remaining < len then remaining else len;
      PaddingNext(p, n, ps, ns, taken, take);
      ps, ns := ps + [Slice(p, len, 0, take)], ns + [take];
      remaining := remaining - take;
      if remaining > 0 {
        OneMoreCopy(taken, n);
      }
      taken := taken + take;
    }
    ghost var total;
    PaddingJoins(p, n, ps, ns, taken);
    padded, total := Concat(ps, ns);
    PaddingDone(p, n, ps, ns, taken, padded, total);
  }

  predicate WholeCopies(k: nat, n: nat)
    requires n > 0
  {
    k % n == 0
  }

  lemma OneMoreCopy(k: nat, n: nat)
    requires n > 0 && WholeCopies(k, n)
    ensures WholeCopies(k + n, n)
  {
    AfterMultiple(k, 0, n);
  }

  lemma PaddingJoins<T, U>(p: Proto<T, U>, n: nat, ps: seq<Proto<T, U>>, ns: seq<nat>, taken: nat)
    requires Aligned(p, n) && n > 0 && Padding(p, n, ps, ns, taken)
    ensures Joinable(ps, ns)
  {
  }

  lemma RowsCount<T, U>(p: Proto<T, U>, n: nat)
    requires Aligned(p, n)
    ensures |Rows(p, n)| == n
  {
  }

  lemma AlikeSelf<T, U>(p: Proto<T, U>)
    ensures Alike(p, p)
  {
  }

  lemma PadStart<T, U>(p: Proto<T, U>, n: nat)
    requires Aligned(p, n) && n > 0
    ensures Padding(p, n, [p], [n], 0) && WholeCopies(0, n)
  {
    OneRows([p], [n]);
    assert [p][..1] == [p] && [n][..1] == [n];
  }

  lemma JoinOne<T, U>(ps: seq<Proto<T, U>>, ns: seq<nat>, p: Proto<T, U>, n: nat)
    requires Joinable(ps, ns) && Aligned(p, n) && Alike(p, ps[0])
    ensures Joinable(ps + [p], ns + [n])
  {
  }

  // ---- chunking ----------------------------------------------------------------------------

  lemma ChunkBounds(chunks: nat, w: nat, i: nat)
    requires i < chunks
    ensures i * w <= i * w + w <= chunks * w && (i + 1) * w == i * w + w
  {
    assert chunks * w == i * w + w + (chunks - i - 1) * w;
  }

  /** The i-th of `chunks` chunks of w rows each. */
  function ChunkOf<T, U>(p: Proto<T, U>, chunks: nat, w: nat, i: nat): Proto<T, U>
    requires Aligned(p, chunks * w) && i < chunks
  {
    ChunkBounds(chunks, w, i);
    Slice(p, chunks * w, i * w, i * w + w)
  }

  /** `chunk`: None stands for its assertion on equal chunks. */
  method Chunk<T, U>(p: Proto<T, U>, ghost n: nat, chunks: nat) returns (r: Option<seq<Proto<T, U>>>, ghost w: nat)
    requires Aligned(p, n) && chunks > 0
    ensures r.None? <==> n % chunks != 0
    ensures r.Some? ==> n == chunks * w && |r.value| == chunks
    ensures r.Some? ==> forall i :: 0 <= i < chunks ==> r.value[i] == ChunkOf(p, chunks, w, i)
  {
    var len := Length(p, n);
    if len % chunks != 0 {
      return None, 0;
    }
    var size := len / chunks;
    w := size;
    assert len == chunks * size;
    var ps := ChunkLoop(p, chunks, size);
    r := Some(ps);
  }

  /** The loop over the chunks: consecutive rows, the running index advanced by each chunk's size. */
  method ChunkLoop<T, U>(p: Proto<T, U>, chunks: nat, w: nat) returns (ps: seq<Proto<T, U>>)
    requires Aligned(p, chunks * w)
    ensures |ps| == chunks && forall i :: 0 <= i < chunks ==> ps[i] == ChunkOf(p, chunks, w, i)
  {
    hide Aligned, Slice;
    ps := [];
    var start := 0;
    for i := 0 to chunks
      invariant |ps| == i && start == i * w
      invariant forall j :: 0 <= j < i ==> ps[j] == ChunkOf(p, chunks, w, j)
    {
      ChunkBounds(chunks, w, i);
      ps := ps + [Slice(p, chunks * w, start, start + w)];
      start := start + w;
    }
  }

  /** `unpad_dataproto` */
  method Unpad<T, U>(p: Proto<T, U>, ghost n: nat, padSize: nat) returns (r: Proto<T, U>)
    requires Aligned(p, n) && padSize <= n
    ensures Aligned(r, n - padSize) && Rows(r, n - padSize) == Rows(p, n)[..n - padSize]
  {
    r := p;
    if padSize != 0 {
      var len := Length(p, n);
      SliceRows(p, n, 0, n - padSize);
      r := Slice(p, len, 0, len - padSize);
    }
  }

  // ---- the whole dispatch ------------------------------------------------------------------

  function Map<X, Y>(f: X -> Y, xs: seq<X>): (r: seq<Y>)
    ensures |r| == |xs| && forall i :: 0 <= i < |r| ==> r[i] == f(xs[i])
  {
    seq(|xs|, i requires 0 <= i < |xs| => f(xs[i]))
  }

  /** The worker answers row by row, with f, in batches that can be concatenated. */
  ghost predicate RowWise<T(!new), U(!new)>(g: Proto<T, U> -> Proto<T, U>, f: Row<T, U> -> Row<T, U>, like: Proto<T, U>, out: Proto<T, U>) {
    forall p: Proto<T, U>, n: nat :: Aligned(p, n) && Alike(p, like) ==>
      Aligned(g(p), n) && Alike(g(p), out) && Rows(g(p), n) == Map(f, Rows(p, n))
  }

  lemma WorkerOn<T(!new), U(!new)>(g: Proto<T, U> -> Proto<T, U>, f: Row<T, U> -> Row<T, U>, like: Proto<T, U>, out: Proto<T, U>, p: Proto<T, U>, n: nat)
    requires RowWise(g, f, like, out) && Aligned(p, n) && Alike(p, like)
    ensures Aligned(g(p), n) && Alike(g(p), out) && Rows(g(p), n) == Map(f, Rows(p, n))
  {
  }

  /** The workers' answers so far: the first a rows, mapped. */
  ghost predicate Answered<T, U>(f: Row<T, U> -> Row<T, U>, rows: seq<Row<T, U>>, a: nat, outs: seq<Proto<T, U>>, ns: seq<nat>, out: Proto<T, U>) {
    && |outs| == |ns| && a <= |rows|
    && (forall j :: 0 <= j < |outs| ==> Aligned(outs[j], ns[j]) && Alike(outs[j], out))
    && AllRows(outs, ns) == Map(f, rows[..a])
  }

  /** One more answer. */
  lemma AnsweredMore<T, U>(f: Row<T, U> -> Row<T, U>, rows: seq<Row<T, U>>, a: nat, w: nat, outs: seq<Proto<T, U>>, ns: seq<nat>,
                           out: Proto<T, U>, q: Proto<T, U>)
    requires Answered(f, rows, a, outs, ns, out) && a + w <= |rows|
    requires Aligned(q, w) && Alike(q, out) && Rows(q, w) == Map(f, rows[a..a + w])
    ensures Answered(f, rows, a + w, outs + [q], ns + [w], out)
  {
    hide Aligned, Alike, Rows, AllRows, Map;
    AllRowsSnoc(outs, ns, q, w);
    MapMore(f, rows, a, w);
  }

  lemma AnsweredNext<T(!new), U(!new)>(g: Proto<T, U> -> Proto<T, U>, f: Row<T, U> -> Row<T, U>, like: Proto<T, U>, out: Proto<T, U>,
                                       p: Proto<T, U>, n: nat, a: nat, w: nat, outs: seq<Proto<T, U>>, ns: seq<nat>)
    requires RowWise(g, f, like, out) && Aligned(p, n) && Alike(p, like) && a + w <= n
    requires Answered(f, Rows(p, n), a, outs, ns, out)
    ensures Answered(f, Rows(p, n), a + w, outs + [g(Slice(p, n, a, a + w))], ns + [w], out)
  {
    hide *;
    var s := Slice(p, n, a, a + w);
    RowsCount(p, n);
    SliceRows(p, n, a, a + w);
    AlikeBoth(s, p, like);
    WorkerOn(g, f, like, out, s, w);
    AnsweredMore(f, Rows(p, n), a, w, outs, ns, out, g(s));
  }

  lemma MapMore<X, Y>(f: X -> Y, rows: seq<X>, a: nat, w: nat)
    requires a + w <= |rows|
    ensures Map(f, rows[..a + w]) == Map(f, rows[..a]) + Map(f, rows[a..a + w])
  {
  }

  lemma AnsweredJoins<T, U>(f: Row<T, U> -> Row<T, U>, rows: seq<Row<T, U>>, outs: seq<Proto<T, U>>, ns: seq<nat>, out: Proto<T, U>)
    requires Answered(f, rows, |rows|, outs, ns, out) && outs != []
    ensures Joinable(outs, ns) && AllRows(outs, ns) == Map(f, rows)
  {
    assert rows[..|rows|] == rows;
    forall j | 0 <= j < |outs| ensures Alike(outs[j], outs[0]) {
      AlikeBoth(outs[j], out, outs[0]);
    }
  }

  /** Pad, chunk over the workers, concatenate, unpad: f on every row of the batch, in order. */
  method Dispatch<T(!new), U(!new)>(p: Proto<T, U>, ghost n: nat, workers: nat, g: Proto<T, U> -> Proto<T, U>,
                                    ghost f: Row<T, U> -> Row<T, U>, ghost out: Proto<T, U>)
    returns (r: Proto<T, U>)
    requires Aligned(p, n) && n > 0 && workers > 0 && RowWise(g, f, p, out)
    ensures Aligned(r, n) && Rows(r, n) == Map(f, Rows(p, n))
  {
    hide *;
    var padded, padSize := PadToDivisor(p, n, workers);
    ghost var total := n + padSize;
    ghost var w;
    var chunks;
    chunks, w := Chunk(padded, total, workers);
    r := p;
    if chunks.Some? {
      r := RunWorkers(padded, workers, w, chunks.value, g, f, p, out);
      RowsCount(r, total);
      r := Unpad(r, total, padSize);
      FrontOnly(f, Rows(p, n), Cyclic(Rows(p, n), padSize));
    }
  }

  lemma ChunkIs<T, U>(p: Proto<T, U>, chunks: nat, w: nat, i: nat)
    requires Aligned(p, chunks * w) && i < chunks
    ensures Offset(w, i) + w <= chunks * w && Offset(w, i + 1) == Offset(w, i) + w
    ensures ChunkOf(p, chunks, w, i) == Slice(p, chunks * w, Offset(w, i), Offset(w, i) + w)
  {
    ChunkBounds(chunks, w, i);
  }

  /** Where chunk i begins. */
  function Offset(w: nat, i: nat): nat {
    i * w
  }

  lemma FrontOnly<X, Y>(f: X -> Y, a: seq<X>, b: seq<X>)
    ensures Map(f, a + b)[..|a|] == Map(f, a)
  {
  }

  /** `concat(map f (chunks))` */
  method RunWorkers<T(!new), U(!new)>(p: Proto<T, U>, workers: nat, ghost w: nat, chunks: seq<Proto<T, U>>,
                                      g: Proto<T, U> -> Proto<T, U>, ghost f: Row<T, U> -> Row<T, U>,
                                      ghost like: Proto<T, U>, ghost out: Proto<T, U>)
    returns (r: Proto<T, U>)
    requires Aligned(p, workers * w) && workers > 0 && RowWise(g, f, like, out) && Alike(p, like)
    requires |chunks| == workers && forall i :: 0 <= i < workers ==> chunks[i] == ChunkOf(p, workers, w, i)
    ensures Aligned(r, workers * w) && Rows(r, workers * w) == Map(f, Rows(p, workers * w))
  {
    RowsCount(p, workers * w);
    ghost var rows := Rows(p, workers * w);
    assert Answered(f, rows, Offset(w, 0), [], [], out);
    assert Offset(w, workers) == |rows|;
    hide *;
    var outs: seq<Proto<T, U>> := [];
    ghost var ns: seq<nat> := [];
    for i := 0 to workers
      invariant |outs| == i && Answered(f, rows, Offset(w, i), outs, ns, out)
    {
      ChunkIs(p, workers, w, i);
      AnsweredNext(g, f, like, out, p, workers * w, Offset(w, i), w, outs, ns);
      outs, ns := outs + [g(chunks[i])], ns + [w];
    }
    AnsweredJoins(f, rows, outs, ns, out);
    ghost var m;
    r, m := Concat(outs, ns);
    RowsCount(r, m);
  }
}
