/** Named weights, the byte buckets a trainer packs them into, and what a reader gets back.

    A bucket's metadata is a Python dict: ordered by first insertion, the later value winning
    when a name comes back.  `Put` models exactly that, so nothing here assumes distinct names. */
module Buckets {
  import opened Sequences

  newtype Byte = b: int | 0 <= b < 256

  type Weight = (string, seq<Byte>)

  datatype Slot = Slot(offset: nat, size: nat)

  /** An insertion-ordered dict, as its list of items. */
  type Dict<V> = seq<(string, V)>

  type Meta = Dict<Slot>

  predicate Has<V>(d: Dict<V>, name: string) {
    exists i :: 0 <= i < |d| && d[i].0 == name
  }

  /** `d[name] = v` */
  function Put<V>(d: Dict<V>, name: string, v: V): Dict<V> {
    if d == [] then [(name, v)]
    else if d[0].0 == name then [(name, v)] + d[1..]
    else [d[0]] + Put(d[1..], name, v)
  }

  function Bytes(ws: seq<Weight>): seq<Byte> {
    if ws == [] then [] else Bytes(ws[..|ws| - 1]) + ws[|ws| - 1].1
  }

  /** The metadata built while `ws` are written one after another from offset 0. */
  function MetaOf(ws: seq<Weight>): Meta {
    if ws == [] then []
    else
      var init, last := ws[..|ws| - 1], ws[|ws| - 1];
      Put(MetaOf(init), last.0, Slot(|Bytes(init)|, |last.1|))
  }

  /** What a dict of the weights themselves would hold: the bucket's items. */
  function Items(ws: seq<Weight>): seq<Weight> {
    if ws == [] then []
    else Put(Items(ws[..|ws| - 1]), ws[|ws| - 1].0, ws[|ws| - 1].1)
  }

  predicate DistinctNames(ws: seq<Weight>) {
    forall i, j :: 0 <= i < j < |ws| ==> ws[i].0 != ws[j].0
  }

  predicate InBounds(s: Slot, buf: seq<Byte>) {
    s.offset + s.size <= |buf|
  }

  /** The slice a reader takes for one item. */
  function Read(buf: seq<Byte>, s: Slot): seq<Byte>
    requires InBounds(s, buf)
  {
    buf[s.offset..s.offset + s.size]
  }

  /** Everything a reader yields from one bucket, in dict order. */
  function ReadAll(buf: seq<Byte>, m: Meta): (r: seq<Weight>)
    requires forall i :: 0 <= i < |m| ==> InBounds(m[i].1, buf)
    ensures |r| == |m|
    ensures forall i :: 0 <= i < |m| ==> r[i] == (m[i].0, Read(buf, m[i].1))
  {
    if m == [] then [] else [(m[0].0, Read(buf, m[0].1))] + ReadAll(buf, m[1..])
  }

  /** An engine's pair of buffers. */
  datatype Two = Two(a: seq<Byte>, b: seq<Byte>) {
    function Get(i: bool): seq<Byte> { if i then b else a }
    function Set(i: bool, x: seq<Byte>): Two { if i then Two(a, x) else Two(x, b) }
  }

  /** Overwrites `buf[offset..]` with `x`. */
  function Write(buf: seq<Byte>, offset: nat, x: seq<Byte>): (r: seq<Byte>)
    requires offset + |x| <= |buf|
    ensures |r| == |buf|
  {
    buf[..offset] + x + buf[offset + |x|..]
  }

  // ---- one bucket: slots, and the round trip through the bytes ------------------------------

  /** `Put` keeps every other item and touches one position. */
  lemma {:induction false} PutEffect<V>(d: Dict<V>, name: string, v: V)
    ensures var p := Put(d, name, v);
            var k := Index(d, name);
            && |p| == (if k < |d| then |d| else |d| + 1)
            && k < |p| && p[k] == (name, v)
            && forall i :: 0 <= i < |p| && i != k ==> i < |d| && p[i] == d[i]
  {
    if d != [] && d[0].0 != name {
      PutEffect(d[1..], name, v);
    }
  }

  function Index<V>(d: Dict<V>, name: string): (k: nat)
    ensures k <= |d|
    ensures k < |d| ==> d[k].0 == name
    ensures forall i :: 0 <= i < k ==> d[i].0 != name
  {
    if d == [] || d[0].0 == name then 0 else 1 + Index(d[1..], name)
  }

  predicate End(s: Slot, limit: nat) {
    s.offset + s.size <= limit
  }

  /** Every slot ends by `limit`, and no two share a byte. */
  predicate Separate(m: Meta, limit: nat) {
    && (forall i :: 0 <= i < |m| ==> End(m[i].1, limit))
    && (forall i, j :: 0 <= i < |m| && 0 <= j < |m| && i != j ==>
         End(m[i].1, m[j].1.offset) || End(m[j].1, m[i].1.offset))
  }

  /** Slots lie inside the written bytes, and no two items share a byte. */
  lemma {:induction false} SlotsSeparate(ws: seq<Weight>)
    ensures Separate(MetaOf(ws), |Bytes(ws)|)
  {
    if ws != [] {
      var init, last := ws[..|ws| - 1], ws[|ws| - 1];
      SlotsSeparate(init);
      PutSeparate(MetaOf(init), last.0, |Bytes(init)|, |last.1|);
    }
  }

  lemma PutSeparate(d: Meta, name: string, limit: nat, size: nat)
    requires Separate(d, limit)
    ensures Separate(Put(d, name, Slot(limit, size)), limit + size)
  {
    PutEffect(d, name, Slot(limit, size));
  }

  /** Reading a bucket's slots from any buffer that starts with its bytes gives back its items. */
  lemma {:induction false} BucketRoundTrip(ws: seq<Weight>, buf: seq<Byte>)
    requires Bytes(ws) <= buf
    ensures forall i :: 0 <= i < |MetaOf(ws)| ==> InBounds(MetaOf(ws)[i].1, buf)
    ensures ReadAll(buf, MetaOf(ws)) == Items(ws)
  {
    if ws != [] {
      var init, last := ws[..|ws| - 1], ws[|ws| - 1];
      assert Bytes(ws) == Bytes(init) + last.1;
      BucketRoundTrip(init, buf);
      var s := Slot(|Bytes(init)|, |last.1|);
      assert Read(buf, s) == last.1;
      ReadPut(buf, MetaOf(init), last.0, s);
    }
  }

  lemma {:induction false} ReadPut(buf: seq<Byte>, d: Meta, name: string, s: Slot)
    requires InBounds(s, buf) && forall i :: 0 <= i < |d| ==> InBounds(d[i].1, buf)
    ensures forall i :: 0 <= i < |Put(d, name, s)| ==> InBounds(Put(d, name, s)[i].1, buf)
    ensures ReadAll(buf, Put(d, name, s)) == Put(ReadAll(buf, d), name, Read(buf, s))
  {
    if d != [] {
      if d[0].0 == name {
        assert ReadAll(buf, d)[1..] == ReadAll(buf, d[1..]);
        assert Put(d, name, s)[1..] == d[1..];
      } else {
        ReadPut(buf, d[1..], name, s);
        assert Put(d, name, s)[1..] == Put(d[1..], name, s);
      }
    }
  }

  /** A bucket's items are its weights exactly when no name repeats. */
  lemma {:induction false} ItemsAreWeights(ws: seq<Weight>)
    ensures Items(ws) == ws <==> DistinctNames(ws)
    ensures |Items(ws)| <= |ws|
    ensures forall n :: Has(Items(ws), n) <==> Has(ws, n)
  {
    if ws != [] {
      var init, last := ws[..|ws| - 1], ws[|ws| - 1];
      assert ws == init + [last];
      ItemsAreWeights(init);
      PutKeepsNames(Items(init), last.0, last.1);
      PutIsAppend(Items(init), last.0, last.1);
      AppendNames(init, last);
      assert |Items(ws)| == |ws| ==> Items(ws)[..|init|] == Items(init) && ws[..|init|] == init;
    }
  }

  lemma AppendNames(ws: seq<Weight>, w: Weight)
    ensures DistinctNames(ws + [w]) <==> DistinctNames(ws) && !Has(ws, w.0)
    ensures forall n :: Has(ws + [w], n) <==> Has(ws, n) || n == w.0
  {
    var all := ws + [w];
    assert forall i :: 0 <= i < |ws| ==> all[i] == ws[i];
    assert all[|ws|] == w;
    forall n | Has(ws, n) || n == w.0 ensures Has(all, n) {
      if Has(ws, n) {
        var i :| 0 <= i < |ws| && ws[i].0 == n;
        assert all[i].0 == n;
      }
    }
    if DistinctNames(all) {
      forall i, j | 0 <= i < j < |ws| ensures ws[i].0 != ws[j].0 {
        assert all[i].0 != all[j].0;
      }
      forall i | 0 <= i < |ws| ensures ws[i].0 != w.0 {
        assert all[i].0 != all[|ws|].0;
      }
    }
  }

  lemma {:induction false} PutKeepsNames<V>(d: Dict<V>, name: string, v: V)
    ensures forall n :: Has(Put(d, name, v), n) <==> Has(d, n) || n == name
  {
    PutEffect(d, name, v);
    var p, k := Put(d, name, v), Index(d, name);
    assert p[k].0 == name;
    forall n | Has(d, n) ensures Has(p, n) {
      var i :| 0 <= i < |d| && d[i].0 == n;
      assert p[i].0 == n;
    }
    forall n | Has(p, n) && n != name ensures Has(d, n) {
      var i :| 0 <= i < |p| && p[i].0 == n;
      assert d[i].0 == n;
    }
  }

  lemma PutIsAppend<V>(d: Dict<V>, name: string, v: V)
    ensures |Put(d, name, v)| == if Has(d, name) then |d| else |d| + 1
    ensures !Has(d, name) ==> Put(d, name, v) == d + [(name, v)]
  {
    PutEffect(d, name, v);
    var k := Index(d, name);
    if k < |d| {
      assert d[k].0 == name;
    }
  }

  // ---- the sequence of buckets --------------------------------------------------------------

  predicate AllFit(ws: seq<Weight>, B: nat) {
    forall i :: 0 <= i < |ws| ==> |ws[i].1| <= B
  }

  /** The buckets a sender publishes when `cur` is already in the open bucket and `rest` is
      still to come.  A weight that fits no bucket stops the sender after one more flush. */
  function PackFrom(cur: seq<Weight>, rest: seq<Weight>, B: nat): (r: seq<seq<Weight>>)
    ensures |r| >= 1
    decreases |rest|
  {
    if rest == [] then [cur]
    else if |Bytes(cur)| + |rest[0].1| <= B then PackFrom(cur + [rest[0]], rest[1..], B)
    else if |rest[0].1| <= B then [cur] + PackFrom([rest[0]], rest[1..], B)
    else [cur]
  }

  function Pack(ws: seq<Weight>, B: nat): (r: seq<seq<Weight>>)
    ensures |r| >= 1
  {
    PackFrom([], ws, B)
  }

  /** All items a reader of the whole stream is given. */
  function Delivered(bs: seq<seq<Weight>>): seq<Weight> {
    if bs == [] then [] else Delivered(bs[..|bs| - 1]) + Items(bs[|bs| - 1])
  }

  lemma BytesAppend(ws: seq<Weight>, w: Weight)
    ensures Bytes(ws + [w]) == Bytes(ws) + w.1
  {
    assert (ws + [w])[..|ws|] == ws;
  }

  lemma MetaAppend(ws: seq<Weight>, w: Weight)
    ensures MetaOf(ws + [w]) == Put(MetaOf(ws), w.0, Slot(|Bytes(ws)|, |w.1|))
  {
    assert (ws + [w])[..|ws|] == ws;
  }

  /** One weight of the sender's loop: it fits, or it opens the next bucket. */
  lemma PackFromStep(cur: seq<Weight>, rest: seq<Weight>, B: nat)
    requires rest != [] && |rest[0].1| <= B
    ensures |Bytes(cur)| + |rest[0].1| <= B ==> PackFrom(cur, rest, B) == PackFrom(cur + [rest[0]], rest[1..], B)
    ensures |Bytes(cur)| + |rest[0].1| > B ==> PackFrom(cur, rest, B) == [cur] + PackFrom([], rest, B)
    ensures |Bytes(cur)| + |rest[0].1| > B ==> PackFrom(cur, rest, B) == [cur] + PackFrom([rest[0]], rest[1..], B)
    ensures |Bytes([rest[0]])| == |rest[0].1|
  {
    BytesAppend([], rest[0]);
    assert [] + [rest[0]] == [rest[0]];
  }

  /** The open bucket and the weights to come, before and after one more weight is packed. */
  lemma FillFacts(ws: seq<Weight>, B: nat, first: nat, i: nat)
    requires first <= i < |ws| && |Bytes(ws[first..i])| + |ws[i].1| <= B
    ensures Bytes(ws[first..i + 1]) == Bytes(ws[first..i]) + ws[i].1
    ensures MetaOf(ws[first..i + 1]) == Put(MetaOf(ws[first..i]), ws[i].0, Slot(|Bytes(ws[first..i])|, |ws[i].1|))
    ensures PackFrom(ws[first..i], ws[i..], B) == PackFrom(ws[first..i + 1], ws[i + 1..], B)
    ensures AllFit(ws[..i], B) ==> AllFit(ws[..i + 1], B)
  {
    var open, w := ws[first..i], ws[i];
    BytesAppend(open, w);
    MetaAppend(open, w);
    PackFromStep(open, ws[i..], B);
    hide Bytes, MetaOf, PackFrom, Put;
    assert ws[first..i + 1] == open + [w];
    assert ws[i..][1..] == ws[i + 1..];
    assert ws[..i + 1] == ws[..i] + [w];
  }

  /** The open bucket is the next one of the packing; the rest is what follows it. */
  lemma FlushFacts(ws: seq<Weight>, B: nat, first: nat, i: nat, P: nat)
    requires first <= i <= |ws| && P < |Pack(ws, B)| && AllFit(ws[..i], B)
    requires Pack(ws, B)[P..] == PackFrom(ws[first..i], ws[i..], B)
    requires i < |ws| ==> |Bytes(ws[first..i])| + |ws[i].1| > B
    ensures Pack(ws, B)[P] == ws[first..i] && ws[i..i] == [] && MetaOf([]) == [] && Bytes([]) == []
    ensures i == |ws| ==> P == |Pack(ws, B)| - 1 && AllFit(ws, B)
    ensures i < |ws| && |ws[i].1| > B ==> P == |Pack(ws, B)| - 1 && !AllFit(ws, B)
    ensures i < |ws| && |ws[i].1| <= B ==> P < |Pack(ws, B)| - 1 && Pack(ws, B)[P + 1..] == PackFrom([], ws[i..], B)
  {
    var open, rest := ws[first..i], ws[i..];
    assert Pack(ws, B)[P..][0] == Pack(ws, B)[P];
    if i < |ws| {
      assert rest[0] == ws[i];
      if |rest[0].1| <= B {
        PackFromStep(open, rest, B);
        hide PackFrom, Pack;
        assert Pack(ws, B)[P + 1..] == Pack(ws, B)[P..][1..];
      }
    } else {
      assert ws[..i] == ws && rest == [];
    }
  }

  /** A greedy packing, said without a loop: every weight once and in order, no bucket over the
      limit, and no bucket closed while its successor's first weight would still fit. */
  predicate IsGreedyPacking(bs: seq<seq<Weight>>, ws: seq<Weight>, B: nat) {
    && |bs| >= 1
    && Flatten(bs) == ws
    && (forall k :: 0 <= k < |bs| ==> |Bytes(bs[k])| <= B)
    && (forall k :: 0 < k < |bs| ==> bs[k] != [] && |Bytes(bs[k - 1])| + |bs[k][0].1| > B)
  }

  lemma {:induction false} PackFromIsGreedy(cur: seq<Weight>, rest: seq<Weight>, B: nat)
    requires AllFit(rest, B) && |Bytes(cur)| <= B
    ensures IsGreedyPacking(PackFrom(cur, rest, B), cur + rest, B)
    ensures cur <= PackFrom(cur, rest, B)[0]
    decreases |rest|
  {
    if rest == [] {
      assert PackFrom(cur, rest, B) == [cur] && Flatten([cur]) == cur + [];
    } else {
      var w := rest[0];
      BytesAppend(cur, w);
      PackFromStep(cur, rest, B);
      hide PackFrom, Bytes, IsGreedyPacking;
      if |Bytes(cur)| + |w.1| <= B {
        assert cur + [w] + rest[1..] == cur + rest;
        PackFromIsGreedy(cur + [w], rest[1..], B);
      } else {
        assert [w] + rest[1..] == rest;
        PackFromIsGreedy([w], rest[1..], B);
        assert PackFrom([w], rest[1..], B)[0][0] == w;
        GreedyCons(cur, rest, PackFrom([w], rest[1..], B), B);
      }
    }
  }

  lemma GreedyCons(cur: seq<Weight>, rest: seq<Weight>, tl: seq<seq<Weight>>, B: nat)
    requires IsGreedyPacking(tl, rest, B) && tl[0] != []
    requires |Bytes(cur)| <= B < |Bytes(cur)| + |tl[0][0].1|
    ensures IsGreedyPacking([cur] + tl, cur + rest, B)
  {
    hide Bytes;
    var bs := [cur] + tl;
    assert Flatten(bs) == cur + rest by { assert bs[1..] == tl; }
    hide Flatten;
    forall k | 0 < k < |bs| ensures bs[k] != [] && |Bytes(bs[k - 1])| + |bs[k][0].1| > B {
      assert bs[k] == tl[k - 1];
      if k > 1 {
        assert bs[k - 1] == tl[k - 2];
      }
    }
  }

  /** The greedy packing is unique, so the loop can compute no other. */
  lemma {:induction false} GreedyPackingUnique(cur: seq<Weight>, rest: seq<Weight>, bs: seq<seq<Weight>>, B: nat)
    requires AllFit(rest, B) && |Bytes(cur)| <= B
    requires IsGreedyPacking(bs, cur + rest, B) && cur <= bs[0]
    ensures bs == PackFrom(cur, rest, B)
    decreases |rest|
  {
    if rest == [] {
      OpenBucketIsLast(cur, bs, B);
    } else {
      var w := rest[0];
      BytesAppend(cur, w);
      PackFromStep(cur, rest, B);
      hide PackFrom, Bytes, Flatten;
      if cur == bs[0] {
        GreedyTail(cur, rest, bs, B);
        GreedyPackingUnique([w], rest[1..], bs[1..], B);
        assert bs == [cur] + bs[1..];
      } else {
        GreedyHead(cur, rest, bs, B);
        assert cur + [w] + rest[1..] == cur + rest;
        GreedyPackingUnique(cur + [w], rest[1..], bs, B);
      }
    }
  }

  lemma OpenBucketIsLast(cur: seq<Weight>, bs: seq<seq<Weight>>, B: nat)
    requires IsGreedyPacking(bs, cur + [], B) && cur <= bs[0]
    ensures bs == [cur]
  {
    var tl := bs[1..];
    assert Flatten(bs) == bs[0] + Flatten(tl);
    assert cur + [] == cur;
    assert tl == [];
    assert Flatten(bs) == bs[0];
    assert bs == [bs[0]];
  }

  /** When the open bucket is complete, the others pack the rest. */
  lemma GreedyTail(cur: seq<Weight>, rest: seq<Weight>, bs: seq<seq<Weight>>, B: nat)
    requires rest != [] && cur == (if |bs| > 0 then bs[0] else [])
    requires IsGreedyPacking(bs, cur + rest, B)
    ensures |bs| > 1 && IsGreedyPacking(bs[1..], [rest[0]] + rest[1..], B)
    ensures [rest[0]] <= bs[1] && |Bytes(cur)| + |rest[0].1| > B
  {
    var tl := bs[1..];
    assert Flatten(bs) == cur + Flatten(tl);
    assert Flatten(tl) == Flatten(bs)[|cur|..] == rest;
    assert |bs| > 1;
    assert tl[0] == bs[1];
    assert Flatten(tl) == tl[0] + Flatten(tl[1..]);
    assert rest[0] == tl[0][0];
    assert [rest[0]] + rest[1..] == rest;
    forall k | 0 <= k < |tl| ensures tl[k] == bs[k + 1] {}
  }

  /** When it is not, the next weight goes into it, and so fits. */
  lemma GreedyHead(cur: seq<Weight>, rest: seq<Weight>, bs: seq<seq<Weight>>, B: nat)
    requires rest != [] && IsGreedyPacking(bs, cur + rest, B) && cur < bs[0]
    ensures cur + [rest[0]] <= bs[0] && |Bytes(cur)| + |rest[0].1| <= B
  {
    assert Flatten(bs) == bs[0] + Flatten(bs[1..]);
    assert bs[0][|cur|] == (cur + rest)[|cur|] == rest[0];
    assert cur + [rest[0]] <= bs[0];
    PrefixBytes(cur + [rest[0]], bs[0]);
    BytesAppend(cur, rest[0]);
  }

  lemma {:induction false} PrefixBytes(a: seq<Weight>, b: seq<Weight>)
    requires a <= b
    ensures Bytes(a) <= Bytes(b)
  {
    if |a| < |b| {
      assert a <= b[..|b| - 1];
      PrefixBytes(a, b[..|b| - 1]);
      assert Bytes(b) == Bytes(b[..|b| - 1]) + b[|b| - 1].1;
    } else {
      assert a == b;
    }
  }

  /** The sender's loop computes the one greedy packing of its weights. */
  lemma PackCharacterised(ws: seq<Weight>, bs: seq<seq<Weight>>, B: nat)
    requires AllFit(ws, B)
    ensures bs == Pack(ws, B) <==> IsGreedyPacking(bs, ws, B)
  {
    assert [] + ws == ws;
    PackFromIsGreedy([], ws, B);
    if IsGreedyPacking(bs, ws, B) {
      assert |bs| == 1 ==> Flatten(bs[1..]) == [];
      GreedyPackingUnique([], ws, bs, B);
    }
  }

  /** The stream delivers exactly the weights sent iff no bucket repeats a name. */
  lemma {:induction false} DeliveredIsSent(bs: seq<seq<Weight>>)
    ensures |Delivered(bs)| <= |Flatten(bs)|
    ensures Delivered(bs) == Flatten(bs) <==> forall k :: 0 <= k < |bs| ==> DistinctNames(bs[k])
  {
    if bs != [] {
      var init, last := bs[..|bs| - 1], bs[|bs| - 1];
      DeliveredIsSent(init);
      ItemsAreWeights(last);
      FlattenAppend(init, last);
      assert bs == init + [last];
      if Delivered(bs) == Flatten(bs) {
        assert |Delivered(init)| == |Flatten(init)|;
        assert Delivered(bs)[..|Delivered(init)|] == Delivered(init);
        assert Flatten(bs)[..|Flatten(init)|] == Flatten(init);
        assert Delivered(bs)[|Delivered(init)|..] == Items(last);
        assert Flatten(bs)[|Flatten(init)|..] == last;
      }
      forall k | 0 <= k < |init| ensures init[k] == bs[k] {}
    }
  }

  lemma DeliveredNext(bs: seq<seq<Weight>>, c: nat)
    requires c < |bs|
    ensures Delivered(bs[..c + 1]) == Delivered(bs[..c]) + Items(bs[c])
  {
    assert bs[..c + 1][..c] == bs[..c];
  }

  lemma YieldedAll(bs: seq<seq<Weight>>, c: nat)
    requires c < |bs|
    ensures Delivered(bs[..c]) + Items(bs[c])[..|Items(bs[c])|] == Delivered(bs[..c + 1])
    ensures c == |bs| - 1 ==> Delivered(bs[..c + 1]) == Delivered(bs)
  {
    DeliveredNext(bs, c);
    assert Items(bs[c])[..|Items(bs[c])|] == Items(bs[c]);
    assert c == |bs| - 1 ==> bs[..c + 1] == bs;
  }

  /** No bucket exceeds the limit, whether or not the sender gets to the end. */
  lemma {:induction false} BucketsBounded(cur: seq<Weight>, rest: seq<Weight>, B: nat)
    requires |Bytes(cur)| <= B
    ensures forall k :: 0 <= k < |PackFrom(cur, rest, B)| ==> |Bytes(PackFrom(cur, rest, B)[k])| <= B
    decreases |rest|
  {
    if rest != [] {
      BytesAppend(cur, rest[0]);
      if |Bytes(cur)| + |rest[0].1| <= B {
        BucketsBounded(cur + [rest[0]], rest[1..], B);
      } else if |rest[0].1| <= B {
        PackFromStep(cur, rest, B);
        BucketsBounded([rest[0]], rest[1..], B);
      }
    }
  }

  /** Every prefix a reader has been given, bucket by bucket, is a prefix of the whole. */
  lemma {:induction false} DeliveredPrefix(bs: seq<seq<Weight>>, c: nat, k: nat)
    requires c < |bs| && k <= |Items(bs[c])|
    ensures Delivered(bs[..c]) + Items(bs[c])[..k] <= Delivered(bs)
    ensures Delivered(bs[..c + 1]) <= Delivered(bs)
    decreases |bs|
  {
    DeliveredNext(bs, c);
    if c + 1 < |bs| {
      DeliveredPrefix(bs[..|bs| - 1], c, k);
      assert bs[..|bs| - 1][..c] == bs[..c] && bs[..|bs| - 1][..c + 1] == bs[..c + 1];
    } else {
      assert bs[..c + 1] == bs;
    }
  }
}
