/** Distributing the layers of a model over pipeline stages. */
module PipelineShards {
  import opened Sequences

  /** IndexError stands for the empty search, on which the source takes the first of no candidates. */
  datatype Outcome = Ok(shards: seq<int>) | ValueError | IndexError

  type Candidate = (seq<int>, int)

  function Sum(xs: seq<int>): int {
    if xs == [] then 0 else Sum(xs[..|xs| - 1]) + xs[|xs| - 1]
  }

  /** ceil(l / p): no stage can be smaller than this in every distribution. */
  function Ceil(l: int, p: int): (c: int)
    requires p > 0
  {
    (l + p - 1) / p
  }

  lemma {:induction false} SumAppend(xs: seq<int>, ys: seq<int>)
    ensures Sum(xs + ys) == Sum(xs) + Sum(ys)
  {
    if ys == [] {
      assert xs + ys == xs;
    } else {
      var k := |ys| - 1;
      SumAppend(xs, ys[..k]);
      assert (xs + ys)[..|xs| + k] == xs + ys[..k];
    }
  }

  lemma {:induction false} SumCopies(n: nat, x: int)
    ensures Sum(Copies(n, x)) == n * x
  {
    if n > 0 {
      SumCopies(n - 1, x);
      assert Copies(n, x)[..n - 1] == Copies(n - 1, x);
    }
  }

  /** First stage, equal middle stages, last stage. */
  function Split(l: int, p: int, m: int): (s: seq<int>)
    requires p >= 2
  {
    var ends := l - m * (p - 2);
    [ends / 2] + Copies(p - 2, m) + [ends - ends / 2]
  }

  predicate Accepts(l: int, p: int, m: int)
    requires p >= 2
  {
    var ends := l - m * (p - 2);
    0 < ends / 2 <= m && 0 < ends - ends / 2 <= m
  }

  function Spread(l: int, p: int, m: int): int
    requires p >= 2
  {
    m - (l - m * (p - 2)) / 2
  }

  lemma SplitSums(l: int, p: int, m: int)
    requires p >= 2
    ensures Sum(Split(l, p, m)) == l && |Split(l, p, m)| == p
  {
    var ends := l - m * (p - 2);
    EndsSum(ends / 2, m, p - 2, ends - ends / 2);
  }

  lemma EndsSum(a: int, m: int, n: nat, b: int)
    ensures Sum([a] + Copies(n, m) + [b]) == a + n * m + b
  {
    SumCopies(n, m);
    SumAppend([a], Copies(n, m));
    SumAppend([a] + Copies(n, m), [b]);
    SumOne(a);
    SumOne(b);
  }

  /** All layers, equal middle stages, and the ends as even as can be, the odd layer last. */
  ghost predicate Even(xs: seq<int>, l: int, p: int, m: int) {
    && |xs| == p >= 2 && Sum(xs) == l
    && (forall i :: 0 < i < p - 1 ==> xs[i] == m)
    && xs[0] <= xs[p - 1] <= xs[0] + 1
  }

  /** There is one such distribution. */
  lemma SplitIsEven(l: int, p: int, m: int, xs: seq<int>)
    requires p >= 2
    ensures Even(xs, l, p, m) <==> xs == Split(l, p, m)
  {
    hide Sum;
    SplitSums(l, p, m);
    assert forall i :: 0 < i < p - 1 ==> Split(l, p, m)[i] == m;
    if Even(xs, l, p, m) {
      assert xs == [xs[0]] + Copies(p - 2, m) + [xs[p - 1]];
      EndsSum(xs[0], m, p - 2, xs[p - 1]);
      HalfOfEnds(xs[0], xs[p - 1], l - m * (p - 2));
    }
  }

  lemma HalfOfEnds(a: int, b: int, ends: int)
    requires a + b == ends && a <= b <= a + 1
    ensures a == ends / 2 && b == ends - ends / 2
  {
  }

  lemma SumOne(x: int)
    ensures Sum([x]) == x
  {
    assert [x][..0] == [];
  }

  lemma CeilIs(l: int, p: int, m: int)
    requires p > 0
    ensures m >= Ceil(l, p) <==> l <= m * p
  {
    var c := Ceil(l, p);
    assert l <= c * p < l + p;
    if m >= c {
      Times(c, m, p);
    } else {
      Times(m + 1, c, p);
    }
  }

  lemma Times(a: int, b: int, p: int)
    requires a <= b && p >= 0
    ensures a * p <= b * p
  {
  }

  /** A middle size is accepted between ceil(l / p) and what leaves two layers for the ends. */
  lemma AcceptedRange(l: int, p: int, m: int)
    requires p >= 3
    ensures Accepts(l, p, m) <==> Ceil(l, p) <= m && m * (p - 2) + 2 <= l
  {
    CeilIs(l, p, m);
    assert m * p == m * (p - 2) + 2 * m;
  }

  /** Larger middles spread more. */
  lemma SpreadGrows(l: int, p: int, a: int, b: int)
    requires p >= 3 && a < b
    ensures Spread(l, p, a) < Spread(l, p, b)
  {
    Times(a, b, p - 2);
  }

  /** `sorted(candidates, key=...)[0]`: the first of those with the smallest key. */
  method FirstSmallest(cands: seq<Candidate>) returns (best: nat)
    requires cands != []
    ensures best < |cands|
    ensures forall i :: 0 <= i < |cands| ==> cands[best].1 <= cands[i].1
    ensures forall i :: 0 <= i < best ==> cands[best].1 < cands[i].1
  {
    best := 0;
    for i := 1 to |cands|
      invariant best < i
      invariant forall j :: 0 <= j < i ==> cands[best].1 <= cands[j].1
      invariant forall j :: 0 <= j < best ==> cands[best].1 < cands[j].1
    {
      if cands[i].1 < cands[best].1 {
        best := i;
      }
    }
  }

  /** What the search gathers below `upto`. */
  function Gathered(l: int, p: int, upto: nat): seq<Candidate>
    requires p >= 2
  {
    if upto == 0 then []
    else Gathered(l, p, upto - 1) + if Accepts(l, p, upto - 1) then [(Split(l, p, upto - 1), Spread(l, p, upto - 1))] else []
  }

  lemma {:induction false} GatheredFrom(l: int, p: int, upto: nat, i: nat) returns (m: nat)
    requires p >= 2 && i < |Gathered(l, p, upto)|
    ensures m < upto && Accepts(l, p, m) && Gathered(l, p, upto)[i] == (Split(l, p, m), Spread(l, p, m))
  {
    hide Split, Spread, Accepts;
    if i < |Gathered(l, p, upto - 1)| {
      m := GatheredFrom(l, p, upto - 1, i);
    } else {
      m := upto - 1;
    }
  }

  lemma {:induction false} GatheredHas(l: int, p: int, upto: nat, m: nat) returns (i: nat)
    requires p >= 2 && m < upto && Accepts(l, p, m)
    ensures i < |Gathered(l, p, upto)| && Gathered(l, p, upto)[i] == (Split(l, p, m), Spread(l, p, m))
  {
    hide Split, Spread, Accepts;
    if m < upto - 1 {
      i := GatheredHas(l, p, upto - 1, m);
    } else {
      i := |Gathered(l, p, m)|;
    }
  }

  /** The smallest candidate is the one with middle size ceil(l / p). */
  lemma BestIsCeil(l: int, p: int, best: nat)
    requires p >= 3 && l >= p && best < |Gathered(l, p, l)|
    requires forall i :: 0 <= i < |Gathered(l, p, l)| ==> Gathered(l, p, l)[best].1 <= Gathered(l, p, l)[i].1
    ensures Accepts(l, p, Ceil(l, p)) && Gathered(l, p, l)[best].0 == Split(l, p, Ceil(l, p))
  {
    hide Split, Spread, Accepts, Ceil, Gathered;
    var c := Ceil(l, p);
    var m := GatheredFrom(l, p, l, best);
    AcceptedRange(l, p, m);
    AcceptedRange(l, p, c);
    CeilIs(l, p, 0);
    Times(c, m, p - 2);
    if m != c {
      var i := GatheredHas(l, p, l, c);
      SpreadGrows(l, p, c, m);
    }
  }

  lemma NoCandidates(l: int, p: int)
    requires p >= 3 && l >= p && Gathered(l, p, l) == []
    ensures Ceil(l, p) * (p - 2) + 2 > l
  {
    hide Split, Spread, Accepts, Ceil, Gathered;
    var c := Ceil(l, p);
    AcceptedRange(l, p, c);
    CeilBelow(l, p);
    if Accepts(l, p, c) {
      var i := GatheredHas(l, p, l, c);
    }
  }

  lemma CeilBelow(l: int, p: int)
    requires p >= 3 && l >= p
    ensures 0 < Ceil(l, p) < l
  {
    CeilIs(l, p, 0);
    CeilIs(l, p, l - 1);
    assert (l - 1) * p >= (l - 1) * 3 by { TimesRight(l - 1, 3, p); }
  }

  lemma TimesRight(x: int, a: int, b: int)
    requires x >= 0 && a <= b
    ensures x * a <= x * b
  {
  }

  /** `get_dynamic_pipeline_shards`.  With three or more stages it succeeds exactly when ceil(l / p)
      layers in every middle stage leave two for the ends, and then uses that size. */
  method GetDynamicPipelineShards(l: int, p: int) returns (r: Outcome)
    ensures r.ValueError? <==> l < p || p < 1
    ensures l >= p >= 3 ==> (r.Ok? <==> Ceil(l, p) * (p - 2) + 2 <= l)
    ensures l >= p >= 1 && p < 3 ==> r.Ok?
    ensures r.Ok? ==> r.shards == if p == 1 then [l] else Split(l, p, Ceil(l, p))
    ensures r.Ok? && p >= 2 ==> Even(r.shards, l, p, Ceil(l, p))
  {
    hide Even;
    if p >= 2 {
      SplitIsEven(l, p, Ceil(l, p), Split(l, p, Ceil(l, p)));
    }
    if l < p {
      return ValueError;
    }
    if p < 1 {
      return ValueError;
    }
    if p == 1 {
      return Ok([l]);
    }
    if p == 2 {
      assert Split(l, 2, Ceil(l, 2)) == [l / 2, l - l / 2];
      return Ok([l / 2, l - l / 2]);
    }
    hide Ceil, Gathered;
    var middle := p - 2;
    var cands: seq<Candidate> := [];
    assert Gathered(l, p, 0) == [] by { GatheredNone(l, p); }
    for m := 0 to l
      invariant cands == Gathered(l, p, m)
    {
      GatheredNext(l, p, m);
      var ends := l - m * middle;
      var first := ends / 2;
      var last := ends - ends / 2;
      if 0 < first <= m && 0 < last <= m {
        var diff := if first - m < 0 then m - first else first - m;
        cands := cands + [([first] + Copies(middle, m) + [last], diff)];
      }
    }
    if cands == [] {
      NoCandidates(l, p);
      return IndexError;
    }
    var best := FirstSmallest(cands);
    BestIsCeil(l, p, best);
    AcceptedRange(l, p, Ceil(l, p));
    return Ok(cands[best].0);
  }

  lemma GatheredNone(l: int, p: int)
    requires p >= 2
    ensures Gathered(l, p, 0) == []
  {
  }

  lemma GatheredNext(l: int, p: int, m: nat)
    requires p >= 3
    ensures Gathered(l, p, m + 1) ==
            Gathered(l, p, m) + if Accepts(l, p, m) then [(Split(l, p, m), Spread(l, p, m))] else []
  {
  }

  // ---- what a result is worth --------------------------------------------------------------

  ghost predicate Distributes(xs: seq<int>, l: int, p: int) {
    |xs| == p && Sum(xs) == l
  }

  lemma {:induction false} SumBound(xs: seq<int>, m: int)
    requires forall i :: 0 <= i < |xs| ==> xs[i] <= m
    ensures Sum(xs) <= |xs| * m
  {
    if xs != [] {
      SumBound(xs[..|xs| - 1], m);
    }
  }

  /** A largest entry. */
  lemma {:induction false} LargestAt(xs: seq<int>) returns (j: nat)
    requires xs != []
    ensures j < |xs| && forall i :: 0 <= i < |xs| ==> xs[i] <= xs[j]
  {
    j := 0;
    if |xs| > 1 {
      var k := LargestAt(xs[..|xs| - 1]);
      j := if xs[k] < xs[|xs| - 1] then |xs| - 1 else k;
    }
  }

  /** Any distribution of l layers over p stages has a stage of at least ceil(l / p) layers. */
  lemma SomeStageLarge(xs: seq<int>, l: int, p: int)
    requires p > 0 && Distributes(xs, l, p)
    ensures exists i :: 0 <= i < p && xs[i] >= Ceil(l, p)
  {
    var j := LargestAt(xs);
    SumBound(xs, xs[j]);
    CeilIs(l, p, xs[j]);
  }

  /** A result has one positive entry per stage and distributes all layers, and its largest stage is
      as small as in any distribution. */
  lemma ResultOptimal(l: int, p: int, xs: seq<int>, other: seq<int>)
    requires l >= p >= 1
    requires p >= 3 ==> Ceil(l, p) * (p - 2) + 2 <= l
    requires xs == if p == 1 then [l] else Split(l, p, Ceil(l, p))
    requires Distributes(other, l, p)
    ensures Distributes(xs, l, p) && forall i :: 0 <= i < p ==> xs[i] > 0
    ensures exists j :: 0 <= j < p && forall i :: 0 <= i < p ==> xs[i] <= other[j]
  {
    var c := Ceil(l, p);
    SomeStageLarge(other, l, p);
    var j :| 0 <= j < p && other[j] >= c;
    if p == 1 {
      SumOne(l);
    } else {
      SplitSums(l, p, c);
      CeilIs(l, p, c);
      CeilIs(l, p, 0);
      if p >= 3 {
        AcceptedRange(l, p, c);
      }
    }
    assert forall i :: 0 <= i < p ==> xs[i] <= c;
  }

  /** Five layers on four stages: a distribution exists, the search finds none. */
  lemma SearchMissesFiveOnFour()
    ensures Ceil(5, 4) * (4 - 2) + 2 > 5
    ensures Distributes([1, 2, 1, 1], 5, 4)
  {
    assert [1, 2, 1, 1] == [1, 2, 1] + [1] && [1, 2, 1] == [1, 2] + [1] && [1, 2] == [1] + [2];
    SumAppend([1, 2, 1], [1]);
    SumAppend([1, 2], [1]);
    SumAppend([1], [2]);
    SumOne(1);
    SumOne(2);
  }
}
