/** On the rows that the datasets build and the plugin emits, pattern matching recovers the latent
    mask: exactly when the row does not end inside the latent part of a block. */
module LatentRows {
  import opened Latent
  import opened LatentExpand
  import opened LatentMask
  import opened LatentPlugin
  import opened Sequences

  /** The open literal cannot begin inside the close literal, whatever follows it. */
  predicate NeverBegins(close: seq<int>, open: seq<int>) {
    forall p :: 0 <= p < |close| ==> Clash(close[p..], open)
  }

  predicate Clash(a: seq<int>, b: seq<int>) {
    exists q :: 0 <= q < |a| && q < |b| && a[q] != b[q]
  }

  predicate Unambiguous(c: Config) {
    c.Usable() && c.K >= 1 && c.sentinel !in c.open && NeverBegins(c.close, c.open)
  }

  ghost predicate Stretches(c: Config, ss: seq<seq<int>>) {
    forall k :: 0 <= k < |ss| ==> EndsFirst(c.open, ss[k])
  }

  /** Some block's open literal starts at i. */
  predicate OpensAt(c: Config, ss: seq<seq<int>>, i: int) {
    ss != [] &&
    var n := |ss| - 1;
    (i + |c.open| == |Blocks(c, ss[..n])| + |ss[n]| || OpensAt(c, ss[..n], i))
  }

  lemma Mismatch(open: seq<int>, xs: seq<int>, i: nat, q: nat)
    requires q < |open| && i + q < |xs| && xs[i + q] != open[q]
    ensures !Occurs(open, xs, i)
  {
    if i + |open| <= |xs| {
      assert xs[i..i + |open|][q] == xs[i + q];
    }
  }

  lemma OccursShifted(open: seq<int>, a: seq<int>, b: seq<int>, d: seq<int>, i: nat)
    requires i + |open| <= |b|
    ensures Occurs(open, a + b + d, |a| + i) <==> Occurs(open, b, i)
  {
    assert (a + b + d)[|a| + i..|a| + i + |open|] == b[i..i + |open|];
  }

  lemma BlockTokens(c: Config, a: seq<int>, s: seq<int>, d: seq<int>, t: nat)
    requires t < |BlockOf(c, s)|
    ensures var token := (a + BlockOf(c, s) + d)[|a| + t];
            && (|s| <= t < |s| + c.K ==> token == c.sentinel)
            && (|s| + c.K <= t ==> token == c.close[t - |s| - c.K])
  {
  }

  /** Within one block, followed by anything, the open literal occurs only where it should. */
  lemma OpenInBlock(c: Config, a: seq<int>, s: seq<int>, d: seq<int>, i: nat)
    requires Unambiguous(c) && EndsFirst(c.open, s)
    requires i < |BlockOf(c, s)| && i + |c.open| != |s|
    ensures !Occurs(c.open, a + BlockOf(c, s) + d, |a| + i)
  {
    var xs := a + BlockOf(c, s) + d;
    hide Occurs;
    if i + |c.open| < |s| {
      assert xs == a + s + (Copies(c.K, c.sentinel) + c.close + d);
      OccursShifted(c.open, a, s, Copies(c.K, c.sentinel) + c.close + d, i);
    } else if i < |s| + c.K {
      var t := if i < |s| then |s| else i;
      BlockTokens(c, a, s, d, t);
      Mismatch(c.open, xs, |a| + i, t - i);
    } else {
      var p := i - |s| - c.K;
      assert Clash(c.close[p..], c.open);
      var q :| 0 <= q < |c.close[p..]| && q < |c.open| && c.close[p..][q] != c.open[q];
      BlockTokens(c, a, s, d, i + q);
      Mismatch(c.open, xs, |a| + i, q);
    }
  }

  /** Over whole blocks followed by anything: every occurrence starts a block. */
  lemma {:induction false} OpenInBlocks(c: Config, ss: seq<seq<int>>, d: seq<int>, i: nat)
    requires Unambiguous(c) && Stretches(c, ss)
    requires i < |Blocks(c, ss)| && Occurs(c.open, Blocks(c, ss) + d, i)
    ensures OpensAt(c, ss, i)
    decreases |ss|
  {
    var n := |ss| - 1;
    var a, b := Blocks(c, ss[..n]), BlockOf(c, ss[n]);
    hide Occurs, EndsFirst, BlockOf;
    if i < |a| {
      assert a + b + d == a + (b + d);
      OpenInBlocks(c, ss[..n], b + d, i);
    } else if i - |a| + |c.open| != |ss[n]| {
      OpenInBlock(c, a, ss[n], d, i - |a|);
    }
  }

  lemma OpensAtCases(c: Config, ss: seq<seq<int>>, i: nat)
    requires Stretches(c, ss) && OpensAt(c, ss, i)
    ensures ss != []
    ensures var n := |ss| - 1;
            && Blocks(c, ss) == Blocks(c, ss[..n]) + BlockOf(c, ss[n])
            && Stretches(c, ss[..n]) && EndsFirst(c.open, ss[n])
            && (i + |c.open| == |Blocks(c, ss[..n])| + |ss[n]| || OpensAt(c, ss[..n], i))
  {
  }

  /** A block start is a match, */
  lemma {:induction false} OpensIsMatch(c: Config, ss: seq<seq<int>>, d: seq<int>, i: nat)
    requires c.Usable() && Stretches(c, ss) && OpensAt(c, ss, i)
    ensures Match(c, Blocks(c, ss) + d, i) && i + Span(c) <= |Blocks(c, ss)|
    decreases |ss|
  {
    hide *;
    OpensAtCases(c, ss, i);
    var n := |ss| - 1;
    var a, b := Blocks(c, ss[..n]), BlockOf(c, ss[n]);
    Regroup(a, b, [], d);
    if i + |c.open| == |a| + |ss[n]| {
      BlockIsMatch(c, a, ss[n], d);
    } else {
      OpensIsMatch(c, ss[..n], b + d, i);
    }
  }

  /** and its latent positions are masked. */
  lemma {:induction false} OpensIsMasked(c: Config, ss: seq<seq<int>>, i: nat, j: nat)
    requires c.Usable() && Stretches(c, ss) && OpensAt(c, ss, i) && Inside(c, i, j)
    ensures j < |Blocks(c, ss)| && BlocksMask(c, ss)[j]
    decreases |ss|
  {
    var n := |ss| - 1;
    OpensIsMatch(c, ss, [], i);
    if i + |c.open| == |Blocks(c, ss[..n])| + |ss[n]| {
      BlockIsMatch(c, Blocks(c, ss[..n]), ss[n], []);
    } else {
      OpensIsMasked(c, ss[..n], i, j);
    }
  }

  lemma BlockIsMatch(c: Config, a: seq<int>, s: seq<int>, d: seq<int>)
    requires c.Usable() && EndsFirst(c.open, s)
    ensures var i := |a| + |s| - |c.open|;
            && i >= 0 && Match(c, a + BlockOf(c, s) + d, i) && i + Span(c) == |a + BlockOf(c, s)|
            && forall j :: Inside(c, i, j) ==> BlockMask(c, s)[j - |a|]
  {
    var xs, i := a + BlockOf(c, s) + d, |a| + |s| - |c.open|;
    assert xs[i..i + |c.open|] == s[|s| - |c.open|..] == c.open;
    assert xs[i + |c.open| + c.K..i + Span(c)] == c.close;
  }

  /** And conversely, every masked position belongs to a block start. */
  lemma {:induction false} MaskedOpens(c: Config, ss: seq<seq<int>>, j: nat) returns (i: nat)
    requires c.Usable() && Stretches(c, ss) && j < |Blocks(c, ss)| && BlocksMask(c, ss)[j]
    ensures OpensAt(c, ss, i) && Inside(c, i, j)
    decreases |ss|
  {
    var n := |ss| - 1;
    var a := Blocks(c, ss[..n]);
    if j < |a| {
      i := MaskedOpens(c, ss[..n], j);
    } else {
      assert BlockMask(c, ss[n])[j - |a|];
      i := |a| + |ss[n]| - |c.open|;
    }
  }

  /** Every match in a row starts a complete block. */
  lemma MatchOpens(c: Config, ids: seq<int>, mask: seq<bool>, p: Parse, i: nat)
    requires Unambiguous(c) && Parses(c, ids, mask, p) && Match(c, ids, i)
    ensures OpensAt(c, p.ss, i)
  {
    var a := Blocks(c, p.ss);
    assert Occurs(c.open, ids, i);
    hide Blocks, BlocksMask, BlockMask, OpensAt;
    if i < |a| {
      OpenInBlocks(c, p.ss, p.tail, i);
    } else if p.cut {
      TailGrows(c, a, p.tail, p.s, i - |a|);
    } else {
      assert ids == a + p.tail + [];
      MatchOccurs(c, ids, i);
      OccursShifted(c.open, a, p.tail, [], i - |a|);
    }
  }

  lemma MatchOccurs(c: Config, ids: seq<int>, i: nat)
    requires Match(c, ids, i)
    ensures Occurs(c.open, ids, i) && i + |c.open| <= |ids|
  {
  }

  /** A cut block has no match: its only open literal lacks the rest of the block. */
  lemma TailGrows(c: Config, a: seq<int>, tail: seq<int>, s: seq<int>, i: nat)
    requires Unambiguous(c) && EndsFirst(c.open, s) && tail < BlockOf(c, s)
    ensures !Match(c, a + tail, |a| + i)
  {
    var b := BlockOf(c, s);
    if i + |c.open| != |s| && i < |b| && |a| + i + Span(c) <= |a + tail| {
      assert (a + b + [])[|a| + i..|a| + i + |c.open|] == (a + tail)[|a| + i..|a| + i + |c.open|];
      OpenInBlock(c, a, s, [], i);
    }
  }

  /** What the training forward rebuilds on a row: the masks of the complete blocks. */
  lemma RowCovered(c: Config, ids: seq<int>, mask: seq<bool>, p: Parse, j: nat)
    requires Unambiguous(c) && Parses(c, ids, mask, p) && j < |ids|
    ensures Covered(c, ids, j) <==> j < |Blocks(c, p.ss)| && BlocksMask(c, p.ss)[j]
  {
    hide OpensAt, Blocks, BlocksMask, Match, EndsFirst, BlockOf, BlockMask;
    if Covered(c, ids, j) {
      var i: nat :| Match(c, ids, i) && Inside(c, i, j);
      MatchOpens(c, ids, mask, p, i);
      ParsesParts(c, ids, mask, p);
      OpensIsMasked(c, p.ss, i, j);
    }
    if j < |Blocks(c, p.ss)| && BlocksMask(c, p.ss)[j] {
      var i := MaskedOpens(c, p.ss, j);
      OpensIsMatch(c, p.ss, p.tail, i);
    }
  }

  /** The row ends after a block's first latent position and before the end of its close literal. */
  predicate CutInside(p: Parse) {
    p.cut && |p.tail| > |p.s|
  }

  /** Mask agreement: the rebuilt mask is the true one exactly when the row is not cut inside a
      block's forced part. */
  lemma MaskAgreement(c: Config, ids: seq<int>, mask: seq<bool>, p: Parse)
    requires Unambiguous(c) && Parses(c, ids, mask, p)
    ensures |mask| == |ids|
    ensures (forall j: nat :: j < |ids| ==> (Covered(c, ids, j) <==> mask[j])) <==> !CutInside(p)
  {
    var n := |Blocks(c, p.ss)|;
    hide Blocks, BlocksMask, Covered, EndsFirst, Free;
    forall j: nat | j < |ids| ensures Covered(c, ids, j) <==> j < n && BlocksMask(c, p.ss)[j] {
      RowCovered(c, ids, mask, p, j);
    }
    if p.cut {
      assert forall j: nat :: n <= j < |ids| ==> mask[j] == BlockMask(c, p.s)[j - n];
      if |p.tail| > |p.s| {
        assert mask[n + |p.s|];
      }
    }
  }

  // ---- the scan of the agent loops ---------------------------------------------------------

  /** Block starts lie at least a whole block apart. */
  lemma {:induction false} OpensApart(c: Config, ss: seq<seq<int>>, i: nat, j: nat)
    requires c.Usable() && Stretches(c, ss) && OpensAt(c, ss, i) && OpensAt(c, ss, j) && i < j
    ensures i + Span(c) <= j
    decreases |ss|
  {
    var n := |ss| - 1;
    if OpensAt(c, ss[..n], i) {
      OpensIsMatch(c, ss[..n], [], i);
      if OpensAt(c, ss[..n], j) {
        OpensApart(c, ss[..n], i, j);
      }
    } else if OpensAt(c, ss[..n], j) {
      OpensIsMatch(c, ss[..n], [], j);
    }
  }

  /** When matches lie a block apart, jumping over each loses none. */
  lemma {:induction false} ScanFindsAll(c: Config, ids: seq<int>, i: nat, j: int)
    requires c.Usable()
    requires forall s: nat, m: nat :: Match(c, ids, s) && Match(c, ids, m) && s < m ==> s + Span(c) <= m
    ensures ScanCovers(c, ids, i, j) <==> exists s: nat :: i <= s && Match(c, ids, s) && Inside(c, s, j)
    decreases |ids| - i
  {
    MatchFits(c, ids);
    ScanStep(c, ids, i);
    hide Match, ScanCovers;
    if i + Span(c) <= |ids| {
      if Match(c, ids, i) {
        ScanFindsAll(c, ids, i + Span(c), j);
      } else {
        ScanFindsAll(c, ids, i + 1, j);
      }
    }
  }

  lemma {:induction false} MaskedIsSentinel(c: Config, ss: seq<seq<int>>, j: nat)
    requires j < |Blocks(c, ss)| && BlocksMask(c, ss)[j]
    ensures Blocks(c, ss)[j] == c.sentinel
    decreases |ss|
  {
    var n := |ss| - 1;
    if j < |Blocks(c, ss[..n])| {
      MaskedIsSentinel(c, ss[..n], j);
    }
  }

  lemma RowMasked(c: Config, ids: seq<int>, mask: seq<bool>, p: Parse, j: nat)
    requires Parses(c, ids, mask, p) && j < |ids|
    ensures |mask| == |ids| && (mask[j] ==> ids[j] == c.sentinel)
  {
    var n := |Blocks(c, p.ss)|;
    if j < n {
      assert mask[j] == BlocksMask(c, p.ss)[j] && ids[j] == Blocks(c, p.ss)[j];
      if mask[j] {
        MaskedIsSentinel(c, p.ss, j);
      }
    } else if p.cut {
      assert mask[j] == BlockMask(c, p.s)[j - n] && ids[j] == BlockOf(c, p.s)[j - n];
    }
  }

  /** The zeros of the response mask are the sentinel tokens, so they are the true latent positions,
      cut block included, exactly when no sentinel was sampled freely. */
  lemma ResponseZeros(c: Config, ids: seq<int>, mask: seq<bool>, p: Parse, zero: seq<bool>)
    requires Unambiguous(c) && Parses(c, ids, mask, p) && |zero| == |ids|
    requires forall j :: 0 <= j < |ids| ==> zero[j] == (ids[j] == c.sentinel || ScanCovers(c, ids, 0, j))
    ensures forall j :: 0 <= j < |ids| ==> zero[j] == (ids[j] == c.sentinel)
    ensures zero == mask <==> forall j :: 0 <= j < |ids| && ids[j] == c.sentinel ==> mask[j]
  {
    hide Parses, ScanCovers, Match;
    forall s: nat, m: nat | Match(c, ids, s) && Match(c, ids, m) && s < m ensures s + Span(c) <= m {
      MatchOpens(c, ids, mask, p, s);
      MatchOpens(c, ids, mask, p, m);
      ParsesParts(c, ids, mask, p);
      OpensApart(c, p.ss, s, m);
    }
    forall j: nat | j < |ids| ensures |mask| == |ids| && (mask[j] ==> ids[j] == c.sentinel)
    {
      RowMasked(c, ids, mask, p, j);
    }
    forall j: nat | j < |ids| ensures ScanCovers(c, ids, 0, j) ==> ids[j] == c.sentinel {
      ScanFindsAll(c, ids, 0, j);
      RowCovered(c, ids, mask, p, j);
      ParsesParts(c, ids, mask, p);
      if ScanCovers(c, ids, 0, j) {
        MaskedIsSentinel(c, p.ss, j);
      }
    }
    MaskLength(c, ids, mask, p);
  }

  lemma ParsesParts(c: Config, ids: seq<int>, mask: seq<bool>, p: Parse)
    requires Parses(c, ids, mask, p)
    ensures Stretches(c, p.ss) && ids == Blocks(c, p.ss) + p.tail
  {
  }

  lemma MaskLength(c: Config, ids: seq<int>, mask: seq<bool>, p: Parse)
    requires Parses(c, ids, mask, p)
    ensures |mask| == |ids|
  {
  }

  // ---- the training expansion on rows ------------------------------------------------------

  lemma {:induction false} BlocksStartUnmasked(c: Config, ss: seq<seq<int>>)
    requires c.Usable() && Stretches(c, ss) && ss != []
    ensures |Blocks(c, ss)| > 0 && !BlocksMask(c, ss)[0]
    decreases |ss|
  {
    var n := |ss| - 1;
    if n == 0 {
      assert Blocks(c, ss[..0]) == [];
      assert !BlockMask(c, ss[0])[0];
    } else {
      BlocksStartUnmasked(c, ss[..n]);
    }
  }

  /** Rows never begin with a latent position, so the expansion's own assertion does not fire. */
  lemma RowsStartUnmasked(c: Config, ids: seq<int>, mask: seq<bool>, p: Parse)
    requires c.Usable() && Parses(c, ids, mask, p) && ids != []
    ensures |mask| == |ids| && !mask[0]
  {
    MaskLength(c, ids, mask, p);
    if p.ss != [] {
      BlocksStartUnmasked(c, p.ss);
    }
  }

  // ---- truncation --------------------------------------------------------------------------

  lemma FreePrefix(open: seq<int>, xs: seq<int>, n: nat)
    requires open != [] && n <= |xs| && (Free(open, xs) || (EndsFirst(open, xs) && n < |xs|))
    ensures Free(open, xs[..n])
  {
    forall i: nat ensures !Occurs(open, xs[..n], i) {
      if i + |open| <= n {
        assert xs[..n][i..i + |open|] == xs[i..i + |open|];
        assert !Occurs(open, xs, i);
      }
    }
  }

  /** Position n lies after the first latent position of a block and before the block's end. */
  predicate CutsBlock(c: Config, ss: seq<seq<int>>, n: nat) {
    ss != [] &&
    var k := |ss| - 1;
    (|Blocks(c, ss[..k])| + |ss[k]| < n < |Blocks(c, ss)| || CutsBlock(c, ss[..k], n))
  }

  lemma {:induction false} PastBlocks(c: Config, ss: seq<seq<int>>, n: nat)
    requires |Blocks(c, ss)| <= n
    ensures !CutsBlock(c, ss, n)
    decreases |ss|
  {
    if ss != [] {
      PastBlocks(c, ss[..|ss| - 1], n);
    }
  }

  /** The row up to n tokens into one more block. */
  lemma CutBlock(c: Config, ss: seq<seq<int>>, s: seq<int>, n: nat) returns (p: Parse)
    requires c.Usable() && Stretches(c, ss) && EndsFirst(c.open, s) && n < |BlockOf(c, s)|
    ensures Parses(c, Blocks(c, ss) + BlockOf(c, s)[..n], BlocksMask(c, ss) + BlockMask(c, s)[..n], p)
    ensures CutInside(p) <==> |s| < n
  {
    var tail := BlockOf(c, s)[..n];
    if n < |s| {
      FreePrefix(c.open, s, n);
      assert tail == s[..n] && BlockMask(c, s)[..n] == Falses(n);
      p := Parse(ss, tail, false, []);
    } else {
      assert s <= tail;
      p := Parse(ss, tail, true, s);
    }
  }

  lemma TextEnds(c: Config, ss: seq<seq<int>>, tail: seq<int>, m: nat) returns (p: Parse)
    requires c.Usable() && Stretches(c, ss) && Free(c.open, tail) && m <= |tail|
    ensures Parses(c, Blocks(c, ss) + tail[..m], BlocksMask(c, ss) + Falses(|tail|)[..m], p)
    ensures !CutInside(p)
  {
    FreePrefix(c.open, tail, m);
    assert Falses(|tail|)[..m] == Falses(m);
    p := Parse(ss, tail[..m], false, []);
  }

  lemma NoBlocks(c: Config, ss: seq<seq<int>>)
    ensures ss == [] ==> Blocks(c, ss) == []
  {
  }

  /** Cutting a row anywhere leaves a row; it is cut inside a block's forced part exactly when the
      cut position is. */
  lemma {:induction false} RowTruncates(c: Config, ss: seq<seq<int>>, tail: seq<int>, n: nat) returns (p: Parse)
    requires c.Usable() && Stretches(c, ss) && Free(c.open, tail) && n <= |Blocks(c, ss) + tail|
    ensures Parses(c, (Blocks(c, ss) + tail)[..n], (BlocksMask(c, ss) + Falses(|tail|))[..n], p)
    ensures CutInside(p) <==> CutsBlock(c, ss, n)
    decreases |ss|
  {
    hide BlockOf, BlockMask, EndsFirst, Blocks, BlocksMask, Parses, CutInside;
    var a, am := Blocks(c, ss), BlocksMask(c, ss);
    if |a| <= n {
      assert (a + tail)[..n] == a + tail[..n - |a|];
      assert (am + Falses(|tail|))[..n] == am + Falses(|tail|)[..n - |a|];
      p := TextEnds(c, ss, tail, n - |a|);
      PastBlocks(c, ss, n);
    } else {
      assert ss != [] by { NoBlocks(c, ss); }
      var k := |ss| - 1;
      var b, bm, s := Blocks(c, ss[..k]), BlocksMask(c, ss[..k]), ss[k];
      assert (a + tail)[..n] == a[..n] && (am + Falses(|tail|))[..n] == am[..n];
      BlocksAppend(c, ss[..k], s);
      assert ss == ss[..k] + [s];
      if |b| <= n {
        assert a[..n] == b + BlockOf(c, s)[..n - |b|] && am[..n] == bm + BlockMask(c, s)[..n - |b|];
        p := CutBlock(c, ss[..k], s, n - |b|);
        PastBlocks(c, ss[..k], n);
      } else {
        assert a[..n] == (b + [])[..n] && am[..n] == (bm + Falses(0))[..n];
        NothingOccurs(c.open);
        p := RowTruncates(c, ss[..k], [], n);
      }
    }
  }

  // ---- joining rows ------------------------------------------------------------------------

  lemma BlockAfterText(c: Config, tail: seq<int>, s: seq<int>)
    ensures tail + BlockOf(c, s) == BlockOf(c, tail + s)
    ensures Falses(|tail|) + BlockMask(c, s) == BlockMask(c, tail + s)
  {
  }

  lemma PrefixAfter<T>(t: seq<T>, x: seq<T>, y: seq<T>)
    requires x <= y
    ensures t + x <= t + y && (t + y)[..|t + x|] == t + x
  {
  }

  /** Blocks after text: the text joins the first stretch. */
  lemma {:induction false} BlocksJoin(c: Config, ss: seq<seq<int>>, tail: seq<int>, ss': seq<seq<int>>) returns (all: seq<seq<int>>)
    requires Stretches(c, ss) && Stretches(c, ss') && ss' != [] && EndsFirst(c.open, tail + ss'[0])
    ensures Stretches(c, all) && all != []
    ensures Blocks(c, all) == Blocks(c, ss) + tail + Blocks(c, ss')
    ensures BlocksMask(c, all) == BlocksMask(c, ss) + Falses(|tail|) + BlocksMask(c, ss')
    decreases |ss'|
  {
    hide EndsFirst, BlockOf, BlockMask, Blocks, BlocksMask;
    var k := |ss'| - 1;
    var init, s := ss'[..k], ss'[k];
    assert ss' == init + [s];
    BlocksAppend(c, init, s);
    if k == 0 {
      all := ss + [tail + s];
      BlockAfterText(c, tail, s);
      BlocksAppend(c, ss, tail + s);
      OneBlock(c, s);
      Regroup(Blocks(c, ss), tail, [], BlockOf(c, s));
      Regroup(BlocksMask(c, ss), Falses(|tail|), [], BlockMask(c, s));
    } else {
      var joined := BlocksJoin(c, ss, tail, init);
      all := joined + [s];
      BlocksAppend(c, joined, s);
      Regroup(Blocks(c, ss) + tail, Blocks(c, init), [], BlockOf(c, s));
      Regroup(BlocksMask(c, ss) + Falses(|tail|), BlocksMask(c, init), [], BlockMask(c, s));
    }
  }

  lemma OneBlock(c: Config, s: seq<int>)
    ensures Blocks(c, []) + BlockOf(c, s) == BlockOf(c, s) && BlocksMask(c, []) + BlockMask(c, s) == BlockMask(c, s)
  {
  }

  /** A row's end: free text, or the beginning of a block. */
  ghost predicate IsTail(c: Config, tail: seq<int>, cut: bool, s: seq<int>, m: seq<bool>) {
    if cut then EndsFirst(c.open, s) && s <= tail < BlockOf(c, s) && m == BlockMask(c, s)[..|tail|]
    else Free(c.open, tail) && m == Falses(|tail|)
  }

  lemma ParsesSplit(c: Config, ids: seq<int>, mask: seq<bool>, p: Parse) returns (m: seq<bool>)
    requires Parses(c, ids, mask, p)
    ensures Stretches(c, p.ss) && ids == Blocks(c, p.ss) + p.tail
    ensures mask == BlocksMask(c, p.ss) + m && IsTail(c, p.tail, p.cut, p.s, m)
    ensures !p.cut ==> m == Falses(|p.tail|)
  {
    m := if p.cut then BlockMask(c, p.s)[..|p.tail|] else Falses(|p.tail|);
  }

  lemma ParsesMade(c: Config, p: Parse, m: seq<bool>)
    requires Stretches(c, p.ss) && IsTail(c, p.tail, p.cut, p.s, m)
    ensures Parses(c, Blocks(c, p.ss) + p.tail, BlocksMask(c, p.ss) + m, p)
  {
  }

  lemma Regroup<T>(x: seq<T>, t: seq<T>, y: seq<T>, z: seq<T>)
    ensures (x + t) + (y + z) == (x + t + y) + z
    ensures (x + t) + z == x + (t + z)
    ensures [] + z == z
  {
  }

  lemma TailAfterText(c: Config, text: seq<int>, tail: seq<int>, cut: bool, s: seq<int>, m: seq<bool>)
    requires IsTail(c, tail, cut, s, m)
    requires if cut then EndsFirst(c.open, text + s) else Free(c.open, text + tail)
    ensures IsTail(c, text + tail, cut, if cut then text + s else [], Falses(|text|) + m)
  {
    hide EndsFirst, Free, BlockOf, BlockMask;
    if cut {
      BlockAfterText(c, text, s);
      PrefixAfter(text, s, tail);
      PrefixAfter(text, tail, BlockOf(c, s));
      BlockShape(c, s, |s|);
      PrefixAfter(Falses(|text|), m, BlockMask(c, s));
    }
  }

  /** The text before a row's first open literal, or the row's only text. */
  function FirstStretch(p: Parse): seq<int> {
    if p.ss != [] then p.ss[0] else if p.cut then p.s else p.tail
  }

  /** Prompt and turn, turn and retrieved text: two rows make one when the first is not cut and no
      open literal begins in the text at the seam. */
  lemma RowsJoin(c: Config, a: seq<int>, am: seq<bool>, p: Parse, b: seq<int>, bm: seq<bool>, q: Parse) returns (r: Parse)
    requires c.Usable() && Parses(c, a, am, p) && !p.cut && Parses(c, b, bm, q)
    requires if q.ss == [] && !q.cut then Free(c.open, p.tail + q.tail) else EndsFirst(c.open, p.tail + FirstStretch(q))
    ensures Parses(c, a + b, am + bm, r) && r.cut == q.cut && (CutInside(r) <==> CutInside(q))
  {
    var mp := ParsesSplit(c, a, am, p);
    var mq := ParsesSplit(c, b, bm, q);
    assert q.ss == [] ==> Blocks(c, q.ss) == [] && BlocksMask(c, q.ss) == [];
    hide *;
    Regroup(Blocks(c, p.ss), p.tail, Blocks(c, q.ss), q.tail);
    Regroup(BlocksMask(c, p.ss), mp, BlocksMask(c, q.ss), mq);
    if q.ss == [] {
      TailAfterText(c, p.tail, q.tail, q.cut, q.s, mq);
      r := Parse(p.ss, p.tail + q.tail, q.cut, if q.cut then p.tail + q.s else []);
      ParsesMade(c, r, mp + mq);
      SameCut(r, q);
    } else {
      assert FirstStretch(q) == q.ss[0] by { FirstIs(q); }
      var all := BlocksJoin(c, p.ss, p.tail, q.ss);
      r := q.(ss := all);
      ParsesMade(c, r, mq);
      SameCut(r, q);
    }
  }

  lemma FirstIs(p: Parse)
    ensures FirstStretch(p) == if p.ss != [] then p.ss[0] else if p.cut then p.s else p.tail
  {
  }

  lemma SameCut(p: Parse, q: Parse)
    requires p.cut == q.cut && (p.cut ==> |p.tail| - |p.s| == |q.tail| - |q.s|)
    ensures CutInside(p) <==> CutInside(q)
  {
  }

  // ---- what the mask means for training ----------------------------------------------------

  /** A network that shows the mask: tokens embed to false, projections are true. */
  function TellTale(): Net<bool, bool> {
    Net(_ => false, _ => true, h => h)
  }

  lemma {:induction false} TellTaleUnrolls(ids: seq<int>, m: seq<bool>)
    requires |ids| == |m|
    ensures Unroll(TellTale(), ids, m) == m
    decreases |ids|
  {
    if ids != [] {
      var n := |ids| - 1;
      TellTaleUnrolls(ids[..n], m[..n]);
      assert m == m[..n] + [m[n]];
    }
  }

  /** Two different masks of the same tokens give different embeddings in some network; so a
      mask that is wrong anywhere is never harmless for all networks. */
  lemma MaskMatters(ids: seq<int>, m1: seq<bool>, m2: seq<bool>)
    requires |ids| == |m1| == |m2|
    ensures m1 == m2 <==>
            forall net: Net<bool, bool> :: Unroll(net, ids, m1) == Unroll(net, ids, m2)
  {
    hide Unroll;
    TellTaleUnrolls(ids, m1);
    TellTaleUnrolls(ids, m2);
  }
}
