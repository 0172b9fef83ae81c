/** Prompt, turns and retrieved texts as one row: when the whole row parses under its true latent
    mask, told from the texts and from where the turns ended. */
module LatentSeams {
  import opened Latent
  import opened LatentAgent
  import opened LatentMask
  import opened LatentPlugin
  import opened LatentRows
  import opened Sequences

  // ---- where a row ends --------------------------------------------------------------------------

  /** A block's latent positions begin at j and the row ends before its close literal does. */
  predicate Unfinished(c: Config, mask: seq<bool>, j: nat) {
    j < |mask| && mask[j] && (j == 0 || !mask[j - 1]) && |mask| < j + c.K + |c.close|
  }

  ghost predicate EndsInBlock(c: Config, mask: seq<bool>) {
    exists j: nat :: Unfinished(c, mask, j)
  }

  /** Where the latent positions of complete blocks begin, the block still fits. */
  lemma {:induction false} BlocksFinished(c: Config, ss: seq<seq<int>>, j: nat)
    requires c.Usable() && Stretches(c, ss) && j < |BlocksMask(c, ss)|
    requires BlocksMask(c, ss)[j] && (j == 0 || !BlocksMask(c, ss)[j - 1])
    ensures j + c.K + |c.close| <= |BlocksMask(c, ss)|
    decreases |ss|
  {
    var n := |ss| - 1;
    var a, b := BlocksMask(c, ss[..n]), BlockMask(c, ss[n]);
    hide EndsFirst, BlockOf;
    if j < |a| {
      BlocksFinished(c, ss[..n], j);
    } else {
      FirstMasked(c, ss[n], j - |a|);
    }
  }

  lemma FirstMasked(c: Config, s: seq<int>, t: nat)
    requires t < |BlockMask(c, s)| && BlockMask(c, s)[t] && (t == 0 || !BlockMask(c, s)[t - 1])
    ensures t == |s| && t + c.K + |c.close| == |BlockMask(c, s)|
  {
  }

  /** Being cut inside a block shows in the mask. */
  lemma CutShows(c: Config, ids: seq<int>, mask: seq<bool>, p: Parse)
    requires c.Usable() && c.K >= 1 && Parses(c, ids, mask, p)
    ensures CutInside(p) <==> EndsInBlock(c, mask)
  {
    var a := BlocksMask(c, p.ss);
    hide BlocksMask, Blocks;
    if CutInside(p) {
      CutStarts(c, p.s, a, mask, |p.tail|);
    }
    if j: nat :| Unfinished(c, mask, j) {
      if j < |a| {
        assert a[j] && (j == 0 || !a[j - 1]);
        BlocksFinished(c, p.ss, j);
      }
    }
  }

  lemma CutStarts(c: Config, s: seq<int>, a: seq<bool>, mask: seq<bool>, n: nat)
    requires c.Usable() && c.K >= 1 && EndsFirst(c.open, s) && |s| < n < |BlockOf(c, s)| && mask == a + BlockMask(c, s)[..n]
    ensures EndsInBlock(c, mask)
  {
    assert Unfinished(c, mask, |a| + |s|);
  }

  // ---- one seam ------------------------------------------------------------------------------------

  /** No open literal lies across position b. */
  ghost predicate NoneAcross(open: seq<int>, ids: seq<int>, b: nat) {
    forall i: nat :: i < b < i + |open| ==> !Occurs(open, ids, i)
  }

  /** Free text t before x, in a row where no open literal lies across the seam. */
  lemma SeamFree(open: seq<int>, pre: seq<int>, t: seq<int>, x: seq<int>, rest: seq<int>)
    requires open != [] && Free(open, t) && NoneAcross(open, pre + t + (x + rest), |pre + t|)
    ensures Free(open, x) ==> Free(open, t + x)
    ensures EndsFirst(open, x) ==> EndsFirst(open, t + x)
  {
    hide Occurs, Free, NoneAcross;
    forall i: nat | Occurs(open, t + x, i) ensures i >= |t| && Occurs(open, x, i - |t|) {
      OccursInSeam(open, pre, t, x, rest, i);
    }
    if Free(open, x) {
      MadeFree(open, t, x);
    }
    if EndsFirst(open, x) {
      assert Occurs(open, t + x, |t| + (|x| - |open|)) by { OccursAfter(open, t, x, |x| - |open|); }
    }
  }

  lemma MadeFree(open: seq<int>, t: seq<int>, x: seq<int>)
    requires Free(open, x) && forall i: nat :: Occurs(open, t + x, i) ==> i >= |t| && Occurs(open, x, i - |t|)
    ensures Free(open, t + x)
  {
    hide Occurs;
  }

  lemma OccursAfter(open: seq<int>, t: seq<int>, x: seq<int>, i: nat)
    requires Occurs(open, x, i)
    ensures Occurs(open, t + x, |t| + i)
  {
    assert (t + x)[|t| + i..|t| + i + |open|] == x[i..i + |open|];
  }

  lemma OccursInSeam(open: seq<int>, pre: seq<int>, t: seq<int>, x: seq<int>, rest: seq<int>, i: nat)
    requires open != [] && Free(open, t) && NoneAcross(open, pre + t + (x + rest), |pre + t|) && Occurs(open, t + x, i)
    ensures i >= |t| && Occurs(open, x, i - |t|)
  {
    OccursIn(open, t, x, i);
    assert pre + t + (x + rest) == pre + (t + x) + rest;
    OccursShifted(open, pre, t + x, rest, i);
    hide Occurs;
  }

  lemma OccursIn(open: seq<int>, t: seq<int>, x: seq<int>, i: nat)
    requires Occurs(open, t + x, i)
    ensures i + |open| <= |t + x|
    ensures i + |open| <= |t| ==> Occurs(open, t, i)
    ensures i >= |t| ==> Occurs(open, x, i - |t|)
  {
    if i + |open| <= |t| {
      assert t[i..i + |open|] == (t + x)[i..i + |open|];
    }
    if i >= |t| {
      assert x[i - |t|..i - |t| + |open|] == (t + x)[i..i + |open|];
    }
  }

  /** Two rows make one when the first is not cut and no open literal lies across the seam. */
  lemma RowsMeet(c: Config, a: seq<int>, am: seq<bool>, p: Parse, b: seq<int>, bm: seq<bool>, q: Parse) returns (r: Parse)
    requires c.Usable() && Parses(c, a, am, p) && !p.cut && Parses(c, b, bm, q) && NoneAcross(c.open, a + b, |a|)
    ensures Parses(c, a + b, am + bm, r) && r.cut == q.cut
  {
    hide NoneAcross, Free, EndsFirst, FirstStretch, Parses, CutInside;
    TailIsFree(c, a, am, p);
    var pre := FrontOf(c, a, am, p);
    var rest := FirstIsPrefix(c, b, bm, q);
    SeamFree(c.open, pre, p.tail, FirstStretch(q), rest);
    r := RowsJoin(c, a, am, p, b, bm, q);
  }

  lemma FrontOf(c: Config, ids: seq<int>, mask: seq<bool>, p: Parse) returns (pre: seq<int>)
    requires Parses(c, ids, mask, p)
    ensures ids == pre + p.tail
  {
    pre := Blocks(c, p.ss);
  }

  lemma {:induction false} BlocksBegin(c: Config, ss: seq<seq<int>>)
    requires ss != []
    ensures ss[0] <= Blocks(c, ss)
    decreases |ss|
  {
    var n := |ss| - 1;
    if n == 0 {
      assert Blocks(c, ss[..0]) == [];
    } else {
      BlocksBegin(c, ss[..n]);
    }
  }

  lemma FirstIsPrefix(c: Config, ids: seq<int>, mask: seq<bool>, q: Parse) returns (rest: seq<int>)
    requires Parses(c, ids, mask, q)
    ensures ids == FirstStretch(q) + rest
    ensures if q.ss == [] && !q.cut then FirstStretch(q) == q.tail && Free(c.open, q.tail) else EndsFirst(c.open, FirstStretch(q))
  {
    var x := FirstStretch(q);
    hide EndsFirst, Free, BlockOf, BlockMask, BlocksMask;
    if q.ss != [] {
      BlocksBegin(c, q.ss);
    }
    assert x <= ids;
    rest := ids[|x|..];
  }

  lemma TextParses(c: Config, toks: seq<int>) returns (p: Parse)
    requires c.Usable() && Free(c.open, toks)
    ensures Parses(c, toks, Falses(|toks|), p) && !p.cut
  {
    p := Parse([], toks, false, []);
  }

  /** Cutting any row, one that is cut already included, leaves a row. */
  lemma ParsesTruncated(c: Config, ids: seq<int>, mask: seq<bool>, p: Parse, n: nat) returns (q: Parse)
    requires c.Usable() && Parses(c, ids, mask, p) && n <= |ids|
    ensures |mask| == |ids| && Parses(c, ids[..n], mask[..n], q)
  {
    hide *;
    MaskLength(c, ids, mask, p);
    if !p.cut {
      q := TextTruncated(c, ids, mask, p, n);
    } else {
      q := CutTruncated(c, ids, mask, p, n);
    }
  }

  lemma TextTruncated(c: Config, ids: seq<int>, mask: seq<bool>, p: Parse, n: nat) returns (q: Parse)
    requires c.Usable() && Parses(c, ids, mask, p) && n <= |ids| == |mask| && !p.cut
    ensures Parses(c, ids[..n], mask[..n], q)
  {
    hide CutInside, CutsBlock, Blocks, BlocksMask, EndsFirst, Free;
    q := RowTruncates(c, p.ss, p.tail, n);
  }

  lemma CutTruncated(c: Config, ids: seq<int>, mask: seq<bool>, p: Parse, n: nat) returns (q: Parse)
    requires c.Usable() && Parses(c, ids, mask, p) && n <= |ids| == |mask| && p.cut
    ensures Parses(c, ids[..n], mask[..n], q)
  {
    var a, am := Blocks(c, p.ss), BlocksMask(c, p.ss);
    hide CutInside, CutsBlock, Blocks, BlocksMask, EndsFirst, Free, BlockOf, BlockMask;
    if n < |a| {
      NothingOccurs(c.open);
      assert (a + [])[..n] == ids[..n] && (am + Falses(0))[..n] == mask[..n];
      q := RowTruncates(c, p.ss, [], n);
    } else {
      CutFront(c, p.ss, p.s, p.tail, ids, mask, n);
      q := CutBlock(c, p.ss, p.s, n - |a|);
    }
  }

  lemma CutFront(c: Config, ss: seq<seq<int>>, s: seq<int>, tail: seq<int>, ids: seq<int>, mask: seq<bool>, n: nat)
    requires s <= tail < BlockOf(c, s)
    requires ids == Blocks(c, ss) + tail && mask == BlocksMask(c, ss) + BlockMask(c, s)[..|tail|]
    requires |Blocks(c, ss)| <= n <= |ids|
    ensures ids[..n] == Blocks(c, ss) + BlockOf(c, s)[..n - |Blocks(c, ss)|]
    ensures mask[..n] == BlocksMask(c, ss) + BlockMask(c, s)[..n - |Blocks(c, ss)|]
  {
    hide Blocks, BlocksMask, BlockOf, BlockMask;
  }

  // ---- the whole row ---------------------------------------------------------------------------------

  /** The request stands outside any block. */
  predicate Rested<E>(r: Req<E>) {
    !r.pendingFirst && r.nextEmbed.None? && r.remaining == 0 && r.closeRemaining == 0
  }

  ghost predicate FreeText<E>(open: seq<int>, p: Part<E>) {
    p.Info? ==> Free(open, p.toks)
  }

  ghost predicate RestedTurn<E>(p: Part<E>) {
    p.Out? ==> Rested(p.s.r)
  }

  /** The prompt and the retrieved texts hold no open literal, every turn that is followed by something
      ended outside a block, and in the row no open literal lies across a seam. */
  ghost predicate Seamless<E>(c: Config, prompt: seq<int>, parts: seq<Part<E>>, row: seq<int>) {
    && Free(c.open, prompt)
    && (forall k :: 0 <= k < |parts| ==> FreeText(c.open, parts[k]))
    && (forall k :: 0 <= k < |parts| - 1 ==> RestedTurn(parts[k]))
    && (forall k :: 0 <= k < |parts| ==> NoneAcross(c.open, row, |prompt| + |Ids(parts[..k])|))
  }

  lemma SeamlessInit<E>(c: Config, prompt: seq<int>, parts: seq<Part<E>>, row: seq<int>)
    requires Seamless(c, prompt, parts, row) && parts != []
    ensures var init := parts[..|parts| - 1];
            && Seamless(c, prompt, init, row) && FreeText(c.open, parts[|parts| - 1])
            && NoneAcross(c.open, row, |prompt| + |Ids(init)|)
            && (init != [] ==> RestedTurn(init[|init| - 1]))
  {
    hide Free, FreeText, RestedTurn, NoneAcross, Ids;
    var init := parts[..|parts| - 1];
    forall k | 0 <= k < |init| ensures NoneAcross(c.open, row, |prompt| + |Ids(init[..k])|) {
      assert init[..k] == parts[..k];
    }
  }

  lemma NoneAcrossFront(open: seq<int>, row: seq<int>, n: nat, b: nat)
    requires NoneAcross(open, row, b) && n <= |row|
    ensures NoneAcross(open, row[..n], b)
  {
    forall i: nat | i < b < i + |open| ensures !Occurs(open, row[..n], i) {
      assert !Occurs(open, row, i);
      if i + |open| <= n {
        assert row[..n][i..i + |open|] == row[i..i + |open|];
      }
    }
  }

  /** A turn or a retrieved text alone. */
  lemma PartParses<E, H>(net: Net<E, H>, c: Config, t: Turn, turn: bool, part: Part<E>) returns (p: Parse)
    requires c.Usable() && c.K >= 1 && Scripted(net, c, t, turn, part) && FreeText(c.open, part)
    ensures Parses(c, PartIds(part), if part.Out? then part.s.mask else Falses(|part.toks|), p)
    ensures RestedTurn(part) ==> !p.cut
  {
    hide Parses, Run, Start, Free;
    if part.Out? {
      p := OutputParses(net, c, part.ctx, part.last, t.samples);
    } else {
      p := TextParses(c, part.toks);
    }
  }

  lemma RowSize<E, H>(net: Net<E, H>, c: Config, t: Turn, turn: bool, part: Part<E>)
    requires c.Usable() && Scripted(net, c, t, turn, part)
    ensures |PartIds(part)| == |if part.Out? then part.s.mask else Falses(|part.toks|)|
  {
    hide Parses, Run, Start;
    if part.Out? {
      var q :| Parses(c, part.s.outs, part.s.mask, q);
      MaskLength(c, part.s.outs, part.s.mask, q);
    }
  }

  lemma HistoryInit<E, H>(net: Net<E, H>, c: Config, script: seq<Turn>, parts: seq<Part<E>>)
    requires c.Usable() && History(net, c, script, parts) && parts != []
    ensures var k := |parts| - 1; History(net, c, script, parts[..k]) && k / 2 < |script| && Scripted(net, c, script[k / 2], k % 2 == 0, parts[k])
  {
    hide Scripted;
  }

  lemma {:induction false} SameLength<E, H>(net: Net<E, H>, c: Config, script: seq<Turn>, parts: seq<Part<E>>)
    requires c.Usable() && History(net, c, script, parts)
    ensures |Ids(parts)| == |Truth(parts)|
    decreases |parts|
  {
    hide History, Scripted, PartIds;
    if parts != [] {
      var k := |parts| - 1;
      HistoryInit(net, c, script, parts);
      SameLength(net, c, script, parts[..k]);
      RowSize(net, c, script[k / 2], k % 2 == 0, parts[k]);
    }
  }

  /** Prompt, turns and texts, cut anywhere, make one row that parses under its true latent mask. */
  lemma {:induction false} RowParses<E, H>(net: Net<E, H>, c: Config, prompt: seq<int>, script: seq<Turn>, parts: seq<Part<E>>,
                                           m: nat, row: seq<int>) returns (p: Parse)
    requires c.Usable() && c.K >= 1 && History(net, c, script, parts) && Seamless(c, prompt, parts, row)
    requires m <= |Ids(parts)| == |Truth(parts)| && prompt + Ids(parts)[..m] <= row
    ensures Parses(c, prompt + Ids(parts)[..m], Falses(|prompt|) + Truth(parts)[..m], p)
    ensures m == |Ids(parts)| && (parts != [] ==> RestedTurn(parts[|parts| - 1])) ==> !p.cut
    decreases |parts|
  {
    hide Parses, History, Scripted, Seamless, NoneAcross, RestedTurn, FreeText, Free, PartIds;
    if parts == [] {
      p := RowOfPrompt(c, prompt, parts, m, row);
    } else {
      var k := |parts| - 1;
      var init, part := parts[..k], parts[k];
      assert parts == init + [part];
      OneMore(init, part);
      HistoryInit(net, c, script, parts);
      SeamlessInit(c, prompt, parts, row);
      SameLength(net, c, script, init);
      var n := |Ids(init)|;
      if m < n {
        assert Ids(parts)[..m] == Ids(init)[..m] && Truth(parts)[..m] == Truth(init)[..m];
        p := RowParses(net, c, prompt, script, init, m, row);
      } else {
        PrefixOf(prompt, Ids(init), PartIds(part), m, row);
        var p0 := RowParses(net, c, prompt, script, init, n, row);
        assert Ids(init)[..n] == Ids(init) && Truth(init)[..n] == Truth(init);
        RowSize(net, c, script[k / 2], k % 2 == 0, part);
        var q := PartParses(net, c, script[k / 2], k % 2 == 0, part);
        p := LastPart(c, prompt, Ids(init), Truth(init), p0, PartIds(part), if part.Out? then part.s.mask else Falses(|part.toks|), q, m, row);
      }
    }
  }

  lemma RowOfPrompt<E>(c: Config, prompt: seq<int>, parts: seq<Part<E>>, m: nat, row: seq<int>) returns (p: Parse)
    requires c.Usable() && parts == [] && m == 0 && Seamless(c, prompt, parts, row)
    ensures Parses(c, prompt + Ids(parts)[..m], Falses(|prompt|) + Truth(parts)[..m], p) && !p.cut
  {
    hide Parses, Free;
    p := TextParses(c, prompt);
    assert prompt + Ids(parts)[..m] == prompt && Falses(|prompt|) + Truth(parts)[..m] == Falses(|prompt|);
  }

  lemma PrefixOf(prompt: seq<int>, init: seq<int>, part: seq<int>, m: nat, row: seq<int>)
    requires |init| <= m <= |init + part| && prompt + (init + part)[..m] <= row
    ensures prompt + init[..|init|] <= row && (init + part)[..m] == init + part[..m - |init|]
    ensures row[..|prompt| + m] == (prompt + init) + part[..m - |init|]
  {
  }

  /** The last part of a row, as much of it as is left. */
  lemma LastPart(c: Config, prompt: seq<int>, init: seq<int>, truth: seq<bool>, p0: Parse,
                 part: seq<int>, partMask: seq<bool>, q: Parse, m: nat, row: seq<int>) returns (p: Parse)
    requires c.Usable() && |init| == |truth| && |part| == |partMask| && |init| <= m <= |init + part|
    requires Parses(c, prompt + init, Falses(|prompt|) + truth, p0) && !p0.cut && Parses(c, part, partMask, q)
    requires NoneAcross(c.open, row, |prompt| + |init|) && prompt + (init + part)[..m] <= row
    ensures Parses(c, prompt + (init + part)[..m], Falses(|prompt|) + (truth + partMask)[..m], p)
    ensures m == |init + part| ==> p.cut == q.cut
  {
    hide Parses, NoneAcross;
    var n := m - |init|;
    var q' := q;
    if n < |part| {
      q' := ParsesTruncated(c, part, partMask, q, n);
    } else {
      assert part[..n] == part && partMask[..n] == partMask;
    }
    PrefixOf(prompt, init, part, m, row);
    NoneAcrossFront(c.open, row, |prompt| + m, |prompt| + |init|);
    p := RowsMeet(c, prompt + init, Falses(|prompt|) + truth, p0, part[..n], partMask[..n], q');
    assert (prompt + init) + part[..n] == prompt + (init + part)[..m];
    assert (Falses(|prompt|) + truth) + partMask[..n] == Falses(|prompt|) + (truth + partMask)[..m];
  }
}
