/** Rebuilding the latent mask from token ids alone: the pattern match of the training forward,
    the scan of the agent loops, and the rows on which both find exactly the true sentinels. */
module LatentMask {
  import opened Latent
  import opened LatentPlugin

  /** Length of a whole block: open literal, K sentinels, close literal. */
  function Span(c: Config): nat {
    |c.open| + c.K + |c.close|
  }

  /** The surface pattern at s; the K tokens between the literals may be anything. */
  predicate Match(c: Config, ids: seq<int>, s: nat) {
    && s + Span(c) <= |ids|
    && ids[s..s + |c.open|] == c.open
    && ids[s + |c.open| + c.K..s + Span(c)] == c.close
  }

  predicate Inside(c: Config, s: nat, i: int) {
    s + |c.open| <= i < s + |c.open| + c.K
  }

  ghost predicate Covered(c: Config, ids: seq<int>, i: int) {
    exists s: nat :: Match(c, ids, s) && Inside(c, s, i)
  }

  // ---- the training forward ----------------------------------------------------------------

  /** The first j tokens of `lit` are found at s. */
  predicate Found(lit: seq<int>, ids: seq<int>, s: nat, j: nat) {
    j <= |lit| && s + j <= |ids| && forall q :: 0 <= q < j ==> ids[s + q] == lit[q]
  }

  lemma FoundIsSlice(lit: seq<int>, ids: seq<int>, s: nat)
    requires s + |lit| <= |ids|
    ensures Found(lit, ids, s, |lit|) <==> ids[s..s + |lit|] == lit
  {
    if Found(lit, ids, s, |lit|) {
      forall q | 0 <= q < |lit| ensures ids[s..s + |lit|][q] == lit[q] {}
    }
    if ids[s..s + |lit|] == lit {
      forall q | 0 <= q < |lit| ensures ids[s + q] == lit[q] { assert ids[s..s + |lit|][q] == lit[q]; }
    }
  }

  /** `valid &= ids[base + j : base + j + L] == lit[j]` for each token of one literal. */
  method Narrow(valid: array<bool>, ids: seq<int>, lit: seq<int>, base: nat)
    requires base + |lit| + valid.Length <= |ids| + 1
    modifies valid
    ensures forall i :: 0 <= i < valid.Length ==> valid[i] == (old(valid[i]) && Found(lit, ids, base + i, |lit|))
  {
    for j := 0 to |lit|
      invariant forall i :: 0 <= i < valid.Length ==> valid[i] == (old(valid[i]) && Found(lit, ids, base + i, j))
    {
      forall i | 0 <= i < valid.Length {
        valid[i] := valid[i] && ids[base + i + j] == lit[j];
      }
    }
  }

  /** Found at both ends of the gap, the literals make a match. */
  lemma FoundIsMatch(c: Config, ids: seq<int>, s: nat)
    requires s + Span(c) <= |ids|
    ensures Match(c, ids, s) <==>
            Found(c.open, ids, s, |c.open|) && Found(c.close, ids, |c.open| + c.K + s, |c.close|)
  {
    FoundIsSlice(c.open, ids, s);
    FoundIsSlice(c.close, ids, |c.open| + c.K + s);
  }

  /** `_reconstruct_latent_mask` on one row. */
  method ReconstructLatentMask(c: Config, ids: seq<int>) returns (mask: array<bool>)
    ensures fresh(mask) && mask.Length == |ids|
    ensures forall i :: 0 <= i < |ids| ==>
      (mask[i] <==> c.K > 0 && c.Usable() && Covered(c, ids, i))
  {
    hide Match, Found, Covered;
    mask := new bool[|ids|](_ => false);
    MatchFits(c, ids);
    if c.K == 0 || c.open == [] || c.close == [] {
      return;
    }
    var P, Q := |c.open|, |c.close|;
    if |ids| < P + c.K + Q {
      return;
    }
    var L := |ids| - P - c.K - Q + 1;
    var valid := new bool[L](_ => true);
    Narrow(valid, ids, c.open, 0);
    Narrow(valid, ids, c.close, P + c.K);
    forall i | 0 <= i < L ensures valid[i] == Match(c, ids, i) {
      FoundIsMatch(c, ids, i);
    }
    for k := P to P + c.K
      invariant forall i :: 0 <= i < L ==> valid[i] == Match(c, ids, i)
      invariant forall i :: 0 <= i < |ids| ==>
        (mask[i] <==> exists s: nat :: s < L && Match(c, ids, s) && s + P <= i < s + k)
    {
      forall i | 0 <= i < L {
        mask[k + i] := mask[k + i] || valid[i];
      }
    }
  }

  lemma MatchFits(c: Config, ids: seq<int>)
    ensures forall s: nat :: Match(c, ids, s) ==> s + Span(c) <= |ids|
    ensures forall i :: Covered(c, ids, i) <==> exists s: nat :: Match(c, ids, s) && Inside(c, s, i)
  {
  }

  // ---- the agent loops ---------------------------------------------------------------------

  /** Whether the left-to-right scan from i, jumping over each block it finds, covers j. */
  predicate ScanCovers(c: Config, ids: seq<int>, i: nat, j: int)
    requires c.Usable()
    decreases |ids| - i
  {
    if i + Span(c) > |ids| then false
    else if Match(c, ids, i) then Inside(c, i, j) || ScanCovers(c, ids, i + Span(c), j)
    else ScanCovers(c, ids, i + 1, j)
  }

  lemma ScanStep(c: Config, ids: seq<int>, i: nat)
    requires c.Usable()
    ensures i + Span(c) > |ids| ==> forall j :: !ScanCovers(c, ids, i, j)
    ensures i + Span(c) <= |ids| && Match(c, ids, i) ==>
      forall j :: ScanCovers(c, ids, i, j) <==> Inside(c, i, j) || ScanCovers(c, ids, i + Span(c), j)
    ensures i + Span(c) <= |ids| && !Match(c, ids, i) ==>
      forall j :: ScanCovers(c, ids, i, j) <==> ScanCovers(c, ids, i + 1, j)
  {
  }

  /** The while loop of `_build_response_mask`. */
  method ScanBlocks(c: Config, ids: seq<int>, mask: array<int>, matched: array<bool>)
    requires c.Usable() && mask.Length == matched.Length == |ids|
    requires forall j :: 0 <= j < |ids| ==> mask[j] == 1 && !matched[j]
    modifies mask, matched
    ensures forall j :: 0 <= j < |ids| ==> matched[j] == ScanCovers(c, ids, 0, j)
    ensures forall j :: 0 <= j < |ids| ==> mask[j] == if matched[j] then 0 else 1
  {
    hide ScanCovers;
    var P, Q, n := |c.open|, |c.close|, |ids|;
    var i := 0;
    while i + P + c.K + Q <= n
      invariant forall j :: 0 <= j < n ==>
        (ScanCovers(c, ids, 0, j) <==> matched[j] || ScanCovers(c, ids, i, j))
      invariant forall j :: 0 <= j < n ==> mask[j] == if matched[j] then 0 else 1
      decreases n - i
    {
      ScanStep(c, ids, i);
      if ids[i..i + P] == c.open && ids[i + P + c.K..i + P + c.K + Q] == c.close {
        forall j | i + P <= j < i + P + c.K {
          mask[j] := 0;
        }
        forall j | i + P <= j < i + P + c.K {
          matched[j] := true;
        }
        i := i + P + c.K + Q;
      } else {
        i := i + 1;
      }
    }
    ScanStep(c, ids, i);
  }

  /** `_build_response_mask`, of both agent loops: 0 where the scan found a block's latent positions
      and at every other sentinel token, 1 elsewhere. */
  method BuildResponseMask(c: Config, ids: seq<int>) returns (mask: array<int>)
    ensures fresh(mask) && mask.Length == |ids|
    ensures forall j :: 0 <= j < |ids| ==>
      mask[j] == if c.K > 0 && (ids[j] == c.sentinel || (c.Usable() && ScanCovers(c, ids, 0, j))) then 0 else 1
  {
    hide ScanCovers;
    mask := new int[|ids|](_ => 1);
    if c.K == 0 {
      return;
    }
    var matched := new bool[|ids|](_ => false);
    if |c.open| > 0 && |c.close| > 0 {
      ScanBlocks(c, ids, mask, matched);
    }
    for j := 0 to |ids|
      invariant forall q :: 0 <= q < |ids| ==> (matched[q] <==> c.Usable() && ScanCovers(c, ids, 0, q))
      invariant forall q :: 0 <= q < |ids| ==>
        mask[q] == if matched[q] || (q < j && ids[q] == c.sentinel) then 0 else 1
    {
      if ids[j] == c.sentinel && !matched[j] {
        mask[j] := 0;
      }
    }
  }
}
