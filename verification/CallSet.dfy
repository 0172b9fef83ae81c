/** Matching predicted calls to ground-truth calls in any order.  A relation says which prediction
    is acceptable for which ground truth. */
module CallSet {

  type Relation = (nat, nat) -> bool

  predicate Below(s: seq<nat>, n: nat) {
    forall i :: 0 <= i < |s| ==> s[i] < n
  }

  predicate Distinct(s: seq<nat>) {
    forall i, j :: 0 <= i < j < |s| ==> s[i] != s[j]
  }

  predicate IsPermutation(s: seq<nat>, n: nat) {
    |s| == n && Below(s, n) && Distinct(s)
  }

  /** Prediction i is matched with ground truth q[i]. */
  predicate Fits(ok: Relation, q: seq<nat>) {
    forall i: nat :: i < |q| ==> ok(i, q[i])
  }

  /** A one-to-one assignment of the predictions to the ground truths exists. */
  ghost predicate Assignable(ok: Relation, n: nat) {
    exists q :: IsPermutation(q, n) && Fits(ok, q)
  }

  // ---- permutations ------------------------------------------------------------------------

  function Without(s: seq<nat>, i: nat): (r: seq<nat>)
    requires i < |s|
    ensures |r| == |s| - 1
  {
    s[..i] + s[i + 1..]
  }

  /** `itertools.permutations`, in its order: by the position of the first element, then the rest. */
  function Permutations(s: seq<nat>): seq<seq<nat>>
    decreases |s|, |s| + 1
  {
    if s == [] then [[]] else PermutationsFrom(s, |s|)
  }

  /** Those that begin with one of the first k elements. */
  function PermutationsFrom(s: seq<nat>, k: nat): seq<seq<nat>>
    requires k <= |s|
    decreases |s|, k
  {
    if k == 0 then [] else PermutationsFrom(s, k - 1) + Prefixed(s[k - 1], Permutations(Without(s, k - 1)))
  }

  function Prefixed(x: nat, ps: seq<seq<nat>>): (r: seq<seq<nat>>)
    ensures |r| == |ps| && forall i :: 0 <= i < |r| ==> r[i] == [x] + ps[i]
  {
    seq(|ps|, i requires 0 <= i < |ps| => [x] + ps[i])
  }

  lemma WithoutBag(s: seq<nat>, i: nat)
    requires i < |s|
    ensures multiset(s) == multiset(Without(s, i)) + multiset{s[i]}
  {
    assert s == s[..i] + [s[i]] + s[i + 1..];
  }

  lemma HeadBag(q: seq<nat>)
    requires q != []
    ensures multiset(q) == multiset{q[0]} + multiset(q[1..])
  {
    assert q == [q[0]] + q[1..];
  }

  lemma Cancel(a: multiset<nat>, b: multiset<nat>, x: nat)
    ensures a + multiset{x} == multiset{x} + b <==> a == b
  {
    assert a == (a + multiset{x}) - multiset{x} && b == (multiset{x} + b) - multiset{x};
  }

  /** Removing the head from one and the same element from the other. */
  lemma HeadRemoved(q: seq<nat>, s: seq<nat>, i: nat)
    requires q != [] && i < |s| && s[i] == q[0]
    ensures multiset(q) == multiset(s) <==> multiset(q[1..]) == multiset(Without(s, i))
  {
    WithoutBag(s, i);
    HeadBag(q);
    Cancel(multiset(Without(s, i)), multiset(q[1..]), q[0]);
  }

  lemma PrefixedHas(x: nat, ps: seq<seq<nat>>, q: seq<nat>)
    ensures q in Prefixed(x, ps) <==> q != [] && q[0] == x && q[1..] in ps
  {
    var more := Prefixed(x, ps);
    if q in more {
      var i :| 0 <= i < |more| && more[i] == q;
      assert q[1..] == ps[i];
    }
    if q != [] && q[0] == x && q[1..] in ps {
      var i :| 0 <= i < |ps| && ps[i] == q[1..];
      assert more[i] == q;
    }
  }

  /** Exactly the rearrangements are listed. */
  lemma {:induction false} PermutationsAll(s: seq<nat>, q: seq<nat>)
    ensures q in Permutations(s) <==> multiset(q) == multiset(s)
    decreases |s|, |s| + 1
  {
    assert |multiset(q)| == |q| && |multiset(s)| == |s|;
    if s != [] {
      PermutationsFromAll(s, |s|, q);
      hide Without, PermutationsFrom;
      if q in Permutations(s) {
        var i :| 0 <= i < |s| && StartsWith(s, i, q);
        HeadRemoved(q, s, i);
      }
      if multiset(q) == multiset(s) {
        assert q[0] in multiset(q);
        var i :| 0 <= i < |s| && s[i] == q[0];
        HeadRemoved(q, s, i);
        assert StartsWith(s, i, q);
      }
    }
  }

  /** q takes element i of s first and rearranges the others. */
  predicate StartsWith(s: seq<nat>, i: nat, q: seq<nat>)
    requires i < |s|
  {
    q != [] && q[0] == s[i] && multiset(q[1..]) == multiset(Without(s, i))
  }

  lemma {:induction false} PermutationsFromAll(s: seq<nat>, k: nat, q: seq<nat>)
    requires k <= |s|
    ensures q in PermutationsFrom(s, k) <==> exists i :: 0 <= i < k && StartsWith(s, i, q)
    decreases |s|, k
  {
    hide *;
    FromGroups(s, k);
    if k > 0 {
      PermutationsFromAll(s, k - 1, q);
      GroupAll(s, k - 1, q);
    }
  }

  /** Those that begin with element i are the i-th group. */
  lemma {:induction false} GroupAll(s: seq<nat>, i: nat, q: seq<nat>)
    requires i < |s|
    ensures q in Prefixed(s[i], Permutations(Without(s, i))) <==> StartsWith(s, i, q)
    decreases |s|, 0
  {
    hide Without, Prefixed, Permutations;
    PrefixedHas(s[i], Permutations(Without(s, i)), q);
    if q != [] {
      PermutationsAll(Without(s, i), q[1..]);
    }
  }

  lemma FromGroups(s: seq<nat>, k: nat)
    requires k <= |s|
    ensures k == 0 ==> PermutationsFrom(s, k) == []
    ensures k > 0 ==> PermutationsFrom(s, k) == PermutationsFrom(s, k - 1) + Prefixed(s[k - 1], Permutations(Without(s, k - 1)))
  {
    hide Prefixed, Without;
  }

  function Indices(n: nat): (s: seq<nat>)
    ensures |s| == n && forall i :: 0 <= i < n ==> s[i] == i
  {
    seq(n, i => i)
  }

  /** The rearrangements of 0..n are the permutations. */
  lemma IndexPermutations(q: seq<nat>, n: nat)
    ensures multiset(q) == multiset(Indices(n)) <==> IsPermutation(q, n)
  {
    var s := Indices(n);
    if multiset(q) == multiset(s) {
      assert |multiset(q)| == |q| && |multiset(s)| == |s|;
      forall i | 0 <= i < |q| ensures q[i] < n { assert q[i] in multiset(q); }
      forall i, j | 0 <= i < j < |q| ensures q[i] != q[j] {
        DistinctBag(s, q[i]);
        if q[i] == q[j] {
          BagCounts(q, i, j);
          assert false;
        }
      }
    }
    if IsPermutation(q, n) {
      PermutationBag(q, n);
    }
  }

  lemma {:induction false} DistinctBag(s: seq<nat>, x: nat)
    requires Distinct(s)
    ensures multiset(s)[x] == if x in s then 1 else 0
  {
    if s != [] {
      var k := |s| - 1;
      assert s == s[..k] + [s[k]];
      DistinctBag(s[..k], x);
    }
  }

  lemma BagCounts(q: seq<nat>, i: nat, j: nat)
    requires i < j < |q| && q[i] == q[j]
    ensures multiset(q)[q[i]] >= 2
  {
    WithoutBag(q, j);
    assert Without(q, j)[i] == q[i];
    assert q[i] in multiset(Without(q, j));
  }

  function Elements(s: seq<nat>): set<nat> {
    set x | x in s
  }

  lemma {:induction false} DistinctSize(s: seq<nat>)
    requires Distinct(s)
    ensures |Elements(s)| == |s|
  {
    if s != [] {
      var k := |s| - 1;
      DistinctSize(s[..k]);
      assert Elements(s) == Elements(s[..k]) + {s[k]};
      assert s[k] !in Elements(s[..k]);
    }
  }

  lemma SameSize<T>(a: set<T>, b: set<T>)
    requires a <= b && |a| == |b|
    ensures a == b
  {
    assert |b - a| == |b| - |a|;
  }

  /** n distinct numbers below n are all of them. */
  lemma PermutationHasAll(q: seq<nat>, n: nat)
    requires IsPermutation(q, n)
    ensures forall x: nat :: x in q <==> x < n
  {
    var s := Indices(n);
    DistinctSize(q);
    DistinctSize(s);
    forall x | x in Elements(q) ensures x in Elements(s) {
      assert s[x] == x;
    }
    SameSize(Elements(q), Elements(s));
    forall x: nat ensures x in q <==> x < n {
      assert x in q <==> x in Elements(q);
      assert x in s <==> x in Elements(s);
      assert x < n ==> s[x] == x;
    }
  }

  lemma PermutationBag(q: seq<nat>, n: nat)
    requires IsPermutation(q, n)
    ensures multiset(q) == multiset(Indices(n))
  {
    PermutationHasAll(q, n);
    PermutationHasAll(Indices(n), n);
    forall x: nat ensures multiset(q)[x] == multiset(Indices(n))[x] {
      DistinctBag(q, x);
      DistinctBag(Indices(n), x);
    }
  }

  // ---- the check ---------------------------------------------------------------------------

  /** `all(check(p, g) for p, g in zip(preds, perm))` */
  method AllFit(ok: Relation, q: seq<nat>) returns (r: bool)
    ensures r == Fits(ok, q)
  {
    for i := 0 to |q|
      invariant forall j: nat :: j < i ==> ok(j, q[j])
    {
      if !ok(i, q[i]) {
        return false;
      }
    }
    return true;
  }

  /** What the greedy loop does for the first ground truths: each takes the first acceptable
      prediction that is still free. */
  ghost predicate GreedyRun(ok: Relation, n: nat, taken: seq<nat>) {
    && |taken| <= n && Below(taken, n) && Distinct(taken)
    && (forall j: nat :: j < |taken| ==> ok(taken[j], j))
    && (forall i: nat, j: nat :: j < |taken| && i < taken[j] && ok(i, j) ==> i in taken[..j])
  }

  /** The greedy fallback. */
  method Greedy(ok: Relation, n: nat) returns (r: bool, ghost taken: seq<nat>)
    ensures GreedyRun(ok, n, taken) && (r <==> |taken| == n)
    ensures !r ==> forall i: nat :: i < n && ok(i, |taken|) ==> i in taken
  {
    var used := new bool[n](_ => false);
    taken := [];
    for j := 0 to n
      invariant |taken| == j && GreedyRun(ok, n, taken)
      invariant forall i :: 0 <= i < n ==> used[i] == (i in taken)
    {
      var i := 0;
      while i < n && !(!used[i] && ok(i, j))
        invariant i <= n
        invariant forall k: nat :: k < i && ok(k, j) ==> used[k]
      {
        i := i + 1;
      }
      if i == n {
        return false, taken;
      }
      used[i] := true;
      GreedyNext(ok, n, taken, i);
      taken := taken + [i];
    }
    r := true;
  }

  lemma GreedyNext(ok: Relation, n: nat, taken: seq<nat>, i: nat)
    requires GreedyRun(ok, n, taken) && |taken| < n && i < n && i !in taken && ok(i, |taken|)
    requires forall k: nat :: k < i && ok(k, |taken|) ==> k in taken
    ensures GreedyRun(ok, n, taken + [i])
  {
    var all := taken + [i];
    assert all[..|taken|] == taken;
    forall k: nat, j: nat | j < |all| && k < all[j] && ok(k, j) ensures k in all[..j] {
      assert j < |taken| ==> all[..j] == taken[..j];
    }
  }

  lemma FirstFree(ok: Relation, n: nat, a: seq<nat>, j: nat, i: nat)
    requires GreedyRun(ok, n, a) && j < |a| && ok(i, j) && i !in a[..j]
    ensures a[j] <= i
  {
  }

  lemma NotBefore(a: seq<nat>, k: nat)
    requires Distinct(a) && k < |a|
    ensures a[k] !in a[..k]
  {
  }

  /** There is only one greedy run. */
  lemma {:induction false} GreedyUnique(ok: Relation, n: nat, a: seq<nat>, b: seq<nat>)
    requires GreedyRun(ok, n, a) && GreedyRun(ok, n, b) && |a| <= |b|
    ensures a == b[..|a|]
  {
    if a != [] {
      var k := |a| - 1;
      GreedyPrefix(ok, n, a, k);
      GreedyUnique(ok, n, a[..k], b);
      NotBefore(a, k);
      NotBefore(b, k);
      FirstFree(ok, n, b, k, a[k]);
      FirstFree(ok, n, a, k, b[k]);
      assert a == a[..k] + [a[k]];
    }
  }

  lemma GreedyPrefix(ok: Relation, n: nat, a: seq<nat>, k: nat)
    requires GreedyRun(ok, n, a) && k <= |a|
    ensures GreedyRun(ok, n, a[..k])
  {
    forall i: nat, j: nat | j < k && i < a[..k][j] && ok(i, j) ensures i in a[..k][..j] {
      assert a[..k][..j] == a[..j];
    }
  }

  /** A run that got stuck cannot be continued. */
  lemma GreedyStuck(ok: Relation, n: nat, taken: seq<nat>, t: seq<nat>)
    requires GreedyRun(ok, n, taken) && |taken| < n && forall i: nat :: i < n && ok(i, |taken|) ==> i in taken
    requires GreedyRun(ok, n, t)
    ensures |t| <= |taken|
  {
    if |t| > |taken| {
      GreedyUnique(ok, n, taken, t);
      NotBefore(t, |taken|);
    }
  }

  /** Turning an assignment around. */
  lemma Inverse(s: seq<nat>, n: nat) returns (q: seq<nat>)
    requires IsPermutation(s, n)
    ensures IsPermutation(q, n) && forall i: nat :: i < n ==> s[q[i]] == i
    ensures forall j: nat :: j < n ==> q[s[j]] == j
  {
    PermutationHasAll(s, n);
    q := seq(n, i requires 0 <= i < n => Where(s, i));
    forall i: nat, j: nat | i < j < n ensures q[i] != q[j] {
      assert s[q[i]] == i && s[q[j]] == j;
    }
  }

  function Where(s: seq<nat>, x: nat): (k: nat)
    requires x in s
    ensures k < |s| && s[k] == x
  {
    if s[0] == x then 0 else 1 + Where(s[1..], x)
  }

  /** `check_call_set`: sets of different sizes never match; up to six calls it says yes exactly when
      a one-to-one assignment exists; above that, when the calls fit in the order given or the greedy
      run completes, and then an assignment exists. */
  method CheckCallSet(ok: Relation, n: nat, m: nat) returns (r: bool)
    ensures n != m ==> !r
    ensures n == m && n <= 6 ==> (r <==> Assignable(ok, n))
    ensures n == m && n > 6 ==> (r <==> Accepts(ok, n))
    ensures n == m && r ==> Assignable(ok, n)
  {
    if n != m {
      return false;
    }
    var positional := AllFit(ok, Indices(n));
    if positional {
      assert IsPermutation(Indices(n), n);
      return true;
    }
    if n > 6 {
      ghost var taken;
      r, taken := Greedy(ok, n);
      if r {
        var q := Inverse(taken, n);
        assert Fits(ok, q);
      } else {
        forall t | GreedyRun(ok, n, t) ensures |t| < n {
          GreedyStuck(ok, n, taken, t);
        }
      }
      return r;
    }
    var perms := Permutations(Indices(n));
    for k := 0 to |perms|
      invariant forall i :: 0 <= i < k ==> !Fits(ok, perms[i])
    {
      var fits := AllFit(ok, perms[k]);
      if fits {
        PermutationsAll(Indices(n), perms[k]);
        IndexPermutations(perms[k], n);
        return true;
      }
    }
    forall q | IsPermutation(q, n) ensures !Fits(ok, q) {
      IndexPermutations(q, n);
      PermutationsAll(Indices(n), q);
      var i :| 0 <= i < |perms| && perms[i] == q;
    }
    return false;
  }

  // ---- the greedy branch is not complete ----------------------------------------------------

  /** Prediction 0 is acceptable for ground truths 0 and 1, prediction 1 only for 0, the others for
      their own. */
  function Crossed(): Relation {
    (i: nat, j: nat) => (i == j && i >= 2) || (i == 0 && j < 2) || (i == 1 && j == 0)
  }

  lemma CrossedRunIsShort(taken: seq<nat>)
    requires |taken| > 1
    ensures !GreedyRun(Crossed(), 7, taken)
  {
    var ok := Crossed();
    if !ok(taken[0], 0) || !ok(taken[1], 1) {
    } else if taken[0] != 0 {
      assert ok(0, 0) && 0 !in taken[..0];
    } else {
      assert taken[1] == taken[0];
    }
  }

  /** Seven calls with an assignment that the check misses. */
  lemma GreedyMisses()
    ensures Assignable(Crossed(), 7) && !Fits(Crossed(), Indices(7))
    ensures !exists taken :: GreedyRun(Crossed(), 7, taken) && |taken| == 7
  {
    var q := [1, 0, 2, 3, 4, 5, 6];
    assert IsPermutation(q, 7) && Fits(Crossed(), q);
    assert !Crossed()(1, Indices(7)[1]);
    forall taken | |taken| == 7 ensures !GreedyRun(Crossed(), 7, taken) {
      CrossedRunIsShort(taken);
    }
  }

  /** Predictions that share an acceptable ground truth accept the same ones. */
  ghost predicate Uniform(ok: Relation, n: nat) {
    forall i: nat, i': nat, j: nat, j': nat ::
      i < n && i' < n && j < n && j' < n && ok(i, j) && ok(i', j) && ok(i, j') ==> ok(i', j')
  }

  function Rivals(ok: Relation, n: nat, j: nat): set<nat> {
    set i: nat | i in Elements(Indices(n)) && ok(i, j)
  }

  function Holders(ok: Relation, n: nat, taken: seq<nat>, j: nat): set<nat> {
    set k: nat | k in Elements(Indices(|taken|)) && taken[k] in Rivals(ok, n, j)
  }

  /** On a uniform relation a stuck run shows that there is no assignment: the rivals for the stuck
      ground truth are held by ground truths that accept nobody else. */
  lemma GreedyCompleteWhenUniform(ok: Relation, n: nat, taken: seq<nat>)
    requires Uniform(ok, n) && GreedyRun(ok, n, taken) && |taken| < n
    requires forall i: nat :: i < n && ok(i, |taken|) ==> i in taken
    ensures !Assignable(ok, n)
  {
    forall q | IsPermutation(q, n) ensures !Fits(ok, q) {
      TooManyWanted(ok, n, taken, q);
    }
  }

  lemma TooManyWanted(ok: Relation, n: nat, taken: seq<nat>, q: seq<nat>)
    requires Uniform(ok, n) && GreedyRun(ok, n, taken) && |taken| < n && IsPermutation(q, n)
    requires forall i: nat :: i < n && ok(i, |taken|) ==> i in taken
    ensures !Fits(ok, q)
  {
    var j := |taken|;
    var rivals, holders := Rivals(ok, n, j), Holders(ok, n, taken, j);
    HoldersEqual(ok, n, taken, rivals, holders);
    var s := Inverse(q, n);
    var wanted := holders + {j};
    hide Rivals, Holders, Uniform, GreedyRun, Fits;
    InjectiveSize(wanted, s);
    if Fits(ok, q) {
      forall k | k in wanted ensures s[k] in rivals {
        WantedByRival(ok, n, taken, q, s, k);
      }
      SmallerSet(set k | k in wanted :: s[k], rivals);
    }
  }

  lemma WantedByRival(ok: Relation, n: nat, taken: seq<nat>, q: seq<nat>, s: seq<nat>, k: nat)
    requires Uniform(ok, n) && |taken| < n && Fits(ok, q) && |q| == |s| == n && k <= |taken| && Below(s, n)
    requires k < |taken| ==> taken[k] < n && ok(taken[k], k) && ok(taken[k], |taken|)
    requires q[s[k]] == k
    ensures s[k] in Rivals(ok, n, |taken|)
  {
    assert ok(s[k], q[s[k]]);
    InIndices(n, s[k]);
  }

  lemma InIndices(n: nat, x: nat)
    requires x < n
    ensures x in Elements(Indices(n))
  {
    assert Indices(n)[x] == x;
  }

  lemma SmallerSet<T>(a: set<T>, b: set<T>)
    requires a <= b
    ensures |a| <= |b|
  {
    assert |b - a| == |b| - |a|;
  }

  lemma {:induction false} InjectiveSize(ks: set<nat>, s: seq<nat>)
    requires (forall k | k in ks :: k < |s|) && Distinct(s)
    ensures |set k | k in ks :: s[k]| == |ks|
  {
    if ks != {} {
      var x :| x in ks;
      var rest := ks - {x};
      InjectiveSize(rest, s);
      assert (set k | k in ks :: s[k]) == (set k | k in rest :: s[k]) + {s[x]};
      assert s[x] !in (set k | k in rest :: s[k]);
    }
  }

  lemma HoldersEqual(ok: Relation, n: nat, taken: seq<nat>, rivals: set<nat>, holders: set<nat>)
    requires GreedyRun(ok, n, taken) && |taken| < n
    requires forall i: nat :: i < n && ok(i, |taken|) ==> i in taken
    requires rivals == Rivals(ok, n, |taken|) && holders == Holders(ok, n, taken, |taken|)
    ensures |holders| == |rivals| && |taken| !in holders
    ensures forall k :: k in holders ==> k < |taken| && ok(taken[k], k) && ok(taken[k], |taken|) && taken[k] < n
  {
    InjectiveSize(holders, taken);
    var held := set k | k in holders :: taken[k];
    forall i | i in rivals ensures i in held {
      assert i in taken;
      var k: nat :| k < |taken| && taken[k] == i;
      InIndices(|taken|, k);
    }
    assert held == rivals;
  }

  // ---- when the answer does not depend on the order --------------------------------------------

  /** The answer of the check above six calls. */
  ghost predicate Accepts(ok: Relation, n: nat) {
    Fits(ok, Indices(n)) || exists taken :: GreedyRun(ok, n, taken) && |taken| == n
  }

  /** The same calls listed in another order: prediction i is the a[i]-th, ground truth j the b[j]-th. */
  ghost function Reordered(ok: Relation, a: seq<nat>, b: seq<nat>): Relation {
    (i: nat, j: nat) => i < |a| && j < |b| && ok(a[i], b[j])
  }

  ghost predicate AcceptsAllOrders(ok: Relation, n: nat) {
    forall a, b :: IsPermutation(a, n) && IsPermutation(b, n) ==> Accepts(Reordered(ok, a, b), n)
  }

  /** An assignment but for one pair, which is not acceptable. */
  ghost predicate NearFit(ok: Relation, n: nat, q: seq<nat>, p: nat) {
    IsPermutation(q, n) && p < n && !ok(p, q[p]) && forall i: nat :: i < n && i != p ==> ok(i, q[i])
  }

  function Swap(q: seq<nat>, x: nat, y: nat): (r: seq<nat>)
    requires x < |q| && y < |q|
    ensures |r| == |q| && r[x] == q[y] && r[y] == q[x] && forall i :: 0 <= i < |q| && i != x && i != y ==> r[i] == q[i]
  {
    q[x := q[y]][y := q[x]]
  }

  lemma SwapPermutes(q: seq<nat>, n: nat, x: nat, y: nat)
    requires IsPermutation(q, n) && x < n && y < n
    ensures IsPermutation(Swap(q, x, y), n)
  {
  }

  /** Without near fits, two predictions of an assignment can trade one way only if both ways. */
  lemma Trade(ok: Relation, n: nat, q: seq<nat>, x: nat, y: nat)
    requires IsPermutation(q, n) && Fits(ok, q) && x < n && y < n && x != y && ok(x, q[y])
    requires forall r, p: nat :: !NearFit(ok, n, r, p)
    ensures ok(y, q[x]) && IsPermutation(Swap(q, x, y), n) && Fits(ok, Swap(q, x, y))
  {
    SwapPermutes(q, n, x, y);
    assert !NearFit(ok, n, Swap(q, x, y), y);
  }

  /** Then the relation is uniform: trading along i, i' and the holder of j' closes the square. */
  lemma NoNearFitUniform(ok: Relation, n: nat, i: nat, i': nat, j: nat, j': nat)
    requires Assignable(ok, n) && forall r, p: nat :: !NearFit(ok, n, r, p)
    requires i < n && i' < n && j < n && j' < n && ok(i, j) && ok(i', j) && ok(i, j')
    ensures ok(i', j')
  {
    hide IsPermutation, Fits, NearFit, Swap;
    var q := AssignmentWith(ok, n, i, j);
    if i != i' && j != j' {
      var x := Holder(q, n, j');
      OneEach(q, n, i, x);
      if x != i' {
        Trade(ok, n, q, i', i);
        var q1 := Swap(q, i', i);
        SwapAt(q, i', i, x);
        Trade(ok, n, q1, i, x);
        Trade(ok, n, q, x, i');
      } else {
        FitsAt(ok, q, n, i');
      }
    }
  }

  lemma Holder(q: seq<nat>, n: nat, j: nat) returns (x: nat)
    requires IsPermutation(q, n) && j < n
    ensures x < n == |q| && q[x] == j
  {
    PermutationHasAll(q, n);
    x := Where(q, j);
  }

  lemma OneEach(q: seq<nat>, n: nat, i: nat, x: nat)
    requires IsPermutation(q, n) && i < n && x < n
    ensures |q| == n && (q[i] == q[x] ==> i == x)
  {
  }

  lemma SwapAt(q: seq<nat>, x: nat, y: nat, k: nat)
    requires x < |q| && y < |q| && k < |q|
    ensures var r := Swap(q, x, y);
            |r| == |q| && r[x] == q[y] && r[y] == q[x] && (k != x && k != y ==> r[k] == q[k])
  {
  }

  lemma FitsAt(ok: Relation, q: seq<nat>, n: nat, i: nat)
    requires IsPermutation(q, n) && Fits(ok, q) && i < n
    ensures |q| == n && ok(i, q[i])
  {
  }

  lemma AssignmentWith(ok: Relation, n: nat, i: nat, j: nat) returns (q: seq<nat>)
    requires Assignable(ok, n) && (forall r, p: nat :: !NearFit(ok, n, r, p)) && i < n && j < n && ok(i, j)
    ensures IsPermutation(q, n) && Fits(ok, q) && |q| == n && q[i] == j
  {
    hide NearFit;
    q :| IsPermutation(q, n) && Fits(ok, q);
    var x := Holder(q, n, j);
    if x != i {
      Trade(ok, n, q, i, x);
      SwapAt(q, i, x, x);
      q := Swap(q, i, x);
    }
  }

  /** Where every call but the last fits its own ground truth, the greedy run takes each in order and
      the last one is stuck. */
  lemma StuckAtLast(ok: Relation, n: nat)
    requires n > 0 && !ok(n - 1, n - 1) && forall k: nat :: k < n - 1 ==> ok(k, k)
    ensures !Accepts(ok, n)
  {
    var taken := Indices(n - 1);
    assert !ok(n - 1, Indices(n)[n - 1]);
    forall i: nat, j: nat | j < n - 1 && i < j ensures i in taken[..j] {
      assert taken[..j][i] == i;
    }
    assert GreedyRun(ok, n, taken);
    forall i: nat | i < n && ok(i, n - 1) ensures i in taken {
      assert taken[i] == i;
    }
    hide GreedyRun;
    forall t | GreedyRun(ok, n, t) ensures |t| < n {
      GreedyStuck(ok, n, taken, t);
      RunLength(ok, n, t);
    }
  }

  lemma Composed(q: seq<nat>, a: seq<nat>, n: nat) returns (b: seq<nat>)
    requires IsPermutation(q, n) && IsPermutation(a, n)
    ensures IsPermutation(b, n) && forall k :: 0 <= k < n ==> b[k] == q[a[k]]
  {
    b := seq(n, k requires 0 <= k < n => q[a[k]]);
    forall i, k | 0 <= i < k < n ensures b[i] != b[k] {
      assert a[i] != a[k] && a[i] < n && a[k] < n;
    }
  }

  /** A near fit listed with its bad pair last is rejected. */
  lemma NearFitRejected(ok: Relation, n: nat, q: seq<nat>, p: nat) returns (a: seq<nat>, b: seq<nat>)
    requires NearFit(ok, n, q, p)
    ensures IsPermutation(a, n) && IsPermutation(b, n) && !Accepts(Reordered(ok, a, b), n)
  {
    a := Swap(Indices(n), p, n - 1);
    SwapPermutes(Indices(n), n, p, n - 1);
    b := Composed(q, a, n);
    hide Swap, Accepts;
    forall k: nat | k < n - 1 ensures Reordered(ok, a, b)(k, k) {
      assert a[k] != a[n - 1] && a[k] < n;
    }
    StuckAtLast(Reordered(ok, a, b), n);
  }

  /** The greedy loop goes on until it is done or stuck. */
  lemma {:induction false} GreedyEnds(ok: Relation, n: nat, taken: seq<nat>) returns (t: seq<nat>)
    requires GreedyRun(ok, n, taken)
    ensures GreedyRun(ok, n, t) && (|t| == n || forall i: nat :: i < n && ok(i, |t|) ==> i in t)
    decreases n - |taken|
  {
    hide GreedyRun;
    t := taken;
    RunLength(ok, n, taken);
    if |taken| < n && exists i: nat :: i < n && ok(i, |taken|) && i !in taken {
      var i := FirstUnused(ok, n, taken, 0);
      GreedyNext(ok, n, taken, i);
      t := GreedyEnds(ok, n, taken + [i]);
    }
  }

  lemma RunLength(ok: Relation, n: nat, taken: seq<nat>)
    requires GreedyRun(ok, n, taken)
    ensures |taken| <= n
  {
  }

  lemma {:induction false} FirstUnused(ok: Relation, n: nat, taken: seq<nat>, from: nat) returns (i: nat)
    requires exists k: nat :: from <= k < n && ok(k, |taken|) && k !in taken
    requires forall k: nat :: k < from && ok(k, |taken|) ==> k in taken
    ensures i < n && ok(i, |taken|) && i !in taken && forall k: nat :: k < i && ok(k, |taken|) ==> k in taken
    decreases n - from
  {
    if ok(from, |taken|) && from !in taken {
      i := from;
    } else {
      i := FirstUnused(ok, n, taken, from + 1);
    }
  }

  lemma ReorderedAssignable(ok: Relation, n: nat, a: seq<nat>, b: seq<nat>)
    requires Assignable(ok, n) && IsPermutation(a, n) && IsPermutation(b, n)
    ensures Assignable(Reordered(ok, a, b), n)
  {
    var q :| IsPermutation(q, n) && Fits(ok, q);
    var c := Inverse(b, n);
    var q' := seq(n, i requires 0 <= i < n => c[q[a[i]]]);
    forall i, k | 0 <= i < k < n ensures q'[i] != q'[k] {
      assert a[i] != a[k] && q[a[i]] != q[a[k]];
      assert b[q'[i]] == q[a[i]] && b[q'[k]] == q[a[k]];
    }
    assert IsPermutation(q', n);
    forall i: nat | i < n ensures Reordered(ok, a, b)(i, q'[i]) {
      assert b[q'[i]] == q[a[i]] && ok(a[i], q[a[i]]);
    }
  }

  lemma ReorderedUniform(ok: Relation, n: nat, a: seq<nat>, b: seq<nat>)
    requires Uniform(ok, n) && IsPermutation(a, n) && IsPermutation(b, n)
    ensures Uniform(Reordered(ok, a, b), n)
  {
  }

  /** Exactly the uniform relations are those on which the answer, yes for an assignable one, does not
      depend on the order of the calls. */
  lemma OrderIgnoredIffUniform(ok: Relation, n: nat)
    requires Assignable(ok, n)
    ensures AcceptsAllOrders(ok, n) <==> Uniform(ok, n)
  {
    hide Accepts, Reordered, IsPermutation, NearFit, Fits, GreedyRun;
    if Uniform(ok, n) {
      forall a, b | IsPermutation(a, n) && IsPermutation(b, n) ensures Accepts(Reordered(ok, a, b), n) {
        ReorderedAssignable(ok, n, a, b);
        ReorderedUniform(ok, n, a, b);
        UniformAccepted(Reordered(ok, a, b), n);
      }
    }
    if AcceptsAllOrders(ok, n) {
      forall q, p: nat ensures !NearFit(ok, n, q, p) {
        if NearFit(ok, n, q, p) {
          var a, b := NearFitRejected(ok, n, q, p);
        }
      }
      forall i: nat, i': nat, j: nat, j': nat
        | i < n && i' < n && j < n && j' < n && ok(i, j) && ok(i', j) && ok(i, j')
        ensures ok(i', j')
      {
        NoNearFitUniform(ok, n, i, i', j, j');
      }
    }
  }

  lemma UniformAccepted(ok: Relation, n: nat)
    requires Assignable(ok, n) && Uniform(ok, n)
    ensures Accepts(ok, n)
  {
    assert GreedyRun(ok, n, []);
    hide Uniform, Fits;
    var t := GreedyEnds(ok, n, []);
    if |t| < n {
      GreedyCompleteWhenUniform(ok, n, t);
    }
  }
}
