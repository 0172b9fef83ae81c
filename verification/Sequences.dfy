/** Sequences of sequences, and sequences of one value. */
module Sequences {

  function Flatten<T>(xs: seq<seq<T>>): seq<T> {
    if xs == [] then [] else xs[0] + Flatten(xs[1..])
  }

  lemma {:induction false} FlattenConcat<T>(xs: seq<seq<T>>, ys: seq<seq<T>>)
    ensures Flatten(xs + ys) == Flatten(xs) + Flatten(ys)
  {
    if xs == [] {
      assert xs + ys == ys;
    } else {
      assert (xs + ys)[1..] == xs[1..] + ys && (xs + ys)[0] == xs[0];
      FlattenConcat(xs[1..], ys);
      Unfold(xs);
      Unfold(xs + ys);
      hide Flatten;
      assert xs[0] + (Flatten(xs[1..]) + Flatten(ys)) == xs[0] + Flatten(xs[1..]) + Flatten(ys);
    }
  }

  lemma Unfold<T>(xs: seq<seq<T>>)
    requires xs != []
    ensures Flatten(xs) == xs[0] + Flatten(xs[1..])
  {
  }

  lemma FlattenOne<T>(x: seq<T>)
    ensures Flatten([x]) == x
  {
    assert [x][1..] == [];
  }

  lemma FlattenAppend<T>(xs: seq<seq<T>>, y: seq<T>)
    ensures Flatten(xs + [y]) == Flatten(xs) + y
  {
    FlattenConcat(xs, [y]);
    FlattenOne(y);
  }

  lemma FlattenLast<T>(xs: seq<seq<T>>)
    requires xs != []
    ensures Flatten(xs) == Flatten(xs[..|xs| - 1]) + xs[|xs| - 1]
  {
    FlattenAppend(xs[..|xs| - 1], xs[|xs| - 1]);
    assert xs == xs[..|xs| - 1] + [xs[|xs| - 1]];
  }

  function Copies<T>(n: nat, x: T): (s: seq<T>)
    ensures |s| == n && forall i :: 0 <= i < n ==> s[i] == x
  {
    seq(n, _ => x)
  }
}
