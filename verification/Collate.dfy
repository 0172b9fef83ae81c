/** Right-padding a batch of samples to its longest row. */
module Collate {
  import opened Latent
  import opened LatentPlugin

  datatype Item = Item(ids: seq<int>, labels: seq<int>, mask: seq<bool>)

  predicate Parallel(item: Item) {
    |item.ids| == |item.labels| == |item.mask|
  }

  method Longest(batch: seq<Item>) returns (t: nat)
    requires batch != []
    ensures forall i :: 0 <= i < |batch| ==> |batch[i].ids| <= t
    ensures exists i :: 0 <= i < |batch| && |batch[i].ids| == t
  {
    t := |batch[0].ids|;
    for i := 1 to |batch|
      invariant forall j :: 0 <= j < i ==> |batch[j].ids| <= t
      invariant exists j :: 0 <= j < i && |batch[j].ids| == t
    {
      if |batch[i].ids| > t {
        t := |batch[i].ids|;
      }
    }
  }

  /** Row i holds xs and then the pad value. */
  ghost predicate RowHolds<T>(m: array2<T>, i: nat, xs: seq<T>, pad: T)
    requires i < m.Length0
    reads m
  {
    |xs| <= m.Length1 && forall j :: 0 <= j < m.Length1 ==> m[i, j] == if j < |xs| then xs[j] else pad
  }

  /** Row i holds only the pad value. */
  ghost predicate RowClear<T>(m: array2<T>, i: nat, pad: T)
    requires i < m.Length0
    reads m
  {
    forall j :: 0 <= j < m.Length1 ==> m[i, j] == pad
  }

  /** `row[:len(xs)] = xs` in row i. */
  method FillRow<T>(m: array2<T>, i: nat, xs: seq<T>, ghost pad: T)
    requires i < m.Length0 && |xs| <= m.Length1 && RowClear(m, i, pad)
    modifies m
    ensures RowHolds(m, i, xs, pad)
    ensures forall a, j :: 0 <= a < m.Length0 && a != i && 0 <= j < m.Length1 ==> m[a, j] == old(m[a, j])
    ensures forall a :: 0 <= a < m.Length0 && a != i && old(RowClear(m, a, pad)) ==> RowClear(m, a, pad)
  {
    forall j | 0 <= j < |xs| {
      m[i, j] := xs[j];
    }
    forall a | 0 <= a < m.Length0 && a != i && old(RowClear(m, a, pad)) ensures RowClear(m, a, pad) {
      forall j | 0 <= j < m.Length1 ensures m[a, j] == pad {
        assert old(m[a, j]) == pad;
      }
    }
  }

  /** One of the four matrices: full of the pad value, then filled row by row. */
  method Matrix<T>(rows: seq<seq<T>>, t: nat, pad: T) returns (m: array2<T>)
    requires forall i :: 0 <= i < |rows| ==> |rows[i]| <= t
    ensures fresh(m) && m.Length0 == |rows| && m.Length1 == t
    ensures forall i :: 0 <= i < |rows| ==> RowHolds(m, i, rows[i], pad)
  {
    m := new T[|rows|, t]((i, j) => pad);
    for i := 0 to |rows|
      invariant forall k :: 0 <= k < i ==> RowHolds(m, k, rows[k], pad)
      invariant forall k :: i <= k < |rows| ==> RowClear(m, k, pad)
    {
      FillRow(m, i, rows[i], pad);
    }
  }

  /** `collate_fn`: every row holds its sample and then padding; the attention mask tells which is
      which. */
  method CollateFn(batch: seq<Item>, padId: int, ignore: int)
    returns (ids: array2<int>, labels: array2<int>, mask: array2<bool>, attn: array2<bool>)
    requires batch != [] && forall i :: 0 <= i < |batch| ==> Parallel(batch[i])
    ensures ids.Length0 == labels.Length0 == mask.Length0 == attn.Length0 == |batch|
    ensures exists i :: 0 <= i < |batch| && |batch[i].ids| == ids.Length1 == labels.Length1 == mask.Length1 == attn.Length1
    ensures forall i :: 0 <= i < |batch| ==>
      && RowHolds(ids, i, batch[i].ids, padId) && RowHolds(labels, i, batch[i].labels, ignore)
      && RowHolds(mask, i, batch[i].mask, false) && RowHolds(attn, i, Trues(|batch[i].ids|), false)
  {
    var t := Longest(batch);
    var b := |batch|;
    var idRows := seq(b, i requires 0 <= i < b => batch[i].ids);
    var labelRows := seq(b, i requires 0 <= i < b => batch[i].labels);
    var maskRows := seq(b, i requires 0 <= i < b => batch[i].mask);
    var attnRows := seq(b, i requires 0 <= i < b => Trues(|batch[i].ids|));
    hide RowHolds;
    ids := Matrix(idRows, t, padId);
    labels := Matrix(labelRows, t, ignore);
    mask := Matrix(maskRows, t, false);
    attn := Matrix(attnRows, t, false);
    forall i | 0 <= i < b ensures
      && RowHolds(ids, i, batch[i].ids, padId) && RowHolds(labels, i, batch[i].labels, ignore)
      && RowHolds(mask, i, batch[i].mask, false) && RowHolds(attn, i, Trues(|batch[i].ids|), false)
    {
      assert idRows[i] == batch[i].ids && labelRows[i] == batch[i].labels;
      assert maskRows[i] == batch[i].mask && attnRows[i] == Trues(|batch[i].ids|);
    }
  }
}
