/**
 * Segmentation scores derived from an n x n confusion matrix whose entry
 * (i, j) counts the pixels of ground-truth class i predicted as class j.
 * A ratio whose denominator is 0 is NaN in NumPy; here it is `None`, and
 * the NaN-skipping means ignore it.
 */
module SegMetrics {
  import opened Wrappers

  type Matrix = seq<seq<nat>>

  predicate IsSquare(h: Matrix) {
    forall i :: 0 <= i < |h| ==> |h[i]| == |h|
  }

  function Sum(s: seq<nat>): nat {
    if s == [] then 0 else Sum(s[..|s| - 1]) + s[|s| - 1]
  }

  /** `hist.sum(1)[i]`: pixels of ground-truth class i. */
  function RowSum(h: Matrix, i: nat): nat
    requires IsSquare(h) && i < |h|
  {
    Sum(h[i])
  }

  function ColSumTo(h: Matrix, j: nat, k: nat): nat
    requires IsSquare(h) && j < |h| && k <= |h|
  {
    if k == 0 then 0 else ColSumTo(h, j, k - 1) + h[k - 1][j]
  }

  /** `hist.sum(0)[j]`: pixels predicted as class j. */
  function ColSum(h: Matrix, j: nat): nat
    requires IsSquare(h) && j < |h|
  {
    ColSumTo(h, j, |h|)
  }

  function TraceTo(h: Matrix, k: nat): nat
    requires IsSquare(h) && k <= |h|
  {
    if k == 0 then 0 else TraceTo(h, k - 1) + h[k - 1][k - 1]
  }

  /** `np.diag(hist).sum()`: correctly labelled pixels. */
  function Trace(h: Matrix): nat
    requires IsSquare(h)
  {
    TraceTo(h, |h|)
  }

  function TotalTo(h: Matrix, k: nat): nat
    requires IsSquare(h) && k <= |h|
  {
    if k == 0 then 0 else TotalTo(h, k - 1) + RowSum(h, k - 1)
  }

  /** `hist.sum()`: all counted pixels. */
  function Total(h: Matrix): nat
    requires IsSquare(h)
  {
    TotalTo(h, |h|)
  }

  /** The IoU denominator of class i: row sum plus column sum minus the diagonal entry. */
  function Union(h: Matrix, i: nat): int
    requires IsSquare(h) && i < |h|
  {
    RowSum(h, i) + ColSum(h, i) - h[i][i]
  }

  /** `num / den`, undefined when `den` is 0. */
  function Ratio(num: nat, den: nat): (r: Option<real>)
    ensures r.None? <==> den == 0
    ensures r.Some? ==> r.value * den as real == num as real
    ensures r.Some? ==> 0.0 <= r.value && (r.value > 0.0 <==> num > 0)
    ensures r.Some? && num <= den ==> r.value <= 1.0
  {
    if den == 0 then None else Some(num as real / den as real)
  }

  lemma MulLeMono(a: real, b: real, c: real)
    requires a <= b && 0.0 <= c
    ensures a * c <= b * c
  {
  }

  lemma MulLeMonoLeft(c: real, a: real, b: real)
    requires a <= b && 0.0 <= c
    ensures c * a <= c * b
  {
  }

  lemma MulCancelLe(a: real, b: real, c: real)
    requires a * c <= b * c && 0.0 < c
    ensures a <= b
  {
  }

  lemma DivAdd(a: real, b: real, t: real)
    requires t > 0.0
    ensures a / t + b / t == (a + b) / t
  {
  }

  /** (rs / t) * (d / u) <= d / t when rs <= u. */
  lemma WeightedRatioBound(f: real, v: real, t: real, rs: real, u: real, d: real)
    requires f * t == rs && v * u == d && 0.0 < rs <= u && t > 0.0 && d >= 0.0 && v >= 0.0 && f >= 0.0
    ensures f * v <= d / t
  {
    MulLeMono(rs, u, v);
    assert f * v * t == rs * v;
    assert (d / t) * t == d;
    MulCancelLe(f * v, d / t, t);
  }

  /** d / u <= d / rs when 0 < rs <= u. */
  lemma SmallerRatioBound(v: real, a: real, rs: real, u: real, d: real)
    requires v * u == d && a * rs == d && 0.0 < rs <= u && 0.0 <= v
    ensures v <= a
  {
    MulLeMonoLeft(v, rs, u);
    MulCancelLe(v, a, rs);
  }

  lemma MeanBound(lo: real, hi: real, s: real, n: real)
    requires n > 0.0 && lo * n <= s <= hi * n
    ensures lo <= s / n <= hi
  {
    var m := s / n;
    assert m * n == s;
    MulCancelLe(lo, m, n);
    MulCancelLe(m, hi, n);
  }

  lemma {:induction false} ElemLeSum(s: seq<nat>, k: nat)
    requires k < |s|
    ensures s[k] <= Sum(s)
  {
    if k < |s| - 1 {
      ElemLeSum(s[..|s| - 1], k);
    }
  }

  lemma {:induction false} ElemLeColSumTo(h: Matrix, i: nat, j: nat, k: nat)
    requires IsSquare(h) && i < k <= |h| && j < |h|
    ensures h[i][j] <= ColSumTo(h, j, k)
  {
    if i < k - 1 {
      ElemLeColSumTo(h, i, j, k - 1);
    }
  }

  lemma {:induction false} TraceToLeTotalTo(h: Matrix, k: nat)
    requires IsSquare(h) && k <= |h|
    ensures TraceTo(h, k) <= TotalTo(h, k)
  {
    if k > 0 {
      TraceToLeTotalTo(h, k - 1);
      ElemLeSum(h[k - 1], k - 1);
    }
  }

  lemma {:induction false} RowLeTotalTo(h: Matrix, i: nat, k: nat)
    requires IsSquare(h) && i < k <= |h|
    ensures RowSum(h, i) <= TotalTo(h, k)
  {
    if i < k - 1 {
      RowLeTotalTo(h, i, k - 1);
    }
  }

  /** The diagonal entry is counted in both its row and its column, and the union covers both. */
  lemma DiagonalBounds(h: Matrix, i: nat)
    requires IsSquare(h) && i < |h|
    ensures h[i][i] <= RowSum(h, i) && h[i][i] <= ColSum(h, i)
    ensures RowSum(h, i) <= Union(h, i) && ColSum(h, i) <= Union(h, i)
    ensures RowSum(h, i) <= Total(h)
  {
    ElemLeSum(h[i], i);
    ElemLeColSumTo(h, i, i, |h|);
    RowLeTotalTo(h, i, |h|);
  }

  /** An all-zero total means every row is empty. */
  lemma {:induction false} ZeroTotalTo(h: Matrix, k: nat)
    requires IsSquare(h) && k <= |h| && TotalTo(h, k) == 0
    ensures forall i :: 0 <= i < k ==> RowSum(h, i) == 0
  {
    if k > 0 {
      ZeroTotalTo(h, k - 1);
    }
  }

  /** A positive total has a non-empty row. */
  lemma {:induction false} PositiveTotalTo(h: Matrix, k: nat) returns (i: nat)
    requires IsSquare(h) && k <= |h| && TotalTo(h, k) > 0
    ensures i < k && RowSum(h, i) > 0
  {
    if RowSum(h, k - 1) > 0 {
      i := k - 1;
    } else {
      i := PositiveTotalTo(h, k - 1);
    }
  }

  /** Overall pixel accuracy `trace / total`, a value in [0, 1] whenever pixels were counted. */
  function OverallAccuracy(h: Matrix): (r: Option<real>)
    requires IsSquare(h)
    ensures r.None? <==> Total(h) == 0
    ensures r.Some? ==> r.value * Total(h) as real == Trace(h) as real
    ensures r.Some? ==> 0.0 <= r.value <= 1.0
  {
    TraceToLeTotalTo(h, |h|);
    Ratio(Trace(h), Total(h))
  }

  /** Accuracy of class i, `diag[i] / rowSum[i]`, undefined for a class absent from the ground truth. */
  function ClassAccuracy(h: Matrix, i: nat): (r: Option<real>)
    requires IsSquare(h) && i < |h|
    ensures r.None? <==> RowSum(h, i) == 0
    ensures r.Some? ==> r.value * RowSum(h, i) as real == h[i][i] as real
    ensures r.Some? ==> 0.0 <= r.value <= 1.0
  {
    DiagonalBounds(h, i);
    Ratio(h[i][i], RowSum(h, i))
  }

  /** IoU of class i, `diag[i] / union[i]`, undefined when the class is neither present nor predicted. */
  function IoU(h: Matrix, i: nat): (r: Option<real>)
    requires IsSquare(h) && i < |h|
    ensures r.None? <==> Union(h, i) == 0
    ensures r.Some? ==> r.value * Union(h, i) as real == h[i][i] as real
    ensures r.Some? ==> 0.0 <= r.value <= 1.0
  {
    DiagonalBounds(h, i);
    Ratio(h[i][i], Union(h, i) as nat)
  }

  /** An IoU never exceeds the class accuracy: the union is at least the row sum. */
  lemma IoULeClassAccuracy(h: Matrix, i: nat)
    requires IsSquare(h) && i < |h|
    ensures IoU(h, i).Some? && ClassAccuracy(h, i).Some? ==> IoU(h, i).value <= ClassAccuracy(h, i).value
  {
    DiagonalBounds(h, i);
    if IoU(h, i).Some? && ClassAccuracy(h, i).Some? {
      var v, a := IoU(h, i).value, ClassAccuracy(h, i).value;
      var d, u, rs := h[i][i] as real, Union(h, i) as real, RowSum(h, i) as real;
      assert v * u == d && a * rs == d && rs <= u && rs > 0.0;
      SmallerRatioBound(v, a, rs, u, d);
    }
  }

  function DefinedSum(xs: seq<Option<real>>): real {
    if xs == [] then 0.0
    else DefinedSum(xs[..|xs| - 1]) + (if xs[|xs| - 1].Some? then xs[|xs| - 1].value else 0.0)
  }

  function DefinedCount(xs: seq<Option<real>>): nat {
    if xs == [] then 0
    else DefinedCount(xs[..|xs| - 1]) + (if xs[|xs| - 1].Some? then 1 else 0)
  }

  /** `np.nanmean`: the mean of the defined entries, undefined when there is none. */
  function NanMean(xs: seq<Option<real>>): (r: Option<real>)
    ensures r.None? <==> DefinedCount(xs) == 0
  {
    if DefinedCount(xs) == 0 then None else Some(DefinedSum(xs) / DefinedCount(xs) as real)
  }

  lemma {:induction false} DefinedCountZero(xs: seq<Option<real>>)
    ensures DefinedCount(xs) == 0 <==> forall k :: 0 <= k < |xs| ==> xs[k].None?
  {
    if xs != [] {
      DefinedCountZero(xs[..|xs| - 1]);
      assert forall k :: 0 <= k < |xs| - 1 ==> xs[..|xs| - 1][k] == xs[k];
    }
  }

  lemma DefinedSumBounds(xs: seq<Option<real>>, lo: real, hi: real)
    requires forall k :: 0 <= k < |xs| && xs[k].Some? ==> lo <= xs[k].value <= hi
    ensures lo * DefinedCount(xs) as real <= DefinedSum(xs) <= hi * DefinedCount(xs) as real
  {
    DefinedSumScaled(xs, lo, hi);
    ScaledIsProduct(lo, DefinedCount(xs));
    ScaledIsProduct(hi, DefinedCount(xs));
  }

  /** `n` copies of `v` added up, a product written without multiplication. */
  function Scaled(v: real, n: nat): real {
    if n == 0 then 0.0 else Scaled(v, n - 1) + v
  }

  lemma {:induction false} ScaledIsProduct(v: real, n: nat)
    ensures Scaled(v, n) == v * n as real
  {
    if n > 0 {
      ScaledIsProduct(v, n - 1);
      assert v * n as real == v * (n - 1) as real + v;
    }
  }

  lemma {:induction false} DefinedSumScaled(xs: seq<Option<real>>, lo: real, hi: real)
    requires forall k :: 0 <= k < |xs| && xs[k].Some? ==> lo <= xs[k].value <= hi
    ensures Scaled(lo, DefinedCount(xs)) <= DefinedSum(xs) <= Scaled(hi, DefinedCount(xs))
  {
    if xs != [] {
      var init := xs[..|xs| - 1];
      assert forall k :: 0 <= k < |init| ==> init[k] == xs[k];
      DefinedSumScaled(init, lo, hi);
    }
  }

  /** A NaN-skipping mean lies between any bounds of the defined entries. */
  lemma NanMeanBounds(xs: seq<Option<real>>, lo: real, hi: real)
    requires forall k :: 0 <= k < |xs| && xs[k].Some? ==> lo <= xs[k].value <= hi
    ensures NanMean(xs).Some? ==> lo <= NanMean(xs).value <= hi
  {
    DefinedSumBounds(xs, lo, hi);
    if DefinedCount(xs) > 0 {
      MeanBound(lo, hi, DefinedSum(xs), DefinedCount(xs) as real);
    }
  }

  lemma {:induction false} DefinedConcat(xs: seq<Option<real>>, ys: seq<Option<real>>)
    ensures DefinedSum(xs + ys) == DefinedSum(xs) + DefinedSum(ys)
    ensures DefinedCount(xs + ys) == DefinedCount(xs) + DefinedCount(ys)
  {
    if ys == [] {
      assert xs + ys == xs;
    } else {
      assert (xs + ys)[..|xs + ys| - 1] == xs + ys[..|ys| - 1];
      DefinedConcat(xs, ys[..|ys| - 1]);
    }
  }

  /** Undefined entries do not take part in a NaN-skipping mean. */
  lemma NanMeanSkipsUndefined(xs: seq<Option<real>>, ys: seq<Option<real>>)
    ensures NanMean(xs + [None] + ys) == NanMean(xs + ys)
  {
    DefinedConcat(xs, [None]);
    DefinedConcat(xs + [None], ys);
    DefinedConcat(xs, ys);
    var none: seq<Option<real>> := [None];
    assert none[..0] == [];
    assert DefinedSum(none) == 0.0 && DefinedCount(none) == 0;
  }

  function ClassAccuracies(h: Matrix): (r: seq<Option<real>>)
    requires IsSquare(h)
    ensures |r| == |h| && forall i :: 0 <= i < |h| ==> r[i] == ClassAccuracy(h, i)
    ensures forall i :: 0 <= i < |h| ==> (r[i].None? <==> RowSum(h, i) == 0)
    ensures forall i :: 0 <= i < |h| && r[i].Some? ==> 0.0 <= r[i].value <= 1.0
  {
    seq(|h|, i requires 0 <= i < |h| => ClassAccuracy(h, i))
  }

  function IoUs(h: Matrix): (r: seq<Option<real>>)
    requires IsSquare(h)
    ensures |r| == |h| && forall i :: 0 <= i < |h| ==> r[i] == IoU(h, i)
    ensures forall i :: 0 <= i < |h| ==> (r[i].None? <==> Union(h, i) == 0)
    ensures forall i :: 0 <= i < |h| && r[i].Some? ==> 0.0 <= r[i].value <= 1.0
  {
    seq(|h|, i requires 0 <= i < |h| => IoU(h, i))
  }

  /** Mean class accuracy and mean IoU are in [0, 1], and undefined exactly when no pixel was counted. */
  lemma MeansBounds(h: Matrix)
    requires IsSquare(h)
    ensures NanMean(ClassAccuracies(h)).Some? ==> 0.0 <= NanMean(ClassAccuracies(h)).value <= 1.0
    ensures NanMean(IoUs(h)).Some? ==> 0.0 <= NanMean(IoUs(h)).value <= 1.0
    ensures NanMean(ClassAccuracies(h)).None? <==> Total(h) == 0
    ensures NanMean(IoUs(h)).None? <==> Total(h) == 0
  {
    NanMeanBounds(ClassAccuracies(h), 0.0, 1.0);
    NanMeanBounds(IoUs(h), 0.0, 1.0);
    DefinedCountZero(ClassAccuracies(h));
    DefinedCountZero(IoUs(h));
    if Total(h) == 0 {
      ZeroTotalTo(h, |h|);
      forall i | 0 <= i < |h| ensures Union(h, i) == 0 {
        DiagonalBounds(h, i);
        ZeroColSum(h, i);
      }
    } else {
      var i := PositiveTotalTo(h, |h|);
      DiagonalBounds(h, i);
      assert ClassAccuracies(h)[i].Some? && IoUs(h)[i].Some?;
    }
  }

  lemma ZeroColSum(h: Matrix, j: nat)
    requires IsSquare(h) && j < |h| && Total(h) == 0
    ensures ColSum(h, j) == 0
  {
    ZeroTotalTo(h, |h|);
    ZeroColSumTo(h, j, |h|);
  }

  lemma {:induction false} ZeroColSumTo(h: Matrix, j: nat, k: nat)
    requires IsSquare(h) && j < |h| && k <= |h|
    requires forall i :: 0 <= i < |h| ==> RowSum(h, i) == 0
    ensures ColSumTo(h, j, k) == 0
  {
    if k > 0 {
      ZeroColSumTo(h, j, k - 1);
      ElemLeSum(h[k - 1], j);
      assert RowSum(h, k - 1) == 0;
    }
  }

  /** `hist.sum(1) / hist.sum()`: the share of class i in the ground truth. */
  function Frequency(h: Matrix, i: nat): (r: Option<real>)
    requires IsSquare(h) && i < |h|
    ensures r.None? <==> Total(h) == 0
    ensures r.Some? ==> (r.value > 0.0 <==> RowSum(h, i) > 0)
  {
    Ratio(RowSum(h, i), Total(h))
  }

  /** One summand of fwavacc: frequency times IoU for a class with positive frequency, else nothing. */
  function FwTerm(h: Matrix, i: nat): real
    requires IsSquare(h) && i < |h|
  {
    match Frequency(h, i)
    case Some(f) =>
      if f > 0.0 then
        DiagonalBounds(h, i);
        f * IoU(h, i).value
      else 0.0
    case None => 0.0
  }

  function FwSum(h: Matrix, k: nat): real
    requires IsSquare(h) && k <= |h|
  {
    if k == 0 then 0.0 else FwSum(h, k - 1) + FwTerm(h, k - 1)
  }

  /** Frequency-weighted IoU, summed only over classes present in the ground truth. */
  function FwAvAcc(h: Matrix): real
    requires IsSquare(h)
  {
    FwSum(h, |h|)
  }

  lemma FwTermBounds(h: Matrix, i: nat)
    requires IsSquare(h) && i < |h|
    ensures 0.0 <= FwTerm(h, i)
    ensures Total(h) > 0 ==> FwTerm(h, i) <= h[i][i] as real / Total(h) as real
    ensures Total(h) == 0 ==> FwTerm(h, i) == 0.0
  {
    DiagonalBounds(h, i);
    if Frequency(h, i).Some? && Frequency(h, i).value > 0.0 {
      var f, v := Frequency(h, i).value, IoU(h, i).value;
      assert FwTerm(h, i) == f * v;
      var t, rs, u, d := Total(h) as real, RowSum(h, i) as real, Union(h, i) as real, h[i][i] as real;
      assert f * t == rs && v * u == d;
      WeightedRatioBound(f, v, t, rs, u, d);
      MulLeMono(0.0, f, v);
    } else {
      assert FwTerm(h, i) == 0.0;
    }
  }

  lemma {:induction false} FwSumBounds(h: Matrix, k: nat)
    requires IsSquare(h) && k <= |h|
    ensures 0.0 <= FwSum(h, k)
    ensures Total(h) > 0 ==> FwSum(h, k) <= TraceTo(h, k) as real / Total(h) as real
    ensures Total(h) == 0 ==> FwSum(h, k) == 0.0
  {
    if k > 0 {
      FwSumBounds(h, k - 1);
      FwTermBounds(h, k - 1);
      if Total(h) > 0 {
        DivAdd(TraceTo(h, k - 1) as real, h[k - 1][k - 1] as real, Total(h) as real);
      }
    }
  }

  /**
   * fwavacc is never negative, never exceeds the overall accuracy (each
   * class's IoU is at most its diagonal over its row sum), and is 0 when
   * no pixel was counted.
   */
  lemma FwAvAccBounds(h: Matrix)
    requires IsSquare(h)
    ensures 0.0 <= FwAvAcc(h)
    ensures OverallAccuracy(h).Some? ==> FwAvAcc(h) <= OverallAccuracy(h).value
    ensures Total(h) == 0 ==> FwAvAcc(h) == 0.0
  {
    FwSumBounds(h, |h|);
    if Total(h) > 0 {
      assert OverallAccuracy(h) == Ratio(Trace(h), Total(h));
    }
  }

  /** The two-class confusion matrix [[10, 2], [3, 5]]. */
  const TwoClass: Matrix := [[10, 2], [3, 5]]

  lemma TwoClassSums()
    ensures IsSquare(TwoClass)
    ensures RowSum(TwoClass, 0) == 12 && RowSum(TwoClass, 1) == 8
    ensures ColSum(TwoClass, 0) == 13 && ColSum(TwoClass, 1) == 7
    ensures Total(TwoClass) == 20 && Trace(TwoClass) == 15
  {
    var h := TwoClass;
    assert h[0][..1] == [10] && h[1][..1] == [3] && [10][..0] == [] && [3][..0] == [];
    assert h[0][..1][..0] == [] && h[1][..1][..0] == [];
  }

  /** For [[10, 2], [3, 5]]: accuracy 15/20, IoUs 10/15 and 5/10, mean IoU 7/12, fwavacc 0.6. */
  lemma TwoClassExample()
    ensures IsSquare(TwoClass)
    ensures OverallAccuracy(TwoClass) == Some(0.75)
    ensures ClassAccuracy(TwoClass, 0) == Some(10.0 / 12.0) && ClassAccuracy(TwoClass, 1) == Some(5.0 / 8.0)
    ensures IoU(TwoClass, 0) == Some(10.0 / 15.0) && IoU(TwoClass, 1) == Some(0.5)
    ensures NanMean(IoUs(TwoClass)) == Some(7.0 / 12.0)
    ensures FwAvAcc(TwoClass) == 0.6
  {
    TwoClassSums();
    var h := TwoClass;
    var ious := IoUs(h);
    assert ious == [Some(10.0 / 15.0), Some(0.5)];
    assert ious[..1] == [Some(10.0 / 15.0)] && ious[..1][..0] == [];
    assert DefinedCount(ious[..1][..0]) == 0 && DefinedSum(ious[..1][..0]) == 0.0;
    assert DefinedSum(ious[..1]) == 10.0 / 15.0 && DefinedCount(ious[..1]) == 1;
    assert DefinedSum(ious) == 10.0 / 15.0 + 0.5 && DefinedCount(ious) == 2;
    assert FwTerm(h, 0) == (12.0 / 20.0) * (10.0 / 15.0);
    assert FwTerm(h, 1) == (8.0 / 20.0) * 0.5;
  }
}
