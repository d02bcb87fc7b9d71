/**
 * The confusion matrix of the segmentation evaluation: a per-frame
 * histogram of (ground-truth, predicted) label pairs, summed over frames.
 */
module Confusion {
  import opened SegMetrics

  /** A label map pair of one frame, flattened in the same pixel order. */
  datatype LabelPair = LabelPair(gt: seq<int>, pred: seq<int>)

  /** Both maps of a frame cover the same pixels. */
  type Frame = p: LabelPair | |p.gt| == |p.pred| witness LabelPair([], [])

  /** Pixels whose ground truth is i and whose prediction is j. */
  function PairCount(p: Frame, i: int, j: int): nat
  {
    |set k | 0 <= k < |p.gt| && p.gt[k] == i && p.pred[k] == j|
  }

  /**
   * `fast_hist(gt, pred, n)`: the n x n histogram of label pairs. Pixels
   * whose labels fall outside [0, n) are not counted.
   */
  function FastHist(p: Frame, n: nat): (r: Matrix)
    ensures |r| == n && IsSquare(r)
    ensures forall i, j :: 0 <= i < n && 0 <= j < n ==> r[i][j] == PairCount(p, i, j)
  {
    seq(n, i requires 0 <= i < n => seq(n, j requires 0 <= j < n => PairCount(p, i, j)))
  }

  /** Entry (i, j) of the histogram summed over `frames`. */
  function CumCount(frames: seq<Frame>, i: int, j: int): nat
  {
    if frames == [] then 0
    else CumCount(frames[..|frames| - 1], i, j) + PairCount(frames[|frames| - 1], i, j)
  }

  /** The confusion matrix after accumulating `frames`. */
  function ConfusionOf(frames: seq<Frame>, n: nat): (r: Matrix)
    ensures |r| == n && IsSquare(r)
    ensures forall i, j :: 0 <= i < n && 0 <= j < n ==> r[i][j] == CumCount(frames, i, j)
  {
    seq(n, i requires 0 <= i < n => seq(n, j requires 0 <= j < n => CumCount(frames, i, j)))
  }

  /** `hist += fast_hist(gt, pred, n)`: adds one frame's histogram into the running matrix. */
  method AccumulateHist(hist: array2<nat>, p: Frame)
    requires hist.Length0 == hist.Length1
    modifies hist
    ensures forall i, j :: 0 <= i < hist.Length0 && 0 <= j < hist.Length1 ==>
      hist[i, j] == old(hist[i, j]) + PairCount(p, i, j)
  {
    var n := hist.Length0;
    var delta := FastHist(p, n);
    for i := 0 to n
      invariant forall i', j :: 0 <= i' < i && 0 <= j < n ==> hist[i', j] == old(hist[i', j]) + delta[i'][j]
      invariant forall i', j :: i <= i' < n && 0 <= j < n ==> hist[i', j] == old(hist[i', j])
    {
      for j := 0 to n
        invariant forall i', j' :: 0 <= i' < i && 0 <= j' < n ==> hist[i', j'] == old(hist[i', j']) + delta[i'][j']
        invariant forall j' :: 0 <= j' < j ==> hist[i, j'] == old(hist[i, j']) + delta[i][j']
        invariant forall i', j' :: i <= i' < n && 0 <= j' < n && (i' > i || j' >= j) ==> hist[i', j'] == old(hist[i', j'])
      {
        hist[i, j] := hist[i, j] + delta[i][j];
      }
    }
  }

  /** The matrix starts at zero and accumulating a frame never decreases an entry. */
  lemma {:induction false} CumCountMonotone(frames: seq<Frame>, f: nat, g: nat, i: int, j: int)
    requires f <= g <= |frames|
    ensures CumCount(frames[..0], i, j) == 0
    ensures CumCount(frames[..f], i, j) <= CumCount(frames[..g], i, j)
  {
    if f < g {
      CumCountMonotone(frames, f, g - 1, i, j);
      assert frames[..g][..g - 1] == frames[..g - 1];
    }
  }

  lemma {:induction false} CumCountConcat(a: seq<Frame>, b: seq<Frame>, i: int, j: int)
    ensures CumCount(a + b, i, j) == CumCount(a, i, j) + CumCount(b, i, j)
  {
    if b == [] {
      assert a + b == a;
    } else {
      assert (a + b)[..|a + b| - 1] == a + b[..|b| - 1];
      CumCountConcat(a, b[..|b| - 1], i, j);
    }
  }

  /** Removing frame x from between two runs takes away exactly its count. */
  lemma CumCountRemove(left: seq<Frame>, x: Frame, right: seq<Frame>, i: int, j: int)
    ensures CumCount(left + [x] + right, i, j) == CumCount(left + right, i, j) + PairCount(x, i, j)
  {
    CumCountConcat(left, [x], i, j);
    CumCountConcat(left + [x], right, i, j);
    CumCountConcat(left, right, i, j);
    assert [x][..0] == [];
  }

  /** Cutting out position k of b removes one copy of b[k] from its multiset. */
  lemma MultisetCut(b: seq<Frame>, k: nat)
    requires k < |b|
    ensures b == b[..k] + [b[k]] + b[k + 1..]
    ensures multiset(b[..k] + b[k + 1..]) == multiset(b) - multiset{b[k]}
  {
    assert b == b[..k] + [b[k]] + b[k + 1..];
    assert multiset(b) == multiset(b[..k]) + multiset{b[k]} + multiset(b[k + 1..]);
  }

  /** Dropping the last frame removes one copy of it from the multiset. */
  lemma MultisetDropLast(a: seq<Frame>)
    requires a != []
    ensures multiset(a[..|a| - 1]) == multiset(a) - multiset{a[|a| - 1]}
  {
    assert a == a[..|a| - 1] + [a[|a| - 1]];
  }

  /** A frame of the multiset sits at some position. */
  lemma PositionOf(b: seq<Frame>, x: Frame) returns (k: nat)
    requires x in multiset(b)
    ensures k < |b| && b[k] == x
  {
    k :| 0 <= k < |b| && b[k] == x;
  }

  /** Summing the frames in another order gives the same entry. */
  lemma {:induction false} CumCountPermutation(a: seq<Frame>, b: seq<Frame>, i: int, j: int)
    requires multiset(a) == multiset(b)
    ensures CumCount(a, i, j) == CumCount(b, i, j)
    decreases |a|
  {
    if a == [] {
      assert |b| == |multiset(b)| == 0;
    } else {
      var x := a[|a| - 1];
      MultisetDropLast(a);
      var k := PositionOf(b, x);
      MultisetCut(b, k);
      CumCountPermutation(a[..|a| - 1], b[..k] + b[k + 1..], i, j);
      CumCountRemove(b[..k], x, b[k + 1..], i, j);
    }
  }

  /** The final confusion matrix is the same for any order of the frames. */
  lemma ConfusionOrderIndependent(a: seq<Frame>, b: seq<Frame>, n: nat)
    requires multiset(a) == multiset(b)
    ensures ConfusionOf(a, n) == ConfusionOf(b, n)
  {
    var ha, hb := ConfusionOf(a, n), ConfusionOf(b, n);
    forall i | 0 <= i < n
      ensures ha[i] == hb[i]
    {
      forall j | 0 <= j < n
        ensures ha[i][j] == hb[i][j]
      {
        CumCountPermutation(a, b, i, j);
      }
    }
  }
}
