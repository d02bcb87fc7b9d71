/**
 * The backward ROI max-pooling kernel: every input element gathers the
 * output gradient of the pooled cells whose recorded argmax is that element.
 */
module RoiBackward {
  import opened IntArith
  import opened RoiGeometry
  import opened RoiForward

  /**
   * The test that ROI and element agree spatially. The code tests the
   * element against the ROI's unclipped end coordinates; the forward pass
   * instead pools a malformed ROI over its forced one-cell extent.
   */
  datatype RoiTest = UnclippedEnds | ForcedExtent

  predicate InRoi(test: RoiTest, roi: Roi, h: int, w: int) {
    match test
    case UnclippedEnds => roi.startW <= w <= roi.endW && roi.startH <= h <= roi.endH
    case ForcedExtent =>
      roi.startW <= w <= roi.startW + RoiWidth(roi) - 1 && roi.startH <= h <= roi.startH + RoiHeight(roi) - 1
  }

  /** Position of pooled cell (ph, pw) and channel c of ROI roiN in `top_diff` and `argmax_data`. */
  function GradIndex(roiN: int, ph: int, pw: int, c: int, s: Shape): int {
    if s.poolChannel then roiN * s.pooledHeight * s.pooledWidth + ph * s.pooledWidth + pw
    else roiN * s.pooledHeight * s.pooledWidth * s.channels + (ph * s.pooledWidth + pw) * s.channels + c
  }

  /** The pooled cell whose argmax and gradient the backward pass reads for channel c. */
  function ReadCell(roiN: int, ph: int, pw: int, c: int, s: Shape): PooledCell {
    PooledCell(roiN, ph, pw, if s.poolChannel then 1 else c)
  }

  /** The backward pass reads the same layout the forward pass writes. */
  lemma GradIndexIsForwardIndex(roiN: int, ph: int, pw: int, c: int, s: Shape)
    ensures GradIndex(roiN, ph, pw, c, s) == ComposeTop(ReadCell(roiN, ph, pw, c, s), s)
  {
    var ph', pw', ch := s.pooledHeight, s.pooledWidth, s.channels;
    if !s.poolChannel {
      calc {
        roiN * ph' * pw' * ch + (ph * pw' + pw) * ch + c;
        (roiN * ph' * pw' + ph * pw' + pw) * ch + c;
        { assert roiN * ph' * pw' + ph * pw' == (roiN * ph' + ph) * pw'; }
        ((roiN * ph' + ph) * pw' + pw) * ch + c;
      }
    } else {
      assert roiN * ph' * pw' + ph * pw' == (roiN * ph' + ph) * pw';
    }
  }

  lemma GradIndexInRange(roiN: int, ph: int, pw: int, c: int, numRois: nat, s: Shape)
    requires ValidShape(s) && 0 <= roiN < numRois && 0 <= ph < s.pooledHeight && 0 <= pw < s.pooledWidth && 0 <= c < s.channels
    ensures 0 <= GradIndex(roiN, ph, pw, c, s) < ForwardSize(numRois, s)
  {
    GradIndexIsForwardIndex(roiN, ph, pw, c, s);
    ForwardCellComposes(ReadCell(roiN, ph, pw, c, s), numRois, s);
  }

  /** What one ROI's gradient loop looks at: the gradient and argmax buffers, the ROI, channel and target offset. */
  datatype GradCtx = GradCtx(topDiff: seq<int>, argmax: seq<int>, s: Shape, roiN: int, c: int, target: int)

  /** The contribution of pooled cell (ph, pw): its gradient when its argmax is the target element. */
  function Term(ctx: GradCtx, ph: int, pw: int): int {
    var k := GradIndex(ctx.roiN, ph, pw, ctx.c, ctx.s);
    if 0 <= k < |ctx.argmax| && k < |ctx.topDiff| && ctx.argmax[k] == ctx.target then ctx.topDiff[k] else 0
  }

  /** Sum of Term over pooled columns [lo, hi) of row ph. */
  function Row(ctx: GradCtx, ph: int, lo: int, hi: int): int
    decreases hi - lo
  {
    if hi <= lo then 0 else Row(ctx, ph, lo, hi - 1) + Term(ctx, ph, hi - 1)
  }

  /** Sum of Term over rows [phLo, phHi) and columns [pwLo, pwHi). */
  function Grid(ctx: GradCtx, phLo: int, phHi: int, pwLo: int, pwHi: int): int
    decreases phHi - phLo
  {
    if phHi <= phLo then 0 else Grid(ctx, phLo, phHi - 1, pwLo, pwHi) + Row(ctx, phHi - 1, pwLo, pwHi)
  }

  /** ROI roiN has the element's image and, when pooling by class, the element's channel as its class. */
  predicate SameImageAndClass(roi: Roi, e: BottomCell, s: Shape) {
    roi.batch == e.n && (s.poolChannel ==> e.c == roi.cls)
  }

  function CtxFor(topDiff: seq<int>, argmax: seq<int>, s: Shape, roiN: int, e: BottomCell): GradCtx {
    GradCtx(topDiff, argmax, s, roiN, e.c, Offset(e.h, e.w, e.c, s))
  }

  /** What ROI roiN contributes to element e in the code: the sum over its feasible pooled cells. */
  function RoiGradient(topDiff: seq<int>, argmax: seq<int>, rois: seq<Roi>, s: Shape, test: RoiTest, e: BottomCell, roiN: int): int
    requires ValidShape(s) && 0 <= roiN < |rois|
  {
    var roi := rois[roiN];
    if !SameImageAndClass(roi, e, s) || !InRoi(test, roi, e.h, e.w) then 0
    else
      Grid(CtxFor(topDiff, argmax, s, roiN, e),
           FeasibleLo(roi.startH, RoiHeight(roi), s.pooledHeight, e.h),
           FeasibleHi(roi.startH, RoiHeight(roi), s.pooledHeight, e.h),
           FeasibleLo(roi.startW, RoiWidth(roi), s.pooledWidth, e.w),
           FeasibleHi(roi.startW, RoiWidth(roi), s.pooledWidth, e.w))
  }

  /** Sum of RoiGradient over the first k ROIs. */
  function Gradient(topDiff: seq<int>, argmax: seq<int>, rois: seq<Roi>, s: Shape, test: RoiTest, e: BottomCell, k: nat): int
    requires ValidShape(s) && k <= |rois|
  {
    if k == 0 then 0 else Gradient(topDiff, argmax, rois, s, test, e, k - 1) + RoiGradient(topDiff, argmax, rois, s, test, e, k - 1)
  }

  /**
   * The intended gradient: over every ROI of the element's image (and
   * class), the output gradient of every pooled cell whose argmax is the
   * element.
   */
  function FullRoiGradient(topDiff: seq<int>, argmax: seq<int>, rois: seq<Roi>, s: Shape, e: BottomCell, roiN: int): int
    requires 0 <= roiN < |rois|
  {
    if !SameImageAndClass(rois[roiN], e, s) then 0
    else Grid(CtxFor(topDiff, argmax, s, roiN, e), 0, s.pooledHeight, 0, s.pooledWidth)
  }

  function FullGradient(topDiff: seq<int>, argmax: seq<int>, rois: seq<Roi>, s: Shape, e: BottomCell, k: nat): int
    requires k <= |rois|
  {
    if k == 0 then 0 else FullGradient(topDiff, argmax, rois, s, e, k - 1) + FullRoiGradient(topDiff, argmax, rois, s, e, k - 1)
  }

  /** The gradient of element `index`, once its (n, h, w, c) is decoded. */
  function GradientAt(topDiff: seq<int>, argmax: seq<int>, rois: seq<Roi>, s: Shape, test: RoiTest, batchSize: nat, index: int): int
    requires ValidShape(s) && 0 <= index < BackwardSize(batchSize, s)
  {
    BackwardIndexDecomposes(index, batchSize, s);
    Gradient(topDiff, argmax, rois, s, test, DecomposeBottom(index, s), |rois|)
  }

  /** The loops of `ROIPoolBackward` for one input element. */
  method GatherGradient(topDiff: seq<int>, argmax: seq<int>, rois: seq<Roi>, s: Shape, test: RoiTest, batchSize: nat, index: int)
    returns (gradient: int)
    requires ValidShape(s) && |topDiff| == |argmax| == ForwardSize(|rois|, s)
    requires 0 <= index < BackwardSize(batchSize, s)
    ensures gradient == GradientAt(topDiff, argmax, rois, s, test, batchSize, index)
  {
    BackwardIndexDecomposes(index, batchSize, s);
    var e := DecomposeBottom(index, s);
    var target := Offset(e.h, e.w, e.c, s);
    gradient := 0;
    for roiN := 0 to |rois|
      invariant gradient == Gradient(topDiff, argmax, rois, s, test, e, roiN)
    {
      var roi := rois[roiN];
      if SameImageAndClass(roi, e, s) && InRoi(test, roi, e.h, e.w) {
        var ctx := CtxFor(topDiff, argmax, s, roiN, e);
        var phStart := FeasibleLo(roi.startH, RoiHeight(roi), s.pooledHeight, e.h);
        var phEnd := FeasibleHi(roi.startH, RoiHeight(roi), s.pooledHeight, e.h);
        var pwStart := FeasibleLo(roi.startW, RoiWidth(roi), s.pooledWidth, e.w);
        var pwEnd := FeasibleHi(roi.startW, RoiWidth(roi), s.pooledWidth, e.w);
        gradient := GatherRoi(ctx, |rois|, phStart, phEnd, pwStart, pwEnd, gradient);
      }
    }
  }

  /** The ph / pw loops for one ROI: adds the ROI's feasible pooled cells into `gradient`. */
  method GatherRoi(ctx: GradCtx, numRois: nat, phStart: int, phEnd: int, pwStart: int, pwEnd: int, gradient: int)
    returns (result: int)
    requires ValidShape(ctx.s) && |ctx.topDiff| == |ctx.argmax| == ForwardSize(numRois, ctx.s)
    requires 0 <= ctx.roiN < numRois && 0 <= ctx.c < ctx.s.channels
    requires 0 <= phStart && phEnd <= ctx.s.pooledHeight && 0 <= pwStart && pwEnd <= ctx.s.pooledWidth
    ensures result == gradient + Grid(ctx, phStart, phEnd, pwStart, pwEnd)
  {
    result := gradient;
    var ph := phStart;
    while ph < phEnd
      invariant ph == phStart || phStart < ph <= phEnd
      invariant result == gradient + Grid(ctx, phStart, ph, pwStart, pwEnd)
    {
      result := GatherRow(ctx, numRois, ph, pwStart, pwEnd, result);
      ph := ph + 1;
    }
  }

  /** The pw loop for pooled row ph. */
  method GatherRow(ctx: GradCtx, numRois: nat, ph: int, pwStart: int, pwEnd: int, gradient: int)
    returns (result: int)
    requires ValidShape(ctx.s) && |ctx.topDiff| == |ctx.argmax| == ForwardSize(numRois, ctx.s)
    requires 0 <= ctx.roiN < numRois && 0 <= ctx.c < ctx.s.channels
    requires 0 <= ph < ctx.s.pooledHeight && 0 <= pwStart && pwEnd <= ctx.s.pooledWidth
    ensures result == gradient + Row(ctx, ph, pwStart, pwEnd)
  {
    result := gradient;
    var pw := pwStart;
    while pw < pwEnd
      invariant pw == pwStart || pwStart < pw <= pwEnd
      invariant result == gradient + Row(ctx, ph, pwStart, pw)
    {
      var t := ReadTerm(ctx, numRois, ph, pw);
      result := result + t;
      pw := pw + 1;
    }
  }

  /** The body of the pw loop: pooled cell (ph, pw) passes its gradient on when its argmax is the target. */
  method ReadTerm(ctx: GradCtx, numRois: nat, ph: int, pw: int) returns (t: int)
    requires ValidShape(ctx.s) && |ctx.topDiff| == |ctx.argmax| == ForwardSize(numRois, ctx.s)
    requires 0 <= ctx.roiN < numRois && 0 <= ctx.c < ctx.s.channels
    requires 0 <= ph < ctx.s.pooledHeight && 0 <= pw < ctx.s.pooledWidth
    ensures t == Term(ctx, ph, pw)
  {
    var k := GradIndex(ctx.roiN, ph, pw, ctx.c, ctx.s);
    GradIndexInRange(ctx.roiN, ph, pw, ctx.c, numRois, ctx.s);
    t := if ctx.argmax[k] == ctx.target then ctx.topDiff[k] else 0;
  }

  /** `ROIPoolBackward` over all `batch * H * W * C` elements: each one is written once, with its gathered gradient. */
  method RoiPoolBackward(topDiff: seq<int>, argmax: seq<int>, rois: seq<Roi>, s: Shape, test: RoiTest, batchSize: nat,
                         bottomDiff: array<int>)
    requires ValidShape(s) && |topDiff| == |argmax| == ForwardSize(|rois|, s)
    requires bottomDiff.Length == BackwardSize(batchSize, s)
    modifies bottomDiff
    ensures forall index :: 0 <= index < bottomDiff.Length ==>
      bottomDiff[index] == GradientAt(topDiff, argmax, rois, s, test, batchSize, index)
  {
    for index := 0 to bottomDiff.Length
      invariant forall i :: 0 <= i < index ==> bottomDiff[i] == GradientAt(topDiff, argmax, rois, s, test, batchSize, i)
    {
      var g := GatherGradient(topDiff, argmax, rois, s, test, batchSize, index);
      bottomDiff[index] := g;
    }
  }

  // ---------------------------------------------------------------- what the gathered gradient is

  /**
   * The argmax buffer as the forward pass leaves it: the argmax that
   * backward reads for ROI roiN, pooled cell (ph, pw) and channel c is -1
   * or an element of that cell's bin window.
   */
  ghost predicate ArgmaxesInWindows(argmax: seq<int>, rois: seq<Roi>, s: Shape)
    requires ValidShape(s)
  {
    |argmax| == ForwardSize(|rois|, s) &&
    forall roiN, ph, pw, c :: 0 <= roiN < |rois| && 0 <= ph < s.pooledHeight && 0 <= pw < s.pooledWidth && 0 <= c < s.channels ==>
      CellArgmaxInWindow(argmax, rois, s, roiN, ph, pw, c)
  }

  ghost predicate CellArgmaxInWindow(argmax: seq<int>, rois: seq<Roi>, s: Shape, roiN: int, ph: int, pw: int, c: int)
    requires ValidShape(s) && |argmax| == ForwardSize(|rois|, s)
    requires 0 <= roiN < |rois| && 0 <= ph < s.pooledHeight && 0 <= pw < s.pooledWidth && 0 <= c < s.channels
  {
    GradIndexInRange(roiN, ph, pw, c, |rois|, s);
    ArgmaxInWindow(argmax[GradIndex(roiN, ph, pw, c, s)], BinWindow(rois[roiN], ph, pw, s),
                   ChannelOf(rois[roiN], ReadCell(roiN, ph, pw, c, s), s), s)
  }

  /** The argmaxes `ROIPoolForward` records satisfy ArgmaxesInWindows. */
  lemma ForwardArgmaxesInWindows(bottom: seq<int>, batchSize: nat, rois: seq<Roi>, s: Shape, tops: seq<int>, argmax: seq<int>)
    requires ValidShape(s) && |bottom| == BackwardSize(batchSize, s) && ValidRois(rois, batchSize, s)
    requires |tops| == |argmax| == ForwardSize(|rois|, s)
    requires forall index :: 0 <= index < |tops| ==> CellPooled(bottom, batchSize, rois, s, index, tops[index], argmax[index])
    ensures ArgmaxesInWindows(argmax, rois, s)
  {
    forall roiN, ph, pw, c | 0 <= roiN < |rois| && 0 <= ph < s.pooledHeight && 0 <= pw < s.pooledWidth && 0 <= c < s.channels
      ensures CellArgmaxInWindow(argmax, rois, s, roiN, ph, pw, c)
    {
      var cell := ReadCell(roiN, ph, pw, c, s);
      var k := GradIndex(roiN, ph, pw, c, s);
      GradIndexIsForwardIndex(roiN, ph, pw, c, s);
      ForwardCellComposes(cell, |rois|, s);
      PooledArgmaxInWindow(bottom, batchSize, rois, s, k, tops[k], argmax[k]);
    }
  }

  /**
   * A pooled cell passes gradient to element e only when e lies in the
   * cell's bin window.
   */
  lemma TermLocated(topDiff: seq<int>, argmax: seq<int>, rois: seq<Roi>, s: Shape, e: BottomCell, roiN: int, ph: int, pw: int)
    requires ValidShape(s) && ArgmaxesInWindows(argmax, rois, s) && 0 <= roiN < |rois|
    requires 0 <= e.h && 0 <= e.w < s.width && 0 <= e.c < s.channels
    requires 0 <= ph < s.pooledHeight && 0 <= pw < s.pooledWidth
    requires Term(CtxFor(topDiff, argmax, s, roiN, e), ph, pw) != 0
    ensures InWindow(BinWindow(rois[roiN], ph, pw, s), e.h, e.w)
  {
    GradIndexInRange(roiN, ph, pw, e.c, |rois|, s);
    var a := argmax[GradIndex(roiN, ph, pw, e.c, s)];
    assert CellArgmaxInWindow(argmax, rois, s, roiN, ph, pw, e.c);
    assert a == Offset(e.h, e.w, e.c, s);
    OffsetNonNeg(e.h, e.w, e.c, s);
    OffsetDecodes(e.h, e.w, e.c, s);
  }

  /**
   * Row sums ignore zero terms: when every term of row ph outside columns
   * [lo, hi) is zero, the row over [0, n) is the row over [lo, min(n, hi)).
   */
  lemma {:induction false} RowOutside(ctx: GradCtx, ph: int, lo: int, hi: int, n: int)
    requires 0 <= lo && 0 <= n
    requires forall pw :: 0 <= pw < n && Term(ctx, ph, pw) != 0 ==> lo <= pw < hi
    ensures Row(ctx, ph, 0, n) == Row(ctx, ph, lo, if n < hi then n else hi)
    decreases n
  {
    if n > 0 {
      RowOutside(ctx, ph, lo, hi, n - 1);
      if n - 1 < lo {
        assert Row(ctx, ph, lo, if n < hi then n else hi) == 0;
      }
    }
  }

  /** The same for the grid: terms outside [lo, hi) x [plo, phi) are zero. */
  lemma {:induction false} GridOutside(ctx: GradCtx, lo: int, hi: int, plo: int, phi: int, width: int, m: int)
    requires 0 <= lo && 0 <= plo && 0 <= m && 0 <= width
    requires forall ph, pw :: 0 <= ph < m && 0 <= pw < width && Term(ctx, ph, pw) != 0 ==> lo <= ph < hi && plo <= pw < phi
    ensures Grid(ctx, 0, m, 0, width) == Grid(ctx, lo, if m < hi then m else hi, plo, if width < phi then width else phi)
    decreases m
  {
    if m > 0 {
      GridOutside(ctx, lo, hi, plo, phi, width, m - 1);
      var ph := m - 1;
      if lo <= ph < hi {
        RowOutside(ctx, ph, plo, phi, width);
      } else {
        RowOutside(ctx, ph, 0, 0, width);
        if ph < lo {
          assert Grid(ctx, lo, if m < hi then m else hi, plo, if width < phi then width else phi) == 0;
        }
      }
    }
  }

  /**
   * With the extent test of the forward pass, the feasible-range loops of
   * one ROI gather exactly the full sum over all its pooled cells.
   */
  lemma RoiGradientIsFull(topDiff: seq<int>, argmax: seq<int>, rois: seq<Roi>, s: Shape, e: BottomCell, roiN: int)
    requires ValidShape(s) && ArgmaxesInWindows(argmax, rois, s) && 0 <= roiN < |rois|
    requires 0 <= e.h < s.height && 0 <= e.w < s.width && 0 <= e.c < s.channels
    ensures RoiGradient(topDiff, argmax, rois, s, ForcedExtent, e, roiN) == FullRoiGradient(topDiff, argmax, rois, s, e, roiN)
  {
    var roi := rois[roiN];
    if SameImageAndClass(roi, e, s) {
      var ctx := CtxFor(topDiff, argmax, s, roiN, e);
      var PH, PW := s.pooledHeight, s.pooledWidth;
      var lo := FeasibleLo(roi.startH, RoiHeight(roi), PH, e.h);
      var hi := FeasibleHi(roi.startH, RoiHeight(roi), PH, e.h);
      var plo := FeasibleLo(roi.startW, RoiWidth(roi), PW, e.w);
      var phi := FeasibleHi(roi.startW, RoiWidth(roi), PW, e.w);
      forall ph, pw | 0 <= ph < PH && 0 <= pw < PW && Term(ctx, ph, pw) != 0
        ensures lo <= ph < hi && plo <= pw < phi && InRoi(ForcedExtent, roi, e.h, e.w)
      {
        TermLocated(topDiff, argmax, rois, s, e, roiN, ph, pw);
        FeasibleCovers(roi.startH, RoiHeight(roi), PH, s.height, ph, e.h);
        FeasibleCovers(roi.startW, RoiWidth(roi), PW, s.width, pw, e.w);
        BinWithinExtent(roi.startH, RoiHeight(roi), PH, s.height, ph, e.h);
        BinWithinExtent(roi.startW, RoiWidth(roi), PW, s.width, pw, e.w);
      }
      if InRoi(ForcedExtent, roi, e.h, e.w) {
        GridOutside(ctx, lo, hi, plo, phi, PW, PH);
      } else {
        GridOutside(ctx, 0, 0, 0, 0, PW, PH);
      }
    }
  }

  /** Summed over the ROIs: the corrected kernel computes the full gradient. */
  lemma {:induction false} GradientIsFull(topDiff: seq<int>, argmax: seq<int>, rois: seq<Roi>, s: Shape, e: BottomCell, k: nat)
    requires ValidShape(s) && ArgmaxesInWindows(argmax, rois, s) && k <= |rois|
    requires 0 <= e.h < s.height && 0 <= e.w < s.width && 0 <= e.c < s.channels
    ensures Gradient(topDiff, argmax, rois, s, ForcedExtent, e, k) == FullGradient(topDiff, argmax, rois, s, e, k)
  {
    if k > 0 {
      GradientIsFull(topDiff, argmax, rois, s, e, k - 1);
      RoiGradientIsFull(topDiff, argmax, rois, s, e, k - 1);
    }
  }

  /** Every ROI is well formed: its ends are not before its starts. */
  predicate WellFormedRois(rois: seq<Roi>) {
    forall n :: 0 <= n < |rois| ==> rois[n].startW <= rois[n].endW && rois[n].startH <= rois[n].endH
  }

  /** On well-formed ROIs the two tests agree, so the kernel as written gathers the same gradient. */
  lemma {:induction false} TestsAgreeOnWellFormed(topDiff: seq<int>, argmax: seq<int>, rois: seq<Roi>, s: Shape, e: BottomCell, k: nat)
    requires ValidShape(s) && WellFormedRois(rois) && k <= |rois|
    ensures Gradient(topDiff, argmax, rois, s, UnclippedEnds, e, k) == Gradient(topDiff, argmax, rois, s, ForcedExtent, e, k)
  {
    if k > 0 {
      TestsAgreeOnWellFormed(topDiff, argmax, rois, s, e, k - 1);
    }
  }

  /**
   * Element `index` of `bottom_diff` after the corrected kernel (and after
   * the kernel as written, when the ROIs are well formed) is the full
   * gradient: the sum of the output gradient over every pooled cell, of
   * every ROI of its image and class, whose argmax names it.
   */
  lemma BackwardIsFullGradient(topDiff: seq<int>, argmax: seq<int>, rois: seq<Roi>, s: Shape, test: RoiTest, batchSize: nat, index: int)
    requires ValidShape(s) && ArgmaxesInWindows(argmax, rois, s) && 0 <= index < BackwardSize(batchSize, s)
    requires test == UnclippedEnds ==> WellFormedRois(rois)
    ensures s.channels > 0 && s.width > 0 && s.height > 0
    ensures GradientAt(topDiff, argmax, rois, s, test, batchSize, index) == FullGradient(topDiff, argmax, rois, s, DecomposeBottom(index, s), |rois|)
  {
    BackwardIndexDecomposes(index, batchSize, s);
    var e := DecomposeBottom(index, s);
    GradientIsFull(topDiff, argmax, rois, s, e, |rois|);
    if test == UnclippedEnds {
      TestsAgreeOnWellFormed(topDiff, argmax, rois, s, e, |rois|);
    }
  }

  /**
   * What the kernel as written should gather for element e from the first
   * k ROIs: the full gradient of each ROI whose unclipped ends contain the
   * element, and nothing from the others.
   */
  function ContainedGradient(topDiff: seq<int>, argmax: seq<int>, rois: seq<Roi>, s: Shape, e: BottomCell, k: nat): int
    requires k <= |rois|
  {
    if k == 0 then 0
    else
      ContainedGradient(topDiff, argmax, rois, s, e, k - 1)
      + (if InRoi(UnclippedEnds, rois[k - 1], e.h, e.w) then FullRoiGradient(topDiff, argmax, rois, s, e, k - 1) else 0)
  }

  /**
   * One ROI under the test as written: an ROI whose unclipped ends contain
   * the element contributes its full gradient, any other ROI nothing, well
   * formed or not.
   */
  lemma UnclippedRoiGradient(topDiff: seq<int>, argmax: seq<int>, rois: seq<Roi>, s: Shape, e: BottomCell, roiN: int)
    requires ValidShape(s) && ArgmaxesInWindows(argmax, rois, s) && 0 <= roiN < |rois|
    requires 0 <= e.h < s.height && 0 <= e.w < s.width && 0 <= e.c < s.channels
    ensures RoiGradient(topDiff, argmax, rois, s, UnclippedEnds, e, roiN)
         == if InRoi(UnclippedEnds, rois[roiN], e.h, e.w) then FullRoiGradient(topDiff, argmax, rois, s, e, roiN) else 0
  {
    if InRoi(UnclippedEnds, rois[roiN], e.h, e.w) {
      assert InRoi(ForcedExtent, rois[roiN], e.h, e.w);
      RoiGradientIsFull(topDiff, argmax, rois, s, e, roiN);
    }
  }

  /** Summed over the ROIs: the kernel as written gathers the contained gradient. */
  lemma {:induction false} UnclippedGradientIsContained(topDiff: seq<int>, argmax: seq<int>, rois: seq<Roi>, s: Shape, e: BottomCell, k: nat)
    requires ValidShape(s) && ArgmaxesInWindows(argmax, rois, s) && k <= |rois|
    requires 0 <= e.h < s.height && 0 <= e.w < s.width && 0 <= e.c < s.channels
    ensures Gradient(topDiff, argmax, rois, s, UnclippedEnds, e, k) == ContainedGradient(topDiff, argmax, rois, s, e, k)
  {
    if k > 0 {
      UnclippedGradientIsContained(topDiff, argmax, rois, s, e, k - 1);
      UnclippedRoiGradient(topDiff, argmax, rois, s, e, k - 1);
    }
  }

  /**
   * Element `index` of `bottom_diff` after the kernel as written, for any
   * ROIs: the sum, over the ROIs of its image and class whose unclipped
   * ends contain it, of the output gradient of every pooled cell whose
   * argmax names it.
   */
  lemma BackwardAsWritten(topDiff: seq<int>, argmax: seq<int>, rois: seq<Roi>, s: Shape, batchSize: nat, index: int)
    requires ValidShape(s) && ArgmaxesInWindows(argmax, rois, s) && 0 <= index < BackwardSize(batchSize, s)
    ensures GradientAt(topDiff, argmax, rois, s, UnclippedEnds, batchSize, index)
         == ContainedGradient(topDiff, argmax, rois, s, DecomposeBottom(index, s), |rois|)
  {
    BackwardIndexDecomposes(index, batchSize, s);
    UnclippedGradientIsContained(topDiff, argmax, rois, s, DecomposeBottom(index, s), |rois|);
  }

  /**
   * A malformed ROI, its end column before its start column, on a 1 x 1
   * single-channel map pooled to one cell. The forward pass pools its
   * forced one-cell extent, element (0, 0), so the only argmax it can
   * record is 0. The kernel as written tests column 0 against the unclipped
   * end column -1, so the ROI does not contain element 0 and, by
   * BackwardAsWritten, hands it nothing; its full gradient, and the
   * corrected kernel's, is the cell's output gradient 1.
   */
  lemma MalformedRoiLosesGradient()
    ensures ArgmaxesInWindows([0], [Roi(0, 0, 0, 0, -1, 0)], Shape(1, 1, 1, 1, 1, false))
    ensures GradientAt([1], [0], [Roi(0, 0, 0, 0, -1, 0)], Shape(1, 1, 1, 1, 1, false), UnclippedEnds, 1, 0) == 0
    ensures GradientAt([1], [0], [Roi(0, 0, 0, 0, -1, 0)], Shape(1, 1, 1, 1, 1, false), ForcedExtent, 1, 0) == 1
    ensures DecomposeBottom(0, Shape(1, 1, 1, 1, 1, false)) == BottomCell(0, 0, 0, 0)
    ensures FullGradient([1], [0], [Roi(0, 0, 0, 0, -1, 0)], Shape(1, 1, 1, 1, 1, false), BottomCell(0, 0, 0, 0), 1) == 1
  {
    ExampleArgmaxes();
    ExampleAsWritten();
    ExampleCorrected();
    ExampleElement();
    ExampleFull();
  }

  /** The example ROI's one pooled cell has the one-element window (0, 0), which holds argmax 0. */
  lemma MalformedRoiWindow()
    ensures BinWindow(Roi(0, 0, 0, 0, -1, 0), 0, 0, Shape(1, 1, 1, 1, 1, false)) == Window(0, 1, 0, 1)
    ensures ArgmaxInWindow(0, Window(0, 1, 0, 1), 0, Shape(1, 1, 1, 1, 1, false))
  {
    ExampleWindow();
    ExampleArgmaxInWindow();
  }

  // Single facts about the example, kept one per lemma so that each stays small.

  lemma ExampleWindow()
    ensures BinWindow(Roi(0, 0, 0, 0, -1, 0), 0, 0, Shape(1, 1, 1, 1, 1, false)) == Window(0, 1, 0, 1)
  {
  }

  lemma ExampleArgmaxInWindow()
    ensures ArgmaxInWindow(0, Window(0, 1, 0, 1), 0, Shape(1, 1, 1, 1, 1, false))
  {
  }

  lemma ExampleGradIndex()
    ensures GradIndex(0, 0, 0, 0, Shape(1, 1, 1, 1, 1, false)) == 0
  {
  }

  lemma ExampleChannel()
    ensures ChannelOf(Roi(0, 0, 0, 0, -1, 0), ReadCell(0, 0, 0, 0, Shape(1, 1, 1, 1, 1, false)), Shape(1, 1, 1, 1, 1, false)) == 0
  {
  }

  lemma ExampleSizes()
    ensures ForwardSize(1, Shape(1, 1, 1, 1, 1, false)) == 1
    ensures BackwardSize(1, Shape(1, 1, 1, 1, 1, false)) == 1
  {
  }

  lemma ExampleCellArgmax()
    ensures CellArgmaxInWindow([0], [Roi(0, 0, 0, 0, -1, 0)], Shape(1, 1, 1, 1, 1, false), 0, 0, 0, 0)
  {
    ExampleArgmaxInWindow();
    ExampleGradIndex();
    ExampleChannel();
    ExampleWindow();
  }

  lemma ExampleArgmaxes()
    ensures ArgmaxesInWindows([0], [Roi(0, 0, 0, 0, -1, 0)], Shape(1, 1, 1, 1, 1, false))
  {
    var s := Shape(1, 1, 1, 1, 1, false);
    ExampleSizes();
    forall roiN, ph, pw, c | 0 <= roiN < 1 && 0 <= ph < s.pooledHeight && 0 <= pw < s.pooledWidth && 0 <= c < s.channels
      ensures CellArgmaxInWindow([0], [Roi(0, 0, 0, 0, -1, 0)], s, roiN, ph, pw, c)
    {
      assert roiN == 0 && ph == 0 && pw == 0 && c == 0;
      ExampleCellArgmax();
    }
  }

  lemma ExampleAsWritten()
    ensures GradientAt([1], [0], [Roi(0, 0, 0, 0, -1, 0)], Shape(1, 1, 1, 1, 1, false), UnclippedEnds, 1, 0) == 0
  {
    ExampleArgmaxes();
    ExampleSizes();
    BackwardAsWritten([1], [0], [Roi(0, 0, 0, 0, -1, 0)], Shape(1, 1, 1, 1, 1, false), 1, 0);
    ExampleElement();
    assert !InRoi(UnclippedEnds, Roi(0, 0, 0, 0, -1, 0), 0, 0);
  }

  lemma ExampleElement()
    ensures DecomposeBottom(0, Shape(1, 1, 1, 1, 1, false)) == BottomCell(0, 0, 0, 0)
  {
  }

  lemma ExampleFull()
    ensures FullGradient([1], [0], [Roi(0, 0, 0, 0, -1, 0)], Shape(1, 1, 1, 1, 1, false), BottomCell(0, 0, 0, 0), 1) == 1
  {
  }

  lemma ExampleCorrected()
    ensures GradientAt([1], [0], [Roi(0, 0, 0, 0, -1, 0)], Shape(1, 1, 1, 1, 1, false), ForcedExtent, 1, 0) == 1
  {
    ExampleArgmaxes();
    ExampleSizes();
    BackwardIsFullGradient([1], [0], [Roi(0, 0, 0, 0, -1, 0)], Shape(1, 1, 1, 1, 1, false), ForcedExtent, 1, 0);
    ExampleElement();
    ExampleFull();
  }
}
