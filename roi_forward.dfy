/**
 * The forward ROI max-pooling kernel: every pooled cell takes the maximum
 * of its input window and records where the first maximum was found.
 */
module RoiForward {
  import opened IntArith
  import opened RoiGeometry

  /** Flat position of element (h, w, c) of batch image b. */
  function BottomIndex(b: int, h: int, w: int, c: int, s: Shape): int {
    b * (s.height * s.width * s.channels) + Offset(h, w, c, s)
  }

  lemma BottomIndexInRange(b: int, h: int, w: int, c: int, batchSize: nat, s: Shape)
    requires 0 <= b < batchSize && 0 <= h < s.height && 0 <= w < s.width && 0 <= c < s.channels
    ensures 0 <= BottomIndex(b, h, w, c, s) < BackwardSize(batchSize, s)
  {
    var hh, ww, ch := s.height, s.width, s.channels;
    Bound1(b, h, batchSize, hh);
    Bound2(b * hh + h, w, c, batchSize * hh, ww, ch);
    Expand(b, h, w, c, hh, ww, ch);
  }

  /** The input value at (h, w, c) of batch image b. */
  function At(bottom: seq<int>, batchSize: nat, s: Shape, b: int, h: int, w: int, c: int): int
    requires |bottom| == BackwardSize(batchSize, s)
    requires 0 <= b < batchSize && 0 <= h < s.height && 0 <= w < s.width && 0 <= c < s.channels
  {
    BottomIndexInRange(b, h, w, c, batchSize, s);
    bottom[BottomIndex(b, h, w, c, s)]
  }

  /** (h, w) comes strictly before (hm, wm) in row-major order. */
  predicate Before(h: int, w: int, hm: int, wm: int) {
    h < hm || (h == hm && w < wm)
  }

  /** The window lies on the map, and reading it needs a valid image and channel. */
  predicate ReadableWindow(batchSize: nat, s: Shape, b: int, c: int, win: Window) {
    0 <= win.hstart && win.hend <= s.height && 0 <= win.wstart && win.wend <= s.width &&
    (!IsEmpty(win) ==> 0 <= b < batchSize && 0 <= c < s.channels)
  }

  /**
   * top is the maximum of channel c over the window, and (hm, wm) is the
   * first cell in row-major order that holds it.
   */
  ghost predicate IsFirstMax(bottom: seq<int>, batchSize: nat, s: Shape, b: int, c: int, win: Window, top: int, hm: int, wm: int)
    requires |bottom| == BackwardSize(batchSize, s) && ReadableWindow(batchSize, s, b, c, win)
  {
    InWindow(win, hm, wm) && top == At(bottom, batchSize, s, b, hm, wm, c) &&
    (forall h, w :: InWindow(win, h, w) ==> At(bottom, batchSize, s, b, h, w, c) <= top) &&
    (forall h, w :: InWindow(win, h, w) && Before(h, w, hm, wm) ==> At(bottom, batchSize, s, b, h, w, c) < top)
  }

  /** The maximum and its first position are determined by the window. */
  lemma FirstMaxUnique(bottom: seq<int>, batchSize: nat, s: Shape, b: int, c: int, win: Window,
                       t1: int, h1: int, w1: int, t2: int, h2: int, w2: int)
    requires |bottom| == BackwardSize(batchSize, s) && ReadableWindow(batchSize, s, b, c, win)
    requires IsFirstMax(bottom, batchSize, s, b, c, win, t1, h1, w1)
    requires IsFirstMax(bottom, batchSize, s, b, c, win, t2, h2, w2)
    ensures t1 == t2 && h1 == h2 && w1 == w2
  {
    assert At(bottom, batchSize, s, b, h1, w1, c) <= t2;
    assert At(bottom, batchSize, s, b, h2, w2, c) <= t1;
  }

  /** What one pooled cell receives: 0 and -1 for an empty window, else the first maximum and its offset. */
  ghost predicate PoolsWindow(bottom: seq<int>, batchSize: nat, s: Shape, b: int, c: int, win: Window, top: int, argmax: int)
    requires ValidShape(s) && |bottom| == BackwardSize(batchSize, s) && ReadableWindow(batchSize, s, b, c, win)
  {
    if IsEmpty(win) then top == 0 && argmax == -1
    else
      s.width > 0 &&
      argmax == Offset(OffsetH(argmax, s), OffsetW(argmax, s), c, s) &&
      IsFirstMax(bottom, batchSize, s, b, c, win, top, OffsetH(argmax, s), OffsetW(argmax, s))
  }

  /** The loops over the window of one pooled cell, with "no value yet" in place of the -FLT_MAX start value. */
  method PoolCell(bottom: seq<int>, batchSize: nat, s: Shape, b: int, c: int, win: Window) returns (top: int, argmax: int)
    requires ValidShape(s) && |bottom| == BackwardSize(batchSize, s) && ReadableWindow(batchSize, s, b, c, win)
    ensures PoolsWindow(bottom, batchSize, s, b, c, win, top, argmax)
  {
    var found := false;
    top, argmax := 0, -1;
    ghost var hm, wm := 0, 0;
    var h := win.hstart;
    while h < win.hend
      invariant win.hstart <= h && (win.hstart <= win.hend ==> h <= win.hend)
      invariant found <==> h > win.hstart && win.wstart < win.wend
      invariant found ==> InWindow(win, hm, wm) && hm < h && top == At(bottom, batchSize, s, b, hm, wm, c)
      invariant found ==> argmax == Offset(hm, wm, c, s)
      invariant !found ==> top == 0 && argmax == -1
      invariant forall h', w' :: InWindow(win, h', w') && h' < h ==> At(bottom, batchSize, s, b, h', w', c) <= top
      invariant forall h', w' :: InWindow(win, h', w') && h' < h && Before(h', w', hm, wm) ==>
        At(bottom, batchSize, s, b, h', w', c) < top
    {
      var w := win.wstart;
      while w < win.wend
        invariant win.wstart <= w && (win.wstart <= win.wend ==> w <= win.wend)
        invariant found <==> (h > win.hstart && win.wstart < win.wend) || w > win.wstart
        invariant found ==> InWindow(win, hm, wm) && Before(hm, wm, h, w) && top == At(bottom, batchSize, s, b, hm, wm, c)
        invariant found ==> argmax == Offset(hm, wm, c, s)
        invariant !found ==> top == 0 && argmax == -1
        invariant forall h', w' :: InWindow(win, h', w') && Before(h', w', h, w) ==> At(bottom, batchSize, s, b, h', w', c) <= top
        invariant forall h', w' :: InWindow(win, h', w') && Before(h', w', h, w) && Before(h', w', hm, wm) ==>
          At(bottom, batchSize, s, b, h', w', c) < top
      {
        var v := At(bottom, batchSize, s, b, h, w, c);
        if !found || v > top {
          found := true;
          top, argmax := v, Offset(h, w, c, s);
          hm, wm := h, w;
        }
        w := w + 1;
      }
      h := h + 1;
    }
    if !IsEmpty(win) {
      OffsetDecodes(hm, wm, c, s);
    }
  }

  /** Every ROI names an image of the batch and, when pooling by class, a channel of the map. */
  predicate ValidRois(rois: seq<Roi>, batchSize: nat, s: Shape) {
    forall n :: 0 <= n < |rois| ==> 0 <= rois[n].batch < batchSize && (s.poolChannel ==> 0 <= rois[n].cls < s.channels)
  }

  /** The channel a pooled cell reads: the ROI's class when pooling by class, else the cell's own channel. */
  function ChannelOf(roi: Roi, cell: PooledCell, s: Shape): int {
    if s.poolChannel then roi.cls else cell.c
  }

  /** Output element `index` holds the pooling of its ROI's bin. */
  ghost predicate CellPooled(bottom: seq<int>, batchSize: nat, rois: seq<Roi>, s: Shape, index: int, top: int, argmax: int)
    requires ValidShape(s) && |bottom| == BackwardSize(batchSize, s) && ValidRois(rois, batchSize, s)
    requires 0 <= index < ForwardSize(|rois|, s)
  {
    ForwardIndexDecomposes(index, |rois|, s);
    var cell := DecomposeTop(index, s);
    var roi := rois[cell.roi];
    PoolsWindow(bottom, batchSize, s, roi.batch, ChannelOf(roi, cell, s), BinWindow(roi, cell.ph, cell.pw, s), top, argmax)
  }

  /**
   * `ROIPoolForward` over all `output_size` indices, in order. The ghost
   * result holds the argmax of every cell whether or not the argmax buffer
   * is given.
   */
  method RoiPoolForward(bottom: seq<int>, batchSize: nat, rois: seq<Roi>, s: Shape, top: array<int>, argmax: array?<int>)
    returns (ghost argmaxes: seq<int>)
    requires ValidShape(s) && |bottom| == BackwardSize(batchSize, s) && ValidRois(rois, batchSize, s)
    requires top.Length == ForwardSize(|rois|, s)
    requires argmax != null ==> argmax.Length == top.Length && argmax != top
    modifies top, argmax
    ensures |argmaxes| == top.Length
    ensures forall index :: 0 <= index < top.Length ==>
      CellPooled(bottom, batchSize, rois, s, index, top[index], argmaxes[index])
    ensures argmax != null ==> forall index :: 0 <= index < top.Length ==> argmax[index] == argmaxes[index]
  {
    argmaxes := [];
    for index := 0 to top.Length
      invariant |argmaxes| == index
      invariant forall i :: 0 <= i < index ==> CellPooled(bottom, batchSize, rois, s, i, top[i], argmaxes[i])
      invariant argmax != null ==> forall i :: 0 <= i < index ==> argmax[i] == argmaxes[i]
    {
      ForwardIndexDecomposes(index, |rois|, s);
      var cell := DecomposeTop(index, s);
      var roi := rois[cell.roi];
      var t, a := PoolCell(bottom, batchSize, s, roi.batch, ChannelOf(roi, cell, s), BinWindow(roi, cell.ph, cell.pw, s));
      top[index] := t;
      if argmax != null {
        argmax[index] := a;
      }
      argmaxes := argmaxes + [a];
    }
  }

  /** An argmax value is -1 or the offset of a cell of the window, in channel c. */
  predicate ArgmaxInWindow(a: int, win: Window, c: int, s: Shape)
    requires ValidShape(s)
  {
    a == -1 || (s.width > 0 && a >= 0 && a % s.channels == c && InWindow(win, OffsetH(a, s), OffsetW(a, s)))
  }

  /** Every argmax the forward pass records lies in its cell's window, or is -1. */
  lemma PooledArgmaxInWindow(bottom: seq<int>, batchSize: nat, rois: seq<Roi>, s: Shape, index: int, top: int, argmax: int)
    requires ValidShape(s) && |bottom| == BackwardSize(batchSize, s) && ValidRois(rois, batchSize, s)
    requires 0 <= index < ForwardSize(|rois|, s)
    requires CellPooled(bottom, batchSize, rois, s, index, top, argmax)
    ensures ValidShape(s) && InForwardRange(DecomposeTop(index, s), |rois|, s)
    ensures var cell := DecomposeTop(index, s);
            var roi := rois[cell.roi];
            ArgmaxInWindow(argmax, BinWindow(roi, cell.ph, cell.pw, s), ChannelOf(roi, cell, s), s)
  {
    ForwardIndexDecomposes(index, |rois|, s);
    var cell := DecomposeTop(index, s);
    var roi := rois[cell.roi];
    WindowArgmaxInWindow(bottom, batchSize, s, roi.batch, ChannelOf(roi, cell, s), BinWindow(roi, cell.ph, cell.pw, s), top, argmax);
  }

  lemma WindowArgmaxInWindow(bottom: seq<int>, batchSize: nat, s: Shape, b: int, c: int, win: Window, top: int, argmax: int)
    requires ValidShape(s) && |bottom| == BackwardSize(batchSize, s) && ReadableWindow(batchSize, s, b, c, win)
    requires PoolsWindow(bottom, batchSize, s, b, c, win, top, argmax)
    ensures ArgmaxInWindow(argmax, win, c, s)
  {
    if !IsEmpty(win) {
      OffsetDecodes(OffsetH(argmax, s), OffsetW(argmax, s), c, s);
    }
  }
}
