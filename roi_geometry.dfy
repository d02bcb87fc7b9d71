/**
 * Index arithmetic and bin geometry shared by the ROI max-pooling forward
 * and backward kernels. Feature maps are stored batch-major with channels
 * innermost: element (n, h, w, c) sits at ((n * H + h) * W + w) * C + c.
 */
module RoiGeometry {
  import opened IntArith

  /**
   * One ROI row after `round(x * spatial_scale)`: the batch image it belongs
   * to, its class, and its corners on the feature map.
   */
  datatype Roi = Roi(batch: int, cls: int, startW: int, startH: int, endW: int, endH: int)

  /** Feature-map and pooled-grid sizes, and whether one class channel is pooled per ROI. */
  datatype Shape = Shape(height: nat, width: nat, channels: nat, pooledHeight: nat, pooledWidth: nat, poolChannel: bool)

  /** The kernels take remainders by the channel count and the pooled sizes. */
  predicate ValidShape(s: Shape) {
    s.channels > 0 && s.pooledHeight > 0 && s.pooledWidth > 0
  }

  /** `output_size` of the forward launcher. */
  function ForwardSize(numRois: nat, s: Shape): nat {
    if s.poolChannel then numRois * s.pooledHeight * s.pooledWidth
    else numRois * s.pooledHeight * s.pooledWidth * s.channels
  }

  /** `output_size` of the backward launcher. */
  function BackwardSize(batchSize: nat, s: Shape): nat {
    batchSize * s.height * s.width * s.channels
  }

  /** A pooled output element: ROI, pooled row and column, and channel (the constant 1 when pooling by class). */
  datatype PooledCell = PooledCell(roi: int, ph: int, pw: int, c: int)

  predicate InForwardRange(cell: PooledCell, numRois: nat, s: Shape) {
    0 <= cell.roi < numRois && 0 <= cell.ph < s.pooledHeight && 0 <= cell.pw < s.pooledWidth &&
    (if s.poolChannel then cell.c == 1 else 0 <= cell.c < s.channels)
  }

  /** How the forward kernel splits its flat index. */
  function DecomposeTop(index: int, s: Shape): PooledCell
    requires ValidShape(s) && index >= 0
  {
    var c := if s.poolChannel then 1 else index % s.channels;
    var n := if s.poolChannel then index else index / s.channels;
    PooledCell(n / s.pooledWidth / s.pooledHeight, (n / s.pooledWidth) % s.pooledHeight, n % s.pooledWidth, c)
  }

  /** The flat offset of a pooled cell in `top_data` (and `argmax_data`, `top_diff`). */
  function ComposeTop(cell: PooledCell, s: Shape): int {
    var pos := (cell.roi * s.pooledHeight + cell.ph) * s.pooledWidth + cell.pw;
    if s.poolChannel then pos else pos * s.channels + cell.c
  }

  /** Splitting q * b + r with 0 <= r < b, twice. */
  lemma Compose2(n: int, x: int, y: int, m1: int, m2: int)
    requires m1 > 0 && m2 > 0 && 0 <= x < m1 && 0 <= y < m2
    ensures ((n * m1 + x) * m2 + y) / m2 / m1 == n
    ensures ((n * m1 + x) * m2 + y) / m2 % m1 == x
    ensures ((n * m1 + x) * m2 + y) % m2 == y
  {
    DivModCompose(n * m1 + x, y, m2);
    DivModCompose(n, x, m1);
  }

  /** The digits of n in the mixed radix (numRois, ph, pw). */
  lemma Split2(n: int, nb: int, m1: int, m2: int)
    requires m1 > 0 && m2 > 0 && 0 <= n < nb * m1 * m2
    ensures 0 <= n / m2 / m1 < nb && 0 <= n / m2 % m1 < m1 && 0 <= n % m2 < m2
    ensures (n / m2 / m1 * m1 + n / m2 % m1) * m2 + n % m2 == n
  {
    DivBelow(n, m2, nb * m1) by {
      assert nb * m1 * m2 == m2 * (nb * m1);
    }
    var q := n / m2;
    DivBelow(q, m1, nb);
    assert q == q / m1 * m1 + q % m1;
    assert n == q * m2 + n % m2;
  }

  /** Every forward index names a pooled cell in range, and composing it gives the index back. */
  lemma ForwardIndexDecomposes(index: int, numRois: nat, s: Shape)
    requires ValidShape(s) && 0 <= index < ForwardSize(numRois, s)
    ensures InForwardRange(DecomposeTop(index, s), numRois, s)
    ensures ComposeTop(DecomposeTop(index, s), s) == index
  {
    var ph, pw, ch := s.pooledHeight, s.pooledWidth, s.channels;
    if s.poolChannel {
      Split2(index, numRois, ph, pw);
    } else {
      var n := index / ch;
      assert index == n * ch + index % ch;
      DivBelow(index, ch, numRois * ph * pw);
      Split2(n, numRois, ph, pw);
    }
  }

  /** Every pooled cell in range has an index below `output_size`, and decomposing it gives the cell back. */
  lemma ForwardCellComposes(cell: PooledCell, numRois: nat, s: Shape)
    requires ValidShape(s) && InForwardRange(cell, numRois, s)
    ensures 0 <= ComposeTop(cell, s) < ForwardSize(numRois, s)
    ensures DecomposeTop(ComposeTop(cell, s), s) == cell
  {
    var ph, pw, ch := s.pooledHeight, s.pooledWidth, s.channels;
    var pos := (cell.roi * ph + cell.ph) * pw + cell.pw;
    Compose2(cell.roi, cell.ph, cell.pw, ph, pw);
    Bound2(cell.roi, cell.ph, cell.pw, numRois, ph, pw);
    if !s.poolChannel {
      DivModCompose(pos, cell.c, ch);
      Bound2(pos, cell.c, 0, numRois * ph * pw, ch, 1);
    }
  }

  /** n * m + x stays below nb * m when both digits are in range. */
  lemma Bound1(n: int, x: int, nb: int, m: int)
    requires 0 <= n < nb && 0 <= x < m
    ensures 0 <= n * m + x < nb * m
  {
    MulMonoRight(n + 1, nb, m);
  }

  /** (n * m1 + x) * m2 + y stays below nb * m1 * m2 when every digit is in range. */
  lemma Bound2(n: int, x: int, y: int, nb: int, m1: int, m2: int)
    requires 0 <= n < nb && 0 <= x < m1 && 0 <= y < m2
    ensures 0 <= (n * m1 + x) * m2 + y < nb * m1 * m2
  {
    MulMonoRight(n + 1, nb, m1);
    assert n * m1 + x < nb * m1;
    MulMonoRight(n * m1 + x + 1, nb * m1, m2);
  }

  /** An element of the input (and gradient) feature map. */
  datatype BottomCell = BottomCell(n: int, h: int, w: int, c: int)

  predicate InBackwardRange(cell: BottomCell, batchSize: nat, s: Shape) {
    0 <= cell.n < batchSize && 0 <= cell.h < s.height && 0 <= cell.w < s.width && 0 <= cell.c < s.channels
  }

  /** How the backward kernel splits its flat index. */
  function DecomposeBottom(index: int, s: Shape): BottomCell
    requires s.channels > 0 && s.width > 0 && s.height > 0 && index >= 0
  {
    var n := index / s.channels;
    var m := n / s.width;
    BottomCell(m / s.height, m % s.height, n % s.width, index % s.channels)
  }

  /** Offset of (h, w, c) within one batch image: the value the forward kernel stores as argmax. */
  function Offset(h: int, w: int, c: int, s: Shape): int {
    (h * s.width + w) * s.channels + c
  }

  /** Every backward index names an element in range. */
  lemma BackwardIndexDecomposes(index: int, batchSize: nat, s: Shape)
    requires 0 <= index < BackwardSize(batchSize, s)
    ensures s.channels > 0 && s.width > 0 && s.height > 0
    ensures InBackwardRange(DecomposeBottom(index, s), batchSize, s)
    ensures DecomposeBottom(index, s).n * (s.height * s.width * s.channels) +
            Offset(DecomposeBottom(index, s).h, DecomposeBottom(index, s).w, DecomposeBottom(index, s).c, s) == index
  {
    var hh, ww, ch := s.height, s.width, s.channels;
    ZeroFactor(batchSize, hh, ww, ch);
    var n := index / ch;
    assert index == n * ch + index % ch;
    DivBelow(index, ch, batchSize * hh * ww);
    var m := n / ww;
    assert n == m * ww + n % ww;
    DivBelow(n, ww, batchSize * hh) by {
      assert batchSize * hh * ww == ww * (batchSize * hh);
    }
    assert m == m / hh * hh + m % hh;
    DivBelow(m, hh, batchSize);
    var b := m / hh;
    calc {
      index;
      n * ch + index % ch;
      (m * ww + n % ww) * ch + index % ch;
      ((b * hh + m % hh) * ww + n % ww) * ch + index % ch;
      { Expand(b, m % hh, n % ww, index % ch, hh, ww, ch); }
      b * (hh * ww * ch) + Offset(m % hh, n % ww, index % ch, s);
    }
  }

  lemma ZeroFactor(a: int, b: int, c: int, d: int)
    ensures b == 0 || c == 0 || d == 0 ==> a * b * c * d == 0
  {
  }

  lemma Expand(b: int, h: int, w: int, c: int, hh: int, ww: int, ch: int)
    ensures ((b * hh + h) * ww + w) * ch + c == b * (hh * ww * ch) + ((h * ww + w) * ch + c)
  {
  }

  /** Offsets within one image name their element uniquely. */
  lemma OffsetInjective(h: int, w: int, c: int, h': int, w': int, c': int, s: Shape)
    requires s.channels > 0 && s.width > 0
    requires 0 <= w < s.width && 0 <= c < s.channels && 0 <= w' < s.width && 0 <= c' < s.channels
    requires Offset(h, w, c, s) == Offset(h', w', c', s)
    ensures h == h' && w == w' && c == c'
  {
    Compose2(h, w, c, s.width, s.channels);
    Compose2(h', w', c', s.width, s.channels);
  }

  lemma OffsetNonNeg(h: int, w: int, c: int, s: Shape)
    requires 0 <= h && 0 <= w && 0 <= c
    ensures Offset(h, w, c, s) >= 0
  {
  }

  /** The decoding of an argmax value: row, column and channel of a within-image offset. */
  function OffsetH(a: int, s: Shape): int
    requires s.channels > 0 && s.width > 0
  {
    a / s.channels / s.width
  }

  function OffsetW(a: int, s: Shape): int
    requires s.channels > 0 && s.width > 0
  {
    a / s.channels % s.width
  }

  lemma OffsetDecodes(h: int, w: int, c: int, s: Shape)
    requires s.channels > 0 && s.width > 0 && 0 <= w < s.width && 0 <= c < s.channels
    ensures OffsetH(Offset(h, w, c, s), s) == h && OffsetW(Offset(h, w, c, s), s) == w
    ensures Offset(h, w, c, s) % s.channels == c
  {
    Compose2(h, w, c, s.width, s.channels);
  }

  // ---------------------------------------------------------------- bins

  /** `max(roi_end - roi_start + 1, 1)`: a malformed ROI is treated as one cell wide. */
  function Extent(start: int, end: int): (r: int)
    ensures r >= 1
    ensures end >= start ==> r == end - start + 1
    ensures end < start ==> r == 1
  {
    if end - start + 1 > 1 then end - start + 1 else 1
  }

  function RoiWidth(roi: Roi): int {
    Extent(roi.startW, roi.endW)
  }

  function RoiHeight(roi: Roi): int {
    Extent(roi.startH, roi.endH)
  }

  /**
   * First row (or column) of bin p along one axis, clipped to the map:
   * `floor(p * extent / pooled) + start` clamped to [0, size].
   */
  function BinLo(start: int, extent: int, pooled: int, size: int, p: int): (r: int)
    requires extent >= 1 && pooled >= 1 && size >= 0
    ensures 0 <= r <= size
  {
    Clip(FloorDiv(p * extent, pooled) + start, size)
  }

  /** One past the last row (or column) of bin p: `ceil((p + 1) * extent / pooled) + start` clamped. */
  function BinHi(start: int, extent: int, pooled: int, size: int, p: int): (r: int)
    requires extent >= 1 && pooled >= 1 && size >= 0
    ensures 0 <= r <= size
  {
    Clip(CeilDiv((p + 1) * extent, pooled) + start, size)
  }

  /** The input window `[hstart, hend) x [wstart, wend)` of one pooled cell. */
  datatype Window = Window(hstart: int, hend: int, wstart: int, wend: int)

  function BinWindow(roi: Roi, ph: int, pw: int, s: Shape): (win: Window)
    requires ValidShape(s)
    ensures 0 <= win.hstart <= s.height && 0 <= win.hend <= s.height
    ensures 0 <= win.wstart <= s.width && 0 <= win.wend <= s.width
  {
    Window(BinLo(roi.startH, RoiHeight(roi), s.pooledHeight, s.height, ph),
           BinHi(roi.startH, RoiHeight(roi), s.pooledHeight, s.height, ph),
           BinLo(roi.startW, RoiWidth(roi), s.pooledWidth, s.width, pw),
           BinHi(roi.startW, RoiWidth(roi), s.pooledWidth, s.width, pw))
  }

  predicate IsEmpty(win: Window) {
    win.hend <= win.hstart || win.wend <= win.wstart
  }

  predicate InWindow(win: Window, h: int, w: int) {
    win.hstart <= h < win.hend && win.wstart <= w < win.wend
  }

  /** A window is empty exactly when it holds no cell. */
  lemma EmptyWindowHasNoCell(win: Window)
    ensures IsEmpty(win) <==> forall h, w :: !InWindow(win, h, w)
  {
    if !IsEmpty(win) {
      assert InWindow(win, win.hstart, win.wstart);
    }
  }

  /**
   * First pooled row (or column) whose bin may hold input row x:
   * `floor((x - start) / bin_size)` clamped to [0, pooled].
   */
  function FeasibleLo(start: int, extent: int, pooled: int, x: int): (r: int)
    requires extent >= 1 && pooled >= 1
    ensures 0 <= r <= pooled
  {
    Clip(FloorDiv((x - start) * pooled, extent), pooled)
  }

  /** One past the last pooled row whose bin may hold x: `ceil((x - start + 1) / bin_size)` clamped. */
  function FeasibleHi(start: int, extent: int, pooled: int, x: int): (r: int)
    requires extent >= 1 && pooled >= 1
    ensures 0 <= r <= pooled
  {
    Clip(CeilDiv((x - start + 1) * pooled, extent), pooled)
  }

  /** A clamped value at most x, where 0 <= x < size, was itself at most x. */
  lemma ClipBelow(v: int, size: int, x: int)
    requires 0 <= x < size
    ensures Clip(v, size) <= x <==> v <= x
  {
  }

  /** A clamped value above x, where 0 <= x < size, was itself above x. */
  lemma ClipAbove(v: int, size: int, x: int)
    requires 0 <= x < size
    ensures x < Clip(v, size) <==> x < v
  {
  }

  /**
   * The feasible range of the backward pass misses no bin: if input row x
   * lies in bin p, then p lies in [FeasibleLo(x), FeasibleHi(x)).
   */
  lemma FeasibleCovers(start: int, extent: int, pooled: int, size: int, p: int, x: int)
    requires extent >= 1 && pooled >= 1 && 0 <= p < pooled && 0 <= x < size
    requires BinLo(start, extent, pooled, size, p) <= x < BinHi(start, extent, pooled, size, p)
    ensures FeasibleLo(start, extent, pooled, x) <= p < FeasibleHi(start, extent, pooled, x)
  {
    FeasibleLoCovers(start, extent, pooled, size, p, x);
    FeasibleHiCovers(start, extent, pooled, size, p, x);
  }

  lemma FeasibleLoCovers(start: int, extent: int, pooled: int, size: int, p: int, x: int)
    requires extent >= 1 && pooled >= 1 && 0 <= p < pooled && 0 <= x < size
    requires x < BinHi(start, extent, pooled, size, p)
    ensures FeasibleLo(start, extent, pooled, x) <= p
  {
    // x - start < ceil((p + 1) * extent / pooled), so (x - start) * pooled < (p + 1) * extent
    ClipAbove(CeilDiv((p + 1) * extent, pooled) + start, size, x);
    CeilDivBounds((p + 1) * extent, pooled, x - start);
    FloorDivBounds((x - start) * pooled, extent, p + 1);
    ClipBelow(FloorDiv((x - start) * pooled, extent), pooled, p);
  }

  lemma FeasibleHiCovers(start: int, extent: int, pooled: int, size: int, p: int, x: int)
    requires extent >= 1 && pooled >= 1 && 0 <= p < pooled && 0 <= x < size
    requires BinLo(start, extent, pooled, size, p) <= x
    ensures p < FeasibleHi(start, extent, pooled, x)
  {
    // floor(p * extent / pooled) <= x - start, so p * extent < (x - start + 1) * pooled
    ClipBelow(FloorDiv(p * extent, pooled) + start, size, x);
    FloorDivBounds(p * extent, pooled, x - start + 1);
    CeilDivBounds((x - start + 1) * pooled, extent, p);
    ClipAbove(CeilDiv((x - start + 1) * pooled, extent), pooled, p);
  }

  /** Every bin lies inside the ROI's forced extent [start, start + extent - 1]. */
  lemma BinWithinExtent(start: int, extent: int, pooled: int, size: int, p: int, x: int)
    requires extent >= 1 && pooled >= 1 && 0 <= p < pooled && 0 <= x < size
    requires BinLo(start, extent, pooled, size, p) <= x < BinHi(start, extent, pooled, size, p)
    ensures start <= x <= start + extent - 1
  {
    ClipBelow(FloorDiv(p * extent, pooled) + start, size, x);
    ClipAbove(CeilDiv((p + 1) * extent, pooled) + start, size, x);
    FloorDivNonNeg(p * extent, pooled);
    MulMonoRight(p + 1, pooled, extent);
    assert pooled * extent == extent * pooled;
    CeilDivBounds((p + 1) * extent, pooled, extent);
  }
}
