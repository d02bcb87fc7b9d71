# PoseCNN evaluation bookkeeping and ROI max-pooling, modelled in Dafny

This project models two parts of PoseCNN and proves properties about them.

**The LOV (YCB-Video) dataset class (`lib/datasets/lov.py`).** The model covers:

- the class names, the colour table and the symmetry flags;
- the name-to-index dictionary and the class lookup for box-file lines;
- the conversion between colour-coded label images and class-index maps, in both directions;
- the truncation of per-class point clouds to a common size, and the extents table;
- the evaluation loop of `evaluate_segmentations`. This covers:
  - the confusion matrix accumulated over frames;
  - the segmentation scores: overall accuracy, per-class accuracy, per-class IoU, NaN-skipping means, and frequency-weighted IoU;
  - the per-class pose counters for the raw, refined and ICP estimates;
  - the pose-accuracy report.
- the "IoU printed only where the union is positive" listing of `evaluate_result`.

**The CUDA ROI max-pooling kernels (`lib/roi_pooling_layer/roi_pooling_op_gpu.cu.cc`).** The model covers:

- the flat-index decompositions and the `output_size` formulas of both launchers;
- the forward pass. It forces malformed ROIs to one cell, computes and clips each bin window, and takes the maximum and its first argmax;
- the backward pass. It gathers, for every input element, the output gradient of the pooled cells whose argmax names that element.

Both kernels are modelled as sequential loops over `[0, output_size)`. The grid-stride loop is equivalent to this, because each iteration writes only its own output cell.

Layout, one module per file:

- `wrappers.dfy` (`Wrappers`): `Option` and `Result`.
- `lov_classes.dfy` (`LovClasses`): the class tables, `_class_to_ind`, the box-line lookup and the ADD/ADI choice.
- `label_codec.dfy` (`LabelCodec`): the two conversions, as methods that fill local arrays in a loop over the classes, and their round trip.
- `object_models.dfy` (`ObjectModels`): `_load_object_points`, a method with the running minimum, and `_load_object_extents`.
- `seg_metrics.dfy` (`SegMetrics`): the metric formulas over a confusion matrix. `None` stands for NaN.
- `confusion.dfy` (`Confusion`): `fast_hist`, the accumulated matrix, the in-place `hist +=` update, and independence from frame order.
- `pose_tally.dfy` (`PoseTally`): the nested instance/ROI loops that increment the counters. Each counter is specified as the size of a set of (instance, ROI) pairs.
- `evaluation.dfy` (`Evaluation`): the whole `evaluate_segmentations` loop, the report, and the `evaluate_result` listing.
- `int_arith.dfy` (`IntArith`), `roi_geometry.dfy` (`RoiGeometry`): exact floor and ceiling division, clamping, index layouts, bins and feasible ranges.
- `roi_forward.dfy` (`RoiForward`), `roi_backward.dfy` (`RoiBackward`): the two kernels and the theorem connecting them.

Where the code does something other than its names, comments or the usual definitions suggest, the model follows the code:

- The metric is chosen by class name. ADI is used for `024_bowl`, `036_wood_block` and `061_foam_brick`, not for every class whose `_symmetry` flag is set. Classes 1, 4, 6 and 18 are flagged symmetric but are scored with ADD (`LovClasses.MetricIgnoresSymmetryFlag`).
- `labels_to_image` writes the colour in RGB channel order, while `_process_label_image` reads BGR. The round trip therefore holds only after the channels are reversed (`LabelCodec.RoundTrip`, `LabelCodec.EncodeThenDecodeSwapsRedAndBlue`).
- Every ROI of the instance's class that is below the threshold is counted as correct, not only one matched candidate. So a class can have more correct poses than instances (`Evaluation.CorrectCanExceedAll`).
- A pose accuracy with no instances is not reported as NaN. The code raises ZeroDivisionError at the first such class. `Evaluation.EvaluateSegmentations` returns that failure, naming the class, as the code does. On success its report equals the NaN-reporting one (see Findings).
- A missing model file stops loading with an assertion. It is modelled as a `Failure` result.

## Model

| member | source | states |
|---|---|---|
| LovClasses.TablesHaveOneEntryPerClass | lib/datasets/lov.py:22-33 | The name list, the colour table and the symmetry array each have 22 entries, including the background. |
| LovClasses.ColorsDistinct | lib/datasets/lov.py:27-30 | The 22 class colours are pairwise distinct. |
| LovClasses.NamesDistinct | lib/datasets/lov.py:22-25 | The 22 class names are pairwise distinct. |
| LovClasses.ZipToIndex | lib/datasets/lov.py:37 | The keys of `dict(zip(names, range))` are exactly the names, and each key maps to a position that holds that name. |
| LovClasses.ZipToIndexOfDistinct | lib/datasets/lov.py:37 | With distinct names, every name maps to its own position. |
| LovClasses.BoxLineClass | lib/datasets/lov.py:239-243 | A box-line lookup that succeeds gives the index of that class name. It fails (KeyError) exactly when no class has that name. |
| LovClasses.BoxLineClassOfName | lib/datasets/lov.py:241 | Looking up class i's name gives i, for every class. |
| LovClasses.AdiClasses | lib/datasets/lov.py:494-497 | ADI is used exactly for classes 13, 16 and 21 (bowl, wood block, foam brick); every other class uses ADD. |
| LovClasses.MetricOfClassByName | lib/datasets/lov.py:494-497 | The metric the pose tally uses, chosen by class index (ADI for 13, 16 and 21), is the code's choice by class name for every class. |
| LovClasses.MetricIgnoresSymmetryFlag | lib/datasets/lov.py:494-497 | Every ADI class has symmetry flag 1 (line 33). The classes flagged symmetric but scored with ADD are exactly 1, 4, 6 and 18. |
| LabelCodec.PackInjective | lib/datasets/lov.py:266-269 | Three bytes packed as b0 + 256·b1 + 65536·b2 determine the bytes. |
| LabelCodec.KeyMatch | lib/datasets/lov.py:266-270 | A pixel's packed key equals colour c's packed key exactly when the pixel is (b, g, r) of c. |
| LabelCodec.LabelAfter | lib/datasets/lov.py:267-271 | The label written after any prefix of the class loop is a class index. |
| LabelCodec.LabelAfterMatches | lib/datasets/lov.py:267-271 | Once the class loop has passed the class whose key matches, the label is that class. |
| LabelCodec.LabelAfterUnmatched | lib/datasets/lov.py:263-271 | A pixel whose key matches no colour keeps the initial label 0. |
| LabelCodec.DecodePixelSpec | lib/datasets/lov.py:263-271 | A decoded pixel has label i exactly when it shows colour i in BGR order, or when i = 0 and it shows no table colour. |
| LabelCodec.ProcessLabelImage | lib/datasets/lov.py:256-273 | The loop over classes and pixels yields a map of the image's size in which every pixel holds that pixel's decoded label. |
| LabelCodec.LabelsToImage | lib/datasets/lov.py:276-293 | The loop over classes and pixels yields an image of the map's size. Each pixel holds its label's colour in RGB order, or black when the label is outside [0, 22). |
| LabelCodec.PixelRoundTrip | lib/datasets/lov.py:266-289 | Decoding the channel-reversed encoding of a label in [0, 22) gives the label back. |
| LabelCodec.RoundTrip | lib/datasets/lov.py:256-293 | For every map with labels in [0, 22), decoding the channel-reversed output of `labels_to_image` returns the map. |
| LabelCodec.EncodeOutsideTableIsBlack | lib/datasets/lov.py:280-289 | A label outside the table is written black, and black decodes as background. |
| LabelCodec.EncodeThenDecodeSwapsRedAndBlue | lib/datasets/lov.py:265-291 | Without the channel reversal, label 1 (red) decodes as 3 (blue): the writer emits RGB and the reader expects BGR. |
| ObjectModels.LoadObjectPoints | lib/datasets/lov.py:131-148 | It fails exactly when some class file is missing, naming the first missing class, or, with every file present, when some class's file holds fewer than two points (read as a one-dimensional array, it cannot be truncated with `[:num, :]`), naming the first such class. On success every cloud has at least two points, and: `points` holds each class's cloud as read; N is the minimum point count over classes 1..n-1; row 0 of `points_all` is N zero points; row i ≥ 1 is the first N points of class i. |
| ObjectModels.LoadObjectExtents | lib/datasets/lov.py:151-160 | A missing file fails. Otherwise the result is a table of the number of classes with row 0 zero, and rows 1.. are either the file's rows or, by broadcasting, its single row. Any other row count fails. |
| SegMetrics.Ratio | lib/datasets/lov.py:539-551 | A quotient is undefined (NaN) exactly when the denominator is 0. Otherwise it is the exact quotient: non-negative, positive iff the numerator is, and at most 1 when num ≤ den. |
| SegMetrics.DiagonalBounds | lib/datasets/lov.py:542-546 | hist[i][i] is at most its row and column sums. Both sums are at most the union, and the row sum is at most the total. |
| SegMetrics.OverallAccuracy | lib/datasets/lov.py:539 | Undefined exactly when the matrix is all zero. Otherwise trace/total, in [0, 1]. |
| SegMetrics.ClassAccuracy | lib/datasets/lov.py:542 | Undefined exactly when rowSum[i] = 0. Otherwise diag[i]/rowSum[i], in [0, 1]. |
| SegMetrics.IoU | lib/datasets/lov.py:546 | Undefined exactly when rowSum+colSum−diag = 0. Otherwise diag[i] over that union, in [0, 1]. |
| SegMetrics.IoULeClassAccuracy | lib/datasets/lov.py:542-546 | Where both are defined, a class's IoU is at most its accuracy. |
| SegMetrics.NanMean | lib/datasets/lov.py:543 | `np.nanmean` is undefined exactly when no entry is defined. |
| SegMetrics.NanMeanBounds | lib/datasets/lov.py:543-549 | The NaN-skipping mean of entries in [lo, hi] lies in [lo, hi]. |
| SegMetrics.NanMeanSkipsUndefined | lib/datasets/lov.py:549 | Inserting an undefined entry anywhere leaves the NaN-skipping mean unchanged. |
| SegMetrics.ClassAccuracies | lib/datasets/lov.py:542 | One accuracy per class. Entry i is undefined exactly when row i sums to 0, and otherwise lies in [0, 1]. |
| SegMetrics.IoUs | lib/datasets/lov.py:546 | One IoU per class. Entry i is undefined exactly when class i's union is 0, and otherwise lies in [0, 1]. |
| SegMetrics.MeansBounds | lib/datasets/lov.py:542-549 | Mean accuracy and mean IoU lie in [0, 1] when defined, and each is undefined exactly when the matrix is all zero. |
| SegMetrics.Frequency | lib/datasets/lov.py:550 | A frequency is undefined exactly when the total is 0. Otherwise it is positive exactly when the class occurs in the ground truth. |
| SegMetrics.FwTermBounds | lib/datasets/lov.py:551 | Each fwavacc summand (only classes with positive frequency contribute) lies between 0 and diag[i]/total. |
| SegMetrics.FwAvAccBounds | lib/datasets/lov.py:550-551 | fwavacc is non-negative, at most the overall accuracy, and 0 for an all-zero matrix. |
| SegMetrics.TwoClassExample | lib/datasets/lov.py:539-551 | For [[10,2],[3,5]], the scores are: accuracy 0.75, class accuracies 10/12 and 5/8, IoUs 10/15 and 1/2, mean IoU 7/12, fwavacc 0.6. |
| Confusion.FastHist | lib/datasets/lov.py:444 | An n×n histogram whose entry (i, j) counts the pixels with ground truth i and prediction j. |
| Confusion.ConfusionOf | lib/datasets/lov.py:415-444 | Entry (i, j) of the accumulated matrix is the sum over frames of that frame's (i, j) count. |
| Confusion.AccumulateHist | lib/datasets/lov.py:444 | `hist += fast_hist(...)`: every entry grows by the frame's count, in place. |
| Confusion.CumCountMonotone | lib/datasets/lov.py:415-444 | The matrix starts at zero, and accumulating more frames never decreases an entry. |
| Confusion.CumCountConcat | lib/datasets/lov.py:437-444 | Accumulating two runs of frames one after the other adds their matrices. |
| Confusion.CumCountPermutation | lib/datasets/lov.py:437-444 | Any reordering of the frames gives the same entry. |
| Confusion.ConfusionOrderIndependent | lib/datasets/lov.py:437-444 | Any reordering of the frames gives the same final confusion matrix. |
| PoseTally.TallyFrame | lib/datasets/lov.py:469-521 | In place, over one frame, for every class c: count_all[c] grows by the number of instances with cls_indexes = c > 0; count_correct[c] grows by the number of (instance, ROI) pairs of class c whose raw error is below threshold[c]; the refined and ICP counters grow likewise when refinement is on, and are unchanged otherwise. |
| PoseTally.TallyInstance | lib/datasets/lov.py:475-521 | The ROI loop of one instance adds exactly that instance's correct pairs to each stage's counter. |
| PoseTally.CountIfBelow | lib/datasets/lov.py:499-500 | A counter grows by one at class c exactly when the error is strictly below the bound. No other entry changes. |
| PoseTally.NoInstanceOfBackground | lib/datasets/lov.py:470-473 | An instance with index ≤ 0 adds no instance to any class's count. |
| PoseTally.NoPairsOfBackground | lib/datasets/lov.py:470-471 | An instance with index ≤ 0 adds no correct pair at any stage. |
| PoseTally.InstancesStep | lib/datasets/lov.py:469-473 | A non-background instance adds one to its own class's instance count and leaves every other class unchanged. |
| PoseTally.PairsStep | lib/datasets/lov.py:475-500 | Visiting ROI k adds one pair exactly when the ROI has the instance's class and its error is below the threshold. |
| PoseTally.NextInstance | lib/datasets/lov.py:469-475 | Finishing the ROI loop of instance j is the same as starting instance j + 1. |
| Evaluation.AllCounts | lib/datasets/lov.py:428-473 | count_all is the per-class number of instances over all frames, and zero when pose regression is off. The background entry is 0. |
| Evaluation.StageCounts | lib/datasets/lov.py:429-521 | A correct-pose counter is the per-class number of correct pairs over all frames, and zero when its stage is off. The background entry is 0. |
| Evaluation.BackgroundNeverCorrect | lib/datasets/lov.py:470-500 | No pose of class 0 is ever counted correct, at any stage. |
| Evaluation.CountsOf | lib/datasets/lov.py:428-521 | Nothing is counted with pose regression off. The refined and ICP counters stay zero unless refinement is also on. |
| Evaluation.BackgroundNeverCounted | lib/datasets/lov.py:470-473 | count_all[0] is always 0. |
| Evaluation.SegReportBounds | lib/datasets/lov.py:538-551 | Every defined reported accuracy and mean lies in [0, 1]. fwavacc is non-negative and at most the overall accuracy. |
| Evaluation.PoseAccuracies | lib/datasets/lov.py:565-573 | Intended pose accuracy of classes 1..n-1: undefined exactly when count_all[i] = 0, and otherwise correct[i]/count_all[i]. |
| Evaluation.PoseAccuraciesAsWritten | lib/datasets/lov.py:567-573 | As written, the report fails at the first class from i on with count_all = 0. It succeeds with one value per class only when every class has been seen. |
| Evaluation.AsWrittenAgreesWhenAllSeen | lib/datasets/lov.py:567-573 | When the written report succeeds, its values are the intended accuracies. |
| Evaluation.AsWrittenSucceedsWhenAllSeen | lib/datasets/lov.py:567-573 | When every class 1..n-1 has an instance, the written report succeeds. |
| Evaluation.AsWrittenSuccessIsIntended | lib/datasets/lov.py:567-573 | On success, the written values, each marked defined, are the intended accuracies. |
| Evaluation.PoseReportAsWrittenSpec | lib/datasets/lov.py:565-573 | The written pose report (raw, then refined and ICP with refinement on) fails exactly when some class 1..n-1 has count_all = 0. It then names the first such class. On success it is the intended report. |
| Evaluation.AbsentClassStopsReport | lib/datasets/lov.py:568 | When class 1 has no instances, the written report stops at class 1, while the intended one gives NaN for class 1 and 0.75 for class 2. |
| Evaluation.CountsFromTallies | lib/datasets/lov.py:428-521 | Counters that agree class by class with the loop specification are the counters CountsOf names. |
| Evaluation.EvaluateSegmentations | lib/datasets/lov.py:411-573 | The frame loop ends with: the confusion matrix of all frames' labels; the segmentation report of that matrix; the specified pose counters; and, when pose regression is on, the pose report as written (refined and ICP lines only with refinement on). That report fails exactly when some class 1..21 has count_all = 0, and then names the first such class; on success it equals the NaN-reporting report. |
| Evaluation.CorrectCanExceedAll | lib/datasets/lov.py:475-500 | One instance with two same-class ROIs that are both below the threshold gives 2 correct poses for 1 instance. |
| Evaluation.ListedIoUs | lib/datasets/lov.py:313-319 | The listing holds only classes with a positive union, each with its IoU, in increasing class order. |
| Evaluation.ListedIoUsComplete | lib/datasets/lov.py:316-319 | Every class with a positive union is listed. |
| IntArith.Clip | lib/roi_pooling_layer/roi_pooling_op_gpu.cu.cc:71-74 | `min(max(x, 0), hi)` lies in [0, hi] and is x when x is already there. |
| IntArith.FloorDivBounds | lib/roi_pooling_layer/roi_pooling_op_gpu.cu.cc:61-64 | d ≤ floor(a/b) exactly when d·b ≤ a, and floor(a/b) < d exactly when a < d·b. |
| IntArith.CeilDivBounds | lib/roi_pooling_layer/roi_pooling_op_gpu.cu.cc:65-68 | ceil(a/b) ≤ d exactly when a ≤ d·b, and d < ceil(a/b) exactly when d·b < a. |
| RoiGeometry.ForwardIndexDecomposes | lib/roi_pooling_layer/roi_pooling_op_gpu.cu.cc:28-43 | In both channel modes, every index below the forward `output_size` decomposes into an in-range (roi, ph, pw, c); c is the constant 1 with pool_channel on. Composing the cell back, as ((n·PH+ph)·PW+pw)·C+c or (n·PH+ph)·PW+pw, gives the index. |
| RoiGeometry.ForwardCellComposes | lib/roi_pooling_layer/roi_pooling_op_gpu.cu.cc:113-116 | Every in-range cell composes to an index below `output_size` and decomposes back to itself. So `output_size` counts the cells exactly. |
| RoiGeometry.BackwardIndexDecomposes | lib/roi_pooling_layer/roi_pooling_op_gpu.cu.cc:143-149 | Every index below `batch·H·W·C` decomposes into an in-range (n, h, w, c) with n·HWC + (h·W+w)·C + c = index. |
| RoiGeometry.OffsetInjective | lib/roi_pooling_layer/roi_pooling_op_gpu.cu.cc:88-90 | The within-image offset (h·W+w)·C+c determines h, w and c. |
| RoiGeometry.OffsetDecodes | lib/roi_pooling_layer/roi_pooling_op_gpu.cu.cc:88-90 | Row, column and channel can be read back from an offset. |
| RoiGeometry.Extent | lib/roi_pooling_layer/roi_pooling_op_gpu.cu.cc:53-55 | ROI width and height are at least 1: end−start+1 when end ≥ start, and 1 when end < start. |
| RoiGeometry.BinLo | lib/roi_pooling_layer/roi_pooling_op_gpu.cu.cc:61-73 | A bin's clipped start lies in [0, size]. |
| RoiGeometry.BinHi | lib/roi_pooling_layer/roi_pooling_op_gpu.cu.cc:65-74 | A bin's clipped end lies in [0, size]. |
| RoiGeometry.BinWindow | lib/roi_pooling_layer/roi_pooling_op_gpu.cu.cc:53-74 | After clipping, 0 ≤ hstart, hend ≤ height and 0 ≤ wstart, wend ≤ width. |
| RoiGeometry.EmptyWindowHasNoCell | lib/roi_pooling_layer/roi_pooling_op_gpu.cu.cc:75 | `is_empty` holds exactly when the window contains no cell. |
| RoiGeometry.FeasibleLo | lib/roi_pooling_layer/roi_pooling_op_gpu.cu.cc:200-207 | The backward pass's clipped first feasible bin lies in [0, pooled]. |
| RoiGeometry.FeasibleHi | lib/roi_pooling_layer/roi_pooling_op_gpu.cu.cc:201-208 | The backward pass's clipped feasible end lies in [0, pooled]. |
| RoiGeometry.FeasibleCovers | lib/roi_pooling_layer/roi_pooling_op_gpu.cu.cc:188-208 | If input row x (or column) lies in bin p of the forward pass, then p lies in the feasible range the backward pass computes for x. |
| RoiGeometry.BinWithinExtent | lib/roi_pooling_layer/roi_pooling_op_gpu.cu.cc:53-74 | Every cell of a bin window lies in the ROI's forced extent [start, start+extent−1]. |
| RoiForward.BottomIndexInRange | lib/roi_pooling_layer/roi_pooling_op_gpu.cu.cc:81-90 | Batch offset plus within-image offset of an in-range element lies in the feature buffer. |
| RoiForward.FirstMaxUnique | lib/roi_pooling_layer/roi_pooling_op_gpu.cu.cc:82-96 | A window's maximum and the first cell holding it, in row-major order, are unique. |
| RoiForward.PoolCell | lib/roi_pooling_layer/roi_pooling_op_gpu.cu.cc:75-96 | An empty window gives top 0 and argmax −1. A non-empty window gives the maximum of the read channel over the window, and argmax (h·W+w)·C+ch of the first cell, in row-major order, that holds it. |
| RoiForward.RoiPoolForward | lib/roi_pooling_layer/roi_pooling_op_gpu.cu.cc:25-100 | Every output index holds the pooling of its ROI's bin, read from channel `roi_cls` with pool_channel on and from channel c otherwise. The argmax buffer is written only when it is given. |
| RoiForward.PooledArgmaxInWindow | lib/roi_pooling_layer/roi_pooling_op_gpu.cu.cc:82-99 | Every recorded argmax is −1 or the offset of a cell of its bin window, in the channel that was read. |
| RoiBackward.GradIndexIsForwardIndex | lib/roi_pooling_layer/roi_pooling_op_gpu.cu.cc:180-222 | The backward pass reads `top_diff` and `argmax_data` at the very position where the forward pass wrote that pooled cell. |
| RoiBackward.GradIndexInRange | lib/roi_pooling_layer/roi_pooling_op_gpu.cu.cc:180-222 | Every position the backward loops read is below the forward `output_size`. |
| RoiBackward.ReadTerm | lib/roi_pooling_layer/roi_pooling_op_gpu.cu.cc:214-223 | A pooled cell contributes its gradient exactly when its argmax equals (h·W+w)·C+c, and 0 otherwise. |
| RoiBackward.GatherRow | lib/roi_pooling_layer/roi_pooling_op_gpu.cu.cc:212-224 | The pw loop adds the contributions of columns [pwstart, pwend), including when the range is empty. |
| RoiBackward.GatherRoi | lib/roi_pooling_layer/roi_pooling_op_gpu.cu.cc:210-225 | The ph/pw loops add the contributions of the feasible rectangle. |
| RoiBackward.GatherGradient | lib/roi_pooling_layer/roi_pooling_op_gpu.cu.cc:142-226 | The ROI loop for one element sums the feasible-rectangle contributions of the ROIs of the same image (and same class with pool_channel on) that pass the `in_roi` test. |
| RoiBackward.RoiPoolBackward | lib/roi_pooling_layer/roi_pooling_op_gpu.cu.cc:140-228 | Each of the `batch·H·W·C` elements of `bottom_diff` is written with its gathered gradient. |
| RoiBackward.ForwardArgmaxesInWindows | lib/roi_pooling_layer/roi_pooling_op_gpu.cu.cc:97-99 | The argmax buffer the forward pass leaves has every entry −1 or inside its cell's window. |
| RoiBackward.TermLocated | lib/roi_pooling_layer/roi_pooling_op_gpu.cu.cc:188-222 | Given such a buffer, a pooled cell passes gradient to an element only when the element lies in that cell's bin window. |
| RoiBackward.RoiGradientIsFull | lib/roi_pooling_layer/roi_pooling_op_gpu.cu.cc:188-225 | With the test on the forced extent, the feasible-range loops of one ROI collect exactly the sum over all its pooled cells whose argmax names the element. |
| RoiBackward.GradientIsFull | lib/roi_pooling_layer/roi_pooling_op_gpu.cu.cc:153-226 | Summed over ROIs: the corrected kernel computes the full gradient. |
| RoiBackward.TestsAgreeOnWellFormed | lib/roi_pooling_layer/roi_pooling_op_gpu.cu.cc:173-178 | On ROIs with end ≥ start, the `in_roi` test as written and the forced-extent test give the same gradient. |
| RoiBackward.BackwardIsFullGradient | lib/roi_pooling_layer/roi_pooling_op_gpu.cu.cc:140-228 | Given argmaxes as the forward pass leaves them, with the corrected test or with well-formed ROIs, each `bottom_diff` element is the sum of `top_diff` over every pooled cell, of every ROI of its image (and class), whose argmax is the element. It is 0 when there is none. |
| RoiBackward.UnclippedRoiGradient | lib/roi_pooling_layer/roi_pooling_op_gpu.cu.cc:165-225 | With the `in_roi` test as written, on any ROI, well formed or not: a ROI whose unclipped ends contain the element gives its full gradient, and any other ROI gives 0. |
| RoiBackward.UnclippedGradientIsContained | lib/roi_pooling_layer/roi_pooling_op_gpu.cu.cc:153-226 | Summed over ROIs: the kernel as written gives the full gradient of exactly the containing ROIs. |
| RoiBackward.BackwardAsWritten | lib/roi_pooling_layer/roi_pooling_op_gpu.cu.cc:140-228 | With no condition on the ROIs, each `bottom_diff` element of the kernel as written is the sum, over the ROIs of its image (and class) whose unclipped ends contain it, of `top_diff` over every pooled cell whose argmax is the element. |
| RoiBackward.MalformedRoiLosesGradient | lib/roi_pooling_layer/roi_pooling_op_gpu.cu.cc:173-178 | For ROI (0,0,0,0,−1,0) on a 1×1×1 map pooled 1×1, with argmax 0 and gradient 1, the kernel as written gives element 0 gradient 0, while its full gradient and the corrected kernel's is 1. |
| RoiBackward.MalformedRoiWindow | lib/roi_pooling_layer/roi_pooling_op_gpu.cu.cc:53-74 | The forward pass pools that malformed ROI over the one-cell window (0,0), and argmax 0 lies in it. |

## Left out

- File and image I/O is not modelled: `cv2.imread`/`imwrite`, `np.loadtxt`, `scipy.io.loadmat`/`savemat`, `os.makedirs`, the path builders and the `gt_roidb` cache. Files are inputs: a parsed point list, or `None` for a missing file.
- All `print` output and the text files `segmentation.txt` and `confusion_matrix.txt` are left out. The printed or written values are modelled as a result value.
- Floats are not modelled. Counters are naturals, not `float32`, and metrics are exact reals with `None` for NaN.
- `fast_hist` and `num_classes` are defined in the `imdb` base class, which is not part of this model. `fast_hist` is modelled as counting (ground truth, prediction) pairs with both labels in [0, n). Label maps of different sizes cannot be expressed, because a frame's two maps have equal length by type.
- Label images and maps are flattened in row-major order. Both conversions are pixelwise, so height and width matter only through the pixel count.
- `labels_to_image` takes an image argument `im` that it never uses; it is dropped.
- Pose errors (`re`, `te`, `add`, `adi`, `quat2mat`) and the thresholds `0.1·‖extent‖` are abstract inputs. They are a function from (frame, instance, ROI, stage, metric) to a real number, plus a per-class threshold sequence. Rotation and translation errors are computed but never used by the counters.
- `PoseTally.TallyFrame`: it requires class indexes below 22, where the code would raise IndexError. It does not model indexes that are not integers.
- `PoseTally.TallyFrame`: it visits every entry of `cls_indexes`. The code visits the first `poses_gt.shape[2]` entries, so the model assumes the two lengths are equal. With more indexes than poses, the code ignores the extra ones. With fewer, it raises IndexError.
- `compute_class_weights` is left out: it does image I/O and float ratios, and its call is disabled.
- In `evaluate_result`, only the listing of classes with a positive union is modelled. The pose part only prints and saves.
- The CUDA launch configuration, streams, `cudaGetLastError` and `exit(-1)` are not modelled, nor is the grid-stride thread mapping. Each kernel is a sequential loop over its indices.
- ROI coordinates are the integers after `round(x·spatial_scale)`. The float `bin_size` products are replaced by exact integer floor and ceiling division. Where float rounding would differ from the exact quotient, the model follows the exact quotient.
- Feature values and gradients are integers.
- The `-FLT_MAX` starting value is replaced by a "no value yet" flag, so the first cell of a non-empty window is always taken. In floats, a window whose every value is `-FLT_MAX` or `-inf` would keep argmax −1.
- 32-bit overflow of the index arithmetic is not modelled. Indices are unbounded integers.
- The `channel_rois` stride of the ROI rows is not modelled. A ROI is a record of its six fields.
- `RoiForward.RoiPoolForward` requires every ROI's batch index, and with pool_channel its class, to be in range, as its caller guarantees. The code does not check them. Out of range, only cells with a non-empty window read anything: a bad batch index reads outside that image's part of the buffer, and a bad class reads another pixel's channel, leaving the buffer only near its end. The argmaxes of all cells are returned as a ghost sequence, since the argmax buffer may be absent.
- `RoiBackward.MalformedRoiLosesGradient` states that the example argmax buffer lies in its windows (`ArgmaxesInWindows`). It does not state the stronger fact that a full forward pass over a concrete feature map produces the buffer. `RoiBackward.ForwardArgmaxesInWindows` gives that connection for all inputs.
- `RoiBackward.TermLocated` requires the element's row to be non-negative and its column and channel in range. The backward pass only visits such elements.
- `Evaluation.FrameIoUListing` applies the listing to one frame's histogram. It has no contract of its own; `Evaluation.ListedIoUs` carries the properties.

## Findings

| source | as written | input that shows it | evidently intended | confidence | as-written member | corrected member |
|---|---|---|---|---|---|---|
| lib/datasets/lov.py:567-573 | `float(count_correct[i]) / float(count_all[i])` raises ZeroDivisionError for a class with no ground-truth instance. The pose report (and the rest of the evaluation) stops there. | A test set in which class 1 never occurs, e.g. count_all = [0, 0, 4], count_correct = [0, 0, 3] | Report NaN for such a class and go on with the others | high in reading; not executed | Evaluation.AbsentClassStopsReport | Evaluation.PoseAccuracies |
| lib/roi_pooling_layer/roi_pooling_op_gpu.cu.cc:173-178 | `in_roi` tests the element against the unclipped end coordinates. The forward pass pools a malformed ROI (end < start) over its forced one-cell extent, so the gradient of an element it picked as argmax is dropped. | ROI (0,0,0,0,−1,0) on a 1×1×1 map pooled 1×1, with argmax 0 and top_diff 1: `bottom_diff[0]` is 0 instead of 1 | Test containment against the forced extent that the forward pass uses, so every recorded argmax gets its gradient back | medium; not executed | RoiBackward.MalformedRoiLosesGradient | RoiBackward.BackwardIsFullGradient |
