/**
 * The evaluation driver of the LOV dataset: the confusion matrix and the
 * segmentation scores over all frames, the per-class pose counters, the
 * pose-accuracy report, and the per-frame IoU listing.
 */
module Evaluation {
  import opened Wrappers
  import opened LovClasses
  import opened SegMetrics
  import opened Confusion
  import opened PoseTally

  /** Everything the loop reads about one frame: its label maps and its pose metadata. */
  datatype EvalFrame = EvalFrame(labels: Frame, pose: PoseFrame)

  /** Pose metadata is read only when pose regression is evaluated. */
  predicate ValidFrames(frames: seq<EvalFrame>, poseReg: bool) {
    poseReg ==> forall f :: 0 <= f < |frames| ==> ValidPoseFrame(frames[f].pose)
  }

  function LabelsOf(frames: seq<EvalFrame>): (r: seq<Frame>)
    ensures |r| == |frames| && forall f :: 0 <= f < |frames| ==> r[f] == frames[f].labels
  {
    seq(|frames|, f requires 0 <= f < |frames| => frames[f].labels)
  }

  /** count_all[c] over the first n frames. */
  function CountAllOf(frames: seq<EvalFrame>, n: nat, c: int): nat
    requires n <= |frames|
  {
    if n == 0 then 0
    else CountAllOf(frames, n - 1, c) + |Instances(frames[n - 1].pose, c, |frames[n - 1].pose.clsIndexes|)|
  }

  /** The correct-pose counter of class c at `stage` over the first n frames. */
  function CorrectOf(err: PoseError, threshold: seq<real>, frames: seq<EvalFrame>, n: nat, stage: Stage, c: int): nat
    requires n <= |frames| && |threshold| == NumClasses
  {
    if n == 0 then 0
    else CorrectOf(err, threshold, frames, n - 1, stage, c) + |AllCorrectPairs(err, threshold, n - 1, frames[n - 1].pose, stage, c)|
  }

  /** The four per-class counters after the loop. */
  datatype PoseCounts = PoseCounts(all: seq<nat>, correct: seq<nat>, refined: seq<nat>, icp: seq<nat>)

  /** count_all as a sequence over the classes; zero everywhere when pose regression is off. */
  function AllCounts(frames: seq<EvalFrame>, on: bool): (r: seq<nat>)
    ensures |r| == NumClasses
    ensures forall c :: 0 <= c < NumClasses ==> r[c] == if on then CountAllOf(frames, |frames|, c) else 0
    ensures r[0] == 0
  {
    BackgroundNeverCounted(frames, |frames|);
    seq(NumClasses, c => if on then CountAllOf(frames, |frames|, c) else 0)
  }

  /** One correct-pose counter as a sequence over the classes; zero everywhere when it is switched off. */
  function StageCounts(err: PoseError, threshold: seq<real>, frames: seq<EvalFrame>, stage: Stage, on: bool): (r: seq<nat>)
    requires |threshold| == NumClasses
    ensures |r| == NumClasses
    ensures forall c :: 0 <= c < NumClasses ==> r[c] == if on then CorrectOf(err, threshold, frames, |frames|, stage, c) else 0
    ensures r[0] == 0
  {
    BackgroundNeverCorrect(err, threshold, frames, |frames|, stage);
    seq(NumClasses, c => if on then CorrectOf(err, threshold, frames, |frames|, stage, c) else 0)
  }

  /**
   * The counters the evaluation loop ends with. Nothing is counted when pose
   * regression is off, and the refined and ICP counters stay zero when
   * refinement is off.
   */
  function CountsOf(err: PoseError, threshold: seq<real>, frames: seq<EvalFrame>, poseReg: bool, poseRefine: bool): (r: PoseCounts)
    requires |threshold| == NumClasses
    ensures |r.all| == |r.correct| == |r.refined| == |r.icp| == NumClasses
    ensures !poseReg ==> forall c :: 0 <= c < NumClasses ==> r.all[c] == 0 && r.correct[c] == 0
    ensures !(poseReg && poseRefine) ==> forall c :: 0 <= c < NumClasses ==> r.refined[c] == 0 && r.icp[c] == 0
  {
    PoseCounts(AllCounts(frames, poseReg),
               StageCounts(err, threshold, frames, Raw, poseReg),
               StageCounts(err, threshold, frames, Refined, poseReg && poseRefine),
               StageCounts(err, threshold, frames, Icp, poseReg && poseRefine))
  }

  /** The background class is never counted. */
  lemma {:induction false} BackgroundNeverCounted(frames: seq<EvalFrame>, n: nat)
    requires n <= |frames|
    ensures CountAllOf(frames, n, 0) == 0
  {
    if n > 0 {
      BackgroundNeverCounted(frames, n - 1);
      assert Instances(frames[n - 1].pose, 0, |frames[n - 1].pose.clsIndexes|) == {};
    }
  }

  /** No pose of the background class is ever counted as correct. */
  lemma {:induction false} BackgroundNeverCorrect(err: PoseError, threshold: seq<real>, frames: seq<EvalFrame>, n: nat, stage: Stage)
    requires n <= |frames| && |threshold| == NumClasses
    ensures CorrectOf(err, threshold, frames, n, stage, 0) == 0
  {
    if n > 0 {
      BackgroundNeverCorrect(err, threshold, frames, n - 1, stage);
      assert AllCorrectPairs(err, threshold, n - 1, frames[n - 1].pose, stage, 0) == {};
    }
  }

  /** The printed segmentation scores. */
  datatype SegReport = SegReport(accuracy: Option<real>, classAccuracy: seq<Option<real>>, meanAccuracy: Option<real>,
                                 iou: seq<Option<real>>, meanIoU: Option<real>, fwavacc: real)

  function SegReportOf(h: Matrix): SegReport
    requires IsSquare(h)
  {
    SegReport(OverallAccuracy(h), ClassAccuracies(h), NanMean(ClassAccuracies(h)),
              IoUs(h), NanMean(IoUs(h)), FwAvAcc(h))
  }

  /** The scores are fractions of the pixels: every defined one lies in [0, 1], and fwavacc is at most the accuracy. */
  lemma SegReportBounds(h: Matrix)
    requires IsSquare(h)
    ensures SegReportOf(h).accuracy.Some? ==> 0.0 <= SegReportOf(h).accuracy.value <= 1.0
    ensures SegReportOf(h).meanAccuracy.Some? ==> 0.0 <= SegReportOf(h).meanAccuracy.value <= 1.0
    ensures SegReportOf(h).meanIoU.Some? ==> 0.0 <= SegReportOf(h).meanIoU.value <= 1.0
    ensures 0.0 <= SegReportOf(h).fwavacc
    ensures SegReportOf(h).accuracy.Some? ==> SegReportOf(h).fwavacc <= SegReportOf(h).accuracy.value
  {
    MeansBounds(h);
    FwAvAccBounds(h);
  }

  /**
   * Pose accuracy of classes 1 .. n-1, as intended: correct / all, and NaN
   * (here `None`) for a class with no ground-truth instance.
   */
  function PoseAccuracies(correct: seq<nat>, all: seq<nat>): (r: seq<Option<real>>)
    requires |correct| == |all| >= 1
    ensures |r| == |all| - 1
    ensures forall i :: 1 <= i < |all| ==> (r[i - 1].None? <==> all[i] == 0)
    ensures forall i :: 1 <= i < |all| ==> r[i - 1] == Ratio(correct[i], all[i])
  {
    seq(|all| - 1, i requires 0 <= i < |all| - 1 => Ratio(correct[i + 1], all[i + 1]))
  }

  /**
   * The report as the code computes it: `float(correct[i]) / float(all[i])`
   * for i = 1, 2, ... raises ZeroDivisionError at the first class with no
   * instance, and the report stops there.
   */
  function PoseAccuraciesAsWritten(correct: seq<nat>, all: seq<nat>, i: nat): (r: Result<seq<real>, nat>)
    requires |correct| == |all| && 1 <= i <= |all|
    ensures r.Failure? ==> i <= r.error < |all| && all[r.error] == 0 &&
                           forall i' :: i <= i' < r.error ==> all[i'] > 0
    ensures r.Success? ==> |r.value| == |all| - i && forall i' :: i <= i' < |all| ==> all[i'] > 0
    decreases |all| - i
  {
    if i == |all| then Success([])
    else if all[i] == 0 then Failure(i)
    else
      match PoseAccuraciesAsWritten(correct, all, i + 1)
      case Success(rest) => Success([correct[i] as real / all[i] as real] + rest)
      case Failure(e) => Failure(e)
  }

  /** Where every class was seen, the code's report and the intended one agree. */
  lemma {:induction false} AsWrittenAgreesWhenAllSeen(correct: seq<nat>, all: seq<nat>, i: nat)
    requires |correct| == |all| && 1 <= i <= |all|
    requires PoseAccuraciesAsWritten(correct, all, i).Success?
    ensures forall m :: 0 <= m < |PoseAccuraciesAsWritten(correct, all, i).value| ==>
      PoseAccuracies(correct, all)[i - 1 + m] == Some(PoseAccuraciesAsWritten(correct, all, i).value[m])
    decreases |all| - i
  {
    if i < |all| {
      AsWrittenAgreesWhenAllSeen(correct, all, i + 1);
      var v := PoseAccuraciesAsWritten(correct, all, i).value;
      var rest := PoseAccuraciesAsWritten(correct, all, i + 1).value;
      assert v == [correct[i] as real / all[i] as real] + rest;
      forall m | 0 <= m < |v|
        ensures PoseAccuracies(correct, all)[i - 1 + m] == Some(v[m])
      {
        if m > 0 {
          assert v[m] == rest[m - 1];
          assert i - 1 + m == i + (m - 1);
        }
      }
    }
  }

  /** A test set in which class 1 never occurs: the code stops with an error, the intended report gives NaN. */
  lemma AbsentClassStopsReport()
    ensures PoseAccuraciesAsWritten([0, 0, 3], [0, 0, 4], 1) == Failure(1)
    ensures PoseAccuracies([0, 0, 3], [0, 0, 4]) == [None, Some(0.75)]
  {
    assert PoseAccuracies([0, 0, 3], [0, 0, 4])[1] == Ratio(3, 4);
  }

  /** The pose lines of the final report; the refined and ICP lines appear only with refinement on. */
  datatype PoseReport = PoseReport(raw: seq<Option<real>>, refined: Option<seq<Option<real>>>, icp: Option<seq<Option<real>>>)

  function PoseReportOf(counts: PoseCounts, poseRefine: bool): PoseReport
    requires |counts.all| == |counts.correct| == |counts.refined| == |counts.icp| >= 1
  {
    PoseReport(PoseAccuracies(counts.correct, counts.all),
               if poseRefine then Some(PoseAccuracies(counts.refined, counts.all)) else None,
               if poseRefine then Some(PoseAccuracies(counts.icp, counts.all)) else None)
  }

  /** The values of a report in which every class was seen, each of them defined. */
  function AllDefined(xs: seq<real>): (r: seq<Option<real>>)
    ensures |r| == |xs| && forall m :: 0 <= m < |xs| ==> r[m] == Some(xs[m])
  {
    seq(|xs|, m requires 0 <= m < |xs| => Some(xs[m]))
  }

  /**
   * The pose lines as the code prints them: class by class, the raw line
   * and, with refinement on, the refined and the ICP line, each dividing by
   * `count_all[i]`. All three divide by the same count, so the report stops
   * at the raw line of the first class with no instance, whichever stages
   * are on.
   */
  function PoseReportAsWritten(counts: PoseCounts, poseRefine: bool): Result<PoseReport, nat>
    requires |counts.all| == |counts.correct| == |counts.refined| == |counts.icp| >= 1
  {
    var raw := PoseAccuraciesAsWritten(counts.correct, counts.all, 1);
    var refined := PoseAccuraciesAsWritten(counts.refined, counts.all, 1);
    var icp := PoseAccuraciesAsWritten(counts.icp, counts.all, 1);
    if raw.Failure? then Failure(raw.error)
    else if poseRefine && refined.Failure? then Failure(refined.error)
    else if poseRefine && icp.Failure? then Failure(icp.error)
    else Success(PoseReport(AllDefined(raw.value),
                            if poseRefine then Some(AllDefined(refined.value)) else None,
                            if poseRefine then Some(AllDefined(icp.value)) else None))
  }

  /** A report of the code that goes through holds the intended accuracies. */
  lemma AsWrittenSuccessIsIntended(correct: seq<nat>, all: seq<nat>)
    requires |correct| == |all| >= 1 && PoseAccuraciesAsWritten(correct, all, 1).Success?
    ensures AllDefined(PoseAccuraciesAsWritten(correct, all, 1).value) == PoseAccuracies(correct, all)
  {
    AsWrittenAgreesWhenAllSeen(correct, all, 1);
  }

  /** Without a zero count from class 1 on, the code's division goes through for every class. */
  lemma AsWrittenSucceedsWhenAllSeen(correct: seq<nat>, all: seq<nat>)
    requires |correct| == |all| >= 1 && forall i :: 1 <= i < |all| ==> all[i] > 0
    ensures PoseAccuraciesAsWritten(correct, all, 1).Success?
  {
  }

  /**
   * The code's pose report fails exactly when some class from 1 on has no
   * instance, and then at the first such class; when it goes through, it is
   * the intended report.
   */
  lemma PoseReportAsWrittenSpec(counts: PoseCounts, poseRefine: bool)
    requires |counts.all| == |counts.correct| == |counts.refined| == |counts.icp| >= 1
    ensures PoseReportAsWritten(counts, poseRefine).Failure? <==> exists i :: 1 <= i < |counts.all| && counts.all[i] == 0
    ensures PoseReportAsWritten(counts, poseRefine).Failure? ==>
      var i := PoseReportAsWritten(counts, poseRefine).error;
      1 <= i < |counts.all| && counts.all[i] == 0 && forall i' :: 1 <= i' < i ==> counts.all[i'] > 0
    ensures PoseReportAsWritten(counts, poseRefine).Success? ==>
      PoseReportAsWritten(counts, poseRefine).value == PoseReportOf(counts, poseRefine)
  {
    var all := counts.all;
    var raw := PoseAccuraciesAsWritten(counts.correct, all, 1);
    if exists i :: 1 <= i < |all| && all[i] == 0 {
      var i :| 1 <= i < |all| && all[i] == 0;
      assert raw.Failure?;
    } else {
      AsWrittenSucceedsWhenAllSeen(counts.correct, all);
      AsWrittenSucceedsWhenAllSeen(counts.refined, all);
      AsWrittenSucceedsWhenAllSeen(counts.icp, all);
      AsWrittenSuccessIsIntended(counts.correct, all);
      AsWrittenSuccessIsIntended(counts.refined, all);
      AsWrittenSuccessIsIntended(counts.icp, all);
    }
  }

  /** The counters, read back into sequences, are the ones the loop specification names. */
  lemma CountsFromTallies(err: PoseError, threshold: seq<real>, frames: seq<EvalFrame>, poseReg: bool, poseRefine: bool,
                          refining: bool, counts: PoseCounts)
    requires |threshold| == NumClasses && refining == (poseReg && poseRefine)
    requires |counts.all| == |counts.correct| == |counts.refined| == |counts.icp| == NumClasses
    requires forall c :: 0 <= c < NumClasses ==> counts.all[c] == if poseReg then CountAllOf(frames, |frames|, c) else 0
    requires forall c :: 0 <= c < NumClasses ==>
      counts.correct[c] == if poseReg then CorrectOf(err, threshold, frames, |frames|, Raw, c) else 0
    requires forall c :: 0 <= c < NumClasses ==>
      counts.refined[c] == if refining then CorrectOf(err, threshold, frames, |frames|, Refined, c) else 0
    requires forall c :: 0 <= c < NumClasses ==>
      counts.icp[c] == if refining then CorrectOf(err, threshold, frames, |frames|, Icp, c) else 0
    ensures counts == CountsOf(err, threshold, frames, poseReg, poseRefine)
  {
    assert counts.all == AllCounts(frames, poseReg);
    assert counts.correct == StageCounts(err, threshold, frames, Raw, poseReg);
    assert counts.refined == StageCounts(err, threshold, frames, Refined, refining);
    assert counts.icp == StageCounts(err, threshold, frames, Icp, refining);
  }

  /** The running histogram as a matrix value. */
  method ToMatrix(hist: array2<nat>) returns (h: Matrix)
    requires hist.Length0 == hist.Length1
    ensures |h| == hist.Length0 && IsSquare(h)
    ensures forall i, j :: 0 <= i < hist.Length0 && 0 <= j < hist.Length1 ==> h[i][j] == hist[i, j]
  {
    var n := hist.Length0;
    h := seq(n, i requires 0 <= i < n reads hist => seq(n, j requires 0 <= j < n reads hist => hist[i, j]));
  }

  /** What `evaluate_segmentations` computes. */
  datatype EvalResult = EvalResult(hist: Matrix, seg: SegReport, counts: PoseCounts, poses: Option<Result<PoseReport, nat>>)

  /** The running histogram holds the confusion counts of the first f frames. */
  ghost predicate HistAfter(hist: array2<nat>, labels: seq<Frame>, f: nat)
    reads hist
    requires f <= |labels|
  {
    hist.Length0 == NumClasses && hist.Length1 == NumClasses &&
    forall i, j :: 0 <= i < NumClasses && 0 <= j < NumClasses ==> hist[i, j] == CumCount(labels[..f], i, j)
  }

  /** The four counters hold the tallies of the first f frames (nothing when their stage is off). */
  ghost predicate CountsAfter(countAll: array<nat>, correct: array<nat>, refined: array<nat>, icp: array<nat>,
                              frames: seq<EvalFrame>, f: nat, poseReg: bool, refining: bool,
                              err: PoseError, threshold: seq<real>)
    reads countAll, correct, refined, icp
    requires f <= |frames| && |threshold| == NumClasses
  {
    countAll.Length == NumClasses && correct.Length == NumClasses &&
    refined.Length == NumClasses && icp.Length == NumClasses &&
    (forall c :: 0 <= c < NumClasses ==> countAll[c] == if poseReg then CountAllOf(frames, f, c) else 0) &&
    (forall c :: 0 <= c < NumClasses ==> correct[c] == if poseReg then CorrectOf(err, threshold, frames, f, Raw, c) else 0) &&
    (forall c :: 0 <= c < NumClasses ==> refined[c] == if refining then CorrectOf(err, threshold, frames, f, Refined, c) else 0) &&
    (forall c :: 0 <= c < NumClasses ==> icp[c] == if refining then CorrectOf(err, threshold, frames, f, Icp, c) else 0)
  }

  /** `hist += fast_hist(...)` for frame f. */
  method StepHist(hist: array2<nat>, labels: seq<Frame>, f: nat)
    requires f < |labels| && HistAfter(hist, labels, f)
    modifies hist
    ensures HistAfter(hist, labels, f + 1)
  {
    assert labels[..f + 1][..f] == labels[..f];
    AccumulateHist(hist, labels[f]);
  }

  /** The pose tallies of frame f, when pose regression is evaluated. */
  method StepCounts(countAll: array<nat>, correct: array<nat>, refined: array<nat>, icp: array<nat>,
                    frames: seq<EvalFrame>, f: nat, poseReg: bool, poseRefine: bool,
                    err: PoseError, threshold: seq<real>)
    requires f < |frames| && ValidFrames(frames, poseReg) && |threshold| == NumClasses
    requires countAll != correct && countAll != refined && countAll != icp
    requires correct != refined && correct != icp && refined != icp
    requires CountsAfter(countAll, correct, refined, icp, frames, f, poseReg, poseReg && poseRefine, err, threshold)
    modifies countAll, correct, refined, icp
    ensures CountsAfter(countAll, correct, refined, icp, frames, f + 1, poseReg, poseReg && poseRefine, err, threshold)
  {
    if poseReg {
      TallyFrame(countAll, correct, refined, icp, f, frames[f].pose, poseRefine, err, threshold);
    }
  }

  /** The finished histogram, read back as a matrix, is the confusion matrix of all frames. */
  method FinalMatrix(hist: array2<nat>, labels: seq<Frame>) returns (h: Matrix)
    requires HistAfter(hist, labels, |labels|)
    ensures h == ConfusionOf(labels, NumClasses)
  {
    assert labels[..|labels|] == labels;
    h := ToMatrix(hist);
    ghost var confusion := ConfusionOf(labels, NumClasses);
    forall i | 0 <= i < NumClasses
      ensures h[i] == confusion[i]
    {
      assert forall j :: 0 <= j < NumClasses ==> h[i][j] == confusion[i][j];
    }
  }

  /** The finished counters, read back as sequences, are the counters CountsOf names. */
  method FinalCounts(countAll: array<nat>, correct: array<nat>, refined: array<nat>, icp: array<nat>,
                     frames: seq<EvalFrame>, poseReg: bool, poseRefine: bool,
                     err: PoseError, threshold: seq<real>) returns (counts: PoseCounts)
    requires |threshold| == NumClasses
    requires CountsAfter(countAll, correct, refined, icp, frames, |frames|, poseReg, poseReg && poseRefine, err, threshold)
    ensures counts == CountsOf(err, threshold, frames, poseReg, poseRefine)
  {
    counts := PoseCounts(countAll[..], correct[..], refined[..], icp[..]);
    CountsFromTallies(err, threshold, frames, poseReg, poseRefine, poseReg && poseRefine, counts);
  }

  /** `hist = np.zeros((n_cl, n_cl))`. */
  method NewHist(labels: seq<Frame>) returns (hist: array2<nat>)
    ensures fresh(hist) && HistAfter(hist, labels, 0)
  {
    hist := new nat[NumClasses, NumClasses]((_, _) => 0);
    assert labels[..0] == [];
  }

  /** The four zeroed per-class counters. */
  method NewCounters(frames: seq<EvalFrame>, poseReg: bool, refining: bool, err: PoseError, threshold: seq<real>)
    returns (countAll: array<nat>, correct: array<nat>, refined: array<nat>, icp: array<nat>)
    requires |threshold| == NumClasses
    ensures fresh(countAll) && fresh(correct) && fresh(refined) && fresh(icp)
    ensures countAll != correct && countAll != refined && countAll != icp
    ensures correct != refined && correct != icp && refined != icp
    ensures CountsAfter(countAll, correct, refined, icp, frames, 0, poseReg, refining, err, threshold)
  {
    countAll := new nat[NumClasses](_ => 0);
    correct := new nat[NumClasses](_ => 0);
    refined := new nat[NumClasses](_ => 0);
    icp := new nat[NumClasses](_ => 0);
  }

  method EvaluateSegmentations(frames: seq<EvalFrame>, poseReg: bool, poseRefine: bool,
                               err: PoseError, threshold: seq<real>) returns (r: EvalResult)
    requires ValidFrames(frames, poseReg) && |threshold| == NumClasses
    ensures r.hist == ConfusionOf(LabelsOf(frames), NumClasses)
    ensures r.seg == SegReportOf(r.hist)
    ensures r.counts == CountsOf(err, threshold, frames, poseReg, poseRefine)
    ensures r.poses == if poseReg then Some(PoseReportAsWritten(r.counts, poseRefine)) else None
    ensures poseReg ==> (r.poses.value.Failure? <==> exists i :: 1 <= i < NumClasses && r.counts.all[i] == 0)
    ensures poseReg && r.poses.value.Failure? ==>
      var i := r.poses.value.error;
      1 <= i < NumClasses && r.counts.all[i] == 0 && forall i' :: 1 <= i' < i ==> r.counts.all[i'] > 0
    ensures poseReg && r.poses.value.Success? ==> r.poses.value.value == PoseReportOf(r.counts, poseRefine)
  {
    var labels := LabelsOf(frames);
    var hist := NewHist(labels);
    var countAll, correct, refined, icp := NewCounters(frames, poseReg, poseReg && poseRefine, err, threshold);
    for f := 0 to |frames|
      invariant HistAfter(hist, labels, f)
      invariant CountsAfter(countAll, correct, refined, icp, frames, f, poseReg, poseReg && poseRefine, err, threshold)
    {
      StepHist(hist, labels, f);
      StepCounts(countAll, correct, refined, icp, frames, f, poseReg, poseRefine, err, threshold);
    }
    var h := FinalMatrix(hist, labels);
    var counts := FinalCounts(countAll, correct, refined, icp, frames, poseReg, poseRefine, err, threshold);
    PoseReportAsWrittenSpec(counts, poseRefine);
    r := EvalResult(h, SegReportOf(h), counts, if poseReg then Some(PoseReportAsWritten(counts, poseRefine)) else None);
  }

  /** Several ROIs of one class can each match the same instance, so a class can have more correct poses than instances. */
  lemma CorrectCanExceedAll()
    ensures var p := PoseFrame([1], [1, 1]);
            var err: PoseError := (f, j, k, s, m) => 0.0;
            var threshold := seq(NumClasses, c => 1.0);
            |AllCorrectPairs(err, threshold, 0, p, Raw, 1)| == 2 && |Instances(p, 1, 1)| == 1
  {
    var p := PoseFrame([1], [1, 1]);
    var err: PoseError := (f, j, k, s, m) => 0.0;
    var threshold := seq(NumClasses, c => 1.0);
    assert AllCorrectPairs(err, threshold, 0, p, Raw, 1) == {(0, 0), (0, 1)} by {
      assert IsCorrect(err, threshold, 0, p, 0, 0, Raw) && IsCorrect(err, threshold, 0, p, 0, 1, Raw);
    }
    assert Instances(p, 1, 1) == {0};
  }

  /**
   * `evaluate_result`: the classes whose union is positive, in class order,
   * each with its IoU, among classes 0 .. k-1.
   */
  function ListedIoUs(h: Matrix, k: nat): (r: seq<(nat, real)>)
    requires IsSquare(h) && k <= |h|
    ensures forall m :: 0 <= m < |r| ==> r[m].0 < k && Union(h, r[m].0) > 0 && IoU(h, r[m].0) == Some(r[m].1)
    ensures forall m, m' :: 0 <= m < m' < |r| ==> r[m].0 < r[m'].0
  {
    if k == 0 then []
    else
      var rest := ListedIoUs(h, k - 1);
      if Union(h, k - 1) > 0 then
        var r := rest + [(k - 1, IoU(h, k - 1).value)];
        assert forall m :: 0 <= m < |rest| ==> r[m] == rest[m];
        r
      else rest
  }

  /** Every class with a positive union is listed. */
  lemma {:induction false} ListedIoUsComplete(h: Matrix, k: nat, i: nat) returns (m: nat)
    requires IsSquare(h) && i < k <= |h| && Union(h, i) > 0
    ensures m < |ListedIoUs(h, k)| && ListedIoUs(h, k)[m].0 == i
  {
    var rest := ListedIoUs(h, k - 1);
    if i == k - 1 {
      m := |rest|;
    } else {
      m := ListedIoUsComplete(h, k - 1, i);
      if Union(h, k - 1) > 0 {
        assert ListedIoUs(h, k)[m] == rest[m];
      }
    }
  }

  /** The per-class listing for one frame. */
  function FrameIoUListing(labels: Frame): seq<(nat, real)> {
    ListedIoUs(FastHist(labels, NumClasses), NumClasses)
  }
}
