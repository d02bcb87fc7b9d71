/**
 * Pose-accuracy bookkeeping of the evaluation loop: every ground-truth
 * instance of a non-background class is counted, and every ROI of the same
 * class whose pose error is below the class threshold counts as correct,
 * once for the raw pose and, when refinement is on, once each for the
 * refined and the ICP pose.
 */
module PoseTally {
  import opened LovClasses

  /** The instance classes of one frame's ground truth and the class of each detected ROI. */
  datatype PoseFrame = PoseFrame(clsIndexes: seq<int>, roiClasses: seq<int>)

  /** Indexing the class table with an instance class must succeed. */
  predicate ValidPoseFrame(p: PoseFrame) {
    forall j :: 0 <= j < |p.clsIndexes| ==> p.clsIndexes[j] < NumClasses
  }

  /** Which estimate of a pose is compared with the ground truth. */
  datatype Stage = Raw | Refined | Icp

  /**
   * The pose error of ROI k against instance j of frame f at a stage, under
   * the given metric. Rotation, translation and the model points are inputs
   * of the error, not of the bookkeeping, so the error is a parameter.
   */
  type PoseError = (nat, nat, nat, Stage, Metric) -> real

  /** ROI k is an estimate for instance j: the instance is not background and the classes agree. */
  predicate Matches(p: PoseFrame, j: nat, k: nat)
    requires j < |p.clsIndexes| && k < |p.roiClasses|
  {
    p.clsIndexes[j] > 0 && p.roiClasses[k] == p.clsIndexes[j]
  }

  /** The estimate of ROI k for instance j is correct at `stage`: its error is strictly below the class threshold. */
  predicate IsCorrect(err: PoseError, threshold: seq<real>, f: nat, p: PoseFrame, j: nat, k: nat, stage: Stage)
    requires |threshold| == NumClasses
    requires j < |p.clsIndexes| && k < |p.roiClasses| && Matches(p, j, k)
  {
    var c := p.roiClasses[k];
    c < NumClasses && err(f, j, k, stage, MetricOfClass(c)) < threshold[c]
  }

  /** The instances among the first `upTo` whose class is c, background excluded. */
  function Instances(p: PoseFrame, c: int, upTo: nat): set<int>
    requires upTo <= |p.clsIndexes|
  {
    set j | 0 <= j < upTo && p.clsIndexes[j] > 0 && p.clsIndexes[j] == c
  }

  /**
   * The correct (instance, ROI) pairs of class c visited before position
   * (j, k) of the nested loop: every pair of an earlier instance, and the
   * first k ROIs of instance j.
   */
  function CorrectPairs(err: PoseError, threshold: seq<real>, f: nat, p: PoseFrame, stage: Stage,
                        c: int, j: nat, k: nat): set<(int, int)>
    requires |threshold| == NumClasses
  {
    set j', k' | 0 <= j' < |p.clsIndexes| && 0 <= k' < |p.roiClasses| && (j' < j || (j' == j && k' < k))
                 && Matches(p, j', k') && p.clsIndexes[j'] == c && IsCorrect(err, threshold, f, p, j', k', stage)
      :: (j', k')
  }

  /** All correct pairs of class c in the frame. */
  function AllCorrectPairs(err: PoseError, threshold: seq<real>, f: nat, p: PoseFrame, stage: Stage, c: int): set<(int, int)>
    requires |threshold| == NumClasses
  {
    CorrectPairs(err, threshold, f, p, stage, c, |p.clsIndexes|, 0)
  }

  /** The correct estimates of class c among the pairs visited before (j, k). */
  function CorrectCount(err: PoseError, threshold: seq<real>, f: nat, p: PoseFrame, stage: Stage,
                        c: int, j: nat, k: nat): nat
    requires |threshold| == NumClasses
  {
    |CorrectPairs(err, threshold, f, p, stage, c, j, k)|
  }

  /**
   * A snapshot `v` of a counter holds its start value `base` plus, when the
   * stage is on, the number of correct pairs of `stage` before (j, k).
   */
  ghost predicate Tallied(v: seq<nat>, base: seq<nat>, err: PoseError, threshold: seq<real>, f: nat, p: PoseFrame,
                          stage: Stage, on: bool, j: nat, k: nat)
    requires |threshold| == NumClasses
  {
    |v| == NumClasses && |base| == NumClasses &&
    forall c :: 0 <= c < NumClasses ==> v[c] == base[c] + (if on then CorrectCount(err, threshold, f, p, stage, c, j, k) else 0)
  }

  /** The snapshots of the three correct-pose counters, each tallied for its stage. */
  ghost predicate StagesTallied(c: seq<nat>, r: seq<nat>, i: seq<nat>, c0: seq<nat>, r0: seq<nat>, i0: seq<nat>,
                                err: PoseError, threshold: seq<real>, f: nat, p: PoseFrame, poseRefine: bool, j: nat, k: nat)
    requires |threshold| == NumClasses
  {
    Tallied(c, c0, err, threshold, f, p, Raw, true, j, k) &&
    Tallied(r, r0, err, threshold, f, p, Refined, poseRefine, j, k) &&
    Tallied(i, i0, err, threshold, f, p, Icp, poseRefine, j, k)
  }

  /** A snapshot of count_all holds its start value plus the instances of each class before j. */
  ghost predicate Counted(v: seq<nat>, base: seq<nat>, p: PoseFrame, j: nat)
    requires j <= |p.clsIndexes|
  {
    |v| == NumClasses && |base| == NumClasses &&
    forall c :: 0 <= c < NumClasses ==> v[c] == base[c] + |Instances(p, c, j)|
  }

  /**
   * One frame of the evaluation loop, adding into the four per-class
   * counters: count_all, count_correct, count_correct_refined and
   * count_correct_icp.
   */
  method TallyFrame(countAll: array<nat>, correct: array<nat>, refined: array<nat>, icp: array<nat>,
                    f: nat, p: PoseFrame, poseRefine: bool, err: PoseError, threshold: seq<real>)
    requires countAll.Length == NumClasses && correct.Length == NumClasses
    requires refined.Length == NumClasses && icp.Length == NumClasses
    requires countAll != correct && countAll != refined && countAll != icp
    requires correct != refined && correct != icp && refined != icp
    requires ValidPoseFrame(p) && |threshold| == NumClasses
    modifies countAll, correct, refined, icp
    ensures forall c :: 0 <= c < NumClasses ==>
      countAll[c] == old(countAll[c]) + |Instances(p, c, |p.clsIndexes|)|
    ensures forall c :: 0 <= c < NumClasses ==>
      correct[c] == old(correct[c]) + |AllCorrectPairs(err, threshold, f, p, Raw, c)|
    ensures forall c :: 0 <= c < NumClasses ==>
      refined[c] == old(refined[c]) + (if poseRefine then |AllCorrectPairs(err, threshold, f, p, Refined, c)| else 0)
    ensures forall c :: 0 <= c < NumClasses ==>
      icp[c] == old(icp[c]) + (if poseRefine then |AllCorrectPairs(err, threshold, f, p, Icp, c)| else 0)
  {
    ghost var all0, correct0, refined0, icp0 := countAll[..], correct[..], refined[..], icp[..];
    var cls := p.clsIndexes;
    for j := 0 to |cls|
      invariant Counted(countAll[..], all0, p, j)
      invariant StagesTallied(correct[..], refined[..], icp[..], correct0, refined0, icp0, err, threshold, f, p, poseRefine, j, 0)
    {
      if cls[j] <= 0 {
        BackgroundCounted(countAll[..], all0, p, j);
        BackgroundTallied(correct[..], refined[..], icp[..], correct0, refined0, icp0, err, threshold, f, p, poseRefine, j);
      } else {
        CountInstance(countAll, all0, p, j);
        TallyInstance(correct, refined, icp, f, p, j, poseRefine, err, threshold, correct0, refined0, icp0);
      }
    }
    FrameTallied(countAll[..], all0, correct[..], correct0, refined[..], refined0, icp[..], icp0,
                 err, threshold, f, p, poseRefine);
  }

  /** `count_all[cls] += 1` for a non-background instance j. */
  method CountInstance(countAll: array<nat>, ghost all0: seq<nat>, p: PoseFrame, j: nat)
    requires ValidPoseFrame(p) && j < |p.clsIndexes| && p.clsIndexes[j] > 0
    requires countAll.Length == NumClasses && Counted(countAll[..], all0, p, j)
    modifies countAll
    ensures Counted(countAll[..], all0, p, j + 1)
  {
    InstancesStep(p, j);
    var instance := p.clsIndexes[j];
    countAll[instance] := countAll[instance] + 1;
  }

  lemma BackgroundCounted(v: seq<nat>, base: seq<nat>, p: PoseFrame, j: nat)
    requires j < |p.clsIndexes| && p.clsIndexes[j] <= 0 && Counted(v, base, p, j)
    ensures Counted(v, base, p, j + 1)
  {
    forall c | 0 <= c < NumClasses ensures Instances(p, c, j + 1) == Instances(p, c, j) {
      NoInstanceOfBackground(p, c, j);
    }
  }

  lemma BackgroundTallied(c: seq<nat>, r: seq<nat>, i: seq<nat>, c0: seq<nat>, r0: seq<nat>, i0: seq<nat>,
                          err: PoseError, threshold: seq<real>, f: nat, p: PoseFrame, poseRefine: bool, j: nat)
    requires |threshold| == NumClasses && j < |p.clsIndexes| && p.clsIndexes[j] <= 0
    requires StagesTallied(c, r, i, c0, r0, i0, err, threshold, f, p, poseRefine, j, 0)
    ensures StagesTallied(c, r, i, c0, r0, i0, err, threshold, f, p, poseRefine, j + 1, 0)
  {
    forall c', s | 0 <= c' < NumClasses
      ensures CorrectPairs(err, threshold, f, p, s, c', j + 1, 0) == CorrectPairs(err, threshold, f, p, s, c', j, 0)
    {
      NoPairsOfBackground(err, threshold, f, p, s, c', j);
    }
  }

  /** The loop invariants at the end of the frame are the postconditions of `TallyFrame`. */
  lemma FrameTallied(all: seq<nat>, all0: seq<nat>, c: seq<nat>, c0: seq<nat>, r: seq<nat>, r0: seq<nat>,
                     i: seq<nat>, i0: seq<nat>, err: PoseError, threshold: seq<real>, f: nat, p: PoseFrame, poseRefine: bool)
    requires |threshold| == NumClasses
    requires Counted(all, all0, p, |p.clsIndexes|)
    requires StagesTallied(c, r, i, c0, r0, i0, err, threshold, f, p, poseRefine, |p.clsIndexes|, 0)
    ensures forall k :: 0 <= k < NumClasses ==> all[k] == all0[k] + |Instances(p, k, |p.clsIndexes|)|
    ensures forall k :: 0 <= k < NumClasses ==> c[k] == c0[k] + |AllCorrectPairs(err, threshold, f, p, Raw, k)|
    ensures forall k :: 0 <= k < NumClasses ==>
      r[k] == r0[k] + (if poseRefine then |AllCorrectPairs(err, threshold, f, p, Refined, k)| else 0)
    ensures forall k :: 0 <= k < NumClasses ==>
      i[k] == i0[k] + (if poseRefine then |AllCorrectPairs(err, threshold, f, p, Icp, k)| else 0)
  {
  }

  /** `if error < threshold[c]: counter[c] += 1` */
  method CountIfBelow(counter: array<nat>, c: int, error: real, bound: real)
    requires 0 <= c < counter.Length
    modifies counter
    ensures forall c' :: 0 <= c' < counter.Length ==>
      counter[c'] == old(counter[c']) + (if c' == c && error < bound then 1 else 0)
  {
    if error < bound {
      counter[c] := counter[c] + 1;
    }
  }

  /** The inner loop over the ROIs, for instance j of a non-background class. */
  method TallyInstance(correct: array<nat>, refined: array<nat>, icp: array<nat>,
                       f: nat, p: PoseFrame, j: nat, poseRefine: bool, err: PoseError, threshold: seq<real>,
                       ghost correct0: seq<nat>, ghost refined0: seq<nat>, ghost icp0: seq<nat>)
    requires correct.Length == NumClasses && refined.Length == NumClasses && icp.Length == NumClasses
    requires correct != refined && correct != icp && refined != icp
    requires ValidPoseFrame(p) && |threshold| == NumClasses
    requires j < |p.clsIndexes| && p.clsIndexes[j] > 0
    requires StagesTallied(correct[..], refined[..], icp[..], correct0, refined0, icp0, err, threshold, f, p, poseRefine, j, 0)
    modifies correct, refined, icp
    ensures StagesTallied(correct[..], refined[..], icp[..], correct0, refined0, icp0, err, threshold, f, p, poseRefine, j + 1, 0)
  {
    var rois := p.roiClasses;
    for k := 0 to |rois|
      invariant StagesTallied(correct[..], refined[..], icp[..], correct0, refined0, icp0, err, threshold, f, p, poseRefine, j, k)
    {
      TallyRoi(correct, refined, icp, f, p, j, k, poseRefine, err, threshold, correct0, refined0, icp0);
    }
    NextInstanceTallied(correct[..], refined[..], icp[..], correct0, refined0, icp0, err, threshold, f, p, poseRefine, j);
  }

  /** One ROI of the inner loop: its errors are compared when its class is the instance's. */
  method TallyRoi(correct: array<nat>, refined: array<nat>, icp: array<nat>,
                  f: nat, p: PoseFrame, j: nat, k: nat, poseRefine: bool, err: PoseError, threshold: seq<real>,
                  ghost correct0: seq<nat>, ghost refined0: seq<nat>, ghost icp0: seq<nat>)
    requires correct.Length == NumClasses && refined.Length == NumClasses && icp.Length == NumClasses
    requires correct != refined && correct != icp && refined != icp
    requires ValidPoseFrame(p) && |threshold| == NumClasses
    requires j < |p.clsIndexes| && p.clsIndexes[j] > 0 && k < |p.roiClasses|
    requires StagesTallied(correct[..], refined[..], icp[..], correct0, refined0, icp0, err, threshold, f, p, poseRefine, j, k)
    modifies correct, refined, icp
    ensures StagesTallied(correct[..], refined[..], icp[..], correct0, refined0, icp0, err, threshold, f, p, poseRefine, j, k + 1)
  {
    var instance, clsIndex := p.clsIndexes[j], p.roiClasses[k];
    if clsIndex == instance {
      CountStage(correct, correct0, f, p, Raw, j, k, err, threshold);
      if poseRefine {
        CountStage(refined, refined0, f, p, Refined, j, k, err, threshold);
        CountStage(icp, icp0, f, p, Icp, j, k, err, threshold);
      } else {
        SkipStage(refined[..], refined0, err, threshold, f, p, Refined, poseRefine, j, k);
        SkipStage(icp[..], icp0, err, threshold, f, p, Icp, poseRefine, j, k);
      }
    } else {
      SkipStage(correct[..], correct0, err, threshold, f, p, Raw, true, j, k);
      SkipStage(refined[..], refined0, err, threshold, f, p, Refined, poseRefine, j, k);
      SkipStage(icp[..], icp0, err, threshold, f, p, Icp, poseRefine, j, k);
    }
  }

  /** The error of one stage for a matching ROI k is compared with the class threshold. */
  method CountStage(counter: array<nat>, ghost base: seq<nat>, f: nat, p: PoseFrame, stage: Stage, j: nat, k: nat,
                    err: PoseError, threshold: seq<real>)
    requires counter.Length == NumClasses && ValidPoseFrame(p) && |threshold| == NumClasses
    requires j < |p.clsIndexes| && p.clsIndexes[j] > 0 && k < |p.roiClasses| && p.roiClasses[k] == p.clsIndexes[j]
    requires Tallied(counter[..], base, err, threshold, f, p, stage, true, j, k)
    modifies counter
    ensures Tallied(counter[..], base, err, threshold, f, p, stage, true, j, k + 1)
  {
    ghost var v := counter[..];
    var clsIndex := p.roiClasses[k];
    CountIfBelow(counter, clsIndex, err(f, j, k, stage, MetricOfClass(clsIndex)), threshold[clsIndex]);
    PairTallied(v, counter[..], base, err, threshold, f, p, stage, true, j, k);
  }

  /** A stage that is off, or a ROI of another class, adds no pair. */
  lemma SkipStage(v: seq<nat>, base: seq<nat>, err: PoseError, threshold: seq<real>, f: nat, p: PoseFrame,
                  stage: Stage, on: bool, j: nat, k: nat)
    requires |threshold| == NumClasses && ValidPoseFrame(p)
    requires j < |p.clsIndexes| && p.clsIndexes[j] > 0 && k < |p.roiClasses|
    requires !on || p.roiClasses[k] != p.clsIndexes[j]
    requires Tallied(v, base, err, threshold, f, p, stage, on, j, k)
    ensures Tallied(v, base, err, threshold, f, p, stage, on, j, k + 1)
  {
    PairTallied(v, v, base, err, threshold, f, p, stage, on, j, k);
  }

  /** A counter that grew by one exactly for a correct matching ROI k has tallied one more pair. */
  lemma PairTallied(v: seq<nat>, w: seq<nat>, base: seq<nat>, err: PoseError, threshold: seq<real>, f: nat,
                    p: PoseFrame, stage: Stage, on: bool, j: nat, k: nat)
    requires |threshold| == NumClasses && ValidPoseFrame(p)
    requires j < |p.clsIndexes| && p.clsIndexes[j] > 0 && k < |p.roiClasses|
    requires Tallied(v, base, err, threshold, f, p, stage, on, j, k) && |w| == NumClasses
    requires forall c :: 0 <= c < NumClasses ==>
      w[c] == v[c] + (if on && p.roiClasses[k] == p.clsIndexes[j] && c == p.roiClasses[k]
                         && err(f, j, k, stage, MetricOfClass(c)) < threshold[c] then 1 else 0)
    ensures Tallied(w, base, err, threshold, f, p, stage, on, j, k + 1)
  {
    PairsStep(err, threshold, f, p, stage, j, k);
  }

  lemma NextInstanceTallied(c: seq<nat>, r: seq<nat>, i: seq<nat>, c0: seq<nat>, r0: seq<nat>, i0: seq<nat>,
                            err: PoseError, threshold: seq<real>, f: nat, p: PoseFrame, poseRefine: bool, j: nat)
    requires |threshold| == NumClasses && j < |p.clsIndexes|
    requires StagesTallied(c, r, i, c0, r0, i0, err, threshold, f, p, poseRefine, j, |p.roiClasses|)
    ensures StagesTallied(c, r, i, c0, r0, i0, err, threshold, f, p, poseRefine, j + 1, 0)
  {
    NextInstance(err, threshold, f, p, j);
  }

  lemma NoInstanceOfBackground(p: PoseFrame, c: int, j: nat)
    requires j < |p.clsIndexes| && p.clsIndexes[j] <= 0
    ensures Instances(p, c, j + 1) == Instances(p, c, j)
  {
  }

  lemma NoPairsOfBackground(err: PoseError, threshold: seq<real>, f: nat, p: PoseFrame, s: Stage, c: int, j: nat)
    requires |threshold| == NumClasses
    requires j < |p.clsIndexes| && p.clsIndexes[j] <= 0
    ensures CorrectPairs(err, threshold, f, p, s, c, j + 1, 0) == CorrectPairs(err, threshold, f, p, s, c, j, 0)
  {
  }

  lemma NextInstance(err: PoseError, threshold: seq<real>, f: nat, p: PoseFrame, j: nat)
    requires |threshold| == NumClasses && j < |p.clsIndexes|
    ensures forall s, c :: CorrectPairs(err, threshold, f, p, s, c, j + 1, 0) == CorrectPairs(err, threshold, f, p, s, c, j, |p.roiClasses|)
  {
  }

  lemma InstancesStep(p: PoseFrame, j: nat)
    requires j < |p.clsIndexes| && p.clsIndexes[j] > 0
    ensures forall c :: Instances(p, c, j + 1) == Instances(p, c, j) + (if c == p.clsIndexes[j] then {j} else {})
    ensures forall c :: c != p.clsIndexes[j] ==> |Instances(p, c, j + 1)| == |Instances(p, c, j)|
    ensures |Instances(p, p.clsIndexes[j], j + 1)| == |Instances(p, p.clsIndexes[j], j)| + 1
  {
    forall c ensures Instances(p, c, j + 1) == Instances(p, c, j) + (if c == p.clsIndexes[j] then {j} else {}) {
      InstancesStepAt(p, c, j);
    }
    assert j !in Instances(p, p.clsIndexes[j], j);
  }

  lemma InstancesStepAt(p: PoseFrame, c: int, j: nat)
    requires j < |p.clsIndexes|
    ensures Instances(p, c, j + 1) == Instances(p, c, j) + (if p.clsIndexes[j] > 0 && c == p.clsIndexes[j] then {j} else {})
  {
  }

  lemma PairsStep(err: PoseError, threshold: seq<real>, f: nat, p: PoseFrame, s: Stage, j: nat, k: nat)
    requires |threshold| == NumClasses
    requires j < |p.clsIndexes| && k < |p.roiClasses|
    ensures forall c ::
      CorrectCount(err, threshold, f, p, s, c, j, k + 1) ==
        CorrectCount(err, threshold, f, p, s, c, j, k) +
        (if c == p.roiClasses[k] && Matches(p, j, k) && IsCorrect(err, threshold, f, p, j, k, s) then 1 else 0)
  {
    forall c ensures CorrectCount(err, threshold, f, p, s, c, j, k + 1) ==
        CorrectCount(err, threshold, f, p, s, c, j, k) +
        (if c == p.roiClasses[k] && Matches(p, j, k) && IsCorrect(err, threshold, f, p, j, k, s) then 1 else 0)
    {
      PairsStepAt(err, threshold, f, p, s, c, j, k);
      PairNotYetVisited(err, threshold, f, p, s, c, j, k);
    }
  }

  lemma PairsStepAt(err: PoseError, threshold: seq<real>, f: nat, p: PoseFrame, s: Stage, c: int, j: nat, k: nat)
    requires |threshold| == NumClasses
    requires j < |p.clsIndexes| && k < |p.roiClasses|
    ensures CorrectPairs(err, threshold, f, p, s, c, j, k + 1) ==
      CorrectPairs(err, threshold, f, p, s, c, j, k) +
      (if c == p.roiClasses[k] && Matches(p, j, k) && IsCorrect(err, threshold, f, p, j, k, s) then {(j, k)} else {})
  {
  }

  lemma PairNotYetVisited(err: PoseError, threshold: seq<real>, f: nat, p: PoseFrame, s: Stage, c: int, j: nat, k: nat)
    requires |threshold| == NumClasses
    ensures (j, k) !in CorrectPairs(err, threshold, f, p, s, c, j, k)
  {
  }
}
