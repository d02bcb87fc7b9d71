/**
 * Per-class object models: the canonical point clouds, truncated to a
 * common size, and the bounding extents, with row 0 kept for the
 * background. Files are represented by their parsed contents; a file that
 * does not exist is `None`.
 */
module ObjectModels {
  import opened Wrappers

  datatype Point = Point(x: real, y: real, z: real)

  const Origin := Point(0.0, 0.0, 0.0)

  /** One row of `extents.txt`: the object's size along the three axes. */
  datatype Extent = Extent(x: real, y: real, z: real)

  const ZeroExtent := Extent(0.0, 0.0, 0.0)

  /**
   * Why loading fails: a per-class point file or the extents file is
   * absent, a point file holds fewer than two points, or the extents do not
   * fit the table.
   */
  datatype LoadError = MissingPointFile(cls: nat) | ShortPointFile(cls: nat) | MissingExtentsFile | ExtentsShapeMismatch(rows: nat)

  /** Every class's point file is present. */
  predicate AllPresent(files: seq<Option<seq<Point>>>) {
    forall c :: 0 <= c < |files| ==> files[c].Some?
  }

  /** The two tables `_load_object_points` returns: the clouds as read, and the clouds truncated to a common size. */
  datatype ObjectPoints = ObjectPoints(points: seq<seq<Point>>, pointsAll: seq<seq<Point>>)

  /** The running minimum of the first `m` point counts. */
  predicate IsMinCount(files: seq<Option<seq<Point>>>, m: nat, num: nat)
    requires m <= |files|
    requires forall c :: 0 <= c < m ==> files[c].Some?
  {
    (forall c :: 0 <= c < m ==> num <= |files[c].value|) &&
    (exists c :: 0 <= c < m && num == |files[c].value|)
  }

  /**
   * `_load_object_points`: `files[i - 1]` is the `points.xyz` of class i.
   * Classes are read in order, the smallest point count N is tracked, and
   * `points_all` holds a zero row for the background and the first N
   * points of every other class.
   *
   * A file of zero points or one point is read as a one-dimensional array,
   * which the truncation `points[i][:num, :]` cannot index; that raises,
   * at the first such class, once every file has been read.
   */
  method LoadObjectPoints(files: seq<Option<seq<Point>>>) returns (r: Result<ObjectPoints, LoadError>)
    requires |files| >= 1
    ensures r.Failure? <==> !AllPresent(files) || exists c :: 0 <= c < |files| && |files[c].value| < 2
    ensures r.Failure? ==> r.error.MissingPointFile? || r.error.ShortPointFile?
    ensures r.Failure? && r.error.MissingPointFile? ==>
      1 <= r.error.cls <= |files| && files[r.error.cls - 1].None? &&
      forall c :: 0 <= c < r.error.cls - 1 ==> files[c].Some?
    ensures r.Failure? && r.error.ShortPointFile? ==>
      AllPresent(files) && 1 <= r.error.cls <= |files| && |files[r.error.cls - 1].value| < 2 &&
      forall c :: 0 <= c < r.error.cls - 1 ==> |files[c].value| >= 2
    ensures r.Success? ==>
      var ObjectPoints(points, pointsAll) := r.value;
      && |points| == |files| + 1 && points[0] == []
      && (forall c :: 1 <= c <= |files| ==> files[c - 1] == Some(points[c]))
      && |pointsAll| == |files| + 1
      && var num := |pointsAll[0]|;
      && IsMinCount(files, |files|, num)
      && pointsAll[0] == seq(num, _ => Origin)
      && (forall c :: 1 <= c <= |files| ==> pointsAll[c] == points[c][..num])
      && forall c :: 1 <= c <= |files| ==> |points[c]| >= 2
  {
    var points: seq<seq<Point>> := [[]];
    var bounded := false;
    var num: nat := 0;
    for i := 1 to |files| + 1
      invariant |points| == i && points[0] == []
      invariant forall c :: 1 <= c < i ==> files[c - 1] == Some(points[c])
      invariant forall c :: 0 <= c < i - 1 ==> files[c].Some?
      invariant bounded <==> i > 1
      invariant bounded ==> IsMinCount(files, i - 1, num)
    {
      if files[i - 1].None? {
        return Failure(MissingPointFile(i));
      }
      var cloud := files[i - 1].value;
      points := points + [cloud];
      if !bounded || |cloud| < num {
        num := |cloud|;
        bounded := true;
      }
    }
    var all := new seq<Point>[|files| + 1](_ => seq(num, _ => Origin));
    for i := 1 to |files| + 1
      invariant all[0] == seq(num, _ => Origin)
      invariant forall c :: 1 <= c < i ==> all[c] == points[c][..num] && |points[c]| >= 2
      invariant forall c :: 0 <= c < i - 1 ==> |files[c].value| >= 2
    {
      if |points[i]| < 2 {
        return Failure(ShortPointFile(i));
      }
      all[i] := points[i][..num];
    }
    r := Success(ObjectPoints(points, all[..]));
  }

  /**
   * `_load_object_extents`: a zero table with row 0 left for the background
   * and rows 1.. taken from the file. NumPy broadcasting lets a file of a
   * single row fill every class row; any other row count raises.
   */
  function LoadObjectExtents(numClasses: nat, file: Option<seq<Extent>>): (r: Result<seq<Extent>, LoadError>)
    requires numClasses >= 2
    ensures file.None? ==> r == Failure(MissingExtentsFile)
    ensures file.Some? ==> (r.Success? <==> |file.value| == numClasses - 1 || |file.value| == 1)
    ensures r.Success? ==> |r.value| == numClasses && r.value[0] == ZeroExtent
    ensures r.Success? && |file.value| == numClasses - 1 ==>
      forall c :: 1 <= c < numClasses ==> r.value[c] == file.value[c - 1]
    ensures r.Success? && |file.value| == 1 ==>
      forall c :: 1 <= c < numClasses ==> r.value[c] == file.value[0]
  {
    match file
    case None => Failure(MissingExtentsFile)
    case Some(rows) =>
      if |rows| == numClasses - 1 then Success([ZeroExtent] + rows)
      else if |rows| == 1 then Success([ZeroExtent] + seq(numClasses - 1, _ => rows[0]))
      else Failure(ExtentsShapeMismatch(|rows|))
  }
}
