/**
 * Static metadata of the LOV (YCB-Video) dataset: the ordered class list,
 * the colour table used in label images, the per-class symmetry flags,
 * the name-to-index dictionary and the choice between the ADD and ADI
 * pose metrics.
 */
module LovClasses {
  import opened Wrappers

  /** A colour channel value. */
  newtype byte = x: int | 0 <= x < 256

  /** A colour of the table, in (r, g, b) order as the table lists it. */
  datatype Rgb = Rgb(r: byte, g: byte, b: byte)

  /** Number of classes, background included. */
  const NumClasses: nat := 22

  /** The class names, index 0 being the background. */
  const ClassNames: seq<string> := [
    "__background__", "002_master_chef_can", "003_cracker_box", "004_sugar_box",
    "005_tomato_soup_can", "006_mustard_bottle", "007_tuna_fish_can", "008_pudding_box",
    "009_gelatin_box", "010_potted_meat_can", "011_banana", "019_pitcher_base",
    "021_bleach_cleanser", "024_bowl", "025_mug", "035_power_drill", "036_wood_block",
    "037_scissors", "040_large_marker", "051_large_clamp", "052_extra_large_clamp",
    "061_foam_brick"]

  /** The colour of each class in label images. */
  const ClassColors: seq<Rgb> := [
    Rgb(255, 255, 255), Rgb(255, 0, 0), Rgb(0, 255, 0), Rgb(0, 0, 255), Rgb(255, 255, 0),
    Rgb(255, 0, 255), Rgb(0, 255, 255), Rgb(128, 0, 0), Rgb(0, 128, 0), Rgb(0, 0, 128),
    Rgb(128, 128, 0), Rgb(128, 0, 128), Rgb(0, 128, 128), Rgb(64, 0, 0), Rgb(0, 64, 0),
    Rgb(0, 0, 64), Rgb(64, 64, 0), Rgb(64, 0, 64), Rgb(0, 64, 64), Rgb(192, 0, 0),
    Rgb(0, 192, 0), Rgb(0, 0, 192)]

  /** The per-class symmetry flags (1 = symmetric). */
  const Symmetry: seq<int> := [0, 1, 0, 0, 1, 0, 1, 0, 0, 0, 0, 0, 0, 1, 0, 0, 1, 0, 1, 0, 0, 1]

  lemma TablesHaveOneEntryPerClass()
    ensures |ClassNames| == NumClasses && |ClassColors| == NumClasses && |Symmetry| == NumClasses
  {
  }

  /** The 22 colours are pairwise distinct. */
  lemma ColorsDistinct()
    ensures forall i, j :: 0 <= i < j < |ClassColors| ==> ClassColors[i] != ClassColors[j]
  {
  }

  /** The 22 names are pairwise distinct. */
  lemma NamesDistinct()
    ensures forall i, j :: 0 <= i < j < |ClassNames| ==> ClassNames[i] != ClassNames[j]
  {
  }

  /**
   * The dictionary `dict(zip(names, range(len(names))))`: every name maps
   * to its position, a later duplicate overriding an earlier one.
   */
  function ZipToIndex(names: seq<string>): (m: map<string, nat>)
    ensures m.Keys == set i | 0 <= i < |names| :: names[i]
    ensures forall name :: name in m ==> m[name] < |names| && names[m[name]] == name
  {
    if names == [] then map[]
    else
      var init := names[..|names| - 1];
      var m0 := ZipToIndex(init);
      assert forall name :: name in m0 ==> init[m0[name]] == names[m0[name]];
      m0[names[|names| - 1] := |names| - 1]
  }

  /** With distinct names, each name maps back to its own position. */
  lemma {:induction false} ZipToIndexOfDistinct(names: seq<string>, i: nat)
    requires forall a, b :: 0 <= a < b < |names| ==> names[a] != names[b]
    requires i < |names|
    ensures names[i] in ZipToIndex(names) && ZipToIndex(names)[names[i]] == i
  {
    if i < |names| - 1 {
      ZipToIndexOfDistinct(names[..|names| - 1], i);
    }
  }

  /** `_class_to_ind`: class name to class index. */
  function ClassToInd(): map<string, nat> {
    ZipToIndex(ClassNames)
  }

  /**
   * The class of a line of a `-box.txt` file, looked up by the line's first
   * word; `None` where the dictionary lookup raises `KeyError`.
   */
  function BoxLineClass(name: string): (r: Option<nat>)
    ensures r.Some? ==> r.value < NumClasses && ClassNames[r.value] == name
    ensures r.None? <==> forall i :: 0 <= i < NumClasses ==> ClassNames[i] != name
  {
    var m := ClassToInd();
    if name in m then Some(m[name]) else None
  }

  /** Every class name is found, at its own index. */
  lemma BoxLineClassOfName(i: nat)
    requires i < NumClasses
    ensures BoxLineClass(ClassNames[i]) == Some(i)
  {
    NamesDistinct();
    ZipToIndexOfDistinct(ClassNames, i);
  }

  /** The two point-set distances of the pose evaluation. */
  datatype Metric = Add | Adi

  /** The evaluation scores with ADI exactly the classes it names here. */
  predicate UsesAdi(name: string) {
    name == "024_bowl" || name == "036_wood_block" || name == "061_foam_brick"
  }

  /** The metric used for an instance of class `cls`. */
  function MetricFor(cls: nat): Metric
    requires cls < NumClasses
  {
    if UsesAdi(ClassNames[cls]) then Adi else Add
  }

  /** ADI is used for classes 13, 16 and 21 and for no other. */
  lemma AdiClasses(cls: nat)
    requires cls < NumClasses
    ensures MetricFor(cls) == Adi <==> cls == 13 || cls == 16 || cls == 21
  {
    NamesDistinct();
  }

  /** The metric of class `cls` told by its index rather than its name. */
  function MetricOfClass(cls: nat): Metric
    requires cls < NumClasses
  {
    if cls == 13 || cls == 16 || cls == 21 then Adi else Add
  }

  /** Choosing the metric by index is choosing it by name. */
  lemma MetricOfClassByName(cls: nat)
    requires cls < NumClasses
    ensures MetricOfClass(cls) == MetricFor(cls)
  {
    AdiClasses(cls);
  }

  /**
   * The metric choice does not follow the symmetry flags: every ADI class is
   * flagged symmetric, but classes 1, 4, 6 and 18 are flagged symmetric and
   * still scored with ADD.
   */
  lemma MetricIgnoresSymmetryFlag(cls: nat)
    requires cls < NumClasses
    ensures MetricFor(cls) == Adi ==> Symmetry[cls] == 1
    ensures Symmetry[cls] == 1 && MetricFor(cls) == Add <==> cls in {1, 4, 6, 18}
  {
    AdiClasses(cls);
  }
}
