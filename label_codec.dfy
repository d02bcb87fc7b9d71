/**
 * Conversion between colour-coded label images and class-index maps.
 * Images are flattened in row-major order: both conversions work pixel by
 * pixel, so the height and width play no part beyond the pixel count.
 */
module LabelCodec {
  import opened LovClasses

  /** A pixel as stored, channel 0 first. */
  datatype Pixel = Pixel(c0: byte, c1: byte, c2: byte)

  const Black := Pixel(0, 0, 0)

  /** How a pixel is packed when decoding: the image is read as BGR, so channel 2 (red) is the low byte. */
  function PixelKey(p: Pixel): int {
    p.c2 as int + 256 * p.c1 as int + 256 * 256 * p.c0 as int
  }

  /** How a table colour is packed when decoding: red is the low byte. */
  function ColorKey(c: Rgb): int {
    c.r as int + 256 * c.g as int + 256 * 256 * c.b as int
  }

  /** The pixel that shows colour `c` in a BGR image. */
  function AsBgr(c: Rgb): Pixel {
    Pixel(c.b, c.g, c.r)
  }

  /** The pixel that shows colour `c` in an RGB image. */
  function AsRgb(c: Rgb): Pixel {
    Pixel(c.r, c.g, c.b)
  }

  /** Swaps channels 0 and 2 (RGB to BGR and back). */
  function SwapRedBlue(p: Pixel): Pixel {
    Pixel(p.c2, p.c1, p.c0)
  }

  /** Three bytes packed base 256 determine the bytes. */
  lemma PackInjective(a0: byte, a1: byte, a2: byte, b0: byte, b1: byte, b2: byte)
    requires a0 as int + 256 * a1 as int + 65536 * a2 as int == b0 as int + 256 * b1 as int + 65536 * b2 as int
    ensures a0 == b0 && a1 == b1 && a2 == b2
  {
    var x := a0 as int + 256 * a1 as int + 65536 * a2 as int;
    assert x / 65536 == a2 as int && x / 65536 == b2 as int;
    var y := a0 as int + 256 * a1 as int;
    assert y == b0 as int + 256 * b1 as int;
    assert y / 256 == a1 as int && y / 256 == b1 as int;
  }

  /** A pixel and a colour have the same key exactly when the pixel shows the colour in BGR order. */
  lemma KeyMatch(p: Pixel, c: Rgb)
    ensures PixelKey(p) == ColorKey(c) <==> p == AsBgr(c)
  {
    if PixelKey(p) == ColorKey(c) {
      PackInjective(p.c2, p.c1, p.c0, c.r, c.g, c.b);
    }
  }

  /**
   * The label a pixel with key `key` holds after the first `m` classes
   * have been processed: the last of them whose colour key matches, and
   * the initial 0 when none does.
   */
  function LabelAfter(key: int, m: nat): (l: nat)
    requires m <= NumClasses
    ensures l < NumClasses
  {
    if m == 0 then 0
    else if ColorKey(ClassColors[m - 1]) == key then m - 1
    else LabelAfter(key, m - 1)
  }

  /** The label `_process_label_image` gives a pixel. */
  function DecodePixel(p: Pixel): nat {
    LabelAfter(PixelKey(p), NumClasses)
  }

  /** No colour of the table shows in this pixel. */
  predicate Unmatched(p: Pixel) {
    forall i :: 0 <= i < NumClasses ==> p != AsBgr(ClassColors[i])
  }

  lemma {:induction false} LabelAfterMatches(key: int, m: nat, i: nat)
    requires i < m <= NumClasses
    requires ColorKey(ClassColors[i]) == key
    ensures LabelAfter(key, m) == i
  {
    ColorsDistinct();
    if i < m - 1 {
      if ColorKey(ClassColors[m - 1]) == key {
        KeyMatch(AsBgr(ClassColors[i]), ClassColors[m - 1]);
        KeyMatch(AsBgr(ClassColors[i]), ClassColors[i]);
        assert false;
      }
      LabelAfterMatches(key, m - 1, i);
    }
  }

  lemma {:induction false} LabelAfterUnmatched(key: int, m: nat)
    requires m <= NumClasses
    requires forall i :: 0 <= i < m ==> ColorKey(ClassColors[i]) != key
    ensures LabelAfter(key, m) == 0
  {
    if m > 0 {
      LabelAfterUnmatched(key, m - 1);
    }
  }

  /**
   * Decoding: a pixel gets label i exactly when it shows colour i in BGR
   * order, and label 0 also when it shows no colour of the table.
   */
  lemma DecodePixelSpec(p: Pixel, i: nat)
    requires i < NumClasses
    ensures DecodePixel(p) == i <==> p == AsBgr(ClassColors[i]) || (i == 0 && Unmatched(p))
  {
    ColorsDistinct();
    forall j | 0 <= j < NumClasses
      ensures ColorKey(ClassColors[j]) == PixelKey(p) <==> p == AsBgr(ClassColors[j])
    {
      KeyMatch(p, ClassColors[j]);
    }
    if p == AsBgr(ClassColors[i]) {
      LabelAfterMatches(PixelKey(p), NumClasses, i);
    } else if Unmatched(p) {
      LabelAfterUnmatched(PixelKey(p), NumClasses);
    } else {
      var j :| 0 <= j < NumClasses && p == AsBgr(ClassColors[j]);
      LabelAfterMatches(PixelKey(p), NumClasses, j);
    }
  }

  /**
   * `_process_label_image`: packs every pixel, then for each class in turn
   * writes the class index into every pixel whose key is the class's.
   */
  method ProcessLabelImage(labelImage: seq<Pixel>) returns (labelIndex: seq<nat>)
    ensures |labelIndex| == |labelImage|
    ensures forall k :: 0 <= k < |labelImage| ==> labelIndex[k] == DecodePixel(labelImage[k])
  {
    var n := |labelImage|;
    var labelArr := new nat[n](_ => 0);
    var index := seq(n, k requires 0 <= k < n => PixelKey(labelImage[k]));
    for i := 0 to |ClassColors|
      invariant forall k :: 0 <= k < n ==> labelArr[k] == LabelAfter(index[k], i)
    {
      MarkClass(labelArr, index, i);
    }
    labelIndex := labelArr[..];
  }

  /** One pass of `_process_label_image`: every pixel whose key is class i's colour key gets label i. */
  method MarkClass(labelArr: array<nat>, index: seq<int>, i: nat)
    requires i < NumClasses && labelArr.Length == |index|
    requires forall k :: 0 <= k < |index| ==> labelArr[k] == LabelAfter(index[k], i)
    modifies labelArr
    ensures forall k :: 0 <= k < |index| ==> labelArr[k] == LabelAfter(index[k], i + 1)
  {
    var ind := ColorKey(ClassColors[i]);
    for k := 0 to |index|
      invariant forall k' :: 0 <= k' < k ==> labelArr[k'] == LabelAfter(index[k'], i + 1)
      invariant forall k' :: k <= k' < |index| ==> labelArr[k'] == LabelAfter(index[k'], i)
    {
      if index[k] == ind {
        labelArr[k] := i;
      }
    }
  }

  /** The pixel `labels_to_image` writes for a label: the class colour in RGB order, black outside the table. */
  function EncodePixel(l: int): Pixel {
    if 0 <= l < NumClasses then AsRgb(ClassColors[l]) else Black
  }

  /**
   * `labels_to_image`: three zeroed planes; for each class in turn, the
   * class colour's r, g and b are written into every pixel with that label;
   * the planes are stacked as channels 0, 1, 2.
   */
  method LabelsToImage(labels: seq<int>) returns (image: seq<Pixel>)
    ensures |image| == |labels|
    ensures forall k :: 0 <= k < |labels| ==> image[k] == EncodePixel(labels[k])
  {
    var n := |labels|;
    var imageR := new byte[n](_ => 0);
    var imageG := new byte[n](_ => 0);
    var imageB := new byte[n](_ => 0);
    for i := 0 to |ClassColors|
      invariant forall k :: 0 <= k < n ==>
        Pixel(imageR[k], imageG[k], imageB[k]) == if 0 <= labels[k] < i then EncodePixel(labels[k]) else Black
    {
      var color := ClassColors[i];
      for k := 0 to n
        invariant forall k' :: 0 <= k' < n ==>
          Pixel(imageR[k'], imageG[k'], imageB[k']) ==
            if 0 <= labels[k'] < i || (k' < k && labels[k'] == i) then EncodePixel(labels[k']) else Black
      {
        if labels[k] == i {
          imageR[k], imageG[k], imageB[k] := color.r, color.g, color.b;
        }
      }
    }
    image := seq(n, k requires 0 <= k < n reads imageR, imageG, imageB => Pixel(imageR[k], imageG[k], imageB[k]));
  }

  /** Decoding the channel-swapped encoding of a valid label gives the label back. */
  lemma PixelRoundTrip(l: int)
    requires 0 <= l < NumClasses
    ensures DecodePixel(SwapRedBlue(EncodePixel(l))) == l
  {
    DecodePixelSpec(SwapRedBlue(EncodePixel(l)), l);
  }

  /**
   * Round trip: for a map whose labels are all class indices, decoding the
   * output of `labels_to_image` with its channels reversed (as writing it
   * as RGB and reading it back as BGR does) returns the map.
   */
  lemma RoundTrip(labels: seq<int>)
    requires forall k :: 0 <= k < |labels| ==> 0 <= labels[k] < NumClasses
    ensures seq(|labels|, k requires 0 <= k < |labels| => DecodePixel(SwapRedBlue(EncodePixel(labels[k])))) == labels
  {
    forall k | 0 <= k < |labels|
      ensures DecodePixel(SwapRedBlue(EncodePixel(labels[k]))) == labels[k]
    {
      PixelRoundTrip(labels[k]);
    }
  }

  /** A label outside the table is written black, and black decodes to the background label 0. */
  lemma EncodeOutsideTableIsBlack(l: int)
    requires !(0 <= l < NumClasses)
    ensures DecodePixel(SwapRedBlue(EncodePixel(l))) == 0
  {
    assert SwapRedBlue(EncodePixel(l)) == Black;
    assert forall i :: 0 <= i < NumClasses ==> ColorKey(ClassColors[i]) > 0;
    LabelAfterUnmatched(0, NumClasses);
  }

  /**
   * Without the channel reversal the round trip fails: `labels_to_image`
   * writes RGB while `_process_label_image` reads BGR, so a pixel labelled
   * 1 (red) decodes as class 3 (blue).
   */
  lemma EncodeThenDecodeSwapsRedAndBlue()
    ensures DecodePixel(EncodePixel(1)) == 3
  {
    DecodePixelSpec(EncodePixel(1), 3);
  }
}
