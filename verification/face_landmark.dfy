/**
 * The box arithmetic of the YOLOv8 landmark detector `Face_Landmark`
 * (facial-service/app/gvision/face_detection/yolov8.py): the square, padded crop box
 * and the post-processing of the network's boxes. Pixels are not modelled: a crop is
 * the box it cuts out of an image of the given height and width.
 */
module FaceLandmark {
  import opened Numeric
  import opened Wrappers

  /** An integer box `[xmin, ymin, xmax, ymax]`. */
  datatype Box = Box(xmin: int, ymin: int, xmax: int, ymax: int)

  /** The box as the network reports it, before the `int` conversion. */
  datatype RawBox = RawBox(x1: real, y1: real, x2: real, y2: real)

  function Width(b: Box): int { b.xmax - b.xmin }
  function Height(b: Box): int { b.ymax - b.ymin }

  /** The box lies within an image `width` wide and `height` high (slice bounds). */
  predicate Inside(b: Box, width: int, height: int)
  {
    0 <= b.xmin && 0 <= b.ymin && b.xmax <= width && b.ymax <= height
  }

  predicate Contains(outer: Box, inner: Box)
  {
    outer.xmin <= inner.xmin && outer.ymin <= inner.ymin && inner.xmax <= outer.xmax && inner.ymax <= outer.ymax
  }

  /** Step 1: `int(width * padding)` added on the left and right, `int(height * padding)` on top and bottom. */
  /** `int(side * padding)`. */
  function PadAmount(side: int, padding: real): int
  {
    Trunc(side as real * padding)
  }

  function Padded(b: Box, padding: real): Box
  {
    var padW := PadAmount(Width(b), padding);
    var padH := PadAmount(Height(b), padding);
    Box(b.xmin - padW, b.ymin - padH, b.xmax + padW, b.ymax + padH)
  }

  /** Non-negative padding of a well-formed box only grows it. */
  lemma PaddedContains(b: Box, padding: real)
    requires 0.0 <= padding && 0 <= Width(b) && 0 <= Height(b)
    ensures Contains(Padded(b, padding), b)
  {
    assert 0.0 <= Width(b) as real * padding;
    assert 0.0 <= Height(b) as real * padding;
  }

  /**
   * Step 2: the shorter side is widened by `diff // 2` on each side, so the box is square
   * up to one pixel (an odd difference leaves it one short).
   */
  function Squared(b: Box): (r: Box)
    ensures Contains(r, b)
    ensures Width(b) > Height(b) ==> Width(r) == Width(b) && Width(r) - 1 <= Height(r) <= Width(r)
    ensures Width(b) <= Height(b) ==> Height(r) == Height(b) && Height(r) - 1 <= Width(r) <= Height(r)
    ensures Width(b) > Height(b) ==> b.ymin - r.ymin == r.ymax - b.ymax
    ensures Width(b) <= Height(b) ==> b.xmin - r.xmin == r.xmax - b.xmax
  {
    if Width(b) > Height(b) then
      var diff := Width(b) - Height(b);
      Box(b.xmin, b.ymin - diff / 2, b.xmax, b.ymax + diff / 2)
    else
      var diff := Height(b) - Width(b);
      Box(b.xmin - diff / 2, b.ymin, b.xmax + diff / 2, b.ymax)
  }

  /** Steps 3 and 5: each edge clamped into the image. */
  function Clamped(b: Box, width: int, height: int): (r: Box)
    ensures Inside(r, width, height)
    ensures Inside(b, width, height) ==> r == b
  {
    Box(IntMax(0, b.xmin), IntMax(0, b.ymin), IntMin(width, b.xmax), IntMin(height, b.ymax))
  }

  /**
   * Step 4: the shorter side is extended from its minimum edge to the longer side's
   * length; when that crosses the image's far edge the box is pushed back from it.
   */
  function Resquared(b: Box, width: int, height: int): (r: Box)
    ensures Width(b) > Height(b) ==> r.xmin == b.xmin && r.xmax == b.xmax && Height(r) == Width(b) && r.ymax <= height
    ensures Width(b) <= Height(b) ==> r.ymin == b.ymin && r.ymax == b.ymax && Width(r) == Height(b) && r.xmax <= width
    ensures Width(b) > Height(b) && b.ymin + Width(b) <= height ==> r.ymin == b.ymin
    ensures Width(b) > Height(b) && b.ymin + Width(b) > height ==> r.ymax == height
    ensures Width(b) <= Height(b) && b.xmin + Height(b) <= width ==> r.xmin == b.xmin
    ensures Width(b) <= Height(b) && b.xmin + Height(b) > width ==> r.xmax == width
  {
    if Width(b) > Height(b) then
      var ymax := b.ymin + Width(b);
      if ymax > height then Box(b.xmin, height - Width(b), b.xmax, height)
      else Box(b.xmin, b.ymin, b.xmax, ymax)
    else
      var xmax := b.xmin + Height(b);
      if xmax > width then Box(width - Height(b), b.ymin, width, b.ymax)
      else Box(b.xmin, b.ymin, xmax, b.ymax)
  }

  /** The box `crop_image_with_padding` cuts from an image `width` wide and `height` high. */
  function CropBox(b: Box, width: int, height: int, padding: real): (r: Box)
    ensures Inside(r, width, height)
  {
    Clamped(Resquared(Clamped(Squared(Padded(b, padding)), width, height), width, height), width, height)
  }

  /**
   * `crop_image_with_padding` on an image of `imageHeight` rows and `imageWidth` columns;
   * returns the box it slices before resizing to `image_size`.
   */
  method CropImageWithPadding(imageHeight: nat, imageWidth: nat, box: Box, padding: real) returns (r: Box)
    ensures Inside(r, imageWidth, imageHeight)
    ensures r == CropBox(box, imageWidth, imageHeight, padding)
  {
    var squared := PadToSquare(box, padding);
    r := FitInImage(imageHeight, imageWidth, squared);
  }

  /** The first half of `crop_image_with_padding`: padding, then equalising the sides. */
  method PadToSquare(box: Box, padding: real) returns (r: Box)
    ensures r == Squared(Padded(box, padding))
  {
    var xmin, ymin, xmax, ymax := box.xmin, box.ymin, box.xmax, box.ymax;
    var width := Width(box);
    var height := Height(box);
    var paddingWidth := PadAmount(width, padding);
    var paddingHeight := PadAmount(height, padding);
    xmin := xmin - paddingWidth;
    ymin := ymin - paddingHeight;
    xmax := xmax + paddingWidth;
    ymax := ymax + paddingHeight;
    ghost var padded := Padded(box, padding);
    assert Box(xmin, ymin, xmax, ymax) == padded;
    var widthWithPadding := xmax - xmin;
    var heightWithPadding := ymax - ymin;
    if widthWithPadding > heightWithPadding {
      var diff := widthWithPadding - heightWithPadding;
      ymin := ymin - diff / 2;
      ymax := ymax + diff / 2;
      assert Box(xmin, ymin, xmax, ymax) == Squared(padded);
    } else {
      var diff := heightWithPadding - widthWithPadding;
      xmin := xmin - diff / 2;
      xmax := xmax + diff / 2;
      assert Box(xmin, ymin, xmax, ymax) == Squared(padded);
    }
    r := Box(xmin, ymin, xmax, ymax);
  }

  /** The second half: clamping into the image, re-squaring, clamping again. */
  method FitInImage(imageHeight: nat, imageWidth: nat, box: Box) returns (r: Box)
    ensures Inside(r, imageWidth, imageHeight)
    ensures r == Clamped(Resquared(Clamped(box, imageWidth, imageHeight), imageWidth, imageHeight), imageWidth, imageHeight)
  {
    var xmin, ymin, xmax, ymax := box.xmin, box.ymin, box.xmax, box.ymax;
    xmin := IntMax(0, xmin);
    ymin := IntMax(0, ymin);
    xmax := IntMin(imageWidth, xmax);
    ymax := IntMin(imageHeight, ymax);
    ghost var clamped := Box(xmin, ymin, xmax, ymax);
    assert clamped == Clamped(box, imageWidth, imageHeight);
    var width := xmax - xmin;
    var height := ymax - ymin;
    if width > height {
      ymax := ymin + width;
      if ymax > imageHeight {
        ymax := imageHeight;
        ymin := ymax - width;
      }
    } else {
      xmax := xmin + height;
      if xmax > imageWidth {
        xmax := imageWidth;
        xmin := xmax - height;
      }
    }
    assert Box(xmin, ymin, xmax, ymax) == Resquared(clamped, imageWidth, imageHeight);
    xmin := IntMax(0, xmin);
    ymin := IntMax(0, ymin);
    xmax := IntMin(imageWidth, xmax);
    ymax := IntMin(imageHeight, ymax);
    r := Box(xmin, ymin, xmax, ymax);
  }

  /** A square box inside the image, cropped with padding 0, comes back unchanged. */
  lemma SquareInsideUnchanged(b: Box, width: int, height: int)
    requires Width(b) == Height(b)
    requires Inside(b, width, height)
    ensures CropBox(b, width, height, 0.0) == b
  {
    assert Padded(b, 0.0) == b;
    assert Squared(b) == b;
  }

  /**
   * When the padded, squared box lies in the image and a square on its longer side
   * still fits from its top-left corner, the crop is exactly that square, and it
   * contains the detected box whenever the padding is non-negative.
   */
  lemma FittingCropIsSquare(b: Box, width: int, height: int, padding: real)
    requires Inside(Squared(Padded(b, padding)), width, height)
    requires var s := Squared(Padded(b, padding));
      var side := IntMax(Width(s), Height(s));
      s.xmin + side <= width && s.ymin + side <= height
    ensures var s := Squared(Padded(b, padding));
      var side := IntMax(Width(s), Height(s));
      CropBox(b, width, height, padding) == Box(s.xmin, s.ymin, s.xmin + side, s.ymin + side)
    ensures Width(CropBox(b, width, height, padding)) == Height(CropBox(b, width, height, padding))
    ensures 0.0 <= padding && 0 <= Width(b) && 0 <= Height(b) ==> Contains(CropBox(b, width, height, padding), b)
  {
    var p := Padded(b, padding);
    var s := Squared(p);
    assert Clamped(s, width, height) == s;
    if 0.0 <= padding && 0 <= Width(b) && 0 <= Height(b) {
      PaddedContains(b, padding);
    }
  }

  /**
   * One box of `predict`'s loop: the corners truncated to `int`, the top edge raised by
   * 13% of the height (not above row 0) and the bottom edge floored at 0.
   */
  function AdjustBox(raw: RawBox): (b: Box)
    ensures b.xmin == Trunc(raw.x1) && b.xmax == Trunc(raw.x2)
    ensures b.ymax == IntMax(0, Trunc(raw.y2))
    ensures 0 <= b.ymin
    ensures var y1, h := Trunc(raw.y1), Trunc(raw.y2) - Trunc(raw.y1);
      && (0 <= h ==> b.ymin <= IntMax(0, y1))
      && y1 as real - 0.13 * h as real - 1.0 < b.ymin as real
    ensures var t := Trunc(raw.y1) as real - 0.13 * (Trunc(raw.y2) - Trunc(raw.y1)) as real;
      && (0.0 <= t ==> t - 1.0 < b.ymin as real <= t)
      && (t < 0.0 ==> b.ymin == 0)
  {
    var x1, y1, x2, y2 := Trunc(raw.x1), Trunc(raw.y1), Trunc(raw.x2), Trunc(raw.y2);
    var heightBox := y2 - y1;
    var top := IntMax(0, Trunc(y1 as real - 0.13 * heightBox as real));
    RaisedTopNotLower(y1, heightBox);
    Box(x1, top, x2, IntMax(0, Trunc(y2 as real - 0.0 * heightBox as real)))
  }

  lemma RaisedTopNotLower(y1: int, h: int)
    ensures 0 <= h ==> Trunc(y1 as real - 0.13 * h as real) <= y1
  {
    if 0 <= h {
      TruncMonotone(y1 as real - 0.13 * h as real, y1 as real);
      TruncOfInt(y1);
    }
  }

  /**
   * The post-processing of `predict`. `prediction` is what the network returns (`None`
   * when the call raises): its boxes and keypoint sets. The loop reads `keypoints[i]`
   * for every box, so fewer keypoint sets than boxes raise and give `None` as well.
   */
  method Predict<K>(prediction: Option<(seq<RawBox>, seq<K>)>) returns (r: Option<(Box, K)>)
    ensures r.None? <==> prediction.None? || |prediction.value.0| == 0 || |prediction.value.1| < |prediction.value.0|
    ensures r.Some? ==> r.value == (AdjustBox(prediction.value.0[0]), prediction.value.1[0])
  {
    if prediction.None? {
      return None;
    }
    var (boxes, keypoints) := prediction.value;
    var listBoxes: seq<Box> := [];
    var listKps: seq<K> := [];
    for i := 0 to |boxes|
      invariant i <= |keypoints|
      invariant |listBoxes| == i && |listKps| == i
      invariant forall j :: 0 <= j < i ==> listBoxes[j] == AdjustBox(boxes[j]) && listKps[j] == keypoints[j]
    {
      var boxXyxy := AdjustBox(boxes[i]);
      if i >= |keypoints| {
        return None;
      }
      listKps := listKps + [keypoints[i]];
      listBoxes := listBoxes + [boxXyxy];
    }
    if |listBoxes| > 0 {
      return Some((listBoxes[0], listKps[0]));
    } else {
      return None;
    }
  }
}
