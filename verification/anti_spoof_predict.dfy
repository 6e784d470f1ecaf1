/**
 * The arithmetic and bookkeeping around the MiniFASNet spoof networks
 * (facial-service/app/gvision/face_anti_spoof/anti_spoof_predict.py): the RetinaFace
 * box choice of `Detection.get_bbox`, the scaled crop box of `CropImage._get_new_box`
 * and the `module.` key renaming of `AntiSpoofPredict._load_model`.
 */
module AntiSpoofPredict {
  import opened Numeric
  import opened Wrappers
  import opened Text

  // ---------------------------------------------------------------- Detection.get_bbox

  /** One row of the detector's output: a confidence and the corners as fractions of the image. */
  datatype DetectionRow = DetectionRow(confidence: real, left: real, top: real, right: real, bottom: real)

  /** `[x, y, w, h]` in pixels. */
  datatype BBox = BBox(x: int, y: int, w: int, h: int)

  /** `self.detector_confidence`. */
  const DetectorConfidence: real := 0.3

  /** `np.argmax` of the confidences: the first row of highest confidence. */
  function ArgMaxConfidence(rows: seq<DetectionRow>): (i: nat)
    requires |rows| > 0
    ensures i < |rows|
    ensures forall j :: 0 <= j < |rows| ==> rows[j].confidence <= rows[i].confidence
    ensures forall j :: 0 <= j < i ==> rows[j].confidence < rows[i].confidence
  {
    if |rows| == 1 then 0
    else
      var k := ArgMaxConfidence(rows[..|rows| - 1]);
      if rows[|rows| - 1].confidence > rows[k].confidence then |rows| - 1 else k
  }

  /** A relative coordinate in pixels along a side of `size` pixels. */
  function Scaled(x: real, size: int): real
  {
    x * size as real
  }

  /** A row's box in pixels of an image `width` by `height`; sizes count both edge pixels. */
  function PixelBox(row: DetectionRow, width: int, height: int): (b: BBox)
    ensures Scaled(row.left, width) <= Scaled(row.right, width) ==> 1 <= b.w
    ensures Scaled(row.top, height) <= Scaled(row.bottom, height) ==> 1 <= b.h
  {
    var left, top := Scaled(row.left, width), Scaled(row.top, height);
    var right, bottom := Scaled(row.right, width), Scaled(row.bottom, height);
    BBox(Trunc(left), Trunc(top), Trunc(right - left + 1.0), Trunc(bottom - top + 1.0))
  }

  /**
   * The selection step of `get_bbox`: the box of the most confident detection, or `None`
   * when even that one is not above the detector's confidence threshold.
   */
  function BestBox(rows: seq<DetectionRow>, width: int, height: int): (r: Option<BBox>)
    requires |rows| > 0
    ensures r.Some? <==> exists j :: 0 <= j < |rows| && rows[j].confidence > DetectorConfidence
    ensures r.Some? ==>
      exists i :: 0 <= i < |rows| && r.value == PixelBox(rows[i], width, height)
        && (forall j :: 0 <= j < |rows| ==> rows[j].confidence <= rows[i].confidence)
        && (forall j :: 0 <= j < i ==> rows[j].confidence < rows[i].confidence)
  {
    var best := ArgMaxConfidence(rows);
    if rows[best].confidence > DetectorConfidence then Some(PixelBox(rows[best], width, height)) else None
  }

  /**
   * Why `get_bbox` raises: `squeeze()` drops every axis of length 1, so a single detection
   * becomes a flat row that `out[:, 2]` cannot index, and no detection at all leaves
   * `np.argmax` an empty sequence.
   */
  datatype BboxError = NoDetection | SingleDetection

  /** `get_bbox` over the detector's rows: it raises for fewer than two rows, else selects. */
  function GetBbox(rows: seq<DetectionRow>, width: int, height: int): (r: Result<Option<BBox>, BboxError>)
    ensures r == Err(NoDetection) <==> |rows| == 0
    ensures r == Err(SingleDetection) <==> |rows| == 1
    ensures r.Ok? <==> |rows| >= 2
    ensures r.Ok? ==> (r.value.Some? <==> exists j :: 0 <= j < |rows| && rows[j].confidence > DetectorConfidence)
    ensures r.Ok? && r.value.Some? ==>
      exists i :: 0 <= i < |rows| && r.value.value == PixelBox(rows[i], width, height)
        && (forall j :: 0 <= j < |rows| ==> rows[j].confidence <= rows[i].confidence)
        && (forall j :: 0 <= j < i ==> rows[j].confidence < rows[i].confidence)
  {
    if |rows| == 0 then Err(NoDetection)
    else if |rows| == 1 then Err(SingleDetection)
    else Ok(BestBox(rows, width, height))
  }

  /** The first row of highest confidence is the one `np.argmax` picks. */
  lemma ArgMaxIsFirstMaximum(rows: seq<DetectionRow>, i: nat)
    requires i < |rows|
    requires forall j :: 0 <= j < |rows| ==> rows[j].confidence <= rows[i].confidence
    requires forall j :: 0 <= j < i ==> rows[j].confidence < rows[i].confidence
    ensures ArgMaxConfidence(rows) == i
  {
  }

  /** A detection weaker than the best one, appended, changes nothing. */
  lemma WeakerRowAfterIgnored(rows: seq<DetectionRow>, extra: DetectionRow, width: int, height: int)
    requires |rows| > 0
    requires extra.confidence < rows[ArgMaxConfidence(rows)].confidence
    ensures BestBox(rows + [extra], width, height) == BestBox(rows, width, height)
  {
    var k := ArgMaxConfidence(rows);
    var after := rows + [extra];
    assert forall j :: 0 <= j < |rows| ==> after[j] == rows[j];
    ArgMaxIsFirstMaximum(after, k);
  }

  /** A detection weaker than the best one, put in front, changes nothing. */
  lemma WeakerRowBeforeIgnored(rows: seq<DetectionRow>, extra: DetectionRow, width: int, height: int)
    requires |rows| > 0
    requires extra.confidence < rows[ArgMaxConfidence(rows)].confidence
    ensures BestBox([extra] + rows, width, height) == BestBox(rows, width, height)
  {
    var k := ArgMaxConfidence(rows);
    var before := [extra] + rows;
    assert forall j :: 1 <= j < |before| ==> before[j] == rows[j - 1];
    ArgMaxIsFirstMaximum(before, k + 1);
  }

  // ---------------------------------------------------------------- CropImage._get_new_box

  /** A box as four real corners. */
  datatype Corners = Corners(leftTopX: real, leftTopY: real, rightBottomX: real, rightBottomY: real)

  /** The requested scale, reduced so the scaled box fits in `src_w - 1` by `src_h - 1`. */
  function EffectiveScale(srcW: int, srcH: int, boxW: int, boxH: int, scale: real): (s: real)
    requires boxW != 0 && boxH != 0
    ensures s <= scale
    ensures 0 < boxW ==> boxW as real * s <= (srcW - 1) as real
    ensures 0 < boxH ==> boxH as real * s <= (srcH - 1) as real
    ensures s == scale || s == (srcW - 1) as real / boxW as real || s == (srcH - 1) as real / boxH as real
  {
    var s := Min((srcH - 1) as real / boxH as real, Min((srcW - 1) as real / boxW as real, scale));
    ScaledAtMost(boxW, s, srcW - 1);
    ScaledAtMost(boxH, s, srcH - 1);
    s
  }

  lemma ScaledAtMost(side: int, s: real, limit: int)
    requires side != 0
    ensures 0 < side && s <= limit as real / side as real ==> side as real * s <= limit as real
  {
    if 0 < side && s <= limit as real / side as real {
      assert side as real * s <= side as real * (limit as real / side as real);
    }
  }

  /** The box scaled about its centre. */
  function Centred(x: int, y: int, boxW: int, boxH: int, s: real): (c: Corners)
    ensures c.rightBottomX - c.leftTopX == boxW as real * s
    ensures c.rightBottomY - c.leftTopY == boxH as real * s
    ensures c.leftTopX + c.rightBottomX == 2.0 * x as real + boxW as real
    ensures c.leftTopY + c.rightBottomY == 2.0 * y as real + boxH as real
  {
    var centerX, centerY := boxW as real / 2.0 + x as real, boxH as real / 2.0 + y as real;
    var newWidth, newHeight := boxW as real * s, boxH as real * s;
    Corners(centerX - newWidth / 2.0, centerY - newHeight / 2.0, centerX + newWidth / 2.0, centerY + newHeight / 2.0)
  }

  /**
   * One axis of the shift: a segment crossing 0 is moved right to start at 0, then one
   * crossing `limit` is moved left to end at `limit`. The length never changes.
   */
  function ShiftInside(lo: real, hi: real, limit: real): (r: (real, real))
    ensures r.1 - r.0 == hi - lo
    ensures r.1 <= limit
    ensures hi - lo <= limit ==> 0.0 <= r.0
    ensures 0.0 <= lo && hi <= limit ==> r == (lo, hi)
  {
    var (lo1, hi1) := if lo < 0.0 then (0.0, hi - lo) else (lo, hi);
    if hi1 > limit then (lo1 - (hi1 - limit), limit) else (lo1, hi1)
  }

  /** The real corners `_get_new_box` computes before truncating them. */
  function NewBox(srcW: int, srcH: int, x: int, y: int, boxW: int, boxH: int, scale: real): Corners
    requires boxW != 0 && boxH != 0
  {
    var c := Centred(x, y, boxW, boxH, EffectiveScale(srcW, srcH, boxW, boxH, scale));
    var (ltx, rbx) := ShiftInside(c.leftTopX, c.rightBottomX, (srcW - 1) as real);
    var (lty, rby) := ShiftInside(c.leftTopY, c.rightBottomY, (srcH - 1) as real);
    Corners(ltx, lty, rbx, rby)
  }

  /**
   * `_get_new_box` for a box `(x, y, boxW, boxH)` in an image `srcW` by `srcH`.
   * The source divides by both box sides, so neither may be 0.
   */
  method GetNewBox(srcW: int, srcH: int, x: int, y: int, boxW: int, boxH: int, scale: real)
    returns (leftTopX: int, leftTopY: int, rightBottomX: int, rightBottomY: int)
    requires boxW != 0 && boxH != 0
    ensures var c := NewBox(srcW, srcH, x, y, boxW, boxH, scale);
      leftTopX == Trunc(c.leftTopX) && leftTopY == Trunc(c.leftTopY)
      && rightBottomX == Trunc(c.rightBottomX) && rightBottomY == Trunc(c.rightBottomY)
    ensures 0 < boxW && 0 < boxH ==>
      0 <= leftTopX && 0 <= leftTopY && rightBottomX <= srcW - 1 && rightBottomY <= srcH - 1
  {
    var s := EffectiveScale(srcW, srcH, boxW, boxH, scale);
    var newWidth := boxW as real * s;
    var newHeight := boxH as real * s;
    var centerX, centerY := boxW as real / 2.0 + x as real, boxH as real / 2.0 + y as real;
    var ltx := centerX - newWidth / 2.0;
    var lty := centerY - newHeight / 2.0;
    var rbx := centerX + newWidth / 2.0;
    var rby := centerY + newHeight / 2.0;
    assert Corners(ltx, lty, rbx, rby) == Centred(x, y, boxW, boxH, s);
    if ltx < 0.0 {
      rbx := rbx - ltx;
      ltx := 0.0;
    }
    if lty < 0.0 {
      rby := rby - lty;
      lty := 0.0;
    }
    if rbx > (srcW - 1) as real {
      ltx := ltx - (rbx - srcW as real + 1.0);
      rbx := (srcW - 1) as real;
    }
    if rby > (srcH - 1) as real {
      lty := lty - (rby - srcH as real + 1.0);
      rby := (srcH - 1) as real;
    }
    assert Corners(ltx, lty, rbx, rby) == NewBox(srcW, srcH, x, y, boxW, boxH, scale);
    TruncMonotone(rbx, (srcW - 1) as real);
    TruncMonotone(rby, (srcH - 1) as real);
    TruncOfInt(srcW - 1);
    TruncOfInt(srcH - 1);
    leftTopX, leftTopY, rightBottomX, rightBottomY := Trunc(ltx), Trunc(lty), Trunc(rbx), Trunc(rby);
  }

  /** A scaled box that already lies in the image keeps its centre: it is not shifted. */
  lemma NewBoxKeepsCentre(srcW: int, srcH: int, x: int, y: int, boxW: int, boxH: int, scale: real)
    requires boxW != 0 && boxH != 0
    requires var c := Centred(x, y, boxW, boxH, EffectiveScale(srcW, srcH, boxW, boxH, scale));
      0.0 <= c.leftTopX && c.rightBottomX <= (srcW - 1) as real
      && 0.0 <= c.leftTopY && c.rightBottomY <= (srcH - 1) as real
    ensures var n := NewBox(srcW, srcH, x, y, boxW, boxH, scale);
      n.leftTopX + n.rightBottomX == 2.0 * x as real + boxW as real
      && n.leftTopY + n.rightBottomY == 2.0 * y as real + boxH as real
  {
  }

  /** With a non-negative scale and an image at least one pixel wide and high, the box is not inverted. */
  lemma NewBoxOrdered(srcW: int, srcH: int, x: int, y: int, boxW: int, boxH: int, scale: real)
    requires 0 < boxW && 0 < boxH && 0.0 <= scale && 1 <= srcW && 1 <= srcH
    ensures var n := NewBox(srcW, srcH, x, y, boxW, boxH, scale);
      n.leftTopX <= n.rightBottomX && n.leftTopY <= n.rightBottomY
  {
    var s := EffectiveScale(srcW, srcH, boxW, boxH, scale);
    assert 0.0 <= s by {
      assert 0.0 <= (srcW - 1) as real / boxW as real;
      assert 0.0 <= (srcH - 1) as real / boxH as real;
    }
    assert 0.0 <= boxW as real * s;
    assert 0.0 <= boxH as real * s;
  }

  // ---------------------------------------------------------------- AntiSpoofPredict._load_model

  /** `key[7:]`: drops the first seven characters (the length of `module.`). */
  function StripPrefix(key: string): string
  {
    if |key| >= 7 then key[7..] else ""
  }

  /** The dict a sequence of `(key, value)` pairs builds; a later key overwrites an earlier one. */
  function AsMap<V>(items: seq<(string, V)>): (m: map<string, V>)
    ensures m.Keys == set i | 0 <= i < |items| :: items[i].0
  {
    if items == [] then map[]
    else
      var m := AsMap(items[..|items| - 1]);
      var last := items[|items| - 1];
      assert forall i :: 0 <= i < |items| - 1 ==> items[..|items| - 1][i] == items[i];
      m[last.0 := last.1]
  }

  /** The renamed state dict: every key loses its first seven characters. */
  function Renamed<V>(items: seq<(string, V)>): seq<(string, V)>
  {
    seq(|items|, i requires 0 <= i < |items| => (StripPrefix(items[i].0), items[i].1))
  }

  /** Keys as `torch.nn.DataParallel` saves them. */
  function WithModulePrefix<V>(items: seq<(string, V)>): seq<(string, V)>
  {
    seq(|items|, i requires 0 <= i < |items| => ("module." + items[i].0, items[i].1))
  }

  datatype LoadError = StopIteration

  /**
   * The state dict `_load_model` hands to `load_state_dict`. Reading the first key of an
   * empty dict raises. If the first key contains `module.` anywhere, every key is cut.
   */
  method LoadStateDict<V>(stateDict: seq<(string, V)>) returns (r: Result<map<string, V>, LoadError>)
    ensures stateDict == [] <==> r == Err(StopIteration)
    ensures stateDict != [] && Find(stateDict[0].0, "module.").Some? ==> r == Ok(AsMap(Renamed(stateDict)))
    ensures stateDict != [] && Find(stateDict[0].0, "module.").None? ==> r == Ok(AsMap(stateDict))
  {
    if stateDict == [] {
      return Err(StopIteration);
    }
    var firstLayerName := stateDict[0].0;
    if Find(firstLayerName, "module.").Some? {
      var newStateDict: map<string, V> := map[];
      for i := 0 to |stateDict|
        invariant newStateDict == AsMap(Renamed(stateDict[..i]))
      {
        var (key, value) := stateDict[i];
        var nameKey := StripPrefix(key);
        newStateDict := newStateDict[nameKey := value];
        assert Renamed(stateDict[..i + 1]) == Renamed(stateDict[..i]) + [(nameKey, value)];
        assert Renamed(stateDict[..i + 1])[..i] == Renamed(stateDict[..i]);
      }
      assert stateDict[..|stateDict|] == stateDict;
      return Ok(newStateDict);
    }
    return Ok(AsMap(stateDict));
  }

  /** A DataParallel checkpoint's first key always has `module.` at position 0. */
  lemma ModulePrefixFound(key: string)
    ensures Find("module." + key, "module.") == Some(0)
  {
    assert OccursAt("module." + key, "module.", 0) by {
      assert ("module." + key)[..7] == "module.";
    }
  }

  /** Renaming undoes the DataParallel prefix: the renamed dict is the one the plain model saves. */
  lemma {:induction false} RenamedUndoesPrefix<V>(items: seq<(string, V)>)
    ensures AsMap(Renamed(WithModulePrefix(items))) == AsMap(items)
  {
    if items != [] {
      var n := |items|;
      RenamedUndoesPrefix(items[..n - 1]);
      assert Renamed(WithModulePrefix(items))[..n - 1] == Renamed(WithModulePrefix(items[..n - 1]));
      assert StripPrefix("module." + items[n - 1].0) == items[n - 1].0 by {
        assert |"module."| == 7;
        assert ("module." + items[n - 1].0)[7..] == items[n - 1].0;
      }
    }
  }
}
