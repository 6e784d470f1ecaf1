/**
 * Face selection in `FaceRecognition`
 * (facial-service/app/controller/facial_service/algorithm.py). The detector is opaque:
 * its boxes and keypoint sets are inputs; alignment (`norm_crop`) and feature
 * extraction are not modelled, so a selected face is returned as its detection.
 */
module FaceRecognition {
  import opened Numeric
  import opened Wrappers

  /** A detector box `(x1, y1, x2, y2, score)` in float pixels. */
  datatype ScoredBox = ScoredBox(x1: real, y1: real, x2: real, y2: real, score: real)

  /** One detected face: its box and its keypoint set. */
  datatype Face<K> = Face(box: ScoredBox, kps: K)

  /** What the detector returns: status 0, or status 1 with the detected faces. */
  datatype Detection<K> = NotFound | Found(faces: seq<Face<K>>)

  datatype Failure = FaceNotFound | IndexError

  /** The integer area `int(x2 - x1) * int(y2 - y1)` the selection compares. */
  function BoxArea(b: ScoredBox): int
  {
    Trunc(b.x2 - b.x1) * Trunc(b.y2 - b.y1)
  }

  /**
   * Index `i` is the one the selection loop ends on: the first box of strictly largest
   * positive area, or 0 when no box has a positive area.
   */
  ghost predicate IsBiggestFace(boxes: seq<ScoredBox>, i: nat)
  {
    if forall j :: 0 <= j < |boxes| ==> BoxArea(boxes[j]) <= 0 then i == 0
    else
      && i < |boxes|
      && (forall j :: 0 <= j < |boxes| ==> BoxArea(boxes[j]) <= BoxArea(boxes[i]))
      && (forall j :: 0 <= j < i ==> BoxArea(boxes[j]) < BoxArea(boxes[i]))
  }

  /** At most one index satisfies `IsBiggestFace`: the selection is determined by the boxes. */
  lemma BiggestFaceIsUnique(boxes: seq<ScoredBox>, i: nat, k: nat)
    requires IsBiggestFace(boxes, i) && IsBiggestFace(boxes, k)
    ensures i == k
  {
  }

  /** The loop of `detect_biggest_face` over the box list. */
  method BiggestFaceIndex(boxes: seq<ScoredBox>) returns (index: nat)
    ensures IsBiggestFace(boxes, index)
    ensures index == 0 || index < |boxes|
  {
    index := 0;
    var maxBox := 0;
    for i := 0 to |boxes|
      invariant index == 0 || index < i
      invariant maxBox >= 0
      invariant forall j :: 0 <= j < i ==> BoxArea(boxes[j]) <= maxBox
      invariant maxBox == 0 ==> index == 0
      invariant maxBox > 0 ==> index < i && BoxArea(boxes[index]) == maxBox
      invariant maxBox > 0 ==> forall j :: 0 <= j < index ==> BoxArea(boxes[j]) < maxBox
    {
      var sizeBox := BoxArea(boxes[i]);
      if sizeBox > maxBox {
        index := i;
        maxBox := sizeBox;
      }
    }
  }

  /**
   * `detect_biggest_face`: `FACE_NOT_FOUND` on status 0; otherwise the keypoint set
   * at the selected index (an empty face list makes `kpss[0]` fail).
   */
  method DetectBiggestFace<K>(d: Detection<K>) returns (r: Result<K, Failure>)
    ensures d.NotFound? ==> r == Err(FaceNotFound)
    ensures d.Found? && d.faces == [] ==> r == Err(IndexError)
    ensures d.Found? && d.faces != [] ==>
      r.Ok? && exists i :: 0 <= i < |d.faces| && IsBiggestFace(Boxes(d.faces), i) && r.value == d.faces[i].kps
  {
    if d.NotFound? {
      return Err(FaceNotFound);
    }
    var index := BiggestFaceIndex(Boxes(d.faces));
    if index < |d.faces| {
      r := Ok(d.faces[index].kps);
    } else {
      r := Err(IndexError);
    }
  }

  function Boxes<K>(faces: seq<Face<K>>): (r: seq<ScoredBox>)
    ensures |r| == |faces| && forall i :: 0 <= i < |faces| ==> r[i] == faces[i].box
  {
    seq(|faces|, i requires 0 <= i < |faces| => faces[i].box)
  }

  /** The size filter of `detect_faces`: width and height both above `MIN_SIZE_FACE`. */
  predicate LargeEnough(b: ScoredBox, minSizeFace: int)
  {
    b.x2 - b.x1 > minSizeFace as real && b.y2 - b.y1 > minSizeFace as real
  }

  /** The faces the filter keeps, in detector order. */
  function LargeFaces<K>(faces: seq<Face<K>>, minSizeFace: int): seq<Face<K>>
  {
    if faces == [] then []
    else LargeFaces(faces[..|faces| - 1], minSizeFace)
         + (if LargeEnough(faces[|faces| - 1].box, minSizeFace) then [faces[|faces| - 1]] else [])
  }

  /** A face is kept exactly when it was detected and passes the size filter. */
  lemma {:induction false} LargeFacesExact<K>(faces: seq<Face<K>>, minSizeFace: int, f: Face<K>)
    ensures f in LargeFaces(faces, minSizeFace) <==> f in faces && LargeEnough(f.box, minSizeFace)
  {
    if faces != [] {
      LargeFacesExact(faces[..|faces| - 1], minSizeFace, f);
      assert faces == faces[..|faces| - 1] + [faces[|faces| - 1]];
    }
  }

  /** `detect_faces`: status 0 gives `FACE_NOT_FOUND`; otherwise the faces of sufficient size. */
  method DetectFaces<K>(d: Detection<K>, minSizeFace: int) returns (r: Result<seq<Face<K>>, Failure>)
    ensures d.NotFound? <==> r.Err?
    ensures r.Err? ==> r.error == FaceNotFound
    ensures d.Found? ==> r.value == LargeFaces(d.faces, minSizeFace)
    ensures d.Found? ==> |r.value| <= |d.faces|
  {
    if d.NotFound? {
      return Err(FaceNotFound);
    }
    var cropFaces := [];
    for i := 0 to |d.faces|
      invariant cropFaces == LargeFaces(d.faces[..i], minSizeFace)
      invariant |cropFaces| <= i
    {
      assert d.faces[..i + 1][..i] == d.faces[..i];
      if LargeEnough(d.faces[i].box, minSizeFace) {
        cropFaces := cropFaces + [d.faces[i]];
      }
    }
    assert d.faces[..|d.faces|] == d.faces;
    r := Ok(cropFaces);
  }
}
