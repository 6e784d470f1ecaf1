/**
 * The refresh rule of `RandomBoundingBoxGenerator`
 * (facial-service/app/controller/facial_service/algorithm.py). The random boxes and the
 * clock readings are inputs; only when the boxes are regenerated is modelled.
 */
module BoxGenerator {
  import opened Numeric
  import opened Wrappers

  /** A box in normalized coordinates `(x1, y1, x2, y2)`. */
  datatype NormBox = NormBox(x1: real, y1: real, x2: real, y2: real)

  class RandomBoundingBoxGenerator {
    var boundingBoxes: seq<NormBox>
    var lastGeneratedTime: Option<real>
    const intervalTime: real

    constructor (intervalTime: real)
      ensures boundingBoxes == [] && lastGeneratedTime == None && this.intervalTime == intervalTime
    {
      boundingBoxes := [];
      lastGeneratedTime := None;
      this.intervalTime := intervalTime;
    }

    /** The boxes are stale when none were generated yet or the interval has elapsed. */
    predicate Expired(now: real)
      reads this
    {
      lastGeneratedTime.None? || now - lastGeneratedTime.value > intervalTime
    }

    /**
     * `get_bounding_boxes`: `now` is the clock reading at the call; when the boxes are stale,
     * `fresh` is the new random pair and `generatedAt` the clock reading at its end.
     */
    method GetBoundingBoxes(now: real, freshBoxes: seq<NormBox>, generatedAt: real)
      returns (boxes: seq<NormBox>, expiresIn: int)
      modifies this
      ensures old(Expired(now)) ==> boundingBoxes == freshBoxes && lastGeneratedTime == Some(generatedAt)
      ensures !old(Expired(now)) ==> boundingBoxes == old(boundingBoxes) && lastGeneratedTime == old(lastGeneratedTime)
      ensures lastGeneratedTime.Some?
      ensures boxes == boundingBoxes
      ensures expiresIn == Trunc(intervalTime - (now - lastGeneratedTime.value))
      ensures !old(Expired(now)) ==> 0 <= expiresIn
      ensures old(Expired(now)) && now <= generatedAt ==> Trunc(intervalTime) <= expiresIn
    {
      if Expired(now) {
        boundingBoxes := freshBoxes;
        lastGeneratedTime := Some(generatedAt);
        if now <= generatedAt {
          TruncMonotone(intervalTime, intervalTime - (now - generatedAt));
        }
      }
      expiresIn := Trunc(intervalTime - (now - lastGeneratedTime.value));
      boxes := boundingBoxes;
    }
  }
}
