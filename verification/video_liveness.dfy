/**
 * The video liveness pipeline `DetectSpoofVideo`
 * (facial-service/app/controller/facial_service/algorithm.py).
 *
 * The face detector, the per-frame spoof classifier's networks and the SSIM score are
 * opaque functions given to the object; the random frame choices are arguments. The four
 * checks that the source runs in threads write disjoint fields and are all joined before
 * the verdict is fused, so they are run one after the other here.
 */
module VideoLiveness {
  import opened Numeric
  import opened Wrappers
  import opened AntiSpoof

  type pos = x: int | x > 0 witness 1

  /** A decoded frame: its dimensions and an identity standing for its pixels. */
  datatype Frame = Frame(height: pos, width: pos, id: nat)

  /** The outcome of comparing one pair of frames. */
  datatype SimilarityVerdict = Duplicate | Different | TrueImage | InvalidSize

  datatype Direction = Frontal | Left | Right

  /** A detector's integer box `[x1, y1, x2, y2]`. */
  datatype IntBox = IntBox(x1: int, y1: int, x2: int, y2: int)

  /**
   * What the face detector reports for a frame: its box and the two angles that
   * `calculate_angle` derives from the first three keypoints.
   */
  datatype FaceObs = FaceObs(box: IntBox, angRight: real, angLeft: real)

  /** `np.mean` of the face-area ratios: NaN when no frame had a face. */
  datatype AreaRatio = NaN | Ratio(value: real)

  /** Two frame positions drawn by `random.sample(frame_list, 2)`. */
  datatype Pick = Pick(first: nat, second: nat)

  datatype FramePair = FramePair(a: Frame, b: Frame)

  /** The configuration knobs the pipeline reads. */
  datatype Config = Config(
    skipFrame: int,
    numFrameCheck: int,
    numberCheckDuplicate: int,
    thresholdDuplicate: real,
    thresholdDifferent: real,
    faceAreaThresholdPose: real,
    faceAreaThresholdNoPose: real,
    voteThreshold: real,
    classifier: AntiSpoof.Config)

  // ---------------------------------------------------------------- frame selection

  /** The frames whose 0-based position is a multiple of `skip`, in order. */
  function Subsample(s: seq<Frame>, skip: int): (r: seq<Frame>)
    requires skip != 0
    ensures |r| <= |s|
    ensures s != [] ==> r != [] && r[0] == s[0]
  {
    if s == [] then []
    else Subsample(s[..|s| - 1], skip) + (if (|s| - 1) % skip == 0 then [s[|s| - 1]] else [])
  }

  lemma DivStep(q: int, c: int, d: int)
    requires d > 0 && 0 <= c < d
    ensures (q * d + c) / d == q
  {
    var x := q * d + c;
    var k := x / d;
    var m := x % d;
    assert x == d * k + m;
    assert d * (k - q) == c - m;
    if k - q >= 1 {
      MulAtLeast(d, k - q);
    } else if k - q <= -1 {
      MulAtLeast(d, q - k);
    }
  }

  lemma MulAtLeast(d: int, k: int)
    requires d > 0 && k >= 1
    ensures d * k >= d
  {
  }

  /** One more position adds one more kept frame exactly when it is a multiple of `skip`. */
  lemma CeilDivStep(m: nat, skip: int)
    requires skip > 0
    ensures (m + skip) / skip == (m + skip - 1) / skip + (if m % skip == 0 then 1 else 0)
  {
    var q, r := m / skip, m % skip;
    assert m == q * skip + r;
    if r == 0 {
      assert m + skip - 1 == q * skip + (skip - 1);
      DivStep(q, skip - 1, skip);
      assert m + skip == (q + 1) * skip + 0;
      DivStep(q + 1, 0, skip);
    } else {
      assert m + skip - 1 == (q + 1) * skip + (r - 1);
      DivStep(q + 1, r - 1, skip);
      assert m + skip == (q + 1) * skip + r;
      DivStep(q + 1, r, skip);
    }
  }

  /** Subsampling keeps `ceil(n / skip)` frames. */
  lemma {:induction false} SubsampleLength(s: seq<Frame>, skip: int)
    requires skip > 0
    ensures |Subsample(s, skip)| == (|s| + skip - 1) / skip
  {
    if s != [] {
      var n := |s|;
      var p := s[..n - 1];
      SubsampleLength(p, skip);
      CeilDivStep(n - 1, skip);
      assert |Subsample(s, skip)| == |Subsample(p, skip)| + (if (n - 1) % skip == 0 then 1 else 0);
    }
  }

  /** The k-th frame kept is frame `k * skip`. */
  lemma {:induction false} SubsampleAt(s: seq<Frame>, skip: int, k: nat)
    requires skip > 0 && k < |Subsample(s, skip)|
    ensures k * skip < |s| && Subsample(s, skip)[k] == s[k * skip]
  {
    var n := |s|;
    var p := s[..n - 1];
    var sp := Subsample(p, skip);
    assert Subsample(s, skip) == sp + (if (n - 1) % skip == 0 then [s[n - 1]] else []);
    if k < |sp| {
      SubsampleAt(p, skip, k);
      var j := k * skip;
      assert Subsample(s, skip)[k] == sp[k] == p[j] == s[j];
    } else {
      SubsampleLength(p, skip);
      var q := (n - 1) / skip;
      assert n - 1 == q * skip;
      DivStep(q, skip - 1, skip);
      assert k == q;
      assert Subsample(s, skip)[k] == s[n - 1];
    }
  }

  /** The frames drawn by `random.sample(frames, k)`, given the positions it drew. */
  function Sampled(frames: seq<Frame>, sample: seq<nat>): (r: seq<Frame>)
    requires forall k :: 0 <= k < |sample| ==> sample[k] < |frames|
    ensures |r| == |sample|
  {
    seq(|sample|, k requires 0 <= k < |sample| => frames[sample[k]])
  }

  /** What `random.sample(frames, k)` can draw: `k` distinct positions. */
  predicate IsSample(sample: seq<nat>, n: nat, k: int)
  {
    && |sample| == k
    && (forall i :: 0 <= i < |sample| ==> sample[i] < n)
    && (forall i, j :: 0 <= i < j < |sample| ==> sample[i] != sample[j])
  }

  // ---------------------------------------------------------------- duplicate-frame check

  predicate ValidPick(p: Pick, n: nat)
  {
    p.first < n && p.second < n && p.first != p.second
  }

  function PickedPairs(frames: seq<Frame>, picks: seq<Pick>): (r: seq<FramePair>)
    requires forall k :: 0 <= k < |picks| ==> ValidPick(picks[k], |frames|)
    ensures |r| == |picks|
  {
    seq(|picks|, k requires 0 <= k < |picks| =>
      assert ValidPick(picks[k], |frames|);
      FramePair(frames[picks[k].first], frames[picks[k].second]))
  }

  /** One comparison: sizes must match, then SSIM is set against the two thresholds. */
  function ClassifyPair(cfg: Config, p: FramePair, ssim: (Frame, Frame) -> real): (r: SimilarityVerdict)
    ensures r == InvalidSize <==> p.a.height != p.b.height || p.a.width != p.b.width
    ensures r == Duplicate ==> ssim(p.a, p.b) > cfg.thresholdDuplicate
    ensures r == Different ==> ssim(p.a, p.b) < cfg.thresholdDifferent
    ensures r == TrueImage ==> cfg.thresholdDifferent <= ssim(p.a, p.b) <= cfg.thresholdDuplicate
    ensures r != InvalidSize && ssim(p.a, p.b) > cfg.thresholdDuplicate ==> r == Duplicate
  {
    if p.a.height == p.b.height && p.a.width == p.b.width then
      var score := ssim(p.a, p.b);
      if score > cfg.thresholdDuplicate then Duplicate
      else if score < cfg.thresholdDifferent then Different
      else TrueImage
    else InvalidSize
  }

  /** The verdicts recorded for the drawn pairs; recording stops after the first `InvalidSize`. */
  function Verdicts(cfg: Config, pairs: seq<FramePair>, ssim: (Frame, Frame) -> real): (r: seq<SimilarityVerdict>)
    ensures |r| <= |pairs|
    ensures pairs != [] ==> r != [] && r[0] == ClassifyPair(cfg, pairs[0], ssim)
  {
    if pairs == [] then []
    else
      var v := ClassifyPair(cfg, pairs[0], ssim);
      if v == InvalidSize then [v] else [v] + Verdicts(cfg, pairs[1..], ssim)
  }

  /**
   * The validity rule: no `InvalidSize`, exactly `NUMBER_CHECK_DUPLICATE` verdicts, and
   * at least half of them `TrueImage`.
   */
  predicate SimilarityValid(cfg: Config, vs: seq<SimilarityVerdict>): (b: bool)
    ensures b ==> |vs| == cfg.numberCheckDuplicate && forall k :: 0 <= k < |vs| ==> vs[k] != InvalidSize
    ensures b && |vs| > 0 ==> TrueImage in vs
  {
    && InvalidSize !in vs
    && |vs| == cfg.numberCheckDuplicate
    && multiset(vs)[TrueImage] as real >= 0.5 * |vs| as real
  }

  /** The verdicts from pair `i` on: the verdict of pair `i`, then the rest unless it was `InvalidSize`. */
  lemma VerdictsFrom(cfg: Config, pairs: seq<FramePair>, ssim: (Frame, Frame) -> real, i: nat)
    requires i < |pairs|
    ensures var v := ClassifyPair(cfg, pairs[i], ssim);
      Verdicts(cfg, pairs[i..], ssim) == [v] + (if v == InvalidSize then [] else Verdicts(cfg, pairs[i + 1..], ssim))
  {
    assert pairs[i..][0] == pairs[i];
    assert pairs[i..][1..] == pairs[i + 1..];
  }

  /** While no `InvalidSize` has been recorded, the verdicts of a prefix extend to the whole. */
  lemma {:induction false} VerdictsSplit(cfg: Config, pairs: seq<FramePair>, ssim: (Frame, Frame) -> real, i: nat)
    requires i <= |pairs|
    requires InvalidSize !in Verdicts(cfg, pairs[..i], ssim)
    ensures Verdicts(cfg, pairs, ssim) == Verdicts(cfg, pairs[..i], ssim) + Verdicts(cfg, pairs[i..], ssim)
  {
    if i > 0 {
      assert pairs[..i][0] == pairs[0];
      assert pairs[..i][1..] == pairs[1..][..i - 1];
      assert pairs[i..] == pairs[1..][i - 1..];
      VerdictsSplit(cfg, pairs[1..], ssim, i - 1);
    } else {
      assert pairs[i..] == pairs;
    }
  }

  /**
   * The shape of the recorded verdicts: at most one per pair, `InvalidSize` only last,
   * and fewer verdicts than pairs only when the loop stopped on an `InvalidSize`.
   */
  lemma {:induction false} VerdictsShape(cfg: Config, pairs: seq<FramePair>, ssim: (Frame, Frame) -> real)
    ensures var vs := Verdicts(cfg, pairs, ssim);
      && |vs| <= |pairs|
      && (forall k :: 0 <= k < |vs| - 1 ==> vs[k] != InvalidSize)
      && (|vs| < |pairs| ==> |vs| > 0 && vs[|vs| - 1] == InvalidSize)
      && (forall k :: 0 <= k < |vs| ==> vs[k] == ClassifyPair(cfg, pairs[k], ssim))
  {
    if pairs != [] {
      VerdictsShape(cfg, pairs[1..], ssim);
    }
  }

  /** A size mismatch in any drawn pair makes the duplicate check fail. */
  lemma {:induction false} SizeMismatchInvalidates(cfg: Config, pairs: seq<FramePair>, ssim: (Frame, Frame) -> real, k: nat)
    requires k < |pairs|
    requires pairs[k].a.height != pairs[k].b.height || pairs[k].a.width != pairs[k].b.width
    ensures InvalidSize in Verdicts(cfg, pairs, ssim)
    ensures !SimilarityValid(cfg, Verdicts(cfg, pairs, ssim))
  {
    if k > 0 && ClassifyPair(cfg, pairs[0], ssim) != InvalidSize {
      SizeMismatchInvalidates(cfg, pairs[1..], ssim, k - 1);
    }
  }

  /**
   * A replayed still photo: every drawn pair has equal sizes and an SSIM above the
   * duplicate threshold. With at least one comparison configured, the check fails.
   */
  lemma {:induction false} StaticReplayInvalid(cfg: Config, pairs: seq<FramePair>, ssim: (Frame, Frame) -> real)
    requires |pairs| > 0
    requires forall k :: 0 <= k < |pairs| ==>
      pairs[k].a.height == pairs[k].b.height && pairs[k].a.width == pairs[k].b.width
      && ssim(pairs[k].a, pairs[k].b) > cfg.thresholdDuplicate
    ensures !SimilarityValid(cfg, Verdicts(cfg, pairs, ssim))
  {
    var vs := Verdicts(cfg, pairs, ssim);
    VerdictsShape(cfg, pairs, ssim);
    AllDuplicate(cfg, pairs, ssim);
    assert multiset(vs)[TrueImage] == 0;
  }

  lemma {:induction false} AllDuplicate(cfg: Config, pairs: seq<FramePair>, ssim: (Frame, Frame) -> real)
    requires forall k :: 0 <= k < |pairs| ==>
      pairs[k].a.height == pairs[k].b.height && pairs[k].a.width == pairs[k].b.width
      && ssim(pairs[k].a, pairs[k].b) > cfg.thresholdDuplicate
    ensures Verdicts(cfg, pairs, ssim) == seq(|pairs|, _ => Duplicate)
  {
    if pairs != [] {
      AllDuplicate(cfg, pairs[1..], ssim);
    }
  }

  /** A passing duplicate check compared every drawn pair, and every one had matching sizes. */
  lemma ValidMeansAllCompared(cfg: Config, pairs: seq<FramePair>, ssim: (Frame, Frame) -> real)
    requires |pairs| == cfg.numberCheckDuplicate
    requires SimilarityValid(cfg, Verdicts(cfg, pairs, ssim))
    ensures |Verdicts(cfg, pairs, ssim)| == |pairs|
    ensures forall k :: 0 <= k < |pairs| ==> pairs[k].a.height == pairs[k].b.height && pairs[k].a.width == pairs[k].b.width
  {
    VerdictsShape(cfg, pairs, ssim);
    var vs := Verdicts(cfg, pairs, ssim);
    forall k | 0 <= k < |pairs|
      ensures pairs[k].a.height == pairs[k].b.height && pairs[k].a.width == pairs[k].b.width
    {
      assert vs[k] in vs;
    }
  }

  // ---------------------------------------------------------------- head direction

  /**
   * FRONTAL when `int(ang_right)` is in 35..56 and `int(ang_left)` in 35..57; otherwise
   * LEFT when `ang_right < ang_left`, else RIGHT.
   */
  function DirectionOf(o: FaceObs): (d: Direction)
    ensures d == Frontal <==> 35.0 <= o.angRight < 57.0 && 35.0 <= o.angLeft < 58.0
    ensures d == Left <==> !(35.0 <= o.angRight < 57.0 && 35.0 <= o.angLeft < 58.0) && o.angRight < o.angLeft
  {
    if 35 <= Trunc(o.angRight) <= 56 && 35 <= Trunc(o.angLeft) <= 57 then Frontal
    else if o.angRight < o.angLeft then Left
    else Right
  }

  /** How many frames the direction loop gets through: it dies on the first frame without a face. */
  function Reached(frames: seq<Frame>, detect: Frame -> Option<FaceObs>): (n: nat)
    ensures n <= |frames|
    ensures forall i :: 0 <= i < n ==> detect(frames[i]).Some?
    ensures n < |frames| ==> detect(frames[n]).None?
  {
    if frames == [] || detect(frames[0]).None? then 0 else 1 + Reached(frames[1..], detect)
  }

  function Directions(frames: seq<Frame>, detect: Frame -> Option<FaceObs>): (ds: seq<Direction>)
    requires forall i :: 0 <= i < |frames| ==> detect(frames[i]).Some?
    ensures |ds| == |frames|
  {
    seq(|frames|, i requires 0 <= i < |frames| => DirectionOf(detect(frames[i]).value))
  }

  /** The frame stored as `frontal_face_image`: the last frame classified FRONTAL. */
  function LastFrontal(frames: seq<Frame>, ds: seq<Direction>): (r: Option<Frame>)
    requires |frames| == |ds|
    ensures r.Some? ==> r.value in frames
    ensures ds != [] && ds[|ds| - 1] == Frontal ==> r == Some(frames[|frames| - 1])
  {
    if frames == [] then None
    else if ds[|ds| - 1] == Frontal then Some(frames[|frames| - 1])
    else LastFrontal(frames[..|frames| - 1], ds[..|ds| - 1])
  }

  /** The stored frame is a FRONTAL one and no later frame is FRONTAL; none is stored iff none is FRONTAL. */
  lemma {:induction false} LastFrontalIsLast(frames: seq<Frame>, ds: seq<Direction>)
    requires |frames| == |ds|
    ensures LastFrontal(frames, ds).None? <==> Frontal !in ds
    ensures LastFrontal(frames, ds).Some? ==>
      exists i :: 0 <= i < |ds| && ds[i] == Frontal && frames[i] == LastFrontal(frames, ds).value
        && forall j :: i < j < |ds| ==> ds[j] != Frontal
  {
    if frames != [] {
      var n := |frames|;
      LastFrontalIsLast(frames[..n - 1], ds[..n - 1]);
      assert ds == ds[..n - 1] + [ds[n - 1]];
      if ds[n - 1] != Frontal && LastFrontal(frames, ds).Some? {
        var i :| 0 <= i < n - 1 && ds[..n - 1][i] == Frontal && frames[..n - 1][i] == LastFrontal(frames, ds).value
          && forall j :: i < j < n - 1 ==> ds[j] != Frontal;
        assert ds[i] == Frontal && frames[i] == LastFrontal(frames, ds).value;
      }
    }
  }

  /** Each of the three directions occurs at least once. */
  predicate Enough(ds: seq<Direction>): (b: bool)
    ensures b <==> Frontal in ds && Left in ds && Right in ds
    ensures b ==> |ds| >= 3
  {
    multiset(ds)[Frontal] > 0 && multiset(ds)[Left] > 0 && multiset(ds)[Right] > 0
  }

  /** A head that never turns (every frame FRONTAL) is never enough. */
  lemma StillHeadNotEnough(ds: seq<Direction>)
    requires forall i :: 0 <= i < |ds| ==> ds[i] == Frontal
    ensures !Enough(ds)
  {
    assert Left !in ds;
  }

  // ---------------------------------------------------------------- face area

  function FrameArea(f: Frame): int
  {
    f.height * f.width
  }

  function FaceRatio(o: FaceObs, frameArea: pos): real
  {
    ((o.box.x2 - o.box.x1) * (o.box.y2 - o.box.y1)) as real / frameArea as real
  }

  /** The ratios of the frames with a detected face, in frame order; faceless frames are skipped. */
  function AreaRatios(frames: seq<Frame>, detect: Frame -> Option<FaceObs>, frameArea: pos): (r: seq<real>)
    ensures |r| <= |frames|
    ensures (forall i :: 0 <= i < |frames| ==> detect(frames[i]).Some?) ==> |r| == |frames|
    ensures (forall i :: 0 <= i < |frames| ==> detect(frames[i]).None?) ==> r == []
  {
    if frames == [] then []
    else
      AreaRatios(frames[..|frames| - 1], detect, frameArea)
      + match detect(frames[|frames| - 1])
        case None => []
        case Some(o) => [FaceRatio(o, frameArea)]
  }

  /** The ratios of two runs of frames are the ratios of each, one after the other. */
  lemma {:induction false} AreaRatiosAppend(a: seq<Frame>, b: seq<Frame>, detect: Frame -> Option<FaceObs>, frameArea: pos)
    ensures AreaRatios(a + b, detect, frameArea) == AreaRatios(a, detect, frameArea) + AreaRatios(b, detect, frameArea)
  {
    if b != [] {
      var n := |b|;
      assert (a + b)[..|a + b| - 1] == a + b[..n - 1];
      AreaRatiosAppend(a, b[..n - 1], detect, frameArea);
    } else {
      assert a + b == a;
    }
  }

  /** A frame without a face, wherever it stands, changes nothing: it is skipped, not counted as 0. */
  lemma FacelessFrameSkipped(a: seq<Frame>, f: Frame, b: seq<Frame>, detect: Frame -> Option<FaceObs>, frameArea: pos)
    requires detect(f).None?
    ensures AreaRatios(a + [f] + b, detect, frameArea) == AreaRatios(a + b, detect, frameArea)
  {
    AreaRatiosAppend(a + [f], b, detect, frameArea);
    AreaRatiosAppend(a, [f], detect, frameArea);
    AreaRatiosAppend(a, b, detect, frameArea);
    assert [f][..0] == [];
  }

  /** The number of ratios is the number of frames with a face. */
  lemma {:induction false} AreaRatiosCount(frames: seq<Frame>, detect: Frame -> Option<FaceObs>, frameArea: pos)
    ensures |AreaRatios(frames, detect, frameArea)| == |set i | 0 <= i < |frames| && detect(frames[i]).Some?|
  {
    if frames != [] {
      var n := |frames|;
      var p := frames[..n - 1];
      AreaRatiosCount(p, detect, frameArea);
      var sp := set i | 0 <= i < n - 1 && detect(p[i]).Some?;
      var s := set i | 0 <= i < n && detect(frames[i]).Some?;
      assert forall i :: 0 <= i < n - 1 ==> p[i] == frames[i];
      assert forall i :: i in s && i != n - 1 <==> i in sp;
      if detect(frames[n - 1]).Some? {
        assert s == sp + {n - 1};
      } else {
        assert s == sp;
      }
    }
  }

  function MeanRatio(rs: seq<real>): AreaRatio
  {
    if rs == [] then NaN else Ratio(Mean(rs))
  }

  /** `ratio < threshold`; a NaN ratio compares false. */
  predicate TooFar(ratio: AreaRatio, threshold: real)
  {
    ratio.Ratio? && ratio.value < threshold
  }

  /** When every detected face covers at least `t` of the frame, the face is not too far for threshold `t`. */
  lemma CloseFacesNotTooFar(frames: seq<Frame>, detect: Frame -> Option<FaceObs>, frameArea: pos, t: real)
    requires forall i :: 0 <= i < |frames| && detect(frames[i]).Some? ==> FaceRatio(detect(frames[i]).value, frameArea) >= t
    ensures !TooFar(MeanRatio(AreaRatios(frames, detect, frameArea)), t)
  {
    var rs := AreaRatios(frames, detect, frameArea);
    if rs != [] {
      AreaRatiosAtLeast(frames, detect, frameArea, t);
      MeanAtLeast(rs, t);
    }
  }

  lemma {:induction false} AreaRatiosAtLeast(frames: seq<Frame>, detect: Frame -> Option<FaceObs>, frameArea: pos, t: real)
    requires forall i :: 0 <= i < |frames| && detect(frames[i]).Some? ==> FaceRatio(detect(frames[i]).value, frameArea) >= t
    ensures forall k :: 0 <= k < |AreaRatios(frames, detect, frameArea)| ==> t <= AreaRatios(frames, detect, frameArea)[k]
  {
    if frames != [] {
      AreaRatiosAtLeast(frames[..|frames| - 1], detect, frameArea, t);
    }
  }

  // ---------------------------------------------------------------- per-frame classification

  function Labels(frames: seq<Frame>, observe: Frame -> Observation, c: AntiSpoof.Config): (r: seq<Label>)
    ensures |r| == |frames|
  {
    seq(|frames|, i requires 0 <= i < |frames| => Predict(c, observe(frames[i])).verdict)
  }

  function Scores(frames: seq<Frame>, observe: Frame -> Observation, c: AntiSpoof.Config): (r: seq<real>)
    ensures |r| == |frames|
  {
    seq(|frames|, i requires 0 <= i < |frames| => Predict(c, observe(frames[i])).score)
  }

  // ---------------------------------------------------------------- the decision fuser

  /** The face-area threshold: the pose one whenever pose checking is requested (any non-zero value). */
  function AreaThreshold(cfg: Config, isPoseCheck: int): (t: real)
    ensures isPoseCheck != 0 ==> t == cfg.faceAreaThresholdPose
    ensures isPoseCheck == 0 ==> t == cfg.faceAreaThresholdNoPose
  {
    if isPoseCheck != 0 then cfg.faceAreaThresholdPose else cfg.faceAreaThresholdNoPose
  }

  /** The fraction of sampled frames labelled LIVE. */
  function LiveFraction(statuses: seq<Label>): (f: real)
    requires |statuses| > 0
    ensures 0.0 <= f <= 1.0
    ensures f == 0.0 <==> Live !in statuses
    ensures f == 1.0 <==> forall i :: 0 <= i < |statuses| ==> statuses[i] == Live
  {
    CountAll(statuses, Live);
    multiset(statuses)[Live] as real / |statuses| as real
  }

  /** `x` occurs at most `|s|` times in `s`, and exactly `|s|` times iff every element is `x`. */
  lemma {:induction false} CountAll<T>(s: seq<T>, x: T)
    ensures multiset(s)[x] <= |s|
    ensures multiset(s)[x] == |s| <==> forall i :: 0 <= i < |s| ==> s[i] == x
  {
    if s != [] {
      var n := |s|;
      CountAll(s[..n - 1], x);
      assert s == s[..n - 1] + [s[n - 1]];
    }
  }

  /**
   * The fixed-priority fuser; rules are tried top to bottom and the first match wins.
   * The verdict starts from the route's empty result: no label, score 0, no error.
   */
  function FuseVideo(cfg: Config, isPoseCheck: int, similarityValid: bool, ratio: AreaRatio,
                     enoughDirection: bool, statuses: seq<Label>, scores: seq<real>): (r: SpoofResult)
    requires |statuses| > 0 && |scores| > 0
    ensures !similarityValid ==> r == SpoofResult(Spoof, 1.0, NoError, "")
    ensures r.errorCode != NoError ==> r.verdict == NoLabel && r.score == 0.0
    ensures r.errorCode == FaceTooFar <==> similarityValid && TooFar(ratio, AreaThreshold(cfg, isPoseCheck))
    ensures r.errorCode == NotEnoughFaceDirection <==>
      similarityValid && !TooFar(ratio, AreaThreshold(cfg, isPoseCheck)) && isPoseCheck == 1 && !enoughDirection
    ensures r.verdict == Live <==>
      similarityValid && !TooFar(ratio, AreaThreshold(cfg, isPoseCheck)) && (isPoseCheck != 1 || enoughDirection)
      && LiveFraction(statuses) > cfg.voteThreshold
    ensures r.verdict == Spoof <==>
      !similarityValid
      || (!TooFar(ratio, AreaThreshold(cfg, isPoseCheck)) && (isPoseCheck != 1 || enoughDirection)
          && !(LiveFraction(statuses) > cfg.voteThreshold))
    ensures r.errorCode == NoError && similarityValid ==> r.score == Mean(scores)
  {
    if !similarityValid then SpoofResult(Spoof, 1.0, NoError, "")
    else if TooFar(ratio, AreaThreshold(cfg, isPoseCheck)) then SpoofResult(NoLabel, 0.0, FaceTooFar, "face is too far away")
    else if !enoughDirection && isPoseCheck == 1 then SpoofResult(NoLabel, 0.0, NotEnoughFaceDirection, "not enough face direction")
    else if LiveFraction(statuses) > cfg.voteThreshold then SpoofResult(Live, Mean(scores), NoError, "")
    else SpoofResult(Spoof, Mean(scores), NoError, "")
  }

  /**
   * A replayed still photo is SPOOF with score 1.0 even when every sampled frame was
   * classified LIVE and every other check would pass: the duplicate veto comes first.
   */
  lemma ReplayVetoBeatsFrameVotes(cfg: Config, pairs: seq<FramePair>, ssim: (Frame, Frame) -> real,
                                  isPoseCheck: int, ratio: AreaRatio, enough: bool, scores: seq<real>, n: nat)
    requires |pairs| > 0 && n > 0 && |scores| > 0
    requires forall k :: 0 <= k < |pairs| ==>
      pairs[k].a.height == pairs[k].b.height && pairs[k].a.width == pairs[k].b.width
      && ssim(pairs[k].a, pairs[k].b) > cfg.thresholdDuplicate
    ensures FuseVideo(cfg, isPoseCheck, SimilarityValid(cfg, Verdicts(cfg, pairs, ssim)), ratio, enough,
                      seq(n, _ => Live), scores) == SpoofResult(Spoof, 1.0, NoError, "")
  {
    StaticReplayInvalid(cfg, pairs, ssim);
  }

  /** No face in any frame leaves a NaN ratio, which never triggers FACE_TOO_FAR. */
  lemma NoFaceAnywhereIsNotTooFar(frames: seq<Frame>, detect: Frame -> Option<FaceObs>, frameArea: pos, t: real)
    requires forall i :: 0 <= i < |frames| ==> detect(frames[i]).None?
    ensures !TooFar(MeanRatio(AreaRatios(frames, detect, frameArea)), t)
  {
    AreaRatiosCount(frames, detect, frameArea);
    var s := set i | 0 <= i < |frames| && detect(frames[i]).Some?;
    assert s == {};
  }

  /** The video is usable when the decoder's frames subsample to at least two. */
  predicate Decodable(allFrames: seq<Frame>, cfg: Config)
    requires cfg.skipFrame != 0
  {
    |Subsample(allFrames, cfg.skipFrame)| > 1
  }

  class DetectSpoofVideo {
    const cfg: Config
    /** `face_detector.predict`, reduced to the box and the two keypoint angles. */
    const detect: Frame -> Option<FaceObs>
    /** What the spoof classifier's detector and networks produce for a frame. */
    const observe: Frame -> Observation
    /** `structural_similarity` of two frames after resizing and grey conversion. */
    const ssim: (Frame, Frame) -> real

    var resultFrameStatus: seq<Label>
    var resultFrameScore: seq<real>
    var ratioFaceAreaToFrame: AreaRatio
    var isSimilarityImagesValid: bool
    var similarityImagesResult: seq<SimilarityVerdict>
    var resultFaceDirection: seq<Direction>
    var isEnoughDirectionFace: bool
    var frontalFaceImage: Option<Frame>

    constructor (cfg: Config, detect: Frame -> Option<FaceObs>, observe: Frame -> Observation, ssim: (Frame, Frame) -> real)
      ensures this.cfg == cfg && this.detect == detect && this.observe == observe && this.ssim == ssim
      ensures resultFrameStatus == [] && resultFrameScore == [] && ratioFaceAreaToFrame == Ratio(0.0)
      ensures !isSimilarityImagesValid && similarityImagesResult == []
      ensures resultFaceDirection == [] && !isEnoughDirectionFace && frontalFaceImage == None
    {
      this.cfg := cfg;
      this.detect := detect;
      this.observe := observe;
      this.ssim := ssim;
      resultFrameStatus := [];
      resultFrameScore := [];
      ratioFaceAreaToFrame := Ratio(0.0);
      isSimilarityImagesValid := false;
      similarityImagesResult := [];
      resultFaceDirection := [];
      isEnoughDirectionFace := false;
      frontalFaceImage := None;
    }

    /** `check_similarity_images`, with the pairs `random.sample` drew given as `picks`. */
    method CheckSimilarityImages(frames: seq<Frame>, picks: seq<Pick>)
      requires |picks| == IntMax(cfg.numberCheckDuplicate, 0)
      requires forall k :: 0 <= k < |picks| ==> ValidPick(picks[k], |frames|)
      modifies this`similarityImagesResult, this`isSimilarityImagesValid
      ensures similarityImagesResult == Verdicts(cfg, PickedPairs(frames, picks), ssim)
      ensures isSimilarityImagesValid == SimilarityValid(cfg, similarityImagesResult)
    {
      isSimilarityImagesValid := false;
      CompareDrawnPairs(PickedPairs(frames, picks));
      if InvalidSize !in similarityImagesResult && |similarityImagesResult| == cfg.numberCheckDuplicate {
        var totalTrue := multiset(similarityImagesResult)[TrueImage];
        if totalTrue as real >= 0.5 * |similarityImagesResult| as real {
          isSimilarityImagesValid := true;
        }
      }
    }

    /**
     * The comparison loop of `check_similarity_images`: one verdict per pair, and the
     * loop ends right after a size mismatch.
     */
    method CompareDrawnPairs(pairs: seq<FramePair>)
      modifies this`similarityImagesResult
      ensures similarityImagesResult == Verdicts(cfg, pairs, ssim)
    {
      similarityImagesResult := [];
      var i := 0;
      while i < |pairs|
        invariant 0 <= i <= |pairs|
        invariant Verdicts(cfg, pairs, ssim) == similarityImagesResult + Verdicts(cfg, pairs[i..], ssim)
      {
        var v := ClassifyPair(cfg, pairs[i], ssim);
        VerdictsFrom(cfg, pairs, ssim, i);
        if v == InvalidSize {
          similarityImagesResult := similarityImagesResult + [v];
          return;
        }
        ghost var rest := Verdicts(cfg, pairs[i + 1..], ssim);
        assert similarityImagesResult + ([v] + rest) == (similarityImagesResult + [v]) + rest;
        similarityImagesResult := similarityImagesResult + [v];
        i := i + 1;
      }
      assert pairs[i..] == [];
    }

    /**
     * `check_face_direction`. A frame without a face makes the source's loop fail on
     * `face_kps[0]`; the thread then dies with the fields as far as it got.
     */
    method CheckFaceDirection(frames: seq<Frame>)
      modifies this`resultFaceDirection, this`isEnoughDirectionFace, this`frontalFaceImage
      ensures var n := Reached(frames, detect);
        && resultFaceDirection == Directions(frames[..n], detect)
        && frontalFaceImage == LastFrontal(frames[..n], resultFaceDirection)
        && isEnoughDirectionFace == (n == |frames| && Enough(resultFaceDirection))
    {
      resultFaceDirection := [];
      isEnoughDirectionFace := false;
      frontalFaceImage := None;
      for i := 0 to |frames|
        invariant forall j :: 0 <= j < i ==> detect(frames[j]).Some?
        invariant resultFaceDirection == Directions(frames[..i], detect)
        invariant frontalFaceImage == LastFrontal(frames[..i], resultFaceDirection)
        invariant !isEnoughDirectionFace
      {
        var obs := detect(frames[i]);
        if obs.None? {
          return;
        }
        var predDirection := DirectionOf(obs.value);
        if predDirection == Frontal {
          frontalFaceImage := Some(frames[i]);
        }
        assert frames[..i + 1][..i] == frames[..i];
        resultFaceDirection := resultFaceDirection + [predDirection];
        assert resultFaceDirection[..i] == Directions(frames[..i], detect);
      }
      assert frames[..|frames|] == frames;
      if multiset(resultFaceDirection)[Frontal] > 0 && multiset(resultFaceDirection)[Left] > 0
        && multiset(resultFaceDirection)[Right] > 0 {
        isEnoughDirectionFace := true;
      }
    }

    /** `check_face_area`: the mean ratio of face box to the first frame's area. */
    method CheckFaceArea(frames: seq<Frame>)
      requires |frames| > 0
      modifies this`ratioFaceAreaToFrame
      ensures ratioFaceAreaToFrame == MeanRatio(AreaRatios(frames, detect, FrameArea(frames[0])))
    {
      ratioFaceAreaToFrame := Ratio(0.0);
      var frameArea: pos := frames[0].height * frames[0].width;
      var listRatioArea := [];
      for i := 0 to |frames|
        invariant listRatioArea == AreaRatios(frames[..i], detect, frameArea)
      {
        assert frames[..i + 1][..i] == frames[..i];
        var faceBox := detect(frames[i]);
        if faceBox.Some? {
          listRatioArea := listRatioArea + [FaceRatio(faceBox.value, frameArea)];
        }
      }
      assert frames[..|frames|] == frames;
      ratioFaceAreaToFrame := if listRatioArea == [] then NaN else Ratio(Sum(listRatioArea) / |listRatioArea| as real);
    }

    /** `detect_spoofing`: appends each sampled frame's label and score. */
    method DetectSpoofing(frameListCheck: seq<Frame>)
      modifies this`resultFrameStatus, this`resultFrameScore
      ensures resultFrameStatus == old(resultFrameStatus) + Labels(frameListCheck, observe, cfg.classifier)
      ensures resultFrameScore == old(resultFrameScore) + Scores(frameListCheck, observe, cfg.classifier)
    {
      for i := 0 to |frameListCheck|
        invariant resultFrameStatus == old(resultFrameStatus) + Labels(frameListCheck[..i], observe, cfg.classifier)
        invariant resultFrameScore == old(resultFrameScore) + Scores(frameListCheck[..i], observe, cfg.classifier)
      {
        var rsCheck := AntiSpoof.Predict(cfg.classifier, observe(frameListCheck[i]));
        resultFrameStatus := resultFrameStatus + [rsCheck.verdict];
        resultFrameScore := resultFrameScore + [rsCheck.score];
      }
      assert frameListCheck[..|frameListCheck|] == frameListCheck;
    }

    /**
     * The four checks `predict` starts as threads and joins: the face direction (only
     * when the pose check is on), the face area, the duplicate-frame check and the
     * per-frame classifier on the sampled frames.
     */
    method RunChecks(frames: seq<Frame>, isPoseCheck: int, picks: seq<Pick>, checked: seq<Frame>)
      requires |frames| > 0
      requires |picks| == IntMax(cfg.numberCheckDuplicate, 0)
      requires forall k :: 0 <= k < |picks| ==> ValidPick(picks[k], |frames|)
      modifies this`resultFrameStatus, this`resultFrameScore, this`ratioFaceAreaToFrame
      modifies this`isSimilarityImagesValid, this`similarityImagesResult
      modifies this`resultFaceDirection, this`isEnoughDirectionFace, this`frontalFaceImage
      ensures resultFrameStatus == old(resultFrameStatus) + Labels(checked, observe, cfg.classifier)
      ensures resultFrameScore == old(resultFrameScore) + Scores(checked, observe, cfg.classifier)
      ensures similarityImagesResult == Verdicts(cfg, PickedPairs(frames, picks), ssim)
      ensures isSimilarityImagesValid == SimilarityValid(cfg, similarityImagesResult)
      ensures ratioFaceAreaToFrame == MeanRatio(AreaRatios(frames, detect, FrameArea(frames[0])))
      ensures isPoseCheck != 0 ==>
        var n := Reached(frames, detect);
        && resultFaceDirection == Directions(frames[..n], detect)
        && frontalFaceImage == LastFrontal(frames[..n], resultFaceDirection)
        && isEnoughDirectionFace == (n == |frames| && Enough(resultFaceDirection))
      ensures isPoseCheck == 0 ==>
        && resultFaceDirection == old(resultFaceDirection)
        && isEnoughDirectionFace == old(isEnoughDirectionFace)
        && frontalFaceImage == old(frontalFaceImage)
    {
      if isPoseCheck != 0 {
        CheckFaceDirection(frames);
      }
      CheckFaceArea(frames);
      CheckSimilarityImages(frames, picks);
      DetectSpoofing(checked);
    }

    /** The frame-selection loop of `decode_video` over the frames the capture yields. */
    method DecodeVideo(captured: seq<Frame>, frameSkip: int) returns (frames: seq<Frame>)
      requires frameSkip != 0
      ensures frames == Subsample(captured, frameSkip)
    {
      frames := [];
      var frameCount := 0;
      while frameCount < |captured|
        invariant 0 <= frameCount <= |captured|
        invariant frames == Subsample(captured[..frameCount], frameSkip)
      {
        assert captured[..frameCount + 1][..frameCount] == captured[..frameCount];
        if frameCount % frameSkip == 0 {
          frames := frames + [captured[frameCount]];
        }
        frameCount := frameCount + 1;
      }
      assert captured[..|captured|] == captured;
    }

    /**
     * `predict` for a video whose capture yields `captured`; `picks` are the pairs the
     * duplicate check draws and `sample` the positions of the frames sent to the classifier.
     */
    method Predict(captured: seq<Frame>, isPoseCheck: int, picks: seq<Pick>, sample: seq<nat>)
      returns (result: SpoofResult, imageUpload: Option<Frame>, frameUpload: Option<seq<Frame>>)
      requires cfg.skipFrame != 0 && cfg.numFrameCheck >= 2
      requires Decodable(captured, cfg) ==>
        var n := |Subsample(captured, cfg.skipFrame)|;
        && IsSample(sample, n, IntMin(cfg.numFrameCheck, n))
        && |picks| == IntMax(cfg.numberCheckDuplicate, 0)
        && forall k :: 0 <= k < |picks| ==> ValidPick(picks[k], n)
      modifies this
      ensures resultFrameStatus == [] || Decodable(captured, cfg)
      ensures !Decodable(captured, cfg) ==>
        && result == SpoofResult(NoLabel, 0.0, DecodeVideoFalse, "Video cannot decode to images")
        && imageUpload == None && frameUpload == None
        && resultFrameStatus == [] && resultFrameScore == []
        && ratioFaceAreaToFrame == old(ratioFaceAreaToFrame)
        && isSimilarityImagesValid == old(isSimilarityImagesValid)
        && similarityImagesResult == old(similarityImagesResult)
        && resultFaceDirection == old(resultFaceDirection)
        && isEnoughDirectionFace == old(isEnoughDirectionFace)
        && frontalFaceImage == old(frontalFaceImage)
      ensures Decodable(captured, cfg) ==>
        var frames := Subsample(captured, cfg.skipFrame);
        var checked := Sampled(frames, sample);
        && frameUpload == Some(checked)
        && resultFrameStatus == Labels(checked, observe, cfg.classifier)
        && resultFrameScore == Scores(checked, observe, cfg.classifier)
        && similarityImagesResult == Verdicts(cfg, PickedPairs(frames, picks), ssim)
        && isSimilarityImagesValid == SimilarityValid(cfg, similarityImagesResult)
        && ratioFaceAreaToFrame == MeanRatio(AreaRatios(frames, detect, FrameArea(frames[0])))
        && (isPoseCheck != 0 ==>
              var n := Reached(frames, detect);
              && resultFaceDirection == Directions(frames[..n], detect)
              && frontalFaceImage == LastFrontal(frames[..n], resultFaceDirection)
              && isEnoughDirectionFace == (n == |frames| && Enough(resultFaceDirection)))
        && (isPoseCheck == 0 ==>
              && resultFaceDirection == old(resultFaceDirection)
              && isEnoughDirectionFace == old(isEnoughDirectionFace)
              && frontalFaceImage == old(frontalFaceImage))
        && imageUpload == Some(if frontalFaceImage.Some? then frontalFaceImage.value else frames[0])
        && result == FuseVideo(cfg, isPoseCheck, isSimilarityImagesValid, ratioFaceAreaToFrame,
                               isEnoughDirectionFace, resultFrameStatus, resultFrameScore)
    {
      resultFrameStatus := [];
      resultFrameScore := [];
      var framesList := DecodeVideo(captured, cfg.skipFrame);
      if |framesList| <= 1 {
        return SpoofResult(NoLabel, 0.0, DecodeVideoFalse, "Video cannot decode to images"), None, None;
      }
      var frameListCheck := Sampled(framesList, sample);
      RunChecks(framesList, isPoseCheck, picks, frameListCheck);
      imageUpload := Some(if frontalFaceImage.Some? then frontalFaceImage.value else framesList[0]);
      result := FuseVideo(cfg, isPoseCheck, isSimilarityImagesValid, ratioFaceAreaToFrame,
                          isEnoughDirectionFace, resultFrameStatus, resultFrameScore);
      frameUpload := Some(frameListCheck);
    }
  }
}
