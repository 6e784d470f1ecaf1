/**
 * The still-image spoof classifier `AntiSpoofClassifier`
 * (facial-service/app/controller/facial_service/algorithm.py).
 * The networks and the face detector are opaque: their outputs are inputs here.
 */
module AntiSpoof {
  import opened Numeric
  import opened Wrappers

  /** A silent-model softmax over its three classes: spoof type A, live, spoof type B. */
  datatype Triple = Triple(spoofA: real, live: real, spoofB: real)

  /** A two-class output `[live, spoof]`. */
  datatype Pair = Pair(live: real, spoof: real)

  /** The verdict label; `NoLabel` is the empty label of a result that carries an error code. */
  datatype Label = Live | Spoof | NoLabel

  /** The error codes the liveness services report; `NoError` is the empty code. */
  datatype ErrorCode = NoError | NoFace | FaceTooFar | NotEnoughFaceDirection | DecodeVideoFalse

  /** The `result` dictionary: label, score, error code and message. */
  datatype SpoofResult = SpoofResult(verdict: Label, score: real, errorCode: ErrorCode, message: string)

  /** The configuration knobs the classifier reads. */
  datatype Config = Config(
    fasConfThreshold: real,          // fine-tune branch
    fasConfThresholdSubModel: real,  // silent branch
    fasConfThresholdDeepfake: real,  // deepfake branch
    useDeepfakeModel: int)

  /** What the detector and the networks produce for one image. */
  datatype Observation =
    | NoFaceDetected
    | Outputs(silent27: Triple, silent40: Triple, finetuneTight: Pair, finetunePadded: Pair, deepfake: Pair)

  /** The three fused branch outputs that `forward` returns. */
  datatype Branches = Branches(silent: Pair, finetune: Pair, deepfake: Pair)

  predicate IsDistribution3(t: Triple)
  {
    0.0 <= t.spoofA && 0.0 <= t.live && 0.0 <= t.spoofB && t.spoofA + t.live + t.spoofB == 1.0
  }

  predicate IsDistribution(p: Pair)
  {
    0.0 <= p.live && 0.0 <= p.spoof && p.live + p.spoof == 1.0
  }

  const NeutralPair := Pair(1.0, 0.0)

  /**
   * `forward_model_silent`: the two silent outputs are summed; live is half the summed
   * live class, spoof half the summed two spoof classes.
   */
  function ForwardSilent(p27: Triple, p40: Triple): (r: Pair)
    ensures Min(p27.live, p40.live) <= r.live <= Max(p27.live, p40.live)
    ensures r.live + r.spoof == (p27.spoofA + p27.live + p27.spoofB + p40.spoofA + p40.live + p40.spoofB) / 2.0
    ensures IsDistribution3(p27) && IsDistribution3(p40) ==> IsDistribution(r)
  {
    Pair((p27.live + p40.live) / 2.0, (p27.spoofA + p40.spoofA + p27.spoofB + p40.spoofB) / 2.0)
  }

  /** `forward_model_finetune`: the fine-tuned classifier's two runs averaged class by class. */
  function ForwardFinetune(tight: Pair, padded: Pair): (r: Pair)
    ensures Min(tight.live, padded.live) <= r.live <= Max(tight.live, padded.live)
    ensures Min(tight.spoof, padded.spoof) <= r.spoof <= Max(tight.spoof, padded.spoof)
    ensures IsDistribution(tight) && IsDistribution(padded) ==> IsDistribution(r)
  {
    Pair((tight.live + padded.live) / 2.0, (tight.spoof + padded.spoof) / 2.0)
  }

  /** The deepfake branch: the network's output when `USE_DEEPFAKE_MODEL == 1`, else `[1, 0]`. */
  function DeepfakeBranch(cfg: Config, output: Pair): (r: Pair)
    ensures cfg.useDeepfakeModel != 1 ==> r.live == 1.0 && r.spoof == 0.0
    ensures cfg.useDeepfakeModel == 1 ==> r == output
  {
    if cfg.useDeepfakeModel == 1 then output else NeutralPair
  }

  /** `forward`: no branches without a face, else the three fused branch outputs. */
  function Forward(cfg: Config, obs: Observation): (r: Option<Branches>)
    ensures r.None? <==> obs.NoFaceDetected?
  {
    match obs
    case NoFaceDetected => None
    case Outputs(s27, s40, ft, fp, df) =>
      Some(Branches(ForwardSilent(s27, s40), ForwardFinetune(ft, fp), DeepfakeBranch(cfg, df)))
  }

  /** The AND-gate: every branch's live score above its own threshold. */
  predicate Gate(cfg: Config, b: Branches): (g: bool)
    ensures g ==>
      b.finetune.live + b.silent.live + b.deepfake.live
      > cfg.fasConfThreshold + cfg.fasConfThresholdSubModel + cfg.fasConfThresholdDeepfake
  {
    b.finetune.live > cfg.fasConfThreshold
    && b.silent.live > cfg.fasConfThresholdSubModel
    && b.deepfake.live > cfg.fasConfThresholdDeepfake
  }

  /** `round(mean of the three branch live scores, 2)`. */
  function LiveScore(b: Branches): (r: real)
    ensures var mean := (b.finetune.live + b.silent.live + b.deepfake.live) / 3.0;
      -1.0 / 200.0 <= r - mean <= 1.0 / 200.0
    ensures (r * 100.0).Floor as real == r * 100.0
    ensures 0.0 <= b.finetune.live <= 1.0 && 0.0 <= b.silent.live <= 1.0 && 0.0 <= b.deepfake.live <= 1.0 ==> 0.0 <= r <= 1.0
  {
    Round2((b.finetune.live + b.silent.live + b.deepfake.live) / 3.0)
  }

  /** The verdict for the branch outputs of a detected face. */
  function Fuse(cfg: Config, b: Branches): (r: SpoofResult)
    ensures r.errorCode == NoError && r.message == ""
    ensures r.verdict == Live <==> Gate(cfg, b)
    ensures r.verdict == Live || r.verdict == Spoof
    ensures r.score >= 0.7
    ensures r.verdict == Live ==> r.score == 0.7 || r.score == LiveScore(b)
    ensures r.verdict == Live ==> r.score >= LiveScore(b)
    ensures r.verdict == Spoof ==> r.score == 0.7 || r.score == 1.0 - LiveScore(b)
    ensures r.verdict == Spoof ==> r.score >= 1.0 - LiveScore(b)
  {
    var liveScore := LiveScore(b);
    if Gate(cfg, b) then SpoofResult(Live, Max(liveScore, 0.7), NoError, "")
    else SpoofResult(Spoof, Max(1.0 - liveScore, 0.7), NoError, "")
  }

  /** `AntiSpoofClassifier.predict`. */
  function Predict(cfg: Config, obs: Observation): (r: SpoofResult)
    ensures r.errorCode == NoFace <==> obs.NoFaceDetected?
    ensures r.errorCode != NoFace ==> r.errorCode == NoError
    ensures obs.NoFaceDetected? ==> r.verdict == NoLabel && r.score == 0.0
    ensures obs.Outputs? ==> r.score >= 0.7 && (r.verdict == Live <==> Gate(cfg, Forward(cfg, obs).value))
    ensures obs.Outputs? ==> r == Fuse(cfg, Forward(cfg, obs).value)
  {
    match Forward(cfg, obs)
    case None => SpoofResult(NoLabel, 0.0, NoFace, "The face cannot be detected")
    case Some(b) => Fuse(cfg, b)
  }

  /** Any one branch at or below its threshold forces SPOOF, whatever the other two say. */
  lemma OneBranchVetoes(cfg: Config, b: Branches)
    requires b.finetune.live <= cfg.fasConfThreshold
          || b.silent.live <= cfg.fasConfThresholdSubModel
          || b.deepfake.live <= cfg.fasConfThresholdDeepfake
    ensures Fuse(cfg, b).verdict == Spoof
  {
  }

  /**
   * Lowering a single branch's live score to its threshold turns a LIVE verdict into SPOOF:
   * the gate is a conjunction, not a weighted vote.
   */
  lemma LoweringOneBranchFlipsVerdict(cfg: Config, b: Branches, silentLive: real)
    requires Fuse(cfg, b).verdict == Live
    requires silentLive <= cfg.fasConfThresholdSubModel
    ensures Fuse(cfg, b.(silent := b.silent.(live := silentLive))).verdict == Spoof
    ensures b.finetune.live > cfg.fasConfThreshold && b.deepfake.live > cfg.fasConfThresholdDeepfake
  {
  }

  /**
   * With the deepfake flag off its branch is `[1, 0]`; as long as the deepfake threshold
   * is below 1 it never vetoes, and the verdict rests on the other two branches.
   */
  lemma DisabledDeepfakeNeverVetoes(cfg: Config, obs: Observation)
    requires obs.Outputs? && cfg.useDeepfakeModel != 1 && cfg.fasConfThresholdDeepfake < 1.0
    ensures var b := Forward(cfg, obs).value;
      Predict(cfg, obs).verdict == Live
      <==> b.finetune.live > cfg.fasConfThreshold && b.silent.live > cfg.fasConfThresholdSubModel
  {
  }

  /** When every network emits a probability distribution, the reported score lies in [0.7, 1]. */
  lemma ScoreIsAConfidence(cfg: Config, obs: Observation)
    requires obs.Outputs?
    requires IsDistribution3(obs.silent27) && IsDistribution3(obs.silent40)
    requires IsDistribution(obs.finetuneTight) && IsDistribution(obs.finetunePadded)
    requires IsDistribution(obs.deepfake)
    ensures 0.7 <= Predict(cfg, obs).score <= 1.0
  {
    var b := Forward(cfg, obs).value;
    assert IsDistribution(b.deepfake);
    var m := (b.finetune.live + b.silent.live + b.deepfake.live) / 3.0;
    assert 0.0 <= m <= 1.0;
    assert 0.0 <= LiveScore(b) <= 1.0;
  }

  /** A LIVE verdict whose fused score is 0.5 still reports 0.7, the confidence floor. */
  lemma FloorOnLiveSide(cfg: Config)
    requires cfg.fasConfThreshold < 0.5 && cfg.fasConfThresholdSubModel < 0.5 && cfg.fasConfThresholdDeepfake < 0.5
    ensures Fuse(cfg, Branches(Pair(0.5, 0.5), Pair(0.5, 0.5), Pair(0.5, 0.5))).score == 0.7
  {
    var b := Branches(Pair(0.5, 0.5), Pair(0.5, 0.5), Pair(0.5, 0.5));
    assert (0.5 * 100.0).Floor == 50;
    assert LiveScore(b) == 0.5;
  }
}
