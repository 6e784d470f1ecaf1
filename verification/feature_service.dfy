/**
 * `FeatureService` (backend-flask/app/services/feature_service.py): the face-feature
 * table with one active feature per user, and the decisions around the two calls to
 * the facial service. HTTP responses are given as values; the feature string's float
 * parsing and the similarity arithmetic are functions given to the service.
 */
module FeatureService {
  import opened Wrappers
  import opened Text

  /** A `face_features` row. */
  datatype FaceFeature = FaceFeature(userId: int, featureVector: seq<real>, isActive: bool)

  /**
   * What the service reads from a facial-service reply: whether `raise_for_status` passed,
   * the truthiness of `success`, `data.error_code` and `data.normalized_feature` when present.
   */
  datatype ServiceResponse = ServiceResponse(statusOk: bool, success: bool, errorCode: Option<string>, normalizedFeature: Option<string>)

  /** The default of `FACE_SIMILARITY_THRESHOLD`. */
  const DefaultSimilarityThreshold: real := 0.5
  /** Stands for the exception `calculate_similarity` raised, which `verify_face` re-raises unchanged. */
  const SimilarityError: string := "Similarity calculation error"

  /** `check_face_spoofing`: passes only on a successful reply whose `error_code` is the empty string. */
  function CheckFaceSpoofing(resp: ServiceResponse): (r: Result<bool, string>)
    ensures r.Ok? <==> resp.statusOk && resp.success && resp.errorCode == Some("")
    ensures r.Ok? ==> r.value
    ensures resp.statusOk && !resp.success ==> r == Err("Anti-spoofing check failed")
  {
    if !resp.statusOk then Err("HTTPError")
    else if !resp.success || resp.errorCode != Some("") then Err("Anti-spoofing check failed")
    else Ok(true)
  }

  /** `extract_face_features`: the normalized feature string of a successful reply. */
  function ExtractFaceFeatures(resp: ServiceResponse): (r: Result<string, string>)
    ensures r.Ok? <==> resp.statusOk && resp.success && resp.normalizedFeature.Some?
    ensures r.Ok? ==> r.value == resp.normalizedFeature.value
    ensures resp.statusOk && !resp.success ==> r == Err("Face feature extraction failed")
  {
    if !resp.statusOk then Err("HTTPError")
    else if !resp.success then Err("Face feature extraction failed")
    else if resp.normalizedFeature.None? then Err("KeyError")
    else Ok(resp.normalizedFeature.value)
  }

  /** `[float(x) for x in pieces]`: the first piece that does not parse raises. */
  function ParseAll(pieces: seq<string>, parseFloat: string -> Option<real>): (r: Result<seq<real>, string>)
    ensures r.Ok? <==> forall i :: 0 <= i < |pieces| ==> parseFloat(pieces[i]).Some?
    ensures r.Ok? ==> |r.value| == |pieces| && forall i :: 0 <= i < |pieces| ==> parseFloat(pieces[i]) == Some(r.value[i])
  {
    if pieces == [] then Ok([])
    else
      match parseFloat(pieces[0])
      case None => Err("ValueError")
      case Some(x) =>
        match ParseAll(pieces[1..], parseFloat)
        case Err(e) => Err(e)
        case Ok(xs) =>
          assert forall i :: 1 <= i < |pieces| ==> pieces[i] == pieces[1..][i - 1];
          Ok([x] + xs)
  }

  /** The feature vector parsed from the comma-separated string. */
  function ParseFeature(s: string, parseFloat: string -> Option<real>): (r: Result<seq<real>, string>)
    ensures r.Ok? ==> |r.value| == |SplitOn(s, ",")| > 0
    ensures ',' !in s ==> (r.Ok? <==> parseFloat(s).Some?) && (r.Ok? ==> r.value == [parseFloat(s).value])
  {
    assert ',' !in s ==> SplitOn(s, ",") == [s] by {
      if Find(s, ",").Some? {
        var i := Find(s, ",").value;
        assert s[i..i + 1] == ",";
        assert s[i] == ',';
      }
    }
    ParseAll(SplitOn(s, ","), parseFloat)
  }

  /** The table after `UPDATE ... SET is_active = False` on the user's active rows. */
  function Deactivated(fs: seq<FaceFeature>, userId: int): (out: seq<FaceFeature>)
    ensures |out| == |fs|
    ensures forall i :: 0 <= i < |fs| && fs[i].userId != userId ==> out[i] == fs[i]
    ensures forall i :: 0 <= i < |fs| && fs[i].userId == userId ==> out[i] == fs[i].(isActive := false)
  {
    seq(|fs|, i requires 0 <= i < |fs| => if fs[i].userId == userId && fs[i].isActive then fs[i].(isActive := false) else fs[i])
  }

  /** The table's invariant: no user has two active features. */
  predicate AtMostOneActive(fs: seq<FaceFeature>)
  {
    forall i, j :: 0 <= i < j < |fs| && fs[i].isActive && fs[j].isActive ==> fs[i].userId != fs[j].userId
  }

  /** `get_active_face_feature`: the first active row of the user. */
  function ActiveFeature(fs: seq<FaceFeature>, userId: int): (r: Option<FaceFeature>)
    ensures r.None? <==> forall i :: 0 <= i < |fs| ==> !(fs[i].userId == userId && fs[i].isActive)
    ensures r.Some? ==> r.value in fs && r.value.userId == userId && r.value.isActive
  {
    if fs == [] then None
    else if fs[0].userId == userId && fs[0].isActive then Some(fs[0])
    else
      assert forall i :: 1 <= i < |fs| ==> fs[i] == fs[1..][i - 1];
      ActiveFeature(fs[1..], userId)
  }

  /**
   * Registering keeps the invariant and leaves exactly one active feature for the user,
   * the new one, which is what a later lookup finds.
   */
  lemma RegisterKeepsOneActive(fs: seq<FaceFeature>, f: FaceFeature)
    requires AtMostOneActive(fs) && f.isActive
    ensures AtMostOneActive(Deactivated(fs, f.userId) + [f])
    ensures ActiveFeature(Deactivated(fs, f.userId) + [f], f.userId) == Some(f)
    ensures forall i :: 0 <= i < |fs| + 1 ==>
      ((Deactivated(fs, f.userId) + [f])[i].userId == f.userId && (Deactivated(fs, f.userId) + [f])[i].isActive ==> i == |fs|)
  {
    var out := Deactivated(fs, f.userId) + [f];
    assert forall i :: 0 <= i < |fs| && out[i].isActive ==> out[i].userId != f.userId;
    LastActiveFound(Deactivated(fs, f.userId), f);
  }

  lemma {:induction false} LastActiveFound(fs: seq<FaceFeature>, f: FaceFeature)
    requires f.isActive
    requires forall i :: 0 <= i < |fs| ==> !(fs[i].userId == f.userId && fs[i].isActive)
    ensures ActiveFeature(fs + [f], f.userId) == Some(f)
  {
    if fs != [] {
      assert (fs + [f])[1..] == fs[1..] + [f];
      LastActiveFound(fs[1..], f);
    }
  }

  class FeatureService {
    const similarityThreshold: real
    /** Python's `float(x)` on one piece of the feature string; `None` when it raises. */
    const parseFloat: string -> Option<real>
    /**
     * `calculate_similarity`: the dot product of the stored vector and the parsed string,
     * rounded to 3 places; `None` when it raises (a piece `float()` rejects, vectors that
     * `np.dot` cannot pair up).
     */
    const calculateSimilarity: (seq<real>, string) -> Option<real>
    var features: seq<FaceFeature>

    /** `FACE_SIMILARITY_THRESHOLD` from the environment, 0.5 when unset. */
    constructor (thresholdSetting: Option<real>, parseFloat: string -> Option<real>,
                 calculateSimilarity: (seq<real>, string) -> Option<real>, features: seq<FaceFeature>)
      ensures similarityThreshold == (if thresholdSetting.Some? then thresholdSetting.value else DefaultSimilarityThreshold)
      ensures this.parseFloat == parseFloat && this.calculateSimilarity == calculateSimilarity
      ensures this.features == features
    {
      similarityThreshold := if thresholdSetting.Some? then thresholdSetting.value else DefaultSimilarityThreshold;
      this.parseFloat := parseFloat;
      this.calculateSimilarity := calculateSimilarity;
      this.features := features;
    }

    /**
     * `register_face`: the spoof check, then extraction and parsing; any failure leaves the
     * table as it was. Otherwise the user's active rows are switched off and one new
     * active row is added.
     */
    method RegisterFace(userId: int, spoofResponse: ServiceResponse, extractResponse: ServiceResponse)
      returns (r: Result<FaceFeature, string>)
      modifies this
      ensures CheckFaceSpoofing(spoofResponse).Err? ==> r == Err(CheckFaceSpoofing(spoofResponse).error)
      ensures r.Err? ==> features == old(features)
      ensures r.Ok? <==> (CheckFaceSpoofing(spoofResponse).Ok? && ExtractFaceFeatures(extractResponse).Ok?
        && ParseFeature(ExtractFaceFeatures(extractResponse).value, parseFloat).Ok?)
      ensures r.Ok? ==>
        && r.value == FaceFeature(userId, ParseFeature(ExtractFaceFeatures(extractResponse).value, parseFloat).value, true)
        && features == Deactivated(old(features), userId) + [r.value]
    {
      var spoof := CheckFaceSpoofing(spoofResponse);
      if spoof.Err? {
        return Err(spoof.error);
      }
      var featureString := ExtractFaceFeatures(extractResponse);
      if featureString.Err? {
        return Err(featureString.error);
      }
      var featureArray := ParseFeature(featureString.value, parseFloat);
      if featureArray.Err? {
        return Err(featureArray.error);
      }
      ghost var deactivated := Deactivated(features, userId);
      for i := 0 to |features|
        invariant |features| == |deactivated|
        invariant forall j :: 0 <= j < i ==> features[j] == deactivated[j]
        invariant forall j :: i <= j < |features| ==> features[j] == old(features)[j]
      {
        if features[i].userId == userId && features[i].isActive {
          features := features[i := features[i].(isActive := false)];
        }
      }
      assert features == deactivated;
      var faceFeature := FaceFeature(userId, featureArray.value, true);
      features := features + [faceFeature];
      return Ok(faceFeature);
    }

    /**
     * `verify_face`: the spoof check, the stored feature (its absence raises), extraction,
     * the similarity (whose failure is re-raised), then `(similarity, similarity >= threshold)`.
     */
    function VerifyFace(userId: int, spoofResponse: ServiceResponse, extractResponse: ServiceResponse)
      : (r: Result<(real, bool), string>)
      reads this
      ensures CheckFaceSpoofing(spoofResponse).Err? ==> r == Err(CheckFaceSpoofing(spoofResponse).error)
      ensures CheckFaceSpoofing(spoofResponse).Ok? && ActiveFeature(features, userId).None? ==>
        r == Err("No registered face found")
      ensures CheckFaceSpoofing(spoofResponse).Ok? && ActiveFeature(features, userId).Some? && ExtractFaceFeatures(extractResponse).Err?
        ==> r == Err(ExtractFaceFeatures(extractResponse).error)
      ensures r.Ok? <==> (CheckFaceSpoofing(spoofResponse).Ok? && ActiveFeature(features, userId).Some?
        && ExtractFaceFeatures(extractResponse).Ok?
        && calculateSimilarity(ActiveFeature(features, userId).value.featureVector, ExtractFaceFeatures(extractResponse).value).Some?)
      ensures r.Ok? ==>
        && r.value.0 == calculateSimilarity(ActiveFeature(features, userId).value.featureVector, ExtractFaceFeatures(extractResponse).value).value
        && (r.value.1 <==> r.value.0 >= similarityThreshold)
    {
      match CheckFaceSpoofing(spoofResponse)
      case Err(e) => Err(e)
      case Ok(_) =>
        match ActiveFeature(features, userId)
        case None => Err("No registered face found")
        case Some(stored) =>
          match ExtractFaceFeatures(extractResponse)
          case Err(e) => Err(e)
          case Ok(current) =>
            match calculateSimilarity(stored.featureVector, current)
            case None => Err(SimilarityError)
            case Some(similarity) => Ok((similarity, similarity >= similarityThreshold))
    }
  }
}
