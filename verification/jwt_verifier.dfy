/**
 * `JWTVerifier` (facial-service/app/utils/jwt/jwt_verifier.py): the header segment and
 * its base64 padding, and the all-verifiers-pass loop. Base64/JSON decoding, the JWKS
 * key store and `jwcrypto`'s deserialization are functions given to the verifier.
 */
module JwtVerifier {
  import opened Wrappers
  import opened Text
  import opened CustomVerifier

  /** `token.split('.')[0]`: the text before the first dot, or the whole token. */
  function FirstSegment(token: string): (seg: string)
    ensures StartsWith(token, seg)
    ensures Find(seg, ".").None?
    ensures |seg| == |token| || token[|seg|] == '.'
  {
    var parts := SplitOn(token, ".");
    SplitOnPiecesAvoidSep(token, ".");
    JoinSplitOn(token, ".");
    FirstPieceIsPrefix(parts, ".");
    parts[0]
  }

  lemma FirstPieceIsPrefix(parts: seq<string>, sep: string)
    requires |parts| > 0 && |sep| == 1
    ensures StartsWith(Join(parts, sep), parts[0])
    ensures |parts[0]| == |Join(parts, sep)| || Join(parts, sep)[|parts[0]|] == sep[0]
  {
    if |parts| > 1 {
      var j := Join(parts, sep);
      assert j == parts[0] + sep + Join(parts[1..], sep);
      assert j[..|parts[0]|] == parts[0];
    }
  }

  /** `(-len) % 4`: Python's modulo by a positive number is never negative. */
  function PadCount(n: nat): (k: nat)
    ensures k < 4 && (n + k) % 4 == 0
    ensures n % 4 == 0 ==> k == 0
  {
    (-(n as int)) % 4
  }

  function Repeat(c: char, k: nat): (s: string)
    ensures |s| == k && forall i :: 0 <= i < k ==> s[i] == c
  {
    if k == 0 then [] else Repeat(c, k - 1) + [c]
  }

  /** The segment padded with `=` to a multiple of four characters. */
  function PaddedSegment(seg: string): (t: string)
    ensures |t| % 4 == 0 && |seg| <= |t| <= |seg| + 3
    ensures t[..|seg|] == seg && forall i :: |seg| <= i < |t| ==> t[i] == '='
    ensures |seg| % 4 == 0 ==> t == seg
  {
    seg + Repeat('=', PadCount(|seg|))
  }

  /** Padding an already padded segment adds nothing. */
  lemma PaddingIdempotent(seg: string)
    ensures PaddedSegment(PaddedSegment(seg)) == PaddedSegment(seg)
  {
  }

  /**
   * The verifiers run in list order; the first `False` or exception ends the run.
   */
  function RunVerifiers(vs: seq<Verifier>, key: Key, tok: Token, allowedScopes: Option<seq<string>>): Result<bool, VerifyError>
  {
    if vs == [] then Ok(true)
    else
      match Outcome(vs[0], key, tok, allowedScopes)
      case Err(e) => Err(e)
      case Ok(passed) => if passed then RunVerifiers(vs[1..], key, tok, allowedScopes) else Ok(false)
  }

  /** The `g.sub` after the verifiers that actually ran. */
  function SubAfterRun(vs: seq<Verifier>, tok: Token, allowedScopes: Option<seq<string>>, key: Key, before: Option<string>): Option<string>
  {
    if vs == [] then before
    else
      var s := SubAfter(vs[0], tok, before);
      if Outcome(vs[0], key, tok, allowedScopes) == Ok(true) then SubAfterRun(vs[1..], tok, allowedScopes, key, s) else s
  }

  /** The run accepts iff every verifier accepts; an empty list accepts. */
  lemma {:induction false} RunAcceptsIffAllAccept(vs: seq<Verifier>, key: Key, tok: Token, allowedScopes: Option<seq<string>>)
    ensures RunVerifiers(vs, key, tok, allowedScopes) == Ok(true) <==>
      forall i :: 0 <= i < |vs| ==> Outcome(vs[i], key, tok, allowedScopes) == Ok(true)
  {
    if vs != [] {
      RunAcceptsIffAllAccept(vs[1..], key, tok, allowedScopes);
      assert forall i :: 1 <= i < |vs| ==> vs[i] == vs[1..][i - 1];
    }
  }

  /**
   * A rejection or error comes from the first verifier that does not accept; every
   * verifier before it accepted.
   */
  lemma {:induction false} RunStopsAtFirstFailure(vs: seq<Verifier>, key: Key, tok: Token, allowedScopes: Option<seq<string>>)
    requires RunVerifiers(vs, key, tok, allowedScopes) != Ok(true)
    ensures exists i ::
      && 0 <= i < |vs|
      && (forall j :: 0 <= j < i ==> Outcome(vs[j], key, tok, allowedScopes) == Ok(true))
      && Outcome(vs[i], key, tok, allowedScopes) == RunVerifiers(vs, key, tok, allowedScopes)
  {
    if Outcome(vs[0], key, tok, allowedScopes) == Ok(true) {
      RunStopsAtFirstFailure(vs[1..], key, tok, allowedScopes);
      var i :| 0 <= i < |vs[1..]|
        && (forall j :: 0 <= j < i ==> Outcome(vs[1..][j], key, tok, allowedScopes) == Ok(true))
        && Outcome(vs[1..][i], key, tok, allowedScopes) == RunVerifiers(vs[1..], key, tok, allowedScopes);
      assert forall j :: 1 <= j < i + 1 ==> vs[j] == vs[1..][j - 1];
      assert vs[i + 1] == vs[1..][i];
    } else {
      assert Outcome(vs[0], key, tok, allowedScopes) == RunVerifiers(vs, key, tok, allowedScopes);
    }
  }

  class JWTVerifier {
    /** `jwks_storage.get_key`; `None` stands for its "key is not available" exception. */
    const getKey: string -> Option<Key>
    /** `base64.b64decode` then `json.loads` of a padded segment; `None` when either raises. */
    const decodeHeader: string -> Option<Header>
    /** `JWT.deserialize(token, key)`; `None` when it raises. */
    const deserialize: (string, Key) -> Option<Token>
    const listCustomVerifier: seq<Verifier>

    constructor (getKey: string -> Option<Key>, decodeHeader: string -> Option<Header>,
                 deserialize: (string, Key) -> Option<Token>, listCustomVerifier: seq<Verifier>)
      ensures this.getKey == getKey && this.decodeHeader == decodeHeader
      ensures this.deserialize == deserialize && this.listCustomVerifier == listCustomVerifier
    {
      this.getKey := getKey;
      this.decodeHeader := decodeHeader;
      this.deserialize := deserialize;
      this.listCustomVerifier := listCustomVerifier;
    }

    /** `__getheader`. */
    function GetHeader(token: string): Option<Header>
    {
      decodeHeader(PaddedSegment(FirstSegment(token)))
    }

    /** The key and token `verify` reaches before the loop, or the error raised on the way. */
    function Prepare(token: string): Result<(Key, Token), VerifyError>
    {
      match GetHeader(token)
      case None => Err(MalformedHeader)
      case Some(he) =>
        if he.kid.None? then Err(KeyError("kid"))
        else match getKey(he.kid.value)
          case None => Err(KeyNotAvailable)
          case Some(key) =>
            match deserialize(token, key)
            case None => Err(InvalidToken)
            case Some(et) => Ok((key, et))
    }

    /**
     * `verify`: failures before the loop propagate as errors rather than `False`; then
     * `True` iff every verifier accepts, in order, stopping at the first that does not.
     */
    method Verify(g: RequestGlobals, token: string, allowedScopes: Option<seq<string>>) returns (r: Result<bool, VerifyError>)
      modifies g
      ensures Prepare(token).Err? ==> r == Err(Prepare(token).error) && g.sub == old(g.sub)
      ensures Prepare(token).Ok? ==>
        var (key, et) := Prepare(token).value;
        r == RunVerifiers(listCustomVerifier, key, et, allowedScopes)
        && g.sub == SubAfterRun(listCustomVerifier, et, allowedScopes, key, old(g.sub))
    {
      var he := GetHeader(token);
      if he.None? {
        return Err(MalformedHeader);
      }
      if he.value.kid.None? {
        return Err(KeyError("kid"));
      }
      var key := getKey(he.value.kid.value);
      if key.None? {
        return Err(KeyNotAvailable);
      }
      var et := deserialize(token, key.value);
      if et.None? {
        return Err(InvalidToken);
      }
      var vs := listCustomVerifier;
      for i := 0 to |vs|
        invariant RunVerifiers(vs, key.value, et.value, allowedScopes) == RunVerifiers(vs[i..], key.value, et.value, allowedScopes)
        invariant SubAfterRun(vs, et.value, allowedScopes, key.value, old(g.sub))
          == SubAfterRun(vs[i..], et.value, allowedScopes, key.value, g.sub)
      {
        assert vs[i..][1..] == vs[i + 1..];
        var ok := CustomVerify(vs[i], g, key.value, et.value, allowedScopes);
        if ok.Err? {
          return Err(ok.error);
        }
        if !ok.value {
          return Ok(false);
        }
      }
      return Ok(true);
    }
  }
}
