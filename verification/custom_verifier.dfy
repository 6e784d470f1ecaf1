/**
 * The claim checks run on a deserialized token (facial-service/app/utils/jwt/custom_verifier.py).
 * `json.loads` of the token's claims and header is taken as done: a claim the JSON lacks
 * is `None`, and reading it raises `KeyError`.
 */
module CustomVerifier {
  import opened Wrappers
  import opened Text

  datatype Claims = Claims(aud: Option<string>, clientId: Option<string>, sub: Option<string>, scp: Option<seq<string>>)

  datatype Header = Header(kid: Option<string>, alg: Option<string>)

  /** A deserialized `jwt.JWT`: its header and claims. */
  datatype Token = Token(header: Header, claims: Claims)

  /** `key.export(False, True)`: the public key's parameters, of which only `alg` is read. */
  datatype Key = Key(alg: Option<string>)

  /** The exceptions the verification path can raise. */
  datatype VerifyError =
    | KeyError(name: string)
    | ValueError          // `str.split` with an empty separator
    | TypeError           // `scope in None`
    | KeyNotAvailable     // `get_key` on an unknown key id
    | MalformedHeader     // base64 or JSON decoding of the header segment failed
    | InvalidToken        // `deserialize` rejected the token or its signature

  /** The configured verifiers, each with its constructor arguments. */
  datatype Verifier = ClaimAudVerifier(audience: string, separator: string) | KIDVerifier | AlgVerifier | ScopeVerifier

  /** Flask's request-global `g`, of which `ScopeVerifier` writes `sub`. */
  class RequestGlobals {
    var sub: Option<string>

    constructor ()
      ensures sub == None
    {
      sub := None;
    }
  }

  // ---------------------------------------------------------------- ClaimAudVerifier

  /** The outcome of `ClaimAudVerifier`: `audience` is one of the pieces of `aud` split on `separator`. */
  function AudienceOutcome(audience: string, separator: string, claims: Claims): Result<bool, VerifyError>
  {
    if claims.aud.None? then Err(KeyError("aud"))
    else if separator == "" then Err(ValueError)
    else Ok(audience in SplitOn(claims.aud.value, separator))
  }

  /** `ClaimAudVerifier.custom_verify`: an early-return search over the pieces. */
  method ClaimAudCustomVerify(audience: string, separator: string, tok: Token) returns (r: Result<bool, VerifyError>)
    ensures r == AudienceOutcome(audience, separator, tok.claims)
  {
    if tok.claims.aud.None? {
      return Err(KeyError("aud"));
    }
    var aud := tok.claims.aud.value;
    if separator == "" {
      return Err(ValueError);
    }
    var pieces := SplitOn(aud, separator);
    for k := 0 to |pieces|
      invariant audience !in pieces[..k]
    {
      if pieces[k] == audience {
        return Ok(true);
      }
    }
    assert pieces[..|pieces|] == pieces;
    return Ok(false);
  }

  /** An accepted audience never contains the separator: the match is on whole pieces. */
  lemma AcceptedAudienceIsWholePiece(audience: string, separator: string, claims: Claims)
    requires AudienceOutcome(audience, separator, claims) == Ok(true)
    ensures Find(audience, separator).None?
  {
    SplitOnPiecesAvoidSep(claims.aud.value, separator);
  }

  /** A token whose `aud` is exactly the audience (with no separator in it) is accepted. */
  lemma SoleAudienceAccepted(audience: string, separator: string, claims: Claims)
    requires separator != "" && claims.aud == Some(audience) && Find(audience, separator).None?
    ensures AudienceOutcome(audience, separator, claims) == Ok(true)
  {
    assert SplitOn(audience, separator) == [audience];
  }

  // ---------------------------------------------------------------- KIDVerifier, AlgVerifier

  /** `KIDVerifier`: the header's `kid` starts with the claims' `client_id` (read first). */
  function KidOutcome(tok: Token): (r: Result<bool, VerifyError>)
    ensures r == Ok(true) <==>
      (tok.claims.clientId.Some? && tok.header.kid.Some?
       && |tok.claims.clientId.value| <= |tok.header.kid.value|
       && tok.header.kid.value[..|tok.claims.clientId.value|] == tok.claims.clientId.value)
    ensures tok.claims.clientId.None? ==> r == Err(KeyError("client_id"))
  {
    if tok.claims.clientId.None? then Err(KeyError("client_id"))
    else if tok.header.kid.None? then Err(KeyError("kid"))
    else Ok(StartsWith(tok.header.kid.value, tok.claims.clientId.value))
  }

  /** `AlgVerifier`: the key's `alg` (read first) equals the token header's `alg`. */
  function AlgOutcome(key: Key, tok: Token): (r: Result<bool, VerifyError>)
    ensures r == Ok(true) <==> key.alg.Some? && key.alg == tok.header.alg
    ensures r.Err? <==> key.alg.None? || tok.header.alg.None?
  {
    if key.alg.None? then Err(KeyError("alg"))
    else if tok.header.alg.None? then Err(KeyError("alg"))
    else Ok(key.alg.value == tok.header.alg.value)
  }

  // ---------------------------------------------------------------- ScopeVerifier

  /**
   * `ScopeVerifier`: some scope of `scp` is allowed. With no allowed list, the first
   * membership test raises; an empty `scp` never reaches it.
   */
  function ScopeOutcome(claims: Claims, allowedScopes: Option<seq<string>>): (r: Result<bool, VerifyError>)
    ensures r == Ok(true) <==>
      (claims.sub.Some? && claims.scp.Some? && allowedScopes.Some?
       && exists i :: 0 <= i < |claims.scp.value| && claims.scp.value[i] in allowedScopes.value)
    ensures claims.sub.Some? && claims.scp == Some([]) ==> r == Ok(false)
  {
    if claims.sub.None? then Err(KeyError("sub"))
    else if claims.scp.None? then Err(KeyError("scp"))
    else if claims.scp.value == [] then Ok(false)
    else if allowedScopes.None? then Err(TypeError)
    else Ok(exists i :: 0 <= i < |claims.scp.value| && claims.scp.value[i] in allowedScopes.value)
  }

  /** The `g.sub` left behind: set as soon as `sub` is read, before `scp` is looked at. */
  function SubAfterScope(claims: Claims, before: Option<string>): Option<string>
  {
    if claims.sub.Some? then claims.sub else before
  }

  /** `ScopeVerifier.custom_verify`. */
  method ScopeCustomVerify(g: RequestGlobals, tok: Token, allowedScopes: Option<seq<string>>) returns (r: Result<bool, VerifyError>)
    modifies g
    ensures r == ScopeOutcome(tok.claims, allowedScopes)
    ensures g.sub == SubAfterScope(tok.claims, old(g.sub))
  {
    if tok.claims.sub.None? {
      return Err(KeyError("sub"));
    }
    g.sub := tok.claims.sub;
    if tok.claims.scp.None? {
      return Err(KeyError("scp"));
    }
    var scopes := tok.claims.scp.value;
    for k := 0 to |scopes|
      invariant allowedScopes.Some? || k == 0
      invariant forall i :: 0 <= i < k ==> scopes[i] !in allowedScopes.value
    {
      if allowedScopes.None? {
        return Err(TypeError);
      }
      if scopes[k] in allowedScopes.value {
        return Ok(true);
      }
    }
    return Ok(false);
  }

  // ---------------------------------------------------------------- dispatch

  /** What `v.custom_verify(key=key, tok=tok, allowed_scopes=allowed_scopes)` returns or raises. */
  function Outcome(v: Verifier, key: Key, tok: Token, allowedScopes: Option<seq<string>>): Result<bool, VerifyError>
  {
    match v
    case ClaimAudVerifier(audience, separator) => AudienceOutcome(audience, separator, tok.claims)
    case KIDVerifier => KidOutcome(tok)
    case AlgVerifier => AlgOutcome(key, tok)
    case ScopeVerifier => ScopeOutcome(tok.claims, allowedScopes)
  }

  /** The `g.sub` after running `v`: only `ScopeVerifier` writes it. */
  function SubAfter(v: Verifier, tok: Token, before: Option<string>): Option<string>
  {
    if v.ScopeVerifier? then SubAfterScope(tok.claims, before) else before
  }

  method CustomVerify(v: Verifier, g: RequestGlobals, key: Key, tok: Token, allowedScopes: Option<seq<string>>)
    returns (r: Result<bool, VerifyError>)
    modifies g
    ensures r == Outcome(v, key, tok, allowedScopes)
    ensures g.sub == SubAfter(v, tok, old(g.sub))
  {
    match v
    case ClaimAudVerifier(audience, separator) =>
      r := ClaimAudCustomVerify(audience, separator, tok);
    case KIDVerifier =>
      r := KidOutcome(tok);
    case AlgVerifier =>
      r := AlgOutcome(key, tok);
    case ScopeVerifier =>
      r := ScopeCustomVerify(g, tok, allowedScopes);
  }
}
