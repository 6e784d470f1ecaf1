/**
 * The `Authorization` value parser and the error it raises
 * (facial-service/app/controller/facial_service/auth_jwt.py).
 */
module AuthJwt {
  import opened Wrappers
  import opened Text

  /** `JWTError(error, description, status_code=401, headers=None)`. */
  datatype JWTError = JWTError(error: string, description: string, statusCode: int, headers: Option<map<string, string>>)

  /** `JWTError(error, description)` with the default status and headers. */
  function NewJWTError(error: string, description: string): (e: JWTError)
    ensures e.statusCode == 401 && e.headers == None
    ensures e.error == error && e.description == description
  {
    JWTError(error, description, 401, None)
  }

  /** `__repr__`. */
  function Repr(e: JWTError): (r: string)
    ensures |r| == |e.error| + 10
    ensures r[..10] == "JWTError: " && r[10..] == e.error
  {
    "JWTError: " + e.error
  }

  /** `__str__`: `'%s. %s' % (error, description)`. */
  function ToString(e: JWTError): (r: string)
    ensures |r| == |e.error| + 2 + |e.description|
    ensures r[..|e.error|] == e.error && r[|e.error|..|e.error| + 2] == ". " && r[|e.error| + 2..] == e.description
  {
    e.error + ". " + e.description
  }

  /** The dict `to_dict` returns. */
  datatype ErrorDict = ErrorDict(statusCode: int, error: string, data: string)

  /** `to_dict`: its `error` entry is the same text as the exception's string form. */
  function ToDict(e: JWTError): (d: ErrorDict)
    ensures d.statusCode == e.statusCode && d.data == ""
    ensures d.error == ToString(e)
  {
    var rv := ErrorDict(0, "", "");
    var rv := rv.(statusCode := e.statusCode);
    var rv := rv.(error := e.error + ". " + e.description);
    rv.(data := "")
  }

  /** What `request_handle` can raise: its own error, or `IndexError` when the value is only whitespace. */
  datatype HandleError = Jwt(jwt: JWTError) | IndexError

  /** Python truthiness of an optional string: present and non-empty. */
  predicate Truthy(v: Option<string>)
  {
    v.Some? && v.value != ""
  }

  /** `auth_header_prefix`. */
  const AuthHeaderPrefix: seq<string> := ["jwt", "token", "bearer"]

  const InvalidHeader: string := "Invalid JWT header"

  /**
   * The checks on the chosen value's whitespace-separated parts, in source order: the
   * scheme first, then the number of parts.
   */
  function HandleValue(value: string): (r: Result<Option<(string, string)>, HandleError>)
    ensures Words(value) == [] <==> r == Err(IndexError)
    ensures Words(value) != [] && Lower(Words(value)[0]) !in AuthHeaderPrefix ==>
      r == Err(Jwt(NewJWTError(InvalidHeader, "Unsupported authorization type")))
    ensures r.Ok? <==> |Words(value)| == 2 && Lower(Words(value)[0]) in AuthHeaderPrefix
    ensures r.Ok? ==> r.value == Some((Words(value)[0], Words(value)[1]))
    ensures r == Err(Jwt(NewJWTError(InvalidHeader, "Token missing"))) <==>
      |Words(value)| == 1 && Lower(Words(value)[0]) in AuthHeaderPrefix
    ensures r == Err(Jwt(NewJWTError(InvalidHeader, "Token contains spaces"))) <==>
      |Words(value)| > 2 && Lower(Words(value)[0]) in AuthHeaderPrefix
  {
    var parts := Words(value);
    if |parts| == 0 then Err(IndexError)
    else if Lower(parts[0]) !in AuthHeaderPrefix then Err(Jwt(NewJWTError(InvalidHeader, "Unsupported authorization type")))
    else if |parts| == 1 then Err(Jwt(NewJWTError(InvalidHeader, "Token missing")))
    else if |parts| > 2 then Err(Jwt(NewJWTError(InvalidHeader, "Token contains spaces")))
    else Ok(Some((parts[0], parts[1])))
  }

  /**
   * `request_handle` given the header's and the form's `Authorization` values: the header
   * wins when it is non-empty; with neither, the result is `(None, None)`.
   */
  function RequestHandle(header: Option<string>, body: Option<string>): (r: Result<Option<(string, string)>, HandleError>)
    ensures !Truthy(header) && !Truthy(body) <==> r == Ok(None)
    ensures Truthy(header) ==> r == HandleValue(header.value)
    ensures !Truthy(header) && Truthy(body) ==> r == HandleValue(body.value)
  {
    if Truthy(header) then HandleValue(header.value)
    else if Truthy(body) then HandleValue(body.value)
    else Ok(None)
  }

  /** Once the header is non-empty the form value is never looked at. */
  lemma HeaderTakesPrecedence(header: string, body1: Option<string>, body2: Option<string>)
    requires header != ""
    ensures RequestHandle(Some(header), body1) == RequestHandle(Some(header), body2)
  {
  }

  /**
   * A well-formed `<scheme> <token>` value parses back into its two parts, with the
   * scheme in its original case.
   */
  lemma {:induction false} SchemeAndTokenParse(scheme: string, token: string)
    requires Lower(scheme) in AuthHeaderPrefix
    requires |token| > 0 && NoSpace(token) && NoSpace(scheme)
    ensures HandleValue(scheme + " " + token) == Ok(Some((scheme, token)))
  {
    assert |scheme| > 0;
    var ws := [scheme, token];
    assert JoinSpace(ws) == scheme + " " + token by {
      assert JoinSpace(ws[1..]) == token;
    }
    WordsOfJoinSpace(ws);
  }

  /** Every error `request_handle` raises itself reports status 401 under "Invalid JWT header. ...". */
  lemma HandleErrorsAre401(header: Option<string>, body: Option<string>)
    requires RequestHandle(header, body).Err? && RequestHandle(header, body).error.Jwt?
    ensures ToDict(RequestHandle(header, body).error.jwt).statusCode == 401
    ensures StartsWith(ToDict(RequestHandle(header, body).error.jwt).error, InvalidHeader + ". ")
  {
    var e := RequestHandle(header, body).error.jwt;
    assert ToString(e) == InvalidHeader + ". " + e.description;
    assert (InvalidHeader + ". " + e.description)[..|InvalidHeader + ". "|] == InvalidHeader + ". ";
  }
}
