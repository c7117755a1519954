/** The authentication middleware: the API-key gate, the administrator
    gate and the two bearer-token gates. A gate either passes the request
    on, possibly annotated with the caller's kind or decoded token, or
    answers it with an error. The environment's keys are parameters, and
    the token library's verification is a function parameter that reports
    what became of the token. */
module Middleware {
  import opened Common

  /** `process.env.API_KEY` and `process.env.ADMIN_API_KEY`; either may be
      unset. */
  datatype Env = Env(apiKey: Option<string>, adminApiKey: Option<string>)

  /** What the token library makes of a token: its decoded payload, or
      the kind of error it throws. */
  datatype Decoded = Valid(claims: string) | Expired | Malformed | OtherFailure

  /** The parts of a request the gates read and write: the
      `Authorization` and `x-api-key` headers, the `api_key` query
      parameter, and the annotations `userType` and `user`. */
  datatype Request = Request(
    authorization: Option<string>,
    apiKeyHeader: Option<string>,
    apiKeyQuery: Option<string>,
    userType: Option<string>,
    user: Option<string>)

  /** The refusals, one per error message of the middleware. */
  datatype Denial =
    | ApiKeyRequired
    | WrongApiKey
    | AdminRequired
    | TokenRequired
    | SessionExpired
    | BadToken
    | VerificationError

  /** Every refusal is a 401 except an unexpected verification failure,
      which is a 500. */
  function Status(d: Denial): (code: int)
    ensures code == 500 <==> d == VerificationError
    ensures code != 500 ==> code == 401
  {
    if d == VerificationError then 500 else 401
  }

  const Bearer: string := "Bearer "

  /** The presented key: the header when it is non-empty, the query
      parameter otherwise. */
  function PresentedKey(req: Request): (k: Option<string>)
    ensures Truthy(req.apiKeyHeader) ==> k == req.apiKeyHeader
    ensures !Truthy(req.apiKeyHeader) ==> k == req.apiKeyQuery
  {
    if Truthy(req.apiKeyHeader) then req.apiKeyHeader else req.apiKeyQuery
  }

  /** `verifyApiKey`: a request without a key in either place is refused,
      then a key equal to neither configured key; an accepted request is
      marked "admin" exactly when its key is the administrator key, and
      "user" otherwise. Nothing else about the request changes. */
  function VerifyApiKey(env: Env, req: Request): (r: Result<Request, Denial>)
    ensures r == Err(ApiKeyRequired) <==> !Truthy(req.apiKeyHeader) && !Truthy(req.apiKeyQuery)
    ensures r == Err(WrongApiKey) <==>
      (|| Truthy(req.apiKeyHeader) || Truthy(req.apiKeyQuery))
      && PresentedKey(req) != env.apiKey && PresentedKey(req) != env.adminApiKey
    ensures r.Ok? ==> r.value.userType.Some?
    ensures r.Ok? ==> r.value == req.(userType := r.value.userType)
    ensures r.Ok? ==> (r.value.userType == Some("admin") <==> PresentedKey(req) == env.adminApiKey)
    ensures r.Ok? && r.value.userType != Some("admin") ==>
      r.value.userType == Some("user") && PresentedKey(req) == env.apiKey
  {
    var key := PresentedKey(req);
    if !Truthy(key) then Err(ApiKeyRequired)
    else if key != env.apiKey && key != env.adminApiKey then Err(WrongApiKey)
    else Ok(req.(userType := Some(if key == env.adminApiKey then "admin" else "user")))
  }

  /** `requireAdmin`: passes the request unchanged exactly when it is
      marked "admin". */
  function RequireAdmin(req: Request): (r: Result<Request, Denial>)
    ensures r.Ok? <==> req.userType == Some("admin")
    ensures r.Ok? ==> r.value == req
    ensures r.Err? ==> r.error == AdminRequired
  {
    if req.userType != Some("admin") then Err(AdminRequired) else Ok(req)
  }

  /** Both gates in the order the admin routes mount them. */
  function AdminGate(env: Env, req: Request): Result<Request, Denial> {
    match VerifyApiKey(env, req)
    case Err(d) => Err(d)
    case Ok(req') => RequireAdmin(req')
  }

  /** Only the administrator key opens the admin routes: the two gates
      together pass a request exactly when it presents a non-empty key
      equal to `ADMIN_API_KEY`, whatever the ordinary key is. */
  lemma AdminGateIffAdminKey(env: Env, req: Request)
    ensures AdminGate(env, req).Ok? <==> Truthy(PresentedKey(req)) && PresentedKey(req) == env.adminApiKey
  {
  }

  /** The token a `verifyJWT`-style gate looks at: the header after the
      seven characters of `Bearer `, when the header carries that prefix. */
  function BearerToken(req: Request): (t: Option<string>)
    ensures t.Some? <==> Truthy(req.authorization) && StartsWith(req.authorization.value, Bearer)
    ensures t.Some? ==> req.authorization.value == Bearer + t.value
  {
    if Truthy(req.authorization) && StartsWith(req.authorization.value, Bearer)
    then Some(req.authorization.value[|Bearer|..])
    else None
  }

  /** `verifyJWT`: a missing header or one without the `Bearer ` prefix is
      refused; otherwise the token decides: a valid token passes the
      request on with its payload as `user`, an expired one ends the
      session, a malformed one is refused, and any other failure of the
      library is a server error. */
  function VerifyJwt(decode: string -> Decoded, req: Request): (r: Result<Request, Denial>)
    ensures r == Err(TokenRequired) <==> BearerToken(req).None?
    ensures r.Ok? <==> BearerToken(req).Some? && decode(BearerToken(req).value).Valid?
    ensures r.Ok? ==> r.value == req.(user := Some(decode(BearerToken(req).value).claims))
    ensures r == Err(SessionExpired) <==> BearerToken(req).Some? && decode(BearerToken(req).value).Expired?
    ensures r == Err(BadToken) <==> BearerToken(req).Some? && decode(BearerToken(req).value).Malformed?
    ensures r == Err(VerificationError) <==>
      BearerToken(req).Some? && decode(BearerToken(req).value).OtherFailure?
  {
    match BearerToken(req)
    case None => Err(TokenRequired)
    case Some(token) =>
      match decode(token)
      case Valid(claims) => Ok(req.(user := Some(claims)))
      case Expired => Err(SessionExpired)
      case Malformed => Err(BadToken)
      case OtherFailure => Err(VerificationError)
  }

  /** `optionalJWT`: never refuses. The request gains a `user` only from a
      bearer token that decodes; in every other case it passes unchanged. */
  function OptionalJwt(decode: string -> Decoded, req: Request): (r: Request)
    ensures r.user != req.user ==>
      BearerToken(req).Some? && decode(BearerToken(req).value).Valid?
      && r.user == Some(decode(BearerToken(req).value).claims)
    ensures r == req.(user := r.user)
  {
    match BearerToken(req)
    case Some(token) =>
      (match decode(token)
       case Valid(claims) => req.(user := Some(claims))
       case _ => req)
    case None => req
  }

  /** The optional gate agrees with the strict one: where `verifyJWT`
      passes, `optionalJWT` annotates the request identically, and where
      `verifyJWT` refuses, `optionalJWT` leaves the request as it was. */
  lemma OptionalAgreesWithStrict(decode: string -> Decoded, req: Request)
    ensures VerifyJwt(decode, req).Ok? ==> OptionalJwt(decode, req) == VerifyJwt(decode, req).value
    ensures VerifyJwt(decode, req).Err? ==> OptionalJwt(decode, req) == req
  {
  }
}
