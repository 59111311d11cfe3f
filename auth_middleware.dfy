/**
 * The `authUser` middleware of backend/middleware/auth.middleware.js: the token from the cookie or the
 * Authorization header, then the revocation list, then verification. The revocation list (Redis) and
 * `jwt.verify` are oracles.
 */
module AuthMiddleware {
  import opened Wrappers
  import opened JsValues
  import opened Text
  import opened ExternalCalls

  /** What `redisClient.get(token)` gives: a stored value, nothing (`null`), or the error it throws. */
  datatype RedisReply = Hit(value: string) | Miss | RedisFailed(msg: string)

  type Blacklist = string -> RedisReply

  /** The two token sources: `req.cookies.token` and `req.headers.authorization`. */
  datatype Request = Request(cookieToken: Option<string>, authorization: Option<string>)

  /** The decision: call `next` with `req.user` set, or answer 401, clearing the cookie when the token was revoked. */
  datatype Decision = Proceed(user: Json) | Unauthorised(clearCookie: bool)

  const UnauthorisedStatus := 401
  /** The body of every rejection: `{error: 'Unauthorised User'}`. */
  const UnauthorisedBody := JObject(map["error" := JString("Unauthorised User")])

  /**
   * `req.cookies.token || req.headers.authorization.split(' ')[1]`: `Failure` when the cookie is falsy and
   * the header is absent (calling `split` on `undefined` throws).
   */
  function RequestToken(req: Request): (r: Result<Option<string>, string>)
    ensures req.cookieToken.Some? && req.cookieToken.value != "" ==> r == Success(req.cookieToken)
    ensures r.Failure? <==> (req.cookieToken.None? || req.cookieToken.value == "") && req.authorization.None?
    ensures (req.cookieToken.None? || req.cookieToken.value == "") && req.authorization.Some? ==>
              r == Success(SecondWord(req.authorization.value))
  {
    if req.cookieToken.Some? && req.cookieToken.value != "" then Success(req.cookieToken)
    else if req.authorization.None? then Failure("Cannot read properties of undefined (reading 'split')")
    else Success(SecondWord(req.authorization.value))
  }

  /** Whether a reply marks the token as revoked: a truthy stored value. */
  predicate Revoked(reply: RedisReply)
  {
    reply.Hit? && reply.value != ""
  }

  /** The token the middleware goes on with, when there is a non-empty one. */
  predicate HasToken(req: Request)
  {
    RequestToken(req).Success? && RequestToken(req).value.Some? && RequestToken(req).value.value != ""
  }

  /** The non-empty token of a request that has one. */
  function Token(req: Request): string
    requires HasToken(req)
  {
    RequestToken(req).value.value
  }

  /**
   * The check chain of `authUser`: the token source, then the revocation list, then verification; a
   * throw anywhere (the header `split`, the store, `jwt.verify`) ends in the same 401 as the explicit
   * rejections.
   */
  function Authenticate(req: Request, blacklist: Blacklist, verify: Verifier): (d: Decision)
    ensures d.Proceed? <==>
              HasToken(req) && (blacklist(Token(req)).Miss? || blacklist(Token(req)) == Hit(""))
              && verify(Token(req)).Success?
    ensures d.Proceed? ==> d.user == verify(Token(req)).value
    ensures d == Unauthorised(true) <==> HasToken(req) && Revoked(blacklist(Token(req)))
  {
    match RequestToken(req)
    case Failure(_) => Unauthorised(false)
    case Success(token) =>
      if token.None? || token.value == "" then Unauthorised(false)
      else
        var reply := blacklist(token.value);
        if reply.RedisFailed? then Unauthorised(false)
        else if Revoked(reply) then Unauthorised(true)
        else match verify(token.value)
          case Failure(_) => Unauthorised(false)
          case Success(decoded) => Proceed(decoded)
  }

  /** With neither a cookie nor an Authorization header the request is rejected. */
  lemma NoTokenSourceRejected(req: Request, blacklist: Blacklist, verify: Verifier)
    requires (req.cookieToken.None? || req.cookieToken.value == "") && req.authorization.None?
    ensures Authenticate(req, blacklist, verify) == Unauthorised(false)
  {
  }

  /** A revoked token is rejected and the cookie cleared, whatever verification would say. */
  lemma RevokedTokenRejected(req: Request, blacklist: Blacklist, verify1: Verifier, verify2: Verifier)
    requires HasToken(req) && Revoked(blacklist(Token(req)))
    ensures Authenticate(req, blacklist, verify1) == Authenticate(req, blacklist, verify2) == Unauthorised(true)
  {
  }

  /** The revocation list after logout stored the token with the value 'logout'. */
  function AfterLogout(blacklist: Blacklist, token: string): Blacklist
  {
    t => if t == token then Hit("logout") else blacklist(t)
  }

  /** Once logout has revoked a request's token, that request is rejected and its cookie cleared. */
  lemma LoggedOutTokenRejected(req: Request, blacklist: Blacklist, verify: Verifier)
    requires HasToken(req)
    ensures Authenticate(req, AfterLogout(blacklist, Token(req)), verify) == Unauthorised(true)
  {
    assert AfterLogout(blacklist, Token(req))(Token(req)) == Hit("logout");
  }

  /** Without a cookie, the credential of a `Bearer` header is the token. */
  lemma BearerHeaderSuppliesRequestToken(req: Request, credential: string)
    requires req.cookieToken.None? || req.cookieToken.value == ""
    requires req.authorization == Some("Bearer " + credential) && ' ' !in credential
    ensures RequestToken(req) == Success(Some(credential))
  {
    SecondWordOfSchemeAndCredential("Bearer", credential);
    assert "Bearer" + " " + credential == "Bearer " + credential;
  }

  /** A cookie token takes precedence over the header. */
  lemma CookieTakesPrecedence(req: Request, header: Option<string>, blacklist: Blacklist, verify: Verifier)
    requires req.cookieToken.Some? && req.cookieToken.value != ""
    ensures Authenticate(req, blacklist, verify) == Authenticate(Request(req.cookieToken, header), blacklist, verify)
  {
  }

  /** One request/response pair as the middleware sees it. */
  class Exchange {
    const request: Request
    var user: Option<Json>        // req.user
    var cookieCleared: bool       // res.cookie('token', '') was called
    var status: Option<int>       // the status sent, if any
    var body: Option<Json>        // the body sent, if any
    var nextCalled: bool

    constructor (request: Request)
      ensures this.request == request && user.None? && !cookieCleared && status.None? && body.None? && !nextCalled
    {
      this.request := request;
      user, cookieCleared, status, body, nextCalled := None, false, None, None, false;
    }

    /** `authUser(req, res, next)`: either `req.user` is set and `next` runs, or the 401 body is sent. */
    method AuthUser(blacklist: Blacklist, verify: Verifier)
      modifies this
      ensures var d := Authenticate(request, blacklist, verify);
              match d
              case Proceed(u) =>
                user == Some(u) && nextCalled && status == old(status) && body == old(body)
                && cookieCleared == old(cookieCleared)
              case Unauthorised(clear) =>
                status == Some(UnauthorisedStatus) && body == Some(UnauthorisedBody)
                && user == old(user) && nextCalled == old(nextCalled)
                && cookieCleared == (old(cookieCleared) || clear)
    {
      var decision := Authenticate(request, blacklist, verify);
      match decision
      case Proceed(decoded) =>
        user := Some(decoded);
        nextCalled := true;
      case Unauthorised(clear) =>
        if clear {
          cookieCleared := true;
        }
        status := Some(UnauthorisedStatus);
        body := Some(UnauthorisedBody);
    }
  }
}
