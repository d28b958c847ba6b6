/** `verifyJWT` (backend/src/middlewares/auth.middleware.js): find the access token of a
    request, verify it, and attach the user it names to the request. */
module AuthMiddleware {
  import opened Base
  import opened Text
  import opened Jwt
  import opened Store

  const BearerPrefix: string := "Bearer "
  const UnauthorizedRequest: string := "Unauthorized request"
  const InvalidAccessToken: string := "Invalid Access Token"

  /** `req.cookies?.accessToken || req.header("Authorization")?.replace("Bearer ", "")`. */
  function ExtractToken(cookie: Option<string>, authorization: Option<string>): Option<string> {
    if Truthy(cookie) then cookie
    else match authorization
      case None => None
      case Some(h) => Some(RemoveFirst(h, BearerPrefix))
  }

  /** The decision `verifyJWT` takes: the user the request's access token names, stripped
      of its password and refresh token, or the error, always with status 401. */
  function Authenticate(users: map<Id, User>, cookie: Option<string>, authorization: Option<string>)
    : (r: Result<PublicUser>)
    ensures r.Err? ==> r.error.Fail? && r.error.status == 401
    ensures r.Ok? <==>
      var t := ExtractToken(cookie, authorization);
      Truthy(t) && Verify(t.value, AccessTokenSecret).Some?
      && Verify(t.value, AccessTokenSecret).value.sub in users
    ensures r.Ok? ==> r.value.id in users && r.value == Public(r.value.id, users[r.value.id])
    ensures r.Ok? ==> exists n: nat :: ExtractToken(cookie, authorization) == Some(Sign(AccessTokenSecret, r.value.id, n))
  {
    var token := ExtractToken(cookie, authorization);
    if !Truthy(token) then Err(Fail(401, UnauthorizedRequest))
    else match Verify(token.value, AccessTokenSecret)
      case None => Err(Fail(401, InvalidTokenMessage))
      case Some(claims) =>
        if claims.sub !in users then Err(Fail(401, InvalidAccessToken))
        else Ok(Public(claims.sub, users[claims.sub]))
  }

  /** A truthy `accessToken` cookie wins over any `Authorization` header. */
  lemma CookieTakesPrecedence(cookie: Option<string>, authorization: Option<string>)
    requires Truthy(cookie)
    ensures ExtractToken(cookie, authorization) == cookie
  {
  }

  /** Without a cookie, `Authorization: Bearer <t>` yields `t`. */
  lemma BearerHeaderYieldsToken(t: string)
    ensures ExtractToken(None, Some(BearerPrefix + t)) == Some(t)
  {
    RemoveFirstOfPrefixed(BearerPrefix, t);
  }

  /** Without a cookie, a header that does not contain `Bearer ` is the token as it is. */
  lemma HeaderWithoutBearerIsTokenAsIs(cookie: Option<string>, h: string)
    requires !Truthy(cookie) && IndexOf(h, BearerPrefix).None?
    ensures ExtractToken(cookie, Some(h)) == Some(h)
  {
  }

  /** No cookie and no header: the request is refused as unauthorized. */
  lemma NoTokenIsUnauthorized(users: map<Id, User>, cookie: Option<string>)
    requires !Truthy(cookie)
    ensures Authenticate(users, cookie, None) == Err(Fail(401, UnauthorizedRequest))
  {
  }

  /** An access token for an existing user, sent as a bearer header, authenticates that user. */
  lemma BearerAccessTokenAuthenticates(users: map<Id, User>, id: Id, serial: nat)
    requires id in users
    ensures Authenticate(users, None, Some(BearerPrefix + Sign(AccessTokenSecret, id, serial)))
         == Ok(Public(id, users[id]))
  {
    BearerHeaderYieldsToken(Sign(AccessTokenSecret, id, serial));
    VerifySign(AccessTokenSecret, id, serial);
  }

  /** Tokens are checked against the access secret: a refresh token does not authenticate. */
  lemma RefreshTokenDoesNotAuthenticate(users: map<Id, User>, id: Id, serial: nat, authorization: Option<string>)
    ensures Authenticate(users, Some(Sign(RefreshTokenSecret, id, serial)), authorization)
         == Err(Fail(401, InvalidTokenMessage))
  {
    VerifyOtherSecret(RefreshTokenSecret, AccessTokenSecret, id, serial);
  }

  /** A valid access token whose user no longer exists is refused. */
  lemma DeletedUserIsRefused(users: map<Id, User>, id: Id, serial: nat)
    requires id !in users
    ensures Authenticate(users, Some(Sign(AccessTokenSecret, id, serial)), None)
         == Err(Fail(401, InvalidAccessToken))
  {
    VerifySign(AccessTokenSecret, id, serial);
  }

  /** The parts of an Express request `verifyJWT` reads and writes. `nextCalls` counts the
      calls of `next()`. */
  class Request {
    const cookieAccessToken: Option<string>
    const authorization: Option<string>
    var user: Option<PublicUser>
    var nextCalls: nat

    constructor (cookieAccessToken: Option<string>, authorization: Option<string>)
      ensures this.cookieAccessToken == cookieAccessToken && this.authorization == authorization
      ensures user.None? && nextCalls == 0
    {
      this.cookieAccessToken := cookieAccessToken;
      this.authorization := authorization;
      user, nextCalls := None, 0;
    }
  }

  /** The middleware: on success `req.user` is set and `next()` runs once; on failure the
      request is left as it was and the 401 error is raised. */
  method VerifyJwt(req: Request, db: Database) returns (r: Result<PublicUser>)
    modifies req
    ensures r == Authenticate(db.users, req.cookieAccessToken, req.authorization)
    ensures r.Ok? ==> req.user == Some(r.value) && req.nextCalls == old(req.nextCalls) + 1
    ensures r.Err? ==> req.user == old(req.user) && req.nextCalls == old(req.nextCalls)
  {
    var token := ExtractToken(req.cookieAccessToken, req.authorization);
    if !Truthy(token) {
      return Err(Fail(401, UnauthorizedRequest));
    }
    var decoded := Verify(token.value, AccessTokenSecret);
    if decoded.None? {
      return Err(Fail(401, InvalidTokenMessage));
    }
    var id := decoded.value.sub;
    if id !in db.users {
      return Err(Fail(401, InvalidAccessToken));
    }
    var user := Public(id, db.users[id]);
    req.user := Some(user);
    req.nextCalls := req.nextCalls + 1;
    r := Ok(user);
  }
}
