/** The `verifyJWT` middleware of src/middlewares/auth.middleware.js: picks the access
    token from the cookie or the Authorization header, verifies it, looks the user up,
    and only then sets `req.user` and calls `next`. Every failure is swallowed: no
    response, no `next`. */
module AuthMiddleware {
  import opened Base
  import Jwt
  import Text
  import opened UserModel

  const BearerPrefix: string := "Bearer "

  /** The parts of an Express request the gate reads and writes. */
  class Request {
    const cookies: map<string, string>
    const authorization: Option<string>
    var user: Option<PublicUser>

    constructor (cookies: map<string, string>, authorization: Option<string>)
      ensures this.cookies == cookies && this.authorization == authorization && user.None?
    {
      this.cookies := cookies;
      this.authorization := authorization;
      user := None;
    }
  }

  /** `req.cookies?.accessToken`. */
  function AccessCookie(cookies: map<string, string>): Option<string> {
    if "accessToken" in cookies then Some(cookies["accessToken"]) else None
  }

  /** `req.cookies?.accessToken || req.header("Authorization")?.replace("Bearer ", "")`. */
  function ExtractToken(cookies: map<string, string>, authorization: Option<string>): (token: Option<string>)
    ensures Present(AccessCookie(cookies)) ==> token == AccessCookie(cookies)
    ensures !Present(AccessCookie(cookies)) && authorization.None? ==> token.None?
    ensures forall t :: !Present(AccessCookie(cookies)) && authorization == Some(BearerPrefix + t) ==> token == Some(t)
  {
    var fromHeader := if authorization.Some? then Some(Text.RemoveFirst(authorization.value, BearerPrefix)) else None;
    assert forall t :: Text.RemoveFirst(BearerPrefix + t, BearerPrefix) == t by {
      forall t ensures Text.RemoveFirst(BearerPrefix + t, BearerPrefix) == t {
        Text.RemoveFirstAt(BearerPrefix + t, BearerPrefix, 0);
      }
    }
    Or(AccessCookie(cookies), fromHeader)
  }

  /** Without a usable cookie, the header loses its first "Bearer " wherever it stands,
      and nothing else. */
  lemma HeaderLosesFirstBearer(cookies: map<string, string>, header: string, i: nat)
    requires !Present(AccessCookie(cookies))
    requires Text.OccursAt(header, BearerPrefix, i)
    requires forall j :: 0 <= j < i ==> !Text.OccursAt(header, BearerPrefix, j)
    ensures ExtractToken(cookies, Some(header)) == Some(header[..i] + header[i + |BearerPrefix|..])
  {
    Text.RemoveFirstAt(header, BearerPrefix, i);
  }

  /** The claims of the request's access token: None when the token is missing or empty,
      or fails verification with the access secret. */
  function Decoded(cookies: map<string, string>, authorization: Option<string>, jwt: Jwt.Config): Option<Jwt.Claims> {
    var token := ExtractToken(cookies, authorization);
    if Present(token) then jwt.verify(token.value, jwt.accessSecret) else None
  }

  /** The decision the gate takes: someone is admitted exactly when the access token
      verifies and names the id of a stored record, and then it is that record. */
  function AuthGate(cookies: map<string, string>, authorization: Option<string>, docs: seq<User>, jwt: Jwt.Config)
    : (admitted: Option<User>)
    ensures var claims := Decoded(cookies, authorization, jwt);
      admitted.Some? <==> claims.Some? && exists i :: 0 <= i < |docs| && docs[i].id == claims.value.id
    ensures admitted.Some? ==>
      admitted.value in docs && admitted.value.id == Decoded(cookies, authorization, jwt).value.id
  {
    var token := ExtractToken(cookies, authorization);
    if !Present(token) then None
    else match jwt.verify(token.value, jwt.accessSecret)
      case None => None
      case Some(claims) =>
        match FirstMatch(docs, ById(claims.id))
        case None => None
        case Some(i) => Some(docs[i])
  }

  /** `verifyJWT(req, _, next)`: calls `next` once and sets `req.user` to the public view
      of the admitted record, or, on any failure, does neither. */
  method VerifyJwt(req: Request, store: UserStore, jwt: Jwt.Config) returns (nextCalls: nat)
    modifies req
    ensures var admitted := AuthGate(req.cookies, req.authorization, store.docs, jwt);
      && nextCalls == (if admitted.Some? then 1 else 0)
      && req.user == if admitted.Some? then Some(View(admitted.value)) else old(req.user)
  {
    nextCalls := 0;
    var token := ExtractToken(req.cookies, req.authorization);
    if !Present(token) {
      return;  // "Not authenticated", swallowed by the empty catch
    }
    var decoded := jwt.verify(token.value, jwt.accessSecret);
    if decoded.None? {
      return;  // jwt.verify throws, swallowed
    }
    var i := FirstMatch(store.docs, ById(decoded.value.id));
    if i.None? {
      return;  // "Not authenticated", swallowed
    }
    req.user := Some(View(store.docs[i.value]));
    nextCalls := 1;
  }

  /** An access token issued for a stored record, sent as the cookie, admits exactly
      that record, whatever the header says. */
  lemma GateAdmitsAccessTokenHolder(docs: seq<User>, jwt: Jwt.Config, i: nat, authorization: Option<string>)
    requires Jwt.Sound(jwt)
    requires DistinctIds(docs) && i < |docs|
    ensures AuthGate(map["accessToken" := docs[i].GenerateAccessToken(jwt)], authorization, docs, jwt) == Some(docs[i])
  {
    var token := docs[i].GenerateAccessToken(jwt);
    assert AccessCookie(map["accessToken" := token]) == Some(token);
    assert jwt.verify(token, jwt.accessSecret) == Some(docs[i].AccessClaims());
    FindById(docs, i);
  }

  /** The same token sent as `Authorization: Bearer <token>`, with no usable cookie,
      admits exactly that record too. */
  lemma GateAdmitsBearerHolder(docs: seq<User>, jwt: Jwt.Config, i: nat, cookies: map<string, string>)
    requires Jwt.Sound(jwt)
    requires DistinctIds(docs) && i < |docs|
    requires !Present(AccessCookie(cookies))
    ensures AuthGate(cookies, Some(BearerPrefix + docs[i].GenerateAccessToken(jwt)), docs, jwt) == Some(docs[i])
  {
    var token := docs[i].GenerateAccessToken(jwt);
    assert ExtractToken(cookies, Some(BearerPrefix + token)) == Some(token);
    assert jwt.verify(token, jwt.accessSecret) == Some(docs[i].AccessClaims());
    FindById(docs, i);
  }

  /** With distinct secrets, a refresh token sent as the access cookie admits nobody. */
  lemma GateRejectsRefreshToken(docs: seq<User>, jwt: Jwt.Config, u: User)
    requires Jwt.SecretBound(jwt) && jwt.accessSecret != jwt.refreshSecret
    ensures AuthGate(map["accessToken" := u.GenerateRefreshToken(jwt)], None, docs, jwt).None?
  {
    var token := u.GenerateRefreshToken(jwt);
    assert AccessCookie(map["accessToken" := token]) == Some(token);
    assert jwt.verify(token, jwt.accessSecret) == None;
  }
}
