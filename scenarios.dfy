/** Whole request sequences run against a fresh store, showing what the handlers do
    together. */
module Scenarios {
  import opened Base
  import opened Crypto
  import Jwt
  import opened UserModel
  import opened UserController
  import opened AuthMiddleware
  import opened ApiRoutes

  /** Register, log in, fail a login, request an OTP, reset the password with it, then
      try the old and the new password. Both fail: the reset stored the hash of a hash,
      which no plaintext verifies against. Only the text of the intermediate digest of
      the new password logs in, and that digest is never stored, returned or logged. */
  method RecoveryLocksAccountOut(jwt: Jwt.Config, draw: real, now: int)
    returns (statuses: seq<Outcome>)
    requires 0.0 <= draw < 1.0
    ensures statuses == [Respond(201), Respond(201), Respond(401), Respond(200), Respond(200),
                         Respond(401), Respond(401), Respond(201)]
  {
    var store := new UserStore();
    var registered, _ := RegisterUser(store, Some("A"), Some("a@x.com"), Some(Plain("secret1")));
    var login1, _, _ := LoginUser(store, jwt, Some("a@x.com"), Some(Plain("secret1")));
    var login2, _, _ := LoginUser(store, jwt, Some("a@x.com"), Some(Plain("wrong")));
    var forgot, _ := ForgotPassword(store, Some("a@x.com"), draw, now, true);
    var reset := ResetPassword(store, Some("a@x.com"), Some(OtpString(draw)), Some(Plain("newpass")), Some(Plain("newpass")), now);
    var login3, _, _ := LoginUser(store, jwt, Some("a@x.com"), Some(Plain("secret1")));
    var login4, _, _ := LoginUser(store, jwt, Some("a@x.com"), Some(Plain("newpass")));
    var login5, _, _ := LoginUser(store, jwt, Some("a@x.com"), Some(Hash(Plain("newpass"))));
    statuses := [registered, login1, login2, forgot, reset, login3, login4, login5];
  }

  /** An OTP requested at `now` is refused at exactly `now` plus five minutes and accepted
      one millisecond earlier, long after the one minute the mail announces. */
  method OtpExpiryBoundary(draw: real, now: int) returns (statuses: seq<Outcome>)
    requires 0.0 <= draw < 1.0
    ensures statuses == [Respond(201), Respond(200), Respond(400), Respond(200)]
  {
    var store := new UserStore();
    var registered, _ := RegisterUser(store, Some("A"), Some("a@x.com"), Some(Plain("secret1")));
    var forgot, mail := ForgotPassword(store, Some("a@x.com"), draw, now, true);
    var otp := OtpString(draw);
    var atExpiry := ResetPassword(store, Some("a@x.com"), Some(otp), Some(Plain("p")), Some(Plain("p")), now + OtpTtlMs);
    var justBefore := ResetPassword(store, Some("a@x.com"), Some(otp), Some(Plain("p")), Some(Plain("p")), now + OtpTtlMs - 1);
    statuses := [registered, forgot, atExpiry, justBefore];
  }

  /** With `jwt` bound, even the refresh token issued by the login just before is refused
      with 401: login never stored it, so it never matches. */
  method RefreshRightAfterLogin(jwt: Jwt.Config) returns (statuses: seq<Outcome>)
    requires Jwt.Sound(jwt)
    ensures statuses == [Respond(201), Respond(201), Respond(401)]
  {
    var store := new UserStore();
    var registered, _ := RegisterUser(store, Some("A"), Some("a@x.com"), Some(Plain("secret1")));
    var login, tokens, _ := LoginUser(store, jwt, Some("a@x.com"), Some(Plain("secret1")));
    var refreshed := RefreshWithJwtBound(store, jwt, Some(tokens.value.refreshToken), None);
    statuses := [registered, login, refreshed];
  }

  /** `/logout` with the access token from login is answered with 200 whether the token
      comes as the cookie or as a Bearer header; without any token it gets no response. */
  method GatedLogout(jwt: Jwt.Config) returns (statuses: seq<Outcome>)
    requires Jwt.Sound(jwt)
    ensures statuses == [Respond(201), Respond(200), Respond(200), NoResponse]
  {
    var store := new UserStore();
    var _, _ := RegisterUser(store, Some("A"), Some("a@x.com"), Some(Plain("secret1")));
    var login, tokens, _ := LoginUser(store, jwt, Some("a@x.com"), Some(Plain("secret1")));
    GateAdmitsAccessTokenHolder(store.docs, jwt, 0, None);
    GateAdmitsBearerHolder(store.docs, jwt, 0, map[]);
    var byCookie := new Request(map["accessToken" := tokens.value.accessToken], None);
    var cookieLogout := Logout(byCookie, store, jwt);
    var byHeader := new Request(map[], Some(BearerPrefix + tokens.value.accessToken));
    var headerLogout := Logout(byHeader, store, jwt);
    var anonymous := new Request(map[], None);
    var anonymousLogout := Logout(anonymous, store, jwt);
    statuses := [login, cookieLogout, headerLogout, anonymousLogout];
  }
}
