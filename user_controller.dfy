/** The request handlers of src/controllers/user.controller.js, each a method over the
    user store that ends with an Outcome. Request fields are optional strings; the
    random draw, the clock and the mail transport's result are parameters. */
module UserController {
  import opened Base
  import opened Crypto
  import Jwt
  import Text
  import opened UserModel

  datatype TokenPair = TokenPair(accessToken: string, refreshToken: string)

  /** A message handed to the mail transport. */
  datatype Mail = Mail(to: string, subject: string, text: string)

  /** The OTP lifetime: 5 minutes in milliseconds (the comment and the mail say 1 minute). */
  const OtpTtlMs: int := 5 * 60 * 1000

  /** `Math.floor(1000 + draw * 9000)` for a draw of `Math.random()`. */
  function OtpCode(draw: real): (code: int)
    requires 0.0 <= draw < 1.0
    ensures 1000 <= code <= 9999
  {
    (1000.0 + draw * 9000.0).Floor
  }

  /** The OTP as stored and mailed: the code's decimal string, a four-digit code that
      reads back as the drawn number. */
  function OtpString(draw: real): (otp: string)
    requires 0.0 <= draw < 1.0
    ensures IsOtpCode(otp) && Text.ParseDecimal(otp) == OtpCode(draw)
  {
    var code := OtpCode(draw);
    Text.FourDigitString(code);
    Text.ParseDecimalString(code);
    Text.DecimalString(code)
  }

  function OtpMailText(otp: string): string {
    "Your OTP code is " + otp + " (expires in 1 minute)."
  }

  /** The query `{email, otp, otpExpire: {$gt: now}}`: expiry strictly after now. */
  function ByValidOtp(email: string, otp: string, now: int): User -> bool {
    (u: User) => u.email == email && u.otp == Some(otp) && u.otpExpire.Some? && u.otpExpire.value > now
  }

  /** `generateAccessAndRefereshTokens(userId)`: signs both tokens for the record with that
      id, assigns the refresh token to the loaded document and saves it. The assignment
      is not to a schema path, so the save writes the record back as it was. None stands
      for the rethrown error when no record has the id. */
  method GenerateAccessAndRefreshTokens(store: UserStore, jwt: Jwt.Config, userId: Id) returns (tokens: Option<TokenPair>)
    requires store.Valid()
    modifies store`docs
    ensures store.Valid() && store.docs == old(store.docs)
    ensures tokens.None? <==> store.IndexOf(userId).None?
    ensures tokens.Some? ==>
      var u := store.docs[store.IndexOf(userId).value];
      tokens == Some(TokenPair(u.GenerateAccessToken(jwt), u.GenerateRefreshToken(jwt)))
  {
    var i := store.IndexOf(userId);
    if i.None? {
      return None;
    }
    var doc := store.Load(i.value);
    var accessToken := doc.Record().GenerateAccessToken(jwt);
    var refreshToken := doc.Record().GenerateRefreshToken(jwt);
    doc.refreshToken := Some(refreshToken);
    store.Save(doc);
    tokens := Some(TokenPair(accessToken, refreshToken));
  }

  /** `registerUser`: 400 without email or password or when the email is taken, 500 when
      the name fails the schema's required check, otherwise 201 and one new record with
      the hashed password. The reply carries the created record, hash included. */
  method RegisterUser(store: UserStore, name: Option<string>, email: Option<string>, password: Option<Secret>)
    returns (out: Outcome, created: Option<User>)
    requires store.Valid()
    modifies store
    ensures store.Valid()
    ensures out.Respond? && (out.status == 201 <==> created.Some?)
    ensures created.None? ==> store.docs == old(store.docs) && store.nextId == old(store.nextId)
    ensures !Present(email) || !Filled(password) ==> out == Respond(400)
    ensures Present(email) && Filled(password) && old(store.IndexOfEmail(email.value)).Some? ==>
      out == Respond(400)
    ensures Present(email) && Filled(password) && old(store.IndexOfEmail(email.value)).None? && !Present(name) ==>
      out == Respond(500)
    ensures Present(email) && Filled(password) && old(store.IndexOfEmail(email.value)).None? && Present(name) ==>
      && out == Respond(201)
      && created == Some(User(old(store.nextId), name.value, email.value, Hash(password.value), None, None))
      && store.docs == old(store.docs) + [created.value]
  {
    created := None;
    if !Present(email) || !Filled(password) {
      return Respond(400), None;
    }
    if store.IndexOfEmail(email.value).Some? {
      return Respond(400), None;
    }
    created := store.Create(name, email.value, password.value);
    out := if created.Some? then Respond(201) else Respond(500);
  }

  /** `loginUser`: 400 without email or password; for an unknown email the handler
      dereferences the missing user before its null check and the error escapes
      (Unhandled); 401 on a wrong password; otherwise 201 with both tokens and the public
      view of the record. The store is left as it was: the refresh token the helper
      assigns is never saved. */
  method LoginUser(store: UserStore, jwt: Jwt.Config, email: Option<string>, password: Option<Secret>)
    returns (out: Outcome, tokens: Option<TokenPair>, user: Option<PublicUser>)
    requires store.Valid()
    modifies store`docs
    ensures store.Valid() && store.docs == old(store.docs)
    ensures out == Respond(201) <==> tokens.Some?
    ensures tokens.Some? <==> user.Some?
    ensures !Present(email) || !Filled(password) ==> out == Respond(400)
    ensures Present(email) && Filled(password) && store.IndexOfEmail(email.value).None? ==> out == Unhandled
    ensures Present(email) && Filled(password) && store.IndexOfEmail(email.value).Some? ==>
      var u := store.docs[store.IndexOfEmail(email.value).value];
      && (!u.IsPasswordCorrect(password.value) ==> out == Respond(401))
      && (u.IsPasswordCorrect(password.value) ==>
            && out == Respond(201)
            && tokens == Some(TokenPair(u.GenerateAccessToken(jwt), u.GenerateRefreshToken(jwt)))
            && user == Some(View(u)))
  {
    tokens, user := None, None;
    if !Present(email) || !Filled(password) {
      return Respond(400), None, None;
    }
    var i := store.IndexOfEmail(email.value);
    if i.None? {
      // user.isPasswordCorrect on null throws before `!user` is ever tested
      return Unhandled, None, None;
    }
    var found := store.docs[i.value];
    if !found.IsPasswordCorrect(password.value) {
      return Respond(401), None, None;
    }
    FindById(store.docs, i.value);
    tokens := GenerateAccessAndRefreshTokens(store, jwt, found.id);
    user := Some(View(store.docs[i.value]));
    out := Respond(201);
  }

  /** `forgotPassword`: 400 without an email, 404 for an unknown one; otherwise the
      record gets a four-digit OTP and an expiry 5 minutes from now, saved before the
      mail is attempted, and the reply is 200 or, when the transport fails, 500 with
      the OTP still stored. */
  method ForgotPassword(store: UserStore, email: Option<string>, draw: real, now: int, mailDelivered: bool)
    returns (out: Outcome, mail: Option<Mail>)
    requires store.Valid()
    requires 0.0 <= draw < 1.0
    modifies store`docs
    ensures store.Valid()
    ensures !Present(email) ==> out == Respond(400) && mail.None? && store.docs == old(store.docs)
    ensures Present(email) && old(store.IndexOfEmail(email.value)).None? ==>
      out == Respond(404) && mail.None? && store.docs == old(store.docs)
    ensures Present(email) && old(store.IndexOfEmail(email.value)).Some? ==>
      var i := old(store.IndexOfEmail(email.value)).value;
      && out == Respond(if mailDelivered then 200 else 500)
      && mail == Some(Mail(email.value, "Password Reset OTP", OtpMailText(OtpString(draw))))
      && store.docs == old(store.docs)[i := old(store.docs[i]).(otp := Some(OtpString(draw)), otpExpire := Some(now + OtpTtlMs))]
  {
    mail := None;
    if !Present(email) {
      return Respond(400), None;
    }
    var i := store.IndexOfEmail(email.value);
    if i.None? {
      return Respond(404), None;
    }
    var otp := OtpString(draw);
    var doc := store.Load(i.value);
    doc.otp := Some(otp);
    doc.otpExpire := Some(now + OtpTtlMs);
    FindById(store.docs, i.value);
    store.Save(doc);
    mail := Some(Mail(email.value, "Password Reset OTP", OtpMailText(otp)));
    out := if mailDelivered then Respond(200) else Respond(500);
  }

  /** `resetPassword`: 400 when a field is missing or the two passwords differ; 400 when
      no record has this email, this OTP and an expiry strictly after now; otherwise 200,
      the OTP cleared and the password set through updatePassword, hence hashed twice. */
  method ResetPassword(store: UserStore, email: Option<string>, otp: Option<string>,
                       newPassword: Option<Secret>, confirmPassword: Option<Secret>, now: int)
    returns (out: Outcome)
    requires store.Valid()
    modifies store`docs
    ensures store.Valid()
    ensures !Present(email) || !Present(otp) || !Filled(newPassword) || !Filled(confirmPassword) ==>
      out == Respond(400) && store.docs == old(store.docs)
    ensures newPassword != confirmPassword ==> out == Respond(400) && store.docs == old(store.docs)
    ensures Present(email) && Present(otp) && Filled(newPassword) && newPassword == confirmPassword ==>
      var found := FirstMatch(old(store.docs), ByValidOtp(email.value, otp.value, now));
      && (found.None? ==> out == Respond(400) && store.docs == old(store.docs))
      && (found.Some? ==>
            && out == Respond(200)
            && store.docs == old(store.docs)[found.value := old(store.docs[found.value]).(
                 password := Hash(Hash(newPassword.value)), otp := None, otpExpire := None)])
  {
    if !Present(email) || !Present(otp) || !Filled(newPassword) || !Filled(confirmPassword) {
      return Respond(400);
    }
    if newPassword.value != confirmPassword.value {
      return Respond(400);
    }
    var i := FirstMatch(store.docs, ByValidOtp(email.value, otp.value, now));
    if i.None? {
      return Respond(400);
    }
    var doc := store.Load(i.value);
    FindById(store.docs, i.value);
    doc.UpdatePassword(newPassword.value, store);
    out := Respond(200);
  }

  /** `logoutUser`: replies 200 once `req.user._id` can be read; without `req.user` the
      property access throws and escapes. The update it sends only `$unset`s
      `refreshToken`, a path the schema does not declare: Mongoose's default strict mode
      strips it, and no record holds that field anyway, so the store is not touched. */
  method LogoutUser(reqUser: Option<PublicUser>) returns (out: Outcome)
    ensures out.Respond? <==> reqUser.Some?
    ensures out.Respond? ==> out.status == 200
    ensures !out.Respond? ==> out == Unhandled
  {
    if reqUser.None? {
      return Unhandled;
    }
    out := Respond(200);
  }

  /** `refreshAccessToken` as written: 401 without a token; otherwise `jwt` is not bound
      in this module, the ReferenceError is caught and the reply is 500, so it never
      succeeds and never touches the store. */
  method RefreshAccessToken(cookieToken: Option<string>, bodyToken: Option<string>) returns (out: Outcome)
    ensures out != Respond(200)
    ensures out == Respond(401) <==> !Present(cookieToken) && !Present(bodyToken)
    ensures out == Respond(500) <==> Present(cookieToken) || Present(bodyToken)
  {
    var incoming := Or(cookieToken, bodyToken);
    if !Present(incoming) {
      return Respond(401);
    }
    out := Respond(500);
  }

  /** Lines 203-216 of `refreshAccessToken` as they would run with `jwt` imported: 500 when
      verification with the refresh secret fails, 403 when no record has the token's id,
      and otherwise 401, because `user?.refreshToken` names no schema path and is always
      undefined, so it never equals the incoming token. The exchange never succeeds. */
  method RefreshWithJwtBound(store: UserStore, jwt: Jwt.Config, cookieToken: Option<string>, bodyToken: Option<string>)
    returns (out: Outcome)
    ensures out != Respond(200)
    ensures !Present(Or(cookieToken, bodyToken)) ==> out == Respond(401)
    ensures Present(Or(cookieToken, bodyToken)) ==>
      var decoded := jwt.verify(Or(cookieToken, bodyToken).value, jwt.refreshSecret);
      && (decoded.None? ==> out == Respond(500))
      && (decoded.Some? && store.IndexOf(decoded.value.id).None? ==> out == Respond(403))
      && (decoded.Some? && store.IndexOf(decoded.value.id).Some? ==> out == Respond(401))
  {
    var incoming := Or(cookieToken, bodyToken);
    if !Present(incoming) {
      return Respond(401);
    }
    var decoded := jwt.verify(incoming.value, jwt.refreshSecret);
    if decoded.None? {
      return Respond(500);
    }
    var i := store.IndexOf(decoded.value.id);
    if i.None? {
      return Respond(403);
    }
    // `incomingRefreshToken !== user?.refreshToken`: a present token against undefined
    out := Respond(401);
  }
}
