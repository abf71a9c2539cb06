/** The one route of src/routes/api.route.js that chains handlers: `/logout` runs
    `verifyJWT` and reaches `logoutUser` only through `next`. (`refreshAccessToken` has
    no route at all.) */
module ApiRoutes {
  import opened Base
  import Jwt
  import opened UserModel
  import opened UserController
  import opened AuthMiddleware

  /** POST /logout: an unauthenticated request gets no response; an authenticated one
      gets 200 with `req.user` set to the caller's public view. Neither changes the store. */
  method Logout(req: Request, store: UserStore, jwt: Jwt.Config) returns (out: Outcome)
    modifies req
    ensures var admitted := AuthGate(req.cookies, req.authorization, store.docs, jwt);
      && (admitted.None? ==> out == NoResponse && req.user == old(req.user))
      && (admitted.Some? ==> out == Respond(200) && req.user == Some(View(admitted.value)))
  {
    var nextCalls := VerifyJwt(req, store, jwt);
    if nextCalls == 1 {
      out := LogoutUser(req.user);
    } else {
      out := NoResponse;
    }
  }
}
