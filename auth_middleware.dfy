/** The older token middleware (the default export of `auth.middleware.js`): it answers 401 when
    no token is given and 403 when verification fails, and stores the whole decoded payload as
    `req.user`. */
module AuthMiddleware {
  import opened Js
  import opened Http
  import Authenticate

  /** The decision the middleware takes. */
  function AuthStep(token: Value, verified: Authenticate.Verified): (step: Step)
    ensures !Truthy(token) ==> step == Respond(401, Str("Authentication failed"))
    ensures Truthy(token) && verified.VerifyError? ==> step == Respond(403, verified.error)
    ensures step.Continue? <==> Truthy(token) && verified.Decoded?
  {
    if !Truthy(token) then Respond(401, Str("Authentication failed"))
    else match verified
      case VerifyError(error) => Respond(403, error)
      case Decoded(_) => Continue
  }

  /** The middleware itself: on success `req.user` is the decoded payload, verbatim. */
  method CheckToken(ex: Exchange, verified: Authenticate.Verified)
    modifies ex
    ensures Took(ex, AuthStep(ex.token, verified), if verified.Decoded? then Obj(verified.payload) else old(ex.user))
  {
    if !Truthy(ex.token) {
      ex.Send(401, Str("Authentication failed"));
      return;
    }
    match verified
    case VerifyError(error) =>
      ex.Send(403, error);
    case Decoded(payload) =>
      ex.user := Obj(payload);
      ex.Next();
  }

  /** Both middlewares let through exactly the same requests, and reject the others with their two
      status codes swapped: a missing token is 401 here and 403 in `isLoggedIn`, a failed
      verification 403 here and 401 there. */
  lemma StatusCodesSwapped(token: Value, verified: Authenticate.Verified)
    ensures AuthStep(token, verified).Continue? <==> Authenticate.LoggedInStep(token, verified).Continue?
    ensures AuthStep(token, verified).Respond? ==>
      var other := Authenticate.LoggedInStep(token, verified);
      && other.Respond?
      && (AuthStep(token, verified).status == 401 <==> other.status == 403)
      && (AuthStep(token, verified).status == 403 <==> other.status == 401)
  {
  }

  /** A payload as `login` signs it carries `uuid`, not `id`: behind this middleware `hasRole`
      always answers 500. */
  lemma PayloadUserFailsHasRole(required: string, payload: Record)
    requires "id" !in payload
    ensures Authenticate.HasRoleStep(required, Obj(payload)).Respond?
    ensures Authenticate.HasRoleStep(required, Obj(payload)).status == 500
  {
  }
}
