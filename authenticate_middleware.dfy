/** `isLoggedIn` checks the bearer token and puts `{ id, role }` from its payload in `req.user`;
    `hasRole(role)` admits a request whose user holds `role` or, by the role hierarchy, a role that
    implies it. */
module Authenticate {
  import opened Js
  import opened Http

  /** The outcome of `jwt.verify(token, SECRET, callback)`: an error, or the decoded payload. */
  datatype Verified = VerifyError(error: Value) | Decoded(payload: Record)

  /** `req.user` as `isLoggedIn` sets it from a decoded payload. */
  function IdentityOf(payload: Record): (user: Value)
    ensures Prop(user, "id") == Get(payload, "uuid") && Prop(user, "role") == Get(payload, "role")
  {
    Obj(map["id" := Get(payload, "uuid"), "role" := Get(payload, "role")])
  }

  /** The decision `isLoggedIn` takes. */
  function LoggedInStep(token: Value, verified: Verified): (step: Step)
    ensures !Truthy(token) ==> step == Respond(403, Message("No token provided"))
    ensures Truthy(token) && verified.VerifyError? ==> step == Respond(401, Message("The token is not valid"))
    ensures step.Continue? <==> Truthy(token) && verified.Decoded?
  {
    if !Truthy(token) then Respond(403, Message("No token provided"))
    else if verified.VerifyError? then Respond(401, Message("The token is not valid"))
    else Continue
  }

  /** `isLoggedIn` */
  method IsLoggedIn(ex: Exchange, verified: Verified)
    modifies ex
    ensures Took(ex, LoggedInStep(ex.token, verified), if verified.Decoded? then IdentityOf(verified.payload) else old(ex.user))
  {
    if !Truthy(ex.token) {
      ex.Send(403, Message("No token provided"));
      return;
    }
    match verified
    case VerifyError(_) =>
      ex.Send(401, Message("The token is not valid"));
    case Decoded(payload) =>
      ex.user := IdentityOf(payload);
      ex.Next();
  }

  /** `roleHierarchy[role]` for `{ admin: 'user', user: 'user' }`. */
  function Implied(role: Value): Value {
    if role == Str("admin") || role == Str("user") then Str("user") else Undefined
  }

  /** `req.user`, its `id` and its `role` are all present. */
  predicate Identified(user: Value) {
    Truthy(user) && Truthy(Prop(user, "id")) && Truthy(Prop(user, "role"))
  }

  /** The decision `hasRole(required)` takes. */
  function HasRoleStep(required: string, user: Value): (step: Step)
    ensures !Identified(user) ==> step.Respond? && step.status == 500
    ensures step.Continue? <==>
      Identified(user) && (Prop(user, "role") == Str(required) || Implied(Prop(user, "role")) == Str(required))
    ensures Identified(user) && step.Respond? ==> step == Respond(403, Message("Insufficient rights"))
  {
    if !Identified(user) then
      Respond(500, Message("Something went wrong when trying to retrieve the user from the request"))
    else if Prop(user, "role") == Str(required) || Implied(Prop(user, "role")) == Str(required) then Continue
    else Respond(403, Message("Insufficient rights"))
  }

  /** `hasRole(required)`: it never changes `req.user`. */
  method HasRole(required: string, ex: Exchange)
    modifies ex
    ensures Took(ex, HasRoleStep(required, old(ex.user)), old(ex.user))
    ensures ex.user == old(ex.user)
  {
    var user := ex.user;
    if !Truthy(user) || !Truthy(Prop(user, "id")) || !Truthy(Prop(user, "role")) {
      ex.Send(500, Message("Something went wrong when trying to retrieve the user from the request"));
      return;
    }
    var roleHierarchy := map["admin" := "user", "user" := "user"];
    var role := Prop(user, "role");
    if role == Str(required) || (role.Str? && role.s in roleHierarchy && roleHierarchy[role.s] == required) {
      ex.Next();
      return;
    }
    ex.Send(403, Message("Insufficient rights"));
  }

  /** The hierarchy as an order: `admin` above `user`, any other role below both. */
  function Rank(role: string): int {
    if role == "admin" then 2 else if role == "user" then 1 else 0
  }

  /** For the two roles the users table allows, `hasRole` admits exactly the users whose role ranks at
      least as high as the one required: `hasRole('user')` admits `user` and `admin`, `hasRole('admin')`
      admits `admin` only. */
  lemma HasRoleFollowsRank(required: string, id: Value, role: string)
    requires required in {"user", "admin"} && role in {"user", "admin"} && Truthy(id)
    ensures HasRoleStep(required, Obj(map["id" := id, "role" := Str(role)])).Continue?
            <==> Rank(role) >= Rank(required)
    ensures !HasRoleStep(required, Obj(map["id" := id, "role" := Str(role)])).Continue?
            ==> HasRoleStep(required, Obj(map["id" := id, "role" := Str(role)])).status == 403
  {
    var user := Obj(map["id" := id, "role" := Str(role)]);
    assert Prop(user, "id") == id && Prop(user, "role") == Str(role);
    assert Identified(user);
    assert Implied(Str(role)) == Str("user");
  }

  /** An identity built by `isLoggedIn` passes `hasRole` only if the token's payload carried a `uuid`
      and a `role`. */
  lemma LoggedInIdentityNeedsClaims(required: string, payload: Record)
    requires HasRoleStep(required, IdentityOf(payload)).Continue?
    ensures Truthy(Get(payload, "uuid")) && Truthy(Get(payload, "role"))
  {
  }
}
