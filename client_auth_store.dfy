/** The client's `auth` store module: the `loggedIn` flag and the user object, the `isLoggedIn`
    getter, the four mutations, and the `login`, `logout` and `refreshToken` actions. */
module ClientAuthStore {
  import opened Js

  /** What the store does that can be observed in order: commits of mutations, and calls to the
      authentication API. */
  datatype Event = Commit(mutation: string) | ApiCall(endpoint: string)

  /** How an API call or an action settles. */
  datatype Settled = Resolved(value: Value) | Rejected(error: Value)

  /** `{ ...user, accessToken }`: an object keeps its other properties; spreading null, undefined,
      a boolean or a number adds none. Spreading a string would copy its characters as indexed
      properties; that is not modelled here, and only matters when a login reply is a bare string. */
  function WithAccessToken(user: Value, accessToken: Value): (u: Value)
    ensures u.Obj? && Prop(u, "accessToken") == accessToken
    ensures forall k :: k != "accessToken" ==> Prop(u, k) == Prop(user, k)
  {
    if user.Obj? then Obj(user.fields["accessToken" := accessToken])
    else Obj(map["accessToken" := accessToken])
  }

  /** `auth.login` accepts a reply carrying a truthy `userId`, `accessToken`, `role`, `username`
      and `email`. */
  predicate Complete(data: Value) {
    && Truthy(Prop(data, "userId")) && Truthy(Prop(data, "accessToken")) && Truthy(Prop(data, "role"))
    && Truthy(Prop(data, "username")) && Truthy(Prop(data, "email"))
  }

  /** The properties of the session user `auth.login` builds. */
  const SessionKeys: set<string> := {"userId", "accessToken", "refreshToken", "role", "username", "email"}

  /** The session user `auth.login` builds from an accepted reply. */
  function SessionUser(data: Value): (u: Value)
    ensures u.Obj? && forall k :: k in u.fields <==> k in SessionKeys
    ensures forall k :: k in u.fields ==> u.fields[k] == Prop(data, k)
  {
    Obj(map k | k in SessionKeys :: Prop(data, k))
  }

  /** The reply the server's `login` sends, `{ userId, accessToken, refreshToken }`, has no `role`,
      `username` or `email`: `auth.login` never stores it, and a later `refreshToken` action finds no
      stored user. */
  lemma ServerLoginReplyNotStored(userId: Value, accessToken: Value, refreshToken: Value)
    ensures !Complete(Obj(map["userId" := userId, "accessToken" := accessToken, "refreshToken" := refreshToken]))
  {
    var reply := Obj(map["userId" := userId, "accessToken" := accessToken, "refreshToken" := refreshToken]);
    assert Prop(reply, "role") == Undefined;
  }

  class AuthStore {
    /** `state.status.loggedIn` */
    var loggedIn: bool
    /** `state.user` */
    var user: Value
    /** `JSON.parse(localStorage.getItem('user'))`: null when there is no entry. */
    var stored: Value
    var trace: seq<Event>

    /** Logged out, the store holds no user object. */
    ghost predicate Valid()
      reads this
    {
      !loggedIn ==> !Truthy(user)
    }

    /** The initial state, built from the stored user read when the module loads: logged in with
        that user when there is one, otherwise logged out with no `user` property. */
    constructor (stored: Value)
      ensures loggedIn == Truthy(stored)
      ensures user == (if Truthy(stored) then stored else Undefined)
      ensures this.stored == stored && trace == []
      ensures Valid()
    {
      if Truthy(stored) {
        loggedIn := true;
        user := stored;
      } else {
        loggedIn := false;
        user := Undefined;
      }
      this.stored := stored;
      trace := [];
    }

    /** The `isLoggedIn` getter. */
    function IsLoggedIn(): (b: bool)
      requires Valid()
      reads this
      ensures !b ==> !Truthy(user)
    {
      loggedIn
    }

    /** The `loginSuccess` mutation. */
    method LoginSuccess(newUser: Value)
      modifies this
      ensures Valid()
      ensures IsLoggedIn() && user == newUser
      ensures stored == old(stored) && trace == old(trace) + [Commit("loginSuccess")]
    {
      loggedIn := true;
      user := newUser;
      trace := trace + [Commit("loginSuccess")];
    }

    /** The `loginFailure` mutation. */
    method LoginFailure()
      modifies this
      ensures Valid()
      ensures !IsLoggedIn() && user == Null
      ensures stored == old(stored) && trace == old(trace) + [Commit("loginFailure")]
    {
      loggedIn := false;
      user := Null;
      trace := trace + [Commit("loginFailure")];
    }

    /** The `refreshToken` mutation: only the user's `accessToken` changes. */
    method RefreshToken(accessToken: Value)
      modifies this
      ensures Valid()
      ensures IsLoggedIn() && user == WithAccessToken(old(user), accessToken)
      ensures stored == old(stored) && trace == old(trace) + [Commit("refreshToken")]
    {
      loggedIn := true;
      user := WithAccessToken(user, accessToken);
      trace := trace + [Commit("refreshToken")];
    }

    /** The `logout` mutation. */
    method Logout()
      modifies this
      ensures Valid()
      ensures !IsLoggedIn() && user == Null
      ensures stored == old(stored) && trace == old(trace) + [Commit("logout")]
    {
      loggedIn := false;
      user := Null;
      trace := trace + [Commit("logout")];
    }

    /** The `login` action over `auth.login`: `response` is how the request to `auth/login` settles,
        with the response's `data` or the axios error. A reply complete enough for `auth.login` is
        written to local storage as a session user and that user is committed; any other reply is
        committed as it came, and nothing is stored. On failure `loginFailure` is committed and the
        error's `response` is rethrown. */
    method LoginAction(response: Settled) returns (result: Settled)
      modifies this
      ensures Valid()
      ensures response.Resolved? ==> IsLoggedIn() && result == Resolved(Bool(true))
      ensures response.Resolved? && Complete(response.value) ==>
        user == SessionUser(response.value) && stored == Obj(Stringified(SessionUser(response.value).fields))
      ensures response.Resolved? && !Complete(response.value) ==> user == response.value && stored == old(stored)
      ensures response.Rejected? ==>
        !IsLoggedIn() && user == Null && result == Rejected(Prop(response.error, "response")) && stored == old(stored)
      ensures trace == old(trace) + [ApiCall("login"), Commit(if response.Resolved? then "loginSuccess" else "loginFailure")]
    {
      trace := trace + [ApiCall("login")];
      match response
      case Resolved(data) =>
        var newUser := data;
        if Complete(data) {
          newUser := SessionUser(data);
          stored := Obj(Stringified(newUser.fields));
        }
        LoginSuccess(newUser);
        result := Resolved(Bool(true));
      case Rejected(e) =>
        LoginFailure();
        result := Rejected(Prop(e, "response"));
    }

    /** The `logout` action: the store is logged out before the API is called; `auth.logout` logs
        and swallows a failing call, then removes the stored user, so the action always resolves. */
    method LogoutAction() returns (result: Settled)
      modifies this
      ensures Valid()
      ensures !IsLoggedIn() && user == Null && stored == Null
      ensures trace == old(trace) + [Commit("logout"), ApiCall("logout")]
      ensures result == Resolved(Undefined)
    {
      Logout();
      trace := trace + [ApiCall("logout")];
      stored := Null;
      result := Resolved(Undefined);
    }

    /** The `refreshToken` action: the stored user gets the new access token (written back as
        JSON, dropping undefined properties) and the mutation is committed. With no stored user
        object the property assignment throws and nothing changes. */
    method RefreshTokenAction(accessToken: Value) returns (threw: bool)
      requires Valid()
      modifies this
      ensures Valid()
      ensures threw <==> !old(stored).Obj?
      ensures threw ==> loggedIn == old(loggedIn) && user == old(user) && stored == old(stored) && trace == old(trace)
      ensures !threw ==>
        && stored == Obj(Stringified(old(stored).fields["accessToken" := accessToken]))
        && IsLoggedIn() && user == WithAccessToken(old(user), accessToken)
        && trace == old(trace) + [Commit("refreshToken")]
    {
      if !stored.Obj? {
        return true;
      }
      stored := Obj(Stringified(stored.fields["accessToken" := accessToken]));
      RefreshToken(accessToken);
      threw := false;
    }
  }
}
