/** The users handlers that carry rules: the listing with its fixed page size of 2, the rights
    check and deletion of `deleteUser`, the field-wise merge of `updateUser`, and the ordered checks
    of `updateUserPassword`. */
module UsersController {
  import opened Js
  import opened Http
  import opened Access
  import opened Listing
  import opened UsersModel
  import Validation

  // ---------------------------------------------------------------------------------------------
  // Listing

  /** `getAllUsers`: pages of 2 users. */
  function UsersPage(query: Option<int>, count: nat): (l: Listing)
    ensures l.Listed? ==> l.limit == 2 && l.offset == PageOf(query) * 2
    ensures l.FallThrough? <==> PageOf(query) > 0 && (PageOf(query) - 1) * 2 >= count
    ensures l.Listed? ==> (l.next.Some? <==> (PageOf(query) + 1) * 2 <= count && PageOf(query) != -1)
  {
    ListPageByCounting(query, count, 2);
    ListPage(query, count, 2)
  }

  // ---------------------------------------------------------------------------------------------
  // Rights

  /** `!(req.user.id !== id && req.user.role !== 'admin')` as written: `id` is the route parameter,
      a UUID string, while the token's id claim is the user's numeric primary key. */
  predicate RightsAsWritten(requester: Requester, id: string): (ok: bool)
    ensures ok <==> requester.role == Str("admin") || requester.id == Str(id)
  {
    MayModify(requester, Str(id))
  }

  /** As written, the check refuses every owner who is not an admin: a numeric id claim is never
      strictly equal to a string. */
  lemma OwnerRefusedAsWritten(requester: Requester, id: string, user: Record)
    requires requester.id.Num? && requester.role != Str("admin")
    requires requester.id == Get(user, "id")
    ensures !RightsAsWritten(requester, id)
    ensures MayModify(requester, Get(user, "id"))
  {
  }

  /** `deleteUser` as written: after the rights check it destroys the row and then calls
      `revokeAccess`, which the middleware module does not define; the TypeError lands in the
      handler's `catch` and the request is answered 500 with an empty body. */
  function DeleteUserAsWritten(users: map<string, Record>, requester: Requester, target: Target): (res: (map<string, Record>, Step))
    ensures target.Malformed? ==> res == (users, Continue)
    ensures res.1 == Respond(500, Undefined) <==>
      target.Id? && target.value in users && RightsAsWritten(requester, target.value)
    ensures res.1 == Respond(500, Undefined) ==> res.0 == users - {target.value}
    ensures res.1 != Respond(500, Undefined) ==> res.0 == users
  {
    if target.Malformed? then (users, Continue)
    else if target.value !in users then (users, Respond(404, Message("User not found")))
    else if !RightsAsWritten(requester, target.value) then (users, Respond(403, Message("Insufficient rights")))
    else (users - {target.value}, Respond(500, Undefined))
  }

  /** As written, deletion never answers 204: a non-admin is refused even on their own account, and
      an admin's deletion removes the row but answers 500. */
  lemma DeleteUserAsWrittenNever204(users: map<string, Record>, requester: Requester, target: Target)
    ensures DeleteUserAsWritten(users, requester, target).1 != Respond(204, Undefined)
    ensures target.Id? && target.value in users && requester.id.Num? && requester.role != Str("admin") ==>
      DeleteUserAsWritten(users, requester, target) == (users, Respond(403, Message("Insufficient rights")))
    ensures target.Id? && target.value in users && requester.role == Str("admin") ==>
      DeleteUserAsWritten(users, requester, target) == (users - {target.value}, Respond(500, Undefined))
  {
  }

  // ---------------------------------------------------------------------------------------------
  // Field-wise merge of `updateUser`

  /** The columns `updateUser` assigns. */
  const MergedColumns: set<string> := {"username", "email", "role", "firstName", "lastName"}

  /** The columns `updateUser` loads, and so answers with. */
  const LoadedColumns: set<string> := {"id", "email", "username", "role", "firstName", "lastName"}

  /** `user.x = x || user.x` for each merged column. */
  function MergeUser(user: Record, body: Record): (merged: Record)
    ensures forall k :: k in MergedColumns && Truthy(Get(body, k)) ==> Get(merged, k) == Get(body, k)
    ensures forall k :: !(k in MergedColumns && Truthy(Get(body, k))) ==> Get(merged, k) == Get(user, k)
  {
    user["username" := Or(Get(body, "username"), Get(user, "username"))]
        ["email" := Or(Get(body, "email"), Get(user, "email"))]
        ["role" := Or(Get(body, "role"), Get(user, "role"))]
        ["firstName" := Or(Get(body, "firstName"), Get(user, "firstName"))]
        ["lastName" := Or(Get(body, "lastName"), Get(user, "lastName"))]
  }

  /** `save()` validates the columns whose value changed. */
  predicate ChangedColumnsValid(user: Record, merged: Record, c: Checks) {
    forall k | k in MergedColumns :: Get(merged, k) != Get(user, k) ==> ColumnOk(k, Get(merged, k), c)
  }

  /** Another user already holds a changed `email` or `username`: the unique constraint fails. */
  predicate Clash(users: map<string, Record>, id: string, user: Record, merged: Record) {
    exists other, k | other in users && k in {"email", "username"} ::
      other != id && Get(merged, k) != Get(user, k) && Get(users[other], k) == Get(merged, k)
  }

  /** The unique constraints on `email` and `username`: no two users hold the same present value. */
  ghost predicate UniqueUsers(users: map<string, Record>) {
    forall a, b | a in users && b in users && a != b ::
      && (!Validation.Absent(Get(users[a], "email")) ==> Get(users[a], "email") != Get(users[b], "email"))
      && (!Validation.Absent(Get(users[a], "username")) ==> Get(users[a], "username") != Get(users[b], "username"))
  }

  /** An update that the unique constraints let through keeps the table unique. */
  lemma UpdateKeepsUniqueUsers(users: map<string, Record>, id: string, body: Record)
    requires UniqueUsers(users) && id in users
    requires !Clash(users, id, users[id], MergeUser(users[id], body))
    ensures UniqueUsers(users[id := MergeUser(users[id], body)])
  {
    var merged := MergeUser(users[id], body);
    var after := users[id := merged];
    forall a, b | a in after && b in after && a != b
      ensures !Validation.Absent(Get(after[a], "email")) ==> Get(after[a], "email") != Get(after[b], "email")
      ensures !Validation.Absent(Get(after[a], "username")) ==> Get(after[a], "username") != Get(after[b], "username")
    {
      if a == id || b == id {
        var other := if a == id then b else a;
        assert other in users && other != id;
        if Get(merged, "email") != Get(users[id], "email") {
          assert Get(users[other], "email") != Get(merged, "email");
        }
        if Get(merged, "username") != Get(users[id], "username") {
          assert Get(users[other], "username") != Get(merged, "username");
        }
      }
    }
  }

  /** A merge that passes validation keeps a valid user valid. */
  lemma MergeKeepsValidUser(user: Record, body: Record, c: Checks)
    requires ValidUser(user, c) && ChangedColumnsValid(user, MergeUser(user, body), c)
    ensures ValidUser(MergeUser(user, body), c)
  {
    var merged := MergeUser(user, body);
    forall k | k in Columns ensures ColumnOk(k, Get(merged, k), c) {
      if k in MergedColumns && Get(merged, k) != Get(user, k) {
      } else {
        assert Get(merged, k) == Get(user, k);
      }
    }
  }

  /** The row `updateUser` answers with: the loaded columns that are not undefined. */
  function LoadedJson(user: Record): (j: Value)
    ensures j.Obj? && forall k :: k in j.fields <==> k in LoadedColumns && Get(user, k) != Undefined
    ensures j.Obj? && forall k :: k in j.fields ==> j.fields[k] == Get(user, k)
  {
    Obj(Stringified(map k | k in user && k in LoadedColumns :: user[k]))
  }

  // ---------------------------------------------------------------------------------------------
  // The checks of `updateUserPassword`

  /** What `updateUserPassword` decides once the user is found and the requester has the rights. */
  datatype PasswordOutcome = MissingPasswords | BadCredentials | SamePassword | InvalidPassword | Changed

  /** The requester passes the old-password checks: an admin always does; anyone else must give
      both passwords, the old one matching the stored hash. */
  predicate OldPasswordChecked(user: Record, requester: Requester, oldPassword: Value, newPassword: Value,
                               matches: (Value, Value) -> bool) {
    requester.role == Str("admin") ||
    (Truthy(oldPassword) && Truthy(newPassword) && matches(Get(user, "password"), oldPassword))
  }

  /** The checks in order: a non-admin must give both passwords (400) and the right old one (401);
      everybody is refused when `old_password === new_password` (400); the new password is then
      validated on save (500 when it fails). `matches` is the stored hash's comparison. */
  function CheckPasswordChange(user: Record, requester: Requester, oldPassword: Value, newPassword: Value,
                               matches: (Value, Value) -> bool, c: Checks): (o: PasswordOutcome)
    ensures o == MissingPasswords <==> requester.role != Str("admin") && (!Truthy(oldPassword) || !Truthy(newPassword))
    ensures o == BadCredentials <==>
      requester.role != Str("admin") && Truthy(oldPassword) && Truthy(newPassword) && !matches(Get(user, "password"), oldPassword)
    ensures o == SamePassword <==>
      OldPasswordChecked(user, requester, oldPassword, newPassword, matches) && StrictEquals(oldPassword, newPassword)
    ensures o == InvalidPassword <==>
      && OldPasswordChecked(user, requester, oldPassword, newPassword, matches) && !StrictEquals(oldPassword, newPassword)
      && newPassword != Get(user, "password") && !ColumnOk("password", newPassword, c)
    ensures o == Changed <==>
      && OldPasswordChecked(user, requester, oldPassword, newPassword, matches) && !StrictEquals(oldPassword, newPassword)
      && (newPassword == Get(user, "password") || ColumnOk("password", newPassword, c))
  {
    if requester.role != Str("admin") && (!Truthy(oldPassword) || !Truthy(newPassword)) then MissingPasswords
    else if requester.role != Str("admin") && !matches(Get(user, "password"), oldPassword) then BadCredentials
    else if StrictEquals(oldPassword, newPassword) then SamePassword
    else if newPassword != Get(user, "password") && !ColumnOk("password", newPassword, c) then InvalidPassword
    else Changed
  }

  /** The answer to each outcome but `Changed`. */
  function PasswordRefusal(o: PasswordOutcome): (step: Step)
    requires o != Changed
    ensures step.Respond? && step.status == (if o == BadCredentials then 401 else if o == InvalidPassword then 500 else 400)
  {
    match o
    case MissingPasswords => Respond(400, Message("You need to specify the old_password and the new_password parameters"))
    case BadCredentials => Respond(401, Message("Bad Credentials"))
    case SamePassword => Respond(400, Message("Password are be identicals"))
    case InvalidPassword => Respond(500, Undefined)
  }

  /** An admin skips the old-password check, and one who gives neither password is refused as giving
      two identical ones. */
  lemma AdminSkipsOldPassword(user: Record, requester: Requester, oldPassword: Value, newPassword: Value,
                              matches: (Value, Value) -> bool, c: Checks)
    requires requester.role == Str("admin")
    ensures CheckPasswordChange(user, requester, oldPassword, newPassword, matches, c) !in {MissingPasswords, BadCredentials}
    ensures oldPassword == Undefined && newPassword == Undefined ==>
      CheckPasswordChange(user, requester, oldPassword, newPassword, matches, c) == SamePassword
  {
  }

  /** A change accepted by the checks keeps a valid user valid. */
  lemma PasswordChangeKeepsValidUser(user: Record, requester: Requester, oldPassword: Value, newPassword: Value,
                                     matches: (Value, Value) -> bool, c: Checks)
    requires ValidUser(user, c)
    requires CheckPasswordChange(user, requester, oldPassword, newPassword, matches, c) == Changed
    ensures ValidUser(user["password" := newPassword], c)
  {
    var changed := user["password" := newPassword];
    forall k | k in Columns ensures ColumnOk(k, Get(changed, k), c) {
      if k != "password" {
        assert Get(changed, k) == Get(user, k);
      }
    }
  }

  // ---------------------------------------------------------------------------------------------
  // The handlers

  /** The users table, keyed by the route parameter that names a user. */
  class UsersService {
    var users: map<string, Record>

    ghost predicate Valid()
      reads this
    {
      UniqueUsers(users)
    }

    constructor ()
      ensures users == map[] && Valid()
    {
      users := map[];
    }

    /** `deleteUser` with the rights check comparing the requester with the loaded user's id, and
        answering 204 once the row is destroyed. */
    method DeleteUser(requester: Requester, target: Target) returns (step: Step)
      requires Valid()
      modifies this
      ensures Valid()
      ensures target.Malformed? ==> step == Continue && users == old(users)
      ensures target.Id? ==>
        var verdict := Authorize(Lookup(old(users), target.value), requester, "id");
        && (verdict == Allowed ==> step == Respond(204, Undefined) && users == old(users) - {target.value})
        && (verdict != Allowed ==> step == Refusal(verdict, "User not found") && users == old(users))
    {
      if target.Malformed? {
        return Continue;
      }
      var id := target.value;
      var verdict := Authorize(Lookup(users, id), requester, "id");
      if verdict != Allowed {
        return Refusal(verdict, "User not found");
      }
      users := users - {id};
      step := Respond(204, Undefined);
    }

    /** `updateUser`: no rights check; a changed column that fails its validators answers 500, a
        changed e-mail or username held by another user answers 422. */
    method UpdateUser(target: Target, body: Record, c: Checks) returns (step: Step)
      requires Valid()
      modifies this
      ensures Valid()
      ensures step.Respond? ==> step.status != 403
      ensures target.Malformed? ==> step == Continue && users == old(users)
      ensures target.Id? && target.value !in old(users) ==>
        step == Respond(404, Message("User not found")) && users == old(users)
      ensures target.Id? && target.value in old(users) ==>
        var user := old(users)[target.value];
        var merged := MergeUser(user, body);
        && (!ChangedColumnsValid(user, merged, c) ==> step == Respond(500, Undefined) && users == old(users))
        && (ChangedColumnsValid(user, merged, c) && Clash(old(users), target.value, user, merged) ==>
              step == Respond(422, Undefined) && users == old(users))
        && (ChangedColumnsValid(user, merged, c) && !Clash(old(users), target.value, user, merged) ==>
              step == Respond(200, LoadedJson(merged)) && users == old(users)[target.value := merged])
    {
      if target.Malformed? {
        return Continue;
      }
      var id := target.value;
      if id !in users {
        return Respond(404, Message("User not found"));
      }
      var user := users[id];
      var merged := user;
      merged := merged["username" := Or(Get(body, "username"), Get(user, "username"))];
      merged := merged["email" := Or(Get(body, "email"), Get(user, "email"))];
      merged := merged["role" := Or(Get(body, "role"), Get(user, "role"))];
      merged := merged["firstName" := Or(Get(body, "firstName"), Get(user, "firstName"))];
      merged := merged["lastName" := Or(Get(body, "lastName"), Get(user, "lastName"))];
      assert merged == MergeUser(user, body);
      if !ChangedColumnsValid(user, merged, c) {
        return Respond(500, Undefined);
      }
      if Clash(users, id, user, merged) {
        return Respond(422, Undefined);
      }
      UpdateKeepsUniqueUsers(users, id, body);
      users := users[id := merged];
      step := Respond(200, LoadedJson(merged));
    }

    /** `updateUserPassword`, with the rights check comparing the requester with the loaded user's
        id: 404, then 403, then the password checks in order. */
    method UpdateUserPassword(requester: Requester, target: Target, oldPassword: Value, newPassword: Value,
                              matches: (Value, Value) -> bool, c: Checks) returns (step: Step)
      requires Valid()
      modifies this
      ensures Valid()
      ensures target.Malformed? ==> step == Continue && users == old(users)
      ensures target.Id? ==>
        var verdict := Authorize(Lookup(old(users), target.value), requester, "id");
        && (verdict != Allowed ==> step == Refusal(verdict, "User not found") && users == old(users))
        && (verdict == Allowed ==>
              var user := old(users)[target.value];
              var o := CheckPasswordChange(user, requester, oldPassword, newPassword, matches, c);
              && (o != Changed ==> step == PasswordRefusal(o) && users == old(users))
              && (o == Changed ==> step == Respond(200, Message("The password has been updated"))
                                   && users == old(users)[target.value := user["password" := newPassword]]))
    {
      if target.Malformed? {
        return Continue;
      }
      var id := target.value;
      var verdict := Authorize(Lookup(users, id), requester, "id");
      if verdict != Allowed {
        return Refusal(verdict, "User not found");
      }
      var user := users[id];
      var o := CheckPasswordChange(user, requester, oldPassword, newPassword, matches, c);
      if o != Changed {
        return PasswordRefusal(o);
      }
      users := users[id := user["password" := newPassword]];
      step := Respond(200, Message("The password has been updated"));
    }
  }
}
