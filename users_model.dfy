/** The `Users` model: its column constraints, the default it gives `role`, and its JSON
    projection. */
module UsersModel {
  import opened Js
  import opened Validation

  /** The library checks the columns delegate to: `isEmail`, `isStrongPassword`, the name pattern
      of `firstName` and `lastName`, and `isDate`. */
  datatype Checks = Checks(isEmail: string -> bool, isStrongPassword: string -> bool,
                           isName: string -> bool, isDate: Value -> bool)

  /** The validators of one column, as declared. */
  predicate ColumnOk(column: string, v: Value, c: Checks) {
    if column == "uuid" then RequiredString(v, NotEmpty)
    else if column == "email" then v.Str? && NotEmpty(v.s) && c.isEmail(v.s) && LenWithin(v.s, 0, 60)
    else if column == "password" then v.Str? && NotEmpty(v.s) && c.isStrongPassword(v.s)
    else if column == "username" then NonEmptyUpTo(v, 30)
    else if column == "role" then v == Str("user") || v == Str("admin")
    else if column == "firstName" || column == "lastName" then Absent(v) || (v.Str? && LenWithin(v.s, 0, 30) && c.isName(v.s))
    else if column == "birthdate" then Absent(v) || c.isDate(v)
    else true
  }

  /** The columns the model declares. */
  const Columns: set<string> := {"uuid", "email", "password", "username", "role", "firstName", "lastName", "birthdate"}

  /** A row every validator of the model accepts. */
  ghost predicate ValidUser(r: Record, c: Checks) {
    forall column :: column in Columns ==> ColumnOk(column, Get(r, column), c)
  }

  /** What a valid row holds: a non-blank username of at most 30 characters, a non-blank e-mail
      address of at most 60, a non-blank password, one of the two roles, and names of at most 30
      characters when present. */
  lemma ValidUserFields(r: Record, c: Checks)
    requires ValidUser(r, c)
    ensures Get(r, "username").Str? && NotEmpty(Get(r, "username").s) && |Get(r, "username").s| <= 30
    ensures Get(r, "email").Str? && NotEmpty(Get(r, "email").s) && |Get(r, "email").s| <= 60
    ensures Get(r, "password").Str? && NotEmpty(Get(r, "password").s)
    ensures Get(r, "role") in {Str("user"), Str("admin")}
    ensures Absent(Get(r, "firstName")) || (Get(r, "firstName").Str? && |Get(r, "firstName").s| <= 30)
    ensures Absent(Get(r, "lastName")) || (Get(r, "lastName").Str? && |Get(r, "lastName").s| <= 30)
  {
    assert ColumnOk("username", Get(r, "username"), c);
    assert ColumnOk("email", Get(r, "email"), c);
    assert ColumnOk("password", Get(r, "password"), c);
    assert ColumnOk("role", Get(r, "role"), c);
    assert ColumnOk("firstName", Get(r, "firstName"), c);
    assert ColumnOk("lastName", Get(r, "lastName"), c);
  }

  /** The defaults `create` applies to a column left undefined: a fresh v4 `uuid`, and `role`
      'user'. */
  function WithDefaults(r: Record, uuid: string): (d: Record)
    ensures Get(r, "role") == Undefined ==> Get(d, "role") == Str("user")
    ensures Get(r, "role") != Undefined ==> Get(d, "role") == Get(r, "role")
    ensures forall k :: k != "role" && k != "uuid" ==> Get(d, k) == Get(r, k)
  {
    var withRole := if Get(r, "role") == Undefined then r["role" := Str("user")] else r;
    if Get(r, "uuid") == Undefined then withRole["uuid" := Str(uuid)] else withRole
  }

  /** `toJSON()`: the row without `id` and `password`. */
  function UserJson(r: Record): (j: Record)
    ensures "id" !in j && "password" !in j
    ensures forall k :: k in j <==> k in r && k != "id" && k != "password" && r[k] != Undefined
    ensures forall k :: k in j ==> j[k] == r[k]
  {
    Without(r, {"id", "password"})
  }
}
