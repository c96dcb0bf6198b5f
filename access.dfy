/** The checks the post, comment and user handlers share: the `:id` route parameter guard, and the
    owner-or-admin rule applied after the row has been looked up. */
module Access {
  import opened Js
  import opened Http

  /** The `id` route parameter: missing or not a UUID (`!id || !isUUID(id)`: the handler calls
      `next()`), or a well-formed UUID. */
  datatype Target = Malformed | Id(value: string)

  /** `req.user` as `isLoggedIn` leaves it: the token's id claim and its role claim. */
  datatype Requester = Requester(id: Value, role: Value)

  /** `map.get`, as an optional row. */
  function Lookup(rows: map<string, Record>, id: string): (row: Option<Record>)
    ensures row.Some? <==> id in rows
    ensures row.Some? ==> row.value == rows[id]
  {
    if id in rows then Some(rows[id]) else None
  }

  /** The negation of `req.user.id !== owner && req.user.role !== 'admin'`. */
  predicate MayModify(requester: Requester, owner: Value) {
    !(requester.id != owner && requester.role != Str("admin"))
  }

  datatype Verdict = NotFound | Forbidden | Allowed

  /** The handlers' order of checks once the row is fetched: 404 when there is no row whatever the
      requester, then 403 unless the requester owns the row (its `ownerColumn` holds their id) or is
      an admin. */
  function Authorize(row: Option<Record>, requester: Requester, ownerColumn: string): (v: Verdict)
    ensures v == NotFound <==> row.None?
    ensures v == Allowed <==>
      row.Some? && (requester.id == Get(row.value, ownerColumn) || requester.role == Str("admin"))
  {
    if row.None? then NotFound
    else if !MayModify(requester, Get(row.value, ownerColumn)) then Forbidden
    else Allowed
  }

  /** The answer for a verdict other than `Allowed`. */
  function Refusal(v: Verdict, notFound: string): (step: Step)
    requires v != Allowed
    ensures v == NotFound ==> step == Respond(404, Message(notFound))
    ensures v == Forbidden ==> step == Respond(403, Message("Insufficient rights"))
  {
    if v == NotFound then Respond(404, Message(notFound))
    else Respond(403, Message("Insufficient rights"))
  }
}
