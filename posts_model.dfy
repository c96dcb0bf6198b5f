/** The `Posts` model: its column constraints and its JSON projection. */
module PostsModel {
  import opened Js
  import opened Validation

  /** `content`: not null, not blank, between 20 and 400 characters. */
  predicate ContentOk(v: Value) {
    RequiredString(v, s => NotEmpty(s) && LenWithin(s, 20, 400))
  }

  /** A row every validator of the model accepts: `userId` a non-null integer and a valid content.
      (`uuid` is the primary key; the ORM fills it with a fresh v4 UUID.) */
  predicate ValidPost(r: Record) {
    RequiredInt(Get(r, "userId")) && ContentOk(Get(r, "content"))
  }

  /** A content value the validators accept is a string of 20 to 400 characters, not all blank. */
  lemma ContentBounds(v: Value)
    requires ContentOk(v)
    ensures v.Str? && 20 <= |v.s| <= 400 && exists i :: 0 <= i < |v.s| && !IsSpace(v.s[i])
  {
  }

  /** `toJSON()`: the row without `id` and `userId`. */
  function PostJson(r: Record): (j: Record)
    ensures "id" !in j && "userId" !in j
    ensures forall k :: k in j <==> k in r && k != "id" && k != "userId" && r[k] != Undefined
    ensures forall k :: k in j ==> j[k] == r[k]
  {
    Without(r, {"id", "userId"})
  }
}
