/** The `Comments` model: its column constraints and its JSON projection. */
module CommentsModel {
  import opened Js
  import opened Validation

  /** `content`: not null, not blank, at most 160 characters. */
  predicate ContentOk(v: Value) {
    NonEmptyUpTo(v, 160)
  }

  /** A row every validator of the model accepts: a non-blank `uuid`, a valid content, a non-null
      integer `postId` and an optional integer `userId`. */
  predicate ValidComment(r: Record) {
    && RequiredString(Get(r, "uuid"), NotEmpty)
    && ContentOk(Get(r, "content"))
    && RequiredInt(Get(r, "postId"))
    && (Absent(Get(r, "userId")) || RequiredInt(Get(r, "userId")))
  }

  /** `toJSON()`: the row without `id`, `userId` and `postId`. */
  function CommentJson(r: Record): (j: Record)
    ensures "id" !in j && "userId" !in j && "postId" !in j
    ensures forall k :: k in j <==> k in r && k !in {"id", "userId", "postId"} && r[k] != Undefined
    ensures forall k :: k in j ==> j[k] == r[k]
  {
    Without(r, {"id", "userId", "postId"})
  }
}
