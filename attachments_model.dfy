/** The `Attachments` model: its column constraints, its unique columns and its JSON projection. */
module AttachmentsModel {
  import opened Js
  import opened Validation

  /** A row every validator of the model accepts: a non-blank `uuid`; `filename` and `url` not
      blank and at most 255 characters; `alt` absent or at most 255 characters; `postId` a non-null
      integer. */
  predicate ValidAttachment(r: Record) {
    && RequiredString(Get(r, "uuid"), NotEmpty)
    && NonEmptyUpTo(Get(r, "filename"), 255)
    && NonEmptyUpTo(Get(r, "url"), 255)
    && OptionalString(Get(r, "alt"), s => LenWithin(s, 0, 255))
    && RequiredInt(Get(r, "postId"))
  }

  /** The columns declared `unique`. */
  const UniqueColumns: set<string> := {"uuid", "filename", "postId"}

  /** Creating a row: the validators run first (a failure answers 500), then the unique
      constraints (a clash answers 422), then the row is stored. */
  datatype Created = Invalid | Duplicate | Stored(rows: seq<Record>)

  function Create(rows: seq<Record>, r: Record): (c: Created)
    ensures c == Invalid <==> !ValidAttachment(r)
    ensures c == Duplicate <==> ValidAttachment(r) && InsertUnique(rows, r, UniqueColumns).None?
    ensures c.Stored? ==> c.rows == rows + [r]
  {
    if !ValidAttachment(r) then Invalid
    else match InsertUnique(rows, r, UniqueColumns)
      case None => Duplicate
      case Some(out) => Stored(out)
  }

  /** The invariant the unique `postId` keeps: at most one attachment per post, and every stored
      row valid. */
  ghost predicate OnePerPost(rows: seq<Record>) {
    UniqueColumn(rows, "postId") && forall i :: 0 <= i < |rows| ==> ValidAttachment(rows[i])
  }

  lemma CreateKeepsOnePerPost(rows: seq<Record>, r: Record)
    requires OnePerPost(rows)
    requires Create(rows, r).Stored?
    ensures OnePerPost(Create(rows, r).rows)
    ensures forall i :: 0 <= i < |rows| ==> Get(rows[i], "postId") != Get(r, "postId")
  {
    InsertKeepsUnique(rows, r, UniqueColumns, "postId");
    var out := rows + [r];
    forall i | 0 <= i < |out| ensures ValidAttachment(out[i]) {
      if i < |rows| { assert out[i] == rows[i]; }
    }
    assert !Clashes(rows, "postId", Get(r, "postId"));
  }

  /** `toJSON()`: the row without `id` and `postId`. */
  function AttachmentJson(r: Record): (j: Record)
    ensures "id" !in j && "postId" !in j
    ensures forall k :: k in j <==> k in r && k != "id" && k != "postId" && r[k] != Undefined
    ensures forall k :: k in j ==> j[k] == r[k]
  {
    Without(r, {"id", "postId"})
  }
}
