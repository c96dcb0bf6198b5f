/** The image upload middleware: at most one image, and both the MIME type the client declared and
    the one sniffed from the file's bytes must be on the allow-list. */
module ImageValidator {
  import opened Js

  const Allowed: seq<string> := ["image/jpg", "image/jpeg", "image/png"]

  /** `req.files.image`: absent, an array of files (the upload library's shape for several files under
      one name), or one file with its declared `mimetype`. */
  datatype Upload = NoImage | Several(length: nat) | Single(mimetype: Value, sniffed: Sniff)

  /** `fileType.fromBuffer(image.data)`: it rejects, finds no known type (undefined), or detects
      one. */
  datatype Sniff = SniffFailed | Unknown | Detected(mime: string)

  /** What the middleware does: call `next`, answer 415, or, when sniffing rejects, answer 500 from
      the `catch` and then fail on the second response the 415 branch tries to send. */
  datatype Outcome = Next | Unsupported(message: string) | ServerError

  /** `ALLOWED.includes(mimetype)` for the declared type. */
  predicate DeclaredAllowed(mimetype: Value) {
    mimetype.Str? && mimetype.s in Allowed
  }

  function CheckImage(upload: Upload): (o: Outcome)
    ensures upload.NoImage? ==> o == Next
    ensures upload.Several? && upload.length > 1 ==> o.Unsupported?
    ensures upload.Single? ==>
      (o == Next <==> DeclaredAllowed(upload.mimetype) && upload.sniffed.Detected? && upload.sniffed.mime in Allowed)
    ensures upload.Single? && upload.sniffed.SniffFailed? ==> o == ServerError
    ensures upload.Single? && !upload.sniffed.SniffFailed? && o != Next ==>
      o == Unsupported("Unallowed file type, you can only pass: image/jpg or image/jpeg or image/png")
    ensures upload.Several? && upload.length <= 1 ==> o == ServerError
  {
    match upload
    case NoImage => Next
    case Several(length) =>
      if length > 1 then Unsupported("You can only send one image at the same time")
      // an array has no `data`: sniffing `undefined` rejects
      else ServerError
    case Single(mimetype, sniffed) =>
      if sniffed.SniffFailed? then ServerError
      else if !Truthy(mimetype) || !DeclaredAllowed(mimetype) || sniffed.Unknown? || sniffed.mime !in Allowed then
        Unsupported("Unallowed file type, you can only pass: image/jpg or image/jpeg or image/png")
      else Next
  }

  /** The answers: 415 for a refused type or too many images, 500 for a failed sniff. */
  function Status(o: Outcome): int
    requires !o.Next?
  {
    if o.Unsupported? then 415 else 500
  }

  /** A file whose declared or detected type is missing or off the list never gets through, and the
      only types that get through are JPEG and PNG. */
  lemma OnlyAllowedTypesPass(upload: Upload)
    requires upload.Single?
    ensures CheckImage(upload) == Next ==>
      upload.mimetype.Str? && upload.mimetype.s in {"image/jpg", "image/jpeg", "image/png"}
      && upload.sniffed.Detected? && upload.sniffed.mime in {"image/jpg", "image/jpeg", "image/png"}
    ensures !upload.mimetype.Str? && !upload.sniffed.SniffFailed? ==> Status(CheckImage(upload)) == 415
  {
  }
}
