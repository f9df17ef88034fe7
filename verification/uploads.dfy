/** The client-side check on a chosen photo file, shared by the account form and the settings page. */
module Uploads {
  import opened Wrappers

  /** The MIME types a photo may have. */
  const PhotoTypes: seq<string> := ["image/jpeg", "image/png"]

  datatype PhotoStep = NoFile | Refused(msg: string) | ReadAsDataUrl

  /**
   * With no file nothing happens; a JPEG or PNG is read for upload; anything
   * else is refused with the page's own message. `mime` is the file's type.
   */
  function HandlePhoto(mime: Option<string>, refusal: string): (s: PhotoStep)
    ensures s == NoFile <==> mime.None?
    ensures s == ReadAsDataUrl <==> mime.Some? && (mime.value == "image/jpeg" || mime.value == "image/png")
    ensures s.Refused? ==> s.msg == refusal
  {
    match mime
    case None => NoFile
    case Some(t) => if t in PhotoTypes then ReadAsDataUrl else Refused(refusal)
  }
}
