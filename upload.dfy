/**
 * The file filter of the upload middleware: a file is let through only
 * when both its extension and its MIME type are on the allowed lists.
 * The extension is what `path.extname` returns for the original file
 * name; that function is a parameter of the model.
 */
module Upload {
  import opened Messages

  const AllowedExtensions: seq<string> := [".png", ".jpg", ".jpeg"]
  const AllowedMimeTypes: seq<string> := ["image/png", "image/jpeg"]

  /** What the filter passes to its callback: an error, or `(null, true)`. */
  datatype FilterDecision = Reject(error: Message) | Accept

  /** The file multer hands on: its contents, the name the client sent,
      the MIME type the client declared and the size in bytes. */
  datatype UploadedFile = UploadedFile(buffer: seq<bv8>, originalName: string, mimeType: string, size: nat)

  /** `fileFilter`: rejects with FAIL_UPLOAD_MINE_TYPE unless the extension
      and the MIME type are both allowed. The callback is invoked exactly
      once, with the one decision returned here. */
  function FileFilter(file: UploadedFile, extname: string -> string): (r: FilterDecision)
    ensures r.Accept? <==>
      && (extname(file.originalName) == ".png" || extname(file.originalName) == ".jpg"
          || extname(file.originalName) == ".jpeg")
      && (file.mimeType == "image/png" || file.mimeType == "image/jpeg")
    ensures r.Reject? ==> r.error == FailUploadMimeType
  {
    var extension := extname(file.originalName);
    if extension !in AllowedExtensions || file.mimeType !in AllowedMimeTypes then
      Reject(FailUploadMimeType)
    else
      Accept
  }

  /** Membership is exact string equality, so an upper-case extension or
      MIME type is rejected. */
  lemma UpperCaseRejected(file: UploadedFile, extname: string -> string)
    requires extname(file.originalName) == ".PNG" || file.mimeType == "image/PNG"
    ensures FileFilter(file, extname) == Reject(FailUploadMimeType)
  {
  }

  /** The two checks are independent: the extension does not have to agree
      with the MIME type. */
  lemma NoCrossCheck(file: UploadedFile, extname: string -> string)
    requires extname(file.originalName) == ".png" && file.mimeType == "image/jpeg"
    ensures FileFilter(file, extname) == Accept
  {
  }

  /** The decision depends on the extension and the MIME type only, never
      on the size (the size is checked later, by the size gate). */
  lemma FilterIgnoresSize(file: UploadedFile, size: nat, extname: string -> string)
    ensures FileFilter(file.(size := size), extname) == FileFilter(file, extname)
  {
  }
}
