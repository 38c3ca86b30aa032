/**
 * The record construction of the contents controller. Registration builds
 * a mongoose document from the validated body and then overwrites its
 * fields one after another; an update builds a plain update object the
 * same way, under `if (contentType == "text")` and then `if (req.file)`,
 * so the later assignment wins. The collection is a map from id to record.
 *
 * Base64 encoding of the file buffer and the file-name decoding of
 * `safeFileName` are parameters of the model.
 */
module ContentsController {
  import opened StringUtils
  import opened ContentModel
  import opened ContentForm
  import opened Upload

  /** A content document whose fields the controller assigns in place. */
  class ContentRecord {
    var id: string
    var title: string
    var contentType: string
    var uploadFile: Option<string>
    var uploadFileName: Option<string>
    var uploadFileMineType: Option<string>
    var comment: string

    /** A record with the four required fields and no file fields. */
    constructor (id: string, title: string, contentType: string, comment: string)
      ensures this.id == id && this.title == title && this.contentType == contentType
      ensures this.comment == comment
      ensures uploadFile.None? && uploadFileName.None? && uploadFileMineType.None?
    {
      this.id := id;
      this.title := title;
      this.contentType := contentType;
      this.comment := comment;
      uploadFile := None;
      uploadFileName := None;
      uploadFileMineType := None;
    }

    function Value(): Content
      reads this
    {
      Content(id, title, contentType, uploadFile, uploadFileName, uploadFileMineType, comment)
    }

    /** Stores the three file fields from an uploaded file. */
    method SetFile(file: UploadedFile, encode: seq<bv8> -> string, safeName: string -> string)
      modifies this
      ensures Value() == old(Value()).(uploadFile := Some(encode(file.buffer)),
        uploadFileName := Some(safeName(file.originalName)), uploadFileMineType := Some(file.mimeType))
    {
      uploadFile := Some(encode(file.buffer));
      uploadFileName := Some(safeName(file.originalName));
      uploadFileMineType := Some(file.mimeType);
    }
  }

  /** The three file fields a record gets from an uploaded file. */
  function FileFields(file: UploadedFile, encode: seq<bv8> -> string, safeName: string -> string)
    : (r: (Option<string>, Option<string>, Option<string>))
    ensures r.0 == Some(encode(file.buffer)) && r.1 == Some(safeName(file.originalName))
    ensures r.2 == Some(file.mimeType)
  {
    (Some(encode(file.buffer)), Some(safeName(file.originalName)), Some(file.mimeType))
  }

  /** The record registration stores, as a decision on the inputs: the
      title and comment sanitized, and file fields only when a file came. */
  ghost function CreatedOf(newId: string, body: ContentData, file: Option<UploadedFile>,
                           encode: seq<bv8> -> string, safeName: string -> string): (c: Content)
    ensures c.id == newId && c.contentType == body.contentType
    ensures c.title == Sanitized(body.title) && c.comment == Sanitized(body.comment)
    ensures c.uploadFile.Some? <==> file.Some?
    ensures c.uploadFileName.Some? <==> file.Some?
    ensures c.uploadFileMineType.Some? <==> file.Some?
  {
    var f := if file.Some? then FileFields(file.value, encode, safeName) else (None, None, None);
    Content(newId, Sanitized(body.title), body.contentType, f.0, f.1, f.2, Sanitized(body.comment))
  }

  /** The update object of a PATCH, as a decision on the inputs: a file
      sets the three file fields whatever the content type; without one, a
      text content clears them to "" and any other content type leaves
      them out of the update. */
  ghost function UpdateOf(id: string, body: ContentData, file: Option<UploadedFile>,
                          encode: seq<bv8> -> string, safeName: string -> string): (c: Content)
    ensures c.id == id && c.contentType == body.contentType
    ensures c.title == Sanitized(body.title) && c.comment == Sanitized(body.comment)
    ensures c.uploadFile.None? <==> file.None? && body.contentType != "text"
    ensures c.uploadFileName.None? <==> file.None? && body.contentType != "text"
    ensures c.uploadFileMineType.None? <==> file.None? && body.contentType != "text"
  {
    var f :=
      if file.Some? then FileFields(file.value, encode, safeName)
      else if body.contentType == "text" then (Some(""), Some(""), Some(""))
      else (None, None, None);
    Content(id, Sanitized(body.title), body.contentType, f.0, f.1, f.2, Sanitized(body.comment))
  }

  /** `registerContent` up to `save`: the document built from the body,
      its title and comment sanitized, then the file fields when a file was
      uploaded. */
  method NewContent(newId: string, body: ContentData, file: Option<UploadedFile>,
                    encode: seq<bv8> -> string, safeName: string -> string) returns (c: Content)
    ensures c == CreatedOf(newId, body, file, encode, safeName)
  {
    var content := new ContentRecord(newId, body.title, body.contentType, body.comment);
    var title := SanitizeSpecialChars(content.title);
    content.title := title;
    var comment := SanitizeSpecialChars(content.comment);
    content.comment := comment;
    if file.Some? {
      content.SetFile(file.value, encode, safeName);
    }
    c := content.Value();
  }

  /** `patchContent` up to `findByIdAndUpdate`: the update object with the
      route id, the sanitized texts, the text reset and then the file. */
  method UpdateData(id: string, body: ContentData, file: Option<UploadedFile>,
                    encode: seq<bv8> -> string, safeName: string -> string) returns (u: Content)
    ensures u == UpdateOf(id, body, file, encode, safeName)
  {
    var title := SanitizeSpecialChars(body.title);
    var comment := SanitizeSpecialChars(body.comment);
    var updateData := new ContentRecord(id, title, body.contentType, comment);
    if updateData.contentType == "text" {
      updateData.uploadFile := Some("");
      updateData.uploadFileName := Some("");
      updateData.uploadFileMineType := Some("");
    }
    if file.Some? {
      updateData.SetFile(file.value, encode, safeName);
    }
    u := updateData.Value();
  }

  /** An optional field of an update: present values replace the stored
      one, an absent one keeps it. */
  function Merge(stored: Option<string>, update: Option<string>): (r: Option<string>)
    ensures update.Some? ==> r == update
    ensures update.None? ==> r == stored
  {
    if update.Some? then update else stored
  }

  /** `findByIdAndUpdate(id, update, { new: true })` on the stored record:
      every field the update carries is set, the others are kept. */
  function ApplyUpdate(stored: Content, u: Content): (r: Content)
    ensures r.id == u.id && r.title == u.title && r.contentType == u.contentType
    ensures r.comment == u.comment
    ensures u.uploadFile.None? ==> r.uploadFile == stored.uploadFile
    ensures u.uploadFileName.None? ==> r.uploadFileName == stored.uploadFileName
    ensures u.uploadFileMineType.None? ==> r.uploadFileMineType == stored.uploadFileMineType
  {
    Content(u.id, u.title, u.contentType,
            Merge(stored.uploadFile, u.uploadFile),
            Merge(stored.uploadFileName, u.uploadFileName),
            Merge(stored.uploadFileMineType, u.uploadFileMineType),
            u.comment)
  }

  /** The contents collection. */
  class ContentStore {
    var records: map<string, Content>

    constructor ()
      ensures records == map[]
    {
      records := map[];
    }

    /** `registerContent`: the new record is saved under its fresh id; an
        id already taken makes `save` fail and nothing is stored. */
    method RegisterContent(newId: string, body: ContentData, file: Option<UploadedFile>,
                           encode: seq<bv8> -> string, safeName: string -> string)
      returns (saved: Option<Content>)
      modifies this
      ensures newId in old(records) ==> saved.None? && records == old(records)
      ensures newId !in old(records) ==>
        && saved == Some(CreatedOf(newId, body, file, encode, safeName))
        && records == old(records)[newId := saved.value]
    {
      var content := NewContent(newId, body, file, encode, safeName);
      if newId in records {
        saved := None;
      } else {
        records := records[newId := content];
        saved := Some(content);
      }
    }

    /** `patchContent`: 404 when no record has the route id, otherwise the
        update is applied to that record alone and the result returned
        with 200. */
    method PatchContent(id: string, body: ContentData, file: Option<UploadedFile>,
                        encode: seq<bv8> -> string, safeName: string -> string)
      returns (status: nat, patched: Option<Content>)
      modifies this
      ensures id !in old(records) ==> status == 404 && patched.None? && records == old(records)
      ensures id in old(records) ==>
        && status == 200
        && patched == Some(ApplyUpdate(old(records)[id], UpdateOf(id, body, file, encode, safeName)))
        && records == old(records)[id := patched.value]
    {
      var updateData := UpdateData(id, body, file, encode, safeName);
      if id in records {
        var next := ApplyUpdate(records[id], updateData);
        records := records[id := next];
        status, patched := 200, Some(next);
      } else {
        status, patched := 404, None;
      }
    }
  }

  // ---------------------------------------------------------------------
  // What the stored records look like
  // ---------------------------------------------------------------------

  /** Both on create and on update the stored title and comment are the
      sanitized submitted texts; hence they have the submitted lengths, no
      half-width symbol is left, and sanitizing them again changes nothing. */
  lemma StoredTextsSanitized(id: string, body: ContentData, file: Option<UploadedFile>,
                             encode: seq<bv8> -> string, safeName: string -> string)
    ensures var c := CreatedOf(id, body, file, encode, safeName);
      && c.title == Sanitized(body.title) && c.comment == Sanitized(body.comment)
      && |c.title| == |body.title| && |c.comment| == |body.comment|
      && (forall i :: 0 <= i < |c.title| ==> c.title[i] !in Han)
      && (forall i :: 0 <= i < |c.comment| ==> c.comment[i] !in Han)
      && Sanitized(c.title) == c.title && Sanitized(c.comment) == c.comment
    ensures var u := UpdateOf(id, body, file, encode, safeName);
      u.title == CreatedOf(id, body, file, encode, safeName).title
      && u.comment == CreatedOf(id, body, file, encode, safeName).comment
  {
    SanitizedHasNoSymbol(body.title);
    SanitizedHasNoSymbol(body.comment);
    SanitizedIdempotent(body.title);
    SanitizedIdempotent(body.comment);
  }

  /** Registration sets the file fields exactly when a file was uploaded. */
  lemma CreatedFileFields(newId: string, body: ContentData, file: Option<UploadedFile>,
                          encode: seq<bv8> -> string, safeName: string -> string)
    ensures var c := CreatedOf(newId, body, file, encode, safeName);
      && (c.uploadFile.Some? <==> file.Some?)
      && (c.uploadFileName.Some? <==> file.Some?)
      && (c.uploadFileMineType.Some? <==> file.Some?)
      && (file.Some? ==> c.uploadFileMineType == Some(file.value.mimeType))
      && c.id == newId
  {
  }

  /** A PATCH of a text content without a file leaves the stored record
      with all three file fields "", whatever it held before. */
  lemma PatchTextClearsFile(stored: Content, body: ContentData, file: Option<UploadedFile>,
                            encode: seq<bv8> -> string, safeName: string -> string)
    requires body.contentType == "text" && file.None?
    ensures var r := ApplyUpdate(stored, UpdateOf(stored.id, body, file, encode, safeName));
      r.uploadFile == Some("") && r.uploadFileName == Some("") && r.uploadFileMineType == Some("")
  {
  }

  /** A PATCH of an image content without a file keeps the stored file. */
  lemma PatchImageKeepsFile(stored: Content, body: ContentData, file: Option<UploadedFile>,
                            encode: seq<bv8> -> string, safeName: string -> string)
    requires body.contentType == "image" && file.None?
    ensures var r := ApplyUpdate(stored, UpdateOf(stored.id, body, file, encode, safeName));
      && r.uploadFile == stored.uploadFile && r.uploadFileName == stored.uploadFileName
      && r.uploadFileMineType == stored.uploadFileMineType
  {
  }

  /** A PATCH with a file stores that file, also for a text content: the
      file assignment comes after the text reset and overrides it. */
  lemma PatchFileOverrides(stored: Content, body: ContentData, file: UploadedFile,
                           encode: seq<bv8> -> string, safeName: string -> string)
    ensures var r := ApplyUpdate(stored, UpdateOf(stored.id, body, Some(file), encode, safeName));
      && r.uploadFile == Some(encode(file.buffer))
      && r.uploadFileName == Some(safeName(file.originalName))
      && r.uploadFileMineType == Some(file.mimeType)
  {
  }

  /** The record keeps the id it is stored under, and sending the same
      PATCH twice gives the same record as sending it once. */
  lemma PatchIdempotent(stored: Content, body: ContentData, file: Option<UploadedFile>,
                        encode: seq<bv8> -> string, safeName: string -> string)
    ensures var u := UpdateOf(stored.id, body, file, encode, safeName);
      && ApplyUpdate(stored, u).id == stored.id
      && ApplyUpdate(ApplyUpdate(stored, u), u) == ApplyUpdate(stored, u)
  {
  }
}
