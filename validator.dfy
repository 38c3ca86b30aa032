/**
 * The server's request gates: re-validation of the content form, the
 * flattening of a failed parse into one message per field, the choice of
 * login schema, and the upload size limit.
 *
 * A request/response pair is an `Exchange` object whose fields the
 * middlewares update: the request body, the uploaded file, the response
 * status and body, and how many times `next` has been called.
 */
module Validator {
  import opened Text
  import opened Messages
  import opened ContentModel
  import opened ContentForm
  import opened Upload

  /** 1 MiB, the largest accepted upload. */
  const FileMaxSize: nat := 1048576

  // ---------------------------------------------------------------------
  // formatErrors
  // ---------------------------------------------------------------------

  /** A value of the formatted error tree: the top level's own message
      array, or a field node whose `_errors` array lists its messages. */
  datatype FormatValue = List(items: seq<Message>) | Node(errors: seq<Message>)

  /** What `formatErrors` stores for a field: the first message, or
      `false` when the node's message array is empty. */
  datatype Cell = First(message: Message) | False

  datatype Entry = Entry(key: string, value: FormatValue)

  function CellOf(errors: seq<Message>): Cell
  {
    if |errors| > 0 then First(errors[0]) else False
  }

  /** One step of the reduction: skip the key "_error" and anything that
      is not an object with an `_errors` property (an array is an object
      in JavaScript, but has no such property); otherwise store the cell. */
  function Step(acc: map<string, Cell>, e: Entry): (r: map<string, Cell>)
    ensures e.key == "_error" || e.value.List? ==> r == acc
  {
    if e.key == "_error" then acc
    else if e.value.Node? then acc[e.key := CellOf(e.value.errors)]
    else acc
  }

  /** The reduction over the entries, from left to right. */
  function Formatted(entries: seq<Entry>): (r: map<string, Cell>)
    ensures "_error" !in r
  {
    if entries == [] then map[] else Step(Formatted(entries[..|entries| - 1]), entries[|entries| - 1])
  }

  /** `formatErrors`: the `reduce` over `Object.entries(error.format())`
      with a mutable accumulator. */
  method FormatErrors(entries: seq<Entry>) returns (acc: map<string, Cell>)
    ensures acc == Formatted(entries)
    ensures forall k :: k in acc <==>
      exists i :: 0 <= i < |entries| && entries[i].key == k && k != "_error" && entries[i].value.Node?
  {
    acc := map[];
    for i := 0 to |entries|
      invariant acc == Formatted(entries[..i])
    {
      var e := entries[i];
      if e.key == "_error" {
        // skipped
      } else if e.value.Node? {
        acc := acc[e.key := CellOf(e.value.errors)];
      }
      assert entries[..i + 1][..i] == entries[..i];
    }
    assert entries[..|entries|] == entries;
    FormattedKeys(entries);
  }

  /** The output keys are exactly the input keys, other than "_error",
      whose value is a node with an `_errors` array. */
  lemma {:induction false} FormattedKeys(entries: seq<Entry>)
    ensures forall k :: k in Formatted(entries) <==>
      exists i :: 0 <= i < |entries| && entries[i].key == k && k != "_error" && entries[i].value.Node?
  {
    if entries != [] {
      var n := |entries| - 1;
      var front := entries[..n];
      FormattedKeys(front);
      forall k
        ensures k in Formatted(entries) <==>
          exists i :: 0 <= i < |entries| && entries[i].key == k && k != "_error" && entries[i].value.Node?
      {
        if k in Formatted(entries) && k !in Formatted(front) {
          assert entries[n].key == k;
        }
        if exists i :: 0 <= i < |entries| && entries[i].key == k && k != "_error" && entries[i].value.Node? {
          var i :| 0 <= i < |entries| && entries[i].key == k && k != "_error" && entries[i].value.Node?;
          if i < n {
            assert front[i] == entries[i];
          }
        }
      }
    }
  }

  /** With distinct keys, as `Object.entries` always yields, each stored
      cell is the first message of that key's node. */
  lemma {:induction false} FormattedValue(entries: seq<Entry>, i: nat)
    requires i < |entries| && entries[i].key != "_error" && entries[i].value.Node?
    requires forall a, b :: 0 <= a < b < |entries| ==> entries[a].key != entries[b].key
    ensures entries[i].key in Formatted(entries)
    ensures Formatted(entries)[entries[i].key] == CellOf(entries[i].value.errors)
  {
    var n := |entries| - 1;
    if i < n {
      FormattedValue(entries[..n], i);
    }
  }

  // ---------------------------------------------------------------------
  // The formatted tree of a failed parse
  // ---------------------------------------------------------------------

  /** The messages of the issues about one field, in issue order. */
  function MessagesFor(issues: seq<Issue>, f: Field): (ms: seq<Message>)
    ensures |ms| <= |issues|
  {
    if issues == [] then []
    else (if issues[0].path == f then [issues[0].message] else []) + MessagesFor(issues[1..], f)
  }

  /** The fields of the forms, in declaration order. */
  const AllFields: seq<Field> := [UserName, Password, ConfirmPassword, Title, ContentType, Comment]

  function FieldEntries(issues: seq<Issue>, fields: seq<Field>): (r: seq<Entry>)
    ensures |r| <= |fields|
    ensures forall i :: 0 <= i < |r| ==> r[i].value.Node? && r[i].value.errors != [] && |r[i].key| > 0 && r[i].key[0] != '_'
  {
    if fields == [] then []
    else
      var ms := MessagesFor(issues, fields[0]);
      (if ms != [] then [Entry(Key(fields[0]), Node(ms))] else []) + FieldEntries(issues, fields[1..])
  }

  /** `error.format()` for a flat form: the top-level `_errors` array
      (empty, since every issue has a field path) and one node per field
      that has an issue. The keys are listed in field order rather than in
      order of first issue; the reduction stores one cell per key either
      way, so the result is the same map. */
  function ZodFormat(issues: seq<Issue>): (r: seq<Entry>)
    ensures 1 <= |r| <= 1 + |AllFields|
    ensures r[0].key == "_errors" && r[0].value == List([])
    ensures forall i :: 1 <= i < |r| ==> r[i].value.Node? && r[i].value.errors != [] && |r[i].key| > 0 && r[i].key[0] != '_'
  {
    [Entry("_errors", List([]))] + FieldEntries(issues, AllFields)
  }

  /** The errors object of a 400 response for a failed parse. */
  function ErrorsOf(issues: seq<Issue>): (r: map<string, Cell>)
    ensures "_error" !in r && "_errors" !in r
  {
    var entries := ZodFormat(issues);
    FormattedKeys(entries);
    Formatted(entries)
  }

  lemma {:induction false} MessagesForIff(issues: seq<Issue>, f: Field)
    ensures MessagesFor(issues, f) != [] <==> exists x :: x in issues && x.path == f
  {
    if issues != [] {
      MessagesForIff(issues[1..], f);
      if exists x :: x in issues && x.path == f {
        var x :| x in issues && x.path == f;
        if x != issues[0] {
          assert x in issues[1..];
        }
      }
    }
  }

  /** The first message for a field comes from its first issue. */
  lemma {:induction false} MessagesForFirst(issues: seq<Issue>, f: Field)
    requires MessagesFor(issues, f) != []
    ensures exists i :: 0 <= i < |issues| && issues[i].path == f && MessagesFor(issues, f)[0] == issues[i].message
             && forall j :: 0 <= j < i ==> issues[j].path != f
  {
    if issues[0].path != f {
      var tail := issues[1..];
      MessagesForFirst(tail, f);
      var i :| 0 <= i < |tail| && tail[i].path == f && MessagesFor(tail, f)[0] == tail[i].message
        && forall j :: 0 <= j < i ==> tail[j].path != f;
      assert issues[i + 1] == tail[i];
      assert forall j :: 1 <= j < i + 1 ==> issues[j] == tail[j - 1];
    }
  }

  lemma {:induction false} FieldEntriesShape(issues: seq<Issue>, fields: seq<Field>)
    ensures forall e :: e in FieldEntries(issues, fields) ==>
      exists f :: f in fields && e == Entry(Key(f), Node(MessagesFor(issues, f))) && MessagesFor(issues, f) != []
    ensures forall f :: f in fields && MessagesFor(issues, f) != [] ==>
      Entry(Key(f), Node(MessagesFor(issues, f))) in FieldEntries(issues, fields)
  {
    if fields != [] {
      FieldEntriesShape(issues, fields[1..]);
    }
  }

  lemma {:induction false} FieldEntriesDistinct(issues: seq<Issue>, fields: seq<Field>)
    requires forall a, b :: 0 <= a < b < |fields| ==> fields[a] != fields[b]
    ensures forall a, b :: 0 <= a < b < |FieldEntries(issues, fields)| ==>
      FieldEntries(issues, fields)[a].key != FieldEntries(issues, fields)[b].key
  {
    if fields != [] {
      var rest := FieldEntries(issues, fields[1..]);
      FieldEntriesDistinct(issues, fields[1..]);
      FieldEntriesShape(issues, fields[1..]);
      forall e | e in rest
        ensures e.key != Key(fields[0])
      {
        var f :| f in fields[1..] && e == Entry(Key(f), Node(MessagesFor(issues, f))) && MessagesFor(issues, f) != [];
        KeyInjective(f, fields[0]);
      }
    }
  }

  /** The `_errors` entry followed by the field entries of any list of
      distinct fields has distinct keys. */
  lemma RootEntriesDistinct(issues: seq<Issue>, fields: seq<Field>)
    requires forall a, b :: 0 <= a < b < |fields| ==> fields[a] != fields[b]
    ensures var z := [Entry("_errors", List([]))] + FieldEntries(issues, fields);
      forall a, b :: 0 <= a < b < |z| ==> z[a].key != z[b].key
  {
    var rest := FieldEntries(issues, fields);
    FieldEntriesDistinct(issues, fields);
    FieldEntriesShape(issues, fields);
    var z := [Entry("_errors", List([]))] + rest;
    forall a, b | 0 <= a < b < |z|
      ensures z[a].key != z[b].key
    {
      assert z[b] == rest[b - 1];
      if a == 0 {
        assert z[b] in rest;
        var f :| f in fields && z[b] == Entry(Key(f), Node(MessagesFor(issues, f))) && MessagesFor(issues, f) != [];
        assert Key(f)[0] != "_errors"[0];
      } else {
        assert z[a] == rest[a - 1];
      }
    }
  }

  /** The keys of the formatted tree are distinct. */
  lemma ZodFormatDistinct(issues: seq<Issue>)
    ensures forall a, b :: 0 <= a < b < |ZodFormat(issues)| ==> ZodFormat(issues)[a].key != ZodFormat(issues)[b].key
  {
    assert ZodFormat(issues) == [Entry("_errors", List([]))] + FieldEntries(issues, AllFields);
    RootEntriesDistinct(issues, AllFields);
  }

  /** Every key of the response's errors object is a field's key. */
  lemma ErrorsOnlyFieldKeys(issues: seq<Issue>)
    ensures forall k :: k in ErrorsOf(issues) ==> exists g :: k == Key(g)
  {
    var entries := ZodFormat(issues);
    var rest := FieldEntries(issues, AllFields);
    FormattedKeys(entries);
    FieldEntriesShape(issues, AllFields);
    forall k | k in ErrorsOf(issues)
      ensures exists g :: k == Key(g)
    {
      var i :| 0 <= i < |entries| && entries[i].key == k && k != "_error" && entries[i].value.Node?;
      assert i > 0;
      assert entries[i] == rest[i - 1];
      assert entries[i] in rest;
      var g :| g in AllFields && entries[i] == Entry(Key(g), Node(MessagesFor(issues, g))) && MessagesFor(issues, g) != [];
      assert k == Key(g);
    }
  }

  /** A node labelled with a field's key holds that field's messages,
      which are therefore not empty. */
  lemma NodeHasMessages(issues: seq<Issue>, f: Field, i: nat)
    requires i < |ZodFormat(issues)| && ZodFormat(issues)[i].key == Key(f) && ZodFormat(issues)[i].value.Node?
    ensures MessagesFor(issues, f) != []
  {
    var rest := FieldEntries(issues, AllFields);
    FieldEntriesShape(issues, AllFields);
    var e := ZodFormat(issues)[i];
    assert i > 0;
    assert e == rest[i - 1];
    assert e in rest;
    var g :| g in AllFields && e == Entry(Key(g), Node(MessagesFor(issues, g))) && MessagesFor(issues, g) != [];
    KeyInjective(f, g);
  }

  /** The response's errors object has a key for exactly the fields with
      an issue. */
  lemma ErrorsKeyIff(issues: seq<Issue>, f: Field)
    ensures Key(f) in ErrorsOf(issues) <==> exists x :: x in issues && x.path == f
  {
    var entries := ZodFormat(issues);
    FormattedKeys(entries);
    MessagesForIff(issues, f);
    assert Key(f) != "_error" by { assert Key(f)[0] != '_'; }
    if MessagesFor(issues, f) != [] {
      var i := NodeIndex(issues, f);
      assert entries[i].key == Key(f) && entries[i].value.Node?;
    } else if Key(f) in ErrorsOf(issues) {
      var i :| 0 <= i < |entries| && entries[i].key == Key(f) && Key(f) != "_error" && entries[i].value.Node?;
      NodeHasMessages(issues, f, i);
    }
  }

  /** A field with messages has its node at some position of the tree. */
  lemma NodeIndex(issues: seq<Issue>, f: Field) returns (i: nat)
    requires MessagesFor(issues, f) != []
    ensures i < |ZodFormat(issues)| && ZodFormat(issues)[i] == Entry(Key(f), Node(MessagesFor(issues, f)))
  {
    var rest := FieldEntries(issues, AllFields);
    FieldEntriesShape(issues, AllFields);
    assert f in AllFields;
    var e := Entry(Key(f), Node(MessagesFor(issues, f)));
    assert e in rest;
    var j :| 0 <= j < |rest| && rest[j] == e;
    i := j + 1;
  }

  /** Each field's cell is the first message reported for that field. */
  lemma ErrorsValue(issues: seq<Issue>, f: Field)
    requires exists x :: x in issues && x.path == f
    ensures Key(f) in ErrorsOf(issues)
    ensures exists i :: 0 <= i < |issues| && issues[i].path == f && ErrorsOf(issues)[Key(f)] == First(issues[i].message)
             && forall j :: 0 <= j < i ==> issues[j].path != f
  {
    MessagesForIff(issues, f);
    MessagesForFirst(issues, f);
    var i := NodeIndex(issues, f);
    ZodFormatDistinct(issues);
    assert Key(f) != "_error" by { assert Key(f)[0] != '_'; }
    FormattedValue(ZodFormat(issues), i);
  }

  /** The cell a failed content parse stores for a field that has an
      issue is that issue's message. */
  lemma IssueCell(m: Measured, x: Issue)
    requires x in IssuesOf(m)
    ensures Key(x.path) in ErrorsOf(IssuesOf(m))
    ensures ErrorsOf(IssuesOf(m))[Key(x.path)] == First(x.message)
  {
    var issues := IssuesOf(m);
    ErrorsValue(issues, x.path);
    var i :| 0 <= i < |issues| && issues[i].path == x.path && ErrorsOf(issues)[Key(x.path)] == First(issues[i].message);
    OneIssuePerField(m, issues[i], x);
  }

  /** A field has a key in the 400 body exactly when its rule fails. */
  lemma KeyPresentIff(m: Measured)
    ensures Key(Title) in ErrorsOf(IssuesOf(m)) <==> !(StrMinLength <= m.titleLength <= TitleMaxLength)
    ensures Key(ContentType) in ErrorsOf(IssuesOf(m)) <==> !m.typeOk
    ensures Key(Comment) in ErrorsOf(IssuesOf(m)) <==> !(StrMinLength <= m.commentLength <= CommentMaxLength)
  {
    var issues := IssuesOf(m);
    IssuesOfIff(m);
    ErrorsKeyIff(issues, Title);
    ErrorsKeyIff(issues, ContentType);
    ErrorsKeyIff(issues, Comment);
    if Key(Title) in ErrorsOf(issues) {
      var x :| x in issues && x.path == Title;
      IssueMeansRuleFails(m, x);
    }
    if Key(ContentType) in ErrorsOf(issues) {
      var x :| x in issues && x.path == ContentType;
      IssueMeansRuleFails(m, x);
    }
    if Key(Comment) in ErrorsOf(issues) {
      var x :| x in issues && x.path == Comment;
      IssueMeansRuleFails(m, x);
    }
  }

  /** The cells of the 400 body for the title, by rule: REQUIRED for an
      empty title, the max-length message for one over 20. */
  lemma TitleCell(m: Measured)
    ensures m.titleLength < StrMinLength ==>
      "title" in ErrorsOf(IssuesOf(m)) && ErrorsOf(IssuesOf(m))["title"] == First(Required)
    ensures m.titleLength > TitleMaxLength ==>
      && "title" in ErrorsOf(IssuesOf(m))
      && ErrorsOf(IssuesOf(m))["title"] == First(MaxLength(TitleMaxLength))
  {
    IssuesOfIff(m);
    assert Key(Title) == "title";
    if m.titleLength < StrMinLength { IssueCell(m, Issue(Title, Required)); }
    if m.titleLength > TitleMaxLength { IssueCell(m, Issue(Title, MaxLength(TitleMaxLength))); }
  }

  /** The cell for a content type that is not one of the two. */
  lemma ContentTypeCell(m: Measured)
    ensures !m.typeOk ==>
      "contentType" in ErrorsOf(IssuesOf(m))
      && ErrorsOf(IssuesOf(m))["contentType"] == First(NoValueContentType)
  {
    IssuesOfIff(m);
    assert Key(ContentType) == "contentType";
    if !m.typeOk { IssueCell(m, Issue(ContentType, NoValueContentType)); }
  }

  /** The cells for the comment, as for the title with a bound of 100. */
  lemma CommentCell(m: Measured)
    ensures m.commentLength < StrMinLength ==>
      "comment" in ErrorsOf(IssuesOf(m)) && ErrorsOf(IssuesOf(m))["comment"] == First(Required)
    ensures m.commentLength > CommentMaxLength ==>
      && "comment" in ErrorsOf(IssuesOf(m))
      && ErrorsOf(IssuesOf(m))["comment"] == First(MaxLength(CommentMaxLength))
  {
    IssuesOfIff(m);
    assert Key(Comment) == "comment";
    if m.commentLength < StrMinLength { IssueCell(m, Issue(Comment, Required)); }
    if m.commentLength > CommentMaxLength { IssueCell(m, Issue(Comment, MaxLength(CommentMaxLength))); }
  }

  /** A whitespace-only text measures 0 after trimming. */
  lemma BlankMeasuresZero(s: string)
    ensures AllWhitespace(s) <==> Utf16Length(Trim(s)) == 0
  {
  }

  /** KeyPresentIff with the keys written out as the property names. */
  lemma KeyNamesPresentIff(m: Measured)
    ensures "title" in ErrorsOf(IssuesOf(m)) <==> !(StrMinLength <= m.titleLength <= TitleMaxLength)
    ensures "contentType" in ErrorsOf(IssuesOf(m)) <==> !m.typeOk
    ensures "comment" in ErrorsOf(IssuesOf(m)) <==> !(StrMinLength <= m.commentLength <= CommentMaxLength)
  {
    KeyPresentIff(m);
    assert Key(Title) == "title" && Key(ContentType) == "contentType" && Key(Comment) == "comment";
  }

  /** The keys of the 400 body for a content form: a field has a key
      exactly when its rule fails. */
  lemma ContentErrorKeys(f: ContentInput)
    ensures "title" in ErrorsOf(ContentIssues(f)) <==>
      !(StrMinLength <= Utf16Length(Trim(f.title)) <= TitleMaxLength)
    ensures "contentType" in ErrorsOf(ContentIssues(f)) <==> !IsContentType(f.contentType)
    ensures "comment" in ErrorsOf(ContentIssues(f)) <==>
      !(StrMinLength <= Utf16Length(Trim(f.comment)) <= CommentMaxLength)
  {
    var m := Measure(f);
    assert ContentIssues(f) == IssuesOf(m);
    KeyNamesPresentIff(m);
  }

  /** The title cell of the 400 body for a content form: a
      whitespace-only title is answered with REQUIRED, one that is too long
      with the max-length message. */
  lemma TitleErrorCell(f: ContentInput)
    ensures AllWhitespace(f.title) ==>
      "title" in ErrorsOf(ContentIssues(f)) && ErrorsOf(ContentIssues(f))["title"] == First(Required)
    ensures Utf16Length(Trim(f.title)) > TitleMaxLength ==>
      && "title" in ErrorsOf(ContentIssues(f))
      && ErrorsOf(ContentIssues(f))["title"] == First(MaxLength(TitleMaxLength))
  {
    var m := Measure(f);
    assert ContentIssues(f) == IssuesOf(m);
    TitleCell(m);
  }

  /** A missing or unknown content type is answered with
      NO_VALUE_CONTENT_TYPE. */
  lemma ContentTypeErrorCell(f: ContentInput)
    ensures !IsContentType(f.contentType) ==>
      && "contentType" in ErrorsOf(ContentIssues(f))
      && ErrorsOf(ContentIssues(f))["contentType"] == First(NoValueContentType)
  {
    var m := Measure(f);
    assert ContentIssues(f) == IssuesOf(m);
    ContentTypeCell(m);
  }

  /** The comment cell, as for the title with a bound of 100. */
  lemma CommentErrorCell(f: ContentInput)
    ensures AllWhitespace(f.comment) ==>
      "comment" in ErrorsOf(ContentIssues(f)) && ErrorsOf(ContentIssues(f))["comment"] == First(Required)
    ensures Utf16Length(Trim(f.comment)) > CommentMaxLength ==>
      && "comment" in ErrorsOf(ContentIssues(f))
      && ErrorsOf(ContentIssues(f))["comment"] == First(MaxLength(CommentMaxLength))
  {
    var m := Measure(f);
    assert ContentIssues(f) == IssuesOf(m);
    CommentCell(m);
  }

  // ---------------------------------------------------------------------
  // The login schema choice
  // ---------------------------------------------------------------------

  datatype LoginSchema = SignInSchema | SignUpSchema

  /** `type === "signin" ? SignInFormSchema : SignUpFormSchema`. */
  function SchemaFor(kind: string): (r: LoginSchema)
    ensures r == SignInSchema <==> kind == "signin"
    ensures r == SignUpSchema <==> kind != "signin"
  {
    if kind == "signin" then SignInSchema else SignUpSchema
  }

  // ---------------------------------------------------------------------
  // The size limit
  // ---------------------------------------------------------------------

  /** Whether the size gate refuses the request: only a file strictly
      larger than 1 MiB is refused; no file is never refused. */
  predicate TooLarge(file: Option<UploadedFile>)
  {
    file.Some? && FileMaxSize < file.value.size
  }

  lemma SizeLimitBoundary(file: UploadedFile)
    ensures !TooLarge(None)
    ensures !TooLarge(Some(file.(size := FileMaxSize)))
    ensures TooLarge(Some(file.(size := FileMaxSize + 1)))
  {
  }

  // ---------------------------------------------------------------------
  // The middlewares
  // ---------------------------------------------------------------------

  /** The request body: the submitted form, or the parsed data once the
      content validation has replaced it. */
  datatype RequestBody = Submitted(form: ContentInput) | Validated(data: ContentData)

  datatype ResponseBody = ErrorsBody(errors: map<string, Cell>) | MessageBody(message: Message)

  /** The parsed data, read back as form fields. */
  function AsInput(b: RequestBody): ContentInput
  {
    match b
    case Submitted(form) => form
    case Validated(d) => ContentInput(d.title, Some(d.contentType), d.comment)
  }

  class Exchange {
    var body: RequestBody
    var file: Option<UploadedFile>
    var status: Option<nat>
    var response: Option<ResponseBody>
    var nextCalls: nat

    constructor(body: RequestBody, file: Option<UploadedFile>)
      ensures this.body == body && this.file == file
      ensures status == None && response == None && nextCalls == 0
    {
      this.body := body;
      this.file := file;
      status := None;
      response := None;
      nextCalls := 0;
    }

    /** `validationInputContent`: on a failed parse, answer 400 with the
        formatted errors and stop; otherwise replace the body with the
        parsed data and call `next` once. */
    method ValidationInputContent()
      modifies this
      ensures file == old(file)
      ensures ParseContent(AsInput(old(body))).Invalid? ==>
        && status == Some(400)
        && response == Some(ErrorsBody(ErrorsOf(ParseContent(AsInput(old(body))).issues)))
        && body == old(body) && nextCalls == old(nextCalls)
      ensures ParseContent(AsInput(old(body))).Valid? ==>
        && body == Validated(ParseContent(AsInput(old(body))).data)
        && nextCalls == old(nextCalls) + 1
        && status == old(status) && response == old(response)
    {
      var validationResult := ParseContent(AsInput(body));
      if validationResult.Invalid? {
        var errors := FormatErrors(ZodFormat(validationResult.issues));
        status := Some(400);
        response := Some(ErrorsBody(errors));
        return;
      } else {
        body := Validated(validationResult.data);
        nextCalls := nextCalls + 1;
      }
    }

    /** `validationUploadFile`: a file larger than 1 MiB gets a 400 with
        FAIL_UPLOAD_SIZE_OVER and `next` is not called; otherwise `next`
        is called once. */
    method ValidationUploadFile()
      modifies this
      ensures body == old(body) && file == old(file)
      ensures TooLarge(file) ==>
        status == Some(400) && response == Some(MessageBody(FailUploadSizeOver)) && nextCalls == old(nextCalls)
      ensures !TooLarge(file) ==>
        status == old(status) && response == old(response) && nextCalls == old(nextCalls) + 1
    {
      if file.Some? {
        var uploadFile := file.value;
        if FileMaxSize < uploadFile.size {
          status := Some(400);
          response := Some(MessageBody(FailUploadSizeOver));
          return;
        }
      }
      nextCalls := nextCalls + 1;
    }
  }

  /** The content routes run the content validation and then the size
      gate; the controller is reached (two calls of `next`) exactly when
      the form parses and the file is not too large. */
  method RunContentGates(ex: Exchange)
    modifies ex
    requires ex.nextCalls == 0
    ensures ex.nextCalls == 2 <==> ParseContent(AsInput(old(ex.body))).Valid? && !TooLarge(ex.file)
    ensures ex.nextCalls == 2 ==> ex.body == Validated(ParseContent(AsInput(old(ex.body))).data)
  {
    ex.ValidationInputContent();
    if ex.nextCalls == 1 {
      ex.ValidationUploadFile();
    }
  }
}
