/**
 * ContentFormSchema: a title of 1 to 20 characters, a content type that is
 * "text" or "image", and a comment of 1 to 100 characters, the two texts
 * trimmed before they are measured. The server runs the same schema again
 * on the submitted body and keeps the parsed (trimmed) values.
 */
module ContentForm {
  import opened Text
  import opened Messages
  import opened ContentModel

  const StrMinLength: nat := 1
  const TitleMaxLength: nat := 20
  const CommentMaxLength: nat := 100

  /** The submitted form. The content type is optional: a select left
      without a value sends nothing. */
  datatype ContentInput = ContentInput(title: string, contentType: Option<string>, comment: string)

  /** The parsed values: trimmed title and comment, and the content type. */
  datatype ContentData = ContentData(title: string, contentType: string, comment: string)

  datatype ParseResult = Invalid(issues: seq<Issue>) | Valid(data: ContentData)

  /** `z.enum(["text", "image"])`. */
  predicate IsContentType(t: Option<string>)
  {
    t.Some? && (t.value == "text" || t.value == "image")
  }

  /** `string().trim().min(1, REQUIRED).max(max, STR_MAX_LENGTH(max))`,
      given the UTF-16 length of the trimmed value. */
  function LengthIssues(field: Field, max: nat, n: nat): (r: seq<Issue>)
    ensures |r| <= 1
    ensures forall i :: 0 <= i < |r| ==> r[i].path == field
  {
    (if n < StrMinLength then [Issue(field, Required)] else [])
    + (if n > max then [Issue(field, MaxLength(max))] else [])
  }

  /** What the rules look at: the UTF-16 lengths of the trimmed title
      and comment, and whether the content type is one of the two. */
  datatype Measured = Measured(titleLength: nat, typeOk: bool, commentLength: nat)

  function Measure(f: ContentInput): (m: Measured)
    ensures m.titleLength == 0 <==> AllWhitespace(f.title)
    ensures m.commentLength == 0 <==> AllWhitespace(f.comment)
    ensures m.typeOk <==> f.contentType == Some("text") || f.contentType == Some("image")
  {
    Measured(Utf16Length(Trim(f.title)), IsContentType(f.contentType), Utf16Length(Trim(f.comment)))
  }

  /** The issues in the schema's field order: title, contentType, comment. */
  function IssuesOf(m: Measured): (r: seq<Issue>)
    ensures forall i :: 0 <= i < |r| ==> r[i].path == Title || r[i].path == ContentType || r[i].path == Comment
  {
    LengthIssues(Title, TitleMaxLength, m.titleLength)
    + (if m.typeOk then [] else [Issue(ContentType, NoValueContentType)])
    + LengthIssues(Comment, CommentMaxLength, m.commentLength)
  }

  function ContentIssues(f: ContentInput): seq<Issue>
  {
    IssuesOf(Measure(f))
  }

  /** `ContentFormSchema.safeParse`: the issues when there are any,
      otherwise the parsed values. */
  function ParseContent(f: ContentInput): (r: ParseResult)
    ensures r.Invalid? ==> r.issues != []
    ensures r.Valid? ==>
      && r.data.title == Trim(f.title) && r.data.comment == Trim(f.comment)
      && f.contentType == Some(r.data.contentType)
  {
    var issues := ContentIssues(f);
    if issues == [] then Valid(ContentData(Trim(f.title), f.contentType.value, Trim(f.comment)))
    else Invalid(issues)
  }

  /** A length rule reports at most one issue: REQUIRED exactly when the
      length is below 1 and the max message exactly when it is above the
      bound; every issue is about the rule's own field. */
  lemma LengthIssuesIff(field: Field, max: nat, n: nat)
    requires StrMinLength <= max
    ensures LengthIssues(field, max, n) == [] <==> StrMinLength <= n <= max
    ensures |LengthIssues(field, max, n)| <= 1
    ensures Issue(field, Required) in LengthIssues(field, max, n) <==> n < StrMinLength
    ensures Issue(field, MaxLength(max)) in LengthIssues(field, max, n) <==> n > max
    ensures forall x :: x in LengthIssues(field, max, n) ==> x.path == field
  {
  }

  /** The position of a field in the content schema. */
  function FieldOrder(field: Field): nat
  {
    match field
    case Title => 0
    case ContentType => 1
    case Comment => 2
    case _ => 3
  }

  /** Each rule's issue is reported exactly when the rule fails, and no
      other issue is reported. */
  lemma IssuesOfIff(m: Measured)
    ensures Issue(Title, Required) in IssuesOf(m) <==> m.titleLength < StrMinLength
    ensures Issue(Title, MaxLength(TitleMaxLength)) in IssuesOf(m) <==> m.titleLength > TitleMaxLength
    ensures Issue(ContentType, NoValueContentType) in IssuesOf(m) <==> !m.typeOk
    ensures Issue(Comment, Required) in IssuesOf(m) <==> m.commentLength < StrMinLength
    ensures Issue(Comment, MaxLength(CommentMaxLength)) in IssuesOf(m) <==> m.commentLength > CommentMaxLength
    ensures IssuesOf(m) == [] <==>
      StrMinLength <= m.titleLength <= TitleMaxLength && m.typeOk
      && StrMinLength <= m.commentLength <= CommentMaxLength
  {
    var t := LengthIssues(Title, TitleMaxLength, m.titleLength);
    var k := if m.typeOk then [] else [Issue(ContentType, NoValueContentType)];
    var c := LengthIssues(Comment, CommentMaxLength, m.commentLength);
    LengthIssuesIff(Title, TitleMaxLength, m.titleLength);
    LengthIssuesIff(Comment, CommentMaxLength, m.commentLength);
    assert forall x :: x in t + k + c <==> x in t || x in k || x in c;
  }

  /** Issues listed in strictly increasing field order. */
  predicate InFieldOrder(r: seq<Issue>)
  {
    forall i, j :: 0 <= i < j < |r| ==> FieldOrder(r[i].path) < FieldOrder(r[j].path)
  }

  /** Two runs in field order, the first wholly before the second, give a
      run in field order. */
  lemma InFieldOrderConcat(a: seq<Issue>, b: seq<Issue>, bound: nat)
    requires InFieldOrder(a) && InFieldOrder(b)
    requires forall x :: x in a ==> FieldOrder(x.path) < bound
    requires forall y :: y in b ==> bound <= FieldOrder(y.path)
    ensures InFieldOrder(a + b)
  {
    var r := a + b;
    forall i, j | 0 <= i < j < |r|
      ensures FieldOrder(r[i].path) < FieldOrder(r[j].path)
    {
      if j < |a| {
        assert r[i] == a[i] && r[j] == a[j];
      } else if i >= |a| {
        assert r[i] == b[i - |a|] && r[j] == b[j - |a|];
      } else {
        assert r[i] == a[i] && r[j] == b[j - |a|];
        assert r[i] in a && r[j] in b;
      }
    }
  }

  /** A length rule reports at most one issue, about its own field. */
  lemma LengthIssuesPaths(field: Field, max: nat, n: nat)
    requires StrMinLength <= max
    ensures |LengthIssues(field, max, n)| <= 1
    ensures forall x :: x in LengthIssues(field, max, n) ==> x.path == field
  {
  }

  /** The title and content-type issues, in that order. */
  lemma HeadIssuesOrder(m: Measured)
    ensures var h := LengthIssues(Title, TitleMaxLength, m.titleLength)
                     + (if m.typeOk then [] else [Issue(ContentType, NoValueContentType)]);
      && |h| <= 2 && InFieldOrder(h)
      && forall x :: x in h ==> FieldOrder(x.path) < 2
  {
    var t := LengthIssues(Title, TitleMaxLength, m.titleLength);
    var k: seq<Issue> := if m.typeOk then [] else [Issue(ContentType, NoValueContentType)];
    LengthIssuesPaths(Title, TitleMaxLength, m.titleLength);
    InFieldOrderConcat(t, k, 1);
  }

  /** At most one issue per field, in the schema's field order. */
  lemma IssuesOfOrder(m: Measured)
    ensures |IssuesOf(m)| <= 3
    ensures InFieldOrder(IssuesOf(m))
  {
    var h := LengthIssues(Title, TitleMaxLength, m.titleLength)
             + (if m.typeOk then [] else [Issue(ContentType, NoValueContentType)]);
    var c := LengthIssues(Comment, CommentMaxLength, m.commentLength);
    HeadIssuesOrder(m);
    LengthIssuesPaths(Comment, CommentMaxLength, m.commentLength);
    InFieldOrderConcat(h, c, 2);
  }

  /** No field is reported twice. */
  lemma OneIssuePerField(m: Measured, x: Issue, y: Issue)
    requires x in IssuesOf(m) && y in IssuesOf(m) && x.path == y.path
    ensures x == y
  {
    var t := LengthIssues(Title, TitleMaxLength, m.titleLength);
    var k := if m.typeOk then [] else [Issue(ContentType, NoValueContentType)];
    var c := LengthIssues(Comment, CommentMaxLength, m.commentLength);
    LengthIssuesIff(Title, TitleMaxLength, m.titleLength);
    LengthIssuesIff(Comment, CommentMaxLength, m.commentLength);
    assert x in t || x in k || x in c;
    assert y in t || y in k || y in c;
  }

  /** An issue about a field means that field's rule fails. */
  lemma IssueMeansRuleFails(m: Measured, x: Issue)
    requires x in IssuesOf(m)
    ensures x.path == Title ==> !(StrMinLength <= m.titleLength <= TitleMaxLength)
    ensures x.path == ContentType ==> !m.typeOk
    ensures x.path == Comment ==> !(StrMinLength <= m.commentLength <= CommentMaxLength)
    ensures x.path in {Title, ContentType, Comment}
  {
    var t := LengthIssues(Title, TitleMaxLength, m.titleLength);
    var k := if m.typeOk then [] else [Issue(ContentType, NoValueContentType)];
    var c := LengthIssues(Comment, CommentMaxLength, m.commentLength);
    LengthIssuesIff(Title, TitleMaxLength, m.titleLength);
    LengthIssuesIff(Comment, CommentMaxLength, m.commentLength);
    assert x in t || x in k || x in c;
  }

  /** Each field reports its own issue exactly when its rule fails; a
      whitespace-only title or comment is REQUIRED, since trimming runs
      before the minimum check. */
  lemma ContentIssueIff(f: ContentInput)
    ensures Issue(Title, Required) in ContentIssues(f) <==> AllWhitespace(f.title)
    ensures Issue(Title, MaxLength(TitleMaxLength)) in ContentIssues(f)
        <==> Utf16Length(Trim(f.title)) > TitleMaxLength
    ensures Issue(ContentType, NoValueContentType) in ContentIssues(f) <==> !IsContentType(f.contentType)
    ensures Issue(Comment, Required) in ContentIssues(f) <==> AllWhitespace(f.comment)
    ensures Issue(Comment, MaxLength(CommentMaxLength)) in ContentIssues(f)
        <==> Utf16Length(Trim(f.comment)) > CommentMaxLength
  {
    IssuesOfIff(Measure(f));
  }

  /** At most one issue per field, in the schema's field order. */
  lemma ContentIssuesOrder(f: ContentInput)
    ensures |ContentIssues(f)| <= 3
    ensures InFieldOrder(ContentIssues(f))
  {
    IssuesOfOrder(Measure(f));
  }

  /** The form parses exactly when every rule holds. */
  lemma ContentValidIff(f: ContentInput)
    ensures ParseContent(f).Valid? <==>
      && StrMinLength <= Utf16Length(Trim(f.title)) <= TitleMaxLength
      && IsContentType(f.contentType)
      && StrMinLength <= Utf16Length(Trim(f.comment)) <= CommentMaxLength
  {
    IssuesOfIff(Measure(f));
  }

  /** A text as `trim()` leaves it when it is not empty: no whitespace
      at either end. */
  predicate IsTrimmed(t: string)
  {
    t != [] && !IsWhitespace(t[0]) && !IsWhitespace(t[|t| - 1])
  }

  /** A trimmed text of positive UTF-16 length is non-empty with no
      whitespace at either end. */
  lemma TrimmedInBounds(s: string)
    requires StrMinLength <= Utf16Length(Trim(s))
    ensures IsTrimmed(Trim(s))
  {
  }

  /** What a successful parse hands on: texts within their bounds and one
      of the two content types. */
  lemma ValidDataBounds(f: ContentInput)
    requires ParseContent(f).Valid?
    ensures var d := ParseContent(f).data;
      && StrMinLength <= Utf16Length(d.title) <= TitleMaxLength
      && StrMinLength <= Utf16Length(d.comment) <= CommentMaxLength
      && (d.contentType == "text" || d.contentType == "image")
  {
    ContentValidIff(f);
  }

  /** The texts of a successful parse are trimmed: non-empty, with no
      whitespace at either end. */
  lemma ValidDataTrimmed(f: ContentInput)
    requires ParseContent(f).Valid?
    ensures IsTrimmed(ParseContent(f).data.title) && IsTrimmed(ParseContent(f).data.comment)
  {
    ContentValidIff(f);
    TrimmedInBounds(f.title);
    TrimmedInBounds(f.comment);
  }

  /** The parsed data, submitted again, parses to itself: the server's
      second run of the schema accepts what the form's run produced. */
  lemma ReparseIsIdentity(f: ContentInput)
    requires ParseContent(f).Valid?
    ensures var d := ParseContent(f).data;
      ParseContent(ContentInput(d.title, Some(d.contentType), d.comment)) == Valid(d)
  {
    var d := ParseContent(f).data;
    TrimIdempotent(f.title);
    TrimIdempotent(f.comment);
    ContentValidIff(f);
    ContentValidIff(ContentInput(d.title, Some(d.contentType), d.comment));
  }

  /** Fixture: an ideographic space and a tab as the title, an unknown
      content type and an empty comment give one issue per field. */
  lemma BlankFormFixture(f: ContentInput)
    requires f == ContentInput("\U{3000}\t", Some("video"), "")
    ensures ParseContent(f)
         == Invalid([Issue(Title, Required), Issue(ContentType, NoValueContentType), Issue(Comment, Required)])
  {
    assert AllWhitespace(f.title) && AllWhitespace(f.comment);
    assert !IsContentType(f.contentType);
    assert Measure(f) == Measured(0, false, 0);
  }
}
