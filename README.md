# A verified model of the my2_js_blog core

my2_js_blog is a small content blog. An Express and Mongoose server stores
"contents", each with a title, a content type ("text" or "image"), an
optional uploaded image and a comment. A React client lists, searches,
creates and edits them behind a sign-in page. This project models the
sequential logic inside that system in Dafny and proves what it promises.

- **`StringUtils`** (`string_utils.dfy`) models `sanitizeSpecialChars`.
  - The function replaces 30 half-width ASCII symbols by full-width
    counterparts.
  - The model keeps the source's loop with its `indexOf` lookup as a method.
  - That method is proved against a position-wise specification.
  - Lemmas prove length preservation, idempotence, concatenation and the
    test fixtures.
- **`ContentProvider`** (`content_provider.dfy`) models the content-list
  reducer (INIT, ADD, PATCH, DELETE, default).
- **`LoginForm`** and **`LoginFormFixtures`** (`login_form.dfy`,
  `login_form_fixtures.dfy`) model `LoginFormSchema`.
  - A parse is modelled as the ordered list of issues it reports.
  - There is an if-and-only-if for every issue, and a proof of the fixed
    reporting order.
  - The lemmas also cover the test inputs.
- **`ContentForm`** (`content_form.dfy`) models `ContentFormSchema`, with
  trimmed UTF-16 length bounds and the two-value enum.
- **`Validator`** (`validator.dfy`) models the server's request gates:
  - `formatErrors`, as a loop proved against a fold;
  - the error object a failed content parse produces, field by field;
  - the choice of login schema;
  - the 1 MiB upload size gate;
  - the two middlewares, as methods on a request/response object.
- **`Upload`** (`upload.dfy`) models multer's `fileFilter` extension and
  MIME whitelist.
- **`ContentsController`** (`contents_controller.dfy`) models the record
  construction of `registerContent` and `patchContent`.
  - The fields are assigned one after another on a record object.
  - The collection is a map from id to record.
- **`ProductList`** (`product_list.dfy`) models the title prefix search and
  the choice of what the list page shows.
- **`FormHandlers`** (`form_handlers.dfy`) models the hooks' state rules:
  - the failed sign-in counter;
  - the file size check, the preview and the clear handlers;
  - the submit guard;
  - the sign-up guard.
  Each hook is a class whose methods are its event handlers.
- Shared pieces:
  - **`Text`** (`text.dfy`) holds JavaScript's `trim`, UTF-16 length and
    `startsWith`.
  - **`Messages`** (`messages.dfy`) holds the message constants, the form
    fields and issues.
  - **`ContentModel`** (`content_model.dfy`) holds the content record.

Some things the model turns into explicit inputs:

- `path.extname`, the Base64 encoding of the file buffer and `safeFileName`
  are function parameters.
- The result of an API call arrives as a separate event.
- The object URL of a preview is a parameter.

Where the tests and the code disagree, the model follows the code:

- `test/src/schemas/LoginForm_test.ts:62-80` expects the message "最大10文字までです。".
  - The code builds it without the final "。". The model's `MaxLength(10)`
    stands for the code's text.
- The same test expects a pattern failure for the 17-character password
  "1234567890..AAaa!".
  - The pattern at `src/schemas/LoginForm.ts:22` has no end anchor, so the
    first 12 characters decide.
  - `LoginFormFixtures.LoginLongInputFixture` proves that the code reports
    only the user-name issue for that input.

## Model

| member | source | states |
|---|---|---|
| StringUtils.HanDistinct | server/utils/stringUtils.ts:9-72 | both tables have 30 entries and no half-width symbol is listed twice, so `indexOf` finds at most one entry |
| StringUtils.TableRanges | server/utils/stringUtils.ts:9-72 | every half-width symbol is ASCII and every full-width counterpart lies at or above U+2000 |
| StringUtils.ZenNotInHan | server/utils/stringUtils.ts:41-72 | no full-width counterpart is itself one of the half-width symbols |
| StringUtils.IndexFrom | server/utils/stringUtils.ts:77 | the linear search returns -1 or a position at or after the start that holds the code point |
| StringUtils.IndexFromFirst | server/utils/stringUtils.ts:77 | the search returns -1 exactly when no later position holds the code point, and no position before the result holds it |
| StringUtils.IndexOf | server/utils/stringUtils.ts:77 | `indexOf` returns -1 or a position of the table that holds the code point |
| StringUtils.IndexOfSpec | server/utils/stringUtils.ts:77 | `indexOf` returns -1 exactly for a code point absent from the table, otherwise its first occurrence |
| StringUtils.Convert | server/utils/stringUtils.ts:9-72 | the replacement of a code point is the code point itself, or a code point at or above U+2000 replacing an ASCII one |
| StringUtils.ConvertSymbol | server/utils/stringUtils.ts:77-79 | the k-th half-width symbol is replaced by the k-th full-width one |
| StringUtils.ConvertOther | server/utils/stringUtils.ts:80-82 | a code point that is not a half-width symbol is copied unchanged |
| StringUtils.ConvertNotSymbol | server/utils/stringUtils.ts:77-82 | no replacement is a half-width symbol |
| StringUtils.ConvertByIndex | server/utils/stringUtils.ts:77-82 | what the loop appends for one code point (the counterpart at the `indexOf` position, or the code point) is the table's replacement |
| StringUtils.SanitizeSpecialChars | server/utils/stringUtils.ts:74-84 | the loop returns the sanitised input: same number of code points, and position i holds the replacement of input position i |
| StringUtils.SanitizedAt | server/utils/stringUtils.ts:76-83 | the sanitised string has the input's length and follows the position-wise rule |
| StringUtils.SanitizedUnique | server/utils/stringUtils.ts:76-83 | any string of the same length that follows the position-wise rule is the sanitised string |
| StringUtils.SanitizedEmpty | server/utils/stringUtils.ts:75-84 | the empty string stays empty |
| StringUtils.SanitizedNoSymbols | server/utils/stringUtils.ts:76-83 | a string without any half-width symbol is returned unchanged |
| StringUtils.SanitizedHasNoSymbol | server/utils/stringUtils.ts:76-83 | a sanitised string keeps its length and contains no half-width symbol |
| StringUtils.SanitizedIdempotent | test/server/utils/stringUtils_test.ts:12-17 | sanitising twice gives the same as sanitising once |
| StringUtils.SanitizedConcat | server/utils/stringUtils.ts:76-83 | sanitising a concatenation is the concatenation of the sanitised parts |
| StringUtils.SanitizedMixedFixture | test/server/utils/stringUtils_test.ts:25-29 | "あ0.日!Dy" becomes "あ0．日！Dy" |
| StringUtils.SanitizedPlainFixture | test/server/utils/stringUtils_test.ts:19-23 | "あｲ0ジュ日Dy" is left as it is |
| StringUtils.SanitizedAllSymbolsFixture | test/server/utils/stringUtils_test.ts:5-17 | the 30 half-width symbols become the 30 full-width ones in order, and the full-width string is left as it is |
| ContentProvider.Reduce | src/contexts/ContentProvider.tsx:19-45 | INIT gives the payload; ADD appends the payload and keeps the earlier elements in place; PATCH keeps length and replaces exactly the elements with the payload's id; DELETE removes as many elements as carry the id and keeps only old elements without it; any other action changes nothing |
| ContentProvider.Patched | src/contexts/ContentProvider.tsx:30-35 | the `map` of PATCH keeps the length of the list |
| ContentProvider.Deleted | src/contexts/ContentProvider.tsx:36-41 | the `filter` of DELETE never lengthens the list, and no remaining element carries the deleted id |
| ContentProvider.PatchedAt | src/contexts/ContentProvider.tsx:30-35 | the mapped list has the same length, and element i is the payload when its id matches and unchanged otherwise |
| ContentProvider.PatchAbsentIsIdentity | src/contexts/ContentProvider.tsx:30-35 | PATCH with an id no element carries returns the list unchanged |
| ContentProvider.DeletedSurvivors | src/contexts/ContentProvider.tsx:36-41 | an element survives DELETE exactly when it was in the list and does not carry the deleted id |
| ContentProvider.DeletedCount | src/contexts/ContentProvider.tsx:36-41 | DELETE shortens the list by exactly the number of elements carrying the id |
| ContentProvider.DeletedConcat | src/contexts/ContentProvider.tsx:36-41 | DELETE keeps the original order: on a concatenation it filters each part |
| ContentProvider.DeleteAbsentIsIdentity | src/contexts/ContentProvider.tsx:36-41 | DELETE of an id no element carries changes nothing |
| LoginForm.UserNameIssuesOrdered | src/schemas/LoginForm.ts:13-17 | the user-name rule reports at most REQUIRED then the max-length message, in that order |
| LoginForm.PasswordIssuesOrdered | src/schemas/LoginForm.ts:18-22 | the password rule reports at most REQUIRED then the pattern message |
| LoginForm.RefineIssuesOrdered | src/schemas/LoginForm.ts:28-73 | the refinement reports lowercase, uppercase, digit, symbol and mismatch issues in that order |
| LoginForm.Measure | src/schemas/LoginForm.ts:13-28 | every rule sees trimmed values: a field measures 0 exactly when it is whitespace only, and the refinement compares the trimmed passwords |
| LoginForm.UserNameIssues | src/schemas/LoginForm.ts:13-17 | the user-name rule reports at most one issue, since an empty name is never too long, and always under `userName` |
| LoginForm.PasswordIssues | src/schemas/LoginForm.ts:18-22 | the password rule reports at most two issues, REQUIRED and the pattern message, both under `password` |
| LoginForm.ConfirmIssues | src/schemas/LoginForm.ts:23-26 | the confirmation rule reports at most REQUIRED under `confirmPassword` |
| LoginForm.RefineIssues | src/schemas/LoginForm.ts:28-73 | the refinement adds at most five issues; only the mismatch issue is under `confirmPassword`, the rest are under `password` |
| LoginForm.IssuesOf | src/schemas/LoginForm.ts:11-73 | a parse reports at most nine issues, all about the three login fields |
| LoginForm.LoginIssues | src/schemas/LoginForm.ts:11-73 | `safeParse` as the rules applied to the measured input; it has no contract of its own, and `LoginForm.LoginIssueIff` and `LoginForm.LoginIssuesOrdered` state which issues it reports and in what order |
| LoginForm.IssuesOfOrdered | src/schemas/LoginForm.ts:11-73 | all issues come in the fixed order: field rules (userName, password, confirmPassword), then the refinement; at most 10 |
| LoginForm.LoginIssuesOrdered | src/schemas/LoginForm.ts:11-73 | a parse of any input reports its issues in the fixed order, at most 10 |
| LoginForm.IssuesOfMember | src/schemas/LoginForm.ts:11-73 | an issue is reported exactly when the part of the schema responsible for its rank reports it |
| LoginForm.FieldIssuesIff | src/schemas/LoginForm.ts:13-26 | REQUIRED for a field exactly when its trimmed length is 0; the max-length message exactly when the trimmed user name is longer than 10; the pattern message exactly when the pattern fails |
| LoginForm.RefineMember | src/schemas/LoginForm.ts:28-73 | the refinement reports each of its five issues exactly when its test fails |
| LoginForm.RefineIssuesIff | src/schemas/LoginForm.ts:28-73 | in the whole parse, each refinement issue is reported exactly when its test fails, whatever the field rules report |
| LoginForm.IssuesOfEmptyIff | src/schemas/LoginForm.ts:11-73 | no issue exactly when every rule and every refinement test passes |
| LoginForm.LoginIssueIff | src/schemas/LoginForm.ts:11-73 | each of the ten issues is reported exactly when its condition holds on the trimmed input (whitespace-only, over 10 UTF-16 units, pattern fails, no lowercase, no uppercase, no digit, no symbol, passwords differ) |
| LoginForm.LoginValidIff | src/schemas/LoginForm.ts:11-73 | the parse succeeds exactly when the trimmed user name has 1 to 10 UTF-16 units, the trimmed password matches the pattern and has all four kinds of character, the confirmation is not blank and the trimmed passwords are equal |
| LoginFormFixtures.LoginValidFixture | test/src/schemas/LoginForm_test.ts:12-20 | "ユーザー名12345" with "aiueoaiue5!A" twice parses without issue |
| LoginFormFixtures.LoginAllEmptyFixture | test/src/schemas/LoginForm_test.ts:22-58 | three empty fields give exactly the eight issues in the tested order |
| LoginFormFixtures.LoginLongInputFixture | test/src/schemas/LoginForm_test.ts:62-80 | an 11-character user name with "1234567890..AAaa!" gives only the user name's max-length issue (the code's behaviour) |
| LoginFormFixtures.LoginNoLowercaseFixture | test/src/schemas/LoginForm_test.ts:102-118 | "1234567890A." gives exactly the no-lowercase issue |
| Messages.Key | server/helpers/validator.ts:65-67 | a field's key is never empty and never starts with `_`, so the `_error` skip never drops a field |
| Messages.KeyInjective | server/helpers/validator.ts:68-72 | distinct fields have distinct keys in the error object |
| Text.Trim | src/schemas/ContentForm.ts:15-17 | `trim` returns the input with a whitespace-only prefix and a whitespace-only suffix cut off; the result has no whitespace at either end, is empty exactly for whitespace-only text, and text without surrounding whitespace is kept as it is |
| Text.TrimIdempotent | src/schemas/ContentForm.ts:15-17 | trimming twice is trimming once |
| Text.Utf16Length | src/schemas/ContentForm.ts:18-19 | the length zod measures lies between the number of code points and twice it, and equals it exactly when every code point is in the Basic Multilingual Plane |
| ContentForm.LengthIssues | src/schemas/ContentForm.ts:15-19 | a `min(1)`/`max(n)` pair on a trimmed string reports at most one issue, always under the field it checks |
| ContentForm.Measure | src/schemas/ContentForm.ts:13-32 | the lengths are taken after `trim`, 0 exactly for whitespace-only text, and the type check accepts exactly "text" and "image" |
| ContentForm.IssuesOf | src/schemas/ContentForm.ts:13-32 | every issue is about the title, the content type or the comment |
| ContentForm.ContentIssues | src/schemas/ContentForm.ts:13-32 | `safeParse` as the rules applied to the measured form; it has no contract of its own, and `ContentForm.ContentIssueIff` and `ContentForm.ContentIssuesOrder` state which issues it reports and in what order |
| ContentForm.ParseContent | src/schemas/ContentForm.ts:13-32 | a failed parse carries at least one issue; a successful one yields the trimmed title and comment and the submitted content type |
| ContentForm.LengthIssuesIff | src/schemas/ContentForm.ts:15-19 | a length rule reports at most one issue: REQUIRED exactly below 1, the max message exactly above the bound, none exactly within |
| ContentForm.IssuesOfIff | src/schemas/ContentForm.ts:13-32 | each of the five content issues is reported exactly when its bound or the enum fails, and none exactly when all hold |
| ContentForm.IssuesOfOrder | src/schemas/ContentForm.ts:13-32 | at most three issues, in field order title, contentType, comment |
| ContentForm.OneIssuePerField | src/schemas/ContentForm.ts:13-32 | two issues for the same field are the same issue |
| ContentForm.IssueMeansRuleFails | src/schemas/ContentForm.ts:13-32 | an issue is only reported for one of the three fields, and only when that field's rule fails |
| ContentForm.ContentIssueIff | src/schemas/ContentForm.ts:15-31 | REQUIRED exactly for a whitespace-only title or comment; the max message exactly above 20 or 100 UTF-16 units after trimming; NO_VALUE_CONTENT_TYPE exactly for a type other than "text" and "image" |
| ContentForm.ContentIssuesOrder | src/schemas/ContentForm.ts:13-32 | any form reports at most three issues, in field order |
| ContentForm.ContentValidIff | src/schemas/ContentForm.ts:13-32 | the parse succeeds exactly when both trimmed texts are within their bounds and the type is "text" or "image" |
| ContentForm.TrimmedInBounds | src/schemas/ContentForm.ts:15-18 | a text of positive length after `trim` has no whitespace at either end |
| ContentForm.ValidDataBounds | src/schemas/ContentForm.ts:13-32 | the parsed title has 1 to 20 and the comment 1 to 100 UTF-16 units, and the type is "text" or "image" |
| ContentForm.ValidDataTrimmed | src/schemas/ContentForm.ts:13-32 | the parsed title and comment are non-empty and have no whitespace at either end |
| ContentForm.ReparseIsIdentity | server/helpers/validator.ts:25-30 | the server's second parse of data the schema produced gives the same data |
| ContentForm.BlankFormFixture | src/schemas/ContentForm.ts:13-32 | a blank title, the type "video" and an empty comment give REQUIRED, NO_VALUE_CONTENT_TYPE and REQUIRED, in field order |
| Validator.FormatErrors | server/helpers/validator.ts:61-78 | the loop over the tree's entries builds the fold's object, whose keys are exactly the node entries other than `_error` |
| Validator.Step | server/helpers/validator.ts:64-75 | one step of the `reduce`: the key "_error" and any value that is not a node leave the object as it was |
| Validator.Formatted | server/helpers/validator.ts:63-77 | the object the `reduce` builds never has the key "_error" |
| Validator.ZodFormat | server/helpers/validator.ts:63 | `error.format()` of a flat form: the root entry `_errors` with no messages, then at most one node per field, each with at least one message and a key that does not start with `_` |
| Validator.ErrorsOf | server/helpers/validator.ts:61-78 | the errors object of a 400 has neither the key "_error" nor the root key "_errors" |
| Validator.FormattedKeys | server/helpers/validator.ts:63-77 | a key is in the object exactly when some node entry carries it and it is not `_error` |
| Validator.FormattedValue | server/helpers/validator.ts:69-72 | with distinct keys, each node's cell is the first message of its `_errors` array (or `false` when it is empty) |
| Validator.MessagesForIff | server/helpers/validator.ts:63-77 | a field has messages in the tree exactly when some issue is about it |
| Validator.MessagesForFirst | server/helpers/validator.ts:70-72 | a field's first message is the message of its first issue |
| Validator.FieldEntriesShape | server/helpers/validator.ts:63-77 | the tree's field entries are exactly the nodes of the fields that have messages |
| Validator.FieldEntriesDistinct | server/helpers/validator.ts:63-77 | distinct fields give field entries with distinct keys |
| Validator.RootEntriesDistinct | server/helpers/validator.ts:63-77 | the `_errors` entry and the field entries have distinct keys |
| Validator.ZodFormatDistinct | server/helpers/validator.ts:63-77 | the keys of the formatted tree are distinct |
| Validator.ErrorsOnlyFieldKeys | server/helpers/validator.ts:63-77 | every key of the error object is a field's key |
| Validator.NodeHasMessages | server/helpers/validator.ts:68-72 | a node under a field's key holds that field's messages, which are not empty |
| Validator.ErrorsKeyIff | server/helpers/validator.ts:63-77 | a field has a key in the error object exactly when some issue is about it |
| Validator.NodeIndex | server/helpers/validator.ts:63-77 | a field with messages has its node somewhere in the tree |
| Validator.ErrorsValue | server/helpers/validator.ts:69-72 | a field's cell is the message of the first issue about that field |
| Validator.IssueCell | server/helpers/validator.ts:69-72 | for a content parse, each reported issue is the cell stored under its field's key |
| Validator.KeyPresentIff | server/helpers/validator.ts:25-27 | a content field has a key in the 400 body exactly when its rule fails |
| Validator.TitleCell | server/helpers/validator.ts:25-27 | a title measured 0 is answered with REQUIRED, one over 20 with the max-length message |
| Validator.ContentTypeCell | server/helpers/validator.ts:25-27 | a bad content type is answered with NO_VALUE_CONTENT_TYPE |
| Validator.CommentCell | server/helpers/validator.ts:25-27 | a comment measured 0 is answered with REQUIRED, one over 100 with the max-length message |
| Validator.BlankMeasuresZero | src/schemas/ContentForm.ts:15-18 | a text measures 0 after trimming exactly when it is whitespace only |
| Validator.ContentErrorKeys | server/helpers/validator.ts:25-27 | "title", "contentType" and "comment" are keys of the 400 body exactly when the matching rule fails on the submitted form |
| Validator.TitleErrorCell | server/helpers/validator.ts:25-27 | a whitespace-only title is answered with REQUIRED under "title", a too-long one with the max-length message |
| Validator.ContentTypeErrorCell | server/helpers/validator.ts:25-27 | a missing or unknown type is answered with NO_VALUE_CONTENT_TYPE under "contentType" |
| Validator.CommentErrorCell | server/helpers/validator.ts:25-27 | a whitespace-only comment is answered with REQUIRED under "comment", a too-long one with the max-length message |
| Validator.SchemaFor | server/helpers/validator.ts:44 | "signin" selects the sign-in schema and every other type the sign-up schema |
| Validator.SizeLimitBoundary | server/helpers/validator.ts:94-100 | no file never fails the size gate; exactly 1048576 bytes passes; one byte more fails |
| Validator.TooLarge | server/helpers/validator.ts:94-100 | the refusal condition of the size gate, a file strictly larger than 1048576 bytes; it has no contract of its own, and `Validator.SizeLimitBoundary` states its boundary |
| Validator.Exchange.ValidationInputContent | server/helpers/validator.ts:20-33 | a failed parse sets status 400 and the formatted errors and does not call `next`; a successful one replaces the body with the parsed data and calls `next` once, leaving the response alone |
| Validator.Exchange.ValidationUploadFile | server/helpers/validator.ts:89-103 | a file over 1048576 bytes gets 400 with FAIL_UPLOAD_SIZE_OVER and no `next`; otherwise `next` is called once and nothing else changes |
| Validator.RunContentGates | server/routes/contents.ts:25-27 | after the two gates in route order, `next` has reached the controller exactly when the form parses and the file is within the limit, and the controller then sees the parsed body |
| Upload.FileFilter | server/helpers/upload.ts:19-39 | the file is accepted exactly when its extension is ".png", ".jpg" or ".jpeg" and its MIME type "image/png" or "image/jpeg"; a rejection carries FAIL_UPLOAD_MINE_TYPE |
| Upload.UpperCaseRejected | server/helpers/upload.ts:25-33 | ".PNG" or "image/PNG" is rejected, since membership is exact string equality |
| Upload.NoCrossCheck | server/helpers/upload.ts:30-33 | a ".png" name declared "image/jpeg" is accepted: the two checks are independent |
| Upload.FilterIgnoresSize | server/helpers/upload.ts:19-39 | the decision does not depend on the file's size |
| ContentsController.ContentRecord.SetFile | server/controllers/contents.ts:75-79 | the three file fields get the encoded buffer, the decoded name and the MIME type; nothing else changes |
| ContentsController.FileFields | server/controllers/contents.ts:76-78 | the file fields of a record built from an upload |
| ContentsController.CreatedOf | server/controllers/contents.ts:69-79 | the registered record keeps the new id and the content type, stores the sanitised title and comment, and has each of the three file fields exactly when a file was uploaded |
| ContentsController.UpdateOf | server/controllers/contents.ts:112-131 | the update keeps the id and the content type, carries the sanitised title and comment, and leaves a file field out exactly when no file came and the type is not "text" |
| ContentsController.NewContent | server/controllers/contents.ts:69-79 | the document built for `save` has the sanitised title and comment, and file fields only when a file came |
| ContentsController.UpdateData | server/controllers/contents.ts:112-131 | the update object has the route id and the sanitised texts; a file sets the file fields whatever the type; without one a "text" content clears them to "" and any other type leaves them out |
| ContentsController.Merge | server/controllers/contents.ts:134-136 | a field present in the update replaces the stored one; an absent one keeps it |
| ContentsController.ApplyUpdate | server/controllers/contents.ts:134-136 | the update sets the id, title, type and comment, and keeps each file field the update leaves out |
| ContentsController.ContentStore.RegisterContent | server/controllers/contents.ts:69-86 | a fresh id stores the built record and returns it; a taken id stores nothing |
| ContentsController.ContentStore.PatchContent | server/controllers/contents.ts:103-144 | an unknown id answers 404 and changes nothing; a known one gets the update applied to that record alone and answers 200 with it |
| ContentsController.StoredTextsSanitized | server/controllers/contents.ts:112-117 | on create and on update the stored title and comment equal the sanitised submitted title and comment, and so have the same length, no half-width symbol, and are unchanged by sanitising again |
| ContentsController.CreatedFileFields | server/controllers/contents.ts:75-79 | registration sets the three file fields exactly when a file was uploaded |
| ContentsController.PatchTextClearsFile | server/controllers/contents.ts:120-124 | a PATCH of a text content without a file leaves all three file fields "" |
| ContentsController.PatchImageKeepsFile | server/controllers/contents.ts:112-131 | a PATCH of an image content without a file keeps the stored file fields |
| ContentsController.PatchFileOverrides | server/controllers/contents.ts:127-131 | a PATCH with a file stores that file, also for a text content |
| ContentsController.PatchIdempotent | server/controllers/contents.ts:134-136 | the record keeps its id, and the same PATCH twice equals it once |
| ProductList.FilterByTitle | src/pages/ProductList.tsx:89-91 | the filtered list is no longer than the list and holds only its contents whose title starts with the word |
| ProductList.FilterMembersIff | src/pages/ProductList.tsx:89-91 | a content is in the filtered list exactly when it is in the list and its title starts with the word |
| ProductList.FilterConcat | src/pages/ProductList.tsx:89-91 | the filter keeps list order: on a concatenation it filters each part |
| ProductList.FilterEmptyWordKeepsAll | src/pages/ProductList.tsx:89-91 | an empty search word keeps the whole list |
| ProductList.FilterIdempotent | src/pages/ProductList.tsx:89-91 | filtering the result again with the same word changes nothing |
| ProductList.RenderProductCard | src/pages/ProductList.tsx:30-78 | loading shows the loading text; an empty list shows "not registered"; any cards shown are the whole list or the filtered list |
| ProductList.RenderCases | src/pages/ProductList.tsx:38-77 | on the first render the whole list; afterwards a non-empty filtered list as it is, an empty one with no word the whole list, an empty one with a word the zero-hits text |
| ProductList.SearchShowsMatches | src/pages/ProductList.tsx:50-94 | with the filter the effect stores, taken of the current list (the effect re-filters only when the word changes, so this assumes the contents have not changed since then), the page shows zero hits exactly when no title starts with the word, and otherwise exactly the matching contents in list order |
| FormHandlers.Step | src/hooks/useFormHandlers.ts:243-248 | a success resets the counter to 0 and a failure adds 1 |
| FormHandlers.CountAfter | src/hooks/useFormHandlers.ts:240-255 | over a run of outcomes the counter grows by at most one per outcome |
| FormHandlers.TrailingFailures | src/hooks/useFormHandlers.ts:236-255 | the number of failures since the last success: all of them failures, preceded by a success or the start |
| FormHandlers.CountAfterSnoc | src/hooks/useFormHandlers.ts:240-255 | the counter after one more outcome is one step of the counter |
| FormHandlers.CountIsTrailingFailures | src/hooks/useFormHandlers.ts:236-255 | the counter equals the number of consecutive failures since the last success |
| FormHandlers.ButtonShownIff | src/pages/SignIn.tsx:66-72 | the sign-in button is shown exactly unless the last five outcomes were all failures |
| FormHandlers.SignInHook.ShowsSubmit | src/pages/SignIn.tsx:66 | the page shows the submit button while the count is below five; it has no contract of its own, and `FormHandlers.ButtonShownIff` states when that holds |
| FormHandlers.SignInHook.OnSignInResult | src/hooks/useFormHandlers.ts:240-255 | the counter takes one step; a 404 failure sets the message from the response, any other outcome keeps it |
| FormHandlers.ClientMatchesServerLimit | src/hooks/useFormHandlers.ts:63-66 | with the default limit the client accepts a file exactly when the server's size gate does |
| FormHandlers.FormHook.OnSelectedFileChange | src/hooks/useFormHandlers.ts:52-72 | no file clears the preview and the name; a file over the limit only alerts; any other file gets the preview URL and shows its name |
| FormHandlers.FormHook.Accepts | src/hooks/useFormHandlers.ts:63-66 | the size check refuses only a file strictly larger than the limit; it has no contract of its own, and `FormHandlers.ChooseFile` states what an accepted and a refused file do |
| FormHandlers.FormHook.SelectFile | src/hooks/useFormHandlers.ts:42-43 | the selected file is set and nothing else changes |
| FormHandlers.FormHook.OnChangeContentType | src/hooks/useFormHandlers.ts:75-82 | the type is set, the preview cleared and the selected file dropped; nothing else changes |
| FormHandlers.FormHook.OnClickPreview | src/hooks/useFormHandlers.ts:85-87 | the preview flag is toggled; nothing else changes |
| FormHandlers.FormHook.OnClickClearImg | src/hooks/useFormHandlers.ts:90-95 | the selected file is dropped and the preview and name cleared |
| FormHandlers.ChooseFile | src/hooks/useFormHandlers.ts:52-72 | choosing a file within the limit (size equal to the limit included) shows its preview and name; a larger one keeps both and alerts |
| FormHandlers.ChangeContentType | src/hooks/useFormHandlers.ts:52-82 | a type change sets the type, drops the file and clears the preview; the effect keyed on the file clears the name only when a file was selected before, so a name taken from the stored record on the edit page survives and the submit guard still lets a non-text type through |
| FormHandlers.SubmitHook.OnSubmit | src/hooks/useFormHandlers.ts:134-188 | a non-text type without a file name only sets NOT_EXISTS_UPLOAD_FILE; otherwise loading starts and the action's API call is made |
| FormHandlers.SubmitHook.NeedsFile | src/hooks/useFormHandlers.ts:140-143 | the submit guard: a type other than "text" with no file name; it has no contract of its own, and `FormHandlers.SubmitOnce` and `FormHandlers.ChangeContentType` state when it blocks |
| FormHandlers.SubmitHook.OnApiSettled | src/hooks/useFormHandlers.ts:220-224 | a settled call ends loading |
| FormHandlers.SubmitOnce | src/hooks/useFormHandlers.ts:139-188 | for "add" or "patch", exactly one API call is made exactly when the type is "text" or a file name is present |
| FormHandlers.SignUpHook.OnDebouncedUserName | src/hooks/useFormHandlers.ts:284-309 | an empty name clears the message type; otherwise the lookup sets warning, success or error |
| FormHandlers.SignUpHook.OnSubmitSignUp | src/hooks/useFormHandlers.ts:311-324 | the sign-up request is sent only when the message type is success |
| FormHandlers.CheckThenSubmit | src/hooks/useFormHandlers.ts:284-324 | after one settled lookup of the debounced name, a submit sends the request exactly when that name is non-empty and unused |

## Left out

- HTTP and process plumbing (the app, the routers, the error handler, the database connection and the axios clients) is not modelled. Only the route order of the content gates is kept, in `Validator.RunContentGates`.
- Mongoose itself is replaced by a map from id to record: `save`, `findById`, `findByIdAndUpdate`. The update is modelled without running schema validators, as `findByIdAndUpdate` does by default.
- The read and delete controllers (`getAll`, `getByID`, `deleteContent`) and the login controllers are not modelled. They are database and session glue, and password hashing with argon2 is foreign code.
- ContentsController.ContentStore.PatchContent: the source has no `return` after its first 404, so it goes on to `findByIdAndUpdate` and answers a second time. The model stops at the first 404. The stored records end the same either way, because the update finds no record. The double response is not modelled.
- ContentsController.ContentStore.RegisterContent: a failed `save` is modelled only for an id that is already taken. Other database failures are not modelled.
- Base64 encoding, `safeFileName` (iconv decoding) and `path.extname` are function parameters; what they compute is not modelled.
- The `SignInFormSchema` and `SignUpFormSchema` that `validationInputLogin` uses are not defined in `src/schemas/LoginForm.ts`, so only the choice between them is modelled (`Validator.SchemaFor`).
- zod's engine is not modelled. Each schema is written out as its rules, the messages are opaque constants, and input fields are always strings (non-string input is out of scope).
- Validator.ZodFormat: it lists the field nodes in field order, not in the order of their first issue. The object that `formatErrors` builds is the same either way, but the key order of the JSON body is not modelled.
- Text.Utf16Length: a Dafny string cannot hold a lone surrogate, so a malformed UTF-16 string is not modelled.
- ProductList.RenderProductCard: the list is always a sequence, so the `!useContentState` (null) case is not modelled separately from the empty list.
- The React wiring is out of scope: `useEffect` and `useReducer`, the debounce, the `setTimeout` loading toggle on the list page, `alert` texts, navigation, object-URL creation and revocation, `reset`, `setResMessage`, `setIsEnd`, and the dispatch to the reducer after a successful call.
- FormHandlers.SubmitHook.OnSubmit: for an action other than "add" or "patch" the source sets loading and makes no call. The model does the same, and `FormHandlers.SubmitOnce` is stated only for the two real actions.
- FormHandlers.SignUpHook.OnDebouncedUserName: only the message type is modelled, not the message text shown next to it.
- FormHandlers.CheckThenSubmit: it is stated for one lookup that has settled for the current debounced name. In the source the name trails the field by one second, and lookups are neither cancelled nor ordered. A late answer for an earlier name can therefore set "success" just before a submit, and the request is then sent for a name nobody checked. This race is not modelled.
- The page components, the form field components and the remaining pages are not modelled. They only render state that the modelled hooks hold.
