/**
 * The user-facing messages of the application, as opaque constants, and
 * the validation issue a form schema reports.
 *
 * Several of the front-end message names used by the login schema have
 * no text in the enumeration shown for the front end, so messages are
 * compared by name only, never by text.
 */
module Messages {

  datatype Message =
    // front-end messages (FrontMessages)
    | Required                 // REQUIRED
    | MaxLength(max: nat)      // the `最大${max}文字までです` format
    | PassRegex                // PASS_REGEX_MESSAGE
    | PassNoLowercase          // PASS_REGEX_NO_SMALL_ALF
    | PassNoUppercase          // PASS_REGEX_NO_BIG_ALF
    | PassNoDigit              // PASS_REGEX_NO_NUM
    | PassNoSymbol             // PASS_REGEX_NO_SYMBOL
    | PassMismatch             // PASS_MISMATCH
    | NoValueContentType       // NO_VALUE_CONTENT_TYPE
    | NotExistsUploadFile      // NOT_EXISTS_UPLOAD_FILE
    | OkUploadFileInfo         // OK_UPLOAD_FILE_INFO
    // server messages (ServerMessages)
    | FailUploadMimeType       // FAIL_UPLOAD_MINE_TYPE
    | FailUploadSizeOver       // FAIL_UPLOAD_SIZE_OVER
    | UpdateNoData             // UPDATE_NO_DATA

  /** The form fields the schemas check. */
  datatype Field = UserName | Password | ConfirmPassword | Title | ContentType | Comment

  /** The property name of a field, as it appears in an issue's path and
      as a key of the formatted errors. */
  function Key(f: Field): (k: string)
    ensures |k| > 0 && k[0] != '_'
  {
    match f
    case UserName => "userName"
    case Password => "password"
    case ConfirmPassword => "confirmPassword"
    case Title => "title"
    case ContentType => "contentType"
    case Comment => "comment"
  }

  /** Distinct fields have distinct keys. */
  lemma KeyInjective(f: Field, g: Field)
    ensures Key(f) == Key(g) ==> f == g
  {
    if Key(f) == Key(g) {
      assert Key(f)[0] == Key(g)[0] && |Key(f)| == |Key(g)|;
    }
  }

  /** One issue of a failed schema parse: the field it is about and its
      message. */
  datatype Issue = Issue(path: Field, message: Message)
}
