/**
 * The client-side state rules of the form hooks. Each hook is a class
 * whose fields are its React state and whose methods are the event
 * handlers and effects that call the state setters. API calls are
 * recorded rather than made; their asynchronous outcomes arrive as
 * separate events.
 */
module FormHandlers {
  import opened Messages
  import opened ContentModel
  import Upload
  import Validator

  // ---------------------------------------------------------------------
  // Sign-in: the failed-login counter
  // ---------------------------------------------------------------------

  /** How a sign-in request ended: success, or failure with an HTTP
      status and the message of the response body. */
  datatype Outcome = Success | Failure(status: int, message: string)

  /** The failures the sign-in page accepts before it hides the button. */
  const MaxFailedLogins: nat := 5

  /** The counter after one outcome: a success resets it, a failure adds 1. */
  function Step(count: nat, o: Outcome): (r: nat)
    ensures o.Success? ==> r == 0
    ensures o.Failure? ==> r == count + 1
  {
    if o.Success? then 0 else count + 1
  }

  /** The counter after a run of outcomes, from `count`. */
  function CountAfter(count: nat, outcomes: seq<Outcome>): (r: nat)
    decreases |outcomes|
    ensures r <= count + |outcomes|
  {
    if outcomes == [] then count else CountAfter(Step(count, outcomes[0]), outcomes[1..])
  }

  /** The number of failures since the last success. */
  function TrailingFailures(outcomes: seq<Outcome>): (n: nat)
    ensures n <= |outcomes|
    ensures forall i :: |outcomes| - n <= i < |outcomes| ==> outcomes[i].Failure?
    ensures n < |outcomes| ==> outcomes[|outcomes| - n - 1].Success?
  {
    if outcomes == [] then 0
    else if outcomes[|outcomes| - 1].Success? then 0
    else TrailingFailures(outcomes[..|outcomes| - 1]) + 1
  }

  /** Appending one outcome to a run. */
  lemma {:induction false} CountAfterSnoc(count: nat, outcomes: seq<Outcome>, o: Outcome)
    ensures CountAfter(count, outcomes + [o]) == Step(CountAfter(count, outcomes), o)
    decreases |outcomes|
  {
    if outcomes != [] {
      assert (outcomes + [o])[1..] == outcomes[1..] + [o];
      CountAfterSnoc(Step(count, outcomes[0]), outcomes[1..], o);
    }
  }

  /** From the page's initial 0, the counter is the number of failed
      sign-ins since the last successful one (all of them when none
      succeeded). */
  lemma {:induction false} CountIsTrailingFailures(outcomes: seq<Outcome>)
    ensures CountAfter(0, outcomes) == TrailingFailures(outcomes)
  {
    if outcomes != [] {
      var prefix := outcomes[..|outcomes| - 1];
      assert outcomes == prefix + [outcomes[|outcomes| - 1]];
      CountAfterSnoc(0, prefix, outcomes[|outcomes| - 1]);
      CountIsTrailingFailures(prefix);
    }
  }

  /** The submit button is shown exactly while fewer than five sign-ins in
      a row have failed: five consecutive failures hide it, and a success
      in the last five brings it back. */
  lemma ButtonShownIff(outcomes: seq<Outcome>)
    ensures CountAfter(0, outcomes) < MaxFailedLogins <==>
      !(|outcomes| >= MaxFailedLogins
        && forall i :: |outcomes| - MaxFailedLogins <= i < |outcomes| ==> outcomes[i].Failure?)
  {
    CountIsTrailingFailures(outcomes);
    var n := TrailingFailures(outcomes);
    assert CountAfter(0, outcomes) == n;
    if n < MaxFailedLogins {
      if |outcomes| >= MaxFailedLogins {
        assert outcomes[|outcomes| - n - 1].Success?;
      }
    } else {
      forall i | |outcomes| - MaxFailedLogins <= i < |outcomes|
        ensures outcomes[i].Failure?
      {
        assert |outcomes| - n <= i;
      }
    }
  }

  /** `useSignInOnSubmit`: the counter and the message shown under the
      form. */
  class SignInHook {
    var failedLoginCount: nat
    var failedLoginMessage: string

    constructor ()
      ensures failedLoginCount == 0 && failedLoginMessage == ""
    {
      failedLoginCount := 0;
      failedLoginMessage := "";
    }

    /** The sign-in page shows the submit button while the count is
        below five. */
    predicate ShowsSubmit()
      reads this
    {
      failedLoginCount < MaxFailedLogins
    }

    /** The outcome of a sign-in request: a success resets the counter; a
        failure adds one and, for a 404, shows the server's message, while
        any other failure keeps the message (and only alerts). */
    method OnSignInResult(o: Outcome)
      modifies this
      ensures failedLoginCount == Step(old(failedLoginCount), o)
      ensures o.Failure? && o.status == 404 ==> failedLoginMessage == o.message
      ensures !(o.Failure? && o.status == 404) ==> failedLoginMessage == old(failedLoginMessage)
    {
      if o.Success? {
        failedLoginCount := 0;
      } else {
        failedLoginCount := failedLoginCount + 1;
        if o.status == 404 {
          failedLoginMessage := o.message;
        }
      }
    }
  }

  // ---------------------------------------------------------------------
  // The content form: preview and file name
  // ---------------------------------------------------------------------

  /** A file chosen in the file input. */
  datatype SelectedFile = SelectedFile(name: string, size: nat)

  /** The default `maxSize` of `useFormHandlers`: 1 MiB. */
  const DefaultMaxSize: nat := 1048576

  /** The client's default limit is the server's: a file of a given size
      passes the client check exactly when the server's size gate lets it
      through. */
  lemma ClientMatchesServerLimit(file: SelectedFile, upload: Upload.UploadedFile)
    requires upload.size == file.size
    ensures file.size <= DefaultMaxSize <==> !Validator.TooLarge(Some(upload))
  {
  }

  /** `useFormHandlers` together with the selected-file state it is
      given. The object URL a preview gets is a parameter. */
  class FormHook {
    var selectedFile: Option<SelectedFile>
    var previewImgSrc: string
    var isClickPreview: bool
    var createdFileName: string
    var contentType: string
    var alerts: seq<Message>
    const maxSize: nat

    constructor (maxSize: nat, contentType: string)
      ensures this.maxSize == maxSize && this.contentType == contentType
      ensures selectedFile.None? && previewImgSrc == "" && !isClickPreview && createdFileName == ""
      ensures alerts == []
    {
      this.maxSize := maxSize;
      this.contentType := contentType;
      selectedFile := None;
      previewImgSrc := "";
      isClickPreview := false;
      createdFileName := "";
      alerts := [];
    }

    /** Whether the size check lets a file through: only a file strictly
        larger than `maxSize` is refused. */
    predicate Accepts(file: SelectedFile)
      reads this
    {
      file.size <= maxSize
    }

    /** The effect that runs when the selected file changes: no file
        clears the preview and the name; a file over the size limit only
        alerts and keeps both; any other file gets a preview URL and its
        name is shown. */
    method OnSelectedFileChange(objectUrl: string)
      modifies this
      ensures selectedFile == old(selectedFile) && contentType == old(contentType)
      ensures isClickPreview == old(isClickPreview)
      ensures selectedFile.None? ==>
        previewImgSrc == "" && createdFileName == "" && alerts == old(alerts)
      ensures selectedFile.Some? && !Accepts(selectedFile.value) ==>
        && previewImgSrc == old(previewImgSrc) && createdFileName == old(createdFileName)
        && alerts == old(alerts) + [OkUploadFileInfo]
      ensures selectedFile.Some? && Accepts(selectedFile.value) ==>
        && previewImgSrc == objectUrl && createdFileName == selectedFile.value.name
        && alerts == old(alerts)
    {
      if selectedFile.None? {
        previewImgSrc := "";
        createdFileName := "";
        return;
      }
      if selectedFile.value.size > maxSize {
        alerts := alerts + [OkUploadFileInfo];
        return;
      }
      previewImgSrc := objectUrl;
      createdFileName := selectedFile.value.name;
    }

    /** A new file chosen in the file input. */
    method SelectFile(file: Option<SelectedFile>)
      modifies this
      ensures selectedFile == file
      ensures previewImgSrc == old(previewImgSrc) && createdFileName == old(createdFileName)
      ensures isClickPreview == old(isClickPreview) && contentType == old(contentType)
      ensures alerts == old(alerts)
    {
      selectedFile := file;
    }

    /** `onChangeContentType`: the new type is stored, the preview cleared
        and the selected file dropped; the file name is cleared only by
        the effect, when dropping the file changed it. */
    method OnChangeContentType(value: string)
      modifies this
      ensures contentType == value && previewImgSrc == "" && selectedFile.None?
      ensures createdFileName == old(createdFileName) && isClickPreview == old(isClickPreview)
      ensures alerts == old(alerts)
    {
      contentType := value;
      previewImgSrc := "";
      selectedFile := None;
    }

    /** `onClickPreview`: toggles the enlarged preview. */
    method OnClickPreview()
      modifies this
      ensures isClickPreview == !old(isClickPreview)
      ensures selectedFile == old(selectedFile) && previewImgSrc == old(previewImgSrc)
      ensures createdFileName == old(createdFileName) && contentType == old(contentType)
      ensures alerts == old(alerts)
    {
      isClickPreview := !isClickPreview;
    }

    /** `onClickClearImg`: no file, no preview, no file name. */
    method OnClickClearImg()
      modifies this
      ensures selectedFile.None? && previewImgSrc == "" && createdFileName == ""
      ensures isClickPreview == old(isClickPreview) && contentType == old(contentType)
      ensures alerts == old(alerts)
    {
      selectedFile := None;
      previewImgSrc := "";
      createdFileName := "";
    }
  }

  /** Choosing a file and letting its effect run: a file within the size
      limit (the limit itself included) gets the preview and its name is
      shown; a larger one only alerts, and the previous preview and name
      stay. */
  method ChooseFile(hook: FormHook, file: SelectedFile, objectUrl: string)
    modifies hook
    ensures hook.selectedFile == Some(file)
    ensures file.size <= hook.maxSize ==>
      hook.previewImgSrc == objectUrl && hook.createdFileName == file.name
    ensures file.size > hook.maxSize ==>
      && hook.previewImgSrc == old(hook.previewImgSrc) && hook.createdFileName == old(hook.createdFileName)
      && hook.alerts == old(hook.alerts) + [OkUploadFileInfo]
  {
    hook.SelectFile(Some(file));
    hook.OnSelectedFileChange(objectUrl);
  }

  /** Changing the content type. The selected file is dropped, but the
      effect keyed on `[selectedFile]` re-runs only when the file actually
      changes: a file that was set becomes null and the effect clears the
      name, while a file that was already null (the edit page, whose name
      comes from the stored record) stays null and the name is kept, so
      the submit guard still lets a non-text type through. */
  method ChangeContentType(hook: FormHook, value: string, objectUrl: string)
    modifies hook
    ensures hook.contentType == value && hook.selectedFile.None? && hook.previewImgSrc == ""
    ensures hook.createdFileName == (if old(hook.selectedFile).Some? then "" else old(hook.createdFileName))
    ensures old(hook.selectedFile).None? && old(hook.createdFileName) != "" ==>
      !SubmitHook.NeedsFile(hook.contentType, hook.createdFileName)
  {
    var hadFile := hook.selectedFile.Some?;
    hook.OnChangeContentType(value);
    if hadFile {
      hook.OnSelectedFileChange(objectUrl);
    }
  }

  // ---------------------------------------------------------------------
  // The content form: submit
  // ---------------------------------------------------------------------

  /** The API call a submit starts. */
  datatype ApiCall = Post | PatchById(id: string)

  /** `useOnSubmit` with the state it sets. */
  class SubmitHook {
    const action: string
    var uploadFileError: Option<Message>
    var isLoading: bool
    var apiCalls: seq<ApiCall>

    constructor (action: string)
      ensures this.action == action
      ensures uploadFileError.None? && !isLoading && apiCalls == []
    {
      this.action := action;
      uploadFileError := None;
      isLoading := false;
      apiCalls := [];
    }

    /** The guard of `onSubmit`: a content type other than "text" needs a
        file name. */
    static predicate NeedsFile(contentType: string, createdFileName: string)
    {
      contentType != "text" && createdFileName == ""
    }

    /** `onSubmit`: without the required file it only sets the upload-file
        error; otherwise it starts loading and calls the API for the
        hook's action, "add" with a POST and "patch" with a PATCH of the
        edited id. */
    method OnSubmit(contentType: string, editId: string, createdFileName: string)
      modifies this
      ensures NeedsFile(contentType, createdFileName) ==>
        && uploadFileError == Some(NotExistsUploadFile)
        && isLoading == old(isLoading) && apiCalls == old(apiCalls)
      ensures !NeedsFile(contentType, createdFileName) ==>
        && isLoading && uploadFileError == old(uploadFileError)
        && apiCalls == old(apiCalls)
           + (if action == "add" then [Post] else [])
           + (if action == "patch" then [PatchById(editId)] else [])
    {
      if contentType != "text" && createdFileName == "" {
        uploadFileError := Some(NotExistsUploadFile);
        return;
      }
      isLoading := true;
      if action == "add" {
        apiCalls := apiCalls + [Post];
      }
      if action == "patch" {
        apiCalls := apiCalls + [PatchById(editId)];
      }
    }

    /** The `finally` of the API call: loading ends. */
    method OnApiSettled()
      modifies this
      ensures !isLoading && uploadFileError == old(uploadFileError) && apiCalls == old(apiCalls)
    {
      isLoading := false;
    }
  }

  /** A submit calls the API at most once, and only when the guard
      passes: a form with content type "text" always gets through, an
      image form only with a file name. */
  method SubmitOnce(hook: SubmitHook, contentType: string, editId: string, createdFileName: string)
    returns (called: bool)
    requires hook.action == "add" || hook.action == "patch"
    modifies hook
    ensures called <==> contentType == "text" || createdFileName != ""
    ensures |hook.apiCalls| == |old(hook.apiCalls)| + (if called then 1 else 0)
    ensures called ==> hook.isLoading
  {
    hook.OnSubmit(contentType, editId, createdFileName);
    called := !SubmitHook.NeedsFile(contentType, createdFileName);
  }

  // ---------------------------------------------------------------------
  // Sign-up
  // ---------------------------------------------------------------------

  /** The result type of the user-name lookup. */
  datatype MessageType = NoType | SuccessType | ErrorType | WarningType

  /** How the user-name lookup ended: the name is taken or not, or the
      request failed. */
  datatype Lookup = Taken | Unused | LookupFailed

  /** `useSignUp` with its state. */
  class SignUpHook {
    var messageType: MessageType
    var signUpCalls: nat

    constructor ()
      ensures messageType == NoType && signUpCalls == 0
    {
      messageType := NoType;
      signUpCalls := 0;
    }

    /** The debounced user-name effect: an empty name clears the type;
        otherwise the lookup decides "warning" (taken), "success" (unused)
        or "error" (request failed). */
    method OnDebouncedUserName(userName: string, lookup: Lookup)
      modifies this
      ensures signUpCalls == old(signUpCalls)
      ensures userName == "" ==> messageType == NoType
      ensures userName != "" && lookup == Taken ==> messageType == WarningType
      ensures userName != "" && lookup == Unused ==> messageType == SuccessType
      ensures userName != "" && lookup == LookupFailed ==> messageType == ErrorType
    {
      if userName == "" {
        messageType := NoType;
        return;
      }
      match lookup
      case Taken => messageType := WarningType;
      case Unused => messageType := SuccessType;
      case LookupFailed => messageType := ErrorType;
    }

    /** `onSubmitSignUp`: signs up only when the last lookup found the
        name unused. */
    method OnSubmitSignUp()
      modifies this
      ensures messageType == old(messageType)
      ensures signUpCalls == old(signUpCalls) + (if messageType == SuccessType then 1 else 0)
    {
      if messageType != SuccessType {
        return;
      }
      signUpCalls := signUpCalls + 1;
    }
  }

  /** A sign-up request goes out only for a non-empty name the lookup
      reported as unused. */
  method CheckThenSubmit(hook: SignUpHook, userName: string, lookup: Lookup) returns (sent: bool)
    modifies hook
    ensures sent <==> userName != "" && lookup == Unused
    ensures hook.signUpCalls == old(hook.signUpCalls) + (if sent then 1 else 0)
  {
    hook.OnDebouncedUserName(userName, lookup);
    var before := hook.signUpCalls;
    hook.OnSubmitSignUp();
    sent := hook.signUpCalls != before;
  }
}
