/**
 * LoginFormSchema: the field rules for the user name, password and
 * confirmation password, followed by the refinement that reports which
 * kinds of character the password lacks and whether the two passwords
 * differ. A parse yields the ordered list of issues; an empty list is a
 * successful parse.
 */
module LoginForm {
  import opened Text
  import opened Messages

  const StrMinLength: nat := 1
  const NameMaxLength: nat := 10

  datatype LoginInput = LoginInput(userName: string, password: string, confirmPassword: string)

  predicate IsLower(c: char) { 'a' <= c <= 'z' }
  predicate IsUpper(c: char) { 'A' <= c <= 'Z' }
  predicate IsDigit(c: char) { '0' <= c <= '9' }

  /** The symbol class `[/._!/+/^&]` of the refinement. */
  predicate IsPasswordSymbol(c: char)
  {
    c == '/' || c == '.' || c == '_' || c == '!' || c == '+' || c == '^' || c == '&'
  }

  /** The character class `[a-zA-Z0-9/._!/+/^&]` of the field regex. */
  predicate InPasswordClass(c: char)
  {
    IsLower(c) || IsUpper(c) || IsDigit(c) || IsPasswordSymbol(c)
  }

  /** `/^[a-zA-Z0-9/._!/+/^&]{12,16}/` has no end anchor: it matches as
      soon as the first 12 characters come from the class, whatever
      follows. (The class is ASCII, so counting code points or UTF-16
      code units gives the same answer.) */
  predicate MatchesPasswordPattern(t: string)
  {
    |t| >= 12 && forall i :: 0 <= i < 12 ==> InPasswordClass(t[i])
  }

  predicate HasLower(t: string) { exists i :: 0 <= i < |t| && IsLower(t[i]) }
  predicate HasUpper(t: string) { exists i :: 0 <= i < |t| && IsUpper(t[i]) }
  predicate HasDigit(t: string) { exists i :: 0 <= i < |t| && IsDigit(t[i]) }
  predicate HasSymbol(t: string) { exists i :: 0 <= i < |t| && IsPasswordSymbol(t[i]) }

  /** What the schema's rules look at, measured on the trimmed values:
      zod's `trim` transforms each field before `min`, `max` and `regex`
      run, and the refinement receives the trimmed values too. */
  datatype Measured = Measured(
    userNameLength: nat,
    passwordLength: nat,
    passwordMatchesPattern: bool,
    confirmLength: nat,
    hasLower: bool,
    hasUpper: bool,
    hasDigit: bool,
    hasSymbol: bool,
    passwordsEqual: bool)

  /** What the rules look at, all taken after `trim()`: a field
      measures 0 exactly when it is whitespace only, and the passwords are
      compared trimmed. */
  function Measure(f: LoginInput): (m: Measured)
    ensures m.userNameLength == 0 <==> AllWhitespace(f.userName)
    ensures m.passwordLength == 0 <==> AllWhitespace(f.password)
    ensures m.passwordsEqual <==> Trim(f.password) == Trim(f.confirmPassword)
  {
    var p, c := Trim(f.password), Trim(f.confirmPassword);
    Measured(Utf16Length(Trim(f.userName)), Utf16Length(p), MatchesPasswordPattern(p), Utf16Length(c),
             HasLower(p), HasUpper(p), HasDigit(p), HasSymbol(p), p == c)
  }

  /** userName: `trim().min(1, REQUIRED).max(10, STR_MAX_LENGTH(10))`;
      every failing check contributes its issue, in check order. */
  function UserNameIssues(m: Measured): (r: seq<Issue>)
    ensures |r| <= 1
    ensures forall i :: 0 <= i < |r| ==> r[i].path == UserName
  {
    (if m.userNameLength < StrMinLength then [Issue(UserName, Required)] else [])
    + (if m.userNameLength > NameMaxLength then [Issue(UserName, MaxLength(NameMaxLength))] else [])
  }

  /** password: `trim().min(1, REQUIRED).regex(..., PASS_REGEX_MESSAGE)`. */
  function PasswordIssues(m: Measured): (r: seq<Issue>)
    ensures |r| <= 2
    ensures forall i :: 0 <= i < |r| ==> r[i].path == Password && (r[i].message == Required || r[i].message == PassRegex)
  {
    (if m.passwordLength < StrMinLength then [Issue(Password, Required)] else [])
    + (if !m.passwordMatchesPattern then [Issue(Password, PassRegex)] else [])
  }

  /** confirmPassword: `trim().min(1, REQUIRED)`. */
  function ConfirmIssues(m: Measured): (r: seq<Issue>)
    ensures |r| <= 1
    ensures forall i :: 0 <= i < |r| ==> r[i] == Issue(ConfirmPassword, Required)
  {
    if m.confirmLength < StrMinLength then [Issue(ConfirmPassword, Required)] else []
  }

  /** The `superRefine` body: one `addIssue` per failed test, in the order
      lowercase, uppercase, digit, symbol, mismatch. */
  function RefineIssues(m: Measured): (r: seq<Issue>)
    ensures |r| <= 5
    ensures forall i :: 0 <= i < |r| ==> (r[i].path == ConfirmPassword <==> r[i].message == PassMismatch)
  {
    (if !m.hasLower then [Issue(Password, PassNoLowercase)] else [])
    + (if !m.hasUpper then [Issue(Password, PassNoUppercase)] else [])
    + (if !m.hasDigit then [Issue(Password, PassNoDigit)] else [])
    + (if !m.hasSymbol then [Issue(Password, PassNoSymbol)] else [])
    + (if !m.passwordsEqual then [Issue(ConfirmPassword, PassMismatch)] else [])
  }

  /** The field issues in field order, then the refinement's issues. The
      refinement runs even when a field check failed, since those failures
      do not abort the parse. */
  function IssuesOf(m: Measured): (r: seq<Issue>)
    ensures |r| <= 9
    ensures forall i :: 0 <= i < |r| ==> r[i].path == UserName || r[i].path == Password || r[i].path == ConfirmPassword
  {
    UserNameIssues(m) + PasswordIssues(m) + ConfirmIssues(m) + RefineIssues(m)
  }

  /** `LoginFormSchema.safeParse`: the ordered issues; none means success. */
  function LoginIssues(f: LoginInput): seq<Issue>
  {
    IssuesOf(Measure(f))
  }

  /** The position of each issue in the fixed reporting order; 10 for an
      issue this schema never reports. */
  function Rank(i: Issue): nat
  {
    match i.message
    case Required =>
      (match i.path case UserName => 0 case Password => 2 case ConfirmPassword => 4 case _ => 10)
    case MaxLength(max) => if i.path == UserName && max == NameMaxLength then 1 else 10
    case PassRegex => if i.path == Password then 3 else 10
    case PassNoLowercase => if i.path == Password then 5 else 10
    case PassNoUppercase => if i.path == Password then 6 else 10
    case PassNoDigit => if i.path == Password then 7 else 10
    case PassNoSymbol => if i.path == Password then 8 else 10
    case PassMismatch => if i.path == ConfirmPassword then 9 else 10
    case _ => 10
  }

  /** The ranks along `s` strictly increase, starting at `lo` or above
      and staying below `hi`. */
  predicate Ordered(s: seq<Issue>, lo: nat, hi: nat)
  {
    s == [] || (lo <= Rank(s[0]) < hi && Ordered(s[1..], Rank(s[0]) + 1, hi))
  }

  lemma {:induction false} OrderedConcat(a: seq<Issue>, b: seq<Issue>, lo: nat, mid: nat, hi: nat)
    requires lo <= mid <= hi
    requires Ordered(a, lo, mid) && Ordered(b, mid, hi)
    ensures Ordered(a + b, lo, hi)
  {
    if a != [] {
      OrderedWeaken(b, Rank(a[0]) + 1, mid, hi);
      OrderedConcat(a[1..], b, Rank(a[0]) + 1, mid, hi);
      assert (a + b)[1..] == a[1..] + b;
    } else {
      OrderedWeaken(b, lo, mid, hi);
      assert a + b == b;
    }
  }

  lemma {:induction false} OrderedWeaken(s: seq<Issue>, lo: nat, mid: nat, hi: nat)
    requires lo <= mid && Ordered(s, mid, hi)
    ensures Ordered(s, lo, hi)
  {
  }

  /** An issue of an ordered list has a rank in its range. */
  lemma {:induction false} OrderedMember(s: seq<Issue>, lo: nat, hi: nat, x: Issue)
    requires Ordered(s, lo, hi) && x in s
    ensures lo <= Rank(x) < hi
  {
    if s[0] != x {
      OrderedMember(s[1..], Rank(s[0]) + 1, hi, x);
    }
  }

  /** A single conditional issue is ordered in the range of its rank. */
  lemma OrderedOne(b: bool, i: Issue)
    ensures Ordered(if b then [i] else [], Rank(i), Rank(i) + 1)
  {
  }

  lemma UserNameIssuesOrdered(m: Measured)
    ensures Ordered(UserNameIssues(m), 0, 2)
  {
    var a := if m.userNameLength < StrMinLength then [Issue(UserName, Required)] else [];
    var b := if m.userNameLength > NameMaxLength then [Issue(UserName, MaxLength(NameMaxLength))] else [];
    OrderedConcat(a, b, 0, 1, 2);
  }

  lemma PasswordIssuesOrdered(m: Measured)
    ensures Ordered(PasswordIssues(m), 2, 4)
  {
    var a := if m.passwordLength < StrMinLength then [Issue(Password, Required)] else [];
    var b := if !m.passwordMatchesPattern then [Issue(Password, PassRegex)] else [];
    OrderedConcat(a, b, 2, 3, 4);
  }

  lemma RefineIssuesOrdered(m: Measured)
    ensures Ordered(RefineIssues(m), 5, 10)
  {
    var r1 := if !m.hasLower then [Issue(Password, PassNoLowercase)] else [];
    var r2 := if !m.hasUpper then [Issue(Password, PassNoUppercase)] else [];
    var r3 := if !m.hasDigit then [Issue(Password, PassNoDigit)] else [];
    var r4 := if !m.hasSymbol then [Issue(Password, PassNoSymbol)] else [];
    var r5 := if !m.passwordsEqual then [Issue(ConfirmPassword, PassMismatch)] else [];
    OrderedConcat(r1, r2, 5, 6, 7);
    OrderedConcat(r1 + r2, r3, 5, 7, 8);
    OrderedConcat(r1 + r2 + r3, r4, 5, 8, 9);
    OrderedConcat(r1 + r2 + r3 + r4, r5, 5, 9, 10);
  }

  /** Four ordered parts in consecutive ranges make an ordered whole. */
  lemma OrderedParts(u: seq<Issue>, p: seq<Issue>, c: seq<Issue>, r: seq<Issue>)
    requires Ordered(u, 0, 2) && Ordered(p, 2, 4) && Ordered(c, 4, 5) && Ordered(r, 5, 10)
    ensures Ordered(u + p + c + r, 0, 10)
    ensures |u + p + c + r| <= 10
  {
    OrderedConcat(u, p, 0, 2, 4);
    OrderedConcat(u + p, c, 0, 4, 5);
    OrderedConcat(u + p + c, r, 0, 5, 10);
    OrderedLength(u + p + c + r, 0, 10);
  }

  /** On measured values: the issues come in rank order, at most ten. */
  lemma IssuesOfOrdered(m: Measured)
    ensures Ordered(IssuesOf(m), 0, 10)
    ensures |IssuesOf(m)| <= 10
  {
    UserNameIssuesOrdered(m);
    PasswordIssuesOrdered(m);
    RefineIssuesOrdered(m);
    OrderedParts(UserNameIssues(m), PasswordIssues(m), ConfirmIssues(m), RefineIssues(m));
  }

  /** The issues come in the fixed order userName, password,
      confirmPassword, then lowercase, uppercase, digit, symbol, mismatch,
      each at most once. */
  lemma LoginIssuesOrdered(f: LoginInput)
    ensures Ordered(LoginIssues(f), 0, 10)
    ensures |LoginIssues(f)| <= 10
  {
    IssuesOfOrdered(Measure(f));
  }

  /** A list whose ranks strictly increase within [lo, hi) has at most
      hi - lo issues. */
  lemma {:induction false} OrderedLength(s: seq<Issue>, lo: nat, hi: nat)
    requires lo <= hi && Ordered(s, lo, hi)
    ensures |s| + lo <= hi
  {
    if s != [] {
      OrderedLength(s[1..], Rank(s[0]) + 1, hi);
    }
  }

  /** In an ordered concatenation, an issue of a given rank can only sit
      in the part whose range holds that rank. */
  lemma InOrderedConcat(a: seq<Issue>, b: seq<Issue>, lo: nat, mid: nat, hi: nat, x: Issue)
    requires Ordered(a, lo, mid) && Ordered(b, mid, hi)
    ensures x in a + b <==> if Rank(x) < mid then x in a else x in b
  {
    if x in a { OrderedMember(a, lo, mid, x); }
    if x in b { OrderedMember(b, mid, hi, x); }
  }

  /** On measured values: an issue of a given rank can only come from
      the rule that owns that rank. */
  lemma IssuesOfMember(m: Measured, x: Issue)
    requires Rank(x) < 10
    ensures x in IssuesOf(m) <==>
      if Rank(x) < 2 then x in UserNameIssues(m)
      else if Rank(x) < 4 then x in PasswordIssues(m)
      else if Rank(x) < 5 then x in ConfirmIssues(m)
      else x in RefineIssues(m)
  {
    var u, p, c, r := UserNameIssues(m), PasswordIssues(m), ConfirmIssues(m), RefineIssues(m);
    assert IssuesOf(m) == u + p + c + r;
    UserNameIssuesOrdered(m);
    PasswordIssuesOrdered(m);
    RefineIssuesOrdered(m);
    OrderedConcat(u, p, 0, 2, 4);
    OrderedConcat(u + p, c, 0, 4, 5);
    InOrderedConcat(u + p + c, r, 0, 5, 10, x);
    InOrderedConcat(u + p, c, 0, 4, 5, x);
    InOrderedConcat(u, p, 0, 2, 4, x);
  }

  /** On measured values: each field issue is reported exactly when its
      rule fails. */
  lemma FieldIssuesIff(m: Measured)
    ensures Issue(UserName, Required) in IssuesOf(m) <==> m.userNameLength == 0
    ensures Issue(UserName, MaxLength(10)) in IssuesOf(m) <==> m.userNameLength > 10
    ensures Issue(Password, Required) in IssuesOf(m) <==> m.passwordLength == 0
    ensures Issue(Password, PassRegex) in IssuesOf(m) <==> !m.passwordMatchesPattern
    ensures Issue(ConfirmPassword, Required) in IssuesOf(m) <==> m.confirmLength == 0
  {
    assert Issue(UserName, Required) in IssuesOf(m) <==> m.userNameLength == 0 by {
      IssuesOfMember(m, Issue(UserName, Required));
    }
    assert Issue(UserName, MaxLength(10)) in IssuesOf(m) <==> m.userNameLength > 10 by {
      IssuesOfMember(m, Issue(UserName, MaxLength(10)));
    }
    assert Issue(Password, Required) in IssuesOf(m) <==> m.passwordLength == 0 by {
      IssuesOfMember(m, Issue(Password, Required));
    }
    assert Issue(Password, PassRegex) in IssuesOf(m) <==> !m.passwordMatchesPattern by {
      IssuesOfMember(m, Issue(Password, PassRegex));
    }
    assert Issue(ConfirmPassword, Required) in IssuesOf(m) <==> m.confirmLength == 0 by {
      IssuesOfMember(m, Issue(ConfirmPassword, Required));
    }
  }

  lemma RefineMember(m: Measured)
    ensures Issue(Password, PassNoLowercase) in RefineIssues(m) <==> !m.hasLower
    ensures Issue(Password, PassNoUppercase) in RefineIssues(m) <==> !m.hasUpper
    ensures Issue(Password, PassNoDigit) in RefineIssues(m) <==> !m.hasDigit
    ensures Issue(Password, PassNoSymbol) in RefineIssues(m) <==> !m.hasSymbol
    ensures Issue(ConfirmPassword, PassMismatch) in RefineIssues(m) <==> !m.passwordsEqual
  {
  }

  /** On measured values: each refinement issue is reported exactly when
      its test fails. */
  lemma RefineIssuesIff(m: Measured)
    ensures Issue(Password, PassNoLowercase) in IssuesOf(m) <==> !m.hasLower
    ensures Issue(Password, PassNoUppercase) in IssuesOf(m) <==> !m.hasUpper
    ensures Issue(Password, PassNoDigit) in IssuesOf(m) <==> !m.hasDigit
    ensures Issue(Password, PassNoSymbol) in IssuesOf(m) <==> !m.hasSymbol
    ensures Issue(ConfirmPassword, PassMismatch) in IssuesOf(m) <==> !m.passwordsEqual
  {
    RefineRanked(m, Issue(Password, PassNoLowercase), m.hasLower);
    RefineRanked(m, Issue(Password, PassNoUppercase), m.hasUpper);
    RefineRanked(m, Issue(Password, PassNoDigit), m.hasDigit);
    RefineRanked(m, Issue(Password, PassNoSymbol), m.hasSymbol);
    RefineRanked(m, Issue(ConfirmPassword, PassMismatch), m.passwordsEqual);
  }

  /** An issue ranked among the refinement's is reported exactly when the
      refinement reports it, that is, exactly when its test fails. */
  lemma RefineRanked(m: Measured, x: Issue, passes: bool)
    requires || (x == Issue(Password, PassNoLowercase) && passes == m.hasLower)
             || (x == Issue(Password, PassNoUppercase) && passes == m.hasUpper)
             || (x == Issue(Password, PassNoDigit) && passes == m.hasDigit)
             || (x == Issue(Password, PassNoSymbol) && passes == m.hasSymbol)
             || (x == Issue(ConfirmPassword, PassMismatch) && passes == m.passwordsEqual)
    ensures x in IssuesOf(m) <==> !passes
  {
    assert 5 <= Rank(x) < 10;
    IssuesOfMember(m, x);
    assert x in RefineIssues(m) <==> !passes by {
      RefineMember(m);
    }
  }

  /** On measured values: no issue exactly when every rule holds. */
  lemma IssuesOfEmptyIff(m: Measured)
    ensures IssuesOf(m) == [] <==>
      && 1 <= m.userNameLength <= 10 && 1 <= m.passwordLength && m.passwordMatchesPattern
      && 1 <= m.confirmLength && m.hasLower && m.hasUpper && m.hasDigit && m.hasSymbol
      && m.passwordsEqual
  {
    var u, p, c, r := UserNameIssues(m), PasswordIssues(m), ConfirmIssues(m), RefineIssues(m);
    assert |IssuesOf(m)| == |u| + |p| + |c| + |r|;
  }

  /** Each issue is reported exactly when its rule fails; a field is
      REQUIRED exactly when it is empty or whitespace only. */
  lemma LoginIssueIff(f: LoginInput)
    ensures Issue(UserName, Required) in LoginIssues(f) <==> AllWhitespace(f.userName)
    ensures Issue(UserName, MaxLength(10)) in LoginIssues(f) <==> Utf16Length(Trim(f.userName)) > 10
    ensures Issue(Password, Required) in LoginIssues(f) <==> AllWhitespace(f.password)
    ensures Issue(Password, PassRegex) in LoginIssues(f) <==> !MatchesPasswordPattern(Trim(f.password))
    ensures Issue(ConfirmPassword, Required) in LoginIssues(f) <==> AllWhitespace(f.confirmPassword)
    ensures Issue(Password, PassNoLowercase) in LoginIssues(f) <==> !HasLower(Trim(f.password))
    ensures Issue(Password, PassNoUppercase) in LoginIssues(f) <==> !HasUpper(Trim(f.password))
    ensures Issue(Password, PassNoDigit) in LoginIssues(f) <==> !HasDigit(Trim(f.password))
    ensures Issue(Password, PassNoSymbol) in LoginIssues(f) <==> !HasSymbol(Trim(f.password))
    ensures Issue(ConfirmPassword, PassMismatch) in LoginIssues(f)
            <==> Trim(f.password) != Trim(f.confirmPassword)
  {
    FieldIssuesIff(Measure(f));
    RefineIssuesIff(Measure(f));
  }

  /** A login form parses successfully exactly when every rule holds. */
  lemma LoginValidIff(f: LoginInput)
    ensures LoginIssues(f) == [] <==>
      && 1 <= Utf16Length(Trim(f.userName)) <= 10
      && MatchesPasswordPattern(Trim(f.password))
      && !AllWhitespace(f.confirmPassword)
      && HasLower(Trim(f.password)) && HasUpper(Trim(f.password))
      && HasDigit(Trim(f.password)) && HasSymbol(Trim(f.password))
      && Trim(f.password) == Trim(f.confirmPassword)
  {
    IssuesOfEmptyIff(Measure(f));
  }
}
