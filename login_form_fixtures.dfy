/**
 * The cases of the login form's unit tests, stated as lemmas about
 * `LoginForm.LoginIssues`. Each test input is bound to a parameter
 * whose value the precondition fixes.
 */
module LoginFormFixtures {
  import opened Text
  import opened Messages
  import opened LoginForm

  /** With no whitespace at either end of the user name and the password,
      and the password typed twice, trimming changes nothing: the issues
      are those of the untrimmed measurements. */
  lemma UntrimmedIssues(n: string, p: string, m: Measured)
    requires n != [] && !IsWhitespace(n[0]) && !IsWhitespace(n[|n| - 1])
    requires p != [] && !IsWhitespace(p[0]) && !IsWhitespace(p[|p| - 1])
    requires m == Measured(Utf16Length(n), Utf16Length(p), MatchesPasswordPattern(p), Utf16Length(p),
                           HasLower(p), HasUpper(p), HasDigit(p), HasSymbol(p), true)
    ensures LoginIssues(LoginInput(n, p, p)) == IssuesOf(m)
  {
    TrimUntouched(n);
    TrimUntouched(p);
  }

  /** A string of code points inside the Basic Multilingual Plane has one
      UTF-16 code unit per code point. */
  lemma AllBmp(s: string)
    requires forall i :: 0 <= i < |s| ==> s[i] < '\U{10000}'
    ensures Utf16Length(s) == |s|
  {
  }

  /** A password made only of characters from the pattern's class (all
      ASCII) has one UTF-16 code unit per character and, from twelve
      characters on, matches the pattern. */
  lemma ClassOnly(p: string)
    requires |p| >= 12 && forall i :: 0 <= i < |p| ==> InPasswordClass(p[i])
    ensures Utf16Length(p) == |p| && MatchesPasswordPattern(p)
  {
    AllBmp(p);
  }

  /** One witness position per kind of character. */
  lemma HasAllKinds(p: string, i: nat, j: nat, k: nat, l: nat)
    requires i < |p| && j < |p| && k < |p| && l < |p|
    requires IsLower(p[i]) && IsUpper(p[j]) && IsDigit(p[k]) && IsPasswordSymbol(p[l])
    ensures HasLower(p) && HasUpper(p) && HasDigit(p) && HasSymbol(p)
  {
  }

  /** The user name of the valid fixture. */
  lemma ValidFixtureName(n: string)
    requires n == "ユーザー名12345"
    ensures Utf16Length(n) == 10
  {
    AllBmp(n);
  }

  /** The password of the valid fixture. */
  lemma ValidFixturePassword(p: string)
    requires p == "aiueoaiue5!A"
    ensures Utf16Length(p) == 12 && MatchesPasswordPattern(p)
    ensures HasLower(p) && HasUpper(p) && HasDigit(p) && HasSymbol(p)
  {
    ClassOnly(p);
    HasAllKinds(p, 0, 11, 9, 10);
  }

  /** Fixture: a ten-character user name with a matching valid password
      parses without issues. */
  lemma LoginValidFixture(n: string, p: string)
    requires n == "ユーザー名12345" && p == "aiueoaiue5!A"
    ensures LoginIssues(LoginInput(n, p, p)) == []
  {
    ValidFixtureName(n);
    ValidFixturePassword(p);
    var m := Measured(10, 12, true, 12, true, true, true, true, true);
    UntrimmedIssues(n, p, m);
    ValidMeasuredIssues(m);
  }

  /** The rules on the measured valid input: none fails. */
  lemma ValidMeasuredIssues(m: Measured)
    requires m == Measured(10, 12, true, 12, true, true, true, true, true)
    ensures IssuesOf(m) == []
  {
    assert UserNameIssues(m) == [] && RefineIssues(m) == [];
  }

  /** Fixture: all three fields empty yields exactly eight issues, in order. */
  lemma LoginAllEmptyFixture()
    ensures LoginIssues(LoginInput("", "", "")) == [
      Issue(UserName, Required),
      Issue(Password, Required),
      Issue(Password, PassRegex),
      Issue(ConfirmPassword, Required),
      Issue(Password, PassNoLowercase),
      Issue(Password, PassNoUppercase),
      Issue(Password, PassNoDigit),
      Issue(Password, PassNoSymbol)]
  {
    assert Measure(LoginInput("", "", "")) == Measured(0, 0, false, 0, false, false, false, false, true);
  }

  /** The user name of the long-input fixture. */
  lemma LongInputFixtureName(n: string)
    requires n == "ユーザー名123456"
    ensures Utf16Length(n) == 11
  {
    AllBmp(n);
  }

  /** The password of the long-input fixture. */
  lemma LongInputFixturePassword(p: string)
    requires p == "1234567890..AAaa!"
    ensures Utf16Length(p) == 17 && MatchesPasswordPattern(p)
    ensures HasLower(p) && HasUpper(p) && HasDigit(p) && HasSymbol(p)
  {
    ClassOnly(p);
    HasAllKinds(p, 14, 12, 0, 10);
  }

  /** Fixture: an eleven-character user name gets the max-length issue; a
      17-character password passes the unanchored pattern, so it gets no
      issue at all. */
  lemma LoginLongInputFixture(n: string, p: string)
    requires n == "ユーザー名123456" && p == "1234567890..AAaa!"
    ensures LoginIssues(LoginInput(n, p, p)) == [Issue(UserName, MaxLength(10))]
  {
    LongInputFixtureName(n);
    LongInputFixturePassword(p);
    var m := Measured(11, 17, true, 17, true, true, true, true, true);
    UntrimmedIssues(n, p, m);
    LongInputMeasuredIssues(m);
  }

  /** The rules on the measured long input: only the user name's maximum
      is exceeded. */
  lemma LongInputMeasuredIssues(m: Measured)
    requires m == Measured(11, 17, true, 17, true, true, true, true, true)
    ensures IssuesOf(m) == [Issue(UserName, MaxLength(10))]
  {
    assert UserNameIssues(m) == [Issue(UserName, MaxLength(10))];
  }

  /** The user name of the no-lowercase fixture. */
  lemma NoLowercaseFixtureName(n: string)
    requires n == "ユーザー名"
    ensures Utf16Length(n) == 5
  {
    AllBmp(n);
  }

  /** The password of the no-lowercase fixture. */
  lemma NoLowercaseFixturePassword(p: string)
    requires p == "1234567890A."
    ensures Utf16Length(p) == 12 && MatchesPasswordPattern(p)
    ensures !HasLower(p) && HasUpper(p) && HasDigit(p) && HasSymbol(p)
  {
    ClassOnly(p);
    assert IsUpper(p[10]) && IsDigit(p[0]) && IsPasswordSymbol(p[11]);
  }

  /** Fixture: a password without lowercase letters gets exactly that issue. */
  lemma LoginNoLowercaseFixture(n: string, p: string)
    requires n == "ユーザー名" && p == "1234567890A."
    ensures LoginIssues(LoginInput(n, p, p)) == [Issue(Password, PassNoLowercase)]
  {
    NoLowercaseFixtureName(n);
    NoLowercaseFixturePassword(p);
    var m := Measured(5, 12, true, 12, false, true, true, true, true);
    UntrimmedIssues(n, p, m);
    NoLowercaseMeasuredIssues(m);
  }

  /** The rules on the measured no-lowercase input: only the refinement's
      lowercase test fails. */
  lemma NoLowercaseMeasuredIssues(m: Measured)
    requires m == Measured(5, 12, true, 12, false, true, true, true, true)
    ensures IssuesOf(m) == [Issue(Password, PassNoLowercase)]
  {
    assert RefineIssues(m) == [Issue(Password, PassNoLowercase)];
  }
}
