/**
 * The registration screen: the checks run when the register button is
 * pressed, the e-mail pattern, and when the button is disabled.
 */
module RegisterScreen {
  import opened JsText
  import opened Feedback

  const MinPasswordLength: nat := 8

  /** The checks of the register button, in the order they run. */
  datatype RegisterError = EmptyEmail | BadEmailFormat | EmptyPassword | ShortPassword | ConfirmationMismatch

  /** The message shown when a check fails. */
  function Message(error: RegisterError): string {
    match error
    case EmptyEmail => "Email tidak boleh kosong"
    case BadEmailFormat => "Format email tidak valid"
    case EmptyPassword => "Password tidak boleh kosong"
    case ShortPassword => "Password minimal 8 karakter"
    case ConfirmationMismatch => "Konfirmasi password tidak cocok"
  }

  /**
   * What pressing the register button does: refuse, showing the failed
   * check's message, or call `signUp` with these arguments.
   */
  datatype RegisterStep =
    | Refuse(error: RegisterError)
    | CallSignUp(name: string, email: string, password: string, passwordConfirmation: string)

  /** The flash message a refusal shows. */
  function RefusalToast(error: RegisterError): Toast {
    ErrorToast(Message(error))
  }

  /** `[^\s@]+`: a non-empty run of characters that are neither white space nor '@'. */
  predicate IsPatternPart(s: string) {
    s != "" && NoWhiteSpace(s) && '@' !in s
  }

  /**
   * The strings the pattern /^[^\s@]+@[^\s@]+\.[^\s@]+$/ matches, stated by
   * the positions of the '@' and of the '.' that separate its three parts.
   */
  ghost predicate MatchesEmailPattern(s: string) {
    exists at, dot :: SplitsAt(s, at, dot)
  }

  /** `s` is a part, '@' at `at`, a part, '.' at `dot`, and a part. */
  ghost predicate SplitsAt(s: string, at: int, dot: int) {
    0 <= at < dot < |s| && s[at] == '@' && s[dot] == '.'
    && IsPatternPart(s[..at]) && IsPatternPart(s[at + 1..dot]) && IsPatternPart(s[dot + 1..])
  }

  /** `[^\s@]+\.[^\s@]+` for a string already free of '@': a '.' with text on both sides. */
  predicate IsDomain(d: string) {
    NoWhiteSpace(d) && |d| >= 3 && '.' in d[1..|d| - 1]
  }

  /** `isValidEmail`: exactly one '@', a non-empty local part and a dotted domain, no white space. */
  predicate IsValidEmail(email: string)
    ensures IsValidEmail(email) ==> 5 <= |email| && '@' in email
  {
    var parts := Split(email, '@');
    if |parts| == 2 && IsPatternPart(parts[0]) && IsDomain(parts[1]) then
      AcceptedLength(email);
      true
    else
      false
  }

  /** One '@' between a non-empty piece and one of three or more characters makes five or more characters. */
  lemma AcceptedLength(email: string)
    requires |Split(email, '@')| == 2 && Split(email, '@')[0] != [] && |Split(email, '@')[1]| >= 3
    ensures 5 <= |email| && '@' in email
  {
    SplitInTwo(email, '@');
    assert email[|Split(email, '@')[0]|] == '@';
  }

  /** `isValidEmail` accepts exactly the strings the regular expression matches. */
  lemma IsValidEmailMatchesPattern(s: string)
    ensures IsValidEmail(s) <==> MatchesEmailPattern(s)
  {
    if IsValidEmail(s) {
      ValidEmailMatches(s);
    }
    if MatchesEmailPattern(s) {
      MatchingEmailValid(s);
    }
  }

  lemma ValidEmailMatches(s: string)
    requires IsValidEmail(s)
    ensures MatchesEmailPattern(s)
  {
    var parts := Split(s, '@');
    SplitInTwo(s, '@');
    var a, d := parts[0], parts[1];
    var j :| 0 <= j < |d[1..|d| - 1]| && d[1..|d| - 1][j] == '.';
    var k := j + 1;
    var at, dot := |a|, |a| + 1 + k;
    assert s[at] == '@' && s[dot] == '.';
    assert s[..at] == a;
    assert s[at + 1..dot] == d[..k];
    assert s[dot + 1..] == d[k + 1..];
    DomainSides(d, k);
    assert SplitsAt(s, at, dot);
  }

  /** Both sides of an inner '.' of a domain are parts of the pattern. */
  lemma DomainSides(d: string, k: nat)
    requires '@' !in d && IsDomain(d) && 1 <= k < |d| - 1
    ensures IsPatternPart(d[..k]) && IsPatternPart(d[k + 1..])
  {
    assert forall c :: c in d[..k] ==> c in d;
    assert forall c :: c in d[k + 1..] ==> c in d;
  }

  lemma MatchingEmailValid(s: string)
    requires MatchesEmailPattern(s)
    ensures IsValidEmail(s)
  {
    var at, dot :| SplitsAt(s, at, dot);
    var a, b, c := s[..at], s[at + 1..dot], s[dot + 1..];
    assert s == a + ['@'] + (b + ['.'] + c);
    DomainFromSides(b, c);
    SplitAround(a, '@', b + ['.'] + c);
  }

  /** Two parts of the pattern joined by a '.' make a domain without '@'. */
  lemma DomainFromSides(b: string, c: string)
    requires IsPatternPart(b) && IsPatternPart(c)
    ensures '@' !in b + ['.'] + c && IsDomain(b + ['.'] + c)
  {
    var d := b + ['.'] + c;
    assert d[1..|d| - 1][|b| - 1] == '.';
    forall i | 0 <= i < |d| ensures !IsWhiteSpace(d[i]) {
      if i < |b| {
        assert d[i] == b[i];
      } else if i > |b| {
        assert d[i] == c[i - |b| - 1];
      }
    }
  }

  /**
   * An accepted e-mail has no white space and is non-empty, so trimming
   * leaves it as it is.
   */
  lemma ValidEmailIsTrimmed(email: string)
    requires IsValidEmail(email)
    ensures email != "" && NoWhiteSpace(email) && Trim(email) == email
  {
    var parts := Split(email, '@');
    SplitInTwo(email, '@');
    var a, d := parts[0], parts[1];
    forall i | 0 <= i < |email| ensures !IsWhiteSpace(email[i]) {
      if i < |a| {
        assert email[i] == a[i];
      } else if i > |a| {
        assert email[i] == d[i - |a| - 1];
      }
    }
  }

  /** An accepted e-mail is its own trim, so it is never reported as blank. */
  lemma ValidEmailTrimsToItself(email: string)
    ensures IsValidEmail(email) ==> Trim(email) == email && email != ""
  {
    if IsValidEmail(email) {
      ValidEmailIsTrimmed(email);
    }
  }

  /** An accepted e-mail is never reported as blank. */
  lemma ValidEmailNotBlank(email: string)
    ensures IsValidEmail(email) ==> Trim(email) != ""
  {
    ValidEmailTrimsToItself(email);
  }

  /** `handleRegister`: the checks in order; the first that fails decides the message. */
  function HandleRegister(email: string, password: string, passwordConfirmation: string): (step: RegisterStep)
    ensures step.CallSignUp? <==>
      && Trim(email) != "" && IsValidEmail(email) && Trim(password) != ""
      && Length(password) >= MinPasswordLength && password == passwordConfirmation
  {
    if Trim(email) == "" then Refuse(EmptyEmail)
    else if !IsValidEmail(email) then Refuse(BadEmailFormat)
    else if Trim(password) == "" then Refuse(EmptyPassword)
    else if Length(password) < MinPasswordLength then Refuse(ShortPassword)
    else if password != passwordConfirmation then Refuse(ConfirmationMismatch)
    else CallSignUp(Split(email, '@')[0], Trim(email), password, passwordConfirmation)
  }

  /**
   * What `signUp` receives: the e-mail unchanged by the trim, the password
   * and its confirmation as typed, and as name the text before the '@'.
   */
  lemma SignUpArguments(email: string, password: string, passwordConfirmation: string)
    requires HandleRegister(email, password, passwordConfirmation).CallSignUp?
    ensures var step := HandleRegister(email, password, passwordConfirmation);
      && step.email == email && step.password == password && step.passwordConfirmation == passwordConfirmation
      && step.name + ['@'] <= email && '@' !in step.name
  {
    assert IsValidEmail(email);
    ValidEmailTrimsToItself(email);
    LocalPart(email);
    assert HandleRegister(email, password, passwordConfirmation)
      == CallSignUp(Split(email, '@')[0], Trim(email), password, passwordConfirmation);
  }

  /** The local part of an accepted e-mail is the text before its '@'. */
  lemma LocalPart(email: string)
    requires IsValidEmail(email)
    ensures var a := Split(email, '@')[0]; a + ['@'] <= email && '@' !in a
  {
    SplitInTwo(email, '@');
    var a := Split(email, '@')[0];
    assert email[..|a| + 1] == a + ['@'];
  }

  /**
   * Each message is shown exactly when its check fails and every earlier
   * one passes; a mismatched confirmation in particular is reported only
   * for a valid e-mail and a long enough, non-blank password.
   */
  lemma RegisterCheckOrder(email: string, password: string, passwordConfirmation: string)
    ensures var step := HandleRegister(email, password, passwordConfirmation);
      && (step == Refuse(EmptyEmail) <==> Trim(email) == "")
      && (step == Refuse(BadEmailFormat) <==> Trim(email) != "" && !IsValidEmail(email))
      && (step == Refuse(EmptyPassword) <==> IsValidEmail(email) && Trim(password) == "")
      && (step == Refuse(ShortPassword) <==>
            IsValidEmail(email) && Trim(password) != "" && Length(password) < MinPasswordLength)
      && (step == Refuse(ConfirmationMismatch) <==>
            IsValidEmail(email) && Trim(password) != "" && Length(password) >= MinPasswordLength
            && password != passwordConfirmation)
  {
    ValidEmailNotBlank(email);
    var step := HandleRegister(email, password, passwordConfirmation);
    if Trim(email) == "" {
      assert step.error == EmptyEmail;
    } else if !IsValidEmail(email) {
      assert step.error == BadEmailFormat;
    } else if Trim(password) == "" {
      assert step.error == EmptyPassword;
    } else if Length(password) < MinPasswordLength {
      assert step.error == ShortPassword;
    } else if password != passwordConfirmation {
      assert step.error == ConfirmationMismatch;
    } else {
      assert step.CallSignUp?;
    }
  }

  /** A password of eight or more white-space characters is refused as blank, not as too short. */
  lemma BlankLongPasswordRefused(email: string, password: string, passwordConfirmation: string)
    requires IsValidEmail(email)
    requires Length(password) >= MinPasswordLength && AllWhiteSpace(password)
    ensures HandleRegister(email, password, passwordConfirmation) == Refuse(EmptyPassword)
  {
    ValidEmailIsTrimmed(email);
  }

  /**
   * When the register button is disabled. An enabled button means an
   * e-mail the handler's trim leaves as it is, and a password of at least
   * four characters (eight UTF-16 code units).
   */
  predicate RegisterDisabled(email: string, password: string, passwordConfirmation: string, isLoading: bool)
    ensures !RegisterDisabled(email, password, passwordConfirmation, isLoading) ==>
      Trim(email) == email && 5 <= |email| && 4 <= |password|
  {
    EnabledFields(email, password);
    email == "" || password == "" || passwordConfirmation == "" || !IsValidEmail(email)
    || Length(password) < MinPasswordLength || password != passwordConfirmation || isLoading
  }

  /** A valid e-mail and a password of eight or more code units, as an enabled button needs. */
  lemma EnabledFields(email: string, password: string)
    ensures IsValidEmail(email) && Length(password) >= MinPasswordLength ==>
      Trim(email) == email && 5 <= |email| && 4 <= |password|
  {
    ValidEmailTrimsToItself(email);
  }

  /**
   * With the button enabled, the only check of the handler that can still
   * fail is the blank password; and every submission the handler lets
   * through comes from an enabled button.
   */
  lemma EnabledRegisterButton(email: string, password: string, passwordConfirmation: string, isLoading: bool)
    ensures !RegisterDisabled(email, password, passwordConfirmation, isLoading) ==>
      var step := HandleRegister(email, password, passwordConfirmation);
      step.CallSignUp? || step == Refuse(EmptyPassword)
    ensures HandleRegister(email, password, passwordConfirmation).CallSignUp? ==>
      !RegisterDisabled(email, password, passwordConfirmation, false)
  {
    if IsValidEmail(email) {
      ValidEmailIsTrimmed(email);
      assert Trim(email) != "";
      if Trim(password) != "" {
        assert password != "" by { assert Trim("") == ""; }
      }
    }
  }
}
