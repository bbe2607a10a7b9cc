/**
 * The sign-up page (src/pages/SignUp.jsx): the form state and its change
 * handler, the e-mail and password predicates, and the submit handler's
 * chain of guards in front of the authentication back end.
 */
module SignUp {
  import opened Js

  // ---------------------------------------------------------------------
  // Form state and handleChange
  // ---------------------------------------------------------------------

  /** The `formData` state record. */
  datatype FormData = FormData(fullName: string, email: string, password: string)

  /** The `name` attribute of each of the page's three inputs. */
  datatype Field = FullName | Email | Password

  function Get(form: FormData, f: Field): string
  {
    match f
    case FullName => form.fullName
    case Email => form.email
    case Password => form.password
  }

  /**
   * The updater handed to `setFormData`: a copy of the previous record with
   * the field named by the event replaced by the event's value.
   */
  function WithField(form: FormData, f: Field, value: string): (r: FormData)
    ensures Get(r, f) == value
    ensures forall g :: g != f ==> Get(r, g) == Get(form, g)
  {
    match f
    case FullName => form.(fullName := value)
    case Email => form.(email := value)
    case Password => form.(password := value)
  }

  /** The component's state: the one record the change handler rewrites. */
  class SignUpPage {
    var formData: FormData

    constructor ()
      ensures formData == FormData("", "", "")
    {
      formData := FormData("", "", "");
    }

    /** An input's change event: `f` is `event.target.name`, `value` is `event.target.value`. */
    method HandleChange(f: Field, value: string)
      modifies this
      ensures formData == WithField(old(formData), f, value)
      ensures Get(formData, f) == value
      ensures forall g :: g != f ==> Get(formData, g) == Get(old(formData), g)
    {
      formData := WithField(formData, f, value);
    }
  }

  // ---------------------------------------------------------------------
  // isValidEmail
  // ---------------------------------------------------------------------

  /**
   * The characters the regular-expression class `\s` matches: ECMAScript's
   * WhiteSpace and LineTerminator code points (all in the Basic Multilingual
   * Plane).
   */
  predicate IsJsWhitespace(c: char)
  {
    c == '\t' || c == '\n' || c == '\U{B}' || c == '\U{C}' || c == '\r' || c == ' ' ||
    c == '\U{A0}' || c == '\U{1680}' || ('\U{2000}' <= c <= '\U{200A}') ||
    c == '\U{2028}' || c == '\U{2029}' || c == '\U{202F}' || c == '\U{205F}' ||
    c == '\U{3000}' || c == '\U{FEFF}'
  }

  /** The class `[^\s@]`. */
  predicate IsEmailChar(c: char)
  {
    c != '@' && !IsJsWhitespace(c)
  }

  /**
   * The e-mail check, character by character: no whitespace anywhere, and
   * exactly one '@', at a position `k` with something before it, followed
   * by a '.' that has at least one character on each side of it.
   */
  predicate IsValidEmail(s: string)
  {
    (forall i | 0 <= i < |s| :: !IsJsWhitespace(s[i])) &&
    exists k | 0 < k < |s| ::
      s[k] == '@' &&
      (forall i | 0 <= i < |s| && i != k :: s[i] != '@') &&
      (exists j | k + 1 < j < |s| - 1 :: s[j] == '.')
  }

  /** One `[^\s@]+` run. */
  predicate IsEmailRun(t: string)
  {
    |t| > 0 && forall i | 0 <= i < |t| :: IsEmailChar(t[i])
  }

  /**
   * Reference reading of the pattern `^[^\s@]+@[^\s@]+\.[^\s@]+$`: the
   * string splits into three runs joined by "@" and ".".
   */
  ghost predicate MatchesEmailPattern(s: string)
  {
    exists a, b, c :: IsEmailRun(a) && IsEmailRun(b) && IsEmailRun(c) && s == a + "@" + b + "." + c
  }

  lemma PatternImpliesValidEmail(s: string, a: string, b: string, c: string)
    requires IsEmailRun(a) && IsEmailRun(b) && IsEmailRun(c)
    requires s == a + "@" + b + "." + c
    ensures IsValidEmail(s)
  {
    var k := |a|;
    var j := |a| + 1 + |b|;
    assert s[k] == '@';
    assert s[j] == '.';
    forall i | 0 <= i < |s|
      ensures !IsJsWhitespace(s[i]) && (i != k ==> s[i] != '@')
    {
      if i < k {
        assert s[i] == a[i];
      } else if k < i < j {
        assert s[i] == b[i - k - 1];
      } else if j < i {
        assert s[i] == c[i - j - 1];
      }
    }
  }

  lemma ValidEmailImpliesPattern(s: string)
    requires IsValidEmail(s)
    ensures MatchesEmailPattern(s)
  {
    var k :| 0 < k < |s| && s[k] == '@' &&
      (forall i | 0 <= i < |s| && i != k :: s[i] != '@') &&
      (exists j | k + 1 < j < |s| - 1 :: s[j] == '.');
    var j :| k + 1 < j < |s| - 1 && s[j] == '.';
    var a, b, c := s[..k], s[k + 1..j], s[j + 1..];
    assert IsEmailRun(a) by {
      forall i | 0 <= i < |a| ensures IsEmailChar(a[i]) { assert a[i] == s[i]; }
    }
    assert IsEmailRun(b) by {
      forall i | 0 <= i < |b| ensures IsEmailChar(b[i]) { assert b[i] == s[k + 1 + i]; }
    }
    assert IsEmailRun(c) by {
      forall i | 0 <= i < |c| ensures IsEmailChar(c[i]) { assert c[i] == s[j + 1 + i]; }
    }
    assert s == a + "@" + b + "." + c;
  }

  /** The character-level check accepts exactly the strings the pattern matches. */
  lemma ValidEmailIsPattern(s: string)
    ensures IsValidEmail(s) <==> MatchesEmailPattern(s)
  {
    if IsValidEmail(s) {
      ValidEmailImpliesPattern(s);
    }
    if MatchesEmailPattern(s) {
      var a, b, c :| IsEmailRun(a) && IsEmailRun(b) && IsEmailRun(c) && s == a + "@" + b + "." + c;
      PatternImpliesValidEmail(s, a, b, c);
    }
  }

  /** Two '@' characters anywhere make an address invalid. */
  lemma TwoAtSignsRejected(s: string, p: nat, q: nat)
    requires p < q < |s| && s[p] == '@' && s[q] == '@'
    ensures !IsValidEmail(s)
  {
  }

  // ---------------------------------------------------------------------
  // isStrongPassword
  // ---------------------------------------------------------------------

  predicate IsUpper(c: char) { 'A' <= c <= 'Z' }
  predicate IsLower(c: char) { 'a' <= c <= 'z' }
  predicate IsDigit(c: char) { '0' <= c <= '9' }

  /** The members of the class `[!@#$%^&*()_+\-=[\]{};':"\\|,.<>/?]`. */
  const SpecialChars: string := "!@#$%^&*()_+-=[]{};':\"\\|,.<>/?"

  predicate IsSpecial(c: char) { c in SpecialChars }

  /** `re.test(p)` for a one-character class `re`. */
  predicate HasSome(p: string, cls: char -> bool)
  {
    exists i | 0 <= i < |p| :: cls(p[i])
  }

  predicate IsStrongPassword(p: string)
  {
    HasSome(p, IsUpper) && HasSome(p, IsLower) && HasSome(p, IsDigit) && HasSome(p, IsSpecial)
  }

  /** Every special character is printable ASCII punctuation, and not '~' or '`'. */
  lemma SpecialCharsAreAsciiPunctuation(c: char)
    requires IsSpecial(c)
    ensures '!' <= c <= '~' && c != '~' && c != '`' && c != ' '
    ensures !IsUpper(c) && !IsLower(c) && !IsDigit(c)
  {
  }

  /**
   * A strong password needs four characters from four disjoint classes, so
   * it is at least four characters long.
   */
  lemma StrongPasswordHasFourChars(p: string)
    requires IsStrongPassword(p)
    ensures |p| >= 4
  {
    var u :| 0 <= u < |p| && IsUpper(p[u]);
    var l :| 0 <= l < |p| && IsLower(p[l]);
    var d :| 0 <= d < |p| && IsDigit(p[d]);
    var x :| 0 <= x < |p| && IsSpecial(p[x]);
    SpecialCharsAreAsciiPunctuation(p[x]);
    assert u != l && u != d && u != x && l != d && l != x && d != x;
  }

  /**
   * A password whose non-alphanumeric characters are all '~', '`' or space
   * is never strong, however many letters and digits it has.
   */
  lemma ExcludedPunctuationIsNotSpecial(p: string)
    requires forall i :: 0 <= i < |p| ==> IsUpper(p[i]) || IsLower(p[i]) || IsDigit(p[i]) || p[i] in "~` "
    ensures !IsStrongPassword(p)
  {
    if HasSome(p, IsSpecial) {
      var x :| 0 <= x < |p| && IsSpecial(p[x]);
      SpecialCharsAreAsciiPunctuation(p[x]);
    }
  }

  // ---------------------------------------------------------------------
  // handleSubmit
  // ---------------------------------------------------------------------

  const AllFieldsRequiredAlert := "All fields are required."
  const InvalidEmailAlert := "Please enter a valid email address."
  const PasswordTooShortAlert := "Password must be at least 6 characters long."
  const WeakPasswordAlert := "Password must contain at least one uppercase letter, one lowercase letter, one number, and one special character."
  const RegisteredAlert := "Your account has been successfully registered. Please log in to access the page."
  const MinPasswordLength := 6
  /** The fixed `age` sent in the sign-up metadata. */
  const SignUpAge := 27
  const LoginRoute := "/"

  /** The argument of `supabase.auth.signUp`. */
  datatype SignUpRequest = SignUpRequest(email: string, password: string, fullName: string, age: int)

  /**
   * How the awaited `auth.signUp` call ended: it resolved with an object
   * whose `error` may or may not be set, or it threw.
   */
  datatype SignUpReply = Resolved(error: Option<string>) | Threw(message: string)

  /** What one submit does: the back-end call it makes, the one alert it shows, where it navigates. */
  datatype SubmitEffects = SubmitEffects(signUpCall: Option<SignUpRequest>, alert: string, navigateTo: Option<string>)

  /** JavaScript truthiness of the three strings: none is empty. */
  predicate AllFieldsFilled(form: FormData)
  {
    form.fullName != "" && form.email != "" && form.password != ""
  }

  predicate PassesValidation(form: FormData)
  {
    AllFieldsFilled(form) &&
    IsValidEmail(form.email) &&
    Utf16Length(form.password) >= MinPasswordLength &&
    IsStrongPassword(form.password)
  }

  /** Only an alert, no back-end call and no navigation. */
  function Rejected(alert: string): SubmitEffects
  {
    SubmitEffects(None, alert, None)
  }

  /**
   * The submit handler: four guards, each ending the handler with its own
   * alert, then the sign-up call.
   */
  method HandleSubmit(form: FormData, reply: SignUpReply) returns (fx: SubmitEffects)
    ensures !AllFieldsFilled(form) ==> fx == Rejected(AllFieldsRequiredAlert)
    ensures AllFieldsFilled(form) && !IsValidEmail(form.email) ==> fx == Rejected(InvalidEmailAlert)
    ensures (AllFieldsFilled(form) && IsValidEmail(form.email) && Utf16Length(form.password) < MinPasswordLength)
              ==> fx == Rejected(PasswordTooShortAlert)
    ensures (AllFieldsFilled(form) && IsValidEmail(form.email) && Utf16Length(form.password) >= MinPasswordLength &&
             !IsStrongPassword(form.password))
              ==> fx == Rejected(WeakPasswordAlert)
    ensures Utf16Length(form.password) < MinPasswordLength ==> fx.signUpCall == None
    ensures fx.signUpCall.Some? <==> PassesValidation(form)
    ensures PassesValidation(form) ==>
              fx.signUpCall == Some(SignUpRequest(form.email, form.password, form.fullName, SignUpAge))
    ensures PassesValidation(form) && reply.Resolved? ==> fx.alert == RegisteredAlert && fx.navigateTo == Some(LoginRoute)
    ensures PassesValidation(form) && reply.Threw? ==> fx.alert == reply.message && fx.navigateTo == None
  {
    if form.fullName == "" || form.email == "" || form.password == "" {
      return Rejected(AllFieldsRequiredAlert);
    }
    if !IsValidEmail(form.email) {
      return Rejected(InvalidEmailAlert);
    }
    if Utf16Length(form.password) < MinPasswordLength {
      return Rejected(PasswordTooShortAlert);
    }
    if !IsStrongPassword(form.password) {
      return Rejected(WeakPasswordAlert);
    }
    var request := SignUpRequest(form.email, form.password, form.fullName, SignUpAge);
    match reply
    case Resolved(_) =>
      fx := SubmitEffects(Some(request), RegisteredAlert, Some(LoginRoute));
    case Threw(message) =>
      fx := SubmitEffects(Some(request), message, None);
  }

  /**
   * The length guard is not implied by the strength guard: a five-character
   * password can be strong and is still turned away, by the length guard.
   */
  lemma ShortStrongPasswordIsStillRejected()
    ensures IsStrongPassword("Ab1!x") && Utf16Length("Ab1!x") < MinPasswordLength
  {
    var p := "Ab1!x";
    assert IsUpper(p[0]) && IsLower(p[1]) && IsDigit(p[2]) && IsSpecial(p[3]);
  }
}
