/**
 * The form rules of the sign-up page, `src/pages/SignUp.tsx`: the three field validators
 * (their regular expressions written out as character classes), the password
 * requirement flags and `isFormValid`, the gating of `handleEmailSignUp`, and the toast
 * its error handler picks.
 */
module SignUp {
  import opened Common
  import opened JsStrings

  // ---- username ----

  /** `[a-zA-Z0-9_-]`. */
  predicate IsUsernameChar(c: char) {
    ('a' <= c <= 'z') || ('A' <= c <= 'Z') || ('0' <= c <= '9') || c == '_' || c == '-'
  }

  predicate AllUsernameChars(v: string) {
    forall i :: 0 <= i < |v| ==> IsUsernameChar(v[i])
  }

  /** `validateUsername`: the message of the first failing check, or `None`. */
  function ValidateUsername(v: string): (r: Option<string>)
    ensures r.None? <==> 3 <= |v| <= 30 && AllUsernameChars(v)
    ensures v == "" ==> r == Some("Username is required")
    ensures v != "" && (|v| < 3 || |v| > 30) ==> r == Some("Username must be between 3 and 30 characters")
  {
    if v == "" then Some("Username is required")
    else if |v| < 3 || |v| > 30 then Some("Username must be between 3 and 30 characters")
    else if !AllUsernameChars(v) then Some("Username can only contain letters, numbers, underscores, and hyphens")
    else None
  }

  // ---- email ----

  function IsAt(): char -> bool {
    c => c == '@'
  }

  /** A `.` with at least one character on each side. */
  predicate HasInnerDot(d: string) {
    exists k :: 0 < k < |d| - 1 && d[k] == '.'
  }

  /** A scan for `/^[^\s@]+@[^\s@]+\.[^\s@]+$/`: no whitespace, a first `@` after a non-empty local part, no second `@`, an inner dot after it. */
  predicate EmailMatches(v: string) {
    !HasWhitespace(v) &&
    match FindIndex(v, IsAt())
    case None => false
    case Some(at) => at > 0 && NoChar(v[at + 1..], '@') && HasInnerDot(v[at + 1..])
  }

  /** The regular expression read directly: `L@A.B`, with `L`, `A`, `B` non-empty and free of `@` and whitespace. */
  predicate EmailShape(v: string) {
    && !HasWhitespace(v)
    && exists at, dot ::
      && 0 < at && at + 1 < dot && dot + 1 < |v|
      && v[at] == '@' && v[dot] == '.'
      && forall i :: 0 <= i < |v| && i != at ==> v[i] != '@'
  }

  /** The scan accepts exactly the strings the regular expression matches. */
  lemma EmailMatchesIffShape(v: string)
    ensures EmailMatches(v) <==> EmailShape(v)
  {
    if EmailMatches(v) {
      var at := FindIndex(v, IsAt()).value;
      var d := v[at + 1..];
      var k :| 0 < k < |d| - 1 && d[k] == '.';
      assert v[at + 1 + k] == '.';
      forall i | 0 <= i < |v| && i != at ensures v[i] != '@' {
        if i > at {
          assert v[i] == d[i - at - 1];
        } else {
          assert !IsAt()(v[i]);
        }
      }
      assert EmailShape(v);
    }
    if EmailShape(v) {
      var at, dot :| && 0 < at && at + 1 < dot && dot + 1 < |v|
        && v[at] == '@' && v[dot] == '.'
        && forall i :: 0 <= i < |v| && i != at ==> v[i] != '@';
      assert IsAt()(v[at]);
      assert forall j :: 0 <= j < at ==> !IsAt()(v[j]);
      assert FindIndex(v, IsAt()) == Some(at);
      var d := v[at + 1..];
      assert d[dot - at - 1] == '.';
      assert NoChar(d, '@') by {
        forall j | 0 <= j < |d| ensures d[j] != '@' {
          assert d[j] == v[at + 1 + j];
        }
      }
    }
  }

  /** `validateEmail`. */
  function ValidateEmail(v: string): (r: Option<string>)
    ensures r.None? <==> EmailShape(v)
    ensures v == "" ==> r == Some("Email is required")
  {
    EmailMatchesIffShape(v);
    if v == "" then Some("Email is required")
    else if !EmailMatches(v) then Some("Please enter a valid email address")
    else None
  }

  // ---- password ----

  predicate IsCapital(c: char) { 'A' <= c <= 'Z' }
  predicate IsDigit(c: char) { '0' <= c <= '9' }

  /** `[!@#$%^&*()_+\-=\[\]{};':"\\|,.<>\/?]`. */
  predicate IsSpecial(c: char) {
    c in "!@#$%^&*()_+-=[]{};':\"\\|,.<>/?"
  }

  predicate HasCapital(p: string) { exists i :: 0 <= i < |p| && IsCapital(p[i]) }
  predicate HasDigit(p: string) { exists i :: 0 <= i < |p| && IsDigit(p[i]) }
  predicate HasSpecial(p: string) { exists i :: 0 <= i < |p| && IsSpecial(p[i]) }

  /** `passwordRequirements`. */
  datatype Requirements = Requirements(minLength: bool, hasCapital: bool, hasNumber: bool, hasSpecial: bool)

  function PasswordRequirements(p: string): Requirements {
    Requirements(|p| >= 8, HasCapital(p), HasDigit(p), HasSpecial(p))
  }

  predicate AllMet(r: Requirements) {
    r.minLength && r.hasCapital && r.hasNumber && r.hasSpecial
  }

  /** `isFormValid`: every requirement met, the confirmation equal and non-empty, the terms accepted. */
  predicate IsFormValid(password: string, confirm: string, acceptTerms: bool) {
    AllMet(PasswordRequirements(password)) && password == confirm && |password| > 0 && acceptTerms
  }

  /** `validatePassword`: the message of the first failing check, or `None`. */
  function ValidatePassword(v: string): (r: Option<string>)
    ensures r.None? <==> AllMet(PasswordRequirements(v)) && |v| <= 128
    ensures v == "" ==> r == Some("Password is required")
    ensures v != "" && |v| < 8 ==> r == Some("Password must be at least 8 characters")
    ensures |v| > 128 ==> r == Some("Password must be at most 128 characters")
  {
    if v == "" then Some("Password is required")
    else if |v| < 8 then Some("Password must be at least 8 characters")
    else if |v| > 128 then Some("Password must be at most 128 characters")
    else if !HasCapital(v) then Some("Password must contain at least one capital letter")
    else if !HasDigit(v) then Some("Password must contain at least one number")
    else if !HasSpecial(v) then Some("Password must contain at least one special character")
    else None
  }

  /**
   * The live form check and the validator disagree above 128 characters: such a
   * password enables the submit button, and the validator rejects it on submit.
   */
  lemma FormValidIgnoresMaximum(p: string)
    requires AllMet(PasswordRequirements(p)) && |p| > 128
    ensures IsFormValid(p, p, true)
    ensures ValidatePassword(p) == Some("Password must be at most 128 characters")
  {
  }

  // ---- submission ----

  /** The body `signUp` sends. */
  datatype SignUpRequest = SignUpRequest(username: string, email: string, password: string)

  /** What `handleEmailSignUp` does with the form. */
  datatype SubmitOutcome =
    | FieldErrors(username: Option<string>, email: Option<string>, password: Option<string>, confirmPassword: Option<string>)
    | TermsRequired
    | Submitted(request: SignUpRequest)

  function ConfirmError(password: string, confirm: string): (r: Option<string>)
    ensures r.None? <==> confirm != "" && confirm == password
  {
    if confirm == "" then Some("Please confirm your password")
    else if password != confirm then Some("Passwords don't match")
    else None
  }

  /** `handleEmailSignUp`. */
  function HandleEmailSignUp(username: string, email: string, password: string, confirm: string, acceptTerms: bool): SubmitOutcome {
    var u, e, p, c := ValidateUsername(username), ValidateEmail(email), ValidatePassword(password), ConfirmError(password, confirm);
    if u.Some? || e.Some? || p.Some? || c.Some? then FieldErrors(u, e, p, c)
    else if !acceptTerms then TermsRequired
    else Submitted(SignUpRequest(username, Trim(ToLower(email)), password))
  }

  /**
   * The request is sent exactly when every field validates and the terms are accepted;
   * any field error is reported before the terms are looked at.
   */
  lemma SubmitGate(username: string, email: string, password: string, confirm: string, acceptTerms: bool)
    ensures var o := HandleEmailSignUp(username, email, password, confirm, acceptTerms);
      o.Submitted? <==>
        && 3 <= |username| <= 30 && AllUsernameChars(username)
        && EmailShape(email)
        && AllMet(PasswordRequirements(password)) && |password| <= 128
        && confirm == password && acceptTerms
    ensures var o := HandleEmailSignUp(username, email, password, confirm, acceptTerms);
      o.TermsRequired? ==> !acceptTerms
  {
  }

  /** Lower-casing maps no character to whitespace. */
  lemma LowerKeepsNonWhitespace(s: string)
    requires !HasWhitespace(s)
    ensures !HasWhitespace(ToLower(s))
  {
    forall i | 0 <= i < |s| ensures !IsWhitespace(ToLower(s)[i]) {
      assert !IsWhitespace(s[i]);
    }
  }

  /**
   * The request carries the lower-cased email; the username and password go unchanged.
   * An accepted email has no whitespace, so the trim never removes anything.
   */
  lemma SubmittedRequest(username: string, email: string, password: string, confirm: string, acceptTerms: bool)
    requires HandleEmailSignUp(username, email, password, confirm, acceptTerms).Submitted?
    ensures HandleEmailSignUp(username, email, password, confirm, acceptTerms).request
      == SignUpRequest(username, ToLower(email), password)
  {
    var l := ToLower(email);
    LowerKeepsNonWhitespace(email);
    assert TrimStart(l) == l by {
      if l != [] {
        assert !IsWhitespace(l[0]);
      }
    }
    assert TrimEnd(l) == l by {
      if l != [] {
        assert !IsWhitespace(l[|l| - 1]);
      }
    }
  }

  // ---- outcome of the request ----

  /** What the `signUp` mutation's `onError` receives. */
  datatype SignUpFailure =
    | ClientError(status: int, message: string)
    | PlainError(message: string)
    | NonError

  datatype Toast = Toast(title: string, description: string)

  /** The toast `onError` shows: chosen by the client error's status alone. */
  function FailureToast(f: SignUpFailure): (t: Toast)
    ensures f.ClientError? && f.status == 409 ==> t.title == "Account already exists"
    ensures f.ClientError? && f.status == 429 ==> t.title == "Too many requests"
    ensures f.ClientError? && f.status == 400 ==> t.title == "Validation error"
    ensures !(f.ClientError? && f.status in {409, 429, 400}) ==> t.title == "Sign up failed"
    ensures f.NonError? ==> t.description == "Failed to create account. Please try again."
  {
    var message := if f.NonError? then "Failed to create account. Please try again." else f.message;
    if f.ClientError? && f.status == 409 then
      Toast("Account already exists", "This email or username is already registered. Please sign in instead.")
    else if f.ClientError? && f.status == 429 then
      Toast("Too many requests", "Please wait a moment before trying again.")
    else if f.ClientError? && f.status == 400 then
      Toast("Validation error", if message != "" then message else "Please check your input and try again.")
    else Toast("Sign up failed", message)
  }

  /** `onSuccess`: the check-email page gets the request's email and the server's message, or a default one. */
  function CheckEmailState(request: SignUpRequest, responseMessage: Option<string>): (r: (string, string))
    ensures r.0 == request.email
    ensures responseMessage.Some? && responseMessage.value != "" ==> r.1 == responseMessage.value
    ensures r.1 != ""
  {
    (request.email,
     if responseMessage.Some? && responseMessage.value != "" then responseMessage.value
     else "Please check your email to verify your account.")
  }
}
