/** The sign-in / sign-up screen: input validation, the mode toggle shared by its two
    buttons, and the translation of backend error descriptions into friendlier text.

    A text field's `text` is an `Option<string>` (UIKit allows `nil`); the backend
    requests are reduced to the effect the screen asks for. */
module Authentication {
  import opened Wrappers
  import opened Text

  /** The alert shown for each failed validation check, in check order. */
  datatype ValidationError =
    | EmptyEmail | InvalidEmail
    | EmptyPassword | ShortPassword
    | EmptyUsername | ShortUsername | LongUsername

  function Message(e: ValidationError): string {
    match e
    case EmptyEmail => "Please enter your email address"
    case InvalidEmail => "Please enter a valid email address"
    case EmptyPassword => "Please enter your password"
    case ShortPassword => "Password must be at least 6 characters long"
    case EmptyUsername => "Please enter a username"
    case ShortUsername => "Username must be at least 3 characters long"
    case LongUsername => "Username must be 20 characters or less"
  }

  /** What `validateInput` returns when every check passes; `username` is nil in sign-in mode. */
  datatype Credentials = Credentials(email: string, password: string, username: Option<string>)

  /** A field's text with surrounding whitespace removed; a nil field reads as empty. */
  function Trimmed(field: Option<string>): string {
    Trim(field.GetOr(""))
  }

  /** The email rule: non-empty after trimming and containing both "@" and ".". */
  predicate EmailAccepted(email: string) {
    |email| > 0 && Contains(email, "@") && Contains(email, ".")
  }

  /** The password rule, on the untrimmed text: at least 6 characters. */
  predicate PasswordAccepted(password: string) {
    |password| >= 6
  }

  /** The username rule, on the trimmed text: 3 to 20 characters. */
  predicate UsernameAccepted(username: string) {
    3 <= |username| <= 20
  }

  /** `validateInput`: the checks run email, password, then (sign-up only) username; the
      first that fails alone decides the alert. */
  function ValidateInput(signUpMode: bool, emailField: Option<string>, passwordField: Option<string>,
                         usernameField: Option<string>): (r: Result<Credentials, ValidationError>)
    ensures var e := Trimmed(emailField); var p := passwordField.GetOr(""); var u := Trimmed(usernameField);
      && (r == Failure(EmptyEmail) <==> |e| == 0)
      && (r == Failure(InvalidEmail) <==> |e| > 0 && !EmailAccepted(e))
      && (r == Failure(EmptyPassword) <==> EmailAccepted(e) && |p| == 0)
      && (r == Failure(ShortPassword) <==> EmailAccepted(e) && 0 < |p| < 6)
      && (r == Failure(EmptyUsername) <==> signUpMode && EmailAccepted(e) && PasswordAccepted(p) && |u| == 0)
      && (r == Failure(ShortUsername) <==> signUpMode && EmailAccepted(e) && PasswordAccepted(p) && 0 < |u| < 3)
      && (r == Failure(LongUsername) <==> signUpMode && EmailAccepted(e) && PasswordAccepted(p) && |u| > 20)
      && (r.Success? <==> EmailAccepted(e) && PasswordAccepted(p) && (signUpMode ==> UsernameAccepted(u)))
      && (r.Success? ==> r.value == Credentials(e, p, if signUpMode then Some(u) else None))
  {
    var email := Trimmed(emailField);
    var password := passwordField.GetOr("");
    if |email| == 0 then Failure(EmptyEmail)
    else if !(Contains(email, "@") && Contains(email, ".")) then Failure(InvalidEmail)
    else if |password| == 0 then Failure(EmptyPassword)
    else if |password| < 6 then Failure(ShortPassword)
    else if signUpMode then
      var username := Trimmed(usernameField);
      if |username| == 0 then Failure(EmptyUsername)
      else if |username| < 3 then Failure(ShortUsername)
      else if |username| > 20 then Failure(LongUsername)
      else Success(Credentials(email, password, Some(username)))
    else Success(Credentials(email, password, None))
  }

  /** In sign-in mode the username field is never read. */
  lemma SignInIgnoresUsername(emailField: Option<string>, passwordField: Option<string>,
                              u1: Option<string>, u2: Option<string>)
    ensures ValidateInput(false, emailField, passwordField, u1) == ValidateInput(false, emailField, passwordField, u2)
  {
  }

  /** The accepted email never has surrounding whitespace: validating its own output again
      gives the same credentials. */
  lemma ValidatedEmailIsTrimmed(signUpMode: bool, emailField: Option<string>, passwordField: Option<string>,
                                usernameField: Option<string>)
    requires ValidateInput(signUpMode, emailField, passwordField, usernameField).Success?
    ensures var c := ValidateInput(signUpMode, emailField, passwordField, usernameField).value;
      ValidateInput(signUpMode, Some(c.email), Some(c.password), c.username) == Success(c)
  {
    TrimIdempotent(emailField.GetOr(""));
    TrimIdempotent(usernameField.GetOr(""));
  }

  /** The backend error codes `formatErrorMessage` recognises, in the order it tests them,
      each with its replacement text. */
  const ErrorTable: seq<(string, string)> := [
    ("email-already-in-use", "An account with this email already exists. Please sign in instead."),
    ("invalid-email", "Please enter a valid email address."),
    ("weak-password", "Password is too weak. Please choose a stronger password."),
    ("user-not-found", "No account found with this email. Please sign up first."),
    ("wrong-password", "Incorrect password. Please try again."),
    ("too-many-requests", "Too many failed attempts. Please try again later."),
    ("network-request-failed", "Network error. Please check your internet connection.")
  ]

  /** Index of the first table entry, at or after `from`, whose code occurs in `description`. */
  function FirstMatch(description: string, from: nat): (r: Option<nat>)
    requires from <= |ErrorTable|
    ensures r.Some? ==> from <= r.value < |ErrorTable| && Contains(description, ErrorTable[r.value].0)
    ensures r.Some? ==> forall k :: from <= k < r.value ==> !Contains(description, ErrorTable[k].0)
    ensures r.None? ==> forall k :: from <= k < |ErrorTable| ==> !Contains(description, ErrorTable[k].0)
    decreases |ErrorTable| - from
  {
    if from == |ErrorTable| then None
    else if Contains(description, ErrorTable[from].0) then Some(from)
    else FirstMatch(description, from + 1)
  }

  /** `formatErrorMessage`: the text for the first code, in table order, that occurs in the
      error's description; the description itself when none does. */
  function FormatErrorMessage(description: string): (r: string)
    ensures (forall k :: 0 <= k < |ErrorTable| ==> !Contains(description, ErrorTable[k].0)) ==> r == description
    ensures forall k :: 0 <= k < |ErrorTable| && Contains(description, ErrorTable[k].0)
                        && (forall j :: 0 <= j < k ==> !Contains(description, ErrorTable[j].0))
                        ==> r == ErrorTable[k].1
  {
    match FirstMatch(description, 0)
    case Some(k) => ErrorTable[k].1
    case None => description
  }

  /** Every recognised code contains a hyphen. */
  lemma CodesHyphenated(k: nat)
    requires k < |ErrorTable|
    ensures '-' in ErrorTable[k].0
  {
    var code := ErrorTable[k].0;
    if k == 0 { assert code[5] == '-'; }
    else if k == 1 { assert code[7] == '-'; }
    else if k == 2 || k == 3 { assert code[4] == '-'; }
    else if k == 4 { assert code[5] == '-'; }
    else if k == 5 { assert code[3] == '-'; }
    else { assert code[7] == '-'; }
  }

  /** So a description without a hyphen is shown as it is. */
  lemma UnhyphenatedDescriptionUnchanged(description: string)
    requires '-' !in description
    ensures FormatErrorMessage(description) == description
  {
    forall k | 0 <= k < |ErrorTable| ensures !Contains(description, ErrorTable[k].0) {
      CodesHyphenated(k);
      if Contains(description, ErrorTable[k].0) {
        ContainsMember(description, ErrorTable[k].0, '-');
      }
    }
  }

  /** What a button press asks for. */
  datatype Effect =
    | SwitchedMode
    | Alert(message: string)
    | SignInRequest(email: string, password: string)
    | SignUpRequest(email: string, password: string, username: string)

  /** The screen's mode after a press, and what the press asked for. */
  datatype Press = Press(signUpMode: bool, effect: Effect)

  /** `signInButtonTapped`: in sign-up mode it only switches back to sign-in; otherwise it
      validates and either alerts or issues a sign-in request. */
  function SignInTapped(signUpMode: bool, emailField: Option<string>, passwordField: Option<string>,
                        usernameField: Option<string>): (r: Press)
    ensures signUpMode ==> r == Press(false, SwitchedMode)
    ensures !signUpMode ==> !r.signUpMode && r.effect != SwitchedMode && !r.effect.SignUpRequest?
    ensures r.effect.SignInRequest? <==> !signUpMode && ValidateInput(false, emailField, passwordField, usernameField).Success?
    ensures r.effect.SignInRequest? ==>
      r.effect.email == Trimmed(emailField) && r.effect.password == passwordField.GetOr("")
    ensures var v := ValidateInput(false, emailField, passwordField, usernameField);
      !signUpMode && v.Failure? ==> r.effect == Alert(Message(v.error))
  {
    if signUpMode then Press(false, SwitchedMode)
    else match ValidateInput(false, emailField, passwordField, usernameField)
      case Failure(e) => Press(false, Alert(Message(e)))
      case Success(c) => Press(false, SignInRequest(c.email, c.password))
  }

  /** `signUpButtonTapped`: in sign-in mode it only switches to sign-up; otherwise it
      validates in sign-up mode, so a request always carries a username. */
  function SignUpTapped(signUpMode: bool, emailField: Option<string>, passwordField: Option<string>,
                        usernameField: Option<string>): (r: Press)
    ensures !signUpMode ==> r == Press(true, SwitchedMode)
    ensures signUpMode ==> r.signUpMode && r.effect != SwitchedMode && !r.effect.SignInRequest?
    ensures r.effect.SignUpRequest? <==> signUpMode && ValidateInput(true, emailField, passwordField, usernameField).Success?
    ensures r.effect.SignUpRequest? ==>
      && r.effect.email == Trimmed(emailField) && r.effect.password == passwordField.GetOr("")
      && r.effect.username == Trimmed(usernameField) && UsernameAccepted(r.effect.username)
    ensures var v := ValidateInput(true, emailField, passwordField, usernameField);
      signUpMode && v.Failure? ==> r.effect == Alert(Message(v.error))
  {
    if !signUpMode then Press(true, SwitchedMode)
    else match ValidateInput(true, emailField, passwordField, usernameField)
      case Failure(e) => Press(true, Alert(Message(e)))
      case Success(c) => Press(true, SignUpRequest(c.email, c.password, c.username.value))
  }

  /** Return in the password field presses the current mode's own button, so it submits
      and never switches mode. */
  function PasswordReturn(signUpMode: bool, emailField: Option<string>, passwordField: Option<string>,
                          usernameField: Option<string>): (r: Press)
    ensures r.signUpMode == signUpMode && r.effect != SwitchedMode
    ensures r.effect.Alert? || (if signUpMode then r.effect.SignUpRequest? else r.effect.SignInRequest?)
    ensures var v := ValidateInput(signUpMode, emailField, passwordField, usernameField);
      && (r.effect.Alert? <==> v.Failure?)
      && (v.Failure? ==> r.effect == Alert(Message(v.error)))
      && (v.Success? && !signUpMode ==> r.effect == SignInRequest(v.value.email, v.value.password))
      && (v.Success? && signUpMode ==>
            r.effect == SignUpRequest(v.value.email, v.value.password, Trimmed(usernameField)))
  {
    if signUpMode then SignUpTapped(signUpMode, emailField, passwordField, usernameField)
    else SignInTapped(signUpMode, emailField, passwordField, usernameField)
  }

  /** The outcome of a sign-in or sign-up request: success dismisses the screen, failure
      alerts with the formatted description. */
  datatype Reply = Dismiss | FailureAlert(message: string)

  function RequestCompleted(result: Result<string, string>): (r: Reply)
    ensures result.Success? <==> r == Dismiss
    ensures result.Failure? ==> r == FailureAlert(FormatErrorMessage(result.error))
  {
    match result
    case Success(_) => Dismiss
    case Failure(description) => FailureAlert(FormatErrorMessage(description))
  }
}
