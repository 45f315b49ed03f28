/** The sign-up form: the ordered validation of its fields and the state the
    submit handler leaves behind. */
module SignUp {
  import opened Wrappers

  /** The characters `String.prototype.trim` removes: the ECMAScript white
      space and line terminator code points. */
  predicate IsWhitespace(c: char)
  {
    var n := c as int;
    n == 0x09 || n == 0x0A || n == 0x0B || n == 0x0C || n == 0x0D || n == 0x20 || n == 0xA0 || n == 0x1680
    || (0x2000 <= n <= 0x200A) || n == 0x2028 || n == 0x2029 || n == 0x202F || n == 0x205F || n == 0x3000
    || n == 0xFEFF
  }

  /** s without its leading white space. */
  function TrimStart(s: string): (r: string)
    ensures |r| <= |s| && r == s[|s| - |r|..]
    ensures r == [] || !IsWhitespace(r[0])
    ensures forall i :: 0 <= i < |s| - |r| ==> IsWhitespace(s[i])
  {
    if s != [] && IsWhitespace(s[0]) then TrimStart(s[1..]) else s
  }

  /** s without its trailing white space. */
  function TrimEnd(s: string): (r: string)
    ensures |r| <= |s| && r == s[..|r|]
    ensures r == [] || !IsWhitespace(r[|r| - 1])
    ensures forall i :: |r| <= i < |s| ==> IsWhitespace(s[i])
  {
    if s != [] && IsWhitespace(s[|s| - 1]) then TrimEnd(s[..|s| - 1]) else s
  }

  /** `s.trim()`. */
  function Trim(s: string): (r: string)
    ensures r == [] || (!IsWhitespace(r[0]) && !IsWhitespace(r[|r| - 1]))
  {
    TrimEnd(TrimStart(s))
  }

  /** A string trims to nothing exactly when it is all white space. */
  lemma TrimEmptyIffBlank(s: string)
    ensures Trim(s) == [] <==> forall i :: 0 <= i < |s| ==> IsWhitespace(s[i])
  {
    var t := TrimStart(s);
    if t != [] {
      assert !IsWhitespace(s[|s| - |t|]);
      assert TrimEnd(t) != [];
    }
  }

  datatype ValidationError = MissingUsername | InvalidEmail | ShortPassword | PasswordMismatch

  /** The description of the destructive toast each rejection shows. */
  function Message(e: ValidationError): string
  {
    match e
    case MissingUsername => "Please enter a username"
    case InvalidEmail => "Please enter a valid email address"
    case ShortPassword => "Password must be at least 4 characters"
    case PasswordMismatch => "Passwords do not match"
  }

  /** The four checks of the form, in the order the handler runs them. */
  function Checks(username: string, email: string, password: string, confirm: string): seq<(bool, ValidationError)>
  {
    [ (Trim(username) != [], MissingUsername),
      (email == [] || '@' in email, InvalidEmail),
      (|password| >= 4, ShortPassword),
      (password == confirm, PasswordMismatch) ]
  }

  /** The error of the first check that fails, if any. */
  function FirstFailure(checks: seq<(bool, ValidationError)>): (r: Option<ValidationError>)
    ensures r.None? <==> forall i :: 0 <= i < |checks| ==> checks[i].0
    ensures r.Some? ==> exists i :: 0 <= i < |checks| && !checks[i].0 && checks[i].1 == r.value
                          && forall j :: 0 <= j < i ==> checks[j].0
  {
    if checks == [] then None
    else if !checks[0].0 then Some(checks[0].1)
    else
      var r := FirstFailure(checks[1..]);
      assert forall j :: 1 <= j < |checks| ==> checks[j] == checks[1..][j - 1];
      r
  }

  /** The verdict of the validation chain, checks taken in the handler's order. */
  function Validate(username: string, email: string, password: string, confirm: string): Option<ValidationError>
  {
    if Trim(username) == [] then Some(MissingUsername)
    else if email != [] && '@' !in email then Some(InvalidEmail)
    else if |password| < 4 then Some(ShortPassword)
    else if password != confirm then Some(PasswordMismatch)
    else None
  }

  /** The chain reports the first failing check of the list, and only that one. */
  lemma ValidateIsFirstFailure(username: string, email: string, password: string, confirm: string)
    ensures Validate(username, email, password, confirm) == FirstFailure(Checks(username, email, password, confirm))
  {
    var c := Checks(username, email, password, confirm);
    assert c[1..][0] == c[1] && c[1..][1..][0] == c[2] && c[1..][1..][1..][0] == c[3];
    assert c[1..][1..][1..][1..] == [];
  }

  /** The form is accepted exactly when all four conditions hold. */
  lemma ValidateAcceptsIff(username: string, email: string, password: string, confirm: string)
    ensures Validate(username, email, password, confirm).None?
        <==> (exists i :: 0 <= i < |username| && !IsWhitespace(username[i]))
             && (email == [] || '@' in email) && |password| >= 4 && password == confirm
  {
    TrimEmptyIffBlank(username);
  }

  /** Each error is reported exactly when its own check fails and every
      earlier one passes. */
  lemma ValidateReportsFirstFailure(username: string, email: string, password: string, confirm: string)
    ensures var v, u := Validate(username, email, password, confirm), Trim(username) != [];
      && (v == Some(MissingUsername) <==> !u)
      && (v == Some(InvalidEmail) <==> u && email != [] && '@' !in email)
      && (v == Some(ShortPassword) <==> u && (email == [] || '@' in email) && |password| < 4)
      && (v == Some(PasswordMismatch) <==> u && (email == [] || '@' in email) && |password| >= 4 && password != confirm)
  {
  }

  /** A white-space-only name is refused whatever else is entered. */
  lemma BlankNameExample()
    ensures Validate(" \t", "no-at-sign", "x", "y") == Some(MissingUsername)
  {
    TrimEmptyIffBlank(" \t");
  }

  /** An empty email address is accepted. */
  lemma EmptyEmailExample()
    ensures Validate("asha", "", "abcd", "abcd") == None
  {
    ValidateAcceptsIff("asha", "", "abcd", "abcd");
    assert !IsWhitespace("asha"[0]);
  }

  datatype ToastVariant = Default | Destructive

  datatype Toast = Toast(title: string, description: string, variant: ToastVariant)

  datatype SignUpRequest = SignUpRequest(username: string, email: string, password: string, role: string)

  /** How the awaited `signUp` call ends: resolving with its success flag, or
      throwing. */
  datatype SignUpOutcome = Resolved(success: bool) | Threw

  /** The toast a rejected field shows. */
  function RejectionToast(e: ValidationError): Toast
  {
    Toast("Validation Error", Message(e), Destructive)
  }

  const CreatedToast: Toast := Toast("Account Created!", "Redirecting to login...", Default)

  /** The state the submit handler works on. */
  class SignUpForm {
    var isLoading: bool
    /** Every toast shown, oldest first. */
    var toasts: seq<Toast>
    /** Every `signUp` call made, oldest first. */
    var signUpCalls: seq<SignUpRequest>
    /** The route a pending `setTimeout` will navigate to. */
    var redirect: Option<string>

    constructor ()
      ensures !isLoading && toasts == [] && signUpCalls == [] && redirect == None
    {
      isLoading := false;
      toasts := [];
      signUpCalls := [];
      redirect := None;
    }

    /** `handleSubmit`: a rejected form shows the first failing check's toast
        and calls nothing; an accepted one calls `signUp` once and, when that
        resolves with success, shows the confirmation and schedules the move
        to the login page. Loading is off again in every case. */
    method HandleSubmit(username: string, email: string, password: string, confirm: string, role: string,
                        outcome: SignUpOutcome)
      modifies this
      ensures !isLoading
      ensures Validate(username, email, password, confirm).Some? ==>
        && toasts == old(toasts) + [RejectionToast(Validate(username, email, password, confirm).value)]
        && signUpCalls == old(signUpCalls) && redirect == old(redirect)
      ensures Validate(username, email, password, confirm).None? ==>
        && signUpCalls == old(signUpCalls) + [SignUpRequest(username, email, password, role)]
        && (outcome == Resolved(true) ==> toasts == old(toasts) + [CreatedToast] && redirect == Some("/login"))
        && (outcome != Resolved(true) ==> toasts == old(toasts) && redirect == old(redirect))
    {
      isLoading := true;
      if Trim(username) == [] {
        toasts := toasts + [RejectionToast(MissingUsername)];
        isLoading := false;
        return;
      }
      if email != [] && '@' !in email {
        toasts := toasts + [RejectionToast(InvalidEmail)];
        isLoading := false;
        return;
      }
      if |password| < 4 {
        toasts := toasts + [RejectionToast(ShortPassword)];
        isLoading := false;
        return;
      }
      if password != confirm {
        toasts := toasts + [RejectionToast(PasswordMismatch)];
        isLoading := false;
        return;
      }
      signUpCalls := signUpCalls + [SignUpRequest(username, email, password, role)];
      if outcome == Resolved(true) {
        toasts := toasts + [CreatedToast];
        redirect := Some("/login");
      }
      isLoading := false;
    }
  }
}
