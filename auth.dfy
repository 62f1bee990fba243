/**
 * The login / sign-up form (project/src/components/Auth.tsx). Logging in goes
 * straight to the authentication service. Signing up first runs three checks
 * in a fixed order, reports only the first that fails, and makes no call then:
 * both names non-blank, the access code of the selected role, and the password
 * typed twice alike. In front of the handler sits the browser's constraint
 * validation: every input the mode shows is `required`, and the email input is
 * `type="email"`; a form that fails it never reaches `handleSubmit`. The
 * authentication service is a parameter: whether it answers with an error.
 */
module Auth {
  import opened Types

  datatype Role = Admin | Cashier | Waiter

  /** The role as the select sends it (`'admin' | 'cashier' | 'Waiter'`). */
  function RoleName(role: Role): string
  {
    match role
    case Admin => "admin"
    case Cashier => "cashier"
    case Waiter => "Waiter"
  }

  /** `ACCESS_CODES[selectedRole]`. */
  function AccessCode(role: Role): string
  {
    match role
    case Admin => "ADMIN123"
    case Cashier => "CASH456"
    case Waiter => "WAIT789"
  }

  datatype Form = Form(email: string, password: string, confirmPassword: string, accessCode: string,
                       role: Role, firstName: string, lastName: string)

  datatype Rejection = NamesRequired | InvalidAccessCode | PasswordsDiffer

  datatype Request =
    | SignIn(email: string, password: string)
    | SignUp(email: string, password: string, role: string, first_name: string, last_name: string)

  datatype Outcome =
    | Rejected(reason: Rejection)
    | Sent(request: Request, succeeded: bool)

  /** The characters `String.prototype.trim` strips: white space and line terminators. */
  predicate IsTrimmed(c: char)
  {
    c == '\t' || c == '\n' || c == '\U{000B}' || c == '\U{000C}' || c == '\r' || c == ' ' ||
    c == '\U{00A0}' || c == '\U{1680}' || ('\U{2000}' <= c <= '\U{200A}') ||
    c == '\U{2028}' || c == '\U{2029}' || c == '\U{202F}' || c == '\U{205F}' ||
    c == '\U{3000}' || c == '\U{FEFF}'
  }

  function TrimStart(s: string): string
  {
    if s != [] && IsTrimmed(s[0]) then TrimStart(s[1..]) else s
  }

  function TrimEnd(s: string): string
  {
    if s != [] && IsTrimmed(s[|s| - 1]) then TrimEnd(s[..|s| - 1]) else s
  }

  function Trim(s: string): string
  {
    TrimEnd(TrimStart(s))
  }

  /** `handleSubmit`: the checks of sign-up mode, then one call to the service. */
  function HandleSubmit(isLogin: bool, form: Form, serviceError: bool): Outcome
  {
    if isLogin then Sent(SignIn(form.email, form.password), !serviceError)
    else if Trim(form.firstName) == "" || Trim(form.lastName) == "" then Rejected(NamesRequired)
    else if form.accessCode != AccessCode(form.role) then Rejected(InvalidAccessCode)
    else if form.password != form.confirmPassword then Rejected(PasswordsDiffer)
    else Sent(SignUp(form.email, form.password, RoleName(form.role), form.firstName, form.lastName), !serviceError)
  }

  /**
   * The browser's `required` check over the inputs the mode shows: email and
   * password always, and in sign-up mode both names, the confirmation and the
   * access code. A required text input is missing only when it is empty;
   * white space fills it.
   */
  predicate RequiredFilled(isLogin: bool, form: Form)
  {
    form.email != "" && form.password != "" &&
    (isLogin || (form.firstName != "" && form.lastName != "" && form.confirmPassword != "" && form.accessCode != ""))
  }

  /**
   * A press of the submit button: the browser's constraint validation, then
   * `handleSubmit`. `emailValid` is the verdict of the `type="email"` syntax
   * check. `None` means the browser blocked the submission and the handler
   * never ran.
   */
  function Submit(isLogin: bool, form: Form, emailValid: bool, serviceError: bool): Option<Outcome>
  {
    if RequiredFilled(isLogin, form) && emailValid then Some(HandleSubmit(isLogin, form, serviceError)) else None
  }

  /** Whether `onSuccess` runs. */
  predicate CallsOnSuccess(outcome: Outcome)
  {
    outcome.Sent? && outcome.succeeded
  }

  // ---------------------------------------------------------------------------
  // Lemmas

  lemma {:induction false} TrimStartBlank(s: string)
    ensures TrimStart(s) == "" <==> forall i :: 0 <= i < |s| ==> IsTrimmed(s[i])
    ensures TrimStart(s) != "" ==> !IsTrimmed(TrimStart(s)[0])
  {
    if s != [] && IsTrimmed(s[0]) {
      TrimStartBlank(s[1..]);
      assert forall i :: 0 < i < |s| ==> s[i] == s[1..][i - 1];
    }
  }

  lemma {:induction false} TrimEndOfTrimmedStart(s: string)
    requires s != [] ==> !IsTrimmed(s[0])
    ensures TrimEnd(s) == "" <==> s == ""
  {
    if s != [] && IsTrimmed(s[|s| - 1]) {
      assert |s| >= 2;
      TrimEndOfTrimmedStart(s[..|s| - 1]);
    }
  }

  /** A name is refused exactly when it is nothing but white space (or empty). */
  lemma TrimEmptyIffBlank(s: string)
    ensures Trim(s) == "" <==> forall i :: 0 <= i < |s| ==> IsTrimmed(s[i])
  {
    TrimStartBlank(s);
    TrimEndOfTrimmedStart(TrimStart(s));
  }

  /** Logging in runs no local check: the sign-in call is always made, with the form's email and password. */
  lemma LoginNotValidated(form: Form, serviceError: bool)
    ensures HandleSubmit(true, form, serviceError) == Sent(SignIn(form.email, form.password), !serviceError)
  {
  }

  /**
   * The checks run in the order names, access code, password: a blank name is
   * reported whatever the code and passwords, and a wrong code whatever the
   * passwords.
   */
  lemma SignUpCheckOrder(form: Form, serviceError: bool)
    ensures (exists i :: 0 <= i < |form.firstName| && !IsTrimmed(form.firstName[i])) &&
            (exists i :: 0 <= i < |form.lastName| && !IsTrimmed(form.lastName[i])) ==>
              HandleSubmit(false, form, serviceError) != Rejected(NamesRequired)
    ensures (forall i :: 0 <= i < |form.firstName| ==> IsTrimmed(form.firstName[i])) ==>
      HandleSubmit(false, form, serviceError) == Rejected(NamesRequired)
    ensures Trim(form.firstName) != "" && Trim(form.lastName) != "" && form.accessCode != AccessCode(form.role) ==>
      HandleSubmit(false, form, serviceError) == Rejected(InvalidAccessCode)
    ensures Trim(form.firstName) != "" && Trim(form.lastName) != "" && form.accessCode == AccessCode(form.role) &&
            form.password != form.confirmPassword ==>
      HandleSubmit(false, form, serviceError) == Rejected(PasswordsDiffer)
  {
    TrimEmptyIffBlank(form.firstName);
    TrimEmptyIffBlank(form.lastName);
  }

  /**
   * A sign-up call is made exactly when all three checks pass, and it carries
   * the selected role and both names, untrimmed, as metadata.
   */
  lemma SignUpSentIff(form: Form, serviceError: bool)
    ensures HandleSubmit(false, form, serviceError).Sent? <==>
      (exists i :: 0 <= i < |form.firstName| && !IsTrimmed(form.firstName[i])) &&
      (exists i :: 0 <= i < |form.lastName| && !IsTrimmed(form.lastName[i])) &&
      form.accessCode == AccessCode(form.role) &&
      form.password == form.confirmPassword
    ensures HandleSubmit(false, form, serviceError).Sent? ==>
      HandleSubmit(false, form, serviceError).request ==
        SignUp(form.email, form.password, RoleName(form.role), form.firstName, form.lastName)
  {
    TrimEmptyIffBlank(form.firstName);
    TrimEmptyIffBlank(form.lastName);
  }

  /**
   * Through the browser, a login calls sign-in exactly when the email and
   * password are filled and the email passes the syntax check; otherwise
   * nothing at all happens.
   */
  lemma LoginSubmitted(form: Form, emailValid: bool, serviceError: bool)
    ensures Submit(true, form, emailValid, serviceError) ==
      if form.email != "" && form.password != "" && emailValid
      then Some(Sent(SignIn(form.email, form.password), !serviceError)) else None
  {
    LoginNotValidated(form, serviceError);
  }

  /**
   * Through the browser, a sign-up call is made exactly when the email and
   * password are filled, the email passes the syntax check and the handler's
   * three checks pass: the other required inputs are filled by those checks.
   */
  lemma SignUpSubmittedIff(form: Form, emailValid: bool, serviceError: bool)
    ensures (var r := Submit(false, form, emailValid, serviceError); r.Some? && r.value.Sent?) <==>
      form.email != "" && form.password != "" && emailValid &&
      (exists i :: 0 <= i < |form.firstName| && !IsTrimmed(form.firstName[i])) &&
      (exists i :: 0 <= i < |form.lastName| && !IsTrimmed(form.lastName[i])) &&
      form.accessCode == AccessCode(form.role) &&
      form.password == form.confirmPassword
  {
    SignUpSentIff(form, serviceError);
    if (exists i :: 0 <= i < |form.firstName| && !IsTrimmed(form.firstName[i])) &&
       (exists i :: 0 <= i < |form.lastName| && !IsTrimmed(form.lastName[i])) {
      assert form.firstName != "" && form.lastName != "";
    }
  }

  /**
   * A name of white space only fills its `required` input, so the browser lets
   * it through and it is the handler's own check that refuses it.
   */
  lemma BlankNamePassesBrowser(form: Form, emailValid: bool, serviceError: bool)
    requires form.firstName == " " && form.lastName != "" && form.email != "" && form.password != "" &&
             form.confirmPassword != "" && form.accessCode != "" && emailValid
    ensures Submit(false, form, emailValid, serviceError) == Some(Rejected(NamesRequired))
  {
    assert TrimStart(form.firstName[1..]) == "";
  }

  /** `onSuccess` runs only when a call was made and the service returned no error. */
  lemma OnSuccessOnlyWithoutError(isLogin: bool, form: Form, serviceError: bool)
    ensures CallsOnSuccess(HandleSubmit(isLogin, form, serviceError)) ==> !serviceError
    ensures isLogin ==> (CallsOnSuccess(HandleSubmit(isLogin, form, serviceError)) <==> !serviceError)
  {
  }
}
