/** The login screen: the e-mail and password fields, their validation (the
    same two rules the registration screen applies), the sign-in button's
    disabled state, and the loading flag raised for the duration of a
    submission. */
module Login {
  import opened FormRules

  datatype Field = Email | Password

  datatype Form = Form(email: string, password: string)

  const EmptyForm := Form("", "")

  /** How a submission that got past validation ended: the success alert, or
      the failure alert shown when the awaited call throws. */
  datatype Outcome = LoginSucceeded | LoginFailed

  /** `{...prev, [field]: value}`: exactly one field takes the new value. */
  function With(f: Form, field: Field, value: string): (r: Form)
    ensures field == Email ==> r.email == value && r.password == f.password
    ensures field == Password ==> r.password == value && r.email == f.email
  {
    match field
    case Email => f.(email := value)
    case Password => f.(password := value)
  }

  /** `newErrors[field] = message` when a rule produced a message. */
  function Put(errs: map<Field, string>, field: Field, e: Option<Message>): map<Field, string> {
    if e.Some? then errs[field := Text(e.value)] else errs
  }

  /** The map the two conditional assignments build from the rules' outcomes. */
  function ErrorMap(e: Option<Message>, p: Option<Message>): (errs: map<Field, string>)
    ensures Email in errs <==> e.Some?
    ensures Password in errs <==> p.Some?
    ensures e.Some? ==> errs[Email] == Text(e.value)
    ensures p.Some? ==> errs[Password] == Text(p.value)
    ensures forall field :: field in errs ==> Shown(errs, field)
  {
    Put(Put(map[], Email, e), Password, p)
  }

  /** The error map one validation pass produces: each field has an entry
      exactly when its own rule fails, and every entry is a displayed message. */
  function Errors(f: Form): (errs: map<Field, string>)
    ensures Email in errs <==> !MatchesEmailRegex(f.email)
    ensures Password in errs <==> !PasswordAccepted(f.password)
    ensures Email in errs ==> errs[Email] == Text(EmailError(f.email).value)
    ensures Password in errs ==> errs[Password] == Text(PasswordError(f.password).value)
    ensures forall field :: field in errs ==> Shown(errs, field)
  {
    ErrorMap(EmailError(f.email), PasswordError(f.password))
  }

  /** A validation pass reports success exactly when the e-mail matches the
      pattern and the password has at least six characters. */
  lemma ValidIffBothRulesPass(f: Form)
    ensures Errors(f) == map[] <==> MatchesEmailRegex(f.email) && PasswordAccepted(f.password)
  {
  }

  /** `disabled={isLoading || !formData.email || !formData.password}`: while a
      submission is in flight the button is always disabled. */
  function SubmitDisabled(isLoading: bool, f: Form): (d: bool)
    ensures isLoading ==> d
  {
    isLoading || f.email == [] || f.password == []
  }

  /** An idle screen whose form would pass validation always has the button
      enabled: the button's test is weaker than validation. */
  lemma ValidFormEnablesButton(f: Form)
    ensures Errors(f) == map[] ==> !SubmitDisabled(false, f)
  {
    if Errors(f) == map[] {
      ValidIffBothRulesPass(f);
      ValidEmailShape(f.email);
    }
  }

  /** The button looks at the raw e-mail, validation at the trimmed one: an
      e-mail of spaces enables the button and is then rejected as missing. */
  lemma BlankEmailEnablesButtonButIsRequired(f: Form)
    requires f.email != [] && AllWs(f.email)
    requires PasswordAccepted(f.password)
    ensures !SubmitDisabled(false, f)
    ensures Errors(f) == map[Email := Text(EmailRequired)]
  {
  }

  class LoginScreen {
    var form: Form
    var errors: map<Field, string>
    var isLoading: bool

    constructor ()
      ensures form == EmptyForm && errors == map[] && !isLoading
    {
      form := EmptyForm;
      errors := map[];
      isLoading := false;
    }

    /** Typing into `field`: its value is replaced and, if it had a displayed
        error, that error is blanked; the loading flag is untouched. */
    method HandleInputChange(field: Field, value: string)
      modifies this`form, this`errors
      ensures form == With(old(form), field, value)
      ensures errors == ClearError(old(errors), field)
    {
      form := With(form, field, value);
      if Shown(errors, field) {
        errors := errors[field := ""];
      }
    }

    /** Runs both rules, replaces the error map wholesale and reports whether it
        came out empty; the form and the loading flag are untouched. */
    method ValidateForm() returns (valid: bool)
      modifies this`errors
      ensures errors == Errors(form)
      ensures valid <==> errors == map[]
      ensures valid <==> MatchesEmailRegex(form.email) && PasswordAccepted(form.password)
    {
      var email, password := form.email, form.password;
      var newErrors: map<Field, string> := map[];
      newErrors := Put(newErrors, Email, EmailError(email));
      newErrors := Put(newErrors, Password, PasswordError(password));
      errors := newErrors;
      valid := |newErrors.Keys| == 0;
      NoKeysIffEmpty(newErrors);
      ValidIffBothRulesPass(form);
    }

    /** The first half of handleLogin, up to the awaited call: validation, and
        the loading flag raised only when it passes. */
    method BeginLogin() returns (started: bool)
      modifies this`errors, this`isLoading
      ensures errors == Errors(form)
      ensures started <==> Errors(form) == map[]
      ensures isLoading == (started || old(isLoading))
    {
      started := ValidateForm();
      ghost var validation := errors;
      if started {
        isLoading := true;
      }
      assert errors == validation;
    }

    /** The second half of handleLogin: the awaited call either returned or
        threw, and in both cases the `finally` lowers the loading flag. */
    method FinishLogin(threw: bool) returns (outcome: Outcome)
      modifies this`isLoading
      ensures !isLoading
      ensures outcome == (if threw then LoginFailed else LoginSucceeded)
    {
      if threw {
        outcome := LoginFailed;
      } else {
        outcome := LoginSucceeded;
      }
      isLoading := false;
    }

    /** handleLogin as a whole: a submission that fails validation changes
        nothing but the error map; one that passes ends with the loading flag
        lowered again, whether the awaited call threw or not. */
    method HandleLogin(threw: bool) returns (outcome: Option<Outcome>)
      modifies this`errors, this`isLoading
      ensures errors == Errors(form)
      ensures outcome.Some? <==> Errors(form) == map[]
      ensures outcome.None? ==> isLoading == old(isLoading)
      ensures outcome.Some? ==> !isLoading && outcome.value == (if threw then LoginFailed else LoginSucceeded)
    {
      var started := BeginLogin();
      ghost var validation := errors;
      if started {
        var o := FinishLogin(threw);
        outcome := Some(o);
      } else {
        outcome := None;
      }
      assert errors == validation;
    }

    /** Pressing the sign-in button: a disabled button does nothing at all. */
    method PressSignIn(threw: bool) returns (outcome: Option<Outcome>)
      modifies this`errors, this`isLoading
      ensures old(SubmitDisabled(isLoading, form)) ==> outcome == None && unchanged(this)
      ensures !old(SubmitDisabled(isLoading, form)) ==>
        errors == Errors(form) && (outcome.Some? <==> Errors(form) == map[]) && !isLoading
        && (outcome.Some? ==> outcome.value == (if threw then LoginFailed else LoginSucceeded))
    {
      if SubmitDisabled(isLoading, form) {
        outcome := None;
      } else {
        outcome := HandleLogin(threw);
      }
    }
  }
}
