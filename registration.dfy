/** The registration screen: five text fields, the rules that validate them, the
    field-to-message error map, and the screen's state (form values and displayed
    errors) with its input-change, validate and register handlers. */
module Registration {
  import opened FormRules

  datatype Field = Username | Email | Mobile | Password | ConfirmPassword

  datatype Form = Form(username: string, email: string, mobile: string,
                       password: string, confirmPassword: string)

  /** The form as the screen first shows it. */
  const EmptyForm := Form("", "", "", "", "")

  function Get(f: Form, field: Field): string {
    match field
    case Username => f.username
    case Email => f.email
    case Mobile => f.mobile
    case Password => f.password
    case ConfirmPassword => f.confirmPassword
  }

  /** `{...prev, [field]: value}`: exactly one field takes the new value. */
  function With(f: Form, field: Field, value: string): (r: Form)
    ensures Get(r, field) == value
    ensures forall g :: g != field ==> Get(r, g) == Get(f, g)
  {
    match field
    case Username => f.(username := value)
    case Email => f.(email := value)
    case Mobile => f.(mobile := value)
    case Password => f.(password := value)
    case ConfirmPassword => f.(confirmPassword := value)
  }

  // ---------------------------------------------------------------------------
  // What each field must satisfy, stated without trim or regular expressions
  // ---------------------------------------------------------------------------

  /** At least one non-whitespace character, and at least three characters
      counted on the raw, untrimmed value. */
  predicate UsernameAccepted(u: string) {
    |u| >= 3 && exists i :: 0 <= i < |u| && !IsWs(u[i])
  }

  predicate IsDigit(c: char) {
    '0' <= c <= '9'
  }

  /** Exactly ten ASCII digits: the pattern `^[0-9]{10}$`. */
  predicate MobileAccepted(m: string) {
    |m| == 10 && forall i :: 0 <= i < |m| ==> IsDigit(m[i])
  }

  predicate ConfirmAccepted(p: string, c: string) {
    c != [] && c == p
  }

  ghost predicate AllAccepted(f: Form) {
    UsernameAccepted(f.username) && MatchesEmailRegex(f.email) && MobileAccepted(f.mobile)
    && PasswordAccepted(f.password) && ConfirmAccepted(f.password, f.confirmPassword)
  }

  // ---------------------------------------------------------------------------
  // The per-field rules as the screen evaluates them
  // ---------------------------------------------------------------------------

  /** "required" when the trimmed value is empty, otherwise "too short" when the
      raw value has fewer than three characters. */
  function UsernameError(u: string): (r: Option<Message>)
    ensures r.None? <==> UsernameAccepted(u)
    ensures r == Some(UsernameRequired) <==> AllWs(u)
    ensures r.Some? && r != Some(UsernameRequired) ==> r == Some(UsernameTooShort)
  {
    if Trim(u) == [] then
      Some(UsernameRequired)
    else if |u| < 3 then
      Some(UsernameTooShort)
    else
      None
  }

  /** "required" when the trimmed value is empty, otherwise "invalid" unless it
      is exactly ten digits. */
  function MobileError(m: string): (r: Option<Message>)
    ensures r.None? <==> MobileAccepted(m)
    ensures r == Some(MobileRequired) <==> AllWs(m)
    ensures r.Some? && r != Some(MobileRequired) ==> r == Some(MobileInvalid)
  {
    if Trim(m) == [] then
      Some(MobileRequired)
    else if !MobileAccepted(m) then
      Some(MobileInvalid)
    else
      None
  }

  /** "required" when the confirmation is empty, otherwise "mismatch" unless it
      equals the password exactly. */
  function ConfirmError(p: string, c: string): (r: Option<Message>)
    ensures r.None? <==> ConfirmAccepted(p, c)
    ensures r == Some(ConfirmRequired) <==> c == []
    ensures r.Some? && r != Some(ConfirmRequired) ==> r == Some(ConfirmMismatch) && c != p
  {
    if c == [] then
      Some(ConfirmRequired)
    else if p != c then
      Some(ConfirmMismatch)
    else
      None
  }

  /** `newErrors[field] = message` when a rule produced a message. */
  function Put(errs: map<Field, string>, field: Field, e: Option<Message>): map<Field, string> {
    if e.Some? then errs[field := Text(e.value)] else errs
  }

  /** The map the five conditional assignments build from the rules' outcomes. */
  function ErrorMap(u: Option<Message>, e: Option<Message>, m: Option<Message>,
                    p: Option<Message>, c: Option<Message>): (errs: map<Field, string>)
    ensures Username in errs <==> u.Some?
    ensures Email in errs <==> e.Some?
    ensures Mobile in errs <==> m.Some?
    ensures Password in errs <==> p.Some?
    ensures ConfirmPassword in errs <==> c.Some?
    ensures u.Some? ==> errs[Username] == Text(u.value)
    ensures e.Some? ==> errs[Email] == Text(e.value)
    ensures m.Some? ==> errs[Mobile] == Text(m.value)
    ensures p.Some? ==> errs[Password] == Text(p.value)
    ensures c.Some? ==> errs[ConfirmPassword] == Text(c.value)
    ensures forall field :: field in errs ==> Shown(errs, field)
  {
    var e1 := Put(map[], Username, u);
    var e2 := Put(e1, Email, e);
    var e3 := Put(e2, Mobile, m);
    var e4 := Put(e3, Password, p);
    Put(e4, ConfirmPassword, c)
  }

  /** The error map one validation pass produces. Every rule runs: a field has
      an entry exactly when its own rule fails, whatever the other fields hold,
      and every entry is a displayed (non-empty) message. */
  function Errors(f: Form): (errs: map<Field, string>)
    ensures Username in errs <==> !UsernameAccepted(f.username)
    ensures Email in errs <==> !MatchesEmailRegex(f.email)
    ensures Mobile in errs <==> !MobileAccepted(f.mobile)
    ensures Password in errs <==> !PasswordAccepted(f.password)
    ensures ConfirmPassword in errs <==> !ConfirmAccepted(f.password, f.confirmPassword)
    ensures Username in errs ==> errs[Username] == Text(UsernameError(f.username).value)
    ensures Email in errs ==> errs[Email] == Text(EmailError(f.email).value)
    ensures Mobile in errs ==> errs[Mobile] == Text(MobileError(f.mobile).value)
    ensures Password in errs ==> errs[Password] == Text(PasswordError(f.password).value)
    ensures ConfirmPassword in errs ==>
      errs[ConfirmPassword] == Text(ConfirmError(f.password, f.confirmPassword).value)
    ensures forall field :: field in errs ==> Shown(errs, field)
  {
    ErrorMap(UsernameError(f.username), EmailError(f.email), MobileError(f.mobile),
             PasswordError(f.password), ConfirmError(f.password, f.confirmPassword))
  }

  /** A validation pass reports success exactly when all five rules pass. */
  lemma ValidIffAllRulesPass(f: Form)
    ensures Errors(f) == map[] <==> AllAccepted(f)
  {
  }

  /** Whitespace-only input is reported as missing, not as too short or invalid. */
  lemma BlankFieldsAreRequired(f: Form)
    requires AllWs(f.username) && AllWs(f.email) && AllWs(f.mobile)
    requires f.password == [] && f.confirmPassword == []
    ensures Errors(f) == map[Username := Text(UsernameRequired), Email := Text(EmailRequired),
                             Mobile := Text(MobileRequired), Password := Text(PasswordRequired),
                             ConfirmPassword := Text(ConfirmRequired)]
  {
  }

  /** The length check looks at the raw value: two spaces and one letter pass. */
  lemma PaddedUsernamePasses()
    ensures UsernameError("  a") == None
  {
  }

  // ---------------------------------------------------------------------------
  // The screen's state
  // ---------------------------------------------------------------------------

  class RegisterScreen {
    var form: Form
    var errors: map<Field, string>

    constructor ()
      ensures form == EmptyForm && errors == map[]
    {
      form := EmptyForm;
      errors := map[];
    }

    /** Typing into `field`: its value is replaced and, if it had a displayed
        error, that error is blanked. */
    method HandleInputChange(field: Field, value: string)
      modifies this
      ensures form == With(old(form), field, value)
      ensures errors == ClearError(old(errors), field)
    {
      form := With(form, field, value);
      if Shown(errors, field) {
        errors := errors[field := ""];
      }
    }

    /** Runs all five rules, replaces the error map wholesale and reports
        whether it came out empty; the form itself is untouched. */
    method ValidateForm() returns (valid: bool)
      modifies this`errors
      ensures errors == Errors(form)
      ensures valid <==> AllAccepted(form)
    {
      var username, email, mobile := form.username, form.email, form.mobile;
      var password, confirmPassword := form.password, form.confirmPassword;
      var newErrors: map<Field, string> := map[];
      newErrors := Put(newErrors, Username, UsernameError(username));
      newErrors := Put(newErrors, Email, EmailError(email));
      newErrors := Put(newErrors, Mobile, MobileError(mobile));
      newErrors := Put(newErrors, Password, PasswordError(password));
      newErrors := Put(newErrors, ConfirmPassword, ConfirmError(password, confirmPassword));

      assert newErrors == ErrorMap(UsernameError(username), EmailError(email), MobileError(mobile),
                                   PasswordError(password), ConfirmError(password, confirmPassword));
      assert newErrors == Errors(form);
      errors := newErrors;
      valid := |newErrors.Keys| == 0;
      NoKeysIffEmpty(newErrors);
      ValidIffAllRulesPass(form);
    }

    /** Submitting: the registration is accepted exactly when validation passes;
        the entered values are kept either way. */
    method HandleRegister() returns (accepted: bool)
      modifies this`errors
      ensures errors == Errors(form)
      ensures accepted <==> AllAccepted(form)
    {
      accepted := ValidateForm();
    }
  }
}
