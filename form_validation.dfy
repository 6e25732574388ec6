/** The form-level validation helpers (composables/useFormValidation.ts):
    each runs one authentication schema and folds its issues into an object
    from field name to message, for the form to show beside each field. */
module FormValidation {
  import opened Common
  import opened Zod
  import opened AuthSchema

  const FormField := "form"
  const FormError := "Wystąpił błąd walidacji"

  /** `{ success, errors }` */
  datatype FormResult = FormResult(success: bool, errors: map<string, Message>)

  /** How `schema.parse(data)` ends: with the parsed data, by throwing the
      validation error with its issues, or by throwing anything else. */
  datatype Outcome<T> = Returned(value: T) | ThrewIssues(issues: seq<Issue>) | ThrewOther(thrown: Thrown)

  /** `parse`: the data, or the issues thrown. */
  function Parse<T>(r: Result<T, seq<Issue>>): (o: Outcome<T>)
    ensures o.Returned? <==> r.Ok?
    ensures o.Returned? ==> o.value == r.value
    ensures r.Err? ==> o == ThrewIssues(r.error)
  {
    match r
    case Ok(v) => Returned(v)
    case Err(issues) => ThrewIssues(issues)
  }

  /** `issues.reduce((acc, curr) => ({ ...acc, [curr.path[0]]: curr.message }), {})`:
      a left fold, so a later issue on a field overwrites an earlier one. */
  function ErrorMap(issues: seq<Issue>): map<string, Message>
    decreases |issues|
  {
    if issues == [] then map[]
    else
      var last := issues[|issues| - 1];
      ErrorMap(issues[..|issues| - 1])[last.field := last.message]
  }

  /** The keys of the error object are exactly the fields of the issues. */
  lemma {:induction false} ErrorMapKeys(issues: seq<Issue>)
    ensures ErrorMap(issues).Keys == Fields(issues)
    decreases |issues|
  {
    if issues != [] {
      var init := issues[..|issues| - 1];
      ErrorMapKeys(init);
      forall f | f in Fields(issues) ensures f in ErrorMap(issues) {
        var i :| 0 <= i < |issues| && issues[i].field == f;
        if i < |init| {
          assert init[i] == issues[i];
        }
      }
      forall f | f in ErrorMap(issues) ensures f in Fields(issues) {
        if f != issues[|issues| - 1].field {
          var i :| 0 <= i < |init| && init[i].field == f;
          assert issues[i] == init[i];
        }
      }
    }
  }

  /** Each field shows the message of its last issue. */
  lemma {:induction false} ErrorMapLastWins(issues: seq<Issue>, i: int)
    requires 0 <= i < |issues|
    requires forall j :: i < j < |issues| ==> issues[j].field != issues[i].field
    ensures issues[i].field in ErrorMap(issues)
    ensures ErrorMap(issues)[issues[i].field] == issues[i].message
    decreases |issues|
  {
    var init := issues[..|issues| - 1];
    if i < |issues| - 1 {
      assert init[i] == issues[i];
      forall j | i < j < |init| ensures init[j].field != init[i].field {
        assert init[j] == issues[j];
      }
      ErrorMapLastWins(init, i);
    }
  }

  /** The `safeParse` shape of `validateLogin`. */
  function FromSafeParse<T>(r: Result<T, seq<Issue>>): (f: FormResult)
    ensures f.success <==> r.Ok?
    ensures f.success ==> f.errors == map[]
    ensures !f.success ==> f.errors.Keys == Fields(r.error)
  {
    if r.Ok? then FormResult(true, map[])
    else
      ErrorMapKeys(r.error);
      FormResult(false, ErrorMap(r.error))
  }

  /** The `try { schema.parse(data) } catch` shape of the other three: a
      validation error is folded, anything else becomes one form-wide
      message. */
  function Catching<T>(o: Outcome<T>): (f: FormResult)
    ensures f.success <==> o.Returned?
    ensures f.success ==> f.errors == map[]
    ensures o.ThrewIssues? ==> f.errors.Keys == Fields(o.issues)
    ensures o.ThrewOther? ==> f.errors == map[FormField := Given(FormError)]
  {
    match o
    case Returned(_) => FormResult(true, map[])
    case ThrewIssues(issues) =>
      ErrorMapKeys(issues);
      FormResult(false, ErrorMap(issues))
    case ThrewOther(_) => FormResult(false, map[FormField := Given(FormError)])
  }

  /** Catching what `parse` throws gives what `safeParse` returns. */
  lemma CatchingParseIsSafeParse<T>(r: Result<T, seq<Issue>>)
    ensures Catching(Parse(r)) == FromSafeParse(r)
  {
    if r.Err? {
      assert Parse(r) == ThrewIssues(r.error);
    }
  }

  function ValidateRegister(data: RegisterForm, isEmail: string -> bool): (f: FormResult)
    ensures f.success <==> EmailOk(data.email, isEmail) && PasswordOk(data.password) && Confirms(data.password, data.confirmPassword)
    ensures f.success ==> f.errors == map[]
    ensures !f.success ==> f.errors != map[] && f.errors.Keys <= {"email", "password", "confirmPassword"}
  {
    RegisterAccepts(data, isEmail);
    RegisterIssueFields(data, isEmail);
    var r := ParseRegister(data, isEmail);
    assert r.Err? ==> r.error[0].field in Fields(r.error);
    Catching(Parse(r))
  }

  /** The only helper that calls `safeParse`: it never shows the form-wide
      message. */
  function ValidateLogin(data: LoginForm, isEmail: string -> bool): (f: FormResult)
    ensures f.success <==> EmailOk(data.email, isEmail) && PasswordOk(data.password)
    ensures f.success ==> f.errors == map[]
    ensures !f.success ==> f.errors != map[] && f.errors.Keys <= {"email", "password"}
    ensures FormField !in f.errors
  {
    LoginAccepts(data, isEmail);
    LoginIssueFields(data, isEmail);
    var r := ParseLogin(data, isEmail);
    assert r.Err? ==> r.error[0].field in Fields(r.error);
    FromSafeParse(r)
  }

  function ValidateForgotPassword(data: ForgotForm, isEmail: string -> bool): (f: FormResult)
    ensures f.success <==> EmailOk(data.email, isEmail)
    ensures f.success ==> f.errors == map[]
    ensures !f.success ==> f.errors != map[] && f.errors.Keys <= {"email"}
  {
    ForgotAccepts(data, isEmail);
    ForgotIssueFields(data, isEmail);
    var r := ParseForgot(data, isEmail);
    assert r.Err? ==> r.error[0].field in Fields(r.error);
    Catching(Parse(r))
  }

  function ValidateResetPassword(data: ResetForm): (f: FormResult)
    ensures f.success <==> data.token.Str? && PasswordOk(data.newPassword) && Confirms(data.newPassword, data.confirmPassword)
    ensures f.success ==> f.errors == map[]
    ensures !f.success ==> f.errors != map[] && f.errors.Keys <= {"token", "newPassword", "confirmPassword"}
  {
    ResetAccepts(data);
    ResetIssueFields(data);
    var r := ParseReset(data);
    assert r.Err? ==> r.error[0].field in Fields(r.error);
    Catching(Parse(r))
  }

  /** Two passwords that differ, in a form of strings, show the mismatch
      message beside the confirmation. */
  lemma RegisterMismatchShown(data: RegisterForm, isEmail: string -> bool)
    requires data.email.Str? && data.password.Str? && data.confirmPassword.Str?
    requires data.password.s != data.confirmPassword.s
    ensures !ValidateRegister(data, isEmail).success
    ensures "confirmPassword" in ValidateRegister(data, isEmail).errors
    ensures ValidateRegister(data, isEmail).errors["confirmPassword"] == Given(PasswordsDiffer)
  {
    RegisterMismatchReported(data, isEmail);
    var e := ParseRegister(data, isEmail).error;
    ErrorMapLastWins(e, |e| - 1);
  }

  /** The same for the reset form. */
  lemma ResetMismatchShown(data: ResetForm)
    requires data.token.Str? && data.newPassword.Str? && data.confirmPassword.Str?
    requires data.newPassword.s != data.confirmPassword.s
    ensures !ValidateResetPassword(data).success
    ensures "confirmPassword" in ValidateResetPassword(data).errors
    ensures ValidateResetPassword(data).errors["confirmPassword"] == Given(PasswordsDiffer)
  {
    ResetMismatchReported(data);
    var e := ParseReset(data).error;
    ErrorMapLastWins(e, |e| - 1);
  }
}
