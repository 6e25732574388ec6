/** The schemas of the four authentication forms
    (server/validation/auth.schema.ts): a valid e-mail address, a password of
    at least six characters, and for registration and reset a confirmation
    that must equal the password.  The e-mail syntax is a parameter. */
module AuthSchema {
  import opened Common
  import opened Zod

  const MinPassword := 6
  const EmailRequired := "Email jest wymagany"
  const EmailInvalid := "Podaj poprawny adres e-mail"
  const PasswordRequired := "Hasło jest wymagane"
  const PasswordTooShort := "Hasło musi mieć co najmniej 6 znaków"
  const ConfirmRequired := "Potwierdzenie hasła jest wymagane"
  const PasswordsDiffer := "Hasła nie są identyczne"

  /** The submitted forms, field by field. */
  datatype LoginForm = LoginForm(email: Value, password: Value)
  datatype RegisterForm = RegisterForm(email: Value, password: Value, confirmPassword: Value)
  datatype ForgotForm = ForgotForm(email: Value)
  datatype ResetForm = ResetForm(token: Value, newPassword: Value, confirmPassword: Value)

  /** What each schema parses a form to. */
  datatype LoginInput = LoginInput(email: string, password: string)
  datatype RegisterInput = RegisterInput(email: string, password: string, confirmPassword: string)
  datatype ForgotInput = ForgotInput(email: string)
  datatype ResetInput = ResetInput(token: string, newPassword: string, confirmPassword: string)

  function EmailChecks(isEmail: string -> bool): string -> seq<Issue>
  {
    s => FormatCheck("email", s, isEmail, Given(EmailInvalid))
  }

  function PasswordChecks(field: string): string -> seq<Issue>
  {
    s => MinCheck(field, s, MinPassword, Given(PasswordTooShort))
  }

  /** `emailSchema` */
  function EmailField(v: Value, isEmail: string -> bool): (r: Checked<string>)
    ensures r.aborted <==> !v.Str?
    ensures r.issues == [] <==> v.Str? && isEmail(v.s)
    ensures v.Str? && !isEmail(v.s) ==> r.issues == [Issue("email", InvalidString, Given(EmailInvalid))]
    ensures v.Missing? ==> r.issues == [Issue("email", InvalidType, Given(EmailRequired))]
    ensures forall i :: 0 <= i < |r.issues| ==> r.issues[i].field == "email"
  {
    var r := StringField("email", v, Some(EmailRequired), EmailChecks(isEmail));
    assert v.Str? ==> r.issues == FormatCheck("email", v.s, isEmail, Given(EmailInvalid));
    r
  }

  /** `passwordSchema`, under the name of the field it checks. */
  function PasswordField(field: string, v: Value): (r: Checked<string>)
    ensures r.aborted <==> !v.Str?
    ensures r.issues == [] <==> v.Str? && |v.s| >= MinPassword
    ensures v.Str? && |v.s| < MinPassword ==> r.issues == [Issue(field, TooSmall, Given(PasswordTooShort))]
    ensures v.Missing? ==> r.issues == [Issue(field, InvalidType, Given(PasswordRequired))]
    ensures forall i :: 0 <= i < |r.issues| ==> r.issues[i].field == field
  {
    var r := StringField(field, v, Some(PasswordRequired), PasswordChecks(field));
    assert v.Str? ==> r.issues == MinCheck(field, v.s, MinPassword, Given(PasswordTooShort));
    r
  }

  /** `z.string({ required_error: 'Potwierdzenie hasła jest wymagane' })` */
  function ConfirmField(v: Value): Checked<string>
  {
    StringField("confirmPassword", v, Some(ConfirmRequired), NoChecks)
  }

  predicate EmailOk(v: Value, isEmail: string -> bool)
  {
    v.Str? && isEmail(v.s)
  }

  predicate PasswordOk(v: Value)
  {
    v.Str? && |v.s| >= MinPassword
  }

  /** The confirmation is a string equal to the password. */
  predicate Confirms(password: Value, confirm: Value)
  {
    password.Str? && confirm.Str? && confirm.s == password.s
  }

  // ---------------------------------------------------------------------------
  // The four schemas, as `safeParse`
  // ---------------------------------------------------------------------------

  function ParseLogin(f: LoginForm, isEmail: string -> bool): Result<LoginInput, seq<Issue>>
  {
    var email := EmailField(f.email, isEmail);
    var password := PasswordField("password", f.password);
    Finish(email.issues + password.issues, LoginInput(email.value, password.value))
  }

  function ParseForgot(f: ForgotForm, isEmail: string -> bool): Result<ForgotInput, seq<Issue>>
  {
    var email := EmailField(f.email, isEmail);
    Finish(email.issues, ForgotInput(email.value))
  }

  /** The refinement compares the two passwords only when every field is a
      string; it reports on `confirmPassword`. */
  function ParseRegister(f: RegisterForm, isEmail: string -> bool): Result<RegisterInput, seq<Issue>>
  {
    var email := EmailField(f.email, isEmail);
    var password := PasswordField("password", f.password);
    var confirm := ConfirmField(f.confirmPassword);
    var aborted := email.aborted || password.aborted || confirm.aborted;
    var refine := Refine(aborted, password.value == confirm.value, "confirmPassword", PasswordsDiffer);
    Finish(email.issues + password.issues + confirm.issues + refine,
           RegisterInput(email.value, password.value, confirm.value))
  }

  function ParseReset(f: ResetForm): Result<ResetInput, seq<Issue>>
  {
    var token := StringField("token", f.token, None, NoChecks);
    var password := PasswordField("newPassword", f.newPassword);
    var confirm := ConfirmField(f.confirmPassword);
    var aborted := token.aborted || password.aborted || confirm.aborted;
    var refine := Refine(aborted, password.value == confirm.value, "confirmPassword", PasswordsDiffer);
    Finish(token.issues + password.issues + confirm.issues + refine,
           ResetInput(token.value, password.value, confirm.value))
  }

  // ---------------------------------------------------------------------------
  // What each schema accepts
  // ---------------------------------------------------------------------------

  /** Login accepts exactly a valid e-mail with a password of six or more
      characters, and yields the two strings as given. */
  lemma LoginAccepts(f: LoginForm, isEmail: string -> bool)
    ensures ParseLogin(f, isEmail).Ok? <==> EmailOk(f.email, isEmail) && PasswordOk(f.password)
    ensures ParseLogin(f, isEmail).Ok? ==> ParseLogin(f, isEmail).value == LoginInput(f.email.s, f.password.s)
  {
  }

  /** Six characters are enough and five are not: the only issue a
      five-character password then draws is the length message. */
  lemma PasswordBoundary(email: string, password: string, isEmail: string -> bool)
    requires isEmail(email)
    ensures |password| == 6 ==> ParseLogin(LoginForm(Str(email), Str(password)), isEmail).Ok?
    ensures |password| == 5 ==>
      ParseLogin(LoginForm(Str(email), Str(password)), isEmail) == Err([Issue("password", TooSmall, Given(PasswordTooShort))])
  {
    if |password| == 5 {
      var email := EmailField(Str(email), isEmail);
      assert email.issues == [];
      assert email.issues + [Issue("password", TooSmall, Given(PasswordTooShort))]
          == [Issue("password", TooSmall, Given(PasswordTooShort))];
    }
  }

  /** An empty login form draws the two "required" messages, in field order. */
  lemma EmptyLoginMessages(isEmail: string -> bool)
    ensures ParseLogin(LoginForm(Missing, Missing), isEmail) ==
      Err([Issue("email", InvalidType, Given(EmailRequired)), Issue("password", InvalidType, Given(PasswordRequired))])
  {
    var e := EmailField(Missing, isEmail).issues;
    var p := PasswordField("password", Missing).issues;
    assert e + p == [Issue("email", InvalidType, Given(EmailRequired)), Issue("password", InvalidType, Given(PasswordRequired))];
  }

  /** Forgot-password needs only a valid e-mail. */
  lemma ForgotAccepts(f: ForgotForm, isEmail: string -> bool)
    ensures ParseForgot(f, isEmail).Ok? <==> EmailOk(f.email, isEmail)
    ensures ParseForgot(f, isEmail).Ok? ==> ParseForgot(f, isEmail).value == ForgotInput(f.email.s)
  {
  }

  /** Registration accepts exactly the login conditions plus a confirmation
      equal to the password. */
  lemma RegisterAccepts(f: RegisterForm, isEmail: string -> bool)
    ensures ParseRegister(f, isEmail).Ok? <==>
      EmailOk(f.email, isEmail) && PasswordOk(f.password) && Confirms(f.password, f.confirmPassword)
    ensures ParseRegister(f, isEmail).Ok? ==>
      ParseRegister(f, isEmail).value == RegisterInput(f.email.s, f.password.s, f.confirmPassword.s)
  {
  }

  /** When every field is a string and the two passwords differ, the last
      issue is the mismatch, on `confirmPassword`, whatever else is wrong. */
  lemma RegisterMismatchReported(f: RegisterForm, isEmail: string -> bool)
    requires f.email.Str? && f.password.Str? && f.confirmPassword.Str?
    requires f.password.s != f.confirmPassword.s
    ensures ParseRegister(f, isEmail).Err?
    ensures var e := ParseRegister(f, isEmail).error;
            e != [] && e[|e| - 1] == Issue("confirmPassword", Custom, Given(PasswordsDiffer))
  {
    var email := EmailField(f.email, isEmail);
    var password := PasswordField("password", f.password);
    var confirm := ConfirmField(f.confirmPassword);
    var all := email.issues + password.issues + confirm.issues + [Issue("confirmPassword", Custom, Given(PasswordsDiffer))];
    assert all[|all| - 1] == Issue("confirmPassword", Custom, Given(PasswordsDiffer));
  }

  /** A field that is not a string at all stops the comparison: the mismatch
      is then never reported. */
  lemma RegisterAbortSkipsMismatch(f: RegisterForm, isEmail: string -> bool)
    requires !f.email.Str? || !f.password.Str? || !f.confirmPassword.Str?
    ensures ParseRegister(f, isEmail).Err?
    ensures Issue("confirmPassword", Custom, Given(PasswordsDiffer)) !in ParseRegister(f, isEmail).error
  {
    var email := EmailField(f.email, isEmail);
    var password := PasswordField("password", f.password);
    var confirm := ConfirmField(f.confirmPassword);
    assert forall i :: 0 <= i < |email.issues| ==> email.issues[i].code != Custom;
    assert forall i :: 0 <= i < |password.issues| ==> password.issues[i].code != Custom;
  }

  /** Reset accepts exactly a token string, a new password of six or more
      characters and a confirmation equal to it. */
  lemma ResetAccepts(f: ResetForm)
    ensures ParseReset(f).Ok? <==>
      f.token.Str? && PasswordOk(f.newPassword) && Confirms(f.newPassword, f.confirmPassword)
    ensures ParseReset(f).Ok? ==>
      ParseReset(f).value == ResetInput(f.token.s, f.newPassword.s, f.confirmPassword.s)
  {
  }

  /** As for registration, a mismatch between the new password and its
      confirmation is the last issue, on `confirmPassword`. */
  lemma ResetMismatchReported(f: ResetForm)
    requires f.token.Str? && f.newPassword.Str? && f.confirmPassword.Str?
    requires f.newPassword.s != f.confirmPassword.s
    ensures ParseReset(f).Err?
    ensures var e := ParseReset(f).error;
            e != [] && e[|e| - 1] == Issue("confirmPassword", Custom, Given(PasswordsDiffer))
  {
    var password := PasswordField("newPassword", f.newPassword);
    var all := [] + password.issues + [] + [Issue("confirmPassword", Custom, Given(PasswordsDiffer))];
    assert all[|all| - 1] == Issue("confirmPassword", Custom, Given(PasswordsDiffer));
  }

  /** Every issue of the login schema is about `email` or `password`. */
  lemma LoginIssueFields(f: LoginForm, isEmail: string -> bool)
    ensures ParseLogin(f, isEmail).Err? ==> Fields(ParseLogin(f, isEmail).error) <= {"email", "password"}
  {
  }

  /** Every issue of the forgot-password schema is about `email`. */
  lemma ForgotIssueFields(f: ForgotForm, isEmail: string -> bool)
    ensures ParseForgot(f, isEmail).Err? ==> Fields(ParseForgot(f, isEmail).error) <= {"email"}
  {
  }

  /** Every issue of the register schema is about one of its three fields. */
  lemma RegisterIssueFields(f: RegisterForm, isEmail: string -> bool)
    ensures ParseRegister(f, isEmail).Err? ==>
      Fields(ParseRegister(f, isEmail).error) <= {"email", "password", "confirmPassword"}
  {
    assert forall i :: 0 <= i < |ConfirmField(f.confirmPassword).issues| ==>
      ConfirmField(f.confirmPassword).issues[i].field == "confirmPassword";
  }

  /** Every issue of the reset schema is about one of its three fields. */
  lemma ResetIssueFields(f: ResetForm)
    ensures ParseReset(f).Err? ==> Fields(ParseReset(f).error) <= {"token", "newPassword", "confirmPassword"}
  {
    assert forall i :: 0 <= i < |ConfirmField(f.confirmPassword).issues| ==>
      ConfirmField(f.confirmPassword).issues[i].field == "confirmPassword";
    assert forall i :: 0 <= i < |StringField("token", f.token, None, NoChecks).issues| ==>
      StringField("token", f.token, None, NoChecks).issues[i].field == "token";
  }
}
