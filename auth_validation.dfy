/** The client's copy of the authentication schemas and its `safeParse`
    wrappers (composables/useAuthValidation.ts).  The copy declares the same
    four schemas, with the same messages, as the server's; it is therefore
    not declared twice here: each wrapper applies the schema of AuthSchema
    and returns its outcome as a value, never by throwing. */
module AuthValidation {
  import opened Common
  import opened Zod
  import opened AuthSchema

  /** `validateLogin`: succeeds exactly on a valid e-mail and a password of
      six or more characters. */
  function ValidateLogin(data: LoginForm, isEmail: string -> bool): (r: Result<LoginInput, seq<Issue>>)
    ensures r.Ok? <==> EmailOk(data.email, isEmail) && PasswordOk(data.password)
    ensures r.Ok? ==> r.value == LoginInput(data.email.s, data.password.s)
    ensures r.Err? ==> r.error != [] && Fields(r.error) <= {"email", "password"}
  {
    LoginAccepts(data, isEmail);
    LoginIssueFields(data, isEmail);
    ParseLogin(data, isEmail)
  }

  /** `validateRegister`: succeeds exactly when, besides the login
      conditions, the confirmation equals the password. */
  function ValidateRegister(data: RegisterForm, isEmail: string -> bool): (r: Result<RegisterInput, seq<Issue>>)
    ensures r.Ok? <==> EmailOk(data.email, isEmail) && PasswordOk(data.password) && Confirms(data.password, data.confirmPassword)
    ensures r.Ok? ==> r.value == RegisterInput(data.email.s, data.password.s, data.confirmPassword.s)
    ensures r.Err? ==> r.error != [] && Fields(r.error) <= {"email", "password", "confirmPassword"}
  {
    RegisterAccepts(data, isEmail);
    RegisterIssueFields(data, isEmail);
    ParseRegister(data, isEmail)
  }

  /** `validateForgotPassword`: succeeds exactly on a valid e-mail. */
  function ValidateForgotPassword(data: ForgotForm, isEmail: string -> bool): (r: Result<ForgotInput, seq<Issue>>)
    ensures r.Ok? <==> EmailOk(data.email, isEmail)
    ensures r.Ok? ==> r.value == ForgotInput(data.email.s)
    ensures r.Err? ==> r.error != [] && Fields(r.error) <= {"email"}
  {
    ForgotAccepts(data, isEmail);
    ForgotIssueFields(data, isEmail);
    ParseForgot(data, isEmail)
  }

  /** `validateResetPassword`: succeeds exactly on a token, a new password of
      six or more characters and a matching confirmation. */
  function ValidateResetPassword(data: ResetForm): (r: Result<ResetInput, seq<Issue>>)
    ensures r.Ok? <==> data.token.Str? && PasswordOk(data.newPassword) && Confirms(data.newPassword, data.confirmPassword)
    ensures r.Ok? ==> r.value == ResetInput(data.token.s, data.newPassword.s, data.confirmPassword.s)
    ensures r.Err? ==> r.error != [] && Fields(r.error) <= {"token", "newPassword", "confirmPassword"}
  {
    ResetAccepts(data);
    ResetIssueFields(data);
    ParseReset(data)
  }
}
