/** The sign-in / registration form (src/pages/AuthPage.tsx): the fields are checked before the
    provider is called, and the error line shows why a submit was refused. */
module AuthPage {
  import opened AuthContext

  datatype Mode = LoginMode | RegisterMode

  const FillAllFields: string := "Пожалуйста, заполните все поля"
  const PasswordTooShort: string := "Пароль должен содержать не менее 6 символов"
  const MinPasswordLength: nat := 6

  /** What a submit does: refuse with an error, or call `login` or `register`. */
  datatype SubmitOutcome = Rejected(error: string) | CallLogin | CallRegister

  /** The checks of `handleSubmit`: in login mode both email and password must be non-empty; in
      register mode name, email and password must be non-empty, and only then is the password's
      length checked. */
  function CheckSubmit(mode: Mode, name: string, email: string, password: string): (r: SubmitOutcome)
    ensures r == CallLogin <==> mode == LoginMode && email != "" && password != ""
    ensures r == CallRegister <==>
              mode == RegisterMode && name != "" && email != "" && password != "" && |password| >= MinPasswordLength
    ensures r == Rejected(PasswordTooShort) <==>
              mode == RegisterMode && name != "" && email != "" && password != "" && |password| < MinPasswordLength
    ensures r.Rejected? ==> r.error == FillAllFields || r.error == PasswordTooShort
  {
    match mode
    case LoginMode =>
      if email == "" || password == "" then Rejected(FillAllFields) else CallLogin
    case RegisterMode =>
      if name == "" || email == "" || password == "" then Rejected(FillAllFields)
      else if |password| < MinPasswordLength then Rejected(PasswordTooShort)
      else CallRegister
  }

  /** The form's state. */
  class AuthForm {
    var mode: Mode
    var email: string
    var password: string
    var name: string
    var error: string

    /** The form opens in login mode with empty fields and no error. */
    constructor()
      ensures mode == LoginMode && email == "" && password == "" && name == "" && error == ""
    {
      mode := LoginMode;
      email := "";
      password := "";
      name := "";
      error := "";
    }

    /** `handleSubmit`: the error is cleared, then either set by a failed check or left empty while
        the provider's `login` or `register` runs once. `newId` is the id `register` would give the
        new account. */
    method Submit(auth: AuthService, newId: string)
      modifies this`error, auth
      ensures var outcome := CheckSubmit(mode, name, email, password);
        && error == (if outcome.Rejected? then outcome.error else "")
        && auth.State() == match outcome
             case Rejected(_) => old(auth.State())
             case CallLogin => LoginStep(old(auth.State()), email, password)
             case CallRegister => RegisterStep(old(auth.State()), name, email, password, newId)
    {
      error := "";
      if mode == LoginMode {
        if email == "" || password == "" {
          error := FillAllFields;
          return;
        }
        auth.Login(email, password);
      } else {
        if name == "" || email == "" || password == "" {
          error := FillAllFields;
          return;
        }
        if |password| < MinPasswordLength {
          error := PasswordTooShort;
          return;
        }
        auth.Register(name, email, password, newId);
      }
    }

    /** `toggleMode`: the other mode, and no error. */
    method ToggleMode()
      modifies this`mode, this`error
      ensures mode == (if old(mode) == LoginMode then RegisterMode else LoginMode)
      ensures error == ""
    {
      mode := if mode == LoginMode then RegisterMode else LoginMode;
      error := "";
    }
  }
}
