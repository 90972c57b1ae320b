/**
 * The guard chains of the sign-up and login forms: the first failing check
 * reports its error and stops; only a form passing every check calls the
 * authentication hook.
 */
module AuthForms {
  import opened Domain

  const InvalidEmail: string := "auth.error_invalid_email"
  const PasswordShort: string := "auth.error_password_short"
  const PasswordsMatch: string := "auth.error_passwords_match"

  /** A form either reports one error key, or calls the hook with its fields. */
  datatype SignUpAction = SignUpRejected(error: string) | CallSignUp(email: string, password: string, fullName: string, language: Language)

  datatype LoginAction = LoginRejected(error: string) | CallSignIn(email: string, password: string)

  const MinPasswordLength: nat := 6

  /** The sign-up form's `handleSubmit`. */
  function SignUpSubmit(email: string, password: string, confirm: string, fullName: string, language: Language): (a: SignUpAction)
    ensures (email == "" || password == "" || fullName == "") ==> a == SignUpRejected(InvalidEmail)
    ensures !(email == "" || password == "" || fullName == "") && |password| < MinPasswordLength ==> a == SignUpRejected(PasswordShort)
    ensures !(email == "" || password == "" || fullName == "") && |password| >= MinPasswordLength && password != confirm ==>
      a == SignUpRejected(PasswordsMatch)
    ensures a.CallSignUp? <==> email != "" && fullName != "" && |password| >= MinPasswordLength && password == confirm
    ensures a.CallSignUp? ==> a == CallSignUp(email, password, fullName, language)
  {
    if email == "" || password == "" || fullName == "" then SignUpRejected(InvalidEmail)
    else if |password| < MinPasswordLength then SignUpRejected(PasswordShort)
    else if password != confirm then SignUpRejected(PasswordsMatch)
    else CallSignUp(email, password, fullName, language)
  }

  /** The login form's `handleSubmit`. */
  function LoginSubmit(email: string, password: string): (a: LoginAction)
    ensures (email == "" || password == "") ==> a == LoginRejected(InvalidEmail)
    ensures email != "" && password != "" && |password| < MinPasswordLength ==> a == LoginRejected(PasswordShort)
    ensures a.CallSignIn? <==> email != "" && |password| >= MinPasswordLength
    ensures a.CallSignIn? ==> a == CallSignIn(email, password)
  {
    if email == "" || password == "" then LoginRejected(InvalidEmail)
    else if |password| < MinPasswordLength then LoginRejected(PasswordShort)
    else CallSignIn(email, password)
  }

  /** Any credentials the sign-up form submits would also pass the login form. */
  lemma SignUpPassesLogin(email: string, password: string, confirm: string, fullName: string, language: Language)
    requires SignUpSubmit(email, password, confirm, fullName, language).CallSignUp?
    ensures LoginSubmit(email, password) == CallSignIn(email, password)
  {
  }

  /** The reported error is always one of the three keys, and is the earliest failing check's. */
  lemma SignUpErrorIsEarliest(email: string, password: string, confirm: string, fullName: string, language: Language)
    ensures var a := SignUpSubmit(email, password, confirm, fullName, language);
      a.SignUpRejected? ==> a.error in {InvalidEmail, PasswordShort, PasswordsMatch}
    ensures SignUpSubmit(email, password, confirm, fullName, language) == SignUpRejected(PasswordsMatch) ==>
      email != "" && fullName != "" && |password| >= MinPasswordLength
  {
  }
}
