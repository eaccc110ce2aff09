/**
 * The first-match checks behind the sign-up, reset-password and sign-in
 * forms, and the gating their validation effects share: a field's message
 * is only recomputed once the field was left or a submit was tried.
 */
module FormValidation {
  import opened Common
  import JsString
  import Password

  /** The translation keys the forms show under a field. */
  datatype TxKey =
    | CommonFieldRequired
    | SignUpScreenEmailFieldInvalid
    | SignUpScreenPasswordFieldInvalid
    | SignUpScreenNotSamePassword
    | ResetPasswordScreenEmailFieldInvalid
    | ResetPasswordScreenPasswordFieldInvalid
    | ResetPasswordScreenNotSamePassword
    | SignInScreenEmailFieldInvalid

  /** Email: required first, then the screen's "invalid" key when `isEmailValid` rejects it. */
  function EmailError(email: string, isEmailValid: string -> bool, invalid: TxKey): (r: Option<TxKey>)
    ensures r.None? <==> email != [] && isEmailValid(email)
    ensures email == [] ==> r == Some(CommonFieldRequired)
    ensures email != [] && !isEmailValid(email) ==> r == Some(invalid)
  {
    if JsString.Length(email) == 0 then Some(CommonFieldRequired)
    else if !isEmailValid(email) then Some(invalid)
    else None
  }

  /** Password: required first, then the screen's "invalid" key when it is not a strong password. */
  function PasswordError(password: string, invalid: TxKey): (r: Option<TxKey>)
    ensures r.None? <==> Password.IsPasswordValid(password)
    ensures password == [] ==> r == Some(CommonFieldRequired)
    ensures password != [] && !Password.IsPasswordValid(password) ==> r == Some(invalid)
  {
    Password.PasswordValidIff(password);
    if JsString.Length(password) == 0 then Some(CommonFieldRequired)
    else if !Password.IsPasswordValid(password) then Some(invalid)
    else None
  }

  /** Repeated password: required first, then the screen's "not the same" key when it differs from the password. */
  function RepeatedPasswordError(repeatedPassword: string, password: string, notSame: TxKey): (r: Option<TxKey>)
    ensures r.None? <==> repeatedPassword != [] && repeatedPassword == password
    ensures repeatedPassword == [] ==> r == Some(CommonFieldRequired)
    ensures repeatedPassword != [] && repeatedPassword != password ==> r == Some(notSame)
  {
    if JsString.Length(repeatedPassword) == 0 then Some(CommonFieldRequired)
    else if repeatedPassword != password then Some(notSame)
    else None
  }

  /** A field that is only required to be non-empty. */
  function RequiredError(value: string): (r: Option<TxKey>)
    ensures r.None? <==> value != []
    ensures r.Some? ==> r.value == CommonFieldRequired
  {
    if JsString.Length(value) == 0 then Some(CommonFieldRequired) else None
  }

  /** A validation effect: an untouched field keeps its message until a submit was tried. */
  function Gated(current: Option<TxKey>, touched: bool, tried: bool, computed: Option<TxKey>): Option<TxKey>
  {
    if !touched && !tried then current else computed
  }

  /**
   * Once the three checks of a password form have run, none has a message
   * exactly when the email is non-empty and accepted, the password is
   * strong and the repeated password equals it.
   */
  lemma PasswordFormPasses(email: string, password: string, repeatedPassword: string, isEmailValid: string -> bool,
                           emailInvalid: TxKey, passwordInvalid: TxKey, notSame: TxKey)
    ensures
      && EmailError(email, isEmailValid, emailInvalid).None?
      && PasswordError(password, passwordInvalid).None?
      && RepeatedPasswordError(repeatedPassword, password, notSame).None?
      <==>
      && email != [] && isEmailValid(email)
      && Password.IsPasswordValid(password)
      && repeatedPassword == password
  {
    Password.PasswordValidIff(password);
  }
}
