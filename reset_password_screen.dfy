/**
 * The reset-password form: an email, a new password and its repetition,
 * each with a validation effect, and a submit that reads the messages those
 * effects last computed.
 */
module ResetPasswordScreenModel {
  import opened Common
  import opened FormValidation
  import opened AuthenticationStoreModel
  import Password

  class ResetPasswordScreen {
    var email: string
    var password: string
    var repeatedPassword: string
    var emailValidationError: Option<TxKey>
    var passwordValidationError: Option<TxKey>
    var repeatedPasswordValidationError: Option<TxKey>
    var hasEmailBeenTouched: bool
    var hasPasswordBeenTouched: bool
    var hasRepeatedPasswordBeenTouched: bool
    var hasTriedSubmitting: bool
    var isLoading: bool
    var hasSubmitted: bool

    /** The initial `useState` values. */
    constructor ()
      ensures email == "" && password == "" && repeatedPassword == ""
      ensures emailValidationError == None && passwordValidationError == None && repeatedPasswordValidationError == None
      ensures !hasEmailBeenTouched && !hasPasswordBeenTouched && !hasRepeatedPasswordBeenTouched
      ensures !hasTriedSubmitting && !isLoading && !hasSubmitted
    {
      email, password, repeatedPassword := "", "", "";
      emailValidationError, passwordValidationError, repeatedPasswordValidationError := None, None, None;
      hasEmailBeenTouched, hasPasswordBeenTouched, hasRepeatedPasswordBeenTouched := false, false, false;
      hasTriedSubmitting, isLoading, hasSubmitted := false, false, false;
    }

    /** No message is set. */
    predicate NoErrors()
      reads this
    {
      emailValidationError.None? && passwordValidationError.None? && repeatedPasswordValidationError.None?
    }

    /** The email field's `onChangeText` and `onBlur`. */
    method EditEmail(text: string, blurred: bool)
      modifies this
      ensures email == text && hasEmailBeenTouched == (old(hasEmailBeenTouched) || blurred)
      ensures password == old(password) && repeatedPassword == old(repeatedPassword)
      ensures hasPasswordBeenTouched == old(hasPasswordBeenTouched) && hasRepeatedPasswordBeenTouched == old(hasRepeatedPasswordBeenTouched)
      ensures emailValidationError == old(emailValidationError) && passwordValidationError == old(passwordValidationError)
      ensures repeatedPasswordValidationError == old(repeatedPasswordValidationError)
      ensures hasTriedSubmitting == old(hasTriedSubmitting) && isLoading == old(isLoading) && hasSubmitted == old(hasSubmitted)
    {
      email := text;
      if blurred {
        hasEmailBeenTouched := true;
      }
    }

    /** The password field's `onChangeText` and `onBlur`. */
    method EditPassword(text: string, blurred: bool)
      modifies this
      ensures password == text && hasPasswordBeenTouched == (old(hasPasswordBeenTouched) || blurred)
      ensures email == old(email) && repeatedPassword == old(repeatedPassword)
      ensures hasEmailBeenTouched == old(hasEmailBeenTouched) && hasRepeatedPasswordBeenTouched == old(hasRepeatedPasswordBeenTouched)
      ensures emailValidationError == old(emailValidationError) && passwordValidationError == old(passwordValidationError)
      ensures repeatedPasswordValidationError == old(repeatedPasswordValidationError)
      ensures hasTriedSubmitting == old(hasTriedSubmitting) && isLoading == old(isLoading) && hasSubmitted == old(hasSubmitted)
    {
      password := text;
      if blurred {
        hasPasswordBeenTouched := true;
      }
    }

    /** The repeated-password field's `onChangeText` and `onBlur`. */
    method EditRepeatedPassword(text: string, blurred: bool)
      modifies this
      ensures repeatedPassword == text && hasRepeatedPasswordBeenTouched == (old(hasRepeatedPasswordBeenTouched) || blurred)
      ensures email == old(email) && password == old(password)
      ensures hasEmailBeenTouched == old(hasEmailBeenTouched) && hasPasswordBeenTouched == old(hasPasswordBeenTouched)
      ensures emailValidationError == old(emailValidationError) && passwordValidationError == old(passwordValidationError)
      ensures repeatedPasswordValidationError == old(repeatedPasswordValidationError)
      ensures hasTriedSubmitting == old(hasTriedSubmitting) && isLoading == old(isLoading) && hasSubmitted == old(hasSubmitted)
    {
      repeatedPassword := text;
      if blurred {
        hasRepeatedPasswordBeenTouched := true;
      }
    }

    /**
     * The three validation effects, run after a render in which their
     * inputs changed. Each leaves its message alone while its field is
     * untouched and no submit was tried.
     */
    method RunValidationEffects(isEmailValid: string -> bool)
      modifies this
      ensures emailValidationError ==
        Gated(old(emailValidationError), hasEmailBeenTouched, hasTriedSubmitting,
              EmailError(email, isEmailValid, ResetPasswordScreenEmailFieldInvalid))
      ensures passwordValidationError ==
        Gated(old(passwordValidationError), hasPasswordBeenTouched, hasTriedSubmitting,
              PasswordError(password, ResetPasswordScreenPasswordFieldInvalid))
      ensures repeatedPasswordValidationError ==
        Gated(old(repeatedPasswordValidationError), hasRepeatedPasswordBeenTouched, hasTriedSubmitting,
              RepeatedPasswordError(repeatedPassword, password, ResetPasswordScreenNotSamePassword))
      ensures hasTriedSubmitting ==> (NoErrors() <==>
        email != [] && isEmailValid(email) && Password.IsPasswordValid(password) && repeatedPassword == password)
      ensures email == old(email) && password == old(password) && repeatedPassword == old(repeatedPassword)
      ensures hasEmailBeenTouched == old(hasEmailBeenTouched) && hasPasswordBeenTouched == old(hasPasswordBeenTouched)
      ensures hasRepeatedPasswordBeenTouched == old(hasRepeatedPasswordBeenTouched)
      ensures hasTriedSubmitting == old(hasTriedSubmitting) && isLoading == old(isLoading) && hasSubmitted == old(hasSubmitted)
    {
      if hasEmailBeenTouched || hasTriedSubmitting {
        emailValidationError := EmailError(email, isEmailValid, ResetPasswordScreenEmailFieldInvalid);
      }
      if hasPasswordBeenTouched || hasTriedSubmitting {
        passwordValidationError := PasswordError(password, ResetPasswordScreenPasswordFieldInvalid);
      }
      if hasRepeatedPasswordBeenTouched || hasTriedSubmitting {
        repeatedPasswordValidationError := RepeatedPasswordError(repeatedPassword, password, ResetPasswordScreenNotSamePassword);
      }
      PasswordFormPasses(email, password, repeatedPassword, isEmailValid,
        ResetPasswordScreenEmailFieldInvalid, ResetPasswordScreenPasswordFieldInvalid, ResetPasswordScreenNotSamePassword);
    }

    /**
     * `requestPasswordReset`: marks a submit as tried and, only when no
     * message is set, sends the email and the new password; `hasSubmitted`
     * becomes true on an ok response and is never cleared.
     */
    method RequestPasswordReset(store: AuthenticationStore, response: Response<()>) returns (sent: Option<Credentials>)
      modifies this
      ensures hasTriedSubmitting
      ensures sent.Some? <==> old(NoErrors())
      ensures sent.Some? ==> sent.value == Credentials(email, password) && !isLoading
      ensures sent.None? ==> isLoading == old(isLoading)
      ensures hasSubmitted == (old(hasSubmitted) || (sent.Some? && response.Ok?))
      ensures email == old(email) && password == old(password) && repeatedPassword == old(repeatedPassword)
      ensures emailValidationError == old(emailValidationError) && passwordValidationError == old(passwordValidationError)
      ensures repeatedPasswordValidationError == old(repeatedPasswordValidationError)
      ensures hasEmailBeenTouched == old(hasEmailBeenTouched) && hasPasswordBeenTouched == old(hasPasswordBeenTouched)
      ensures hasRepeatedPasswordBeenTouched == old(hasRepeatedPasswordBeenTouched)
    {
      hasTriedSubmitting := true;
      if !NoErrors() {
        return None;
      }
      isLoading := true;
      var credentials, r := store.RequestPasswordReset(email, password, response);
      isLoading := false;
      if r.Ok? {
        hasSubmitted := true;
      }
      sent := Some(credentials);
    }
  }

  /** The gate reads messages that no effect has computed yet: a first press on an untouched form sends empty credentials. */
  method UntouchedFormSubmits(store: AuthenticationStore, response: Response<()>) returns (sent: Option<Credentials>)
    ensures sent == Some(Credentials("", ""))
  {
    var screen := new ResetPasswordScreen();
    sent := screen.RequestPasswordReset(store, response);
  }
}
