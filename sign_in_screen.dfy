/**
 * The sign-in form: an email and a password, each with a validation effect,
 * and a submit that reads the messages those effects last computed and
 * flags credentials the server rejects.
 */
module SignInScreenModel {
  import opened Common
  import opened FormValidation
  import opened AuthenticationStoreModel

  class SignInScreen {
    var email: string
    var password: string
    var emailValidationError: Option<TxKey>
    var passwordValidationError: Option<TxKey>
    var hasEmailBeenTouched: bool
    var hasPasswordBeenTouched: bool
    var hasTriedSubmitting: bool
    var areCredentialsInvalid: bool
    var isLoading: bool

    /** The initial `useState` values. */
    constructor ()
      ensures email == "" && password == ""
      ensures emailValidationError == None && passwordValidationError == None
      ensures !hasEmailBeenTouched && !hasPasswordBeenTouched
      ensures !hasTriedSubmitting && !areCredentialsInvalid && !isLoading
    {
      email, password := "", "";
      emailValidationError, passwordValidationError := None, None;
      hasEmailBeenTouched, hasPasswordBeenTouched := false, false;
      hasTriedSubmitting, areCredentialsInvalid, isLoading := false, false, false;
    }

    /** No message is set. */
    predicate NoErrors()
      reads this
    {
      emailValidationError.None? && passwordValidationError.None?
    }

    /** The email field's `onChangeText` and `onBlur`. */
    method EditEmail(text: string, blurred: bool)
      modifies this
      ensures email == text && hasEmailBeenTouched == (old(hasEmailBeenTouched) || blurred)
      ensures password == old(password) && hasPasswordBeenTouched == old(hasPasswordBeenTouched)
      ensures emailValidationError == old(emailValidationError) && passwordValidationError == old(passwordValidationError)
      ensures hasTriedSubmitting == old(hasTriedSubmitting) && areCredentialsInvalid == old(areCredentialsInvalid)
      ensures isLoading == old(isLoading)
    {
      email := text;
      if blurred {
        hasEmailBeenTouched := true;
      }
    }

    /** The password field's `onChangeText` and `onBlur`. */
    method EditPassword(text: string, blurred: bool)
      modifies this
      ensures password == text && hasPasswordBeenTouched == (old(hasPasswordBeenTouched) || blurred)
      ensures email == old(email) && hasEmailBeenTouched == old(hasEmailBeenTouched)
      ensures emailValidationError == old(emailValidationError) && passwordValidationError == old(passwordValidationError)
      ensures hasTriedSubmitting == old(hasTriedSubmitting) && areCredentialsInvalid == old(areCredentialsInvalid)
      ensures isLoading == old(isLoading)
    {
      password := text;
      if blurred {
        hasPasswordBeenTouched := true;
      }
    }

    /**
     * The two validation effects. The password is only required to be
     * non-empty: its strength is not checked at sign-in.
     */
    method RunValidationEffects(isEmailValid: string -> bool)
      modifies this
      ensures emailValidationError ==
        Gated(old(emailValidationError), hasEmailBeenTouched, hasTriedSubmitting,
              EmailError(email, isEmailValid, SignInScreenEmailFieldInvalid))
      ensures passwordValidationError ==
        Gated(old(passwordValidationError), hasPasswordBeenTouched, hasTriedSubmitting, RequiredError(password))
      ensures hasTriedSubmitting ==> (NoErrors() <==> email != [] && isEmailValid(email) && password != [])
      ensures email == old(email) && password == old(password)
      ensures hasEmailBeenTouched == old(hasEmailBeenTouched) && hasPasswordBeenTouched == old(hasPasswordBeenTouched)
      ensures hasTriedSubmitting == old(hasTriedSubmitting) && areCredentialsInvalid == old(areCredentialsInvalid)
      ensures isLoading == old(isLoading)
    {
      if hasEmailBeenTouched || hasTriedSubmitting {
        emailValidationError := EmailError(email, isEmailValid, SignInScreenEmailFieldInvalid);
      }
      if hasPasswordBeenTouched || hasTriedSubmitting {
        passwordValidationError := RequiredError(password);
      }
    }

    /**
     * `signIn`: marks a submit as tried and, only when no message is set,
     * signs in with the email and password. Only an `unauthorized` answer
     * raises the invalid-credentials flag; nothing lowers it.
     */
    method SignIn(store: AuthenticationStore, response: Response<User>) returns (sent: Option<Credentials>)
      modifies this, store
      ensures hasTriedSubmitting
      ensures sent.Some? <==> old(NoErrors())
      ensures sent.Some? ==> sent.value == Credentials(email, password) && !isLoading
      ensures sent.None? ==> isLoading == old(isLoading) && store.user == old(store.user)
      ensures sent.Some? && response.Ok? ==> store.user == Some(response.payload)
      ensures sent.Some? && response.Problem? ==> store.user == old(store.user)
      ensures areCredentialsInvalid == (old(areCredentialsInvalid) || (sent.Some? && response == Problem(Unauthorized)))
      ensures email == old(email) && password == old(password)
      ensures emailValidationError == old(emailValidationError) && passwordValidationError == old(passwordValidationError)
      ensures hasEmailBeenTouched == old(hasEmailBeenTouched) && hasPasswordBeenTouched == old(hasPasswordBeenTouched)
    {
      hasTriedSubmitting := true;
      if !NoErrors() {
        return None;
      }
      isLoading := true;
      var credentials, r := store.SignIn(email, password, response);
      isLoading := false;
      if r == Problem(Unauthorized) {
        areCredentialsInvalid := true;
      }
      sent := Some(credentials);
    }
  }
}
