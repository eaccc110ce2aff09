/**
 * `AppStack`: which screens the root stack registers, and which one it
 * opens on, as a function of the signed-in user.
 */
module AppNavigatorModel {
  import opened Common
  import opened AuthenticationStoreModel

  /** The routes of `AppStackParamList`. */
  datatype Screen = SignIn | SignUp | Activate | Activated | ResetPassword | PasswordReset | Main

  /** `initialRouteName`: the main tabs for an active user, activation for an inactive one, sign-in for nobody. */
  function InitialRoute(user: Option<User>): (r: Screen)
    ensures r == SignIn <==> user.None?
    ensures r == Activate <==> user.Some? && !user.value.active
    ensures r == Main <==> user.Some? && user.value.active
  {
    match user
    case None => SignIn
    case Some(u) => if u.active then Main else Activate
  }

  /** The screens the stack registers: one group chosen by the user, plus two registered in every state. */
  function RegisteredScreens(user: Option<User>): (r: set<Screen>)
    ensures Activated in r && PasswordReset in r
    ensures SignIn in r <==> user.None?
    ensures SignUp in r <==> user.None?
    ensures ResetPassword in r <==> user.None?
    ensures Activate in r <==> user.Some? && !user.value.active
    ensures Main in r <==> user.Some? && user.value.active
    ensures InitialRoute(user) in r
  {
    var group :=
      match user
      case None => {SignIn, SignUp, ResetPassword}
      case Some(u) => if u.active then {Main} else {Activate};
    group + {Activated, PasswordReset}
  }

  /** After a sign-out, whatever it answered, the stack opens on sign-in with the sign-up and reset screens at hand. */
  method SignOutLeadsToSignIn(store: AuthenticationStore, response: Response<()>)
    modifies store
    ensures InitialRoute(store.user) == SignIn
    ensures RegisteredScreens(store.user) == {SignIn, SignUp, ResetPassword, Activated, PasswordReset}
  {
    store.SignOut(response);
  }

  /** After a successful sign-in, the stack opens on the main tabs or on activation as the returned user is active or not. */
  method SignInLeadsToMainOrActivate(store: AuthenticationStore, email: string, password: string, user: User)
    modifies store
    ensures InitialRoute(store.user) == if user.active then Main else Activate
    ensures SignIn !in RegisteredScreens(store.user)
  {
    var _, _ := store.SignIn(email, password, Ok(user));
  }
}
