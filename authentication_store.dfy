/** The authentication store: the signed-in user, if any. */
module AuthenticationStoreModel {
  import opened Common

  datatype Role = USER | ADMIN

  /** The signed-in user; the node has no behaviour of its own, so it is a value here. */
  datatype User = User(id: int, createdAt: int, updatedAt: int, email: string, role: Role, active: bool)

  /** The credentials an action sends. */
  datatype Credentials = Credentials(email: string, password: string)

  class AuthenticationStore {
    var user: Option<User>

    constructor ()
      ensures user == None
    {
      user := None;
    }

    /** `clearUser`: no user is left. */
    method ClearUser()
      modifies this
      ensures user == None
    {
      user := None;
    }

    /** `signIn(email, password)`: on ok the returned user is stored. */
    method SignIn(email: string, password: string, response: Response<User>) returns (sent: Credentials, r: Response<User>)
      modifies this
      ensures sent == Credentials(email, password)
      ensures r == response
      ensures response.Ok? ==> user == Some(response.payload)
      ensures response.Problem? ==> user == old(user)
    {
      sent := Credentials(email, password);
      if response.Ok? {
        user := Some(response.payload);
      }
      r := response;
    }

    /** `signUp(email, password)`: hands back the response; the user is not touched. */
    method SignUp(email: string, password: string, response: Response<()>) returns (sent: Credentials, r: Response<()>)
      ensures sent == Credentials(email, password)
      ensures r == response
    {
      sent := Credentials(email, password);
      r := response;
    }

    /** `signOut`: the user is cleared whatever the API answers, and nothing is returned. */
    method SignOut(response: Response<()>)
      modifies this
      ensures user == None
    {
      user := None;
    }

    /** `requestActivation`: hands back the response; the user is not touched. */
    method RequestActivation(response: Response<()>) returns (r: Response<()>)
      ensures r == response
    {
      r := response;
    }

    /** `requestPasswordReset(email, password)`: hands back the response; the user is not touched. */
    method RequestPasswordReset(email: string, password: string, response: Response<()>) returns (sent: Credentials, r: Response<()>)
      ensures sent == Credentials(email, password)
      ensures r == response
    {
      sent := Credentials(email, password);
      r := response;
    }

    /** `me`: on ok the returned user replaces the stored one. */
    method Me(response: Response<User>) returns (r: Response<User>)
      modifies this
      ensures r == response
      ensures response.Ok? ==> user == Some(response.payload)
      ensures response.Problem? ==> user == old(user)
    {
      if response.Ok? {
        user := Some(response.payload);
      }
      r := response;
    }
  }
}
