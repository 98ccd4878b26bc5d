/** The client's authentication state: the signed-in user, and the loading and error flags. */
module AuthSlice {
  import opened Common
  import opened Thunk
  import opened UserModel
  import AuthController

  /** The actions the auth reducer handles; register and login are fulfilled with the server's session body. */
  datatype AuthAction =
    | Register(registered: Phase<AuthController.Session>)
    | Login(loggedIn: Phase<AuthController.Session>)
    | Logout(loggedOut: Phase<()>)
    | GetCurrentUser(current: Phase<PublicUser>)
    | ClearError

  class AuthState {
    var user: Option<PublicUser>
    var isAuthenticated: bool
    var isLoading: bool
    var error: Option<string>

    /** The flag says whether a user is held. */
    ghost predicate Valid()
      reads this
    {
      isAuthenticated <==> user.Some?
    }

    constructor ()
      ensures Valid()
      ensures user == None && !isAuthenticated && !isLoading && error == None
    {
      user := None;
      isAuthenticated := false;
      isLoading := false;
      error := None;
    }

    /**
     * The reducer. Register and login: pending sets loading and clears the error, fulfilled signs the payload's
     * user in, rejected stores the message and keeps the user. Logout has only a fulfilled case, which signs out;
     * its pending and rejected actions change nothing. Fetching the current user: pending sets loading (the error
     * stays), fulfilled signs the user in, rejected signs out without recording an error.
     */
    method Dispatch(a: AuthAction)
      requires Valid()
      modifies this
      ensures Valid()
      ensures match a
        case Register(Pending) | Login(Pending) =>
          isLoading && error == None && user == old(user) && isAuthenticated == old(isAuthenticated)
        case Register(Fulfilled(s)) =>
          !isLoading && isAuthenticated && user == Some(s.user) && error == old(error)
        case Login(Fulfilled(s)) =>
          !isLoading && isAuthenticated && user == Some(s.user) && error == old(error)
        case Register(Rejected(m)) =>
          !isLoading && error == Some(m) && user == old(user) && isAuthenticated == old(isAuthenticated)
        case Login(Rejected(m)) =>
          !isLoading && error == Some(m) && user == old(user) && isAuthenticated == old(isAuthenticated)
        case Logout(Fulfilled(_)) =>
          user == None && !isAuthenticated && isLoading == old(isLoading) && error == old(error)
        case Logout(_) =>
          user == old(user) && isAuthenticated == old(isAuthenticated) && isLoading == old(isLoading) && error == old(error)
        case GetCurrentUser(Pending) =>
          isLoading && user == old(user) && isAuthenticated == old(isAuthenticated) && error == old(error)
        case GetCurrentUser(Fulfilled(u)) =>
          !isLoading && isAuthenticated && user == Some(u) && error == old(error)
        case GetCurrentUser(Rejected(_)) =>
          !isLoading && !isAuthenticated && user == None && error == old(error)
        case ClearError =>
          error == None && user == old(user) && isAuthenticated == old(isAuthenticated) && isLoading == old(isLoading)
    {
      match a
      case Register(Pending) | Login(Pending) =>
        isLoading := true;
        error := None;
      case Register(Fulfilled(s)) =>
        isLoading := false;
        isAuthenticated := true;
        user := Some(s.user);
      case Login(Fulfilled(s)) =>
        isLoading := false;
        isAuthenticated := true;
        user := Some(s.user);
      case Register(Rejected(m)) =>
        isLoading := false;
        error := Some(m);
      case Login(Rejected(m)) =>
        isLoading := false;
        error := Some(m);
      case Logout(Fulfilled(_)) =>
        user := None;
        isAuthenticated := false;
      case Logout(_) =>
      case GetCurrentUser(Pending) =>
        isLoading := true;
      case GetCurrentUser(Fulfilled(u)) =>
        isLoading := false;
        isAuthenticated := true;
        user := Some(u);
      case GetCurrentUser(Rejected(_)) =>
        isLoading := false;
        isAuthenticated := false;
        user := None;
      case ClearError =>
        error := None;
    }
  }
}
