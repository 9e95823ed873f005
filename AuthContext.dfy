/** The client's session, `AuthProvider`: the signed-in user, whether the
    session counts as authenticated, whether the start-up check is still
    running, and the token kept in the browser's storage by the client token
    service. */
module AuthContext {
  import opened Common
  import opened Users

  /** What `authAPI.verifyToken()` produced: an exception (any non-2xx
      answer, a 401 included, or no answer at all), or the body's `valid` and
      `user`. */
  datatype VerifyReply = Threw | Answered(valid: bool, user: Option<Profile>)

  /** The argument of `login`: a login or register response body. */
  datatype AuthData = AuthData(token: string, user: Option<Profile>, rememberMe: Option<bool>)

  class Session {
    var user: Option<Profile>
    var isAuthenticated: bool
    var loading: bool
    /** `tokenService.getToken()`; None when nothing is stored. */
    var storedToken: Option<string>

    /** The provider's initial state, over whatever token storage holds. */
    constructor (stored: Option<string>)
      ensures user == None && loading && !isAuthenticated
      ensures storedToken == stored
    {
      user := None;
      loading := true;
      isAuthenticated := false;
      storedToken := stored;
    }

    /** `checkAuth`. `isExpired` is `tokenService.isTokenExpired`, `reply`
        what the backend call would produce; `calledBackend` says whether the
        call was made. */
    method CheckAuth(isExpired: string -> bool, reply: VerifyReply) returns (calledBackend: bool)
      modifies this
      ensures !loading
      ensures calledBackend <==> Truthy(old(storedToken)) && !isExpired(old(storedToken).value)
      ensures !calledBackend
              ==> storedToken == None && user == old(user) && isAuthenticated == old(isAuthenticated)
      ensures calledBackend && reply.Answered? && reply.valid
              ==> user == reply.user && isAuthenticated && storedToken == old(storedToken)
      ensures calledBackend && !(reply.Answered? && reply.valid)
              ==> storedToken == None && user == old(user) && isAuthenticated == old(isAuthenticated)
    {
      var token := storedToken;
      if !Truthy(token) || isExpired(token.value) {
        storedToken := None;
        loading := false;
        return false;
      }
      calledBackend := true;
      match reply {
        case Answered(valid, u) =>
          if valid {
            user := u;
            isAuthenticated := true;
          } else {
            storedToken := None;
          }
        case Threw =>
          storedToken := None;
      }
      loading := false;
    }

    /** `login(userData)`: the token is kept only when `rememberMe` is
        truthy; the session is authenticated either way. */
    method Login(data: AuthData)
      modifies this
      ensures user == data.user && isAuthenticated
      ensures storedToken == if data.rememberMe == Some(true) then Some(data.token) else old(storedToken)
      ensures loading == old(loading)
    {
      if data.rememberMe == Some(true) {
        storedToken := Some(data.token);
      }
      user := data.user;
      isAuthenticated := true;
    }

    /** `logout()` */
    method Logout()
      modifies this
      ensures storedToken == None && user == None && !isAuthenticated
      ensures loading == old(loading)
    {
      storedToken := None;
      user := None;
      isAuthenticated := false;
    }

    /** `updateUser(userData)`: only the user changes. */
    method UpdateUser(u: Option<Profile>)
      modifies this
      ensures user == u
      ensures isAuthenticated == old(isAuthenticated) && loading == old(loading)
      ensures storedToken == old(storedToken)
    {
      user := u;
    }
  }

  /** Mounting the provider: the initial state, then the effect that runs
      `checkAuth` once. Afterwards the check is over, and the session is
      authenticated exactly when a live stored token was confirmed valid. */
  method Mount(stored: Option<string>, isExpired: string -> bool, reply: VerifyReply)
    returns (s: Session, calledBackend: bool)
    ensures fresh(s) && !s.loading
    ensures calledBackend <==> Truthy(stored) && !isExpired(stored.value)
    ensures s.isAuthenticated <==> calledBackend && reply.Answered? && reply.valid
    ensures !s.isAuthenticated ==> s.user == None && s.storedToken == None
    ensures s.isAuthenticated ==> s.user == reply.user && s.storedToken == stored
  {
    s := new Session(stored);
    calledBackend := s.CheckAuth(isExpired, reply);
  }
}
