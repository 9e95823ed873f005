/** How the client and the backend fit together: what the forms send is
    what the handlers accept, what the handlers answer is what the session
    and the guards act on. */
module EndToEnd {
  import opened Common
  import opened Users
  import opened Http
  import opened AuthContext
  import opened Routing
  import AuthRoutes
  import AdminSeed
  import RegisterPage
  import LoginPage

  // ------------------------------------------------------------- requests

  /** The JSON body `authAPI.register` posts: every field present. */
  function RegisterBody(p: RegisterPage.RegisterPayload): AuthRoutes.RegisterRequest {
    AuthRoutes.RegisterRequest(Some(p.name), Some(p.username), Some(p.email), Some(p.phone), Some(p.password))
  }

  /** The JSON body `authAPI.login` posts. */
  function LoginBody(p: LoginPage.LoginPayload): AuthRoutes.LoginRequest {
    AuthRoutes.LoginRequest(Some(p.userInput), Some(p.password), Some(p.rememberMe))
  }

  /** A register form that passes the client rules is never answered
      "All fields are required": every field it sends is non-empty. */
  lemma ValidRegisterFormIsComplete(form: map<RegisterPage.Key, string>, acceptTerms: bool)
    requires RegisterPage.FormKeys <= form.Keys
    requires RegisterPage.RegisterErrors(form, acceptTerms) == map[]
    ensures AuthRoutes.Complete(RegisterBody(RegisterPage.RegisterPayload(
              form[RegisterPage.Name], form[RegisterPage.Username], form[RegisterPage.Email],
              form[RegisterPage.Phone], form[RegisterPage.Password])))
  {
    RegisterPage.RegisterErrorsEntries(form, acceptTerms, RegisterPage.Username);
    RegisterPage.RegisterErrorsEntries(form, acceptTerms, RegisterPage.Name);
    RegisterPage.RegisterErrorsEntries(form, acceptTerms, RegisterPage.Email);
    RegisterPage.RegisterErrorsEntries(form, acceptTerms, RegisterPage.Phone);
    RegisterPage.RegisterErrorsEntries(form, acceptTerms, RegisterPage.Password);
  }

  /** A login form that passes the client rules always carries credentials,
      so the backend goes on to the lookup. */
  lemma ValidLoginFormHasCredentials(form: map<LoginPage.Field, string>, rememberMe: bool)
    requires LoginPage.LoginFields <= form.Keys
    requires LoginPage.LoginErrors(form) == map[]
    ensures AuthRoutes.HasCredentials(LoginBody(LoginPage.LoginPayload(
              form[LoginPage.UserInput], form[LoginPage.Password], rememberMe)))
  {
    LoginPage.LoginAcceptsIff(form);
    if form[LoginPage.UserInput] == "" {
      assert AllWhitespace(form[LoginPage.UserInput]);
    }
  }

  /** The client is stricter than the backend about the identifier: one of
      spaces reaches the lookup when sent directly, but the form stops it. */
  lemma BlankIdentifierStoppedByClient()
    ensures AuthRoutes.HasCredentials(AuthRoutes.LoginRequest(Some(" "), Some("pw"), None))
    ensures LoginPage.UserInput in LoginPage.LoginErrors(map[LoginPage.UserInput := " ", LoginPage.Password := "pw"])
  {
    var form := map[LoginPage.UserInput := " ", LoginPage.Password := "pw"];
    LoginPage.LoginErrorsEntries(form);
    assert IsWhitespace(form[LoginPage.UserInput][0]);
  }

  // ------------------------------------------------------------ responses

  /** How the client sees a login response: the body of a 2xx answer, with
      the token as `sign` serialises it, or the exception axios throws for
      any other status, carrying the body's message. */
  function LoginReply(resp: Response, sign: Token -> string): LoginPage.LoginOutcome {
    if resp.status == 200 && resp.body.LoggedIn? then
      LoginPage.LoggedIn(sign(resp.body.token), Some(resp.body.user), resp.body.rememberMe)
    else if resp.body.Message? || resp.body.Rejected? then
      LoginPage.Failed(Some(resp.body.message))
    else
      LoginPage.Failed(None)
  }

  /** The backend echoes the remember-me flag the form sent, so after a
      successful login the client keeps the token exactly when the box was
      ticked, and the token the backend issued lives thirty days exactly
      then. */
  lemma RememberMeRoundTrip(users: seq<UserRecord>, p: LoginPage.LoginPayload, found: Lookup,
                            hasher: Hasher, sign: Token -> string,
                            fault: AuthRoutes.LoginFault)
    requires AuthRoutes.HasCredentials(LoginBody(p)) ==> Responds(users, AuthRoutes.LoginQuery(LoginBody(p)), found)
    requires AuthRoutes.Login(users, LoginBody(p), found, hasher, fault).status == 200
    ensures var resp := AuthRoutes.Login(users, LoginBody(p), found, hasher, fault);
            && LoginReply(resp, sign).LoggedIn?
            && (LoginReply(resp, sign).rememberMe == Some(true) <==> p.rememberMe)
            && (resp.body.token.ttl == ThirtyDays <==> p.rememberMe)
  {
  }

  /** A failed login shows the backend's own message: the client fallback
      text is never used for an answer the backend wrote. */
  lemma LoginFailureShowsServerMessage(users: seq<UserRecord>, p: LoginPage.LoginPayload, found: Lookup,
                                       hasher: Hasher, sign: Token -> string,
                                       fault: AuthRoutes.LoginFault)
    requires AuthRoutes.HasCredentials(LoginBody(p)) ==> Responds(users, AuthRoutes.LoginQuery(LoginBody(p)), found)
    requires AuthRoutes.Login(users, LoginBody(p), found, hasher, fault).status != 200
    ensures var resp := AuthRoutes.Login(users, LoginBody(p), found, hasher, fault);
            && LoginReply(resp, sign) == LoginPage.Failed(Some(resp.body.message))
            && resp.body.message in {"Username/Email and password are required", "Invalid credentials",
                                     "Server error during login"}
  {
  }

  /** How `checkAuth` sees a /verify response: a 200 body, or an
      exception. */
  function VerifyReplyOf(resp: Response): VerifyReply {
    if resp.status == 200 && resp.body.Verified? then Answered(true, resp.body.verifiedUser)
    else Threw
  }

  /** A token whose user has been deleted still verifies: the backend
      answers `valid: true` with no user, so the session counts as signed
      in without a user, and the default route then sends it to the login
      page, which sends it on to the user area. */
  lemma DeletedUserStaysSignedIn(users: seq<UserRecord>, claims: Token)
    requires forall u | u in users :: u.id != claims.userId
    ensures VerifyReplyOf(AuthRoutes.VerifyHandler(users, claims, NotFound)) == Answered(true, None)
    ensures DefaultRoute(false, None) == NavigateTo(LoginPath)
    ensures Settle("/", AuthView(false, true, None), 3) == Some(PageScreen(UserScreen))
  {
    DefaultPages("/");
    SignedInLoginSettles(AuthView(false, true, None));
  }

  /** The whole start-up check for such a token. */
  method DeletedUserSession(users: seq<UserRecord>, claims: Token, token: string, isExpired: string -> bool)
    returns (s: Session)
    requires forall u | u in users :: u.id != claims.userId
    requires token != "" && !isExpired(token)
    ensures s.isAuthenticated && s.user == None && !s.loading
  {
    var reply := VerifyReplyOf(AuthRoutes.VerifyHandler(users, claims, NotFound));
    assert reply == Answered(true, None);
    var called;
    s, called := Mount(Some(token), isExpired, reply);
  }

  // --------------------------------------------------------- admin, guards

  /** The seeded admin, with ADMIN_EMAIL unset, is the user the default
      route sends to the admin dashboard; with ADMIN_EMAIL set to anything
      else, the seeded admin is sent to the user dashboard. */
  lemma SeededAdminLandsOnDashboard(users: seq<UserRecord>, env: AdminSeed.AdminEnv, hasher: Hasher,
                                    saltSeed: string)
    requires Truthy(env.password) && Responds(users, ByUsername(AdminSeed.AdminUsername(env)), NotFound)
    ensures var r := AdminSeed.SeedInsert(users, env, NotFound, hasher, saltSeed, AdminSeed.NoSeedFault);
            && r.Some?
            && (!Truthy(env.email) ==> DefaultRoute(false, Some(ProfileOf(r.value))) == NavigateTo(AdminDashboardPath))
            && (Truthy(env.email) && env.email.value != AdminEmail
                ==> DefaultRoute(false, Some(ProfileOf(r.value))) == NavigateTo(UserDashboardPath))
  {
  }

  /** A guest sent from a page that needs a session to the login page is
      sent back to that same page once signed in. */
  lemma LoginReturnsToGuardedPage(path: string, view: AuthView)
    requires path != "" && !view.loading && !view.isAuthenticated
    requires Resolve(path).Guarded? && Resolve(path).requireAuth
    ensures Visit(path, view).Go? && Visit(path, view).path == LoginPath
    ensures LoginPage.RedirectTarget(Visit(path, view).state) == path
  {
  }

  /** The admin area has no role check: any signed-in user, whatever the
      email, is shown the admin page. */
  lemma AdminAreaOpenToAnyUser(view: AuthView)
    requires !view.loading && view.isAuthenticated
    ensures Settle(AdminDashboardPath, view, 1) == Some(PageScreen(AdminScreen))
  {
    PlayIsUserPage();
  }
}
