/** The client's routing decisions: the `ProtectedRoute` guard, the
    `DefaultRoute` redirect, and the route table of `App`, together with what
    a visitor ends up seeing when the redirects are followed. */
module Routing {
  import opened Common
  import opened Users

  /** The part of a router location the guards use. */
  datatype Location = Location(pathname: string)

  /** The history state a navigation carries; the guard puts
      `{ from: location }` there. */
  datatype NavState = NavState(from: Option<Location>)

  const LoginPath := "/login"
  const PlayPath := "/user/play"
  const AdminDashboardPath := "/admin/dashboard"
  const UserDashboardPath := "/user/dashboard"
  const AdminEmail := "admin@app.com"

  // --------------------------------------------------------- ProtectedRoute

  datatype GuardOutcome =
    | Spinner                  // the loading screen
    | ToLogin(from: Location)  // <Navigate to="/login" state={{ from: location }} replace />
    | ToPlay                   // <Navigate to="/user/play" replace />
    | Children                 // the wrapped page

  /** `ProtectedRoute`: the spinner while the session check runs, then the
      login page for a guest on a page that needs a session, the play page
      for a signed-in user on a guest page, and the page itself otherwise.
      `requireAuth` defaults to true. */
  function Guard(loading: bool, isAuthenticated: bool, location: Location, requireAuth: bool := true)
    : (o: GuardOutcome)
    ensures o.Spinner? <==> loading
    ensures o.ToLogin? <==> !loading && requireAuth && !isAuthenticated
    ensures o.ToLogin? ==> o.from == location
    ensures o.ToPlay? <==> !loading && !requireAuth && isAuthenticated
    ensures o.Children? <==> !loading && requireAuth == isAuthenticated
  {
    if loading then Spinner
    else if requireAuth && !isAuthenticated then ToLogin(location)
    else if !requireAuth && isAuthenticated then ToPlay
    else Children
  }

  /** Leaving `requireAuth` out is the same as passing true. */
  lemma RequireAuthDefault(loading: bool, isAuthenticated: bool, location: Location)
    ensures Guard(loading, isAuthenticated, location) == Guard(loading, isAuthenticated, location, true)
    ensures !loading && !isAuthenticated ==> Guard(loading, isAuthenticated, location).ToLogin?
  {
  }

  // ----------------------------------------------------------- DefaultRoute

  datatype DefaultOutcome = LoadingText | NavigateTo(path: string)

  /** `DefaultRoute`: a placeholder while loading, the login page without a
      user, the admin dashboard for the user whose email is exactly
      "admin@app.com", the user dashboard for everyone else. */
  function DefaultRoute(loading: bool, user: Option<Profile>): (o: DefaultOutcome)
    ensures o.LoadingText? <==> loading
    ensures o == NavigateTo(LoginPath) <==> !loading && user.None?
    ensures o == NavigateTo(AdminDashboardPath) <==> !loading && user.Some? && user.value.email == AdminEmail
    ensures o == NavigateTo(UserDashboardPath) <==> !loading && user.Some? && user.value.email != AdminEmail
  {
    if loading then LoadingText
    else if user.None? then NavigateTo(LoginPath)
    else if user.value.email == AdminEmail then NavigateTo(AdminDashboardPath)
    else NavigateTo(UserDashboardPath)
  }

  // ------------------------------------------------------------ route table

  datatype Page = RegisterScreen | LoginScreen | AdminScreen | UserScreen

  /** A route's `path`: a literal path, a splat route for everything under
      `base` (which also matches `base` itself), or the catch-all. */
  datatype Pattern = Exact(path: string) | Under(base: string) | Anything

  /** A route's `element`: a page behind `ProtectedRoute`, or
      `DefaultRoute`. */
  datatype Element = Guarded(requireAuth: bool, page: Page) | Default

  datatype Route = Route(pattern: Pattern, element: Element)

  predicate PatternMatches(p: Pattern, path: string) {
    match p
    case Exact(q) => path == q
    case Under(base) => path == base || base + "/" <= path
    case Anything => true
  }

  /** The routes of `App`, most specific first. */
  const Routes: seq<Route> := [
    Route(Exact("/register"), Guarded(false, RegisterScreen)),
    Route(Exact("/login"), Guarded(false, LoginScreen)),
    Route(Under("/admin"), Guarded(true, AdminScreen)),
    Route(Under("/user"), Guarded(true, UserScreen)),
    Route(Exact("/"), Default),
    Route(Anything, Default)
  ]

  /** The element of the first route in `routes` that matches `path`. */
  function FirstMatch(routes: seq<Route>, path: string): (e: Option<Element>)
    ensures e.Some? <==> exists i :: 0 <= i < |routes| && PatternMatches(routes[i].pattern, path)
    ensures e.Some? ==> exists i :: && 0 <= i < |routes| && PatternMatches(routes[i].pattern, path)
                                    && e.value == routes[i].element
                                    && forall j :: 0 <= j < i ==> !PatternMatches(routes[j].pattern, path)
  {
    if routes == [] then None
    else if PatternMatches(routes[0].pattern, path) then Some(routes[0].element)
    else
      var rest := FirstMatch(routes[1..], path);
      assert forall i :: 1 <= i < |routes| ==> routes[i] == routes[1..][i - 1];
      if rest.Some? then
        var k :| && 0 <= k < |routes[1..]| && PatternMatches(routes[1..][k].pattern, path)
                 && rest.value == routes[1..][k].element
                 && forall j :: 0 <= j < k ==> !PatternMatches(routes[1..][j].pattern, path);
        assert forall j :: 0 <= j < k + 1 ==> !PatternMatches(routes[j].pattern, path) by {
          forall j | 0 < j < k + 1 ensures !PatternMatches(routes[j].pattern, path) {
            assert routes[j] == routes[1..][j - 1];
          }
        }
        assert routes[k + 1] == routes[1..][k];
        rest
      else
        rest
  }

  /** The first matching route decides. */
  lemma FirstMatchAt(routes: seq<Route>, path: string, i: nat)
    requires i < |routes| && PatternMatches(routes[i].pattern, path)
    requires forall j :: 0 <= j < i ==> !PatternMatches(routes[j].pattern, path)
    ensures FirstMatch(routes, path) == Some(routes[i].element)
  {
  }

  /** The element `App` renders for `path`. React Router picks the most
      specific matching route; for this table that is the first match in
      the order above. */
  function Resolve(path: string): Element {
    var e := FirstMatch(Routes, path);
    if e.Some? then e.value else assert PatternMatches(Routes[5].pattern, path); Default
  }

  /** Every path is claimed by some route, and the element rendered is that
      of the first route whose pattern matches. */
  lemma ResolveIsFirstMatch(path: string)
    ensures exists i :: && 0 <= i < |Routes| && PatternMatches(Routes[i].pattern, path)
                        && Resolve(path) == Routes[i].element
                        && forall j :: 0 <= j < i ==> !PatternMatches(Routes[j].pattern, path)
  {
    assert PatternMatches(Routes[5].pattern, path);
  }

  /** "/register" and "/login" are guest pages. */
  lemma GuestPages()
    ensures Resolve("/register") == Guarded(false, RegisterScreen)
    ensures Resolve(LoginPath) == Guarded(false, LoginScreen)
  {
  }

  /** Everything under "/admin" and "/user" needs a session and nothing
      else: the admin area has no role check. */
  lemma SessionPages(path: string)
    ensures path == "/admin" || "/admin/" <= path ==> Resolve(path) == Guarded(true, AdminScreen)
    ensures path == "/user" || "/user/" <= path ==> Resolve(path) == Guarded(true, UserScreen)
  {
    if "/admin/" <= path {
      assert path[1] == 'a';
      assert path != "/register" && path != "/login";
    }
    if "/user/" <= path {
      assert path[1] == 'u';
      assert !("/admin/" <= path);
      assert path != "/register" && path != "/login" && path != "/admin";
      FirstMatchAt(Routes, path, 3);
    }
  }

  /** "/" and every path no other route claims go to `DefaultRoute`. */
  lemma DefaultPages(path: string)
    requires path != "/register" && path != "/login"
    requires !(path == "/admin" || "/admin/" <= path) && !(path == "/user" || "/user/" <= path)
    ensures Resolve(path) == Default
  {
  }

  // --------------------------------------------------- following redirects

  /** What the guards read from the session. */
  datatype AuthView = AuthView(loading: bool, isAuthenticated: bool, user: Option<Profile>)

  datatype Screen = SpinnerScreen | LoadingScreen | PageScreen(page: Page)

  /** One render of `App` at `path`: a screen, or a redirect. */
  datatype Step = Show(screen: Screen) | Go(path: string, state: Option<NavState>)

  function Visit(path: string, view: AuthView): (r: Step)
    ensures view.loading ==> r.Show? && !r.screen.PageScreen?
    ensures r.Go? ==> r.path in {LoginPath, PlayPath, AdminDashboardPath, UserDashboardPath}
    ensures r.Go? && r.state.Some? ==> r.path == LoginPath && r.state.value.from == Some(Location(path))
    ensures r.Show? && r.screen.PageScreen?
            ==> (view.isAuthenticated <==> r.screen.page == AdminScreen || r.screen.page == UserScreen)
  {
    match Resolve(path)
    case Guarded(requireAuth, page) =>
      (match Guard(view.loading, view.isAuthenticated, Location(path), requireAuth)
       case Spinner => Show(SpinnerScreen)
       case ToLogin(from) => Go(LoginPath, Some(NavState(Some(from))))
       case ToPlay => Go(PlayPath, None)
       case Children => Show(PageScreen(page)))
    case Default =>
      (match DefaultRoute(view.loading, view.user)
       case LoadingText => Show(LoadingScreen)
       case NavigateTo(p) => Go(p, None))
  }

  /** The screen reached from `path` within `fuel` renders, if any. */
  function Settle(path: string, view: AuthView, fuel: nat): Option<Screen>
    decreases fuel
  {
    if fuel == 0 then None
    else match Visit(path, view)
      case Show(s) => Some(s)
      case Go(p, _) => Settle(p, view, fuel - 1)
  }

  lemma PlayIsUserPage()
    ensures Resolve(PlayPath) == Guarded(true, UserScreen)
    ensures Resolve(AdminDashboardPath) == Guarded(true, AdminScreen)
    ensures Resolve(UserDashboardPath) == Guarded(true, UserScreen)
  {
    SessionPages(PlayPath);
    SessionPages(AdminDashboardPath);
    SessionPages(UserDashboardPath);
  }

  /** A guest who lands on "/login" stays there. */
  lemma LoginSettles(view: AuthView)
    requires !view.loading && !view.isAuthenticated
    ensures Settle(LoginPath, view, 1) == Some(PageScreen(LoginScreen))
  {
    GuestPages();
  }

  /** A guest sent to a dashboard is sent on to "/login" and stays there. */
  lemma GuestDashboardSettles(view: AuthView, dashboard: string)
    requires !view.loading && !view.isAuthenticated
    requires dashboard == AdminDashboardPath || dashboard == UserDashboardPath
    ensures Settle(dashboard, view, 2) == Some(PageScreen(LoginScreen))
  {
    PlayIsUserPage();
    assert Visit(dashboard, view) == Go(LoginPath, Some(NavState(Some(Location(dashboard)))));
    LoginSettles(view);
  }

  /** A signed-in user sent to "/user/play" sees the user area. */
  lemma PlaySettles(view: AuthView)
    requires !view.loading && view.isAuthenticated
    ensures Settle(PlayPath, view, 1) == Some(PageScreen(UserScreen))
  {
    PlayIsUserPage();
  }

  /** A signed-in user sent to "/login" is sent on to "/user/play". */
  lemma SignedInLoginSettles(view: AuthView)
    requires !view.loading && view.isAuthenticated
    ensures Settle(LoginPath, view, 2) == Some(PageScreen(UserScreen))
  {
    GuestPages();
    assert Visit(LoginPath, view) == Go(PlayPath, None);
    PlaySettles(view);
  }

  /** The guards never loop: from any path, in any session state, at most
      three renders reach a screen. While the session check runs that
      screen is a loading one; after it a guest only ever sees the login or
      register page, and a signed-in user never sees them. */
  lemma NoRedirectLoop(path: string, view: AuthView)
    ensures Settle(path, view, 3).Some?
    ensures view.loading ==> Settle(path, view, 3).value in {SpinnerScreen, LoadingScreen}
    ensures !view.loading && !view.isAuthenticated
            ==> Settle(path, view, 3).value in {PageScreen(LoginScreen), PageScreen(RegisterScreen)}
    ensures !view.loading && view.isAuthenticated
            ==> Settle(path, view, 3).value in {PageScreen(AdminScreen), PageScreen(UserScreen)}
  {
    if view.loading {
      assert Visit(path, view).Show?;
    } else if Resolve(path).Guarded? {
      GuardedSettles(path, view);
    } else {
      DefaultSettles(path, view);
    }
  }

  lemma GuardedSettles(path: string, view: AuthView)
    requires !view.loading && Resolve(path).Guarded?
    ensures Settle(path, view, 3).Some?
    ensures !view.isAuthenticated
            ==> Settle(path, view, 3).value in {PageScreen(LoginScreen), PageScreen(RegisterScreen)}
    ensures view.isAuthenticated
            ==> Settle(path, view, 3).value in {PageScreen(AdminScreen), PageScreen(UserScreen)}
  {
    var requireAuth := Resolve(path).requireAuth;
    GuardedPages(path);
    if requireAuth && !view.isAuthenticated {
      assert Visit(path, view).Go? && Visit(path, view).path == LoginPath;
      LoginSettles(view);
    } else if !requireAuth && view.isAuthenticated {
      assert Visit(path, view) == Go(PlayPath, None);
      PlaySettles(view);
    } else {
      assert Visit(path, view) == Show(PageScreen(Resolve(path).page));
    }
  }

  lemma DefaultSettles(path: string, view: AuthView)
    requires !view.loading && Resolve(path) == Default
    ensures Settle(path, view, 3).Some?
    ensures !view.isAuthenticated
            ==> Settle(path, view, 3).value in {PageScreen(LoginScreen), PageScreen(RegisterScreen)}
    ensures view.isAuthenticated
            ==> Settle(path, view, 3).value in {PageScreen(AdminScreen), PageScreen(UserScreen)}
  {
    var next := DefaultRoute(view.loading, view.user).path;
    assert Visit(path, view) == Go(next, None);
    assert Settle(path, view, 3) == Settle(next, view, 2);
    PlayIsUserPage();
    if view.isAuthenticated {
      if next == LoginPath {
        SignedInLoginSettles(view);
      } else {
        assert Visit(next, view).Show?;
      }
    } else if next == LoginPath {
      LoginSettles(view);
    } else {
      GuestDashboardSettles(view, next);
    }
  }

  /** Guest pages are exactly the register and login pages. */
  lemma GuardedPages(path: string)
    ensures Resolve(path).Guarded? ==> (Resolve(path).page in {RegisterScreen, LoginScreen} <==> !Resolve(path).requireAuth)
  {
    var e := FirstMatch(Routes, path);
    if e.Some? {
      var i :| 0 <= i < |Routes| && e.value == Routes[i].element;
      assert 0 <= i < 6;
    }
  }
}
