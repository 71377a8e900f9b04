/** The route table of the redux template's `App`: which page each of its four
    paths shows, and where it redirects, for a given sign-in flag. */
module AppRoutes {
  import opened Wrappers
  import opened UserReducer
  import opened RequireAuthentication

  /** The components the table renders; `RedirectComponent` is the router's
      `Redirect`. */
  datatype Component = RedirectComponent | LoginPage | HomePage | DashboardPage

  /** The element `<component to={to} />`; `to` is `None` when not given. */
  datatype Element = Element(component: Component, to: Option<string>)

  /** `checkAuthenticated(component, path)`. */
  function CheckAuthenticated(isAuthenticated: bool, component: Component, path: Option<string>): (e: Element)
    ensures isAuthenticated ==> e == Element(RedirectComponent, Some("/dashboard"))
    ensures !isAuthenticated ==> e == Element(component, path)
  {
    if isAuthenticated then Element(RedirectComponent, Some("/dashboard"))
    else Element(component, path)
  }

  /** What one route shows: an element, or the guard's view of a page. */
  datatype RouteView = Plain(element: Element) | Guarded(page: Component, view: GuardView)

  /** The four routes of `render`, matched by exact path; `None` when no route
      matches. */
  function Route(isAuthenticated: bool, location: Location): Option<RouteView>
  {
    if location.pathname == "/" then
      Some(Plain(CheckAuthenticated(isAuthenticated, RedirectComponent, Some("/home"))))
    else if location.pathname == "/login" then
      Some(Plain(CheckAuthenticated(isAuthenticated, LoginPage, None)))
    else if location.pathname == "/home" then
      Some(Plain(Element(HomePage, None)))
    else if location.pathname == "/dashboard" then
      Some(Guarded(DashboardPage, Render(isAuthenticated, RouteProps(location))))
    else None
  }

  /** The path a view redirects to, if it is a redirect. */
  function RedirectOf(v: RouteView): Option<string>
  {
    match v
    case Plain(Element(RedirectComponent, to)) => to
    case Plain(_) => None
    case Guarded(_, RedirectTo(target)) => Some(target.pathname)
    case Guarded(_, RenderWrapped(_)) => None
  }

  /** The page a view renders, if it renders one. */
  function PageOf(v: RouteView): Option<Component>
  {
    match v
    case Plain(Element(c, _)) => if c == RedirectComponent then None else Some(c)
    case Guarded(page, RenderWrapped(_)) => Some(page)
    case Guarded(_, RedirectTo(_)) => None
  }

  function At(path: string): Location
  {
    Location(path, "", "")
  }

  /** Follows redirects from `path`, at most `fuel` of them: the page reached
      and how many redirects it took. */
  function Navigate(isAuthenticated: bool, path: string, fuel: nat): Option<(Component, nat)>
    decreases fuel
  {
    match Route(isAuthenticated, At(path))
    case None => None
    case Some(v) =>
      if PageOf(v).Some? then Some((PageOf(v).value, 0))
      else if RedirectOf(v).Some? && fuel > 0 then
        match Navigate(isAuthenticated, RedirectOf(v).value, fuel - 1)
        case None => None
        case Some(reached) => Some((reached.0, reached.1 + 1))
      else None
  }

  /** The four routes one by one: `/` redirects to `/home` or `/dashboard`,
      `/login` shows the login page only to a signed-out user, `/home` always
      shows the home page, `/dashboard` is guarded. */
  lemma RouteTable(isAuthenticated: bool, location: Location)
    ensures location.pathname == "/" ==>
      Route(isAuthenticated, location).Some? && PageOf(Route(isAuthenticated, location).value).None? &&
      RedirectOf(Route(isAuthenticated, location).value) == Some(if isAuthenticated then "/dashboard" else "/home")
    ensures location.pathname == "/login" ==>
      Route(isAuthenticated, location)
      == Some(Plain(if isAuthenticated then Element(RedirectComponent, Some("/dashboard")) else Element(LoginPage, None)))
    ensures location.pathname == "/home" ==> Route(isAuthenticated, location) == Some(Plain(Element(HomePage, None)))
    ensures location.pathname == "/dashboard" ==>
      Route(isAuthenticated, location)
      == Some(Guarded(DashboardPage, if isAuthenticated then RenderWrapped(RouteProps(location))
                                     else RedirectTo(RedirectTarget("/login", location))))
  {}

  /** `checkAuthenticated` sends a signed-in user to the dashboard whatever
      component it is given. */
  lemma SignedInIgnoresComponent(c: Component, d: Component, p: Option<string>, q: Option<string>)
    ensures CheckAuthenticated(true, c, p) == CheckAuthenticated(true, d, q)
  {}

  /** The page each path ends on, stated independently of the route table. */
  function Landing(isAuthenticated: bool, path: string): Component
  {
    if path == "/home" then HomePage
    else if isAuthenticated then DashboardPage
    else if path == "/" then HomePage
    else LoginPage
  }

  /** A redirect of the table always leads to a path that renders a page, so
      redirects never chain and never cycle. */
  lemma RedirectsLandOnPages(isAuthenticated: bool, path: string)
    requires Route(isAuthenticated, At(path)).Some?
    requires RedirectOf(Route(isAuthenticated, At(path)).value).Some?
    ensures var target := RedirectOf(Route(isAuthenticated, At(path)).value).value;
      Route(isAuthenticated, At(target)).Some? && PageOf(Route(isAuthenticated, At(target)).value).Some?
  {
    RouteTable(isAuthenticated, At(path));
  }

  /** Where the home and login pages render without redirecting. */
  lemma HomeAndLoginRender(isAuthenticated: bool)
    ensures Navigate(isAuthenticated, "/home", 0) == Some((HomePage, 0))
    ensures !isAuthenticated ==> Navigate(isAuthenticated, "/login", 0) == Some((LoginPage, 0))
    ensures isAuthenticated ==> Navigate(isAuthenticated, "/dashboard", 0) == Some((DashboardPage, 0))
  {
    RouteTable(isAuthenticated, At("/home"));
    RouteTable(isAuthenticated, At("/login"));
    RouteTable(isAuthenticated, At("/dashboard"));
  }

  /** For a fixed flag, each of the four paths reaches a rendered page after
      at most one redirect, and that page is `Landing`. */
  lemma RoutesSettle(isAuthenticated: bool, path: string)
    requires path == "/" || path == "/login" || path == "/home" || path == "/dashboard"
    ensures Navigate(isAuthenticated, path, 1).Some?
    ensures Navigate(isAuthenticated, path, 1).value.0 == Landing(isAuthenticated, path)
    ensures Navigate(isAuthenticated, path, 1).value.1 <= 1
  {
    HomeAndLoginRender(isAuthenticated);
    RouteTable(isAuthenticated, At(path));
    if path == "/" {
      var target := if isAuthenticated then "/dashboard" else "/home";
      assert RedirectOf(Route(isAuthenticated, At(path)).value) == Some(target);
      assert Navigate(isAuthenticated, target, 0).Some?;
    } else if path == "/login" {
      if isAuthenticated {
        assert RedirectOf(Route(isAuthenticated, At(path)).value) == Some("/dashboard");
      }
    } else if path == "/dashboard" {
      if !isAuthenticated {
        assert RedirectOf(Route(isAuthenticated, At(path)).value) == Some("/login");
      }
    }
  }

  /** Wired to the user slice: after LOGOUT the dashboard ends on the login
      page; after AUTHENTICATE the login page ends on the dashboard. */
  lemma LandingFollowsUserSlice(state: UserState, u: AuthUser)
    ensures Navigate(User(state, Logout).isAuthenticated, "/dashboard", 1).Some?
    ensures Navigate(User(state, Logout).isAuthenticated, "/dashboard", 1).value.0 == LoginPage
    ensures Navigate(User(state, Authenticate(u)).isAuthenticated, "/login", 1).Some?
    ensures Navigate(User(state, Authenticate(u)).isAuthenticated, "/login", 1).value.0 == DashboardPage
  {
    assert !User(state, Logout).isAuthenticated && User(state, Authenticate(u)).isAuthenticated;
    RoutesSettle(false, "/dashboard");
    RoutesSettle(true, "/login");
  }
}
