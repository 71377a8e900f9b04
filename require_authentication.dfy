/** The route guard of the redux template: it renders the wrapped component
    for a signed-in user and sends everyone else to the login page. */
module RequireAuthentication {
  import opened UserReducer
  import opened RootState

  /** The router location of the current request. */
  datatype Location = Location(pathname: string, search: string, hash: string)

  /** The props the route hands to its render callback; `history` and `match`
      are not part of this model. */
  datatype RouteProps = RouteProps(location: Location)

  /** The `to` object of the redirect: where to go and where the user came
      from (`state.from`). */
  datatype RedirectTarget = RedirectTarget(pathname: string, from: Location)

  /** What the guard renders: the wrapped component with the route props, or
      a redirect. */
  datatype GuardView = RenderWrapped(props: RouteProps) | RedirectTo(target: RedirectTarget)

  /** `mapStateToProps`: the guard's flag is the user slice's flag. */
  function MapStateToProps(state: RootState): (isAuthenticated: bool)
  {
    state.user.isAuthenticated
  }

  /** The render callback inside `Authentication.render`. */
  function Render(isAuthenticated: bool, props: RouteProps): (v: GuardView)
    ensures v.RenderWrapped? <==> isAuthenticated
    ensures v.RenderWrapped? ==> v.props == props
    ensures v.RedirectTo? ==> v.target == RedirectTarget("/login", props.location)
  {
    if isAuthenticated then RenderWrapped(props)
    else RedirectTo(RedirectTarget("/login", props.location))
  }

  /** Wired to the store: after LOGOUT the guard always redirects to the
      login page, remembering the location; after AUTHENTICATE it always
      renders the wrapped component. */
  lemma GuardFollowsUserSlice(state: RootState, props: RouteProps, u: AuthUser)
    ensures Render(MapStateToProps(state.(user := User(state.user, Logout))), props)
            == RedirectTo(RedirectTarget("/login", props.location))
    ensures Render(MapStateToProps(state.(user := User(state.user, Authenticate(u)))), props)
            == RenderWrapped(props)
  {}
}
