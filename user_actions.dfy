/** The action creators of the redux template's user slice. */
module UserActions {
  import opened UserReducer

  /** `authenticate(user)`: an AUTHENTICATE action carrying `user` unchanged. */
  function AuthenticateAction(user: AuthUser): (a: UserAction)
    ensures a.Authenticate? && a.user == user
  {
    Authenticate(user)
  }

  /** `logout()`: a LOGOUT action, which has no payload. */
  function LogoutAction(): (a: UserAction)
    ensures a.Logout?
  {
    Logout
  }

  /** Reducing `authenticate(u)` signs in as `u`, from any state. */
  lemma DispatchAuthenticate(state: UserState, u: AuthUser)
    ensures User(state, AuthenticateAction(u)).isAuthenticated
    ensures User(state, AuthenticateAction(u)).id == u.id
    ensures User(state, AuthenticateAction(u)).name == u.name
  {}

  /** Reducing `logout()` signs out, from any state. */
  lemma DispatchLogout(state: UserState)
    ensures !User(state, LogoutAction()).isAuthenticated
  {}
}
