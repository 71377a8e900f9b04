/** The user slice of the redux template's store: who is signed in. Only the
    handler table is modelled; how the unseen `createReducer` treats other
    actions is not part of this model. */
module UserReducer {
  import opened Wrappers

  /** The `user` object a successful login delivers: `id` and `name` are
      `None` when absent; `extra` holds its other fields. */
  datatype AuthUser = AuthUser(id: Option<string>, name: Option<string>, extra: map<string, string>)

  /** `extra` holds any state fields other than the three named ones. */
  datatype UserState = UserState(id: Option<string>, isAuthenticated: bool, name: Option<string>,
                                 extra: map<string, string>)

  /** `initialUserState`: nobody signed in. */
  const InitialUserState := UserState(None, false, None, map[])

  /** The two action types the handler table has an entry for. */
  datatype UserAction = Authenticate(user: AuthUser) | Logout

  /** AUTHENTICATE: signed in as the action's user; only its `id` and `name`
      are copied. */
  function OnAuthenticate(state: UserState, user: AuthUser): (r: UserState)
    ensures r.isAuthenticated
    ensures r.id == user.id && r.name == user.name
    ensures r.extra == state.extra
  {
    state.(isAuthenticated := true, id := user.id, name := user.name)
  }

  /** LOGOUT: the three fields return to their initial values. */
  function OnLogout(state: UserState): (r: UserState)
    ensures !r.isAuthenticated
    ensures r.id == InitialUserState.id && r.name == InitialUserState.name
    ensures r.extra == state.extra
  {
    state.(id := InitialUserState.id, isAuthenticated := InitialUserState.isAuthenticated,
           name := InitialUserState.name)
  }

  /** `user`: the handler for the action's type. */
  function User(state: UserState, action: UserAction): UserState
  {
    match action
    case Authenticate(user) => OnAuthenticate(state, user)
    case Logout => OnLogout(state)
  }

  /** The initial user is signed out with null id and name. */
  lemma InitialUserIsAnonymous()
    ensures !InitialUserState.isAuthenticated
    ensures InitialUserState.id.None? && InitialUserState.name.None?
  {}

  /** Fields of the delivered user other than `id` and `name` make no
      difference to the state. */
  lemma AuthenticateIgnoresOtherFields(state: UserState, u: AuthUser, v: AuthUser)
    requires u.id == v.id && u.name == v.name
    ensures User(state, Authenticate(u)) == User(state, Authenticate(v))
  {}

  /** LOGOUT is idempotent, and undoes AUTHENTICATE entirely. */
  lemma LogoutResets(state: UserState, u: AuthUser)
    ensures User(User(state, Logout), Logout) == User(state, Logout)
    ensures User(User(state, Authenticate(u)), Logout) == User(state, Logout)
    ensures User(state, Logout) == InitialUserState.(extra := state.extra)
  {}

  /** The state after the store dispatches `actions` in order from `start`. */
  function Replay(start: UserState, actions: seq<UserAction>): UserState
    decreases |actions|
  {
    if actions == [] then start
    else User(Replay(start, actions[..|actions| - 1]), actions[|actions| - 1])
  }

  /** Over any non-empty history, the user is signed in exactly when the last
      action was AUTHENTICATE, and then carries that action's id and name;
      after a LOGOUT the fields are the initial ones; other fields never
      change. */
  lemma {:induction false} ReplayHistory(start: UserState, actions: seq<UserAction>)
    requires actions != []
    ensures var r := Replay(start, actions);
      var last := actions[|actions| - 1];
      && (r.isAuthenticated <==> last.Authenticate?)
      && (last.Authenticate? ==> r.id == last.user.id && r.name == last.user.name)
      && (last.Logout? ==> r == InitialUserState.(extra := start.extra))
      && r.extra == start.extra
    decreases |actions|
  {
    var init := actions[..|actions| - 1];
    if init != [] {
      ReplayHistory(start, init);
    }
  }
}
