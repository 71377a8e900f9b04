# React notes: the stateful core, modelled in Dafny

This repository of React exercises and templates contains a handful of small
state machines and selection rules. This project models them and proves what
they do:

- the Redux slices of the create-react-app templates: the count reducer
  (UPDATE, INCREMENT, DECREMENT, anything else), the items fetch-status
  handlers (request, success, failure), the user handlers (authenticate,
  logout), and the action creators that feed them;
- the sign-in-driven navigation of the redux template: the menu drawer's
  open/closed flag and its entry filter, the `RequireAuthentication` guard,
  and `App`'s `checkAuthenticated` with its four-route table;
- the movie page that picks the first movie whose id, as a string, equals the
  route parameter, and the note search that filters titles by substring and
  marks the highlighted entry;
- four class components: the ingredient list that grows at the end, the
  number that starts at 8, and the note creation and note editing forms.

Reducers, guards, routes, the movie lookup and the search are pure functions
over datatypes. A JSX element or a redirect is a returned value, never a
simulation of the router. Components whose handlers update state are classes
whose methods update fields; `setState` is a synchronous field update.
JavaScript's `null`/`undefined` is `Option.None`. Fields of a state object
that a handler does not name, and which it copies with `...state`, are an
`extra` map.

One module per source file: `SassCountReducer`, `SassCountActions`,
`ReduxCountActions`, `ItemsReducer`, `UserReducer`, `UserActions`,
`MenuDrawerComponent`, `RequireAuthentication`, `AppRoutes`, `MovieDetails`,
`Search`, `IngredientList`, `NumberCounter`, `CreateNoteForm`,
`EditNoteForm`. The helper modules are `Wrappers` (Option), `Sequences`
(order-preserving subsequence), `Notes` (the note record) and `RootState`
(the slices the containers read).

## Model

| member | source | states |
|---|---|---|
| SassCountReducer.NoStateCountsFromZero | my-other-notes-n-projects/REACT/REPOS/_TEMPLATES/create-react-app-templates-master/packages/sass/src/store/count/reducer.js:3 | with no prior state the reducer counts from 0, and the store's first unrelated action yields 0 |
| SassCountReducer.StepsMoveByOne | my-other-notes-n-projects/REACT/REPOS/_TEMPLATES/create-react-app-templates-master/packages/sass/src/store/count/reducer.js:7-10 | INCREMENT gives state + 1, DECREMENT gives state - 1, and DECREMENT has no lower bound |
| SassCountReducer.IncrementDecrementCancel | my-other-notes-n-projects/REACT/REPOS/_TEMPLATES/create-react-app-templates-master/packages/sass/src/store/count/reducer.js:7-10 | INCREMENT then DECREMENT restores the count, and so does the reverse order |
| SassCountReducer.UpdateIgnoresState | my-other-notes-n-projects/REACT/REPOS/_TEMPLATES/create-react-app-templates-master/packages/sass/src/store/count/reducer.js:5-6 | UPDATE yields its value whatever the prior state, so applying it twice equals applying it once |
| SassCountReducer.OtherKeepsCount | my-other-notes-n-projects/REACT/REPOS/_TEMPLATES/create-react-app-templates-master/packages/sass/src/store/count/reducer.js:11-12 | an action of any other type returns the state unchanged |
| SassCountReducer.ReplayCountsSteps | my-other-notes-n-projects/REACT/REPOS/_TEMPLATES/create-react-app-templates-master/packages/sass/src/store/count/reducer.js:7-12 | over any sequence of actions with no UPDATE, the count moves by the number of INCREMENTs minus the number of DECREMENTs, in any order |
| SassCountReducer.ReplayAfterUpdate | my-other-notes-n-projects/REACT/REPOS/_TEMPLATES/create-react-app-templates-master/packages/sass/src/store/count/reducer.js:3-14 | after the last UPDATE(v), the count is v plus the INCREMENTs minus the DECREMENTs dispatched since; what came before is forgotten |
| SassCountActions.UpdateAction | my-other-notes-n-projects/REACT/REPOS/_TEMPLATES/create-react-app-templates-master/packages/sass/src/store/count/action.js:3 | `update(v)` is an UPDATE action whose value is exactly v |
| SassCountActions.IncrementAction | my-other-notes-n-projects/REACT/REPOS/_TEMPLATES/create-react-app-templates-master/packages/sass/src/store/count/action.js:5 | `increment()` is an INCREMENT action, which has no payload field |
| SassCountActions.DecrementAction | my-other-notes-n-projects/REACT/REPOS/_TEMPLATES/create-react-app-templates-master/packages/sass/src/store/count/action.js:7 | `decrement()` is a DECREMENT action, which has no payload field |
| SassCountActions.DispatchUpdate | my-other-notes-n-projects/REACT/REPOS/_TEMPLATES/create-react-app-templates-master/packages/sass/src/store/count/action.js:3 | dispatching `update(v)` through the count reducer yields v for any prior count |
| SassCountActions.DispatchSteps | my-other-notes-n-projects/REACT/REPOS/_TEMPLATES/create-react-app-templates-master/packages/sass/src/store/count/action.js:5-7 | dispatching `increment()` or `decrement()` moves the count by exactly one |
| ReduxCountActions.UpdateAction | my-other-notes-n-projects/REACT/REPOS/_TEMPLATES/create-react-app-templates-master/packages/redux/src/store/count/action.js:3 | the redux package's `update(v)` is an UPDATE action carrying v unchanged |
| ReduxCountActions.IncrementAction | my-other-notes-n-projects/REACT/REPOS/_TEMPLATES/create-react-app-templates-master/packages/redux/src/store/count/action.js:5 | its `increment()` is an INCREMENT action and nothing else |
| ReduxCountActions.DecrementAction | my-other-notes-n-projects/REACT/REPOS/_TEMPLATES/create-react-app-templates-master/packages/redux/src/store/count/action.js:7 | its `decrement()` is a DECREMENT action and nothing else |
| ReduxCountActions.CreatorsAreFaithful | my-other-notes-n-projects/REACT/REPOS/_TEMPLATES/create-react-app-templates-master/packages/redux/src/store/count/action.js:3-7 | the creators are deterministic and injective, the value field gives back the argument of `update` and is absent from the other two, and the three types differ |
| ItemsReducer.InitialStateIsIdle | CONTAINER/my-other-notes-n-projects/REACT/REPOS/_TEMPLATES/create-react-app-templates-master/packages/redux/src/store/items/reducer.js:4-7 | the initial state has no list (null) and is not requesting |
| ItemsReducer.OnRequest | CONTAINER/my-other-notes-n-projects/REACT/REPOS/_TEMPLATES/create-react-app-templates-master/packages/redux/src/store/items/reducer.js:10-12 | FETCH_ITEMS_REQUEST sets requesting and keeps the list and every other field |
| ItemsReducer.OnSuccess | CONTAINER/my-other-notes-n-projects/REACT/REPOS/_TEMPLATES/create-react-app-templates-master/packages/redux/src/store/items/reducer.js:13-15 | FETCH_ITEMS_SUCCESS makes the list the response's items (undefined when the body has none), clears requesting, and keeps every other field |
| ItemsReducer.OnFailure | CONTAINER/my-other-notes-n-projects/REACT/REPOS/_TEMPLATES/create-react-app-templates-master/packages/redux/src/store/items/reducer.js:16-18 | FETCH_ITEMS_FAILURE clears requesting and keeps the previous, possibly stale, list and every other field |
| ItemsReducer.RequestThenSuccess | CONTAINER/my-other-notes-n-projects/REACT/REPOS/_TEMPLATES/create-react-app-templates-master/packages/redux/src/store/items/reducer.js:10-15 | a request followed by a success leaves the response's items and no request running, whatever the prior state |
| ItemsReducer.ReplayHistory | CONTAINER/my-other-notes-n-projects/REACT/REPOS/_TEMPLATES/create-react-app-templates-master/packages/redux/src/store/items/reducer.js:9-19 | over any history of fetch actions, a request is running exactly when the last action was a request, the list is the one the latest success delivered (or the starting one), and other fields never change |
| UserReducer.InitialUserIsAnonymous | REPOS/_TEMPLATES/create-react-app-templates-master/packages/redux/src/store/user/reducer.js:4-8 | the initial user is unauthenticated with null id and name |
| UserReducer.OnAuthenticate | REPOS/_TEMPLATES/create-react-app-templates-master/packages/redux/src/store/user/reducer.js:11-14 | AUTHENTICATE sets isAuthenticated and copies exactly id and name from the action's user; other state fields are kept |
| UserReducer.AuthenticateIgnoresOtherFields | REPOS/_TEMPLATES/create-react-app-templates-master/packages/redux/src/store/user/reducer.js:12 | fields of the action's user other than id and name make no difference to the state |
| UserReducer.OnLogout | REPOS/_TEMPLATES/create-react-app-templates-master/packages/redux/src/store/user/reducer.js:15-17 | LOGOUT returns id, isAuthenticated and name to their initial values from any state and keeps other fields |
| UserReducer.LogoutResets | REPOS/_TEMPLATES/create-react-app-templates-master/packages/redux/src/store/user/reducer.js:11-17 | LOGOUT is idempotent, AUTHENTICATE followed by LOGOUT equals LOGOUT alone, and the result is the initial user with the other fields kept |
| UserReducer.ReplayHistory | REPOS/_TEMPLATES/create-react-app-templates-master/packages/redux/src/store/user/reducer.js:10-18 | over any non-empty history, the user is signed in exactly when the last action was AUTHENTICATE, with that action's id and name; after LOGOUT all three fields are initial; other fields never change |
| UserActions.AuthenticateAction | my-other-notes-n-projects/REACT/REPOS/_TEMPLATES/create-react-app-templates-master/packages/redux/src/store/user/action.js:3 | `authenticate(u)` is an AUTHENTICATE action carrying u unchanged |
| UserActions.LogoutAction | my-other-notes-n-projects/REACT/REPOS/_TEMPLATES/create-react-app-templates-master/packages/redux/src/store/user/action.js:5 | `logout()` is a LOGOUT action with no payload |
| UserActions.DispatchAuthenticate | my-other-notes-n-projects/REACT/REPOS/_TEMPLATES/create-react-app-templates-master/packages/redux/src/store/user/action.js:3 | reducing `authenticate(u)` gives an authenticated state with u's id and name |
| UserActions.DispatchLogout | my-other-notes-n-projects/REACT/REPOS/_TEMPLATES/create-react-app-templates-master/packages/redux/src/store/user/action.js:5 | reducing `logout()` from any state gives an unauthenticated state |
| MenuDrawerComponent.MenuDrawer.constructor | my-other-notes-n-projects/REACT/REPOS/_TEMPLATES/create-react-app-templates-master/packages/redux/src/components/MenuDrawer.js:10-18 | the drawer starts closed |
| MenuDrawerComponent.MenuDrawer.HandleToggle | my-other-notes-n-projects/REACT/REPOS/_TEMPLATES/create-react-app-templates-master/packages/redux/src/components/MenuDrawer.js:20-22 | `handleToggle` negates visible, so toggling twice restores it, and leaves the `isAuthenticated` prop as it was |
| MenuDrawerComponent.MenuDrawer.ReceiveProps | my-other-notes-n-projects/REACT/REPOS/_TEMPLATES/create-react-app-templates-master/packages/redux/src/components/MenuDrawer.js:24-25 | a new `isAuthenticated` prop replaces the flag the menu is built from and leaves the open/closed state as it was |
| MenuDrawerComponent.KeepVisible | my-other-notes-n-projects/REACT/REPOS/_TEMPLATES/create-react-app-templates-master/packages/redux/src/components/MenuDrawer.js:63-69 | the accumulating reduce returns, in order, the items of the visible candidates without their visible key |
| MenuDrawerComponent.MenuDrawer.GetMenuItems | my-other-notes-n-projects/REACT/REPOS/_TEMPLATES/create-react-app-templates-master/packages/redux/src/components/MenuDrawer.js:24-70 | the menu items are the visible ones among the six candidates built from the flag, which is the written-out menu for that flag |
| MenuDrawerComponent.VisibleItemsKeepOrder | my-other-notes-n-projects/REACT/REPOS/_TEMPLATES/create-react-app-templates-master/packages/redux/src/components/MenuDrawer.js:63-69 | the filter's result is an order-preserving subsequence of the candidate entries |
| MenuDrawerComponent.MenuItemsAreMenuFor | my-other-notes-n-projects/REACT/REPOS/_TEMPLATES/create-react-app-templates-master/packages/redux/src/components/MenuDrawer.js:26-69 | filtering the six candidates gives Home, Dashboard, divider, User, Sign Out when signed in, and Home, divider, User, Sign In when not |
| MenuDrawerComponent.MenuByFlag | my-other-notes-n-projects/REACT/REPOS/_TEMPLATES/create-react-app-templates-master/packages/redux/src/components/MenuDrawer.js:26-69 | Home, the divider and the User subheader are always returned; Dashboard and Sign Out iff signed in; Sign In iff not, so exactly one of Sign In and Sign Out; 5 entries when signed in and 4 when not |
| RequireAuthentication.Render | my-other-notes-n-projects/REACT/REPOS/_TEMPLATES/create-react-app-templates-master/packages/redux/src/containers/RequireAuthentication.js:11-22 | exactly one of render and redirect: a signed-in user gets the wrapped component with the route props passed through, anyone else a redirect to pathname /login whose state.from is the current location |
| RequireAuthentication.GuardFollowsUserSlice | my-other-notes-n-projects/REACT/REPOS/_TEMPLATES/create-react-app-templates-master/packages/redux/src/containers/RequireAuthentication.js:32-36 | with the flag read from the user slice, the guard always redirects to /login after LOGOUT and always renders after AUTHENTICATE |
| AppRoutes.CheckAuthenticated | my-other-notes-n-projects/REACT/REPOS/_TEMPLATES/create-react-app-templates-master/packages/redux/src/containers/App.js:16-23 | a signed-in user gets a redirect to /dashboard; anyone else gets the given component with `to` set to the given path |
| AppRoutes.SignedInIgnoresComponent | my-other-notes-n-projects/REACT/REPOS/_TEMPLATES/create-react-app-templates-master/packages/redux/src/containers/App.js:18-19 | when signed in, the result does not depend on the component or the path given |
| AppRoutes.RouteTable | my-other-notes-n-projects/REACT/REPOS/_TEMPLATES/create-react-app-templates-master/packages/redux/src/containers/App.js:31-46 | / redirects to /home when signed out and to /dashboard when signed in; /login shows the login page only when signed out; /home always shows the home page; /dashboard is guarded |
| AppRoutes.RedirectsLandOnPages | my-other-notes-n-projects/REACT/REPOS/_TEMPLATES/create-react-app-templates-master/packages/redux/src/containers/App.js:31-46 | every redirect of the table leads to a path whose route renders a page, so redirects never chain or cycle |
| AppRoutes.RoutesSettle | my-other-notes-n-projects/REACT/REPOS/_TEMPLATES/create-react-app-templates-master/packages/redux/src/containers/App.js:31-46 | for a fixed flag, each of the four paths reaches a rendered page after at most one redirect, and that page is the one an independent landing table names |
| AppRoutes.LandingFollowsUserSlice | my-other-notes-n-projects/REACT/REPOS/_TEMPLATES/create-react-app-templates-master/packages/redux/src/containers/App.js:57-59 | with the flag read from the user slice, /dashboard ends on the login page after LOGOUT and /login ends on the dashboard after AUTHENTICATE |
| MovieDetails.FindIndex | my-other-notes-n-projects/REACT/aux-folder/w-14-aa/W14D1part2-class/src/components/MovieDetails.js:7-9 | `find` returns the first movie in list order whose id's string form equals the parameter, and nothing only when no movie matches |
| MovieDetails.IntToStringInjective | my-other-notes-n-projects/REACT/aux-folder/w-14-aa/W14D1part2-class/src/components/MovieDetails.js:8 | distinct numbers have distinct string forms, so comparing by string form is comparing the numbers |
| MovieDetails.NumericIdMatchesItsDecimal | my-other-notes-n-projects/REACT/aux-folder/w-14-aa/W14D1part2-class/src/components/MovieDetails.js:8 | a numeric id matches exactly its own decimal string; id 3 matches "3" |
| MovieDetails.Render | my-other-notes-n-projects/REACT/aux-folder/w-14-aa/W14D1part2-class/src/components/MovieDetails.js:7-20 | when no movie matches the outcome is a redirect to /; otherwise the title and description shown are those of the first matching movie |
| Search.IncludesIffOccurs | My_Notes/react-workshop/app/components/Search.jsx:19 | `includes` holds exactly when the input occurs in the title at some position |
| Search.MatchesIffOccurs | My_Notes/react-workshop/app/components/Search.jsx:19 | the filter keeps a note exactly when the input occurs in its title; the empty-input test agrees with that |
| Search.EmptyInputListsAll | My_Notes/react-workshop/app/components/Search.jsx:19 | an empty input lists every note |
| Search.FilteredExactly | My_Notes/react-workshop/app/components/Search.jsx:17-20 | every listed note is one of the notes and its title contains the input, and every note whose title contains the input is listed |
| Search.FilteredKeepsOrder | My_Notes/react-workshop/app/components/Search.jsx:17-21 | listed notes keep their relative order from the notes |
| Search.FilteredCounts | My_Notes/react-workshop/app/components/Search.jsx:17-21 | a matching note is listed exactly as many times as it occurs in the notes, a non-matching one never |
| Search.Listing | My_Notes/react-workshop/app/components/Search.jsx:16-33 | nothing is listed while the menu is closed; otherwise the filtered notes in order with their indices, and only the entry whose index equals highlightedIndex has class selected |
| Search.ItemToString | My_Notes/react-workshop/app/components/Search.jsx:9 | `itemToString` gives the title for a present item and '' for an absent one |
| Search.SelectionUrlCarriesId | My_Notes/react-workshop/app/components/Search.jsx:8 | selecting a note targets /note?id= followed by its id, which can be read back, so distinct ids give distinct addresses |
| IngredientList.ParentComponent.constructor | my-other-notes-n-projects/React-I-Demo-master/src/ex6/ParentComponent.js:5-12 | the list starts as flour, eggs, milk, sugar, vanilla and the input as '' |
| IngredientList.ParentComponent.HandleIngredientInput | my-other-notes-n-projects/React-I-Demo-master/src/ex6/ParentComponent.js:14-16 | only newIngredient changes |
| IngredientList.ParentComponent.AddIngredient | my-other-notes-n-projects/React-I-Demo-master/src/ex6/ParentComponent.js:18-26 | the current input, even '', is appended at the end, the length grows by one, existing entries keep positions and values, and the input becomes '' |
| NumberCounter.ClassComponentUpdatingState.constructor | CONTAINER/Projects/React-I-Demo-master/src/ex4/ClassComponentUpdatingState.js:5-10 | aNumber starts at 8 |
| NumberCounter.ClassComponentUpdatingState.Increment | CONTAINER/Projects/React-I-Demo-master/src/ex4/ClassComponentUpdatingState.js:12-14 | increment raises aNumber by exactly 1, keeping it at 8 plus increments minus decrements |
| NumberCounter.ClassComponentUpdatingState.Decrement | CONTAINER/Projects/React-I-Demo-master/src/ex4/ClassComponentUpdatingState.js:16-18 | decrement lowers aNumber by exactly 1 with no floor, keeping it at 8 plus increments minus decrements |
| CreateNoteForm.CreateNote.constructor | My_Notes/react-workshop/app/components/CreateNote.jsx:9-12 | the form starts with empty title and content |
| CreateNoteForm.CreateNote.SaveToState | My_Notes/react-workshop/app/components/CreateNote.jsx:14 | an edit named title changes only the title, one named content only the content, so the last edit of a field wins |
| CreateNoteForm.CreateNote.HandleSubmit | My_Notes/react-workshop/app/components/CreateNote.jsx:16-20 | saveNote receives the current title and content, and both fields are '' afterwards |
| EditNoteForm.EditNote.constructor | My_Notes/react-workshop/app/components/EditNote.jsx:8-12 | the initial title, content and _id are those of the note prop |
| EditNoteForm.EditNote.SaveToState | My_Notes/react-workshop/app/components/EditNote.jsx:14-16 | an edit changes only the named field, and _id never changes |
| EditNoteForm.EditNote.HandleSubmit | My_Notes/react-workshop/app/components/EditNote.jsx:18-22 | updateNote receives the current title and content with the original _id |

## Left out

- `Number(action.value)` in the count reducer can produce NaN or a fraction. UPDATE here carries an integer.
- SassCountReducer.StepsMoveByOne, SassCountReducer.IncrementDecrementCancel, SassCountReducer.ReplayCountsSteps and SassCountReducer.ReplayAfterUpdate: counts are unbounded integers. JavaScript numbers are IEEE doubles, so the source agrees with these lemmas only while every count stays within ±2^53; beyond that `state + 1` and `state - 1` can round back to `state`.
- NumberCounter.ClassComponentUpdatingState.Increment and NumberCounter.ClassComponentUpdatingState.Decrement: the invariant that the number is 8 plus the increments minus the decrements holds in the source only while the number stays within ±2^53, for the same reason.
- SassCountActions.DispatchSteps: the creators' actions move the reduced count by exactly one only while the count stays within ±2^53; beyond that the source's `state + 1` and `state - 1` can round back to `state`.
- MovieDetails.NumericIdMatchesItsDecimal: a numeric id matches its plain decimal string only for magnitudes below 10^21 and within ±2^53, as the next line explains.
- MovieDetails.IntToString: it writes every integer in plain decimal. JavaScript's `toString` switches to exponent form (such as `1e+21`) for magnitudes of 10^21 and more, and integers beyond ±2^53 are not all representable, so the id comparison is exact only below those bounds.
- An AUTHENTICATE action with no `user`, a FETCH_ITEMS_SUCCESS action with no `response`, and a movie with no `id` make the source throw a TypeError while reading a field. Those payloads are always present here, so the throwing paths are not modelled. A response body without `items` is modelled: the list becomes undefined.
- `createReducer` and the action type constants are not part of this model. The items and user reducers are modelled as their handler tables over closed action types. What they do for other actions, and which state they start from when given none, is not modelled. The constants are only distinct labels.
- The redux package's count reducer is not part of this model, so its count creators are stated by shape only.
- `combineReducers` and the router and login-form slices in both `rootReducer.js` files are left out.
- The items action creator `load`, its `callAPI` and the items service's `fetch` are I/O and are left out. So are the notes page's `axios` call, the CSV parser, the DOM table of contents and the database seeder.
- `null` and `undefined` are both `None`. A user object delivered without `id` or `name` leaves those fields undefined in the source; here they are `None`.
- Item contents, user ids and note ids are strings. The reducers never look inside them.
- Route matching is exact path equality over the four paths. react-router matches `/login`, `/home` and `/dashboard` as prefixes, and `Switch` picks the first match; this is not modelled. `Redirect` and `history.push` are returned outcome values, not simulated.
- Route props are reduced to the location. `history` and `match` are not modelled.
- MenuDrawer's `onClick` callbacks are outcome values, not calls. The drawer markup and `onVisibilityChange` wiring are left out. The `delete item.visible` on the freshly built candidate objects is modelled as the item without its flag; no other code holds those objects.
- Search.Listing: Search.jsx line 24 uses `item._id` as the entry key, and `item` is not defined, so rendering any entry would throw. The model covers the filter, the index and the class marking only, not the key. How Downshift changes `isOpen`, `inputValue` and `highlightedIndex` is not modelled.
- MovieDetails: a numeric id is a whole number. JavaScript renders fractional numbers differently, which is not modelled. `useParams` is replaced by the parameter string.
- IngredientList.ParentComponent.AddIngredient: the source pushes onto the very array object held in the state. Here the list is a sequence field that is reassigned, so the identity of that array and any aliasing of it are not captured.
- `setState` batching and asynchrony, `event.preventDefault` and rendering are left out. Each handler is a synchronous field update. The direct mutation `++this.state.aNumber` is the same field update.
- CreateNote and EditNote: `saveToState` is only ever called by the two inputs named `title` and `content`, so the name is one of those two. The `saveNote` and `updateNote` callbacks are modelled as the value the handler hands them, returned from the method. EditNote's `Router.push('/')` is left out.
- EditNote.jsx lines 27-52: the render callback has no `return`, so the form never renders. The model covers the state handlers only.
- The remaining files of the repository are views and framework wiring with no logic of their own, and are not part of this model.
