/** The items slice of the redux template's store: the fetch status of a list
    loaded from the items service. Only the handler table is modelled; how the
    unseen `createReducer` treats other actions is not part of this model. */
module ItemsReducer {
  import opened Wrappers

  /** An item as the service returns it; the reducer never looks inside. */
  type Item = string

  /** The body of a successful fetch; the reducer reads only `items`, which
      is `None` when the body has no such field. */
  datatype Response = Response(items: Option<seq<Item>>)

  /** `list` is `None` for `null`; `extra` holds any other fields of the
      state object, which every handler copies with `...state`. */
  datatype ItemsState = ItemsState(list: Option<seq<Item>>, requesting: bool, extra: map<string, string>)

  /** `initialItemsState`: no list yet, not requesting. */
  const InitialItemsState := ItemsState(None, false, map[])

  /** The three action types the handler table has an entry for. */
  datatype ItemsAction = FetchItemsRequest | FetchItemsSuccess(response: Response) | FetchItemsFailure

  /** FETCH_ITEMS_REQUEST: mark the fetch as running, keep the list. */
  function OnRequest(state: ItemsState): (r: ItemsState)
    ensures r.requesting
    ensures r.list == state.list && r.extra == state.extra
  {
    state.(requesting := true)
  }

  /** FETCH_ITEMS_SUCCESS: the list becomes the response's items, absent
      (undefined) when the body carries none. */
  function OnSuccess(state: ItemsState, response: Response): (r: ItemsState)
    ensures !r.requesting
    ensures r.list == response.items && r.extra == state.extra
  {
    state.(list := response.items, requesting := false)
  }

  /** FETCH_ITEMS_FAILURE: the fetch is over; the previous, possibly stale,
      list stays. */
  function OnFailure(state: ItemsState): (r: ItemsState)
    ensures !r.requesting
    ensures r.list == state.list && r.extra == state.extra
  {
    state.(requesting := false)
  }

  /** `items`: the handler for the action's type. */
  function Items(state: ItemsState, action: ItemsAction): ItemsState
  {
    match action
    case FetchItemsRequest => OnRequest(state)
    case FetchItemsSuccess(response) => OnSuccess(state, response)
    case FetchItemsFailure => OnFailure(state)
  }

  /** The initial state has no list and is not requesting. */
  lemma InitialStateIsIdle()
    ensures InitialItemsState.list.None? && !InitialItemsState.requesting
  {}

  /** A request followed by its success leaves the response's items and no
      request running, whatever the state before. */
  lemma RequestThenSuccess(state: ItemsState, response: Response)
    ensures Items(Items(state, FetchItemsRequest), FetchItemsSuccess(response))
            == state.(list := response.items, requesting := false)
  {}

  /** The state after the store dispatches `actions` in order from `start`. */
  function Replay(start: ItemsState, actions: seq<ItemsAction>): ItemsState
    decreases |actions|
  {
    if actions == [] then start
    else Items(Replay(start, actions[..|actions| - 1]), actions[|actions| - 1])
  }

  /** The list most recently delivered by a success in `actions`, or
      `fallback` when none has succeeded. */
  function LastDelivered(fallback: Option<seq<Item>>, actions: seq<ItemsAction>): Option<seq<Item>>
    decreases |actions|
  {
    if actions == [] then fallback
    else match actions[|actions| - 1]
      case FetchItemsSuccess(response) => response.items
      case _ => LastDelivered(fallback, actions[..|actions| - 1])
  }

  /** Over any history of fetch actions: a request is running exactly when the
      last action was a request, the list is the one the latest success
      delivered (stale across failures), and other fields never change. */
  lemma {:induction false} ReplayHistory(start: ItemsState, actions: seq<ItemsAction>)
    ensures var r := Replay(start, actions);
      && r.list == LastDelivered(start.list, actions)
      && r.extra == start.extra
      && (actions != [] ==> (r.requesting <==> actions[|actions| - 1].FetchItemsRequest?))
    decreases |actions|
  {
    if actions != [] {
      ReplayHistory(start, actions[..|actions| - 1]);
    }
  }
}
