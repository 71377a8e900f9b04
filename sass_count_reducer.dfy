/** The count slice of the sass template's Redux store: a reducer that switches
    on three action types and leaves every other action alone. */
module SassCountReducer {
  import opened Wrappers

  /** An action as the count reducer reads it: the three type labels it
      switches on, and `Other` for an action of any other type, whose payload
      the reducer never reads. */
  datatype CountAction = Update(value: int) | Increment | Decrement | Other

  /** The count used when the store passes no state (the default parameter). */
  const InitialCount: int := 0

  /** The reducer. `state` is `None` when the store passes `undefined`. */
  function Count(state: Option<int>, action: CountAction): int
  {
    var prior := state.GetOr(InitialCount);
    match action
    case Update(v) => v
    case Increment => prior + 1
    case Decrement => prior - 1
    case Other => prior
  }

  /** With no prior state the reducer behaves as if the count were 0; in
      particular the store's first, unrelated action yields 0. */
  lemma NoStateCountsFromZero(action: CountAction)
    ensures Count(None, action) == Count(Some(0), action)
    ensures Count(None, Other) == 0
  {}

  /** INCREMENT adds one; DECREMENT subtracts one and has no lower bound. */
  lemma StepsMoveByOne(n: int)
    ensures Count(Some(n), Increment) == n + 1
    ensures Count(Some(n), Decrement) == n - 1
    ensures Count(Some(n), Decrement) < n
  {}

  /** INCREMENT and DECREMENT undo each other, in either order. */
  lemma IncrementDecrementCancel(n: int)
    ensures Count(Some(Count(Some(n), Increment)), Decrement) == n
    ensures Count(Some(Count(Some(n), Decrement)), Increment) == n
  {}

  /** UPDATE ignores the previous count, so dispatching it twice is the same
      as dispatching it once. */
  lemma UpdateIgnoresState(prior: Option<int>, other: Option<int>, v: int)
    ensures Count(prior, Update(v)) == v == Count(other, Update(v))
    ensures Count(Some(Count(prior, Update(v))), Update(v)) == Count(prior, Update(v))
  {}

  /** An action of any other type returns the state unchanged. */
  lemma OtherKeepsCount(n: int)
    ensures Count(Some(n), Other) == n
  {}

  /** The count after the store dispatches `actions` in order from `start`. */
  function Replay(start: int, actions: seq<CountAction>): int
    decreases |actions|
  {
    if actions == [] then start
    else Count(Some(Replay(start, actions[..|actions| - 1])), actions[|actions| - 1])
  }

  predicate UpdateFree(actions: seq<CountAction>)
  {
    forall i :: 0 <= i < |actions| ==> !actions[i].Update?
  }

  /** Dispatching two batches is dispatching the second from where the first
      ended. */
  lemma {:induction false} ReplayAppend(start: int, xs: seq<CountAction>, ys: seq<CountAction>)
    ensures Replay(start, xs + ys) == Replay(Replay(start, xs), ys)
    decreases |ys|
  {
    if ys == [] {
      assert xs + ys == xs;
    } else {
      var n := |ys| - 1;
      assert (xs + ys)[..|xs + ys| - 1] == xs + ys[..n];
      assert (xs + ys)[|xs + ys| - 1] == ys[n];
      ReplayAppend(start, xs, ys[..n]);
    }
  }

  /** Without UPDATE, the count moves by the number of INCREMENTs minus the
      number of DECREMENTs, in whatever order they come. */
  lemma {:induction false} ReplayCountsSteps(start: int, actions: seq<CountAction>)
    requires UpdateFree(actions)
    ensures Replay(start, actions)
            == start + multiset(actions)[Increment] - multiset(actions)[Decrement]
    decreases |actions|
  {
    if actions != [] {
      var n := |actions| - 1;
      var init := actions[..n];
      assert actions == init + [actions[n]];
      assert multiset(actions) == multiset(init) + multiset{actions[n]};
      ReplayCountsSteps(start, init);
    }
  }

  /** After an UPDATE, the count is its value plus the INCREMENTs minus the
      DECREMENTs dispatched since; whatever came before is forgotten. */
  lemma ReplayAfterUpdate(start: int, before: seq<CountAction>, v: int, after: seq<CountAction>)
    requires UpdateFree(after)
    ensures Replay(start, before + [Update(v)] + after)
            == v + multiset(after)[Increment] - multiset(after)[Decrement]
  {
    ReplayAppend(start, before + [Update(v)], after);
    assert (before + [Update(v)])[..|before|] == before;
    ReplayCountsSteps(Replay(start, before + [Update(v)]), after);
  }
}
