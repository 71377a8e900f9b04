/** The action creators of the sass template's count slice. */
module SassCountActions {
  import opened Wrappers
  import opened SassCountReducer

  /** `update(value)`: an UPDATE action carrying `value` unchanged. */
  function UpdateAction(value: int): (a: CountAction)
    ensures a.Update? && a.value == value
  {
    Update(value)
  }

  /** `increment()`: an INCREMENT action, which has no payload field. */
  function IncrementAction(): (a: CountAction)
    ensures a.Increment?
  {
    Increment
  }

  /** `decrement()`: a DECREMENT action, which has no payload field. */
  function DecrementAction(): (a: CountAction)
    ensures a.Decrement?
  {
    Decrement
  }

  /** Dispatching `update(v)` sets the count to `v` whatever it was. */
  lemma DispatchUpdate(prior: Option<int>, v: int)
    ensures Count(prior, UpdateAction(v)) == v
  {}

  /** Dispatching the step creators moves the count by one. */
  lemma DispatchSteps(n: int)
    ensures Count(Some(n), IncrementAction()) == n + 1
    ensures Count(Some(n), DecrementAction()) == n - 1
  {}
}
