/** The action creators of the redux template's count slice. The reducer they
    feed in that package is not part of this model, so the actions are stated
    by their shape alone. */
module ReduxCountActions {
  import opened Wrappers

  /** The count actions of the redux package's action types. */
  datatype CountAction = Update(value: int) | Increment | Decrement

  /** `update(value)`: an UPDATE action carrying `value` unchanged. */
  function UpdateAction(value: int): (a: CountAction)
    ensures a.Update? && a.value == value
  {
    Update(value)
  }

  /** `increment()`: an INCREMENT action and nothing else. */
  function IncrementAction(): (a: CountAction)
    ensures a.Increment?
  {
    Increment
  }

  /** `decrement()`: a DECREMENT action and nothing else. */
  function DecrementAction(): (a: CountAction)
    ensures a.Decrement?
  {
    Decrement
  }

  /** The `value` field of an action object; `None` where it has none. */
  function ValueField(a: CountAction): Option<int>
  {
    match a
    case Update(v) => Some(v)
    case _ => None
  }

  /** The creators are deterministic and distinguishable: equal arguments give
      equal actions, the action gives back the argument, the three types
      differ and only UPDATE carries a value. */
  lemma CreatorsAreFaithful(v: int, w: int)
    ensures ValueField(UpdateAction(v)) == Some(v)
    ensures ValueField(IncrementAction()) == None && ValueField(DecrementAction()) == None
    ensures UpdateAction(v) == UpdateAction(w) <==> v == w
    ensures UpdateAction(v) != IncrementAction() && UpdateAction(v) != DecrementAction()
    ensures IncrementAction() != DecrementAction()
  {}
}
