/** The state-updating exercise: a number that starts at 8 and two buttons
    that move it by one. */
module NumberCounter {

  const InitialNumber: int := 8

  class ClassComponentUpdatingState {
    /** The `aNumber` state field. */
    var aNumber: int
    /** How many times each button has been pressed since construction. */
    ghost var increments: nat
    ghost var decrements: nat

    /** After any presses, in any order, the number is 8 plus the increments
        minus the decrements. */
    ghost predicate Valid()
      reads this
    {
      aNumber == InitialNumber + increments - decrements
    }

    constructor ()
      ensures Valid()
      ensures aNumber == 8 && increments == 0 && decrements == 0
    {
      aNumber := InitialNumber;
      increments, decrements := 0, 0;
    }

    /** `increment`: raises the number by exactly one. */
    method Increment()
      requires Valid()
      modifies this
      ensures Valid()
      ensures aNumber == old(aNumber) + 1
      ensures increments == old(increments) + 1 && decrements == old(decrements)
    {
      aNumber := aNumber + 1;
      increments := increments + 1;
    }

    /** `decrement`: lowers the number by exactly one, with no floor. */
    method Decrement()
      requires Valid()
      modifies this
      ensures Valid()
      ensures aNumber == old(aNumber) - 1
      ensures decrements == old(decrements) + 1 && increments == old(increments)
    {
      aNumber := aNumber - 1;
      decrements := decrements + 1;
    }
  }
}
