/** Order-preserving selection from a sequence, shared by the menu filter and
    the note search. */
module Sequences {

  /** `xs` is obtained from `ys` by deleting some elements and keeping the
      relative order of the others. */
  predicate IsSubsequence<T(==)>(xs: seq<T>, ys: seq<T>)
    decreases |ys|
  {
    if ys == [] then xs == []
    else (xs != [] && xs[0] == ys[0] && IsSubsequence(xs[1..], ys[1..]))
         || IsSubsequence(xs, ys[1..])
  }
}
