/** Counting the elements of a sequence. */
module Counting {

  function CountOf<T>(xs: seq<T>, p: T -> bool): nat {
    if xs == [] then 0
    else CountOf(xs[..|xs| - 1], p) + if p(xs[|xs| - 1]) then 1 else 0
  }

  lemma CountOnAppend<T>(xs: seq<T>, x: T, p: T -> bool)
    ensures CountOf(xs + [x], p) == CountOf(xs, p) + if p(x) then 1 else 0
  {
    assert (xs + [x])[..|xs|] == xs;
  }
}
