/** The few facts about products that the solver is not left to find by itself. */
module Arithmetic {

  function Sum(xs: seq<int>): int {
    if xs == [] then 0 else xs[0] + Sum(xs[1..])
  }

  lemma {:induction false} SumOnAppend(xs: seq<int>, x: int)
    ensures Sum(xs + [x]) == Sum(xs) + x
  {
    if xs == [] {
      assert xs + [x] == [x];
    } else {
      SumOnAppend(xs[1..], x);
      assert (xs + [x])[1..] == xs[1..] + [x];
    }
  }

  lemma TimesMonotone(a: int, b: int, x: int)
    requires a <= b && x >= 0
    ensures a * x <= b * x
  {
    assert (b - a) * x >= 0;
  }

  lemma DistributeOne(n: int, x: int)
    ensures (n + 1) * x == n * x + x
  {
  }

  lemma AtLeastOne(n: nat, x: int)
    requires n >= 1 && x > 0
    ensures n * x >= x
  {
    assert (n - 1) * x >= 0;
  }
}
