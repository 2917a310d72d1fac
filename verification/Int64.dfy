/** Go's `int64`, the representation of `time.Duration`. */
module Int64 {

  const TWO_63: int := 0x8000_0000_0000_0000
  const MAX: int := TWO_63 - 1
  const MIN: int := -TWO_63

  predicate Fits(x: int) { MIN <= x <= MAX }

  /** Two's complement wrap-around of an integer operation. */
  function Wrap(x: int): (r: int)
    ensures Fits(r)
    ensures Fits(x) <==> r == x
    ensures exists turns: int :: x == r + turns * 0x1_0000_0000_0000_0000
  {
    assert x == (x + TWO_63) % (2 * TWO_63) - TWO_63 + (x + TWO_63) / (2 * TWO_63) * 0x1_0000_0000_0000_0000;
    (x + TWO_63) % (2 * TWO_63) - TWO_63
  }

  /** `time.Time.Sub` clamps instead of wrapping. */
  function Saturate(x: int): (r: int)
    ensures Fits(r)
    ensures Fits(x) <==> r == x
    ensures x > r ==> r == 0x7FFF_FFFF_FFFF_FFFF
    ensures x < r ==> r == -0x8000_0000_0000_0000
  {
    if x < MIN then MIN else if x > MAX then MAX else x
  }
}
