/** Go's int64: its range, the wrap-around of its sums and products, and its
    quotient, which truncates toward zero. */
module Int64 {
  const MAX: int := 0x7fff_ffff_ffff_ffff
  const MIN: int := -0x8000_0000_0000_0000
  const MODULUS: int := 0x1_0000_0000_0000_0000

  predicate InRange(x: int) {
    MIN <= x <= MAX
  }

  /** The int64 that Go stores for the mathematical integer x. */
  function Wrap(x: int): (r: int)
    ensures InRange(r)
    ensures InRange(x) ==> r == x
  {
    (x - MIN) % MODULUS + MIN
  }

  /** Wrapping once at the end is wrapping at every step. */
  lemma WrapAdd(x: int, y: int)
    ensures Wrap(Wrap(x) + y) == Wrap(x + y)
  {
  }

  /** Go's x / y for y != 0, before it is stored. */
  function TruncDiv(x: int, y: int): (q: int)
    requires y != 0
  {
    if x >= 0 then x / y else -((-x) / y)
  }
}
