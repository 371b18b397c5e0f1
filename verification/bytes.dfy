/**
  Unsigned 8-bit channel values and the `u8` operations the colour arithmetic is
  built from: saturating add, subtract and multiply, truncating division and
  remainder, and the `255 - x` inversion.
 */
module Bytes {

  /** An 8-bit unsigned channel value (`u8`). */
  type Byte = x: int | 0 <= x < 256

  const MAX: Byte := 255

  /** Distance between two integers on the number line. */
  function Dist(a: int, n: int): nat
  {
    if a >= n then a - n else n - a
  }

  /**
    The reference meaning of saturation: the byte nearest to `n`. A value that
    fits is kept; a value outside the range goes to the bound it overshoots.
   */
  function Clamp(n: int): (r: Byte)
    ensures 0 <= n <= MAX ==> r == n
    ensures forall b: Byte :: Dist(r, n) <= Dist(b, n)
  {
    if n < 0 then 0 else if n > MAX then MAX else n
  }

  /** `u8::saturating_add`: the sum, or 255 when it does not fit. */
  function SaturatingAdd(x: Byte, y: Byte): (r: Byte)
    ensures r == Clamp(x + y)
    ensures x <= r && y <= r
  {
    if x + y <= MAX then x + y else MAX
  }

  /** `u8::saturating_sub`: the difference, or 0 when it would go negative. */
  function SaturatingSub(x: Byte, y: Byte): (r: Byte)
    ensures r == Clamp(x - y)
    ensures r <= x
  {
    if y <= x then x - y else 0
  }

  /** `u8::saturating_mul`: the product, or 255 when it does not fit. */
  function SaturatingMul(x: Byte, y: Byte): (r: Byte)
    ensures r == Clamp(x * y)
  {
    if x * y <= MAX then x * y else MAX
  }

  /**
    `u8 / u8`. Rust truncates toward zero and panics on a zero divisor; on
    non-negative operands truncation agrees with Dafny's `/`.
   */
  function Div(x: Byte, y: Byte): (q: Byte)
    requires y != 0
    ensures q * y <= x < (q + 1) * y
    ensures q <= x
  {
    DivisionFacts(x, y);
    x / y
  }

  /** Euclid's identity for non-negative operands, with its remainder bound. */
  lemma DivisionFacts(x: nat, y: nat)
    requires y != 0
    ensures (x / y) * y + x % y == x
    ensures 0 <= x % y < y
    ensures (x / y + 1) * y == (x / y) * y + y
  {
  }

  /** `u8 % u8`: what is left after truncating division; panics on zero. */
  function Rem(x: Byte, y: Byte): (m: Byte)
    requires y != 0
    ensures Div(x, y) * y + m == x
    ensures m < y && m <= x
  {
    x % y
  }

  /** `255 - x`, which never underflows on a `u8`. */
  function Invert(x: Byte): (r: Byte)
    ensures r + x == MAX
  {
    MAX - x
  }
}
