/**
  The three-channel colour value and its channel-wise arithmetic: saturating
  `+`, `-`, `*`, truncating `/` and `%`, the `255 - x` negation, each both
  pairwise and with a scalar byte, plus the compound-assignment forms.
 */
module Colors {
  import opened Bytes

  /** A colour with channels stored in the order r, g, b. */
  datatype Color = Color(r: Byte, g: Byte, b: Byte)
  {
    /** Channel `i` of the underlying three-element array (0 = r, 1 = g, 2 = b). */
    function At(i: nat): Byte
      requires i < 3
    {
      if i == 0 then r else if i == 1 then g else b
    }
  }

  const Black := Color(0, 0, 0)
  const White := Color(255, 255, 255)
  const Red := Color(255, 0, 0)
  const Green := Color(0, 255, 0)
  const Blue := Color(0, 0, 255)

  /** Channel-wise `a <= b`. */
  predicate Leq(a: Color, b: Color)
  {
    forall i :: 0 <= i < 3 ==> a.At(i) <= b.At(i)
  }

  /** Every channel is non-zero, so the colour may be used as a divisor. */
  predicate NonZero(c: Color)
  {
    c.r != 0 && c.g != 0 && c.b != 0
  }

  /** The colour whose three channels all equal `t`. */
  function Splat(t: Byte): (c: Color)
    ensures forall i :: 0 <= i < 3 ==> c.At(i) == t
  {
    Color(t, t, t)
  }

  // ---------------------------------------------------------------------------
  // Pairwise operators

  /** `Color + Color`: channel-wise sum saturated at 255. */
  function Add(a: Color, b: Color): (c: Color)
    ensures forall i :: 0 <= i < 3 ==> c.At(i) == Clamp(a.At(i) + b.At(i))
    ensures Leq(a, c) && Leq(b, c)
  {
    Color(SaturatingAdd(a.r, b.r), SaturatingAdd(a.g, b.g), SaturatingAdd(a.b, b.b))
  }

  /** `Color - Color`: channel-wise difference saturated at 0. */
  function Sub(a: Color, b: Color): (c: Color)
    ensures forall i :: 0 <= i < 3 ==> c.At(i) == Clamp(a.At(i) - b.At(i))
    ensures Leq(c, a)
  {
    Color(SaturatingSub(a.r, b.r), SaturatingSub(a.g, b.g), SaturatingSub(a.b, b.b))
  }

  /** `Color * Color`: channel-wise product saturated at 255. */
  function Mul(a: Color, b: Color): (c: Color)
    ensures forall i :: 0 <= i < 3 ==> c.At(i) == Clamp(a.At(i) * b.At(i))
  {
    Color(SaturatingMul(a.r, b.r), SaturatingMul(a.g, b.g), SaturatingMul(a.b, b.b))
  }

  /** `Color / Color`: channel-wise truncating quotient; panics on a zero channel. */
  function Div(a: Color, b: Color): (c: Color)
    requires NonZero(b)
    ensures forall i :: 0 <= i < 3 ==> c.At(i) * b.At(i) <= a.At(i) < (c.At(i) + 1) * b.At(i)
    ensures Leq(c, a)
  {
    Color(Bytes.Div(a.r, b.r), Bytes.Div(a.g, b.g), Bytes.Div(a.b, b.b))
  }

  /** `Color % Color`: channel-wise remainder; panics on a zero channel. */
  function Rem(a: Color, b: Color): (c: Color)
    requires NonZero(b)
    ensures forall i :: 0 <= i < 3 ==> Div(a, b).At(i) * b.At(i) + c.At(i) == a.At(i)
    ensures forall i :: 0 <= i < 3 ==> c.At(i) < b.At(i)
  {
    Color(Bytes.Rem(a.r, b.r), Bytes.Rem(a.g, b.g), Bytes.Rem(a.b, b.b))
  }

  /** `-Color`: the inverted colour, each channel `255 - x`. */
  function Neg(a: Color): (c: Color)
    ensures forall i :: 0 <= i < 3 ==> c.At(i) + a.At(i) == MAX
  {
    Color(Invert(a.r), Invert(a.g), Invert(a.b))
  }

  // ---------------------------------------------------------------------------
  // Operators with a scalar `u8` on the right

  /** `Color + u8`: `t` added to every channel, saturated at 255. */
  function AddScalar(a: Color, t: Byte): (c: Color)
    ensures forall i :: 0 <= i < 3 ==> c.At(i) == Clamp(a.At(i) + t)
    ensures Leq(a, c)
  {
    Color(SaturatingAdd(a.r, t), SaturatingAdd(a.g, t), SaturatingAdd(a.b, t))
  }

  /** `Color - u8`: `t` taken from every channel, saturated at 0. */
  function SubScalar(a: Color, t: Byte): (c: Color)
    ensures forall i :: 0 <= i < 3 ==> c.At(i) == Clamp(a.At(i) - t)
    ensures Leq(c, a)
  {
    Color(SaturatingSub(a.r, t), SaturatingSub(a.g, t), SaturatingSub(a.b, t))
  }

  /** `Color * u8`: every channel scaled by `t`, saturated at 255. */
  function MulScalar(a: Color, t: Byte): (c: Color)
    ensures forall i :: 0 <= i < 3 ==> c.At(i) == Clamp(a.At(i) * t)
  {
    Color(SaturatingMul(a.r, t), SaturatingMul(a.g, t), SaturatingMul(a.b, t))
  }

  /** `Color / u8`: every channel divided by `t`, truncating; panics when `t` is 0. */
  function DivScalar(a: Color, t: Byte): (c: Color)
    requires t != 0
    ensures forall i :: 0 <= i < 3 ==> c.At(i) * t <= a.At(i) < (c.At(i) + 1) * t
    ensures Leq(c, a)
  {
    Color(Bytes.Div(a.r, t), Bytes.Div(a.g, t), Bytes.Div(a.b, t))
  }

  /** `Color % u8`: every channel's remainder modulo `t`; panics when `t` is 0. */
  function RemScalar(a: Color, t: Byte): (c: Color)
    requires t != 0
    ensures forall i :: 0 <= i < 3 ==> DivScalar(a, t).At(i) * t + c.At(i) == a.At(i)
    ensures forall i :: 0 <= i < 3 ==> c.At(i) < t
  {
    Color(Bytes.Rem(a.r, t), Bytes.Rem(a.g, t), Bytes.Rem(a.b, t))
  }

  // ---------------------------------------------------------------------------
  // Compound assignments: each rewrites the channels of `c` one after another,
  // and ends equal to the corresponding binary operator.

  method AddAssign(c: Color, rhs: Color) returns (c': Color)
    ensures c' == Add(c, rhs)
  {
    c' := c;
    c' := c'.(r := SaturatingAdd(c'.r, rhs.r));
    c' := c'.(g := SaturatingAdd(c'.g, rhs.g));
    c' := c'.(b := SaturatingAdd(c'.b, rhs.b));
  }

  method SubAssign(c: Color, rhs: Color) returns (c': Color)
    ensures c' == Sub(c, rhs)
  {
    c' := c;
    c' := c'.(r := SaturatingSub(c'.r, rhs.r));
    c' := c'.(g := SaturatingSub(c'.g, rhs.g));
    c' := c'.(b := SaturatingSub(c'.b, rhs.b));
  }

  method MulAssign(c: Color, rhs: Color) returns (c': Color)
    ensures c' == Mul(c, rhs)
  {
    c' := c;
    c' := c'.(r := SaturatingMul(c'.r, rhs.r));
    c' := c'.(g := SaturatingMul(c'.g, rhs.g));
    c' := c'.(b := SaturatingMul(c'.b, rhs.b));
  }

  method DivAssign(c: Color, rhs: Color) returns (c': Color)
    requires NonZero(rhs)
    ensures c' == Div(c, rhs)
  {
    c' := c;
    c' := c'.(r := Bytes.Div(c'.r, rhs.r));
    c' := c'.(g := Bytes.Div(c'.g, rhs.g));
    c' := c'.(b := Bytes.Div(c'.b, rhs.b));
  }

  method RemAssign(c: Color, rhs: Color) returns (c': Color)
    requires NonZero(rhs)
    ensures c' == Rem(c, rhs)
  {
    c' := c;
    c' := c'.(r := Bytes.Rem(c'.r, rhs.r));
    c' := c'.(g := Bytes.Rem(c'.g, rhs.g));
    c' := c'.(b := Bytes.Rem(c'.b, rhs.b));
  }

  method AddAssignScalar(c: Color, t: Byte) returns (c': Color)
    ensures c' == AddScalar(c, t)
  {
    c' := c;
    c' := c'.(r := SaturatingAdd(c'.r, t));
    c' := c'.(g := SaturatingAdd(c'.g, t));
    c' := c'.(b := SaturatingAdd(c'.b, t));
  }

  method SubAssignScalar(c: Color, t: Byte) returns (c': Color)
    ensures c' == SubScalar(c, t)
  {
    c' := c;
    c' := c'.(r := SaturatingSub(c'.r, t));
    c' := c'.(g := SaturatingSub(c'.g, t));
    c' := c'.(b := SaturatingSub(c'.b, t));
  }

  method MulAssignScalar(c: Color, t: Byte) returns (c': Color)
    ensures c' == MulScalar(c, t)
  {
    c' := c;
    c' := c'.(r := SaturatingMul(c'.r, t));
    c' := c'.(g := SaturatingMul(c'.g, t));
    c' := c'.(b := SaturatingMul(c'.b, t));
  }

  method DivAssignScalar(c: Color, t: Byte) returns (c': Color)
    requires t != 0
    ensures c' == DivScalar(c, t)
  {
    c' := c;
    c' := c'.(r := Bytes.Div(c'.r, t));
    c' := c'.(g := Bytes.Div(c'.g, t));
    c' := c'.(b := Bytes.Div(c'.b, t));
  }

  method RemAssignScalar(c: Color, t: Byte) returns (c': Color)
    requires t != 0
    ensures c' == RemScalar(c, t)
  {
    c' := c;
    c' := c'.(r := Bytes.Rem(c'.r, t));
    c' := c'.(g := Bytes.Rem(c'.g, t));
    c' := c'.(b := Bytes.Rem(c'.b, t));
  }

  // ---------------------------------------------------------------------------
  // Properties

  /** The unit checks of the colour operators, including saturation to white and to black. */
  lemma OperatorExamples()
    ensures Mul(Color(75, 75, 75), Color(100, 100, 100)) == White
    ensures Sub(Color(50, 50, 50), Color(20, 20, 20)) == Color(30, 30, 30)
    ensures SubScalar(Color(30, 30, 30), 20) == Color(10, 10, 10)
    ensures SubScalar(Color(30, 30, 30), 40) == Black
    ensures SubScalar(Color(10, 10, 10), 20) == Black
  {
  }

  /** Negation is an involution. */
  lemma NegInvolution(c: Color)
    ensures Neg(Neg(c)) == c
  {
  }

  /** Inverting a saturated sum is subtracting from the inverted colour. */
  lemma NegOfAdd(a: Color, b: Color)
    ensures Neg(Add(a, b)) == Sub(Neg(a), b)
  {
  }

  /** Saturating `+` and `*` do not depend on operand order. */
  lemma AddMulCommute(a: Color, b: Color)
    ensures Add(a, b) == Add(b, a)
    ensures Mul(a, b) == Mul(b, a)
  {
  }

  /** Each scalar operator is the pairwise operator against a uniform colour. */
  lemma ScalarIsPairwise(a: Color, t: Byte)
    ensures AddScalar(a, t) == Add(a, Splat(t))
    ensures SubScalar(a, t) == Sub(a, Splat(t))
    ensures MulScalar(a, t) == Mul(a, Splat(t))
    ensures t != 0 ==> DivScalar(a, t) == Div(a, Splat(t))
    ensures t != 0 ==> RemScalar(a, t) == Rem(a, Splat(t))
  {
  }

  /** Adding or subtracting zero, and scaling or dividing by one, change nothing. */
  lemma ScalarIdentities(c: Color)
    ensures AddScalar(c, 0) == c
    ensures SubScalar(c, 0) == c
    ensures MulScalar(c, 1) == c
    ensures DivScalar(c, 1) == c
  {
  }

  /** `(c + t) - t` undoes the addition exactly when no channel saturated. */
  lemma AddSubRoundTrip(c: Color, t: Byte)
    ensures SubScalar(AddScalar(c, t), t) == c <==> (forall i :: 0 <= i < 3 ==> c.At(i) + t <= MAX)
  {
    var back := SubScalar(AddScalar(c, t), t);
    forall i | 0 <= i < 3
      ensures back.At(i) == c.At(i) <==> c.At(i) + t <= MAX
    {
    }
    assert back == c <==> back.At(0) == c.At(0) && back.At(1) == c.At(1) && back.At(2) == c.At(2);
  }
}
