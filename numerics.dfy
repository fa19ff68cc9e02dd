/** External numeric primitives.

    The geometry works on exact reals. Trigonometry, the square root behind a
    Euclidean norm and the stereonet conversion of a rake into a plunge and a
    bearing are floating-point library code outside the model; they are
    passed around as a record of function values, and whatever a lemma needs
    of them is stated as a law about the one argument it uses. */
module Numerics {

  /** The primitives. Angles are in degrees (the `radians` conversion is
      folded into the functions). `rakeToPlungeBearing(strike, dip, rake)`
      stands for the stereonet `rake` followed by `geographic2plunge_bearing`
      and returns `(plunge, bearing)`. */
  datatype Numerics = Numerics(
    sin: real -> real,
    cos: real -> real,
    tan: real -> real,
    sqrt: real -> real,
    rakeToPlungeBearing: (real, real, real) -> (real, real))

  /** `sqrt` behaves as the square root at `x`. */
  predicate SqrtAt(num: Numerics, x: real)
  {
    x >= 0.0 ==> num.sqrt(x) >= 0.0 && num.sqrt(x) * num.sqrt(x) == x
  }

  /** sin^2 + cos^2 == 1 at the angle `d`. */
  predicate PythagoreanAt(num: Numerics, d: real)
  {
    num.sin(d) * num.sin(d) + num.cos(d) * num.cos(d) == 1.0
  }

  /** Turning an azimuth back by a quarter turn: sin(d - 90) == -cos(d) and
      cos(d - 90) == sin(d). */
  predicate QuarterTurnAt(num: Numerics, d: real)
  {
    num.sin(d - 90.0) == -num.cos(d) && num.cos(d - 90.0) == num.sin(d)
  }
}
