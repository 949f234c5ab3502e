/**
 * Algebras over double-precision values, modelled over `real`.
 * A `Semiring` carries the four operations every algebra offers; a
 * `SemiringExt` adds `minus` and `divide`, which the marginal and adjoint
 * phases of the inside-outside algorithm need.
 */
module Semirings {

  datatype Semiring = Semiring(
    zero: real,
    one: real,
    plus: (real, real) -> real,
    times: (real, real) -> real)

  datatype SemiringExt = SemiringExt(
    base: Semiring,
    minus: (real, real) -> real,
    divide: (real, real) -> real)

  /** The class of an algebra object; two algebras are equal when their classes are. */
  datatype AlgebraClass = RealAlgebraClass | LogSemiringClass | ViterbiSemiringClass

  /** Division of doubles; a zero divisor (NaN or infinity in IEEE arithmetic) is not modelled and yields 0. */
  function RealDivide(x: real, y: real): real {
    if y == 0.0 then 0.0 else x / y
  }

  function RealPlus(x: real, y: real): real { x + y }

  function RealTimes(x: real, y: real): real { x * y }

  function RealMinus(x: real, y: real): real { x - y }

  /** The ordinary real algebra: sum, product, difference and ratio. */
  function RealAlgebra(): SemiringExt {
    SemiringExt(Semiring(0.0, 1.0, RealPlus, RealTimes), RealMinus, RealDivide)
  }
}
