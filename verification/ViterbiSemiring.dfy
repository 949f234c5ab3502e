/**
 * The Viterbi (max-times) semiring: `plus` is the maximum, `times` the
 * ordinary product, `zero` is 0 and `one` is 1. It is a singleton whose
 * equality is decided by class alone.
 */
module Viterbi {
  import opened Wrappers
  import opened Semirings

  /** The single instance: the class has no state. */
  datatype ViterbiSemiring = Singleton {

    /** Math.max(x, y). */
    function Plus(x: real, y: real): (r: real)
      ensures r >= x && r >= y
      ensures r == x || r == y
    {
      if x >= y then x else y
    }

    /** The ordinary product: zero exactly when a factor is, and 1 leaves the other factor as it is. */
    function Times(x: real, y: real): (r: real)
      ensures r == 0.0 <==> x == 0.0 || y == 0.0
      ensures x == 1.0 ==> r == y
      ensures y == 1.0 ==> r == x
    {
      x * y
    }

    /** 0: it annihilates under times and is the identity of the maximum on the non-negative reals. */
    function Zero(): (r: real)
      ensures forall x: real :: Times(r, x) == r && Times(x, r) == r
      ensures forall x: real :: x >= r ==> Plus(r, x) == x && Plus(x, r) == x
    {
      0.0
    }

    /** 1: the identity of times, on both sides. */
    function One(): (r: real)
      ensures forall x: real :: Times(r, x) == x && Times(x, r) == x
    {
      1.0
    }

    /** Any object of the same class is equal; null and other classes are not. */
    function Equals(other: Option<AlgebraClass>): (r: bool)
      ensures r <==> other == Some(ViterbiSemiringClass)
    {
      match other
      case None => false
      case Some(c) => c == ViterbiSemiringClass
    }

    /** The record form, used to run the inside and outside passes under this algebra. */
    function AsSemiring(): (s: Semiring)
      ensures s.zero == Zero() && s.one == One()
      ensures forall x: real, y: real :: s.plus(x, y) == Plus(x, y) && s.times(x, y) == Times(x, y)
    {
      Semiring(Zero(), One(), (x: real, y: real) => Plus(x, y), (x: real, y: real) => Times(x, y))
    }
  }

  /** The shared instance. */
  function GetInstance(): (v: ViterbiSemiring)
    ensures v.Equals(Some(ViterbiSemiringClass))
  {
    Singleton
  }

  lemma PlusCommutative(v: ViterbiSemiring, x: real, y: real)
    ensures v.Plus(x, y) == v.Plus(y, x)
  {}

  lemma PlusAssociative(v: ViterbiSemiring, x: real, y: real, z: real)
    ensures v.Plus(v.Plus(x, y), z) == v.Plus(x, v.Plus(y, z))
  {}

  lemma PlusIdempotent(v: ViterbiSemiring, x: real)
    ensures v.Plus(x, x) == x
  {}

  lemma OneIsTimesIdentity(v: ViterbiSemiring, x: real)
    ensures v.Times(v.One(), x) == x && v.Times(x, v.One()) == x
  {}

  lemma TimesCommutativeAssociative(v: ViterbiSemiring, x: real, y: real, z: real)
    ensures v.Times(x, y) == v.Times(y, x)
    ensures v.Times(v.Times(x, y), z) == v.Times(x, v.Times(y, z))
  {}

  /** `zero()` is an identity of `plus` exactly on the non-negative reals. */
  lemma ZeroIsPlusIdentityIff(v: ViterbiSemiring, x: real)
    ensures v.Plus(v.Zero(), x) == x <==> x >= 0.0
    ensures v.Plus(x, v.Zero()) == x <==> x >= 0.0
  {}

  lemma ZeroAnnihilates(v: ViterbiSemiring, x: real)
    ensures v.Times(v.Zero(), x) == v.Zero() && v.Times(x, v.Zero()) == v.Zero()
  {}

  /** `times` distributes over `plus` when the common factor is non-negative. */
  lemma TimesDistributesOverPlus(v: ViterbiSemiring, a: real, b: real, c: real)
    requires a >= 0.0
    ensures v.Times(a, v.Plus(b, c)) == v.Plus(v.Times(a, b), v.Times(a, c))
  {
    if b >= c {
      assert a * b >= a * c by { assert a * (b - c) >= 0.0; }
    } else {
      assert a * c >= a * b by { assert a * (c - b) >= 0.0; }
    }
  }

  /** A negative factor reverses the order, so distributivity fails without the sign condition. */
  lemma DistributivityNeedsNonNegativeFactor(v: ViterbiSemiring)
    ensures v.Times(-1.0, v.Plus(1.0, 2.0)) != v.Plus(v.Times(-1.0, 1.0), v.Times(-1.0, 2.0))
  {}

  lemma InstancesAreEqual(a: ViterbiSemiring, b: ViterbiSemiring)
    ensures a == b == GetInstance()
    ensures a.Equals(Some(ViterbiSemiringClass)) && !a.Equals(None)
  {}
}
