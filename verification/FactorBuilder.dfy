/**
 * Linear constraints of the relaxation, as "factors" (g, G) read as
 * g - G.x >= 0, or g - G.x == 0 for an equality. Row factors come from rows
 * of the LP matrix, bound factors from the bounds of one column. The
 * builders make bound factors from finite variable bounds and split an
 * equality row into a pair of inequalities.
 */
module FactorBuilding {
  import opened Wrappers

  /** A sparse vector as (column, value) entries; a column without an entry is 0. */
  type SparseVec = seq<(int, real)>

  /** G.x for an assignment x of values to columns. */
  function Dot(G: SparseVec, x: int -> real): real {
    if G == [] then 0.0 else G[0].1 * x(G[0].0) + Dot(G[1..], x)
  }

  /** -G, entry by entry. */
  function Neg(G: SparseVec): (r: SparseVec)
    ensures |r| == |G| && forall i :: 0 <= i < |G| ==> r[i] == (G[i].0, -G[i].1)
  {
    seq(|G|, i requires 0 <= i < |G| => (G[i].0, -G[i].1))
  }

  /** (-G).x is -(G.x). */
  lemma {:induction false} DotNeg(G: SparseVec, x: int -> real)
    ensures Dot(Neg(G), x) == -Dot(G, x)
  {
    if G != [] {
      assert Neg(G)[1..] == Neg(G[1..]);
      DotNeg(G[1..], x);
    }
  }

  /** A one-entry vector {c: v} gives v * x_c. */
  lemma DotSingle(c: int, v: real)
    ensures forall x: int -> real :: Dot([(c, v)], x) == v * x(c)
  {
    forall x: int -> real
      ensures Dot([(c, v)], x) == v * x(c)
    {
      assert [(c, v)][1..] == [];
    }
  }

  /** The sense of a row of the LP matrix. */
  datatype RowFactorType = RowLower | RowEq | RowUpper

  /** Which bound of a column a bound factor comes from. */
  datatype Lu = Lower | Upper

  /** Whether a column bound is finite. */
  datatype Bound = Finite(value: real) | Infinite

  /**
   * A factor: one from row rowIdx of the LP matrix, one from a bound of
   * column colIdx, or one of a kind defined elsewhere, with its own answer
   * to whether it is an equality.
   */
  datatype Factor =
    | RowFactor(g: real, G: SparseVec, rowIdx: int, rtype: RowFactorType)
    | BoundFactor(g: real, G: SparseVec, colIdx: int, lu: Lu)
    | OtherFactor(g: real, G: SparseVec, eq: bool)

  /** Whether the factor is an equality: a row factor of type EQ; a bound factor never. */
  function IsEq(f: Factor): (r: bool)
    ensures f.RowFactor? ==> (r <==> f.rtype == RowEq)
    ensures f.BoundFactor? ==> !r
  {
    match f
    case RowFactor(_, _, _, rtype) => rtype == RowEq
    case BoundFactor(_, _, _, _) => false
    case OtherFactor(_, _, eq) => eq
  }

  /** Whether x satisfies the factor: g - G.x == 0 for an equality, g - G.x >= 0 otherwise. */
  predicate Holds(f: Factor, x: int -> real) {
    if IsEq(f) then f.g - Dot(f.G, x) == 0.0 else f.g - Dot(f.G, x) >= 0.0
  }

  /**
   * The factor for the lower bound lb of column colIdx, none when lb is
   * infinite: lb <= x_i becomes -lb - (-x_i) >= 0.
   */
  function GetBoundFactorLower(lb: Bound, colIdx: int): (r: Option<Factor>)
    ensures r.None? <==> lb.Infinite?
    ensures r.Some? ==> r.value.BoundFactor? && r.value.colIdx == colIdx && r.value.lu == Lower && !IsEq(r.value)
    ensures r.Some? ==> forall x: int -> real :: Holds(r.value, x) <==> x(colIdx) >= lb.value
  {
    DotSingle(colIdx, -1.0);
    if lb.Finite? then Some(BoundFactor(-lb.value, [(colIdx, -1.0)], colIdx, Lower)) else None
  }

  /**
   * The factor for the upper bound ub of column colIdx, none when ub is
   * infinite: x_i <= ub becomes ub - x_i >= 0.
   */
  function GetBoundFactorUpper(ub: Bound, colIdx: int): (r: Option<Factor>)
    ensures r.None? <==> ub.Infinite?
    ensures r.Some? ==> r.value.BoundFactor? && r.value.colIdx == colIdx && r.value.lu == Upper && !IsEq(r.value)
    ensures r.Some? ==> forall x: int -> real :: Holds(r.value, x) <==> x(colIdx) <= ub.value
  {
    DotSingle(colIdx, 1.0);
    if ub.Finite? then Some(BoundFactor(ub.value, [(colIdx, 1.0)], colIdx, Upper)) else None
  }

  /**
   * The split of an equality factor as the repository writes it: the second
   * factor negates g but keeps G as it is.
   */
  function GetEqFactorAsLeqPairAsWritten(eq: Factor): (r: Result<(Factor, Factor), string>)
    ensures !IsEq(eq) ==> r == Failure("Input factor must be an equality")
    ensures r.Success? <==> eq.RowFactor? && eq.rtype == RowEq
    ensures r.Success? ==> r.value.0 == RowFactor(eq.g, eq.G, eq.rowIdx, RowUpper)
    ensures r.Success? ==> r.value.1 == RowFactor(-eq.g, eq.G, eq.rowIdx, RowLower)
  {
    if !IsEq(eq) then Failure("Input factor must be an equality")
    else
      match eq
      case RowFactor(g, G, rowIdx, _) =>
        Success((RowFactor(g, G, rowIdx, RowUpper), RowFactor(-g, G, rowIdx, RowLower)))
      case BoundFactor(_, _, _, _) => Failure("Bounds factors are currently never equality constraints.")
      case OtherFactor(_, _, _) => Failure("not implemented")
  }

  /**
   * The as-written split is not equivalent to the equality: with g = 1 and
   * G = {0: 1}, x_0 = 1 satisfies the equality but not the second factor.
   */
  lemma AsWrittenSplitLosesSolutions()
    ensures var eq := RowFactor(1.0, [(0, 1.0)], 0, RowEq);
            var x := (i: int) => 1.0;
            && GetEqFactorAsLeqPairAsWritten(eq).Success?
            && Holds(eq, x)
            && !Holds(GetEqFactorAsLeqPairAsWritten(eq).value.1, x)
  {
    var eq := RowFactor(1.0, [(0, 1.0)], 0, RowEq);
    var x := (i: int) => 1.0;
    assert Dot([(0, 1.0)], x) == 1.0 by {
      assert [(0, 1.0)][1..] == [];
    }
  }

  /**
   * What the as-written pair accepts, for every point: G.x is at most g and at
   * most -g, so the pair is the single bound G.x <= min(g, -g).
   */
  lemma AsWrittenPairHoldsIff(eq: Factor, x: int -> real)
    requires GetEqFactorAsLeqPairAsWritten(eq).Success?
    ensures var p := GetEqFactorAsLeqPairAsWritten(eq).value;
            Holds(p.0, x) && Holds(p.1, x) <==> Dot(eq.G, x) <= eq.g && Dot(eq.G, x) <= -eq.g
  {
    var p := GetEqFactorAsLeqPairAsWritten(eq).value;
    assert !IsEq(p.0) && !IsEq(p.1);
  }

  /** For g > 0 the as-written pair rejects every solution of the equality. */
  lemma AsWrittenPairRejectsAllSolutions(eq: Factor, x: int -> real)
    requires GetEqFactorAsLeqPairAsWritten(eq).Success? && eq.g > 0.0 && Holds(eq, x)
    ensures var p := GetEqFactorAsLeqPairAsWritten(eq).value;
            !(Holds(p.0, x) && Holds(p.1, x))
  {
    AsWrittenPairHoldsIff(eq, x);
  }

  /**
   * For g <= 0 the as-written pair accepts every solution of the equality, and
   * also every point with G.x < g, where the equality fails.
   */
  lemma AsWrittenPairWidensForNonPositive(eq: Factor, x: int -> real)
    requires GetEqFactorAsLeqPairAsWritten(eq).Success? && eq.g <= 0.0
    requires Holds(eq, x) || Dot(eq.G, x) < eq.g
    ensures var p := GetEqFactorAsLeqPairAsWritten(eq).value;
            Holds(p.0, x) && Holds(p.1, x)
    ensures Dot(eq.G, x) < eq.g ==> !Holds(eq, x)
  {
    AsWrittenPairHoldsIff(eq, x);
  }

  /**
   * Splits an equality factor g - G.x == 0 into the inequalities
   * g - G.x >= 0 (type UPPER) and -g - (-G).x >= 0 (type LOWER), both on the
   * same row. Fails for anything that is not an equality, which includes
   * every bound factor, and for factors of other kinds.
   */
  function GetEqFactorAsLeqPair(eq: Factor): (r: Result<(Factor, Factor), string>)
    ensures !IsEq(eq) ==> r == Failure("Input factor must be an equality")
    ensures eq.BoundFactor? ==> r.Failure?
    ensures r.Success? <==> eq.RowFactor? && eq.rtype == RowEq
    ensures r.Success? ==> r.value.0 == RowFactor(eq.g, eq.G, eq.rowIdx, RowUpper)
    ensures r.Success? ==> r.value.1 == RowFactor(-eq.g, Neg(eq.G), eq.rowIdx, RowLower)
  {
    if !IsEq(eq) then Failure("Input factor must be an equality")
    else
      match eq
      case RowFactor(g, G, rowIdx, _) =>
        Success((RowFactor(g, G, rowIdx, RowUpper), RowFactor(-g, Neg(G), rowIdx, RowLower)))
      case BoundFactor(_, _, _, _) => Failure("Bounds factors are currently never equality constraints.")
      case OtherFactor(_, _, _) => Failure("not implemented")
  }

  /** The pair holds exactly where the equality does, and neither factor of it is an equality. */
  lemma LeqPairEquivalent(eq: Factor, x: int -> real)
    requires GetEqFactorAsLeqPair(eq).Success?
    ensures var p := GetEqFactorAsLeqPair(eq).value;
            && !IsEq(p.0) && !IsEq(p.1)
            && (Holds(eq, x) <==> Holds(p.0, x) && Holds(p.1, x))
  {
    DotNeg(eq.G, x);
  }
}
