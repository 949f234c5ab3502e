/**
 * What the inside-outside reference definitions mean: on a topologically
 * sorted hypergraph the computed inside and outside scores solve the
 * inside and outside equations; the root's outside score is `one()`; and,
 * in the real algebra, the marginal of the root is 1 and the adjoint
 * formulas reduce to their closed forms.
 */
module InsideOutsideLemmas {
  import opened Semirings
  import opened Hypergraphs

  /** The product only looks at the scores of the tails it does not skip. */
  lemma {:induction false} ProdSkippingAgree(s: Semiring, init: real, b1: seq<real>, b2: seq<real>, tails: seq<nat>, skip: set<nat>)
    requires AllBelow(tails, |b1|) && AllBelow(tails, |b2|)
    requires forall t :: 0 <= t < |tails| && tails[t] !in skip ==> b1[tails[t]] == b2[tails[t]]
    ensures ProdSkipping(s, init, b1, tails, skip) == ProdSkipping(s, init, b2, tails, skip)
    decreases |tails|
  {
    if |tails| > 0 {
      var pre := tails[..|tails| - 1];
      assert forall t :: 0 <= t < |pre| ==> pre[t] == tails[t];
      ProdSkippingAgree(s, init, b1, b2, pre, skip);
    }
  }

  // ---------------------------------------------------------------- inside

  /** A node that heads none of the edges from position k on already has its final inside score. */
  lemma {:induction false} InsideSettled(g: Hypergraph, s: Semiring, w: Hyperpotential, k: nat, v: nat)
    requires WellFormed(g) && k <= |g.edges| && v < g.numNodes
    requires forall k' :: k <= k' < |g.edges| ==> g.edges[k'].head != v
    ensures InsidePrefix(g, s, w, k)[v] == Inside(g, s, w)[v]
    decreases |g.edges| - k
  {
    if k < |g.edges| {
      InsideSettled(g, s, w, k + 1, v);
    }
  }

  lemma {:induction false} InsidePrefixIsHeadSum(g: Hypergraph, s: Semiring, w: Hyperpotential, k: nat)
    requires WellFormed(g) && TopoSorted(g) && k <= |g.edges|
    ensures forall i :: 0 <= i < g.numNodes ==>
      InsidePrefix(g, s, w, k)[i] == HeadSum(g, s, w, Inside(g, s, w), i, k)
  {
    if k > 0 {
      InsidePrefixIsHeadSum(g, s, w, k - 1);
      var p := InsidePrefix(g, s, w, k - 1);
      var e := g.edges[k - 1];
      forall t | 0 <= t < |e.tails|
        ensures p[e.tails[t]] == Inside(g, s, w)[e.tails[t]]
      {
        InsideSettled(g, s, w, k - 1, e.tails[t]);
      }
      ProdSkippingAgree(s, s.one, p, Inside(g, s, w), e.tails, {});
    }
  }

  /**
   * On a topologically sorted graph, the inside scores solve the inside
   * equations: beta[i] is the plus-fold over the edges with head i of
   * w(e) times the product of beta over the edge's tails.
   */
  lemma InsideSolvesEquations(g: Hypergraph, s: Semiring, w: Hyperpotential)
    requires WellFormed(g) && TopoSorted(g)
    ensures InsideEquations(g, s, w, Inside(g, s, w))
  {
    InsidePrefixIsHeadSum(g, s, w, |g.edges|);
  }

  /** A node that heads no edge keeps the initial zero(). */
  lemma UnheadedNodeIsZero(g: Hypergraph, s: Semiring, w: Hyperpotential, i: nat)
    requires WellFormed(g) && i < g.numNodes
    requires forall k :: 0 <= k < |g.edges| ==> g.edges[k].head != i
    ensures Inside(g, s, w)[i] == s.zero
  {
    InsideSettled(g, s, w, 0, i);
  }

  /** The empty tail product is one(): an edge without tails adds exactly its weight to its head. */
  lemma LeafEdgeAddsItsWeight(s: Semiring, w: Hyperpotential, beta: seq<real>, e: Hyperedge)
    requires EdgeFits(e, |beta|) && e.tails == []
    requires forall x: real :: s.times(x, s.one) == x
    ensures InsideStep(s, w, beta, e) == beta[e.head := s.plus(beta[e.head], w(e))]
  {
    assert ProdSkipping(s, s.one, beta, e.tails, {}) == s.one;
    assert s.times(w(e), s.one) == w(e);
  }

  // --------------------------------------------------------------- outside

  /** Nodes that are not tails of e keep their outside score while e is visited. */
  lemma {:induction false} OutsideTailsOff(s: Semiring, w: Hyperpotential, beta: seq<real>, alpha: seq<real>, e: Hyperedge, t: nat, x: nat)
    requires |beta| == |alpha| && EdgeFits(e, |alpha|) && t <= |e.tails| && x < |alpha|
    requires forall u :: 0 <= u < |e.tails| ==> e.tails[u] != x
    ensures OutsideTails(s, w, beta, alpha, e, t)[x] == alpha[x]
  {
    if t > 0 {
      OutsideTailsOff(s, w, beta, alpha, e, t - 1, x);
    }
  }

  /** A node that is a tail of none of the edges before position m already has its final outside score. */
  lemma {:induction false} OutsideSettled(g: Hypergraph, s: Semiring, w: Hyperpotential, beta: seq<real>, m: nat, v: nat)
    requires WellFormed(g) && |beta| == g.numNodes && m <= |g.edges| && v < g.numNodes
    requires forall k, u :: 0 <= k < m && 0 <= u < |g.edges[k].tails| ==> g.edges[k].tails[u] != v
    ensures OutsideSuffix(g, s, w, beta, m)[v] == Outside(g, s, w, beta)[v]
  {
    if m > 0 {
      var e := g.edges[m - 1];
      OutsideTailsOff(s, w, beta, OutsideSuffix(g, s, w, beta, m), e, |e.tails|, v);
      OutsideSettled(g, s, w, beta, m - 1, v);
    }
  }

  lemma {:induction false} OutsideTailsIsEdgeTailSum(s: Semiring, w: Hyperpotential, beta: seq<real>, alpha: seq<real>,
                                                      alphaF: seq<real>, e: Hyperedge, t: nat)
    requires |beta| == |alpha| == |alphaF| && EdgeFits(e, |alpha|) && t <= |e.tails|
    requires forall u :: 0 <= u < |e.tails| ==> e.tails[u] != e.head
    requires alpha[e.head] == alphaF[e.head]
    ensures forall j :: 0 <= j < |alpha| ==>
      OutsideTails(s, w, beta, alpha, e, t)[j] == EdgeTailSum(s, w, beta, alphaF, e, j, alpha[j], t)
  {
    if t > 0 {
      OutsideTailsIsEdgeTailSum(s, w, beta, alpha, alphaF, e, t - 1);
      OutsideTailsOff(s, w, beta, alpha, e, t - 1, e.head);
    }
  }

  lemma {:induction false} OutsideSuffixIsTailSum(g: Hypergraph, s: Semiring, w: Hyperpotential, beta: seq<real>, k: nat)
    requires WellFormed(g) && TopoSorted(g) && |beta| == g.numNodes && k <= |g.edges|
    ensures forall j :: 0 <= j < g.numNodes ==>
      OutsideSuffix(g, s, w, beta, k)[j] == TailSum(g, s, w, beta, Outside(g, s, w, beta), j, k)
    decreases |g.edges| - k
  {
    if k < |g.edges| {
      OutsideSuffixIsTailSum(g, s, w, beta, k + 1);
      var e := g.edges[k];
      OutsideSettled(g, s, w, beta, k + 1, e.head);
      OutsideTailsIsEdgeTailSum(s, w, beta, OutsideSuffix(g, s, w, beta, k + 1), Outside(g, s, w, beta), e, |e.tails|);
    }
  }

  /**
   * On a topologically sorted graph, the outside scores solve the outside
   * equations: alpha[j] is the root's one() (zero() elsewhere) plus, edge by
   * edge in reverse order, alpha[H(e)] * w(e) * the product of beta over the
   * tails of e other than j, once per occurrence of j among the tails.
   */
  lemma OutsideSolvesEquations(g: Hypergraph, s: Semiring, w: Hyperpotential, beta: seq<real>)
    requires WellFormed(g) && TopoSorted(g) && |beta| == g.numNodes
    ensures OutsideEquations(g, s, w, beta, Outside(g, s, w, beta))
  {
    OutsideSuffixIsTailSum(g, s, w, beta, 0);
  }

  /** The root starts at one() and, being no edge's tail, stays there. */
  lemma OutsideRootIsOne(g: Hypergraph, s: Semiring, w: Hyperpotential, beta: seq<real>)
    requires WellFormed(g) && |beta| == g.numNodes && NotATail(g, g.root)
    ensures Outside(g, s, w, beta)[g.root] == s.one
  {
    OutsideSettled(g, s, w, beta, |g.edges|, g.root);
  }

  /** In the real algebra the root's marginal is 1 whenever beta[root] is not zero. */
  lemma MarginalOfRootIsOne(g: Hypergraph, w: Hyperpotential, beta: seq<real>)
    requires WellFormed(g) && |beta| == g.numNodes && NotATail(g, g.root) && beta[g.root] != 0.0
    ensures Marginals(g, RealAlgebra(), Outside(g, RealAlgebra().base, w, beta), beta)[g.root] == 1.0
  {
    OutsideRootIsOne(g, RealAlgebra().base, w, beta);
  }

  // ------------------------------------------------------- outside adjoint

  /** Visiting e changes the outside adjoint of its head only. */
  lemma {:induction false} OutsideAdjTailsOff(s: Semiring, w: Hyperpotential, beta: seq<real>, alphaAdj: seq<real>,
                                              e: Hyperedge, t: nat, x: nat)
    requires |beta| == |alphaAdj| && EdgeFits(e, |alphaAdj|) && t <= |e.tails| && x < |alphaAdj| && x != e.head
    ensures OutsideAdjTails(s, w, beta, alphaAdj, e, t)[x] == alphaAdj[x]
  {
    if t > 0 {
      OutsideAdjTailsOff(s, w, beta, alphaAdj, e, t - 1, x);
    }
  }

  /**
   * When no tail of e is its head, visiting e adds to the head the sum of its
   * tails' contributions, read from any alphaAdjF that agrees on the tails.
   */
  lemma {:induction false} OutsideAdjTailsIsHeadAdjEdgeSum(s: Semiring, w: Hyperpotential, beta: seq<real>, alphaAdj: seq<real>,
                                                           alphaAdjF: seq<real>, e: Hyperedge, t: nat)
    requires |beta| == |alphaAdj| == |alphaAdjF| && EdgeFits(e, |alphaAdj|) && t <= |e.tails|
    requires forall u :: 0 <= u < |e.tails| ==> e.tails[u] != e.head && alphaAdj[e.tails[u]] == alphaAdjF[e.tails[u]]
    ensures OutsideAdjTails(s, w, beta, alphaAdj, e, t)[e.head] == HeadAdjEdgeSum(s, w, beta, alphaAdjF, e, alphaAdj[e.head], t)
  {
    if t > 0 {
      OutsideAdjTailsIsHeadAdjEdgeSum(s, w, beta, alphaAdj, alphaAdjF, e, t - 1);
      OutsideAdjTailsOff(s, w, beta, alphaAdj, e, t - 1, e.tails[t - 1]);
    }
  }

  /** A node that heads none of the edges from position k on already has its final outside adjoint. */
  lemma {:induction false} OutsideAdjSettled(g: Hypergraph, s: SemiringExt, w: Hyperpotential, beta: seq<real>,
                                             marginalAdj: seq<real>, k: nat, v: nat)
    requires WellFormed(g) && |beta| == g.numNodes && |marginalAdj| == g.numNodes && k <= |g.edges| && v < g.numNodes
    requires forall k' :: k <= k' < |g.edges| ==> g.edges[k'].head != v
    ensures OutsideAdjPrefix(g, s, w, beta, marginalAdj, k)[v] == Hypergraphs.OutsideAdjoint(g, s, w, beta, marginalAdj)[v]
    decreases |g.edges| - k
  {
    if k < |g.edges| {
      var e := g.edges[k];
      OutsideAdjTailsOff(s.base, w, beta, OutsideAdjPrefix(g, s, w, beta, marginalAdj, k), e, |e.tails|, v);
      OutsideAdjSettled(g, s, w, beta, marginalAdj, k + 1, v);
    }
  }

  lemma {:induction false} OutsideAdjPrefixIsHeadSum(g: Hypergraph, s: SemiringExt, w: Hyperpotential, beta: seq<real>,
                                                     marginalAdj: seq<real>, k: nat)
    requires WellFormed(g) && TopoSorted(g) && |beta| == g.numNodes && |marginalAdj| == g.numNodes && k <= |g.edges|
    ensures forall i :: 0 <= i < g.numNodes ==>
      OutsideAdjPrefix(g, s, w, beta, marginalAdj, k)[i]
        == AlphaAdjHeadSum(g, s, w, beta, marginalAdj, Hypergraphs.OutsideAdjoint(g, s, w, beta, marginalAdj), i, k)
  {
    if k > 0 {
      OutsideAdjPrefixIsHeadSum(g, s, w, beta, marginalAdj, k - 1);
      var p := OutsideAdjPrefix(g, s, w, beta, marginalAdj, k - 1);
      var final := Hypergraphs.OutsideAdjoint(g, s, w, beta, marginalAdj);
      var e := g.edges[k - 1];
      forall u | 0 <= u < |e.tails|
        ensures e.tails[u] != e.head && p[e.tails[u]] == final[e.tails[u]]
      {
        var j := e.tails[u];
        assert forall k' :: k - 1 <= k' < |g.edges| ==> g.edges[k'].head != j;
        OutsideAdjSettled(g, s, w, beta, marginalAdj, k - 1, j);
      }
      OutsideAdjTailsIsHeadAdjEdgeSum(s.base, w, beta, p, final, e, |e.tails|);
      forall i | 0 <= i < g.numNodes && i != e.head
        ensures OutsideAdjPrefix(g, s, w, beta, marginalAdj, k)[i] == p[i]
      {
        OutsideAdjTailsOff(s.base, w, beta, p, e, |e.tails|, i);
      }
    }
  }

  /**
   * On a topologically sorted graph, the outside adjoints solve their
   * equations: alphaAdj[i] is its direct term plus, over the edges with
   * head i in order and their tails j in order, alphaAdj[j] * w(e) * the
   * product of beta over the tails other than j.
   */
  lemma AlphaAdjSolvesEquations(g: Hypergraph, s: SemiringExt, w: Hyperpotential, beta: seq<real>, marginalAdj: seq<real>)
    requires WellFormed(g) && TopoSorted(g) && |beta| == g.numNodes && |marginalAdj| == g.numNodes
    ensures OutsideAdjEquations(g, s, w, beta, marginalAdj, Hypergraphs.OutsideAdjoint(g, s, w, beta, marginalAdj))
  {
    OutsideAdjPrefixIsHeadSum(g, s, w, beta, marginalAdj, |g.edges|);
  }

  // -------------------------------------------------------- inside adjoint

  /** Visiting e changes the inside adjoints of its tails only. */
  lemma {:induction false} InsideAdjTailsOff(s: Semiring, w: Hyperpotential, beta: seq<real>, alpha: seq<real>, alphaAdj: seq<real>,
                                             betaAdj: seq<real>, e: Hyperedge, t: nat, x: nat)
    requires |beta| == |alpha| == |alphaAdj| == |betaAdj| && EdgeFits(e, |beta|) && t <= |e.tails| && x < |betaAdj|
    requires forall u :: 0 <= u < |e.tails| ==> e.tails[u] != x
    ensures InsideAdjTails(s, w, beta, alpha, alphaAdj, betaAdj, e, t)[x] == betaAdj[x]
  {
    if t > 0 {
      InsideAdjTailsOff(s, w, beta, alpha, alphaAdj, betaAdj, e, t - 1, x);
    }
  }

  /**
   * When no tail of e is its head, visiting e gives every node j the terms of
   * its occurrences among the tails, with the head's adjoint read from any
   * betaAdjF that agrees on the head.
   */
  lemma {:induction false} InsideAdjTailsIsEdgeSum(s: Semiring, w: Hyperpotential, beta: seq<real>, alpha: seq<real>,
                                                   alphaAdj: seq<real>, betaAdj: seq<real>, betaAdjF: seq<real>, e: Hyperedge, t: nat)
    requires |beta| == |alpha| == |alphaAdj| == |betaAdj| == |betaAdjF| && EdgeFits(e, |beta|) && t <= |e.tails|
    requires forall u :: 0 <= u < |e.tails| ==> e.tails[u] != e.head
    requires betaAdj[e.head] == betaAdjF[e.head]
    ensures forall j :: 0 <= j < |betaAdj| ==>
      InsideAdjTails(s, w, beta, alpha, alphaAdj, betaAdj, e, t)[j]
        == BetaAdjEdgeSum(s, w, beta, alpha, alphaAdj, betaAdjF, e, j, betaAdj[j], t)
  {
    if t > 0 {
      InsideAdjTailsIsEdgeSum(s, w, beta, alpha, alphaAdj, betaAdj, betaAdjF, e, t - 1);
      InsideAdjTailsOff(s, w, beta, alpha, alphaAdj, betaAdj, e, t - 1, e.head);
    }
  }

  /** A node that is a tail of none of the edges before position m already has its final inside adjoint. */
  lemma {:induction false} InsideAdjSettled(g: Hypergraph, s: SemiringExt, w: Hyperpotential, alpha: seq<real>, beta: seq<real>,
                                            marginalAdj: seq<real>, alphaAdj: seq<real>, m: nat, v: nat)
    requires WellFormed(g) && |alpha| == g.numNodes && |beta| == g.numNodes && |marginalAdj| == g.numNodes
    requires |alphaAdj| == g.numNodes && m <= |g.edges| && v < g.numNodes
    requires forall k, u :: 0 <= k < m && 0 <= u < |g.edges[k].tails| ==> g.edges[k].tails[u] != v
    ensures InsideAdjSuffix(g, s, w, alpha, beta, marginalAdj, alphaAdj, m)[v]
         == Hypergraphs.InsideAdjoint(g, s, w, alpha, beta, marginalAdj, alphaAdj)[v]
  {
    if m > 0 {
      var e := g.edges[m - 1];
      InsideAdjTailsOff(s.base, w, beta, alpha, alphaAdj, InsideAdjSuffix(g, s, w, alpha, beta, marginalAdj, alphaAdj, m), e, |e.tails|, v);
      InsideAdjSettled(g, s, w, alpha, beta, marginalAdj, alphaAdj, m - 1, v);
    }
  }

  lemma {:induction false} InsideAdjSuffixIsTailSum(g: Hypergraph, s: SemiringExt, w: Hyperpotential, alpha: seq<real>, beta: seq<real>,
                                                    marginalAdj: seq<real>, alphaAdj: seq<real>, k: nat)
    requires WellFormed(g) && TopoSorted(g) && |alpha| == g.numNodes && |beta| == g.numNodes
    requires |marginalAdj| == g.numNodes && |alphaAdj| == g.numNodes && k <= |g.edges|
    ensures forall j :: 0 <= j < g.numNodes ==>
      InsideAdjSuffix(g, s, w, alpha, beta, marginalAdj, alphaAdj, k)[j]
        == BetaAdjTailSum(g, s, w, alpha, beta, marginalAdj, alphaAdj,
                          Hypergraphs.InsideAdjoint(g, s, w, alpha, beta, marginalAdj, alphaAdj), j, k)
    decreases |g.edges| - k
  {
    if k < |g.edges| {
      InsideAdjSuffixIsTailSum(g, s, w, alpha, beta, marginalAdj, alphaAdj, k + 1);
      var e := g.edges[k];
      assert forall k', u :: 0 <= k' < k + 1 && 0 <= u < |g.edges[k'].tails| ==> g.edges[k'].tails[u] != e.head;
      InsideAdjSettled(g, s, w, alpha, beta, marginalAdj, alphaAdj, k + 1, e.head);
      InsideAdjTailsIsEdgeSum(s.base, w, beta, alpha, alphaAdj, InsideAdjSuffix(g, s, w, alpha, beta, marginalAdj, alphaAdj, k + 1),
                              Hypergraphs.InsideAdjoint(g, s, w, alpha, beta, marginalAdj, alphaAdj), e, |e.tails|);
    }
  }

  /**
   * On a topologically sorted graph, the inside adjoints solve their
   * equations: betaAdj[j] is its direct term then, edge by edge from the
   * last down to the first and once per occurrence of j among the edge's
   * tails, plus betaAdj[H(e)] * w(e) * the product of beta over the tails
   * other than j, then the pair terms of the other tails.
   */
  lemma BetaAdjSolvesEquations(g: Hypergraph, s: SemiringExt, w: Hyperpotential, alpha: seq<real>, beta: seq<real>,
                               marginalAdj: seq<real>, alphaAdj: seq<real>)
    requires WellFormed(g) && TopoSorted(g) && |alpha| == g.numNodes && |beta| == g.numNodes
    requires |marginalAdj| == g.numNodes && |alphaAdj| == g.numNodes
    ensures InsideAdjEquations(g, s, w, alpha, beta, marginalAdj, alphaAdj,
                               Hypergraphs.InsideAdjoint(g, s, w, alpha, beta, marginalAdj, alphaAdj))
  {
    InsideAdjSuffixIsTailSum(g, s, w, alpha, beta, marginalAdj, alphaAdj, 0);
  }

  // ------------------------------------------------ real-algebra products

  /** In the real algebra the running product's initial value factors out. */
  lemma {:induction false} ProdSkippingScales(c: real, beta: seq<real>, tails: seq<nat>, skip: set<nat>)
    requires AllBelow(tails, |beta|)
    ensures ProdSkipping(RealAlgebra().base, c, beta, tails, skip) == c * ProdSkipping(RealAlgebra().base, 1.0, beta, tails, skip)
    decreases |tails|
  {
    if |tails| > 0 {
      var pre := tails[..|tails| - 1];
      ProdSkippingScales(c, beta, pre, skip);
      var p := ProdSkipping(RealAlgebra().base, 1.0, beta, pre, skip);
      var k := tails[|tails| - 1];
      if k !in skip {
        assert (c * p) * beta[k] == c * (p * beta[k]);
      }
    }
  }

  /** The list without any occurrence of j, the order of the rest kept. */
  function Without(xs: seq<nat>, j: nat): (r: seq<nat>)
    ensures forall t :: t in r <==> t in xs && t != j
  {
    if |xs| == 0 then []
    else Without(xs[..|xs| - 1], j) + (if xs[|xs| - 1] == j then [] else [xs[|xs| - 1]])
  }

  /**
   * Skipping compares ids, so leaving out node j drops every occurrence of j:
   * the product skipping {j} is the full product over the tails with every
   * j removed, in any semiring.
   */
  lemma {:induction false} SkipDropsEveryOccurrence(s: Semiring, init: real, beta: seq<real>, tails: seq<nat>, j: nat)
    requires AllBelow(tails, |beta|)
    ensures AllBelow(Without(tails, j), |beta|)
    ensures ProdSkipping(s, init, beta, tails, {j}) == ProdSkipping(s, init, beta, Without(tails, j), {})
    decreases |tails|
  {
    var w := Without(tails, j);
    assert AllBelow(w, |beta|) by {
      forall t | 0 <= t < |w|
        ensures w[t] < |beta|
      {
        assert w[t] in tails;
      }
    }
    if |tails| > 0 {
      var pre := tails[..|tails| - 1];
      var k := tails[|tails| - 1];
      SkipDropsEveryOccurrence(s, init, beta, pre, j);
      var loo := ProdSkipping(s, init, beta, pre, {j});
      if k == j {
        assert w == Without(pre, j);
        assert ProdSkipping(s, init, beta, tails, {j}) == loo;
      } else {
        assert w == Without(pre, j) + [k];
        assert w[..|w| - 1] == Without(pre, j) && w[|w| - 1] == k;
        assert ProdSkipping(s, init, beta, tails, {j}) == s.times(loo, beta[k]);
      }
    }
  }

  // ------------------------------------------- inside adjoint, real algebra

  /** beta[root]^2, as the algorithm computes it: times(beta[root], beta[root]). */
  function Square(b: real): real {
    RealTimes(b, b)
  }

  lemma SquareIsPositive(b: real)
    requires b != 0.0
    ensures Square(b) > 0.0
  {
    if b > 0.0 {
      calc {
        Square(b);
        b * b;
      >  { assert b * b > 0.0; }
        0.0;
      }
    } else {
      calc {
        Square(b);
        (-b) * (-b);
      >  { assert (-b) * (-b) > 0.0; }
        0.0;
      }
    }
  }

  lemma SubtractOverCommonDivisor(a: real, x: real, d: real)
    requires d != 0.0
    ensures -a / d - x / d == -(a + x) / d
  {}

  /** sum over the non-root nodes j < m of marginalAdj[j] * alpha[j] * beta[j]. */
  function NonRootSum(root: nat, marginalAdj: seq<real>, alpha: seq<real>, beta: seq<real>, m: nat): real
    requires m <= |marginalAdj| && m <= |alpha| && m <= |beta|
  {
    if m == 0 then 0.0
    else
      var term := if m - 1 == root then 0.0 else marginalAdj[m - 1] * alpha[m - 1] * beta[m - 1];
      NonRootSum(root, marginalAdj, alpha, beta, m - 1) + term
  }

  lemma {:induction false} RootAdjAccClosedForm(g: Hypergraph, marginalAdj: seq<real>, alpha: seq<real>, beta: seq<real>, m: nat)
    requires WellFormed(g) && |marginalAdj| == g.numNodes && |alpha| == g.numNodes && |beta| == g.numNodes
    requires m <= g.numNodes && beta[g.root] != 0.0
    ensures Square(beta[g.root]) > 0.0
    ensures RootAdjAcc(g, RealAlgebra(), marginalAdj, alpha, beta, m)
         == -NonRootSum(g.root, marginalAdj, alpha, beta, m) / Square(beta[g.root])
  {
    SquareIsPositive(beta[g.root]);
    if m > 0 {
      RootAdjAccClosedForm(g, marginalAdj, alpha, beta, m - 1);
      var acc := NonRootSum(g.root, marginalAdj, alpha, beta, m - 1);
      if m - 1 != g.root {
        var x := marginalAdj[m - 1] * alpha[m - 1] * beta[m - 1];
        var R := RealAlgebra();
        assert R.base.times(R.base.times(marginalAdj[m - 1], alpha[m - 1]), beta[m - 1]) == x;
        assert RootAdjTerm(R, marginalAdj, alpha, beta, g.root, m - 1) == x / Square(beta[g.root]);
        SubtractOverCommonDivisor(acc, x, Square(beta[g.root]));
      }
    }
  }

  /**
   * Before any edge is visited, betaAdj[root] is
   * -sum_{j != root} marginalAdj[j] * alpha[j] * beta[j] / beta[root]^2 and
   * every other betaAdj[j] is marginalAdj[j] * alpha[j] / beta[root].
   */
  lemma BetaAdjInitClosedForm(g: Hypergraph, marginalAdj: seq<real>, alpha: seq<real>, beta: seq<real>)
    requires WellFormed(g) && |marginalAdj| == g.numNodes && |alpha| == g.numNodes && |beta| == g.numNodes
    requires beta[g.root] != 0.0
    ensures Square(beta[g.root]) > 0.0
    ensures BetaAdjInit(g, RealAlgebra(), marginalAdj, alpha, beta)[g.root]
         == -NonRootSum(g.root, marginalAdj, alpha, beta, g.numNodes) / Square(beta[g.root])
    ensures forall j :: 0 <= j < g.numNodes && j != g.root ==>
      BetaAdjInit(g, RealAlgebra(), marginalAdj, alpha, beta)[j] == marginalAdj[j] * alpha[j] / beta[g.root]
  {
    RootAdjAccClosedForm(g, marginalAdj, alpha, beta, g.numNodes);
  }

  // ------------------------------------------------------- weight adjoint

  /** Edge ids are distinct, so each edge's slot is assigned once and never overwritten or accumulated. */
  lemma {:induction false} WeightAdjPrefixSlots(g: Hypergraph, s: Semiring, alpha: seq<real>, beta: seq<real>,
                                                alphaAdj: seq<real>, betaAdj: seq<real>, m: nat)
    requires WellFormed(g) && |alpha| == g.numNodes && |beta| == g.numNodes
    requires |alphaAdj| == g.numNodes && |betaAdj| == g.numNodes && m <= |g.edges|
    ensures forall k :: 0 <= k < m ==>
      WeightAdjPrefix(g, s, alpha, beta, alphaAdj, betaAdj, m)[g.edges[k].id] == WeightAdjOf(s, beta, alpha, alphaAdj, betaAdj, g.edges[k])
    ensures forall x :: 0 <= x < |g.edges| && (forall k :: 0 <= k < m ==> g.edges[k].id != x) ==>
      WeightAdjPrefix(g, s, alpha, beta, alphaAdj, betaAdj, m)[x] == 0.0
  {
    if m > 0 {
      WeightAdjPrefixSlots(g, s, alpha, beta, alphaAdj, betaAdj, m - 1);
    }
  }

  lemma WeightAdjointAssignsEachEdgeOnce(g: Hypergraph, s: Semiring, alpha: seq<real>, beta: seq<real>,
                                         alphaAdj: seq<real>, betaAdj: seq<real>)
    requires WellFormed(g) && |alpha| == g.numNodes && |beta| == g.numNodes
    requires |alphaAdj| == g.numNodes && |betaAdj| == g.numNodes
    ensures forall k :: 0 <= k < |g.edges| ==>
      WeightAdjoint(g, s, alpha, beta, alphaAdj, betaAdj)[g.edges[k].id] == WeightAdjOf(s, beta, alpha, alphaAdj, betaAdj, g.edges[k])
  {
    WeightAdjPrefixSlots(g, s, alpha, beta, alphaAdj, betaAdj, |g.edges|);
  }

  /** sum over the first t tails j of alphaAdj[j] * alpha[H(e)] * prod_{k != j} beta[k]. */
  function RealTailTerms(beta: seq<real>, alpha: seq<real>, alphaAdj: seq<real>, e: Hyperedge, t: nat): real
    requires |beta| == |alpha| == |alphaAdj| && EdgeFits(e, |beta|) && t <= |e.tails|
  {
    if t == 0 then 0.0
    else
      var j := e.tails[t - 1];
      RealTailTerms(beta, alpha, alphaAdj, e, t - 1)
        + alphaAdj[j] * alpha[e.head] * ProdSkipping(RealAlgebra().base, 1.0, beta, e.tails, {j})
  }

  lemma {:induction false} TailTermSumClosedForm(beta: seq<real>, alpha: seq<real>, alphaAdj: seq<real>, e: Hyperedge, acc: real, t: nat)
    requires |beta| == |alpha| == |alphaAdj| && EdgeFits(e, |beta|) && t <= |e.tails|
    ensures TailTermSum(RealAlgebra().base, beta, alpha, alphaAdj, e, acc, t) == acc + RealTailTerms(beta, alpha, alphaAdj, e, t)
  {
    if t > 0 {
      TailTermSumClosedForm(beta, alpha, alphaAdj, e, acc, t - 1);
      var j := e.tails[t - 1];
      var c := alphaAdj[j] * alpha[e.head];
      ProdSkippingScales(c, beta, e.tails, {j});
      assert RealAlgebra().base.times(alphaAdj[j], alpha[e.head]) == c;
    }
  }

  /**
   * In the real algebra the adjoint of w(e) is
   * betaAdj[H(e)] * prod_{j in T(e)} beta[j]
   *   + sum_{j in T(e)} alphaAdj[j] * alpha[H(e)] * prod_{k in T(e), k != j} beta[k].
   */
  lemma {:induction false} WeightAdjClosedForm(beta: seq<real>, alpha: seq<real>, alphaAdj: seq<real>, betaAdj: seq<real>, e: Hyperedge)
    requires |beta| == |alpha| == |alphaAdj| == |betaAdj| && EdgeFits(e, |beta|)
    ensures WeightAdjOf(RealAlgebra().base, beta, alpha, alphaAdj, betaAdj, e)
         == betaAdj[e.head] * ProdSkipping(RealAlgebra().base, 1.0, beta, e.tails, {})
          + RealTailTerms(beta, alpha, alphaAdj, e, |e.tails|)
  {
    WeightAdjIsStartPlusTerms(beta, alpha, alphaAdj, betaAdj, e);
    ProdSkippingScales(betaAdj[e.head], beta, e.tails, {});
    ReplaceStart(WeightAdjOf(RealAlgebra().base, beta, alpha, alphaAdj, betaAdj, e),
                 ProdSkipping(RealAlgebra().base, betaAdj[e.head], beta, e.tails, {}),
                 betaAdj[e.head], ProdSkipping(RealAlgebra().base, 1.0, beta, e.tails, {}),
                 RealTailTerms(beta, alpha, alphaAdj, e, |e.tails|));
  }

  /** The last step of the closed form, on plain values: the start is replaced by its factored form. */
  lemma ReplaceStart(w: real, start: real, b: real, full: real, terms: real)
    requires w == start + terms && start == b * full
    ensures w == b * full + terms
  {
  }

  /** The adjoint of w(e) is its head term, the running product started at betaAdj[H(e)], plus the tail terms. */
  lemma {:induction false} WeightAdjIsStartPlusTerms(beta: seq<real>, alpha: seq<real>, alphaAdj: seq<real>, betaAdj: seq<real>, e: Hyperedge)
    requires |beta| == |alpha| == |alphaAdj| == |betaAdj| && EdgeFits(e, |beta|)
    ensures WeightAdjOf(RealAlgebra().base, beta, alpha, alphaAdj, betaAdj, e)
         == ProdSkipping(RealAlgebra().base, betaAdj[e.head], beta, e.tails, {})
          + RealTailTerms(beta, alpha, alphaAdj, e, |e.tails|)
  {
    TailTermSumClosedForm(beta, alpha, alphaAdj, e, ProdSkipping(RealAlgebra().base, betaAdj[e.head], beta, e.tails, {}), |e.tails|);
  }
}
