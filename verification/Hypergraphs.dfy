/**
 * Hypergraphs and the reference definitions of every phase of the
 * generalized inside-outside algorithm.
 *
 * Each phase is defined as a fold that visits the edges in exactly the
 * order the algorithm does (topological order for inside, outside-adjoint
 * and weight-adjoint, reverse topological order for outside and
 * inside-adjoint) and, inside an edge, the tail nodes in their listed
 * order. Scores are sequences indexed by node id; weight adjoints by edge id.
 */
module Hypergraphs {
  import opened Semirings

  /** A hyperedge: its id, its head node and its ordered tail nodes (node ids). */
  datatype Hyperedge = Hyperedge(id: nat, head: nat, tails: seq<nat>)

  /** Nodes are 0 .. numNodes-1; `edges` is the graph's topological order. */
  datatype Hypergraph = Hypergraph(numNodes: nat, root: nat, edges: seq<Hyperedge>)

  /** The potential function: the weight of each hyperedge under the algebra in use. */
  type Hyperpotential = Hyperedge -> real

  predicate AllBelow(xs: seq<nat>, n: nat) {
    forall t :: 0 <= t < |xs| ==> xs[t] < n
  }

  predicate EdgeFits(e: Hyperedge, n: nat) {
    e.head < n && AllBelow(e.tails, n)
  }

  /** Node ids in range, edge ids in range and distinct. */
  predicate WellFormed(g: Hypergraph) {
    && g.root < g.numNodes
    && (forall k :: 0 <= k < |g.edges| ==> EdgeFits(g.edges[k], g.numNodes) && g.edges[k].id < |g.edges|)
    && (forall k1, k2 :: 0 <= k1 < k2 < |g.edges| ==> g.edges[k1].id != g.edges[k2].id)
  }

  /**
   * The edge sequence is a topological order: every edge with head v comes
   * strictly before every edge that has v among its tails.
   */
  predicate TopoSorted(g: Hypergraph) {
    forall k1, k2, t ::
      (0 <= k1 < |g.edges| && 0 <= k2 < |g.edges| && 0 <= t < |g.edges[k2].tails| &&
       g.edges[k1].head == g.edges[k2].tails[t]) ==> k1 < k2
  }

  /** A node that is no edge's tail. */
  predicate NotATail(g: Hypergraph, v: nat) {
    forall k, t :: 0 <= k < |g.edges| && 0 <= t < |g.edges[k].tails| ==> g.edges[k].tails[t] != v
  }

  /** A fresh score array after Arrays.fill(a, v). */
  function Fill(n: nat, v: real): (r: seq<real>)
    ensures |r| == n && forall i :: 0 <= i < n ==> r[i] == v
  {
    seq(n, _ => v)
  }

  /**
   * The running product `prod = init; for k in tails: if k not in skip: prod = times(prod, beta[k])`.
   * Skipping compares node ids, so every occurrence of a skipped id is left out.
   */
  function ProdSkipping(s: Semiring, init: real, beta: seq<real>, tails: seq<nat>, skip: set<nat>): real
    requires AllBelow(tails, |beta|)
    decreases |tails|
  {
    if |tails| == 0 then init
    else
      var p := ProdSkipping(s, init, beta, tails[..|tails| - 1], skip);
      var k := tails[|tails| - 1];
      if k in skip then p else s.times(p, beta[k])
  }

  /** One more step of the running product over a prefix of the tails. */
  lemma ProdSkippingSnoc(s: Semiring, init: real, beta: seq<real>, tails: seq<nat>, skip: set<nat>, u: nat)
    requires AllBelow(tails, |beta|) && u < |tails|
    ensures AllBelow(tails[..u], |beta|) && AllBelow(tails[..u + 1], |beta|)
    ensures ProdSkipping(s, init, beta, tails[..u + 1], skip)
         == if tails[u] in skip then ProdSkipping(s, init, beta, tails[..u], skip)
            else s.times(ProdSkipping(s, init, beta, tails[..u], skip), beta[tails[u]])
  {
    assert tails[..u + 1][..u] == tails[..u];
  }

  // ---------------------------------------------------------------- inside

  /** One inside update: beta[H(e)] += w(e) * prod of beta over T(e). */
  function InsideStep(s: Semiring, w: Hyperpotential, beta: seq<real>, e: Hyperedge): (r: seq<real>)
    requires EdgeFits(e, |beta|)
    ensures |r| == |beta|
  {
    beta[e.head := s.plus(beta[e.head], s.times(w(e), ProdSkipping(s, s.one, beta, e.tails, {})))]
  }

  /** The inside scores after the first k edges of the topological order. */
  function InsidePrefix(g: Hypergraph, s: Semiring, w: Hyperpotential, k: nat): (r: seq<real>)
    requires WellFormed(g) && k <= |g.edges|
    ensures |r| == g.numNodes
  {
    if k == 0 then Fill(g.numNodes, s.zero)
    else InsideStep(s, w, InsidePrefix(g, s, w, k - 1), g.edges[k - 1])
  }

  function Inside(g: Hypergraph, s: Semiring, w: Hyperpotential): (beta: seq<real>)
    requires WellFormed(g)
    ensures |beta| == g.numNodes
  {
    InsidePrefix(g, s, w, |g.edges|)
  }

  /**
   * The right-hand side of the inside equation for node i: the plus-fold,
   * in edge order, over the first k edges with head i, of w(e) times the
   * product of `beta` over the edge's tails.
   */
  function HeadSum(g: Hypergraph, s: Semiring, w: Hyperpotential, beta: seq<real>, i: nat, k: nat): real
    requires WellFormed(g) && |beta| == g.numNodes && k <= |g.edges|
  {
    if k == 0 then s.zero
    else
      var e := g.edges[k - 1];
      var acc := HeadSum(g, s, w, beta, i, k - 1);
      if e.head == i then s.plus(acc, s.times(w(e), ProdSkipping(s, s.one, beta, e.tails, {}))) else acc
  }

  /** `beta` solves the inside equations of g. */
  ghost predicate InsideEquations(g: Hypergraph, s: Semiring, w: Hyperpotential, beta: seq<real>)
    requires WellFormed(g) && |beta| == g.numNodes
  {
    forall i :: 0 <= i < g.numNodes ==> beta[i] == HeadSum(g, s, w, beta, i, |g.edges|)
  }

  // --------------------------------------------------------------- outside

  /** The outside contribution of edge e to its tail j, given the current alpha of the head. */
  function OutsideTerm(s: Semiring, w: Hyperpotential, beta: seq<real>, headAlpha: real, e: Hyperedge, j: nat): real
    requires AllBelow(e.tails, |beta|)
  {
    s.times(s.times(ProdSkipping(s, s.one, beta, e.tails, {j}), headAlpha), w(e))
  }

  /** alpha after the first t tails of edge e: alpha[j] += alpha[H(e)] * w(e) * prod_{k != j} beta[k]. */
  function OutsideTails(s: Semiring, w: Hyperpotential, beta: seq<real>, alpha: seq<real>, e: Hyperedge, t: nat): (r: seq<real>)
    requires |beta| == |alpha| && EdgeFits(e, |alpha|) && t <= |e.tails|
    ensures |r| == |alpha|
  {
    if t == 0 then alpha
    else
      var a := OutsideTails(s, w, beta, alpha, e, t - 1);
      var j := e.tails[t - 1];
      a[j := s.plus(a[j], OutsideTerm(s, w, beta, a[e.head], e, j))]
  }

  /** alpha = 0 everywhere except alpha[root] = 1. */
  function OutsideInit(g: Hypergraph, s: Semiring): (r: seq<real>)
    requires WellFormed(g)
    ensures |r| == g.numNodes
  {
    Fill(g.numNodes, s.zero)[g.root := s.one]
  }

  /** The outside scores after edges |edges|-1 down to k (reverse topological order). */
  function OutsideSuffix(g: Hypergraph, s: Semiring, w: Hyperpotential, beta: seq<real>, k: nat): (r: seq<real>)
    requires WellFormed(g) && |beta| == g.numNodes && k <= |g.edges|
    ensures |r| == g.numNodes
    decreases |g.edges| - k
  {
    if k == |g.edges| then OutsideInit(g, s)
    else
      var e := g.edges[k];
      OutsideTails(s, w, beta, OutsideSuffix(g, s, w, beta, k + 1), e, |e.tails|)
  }

  function Outside(g: Hypergraph, s: Semiring, w: Hyperpotential, beta: seq<real>): (alpha: seq<real>)
    requires WellFormed(g) && |beta| == g.numNodes
    ensures |alpha| == g.numNodes
  {
    OutsideSuffix(g, s, w, beta, 0)
  }

  /** The plus-fold, over the first t tails of e that equal j, of the outside term of e. */
  function EdgeTailSum(s: Semiring, w: Hyperpotential, beta: seq<real>, alpha: seq<real>, e: Hyperedge, j: nat, acc: real, t: nat): real
    requires |beta| == |alpha| && EdgeFits(e, |alpha|) && t <= |e.tails|
  {
    if t == 0 then acc
    else
      var a := EdgeTailSum(s, w, beta, alpha, e, j, acc, t - 1);
      if e.tails[t - 1] == j then s.plus(a, OutsideTerm(s, w, beta, alpha[e.head], e, j)) else a
  }

  /**
   * The right-hand side of the outside equation for node j: the root's
   * one (every other node's zero), then, edge by edge from the last down to
   * position k, the terms of every occurrence of j among the edge's tails.
   */
  function TailSum(g: Hypergraph, s: Semiring, w: Hyperpotential, beta: seq<real>, alpha: seq<real>, j: nat, k: nat): real
    requires WellFormed(g) && |beta| == g.numNodes && |alpha| == g.numNodes && k <= |g.edges|
    decreases |g.edges| - k
  {
    if k == |g.edges| then (if j == g.root then s.one else s.zero)
    else
      var e := g.edges[k];
      EdgeTailSum(s, w, beta, alpha, e, j, TailSum(g, s, w, beta, alpha, j, k + 1), |e.tails|)
  }

  /** `alpha` solves the outside equations of g for the inside scores `beta`. */
  ghost predicate OutsideEquations(g: Hypergraph, s: Semiring, w: Hyperpotential, beta: seq<real>, alpha: seq<real>)
    requires WellFormed(g) && |beta| == g.numNodes && |alpha| == g.numNodes
  {
    forall j :: 0 <= j < g.numNodes ==> alpha[j] == TailSum(g, s, w, beta, alpha, j, 0)
  }

  // ------------------------------------------------------------- marginals

  /** p(i) = alpha_i * beta_i / beta_root. */
  function MarginalAt(s: SemiringExt, alpha: seq<real>, beta: seq<real>, root: nat, i: nat): real
    requires i < |alpha| && i < |beta| && root < |beta|
  {
    s.divide(s.base.times(alpha[i], beta[i]), beta[root])
  }

  function Marginals(g: Hypergraph, s: SemiringExt, alpha: seq<real>, beta: seq<real>): (r: seq<real>)
    requires WellFormed(g) && |alpha| == g.numNodes && |beta| == g.numNodes
    ensures |r| == g.numNodes
  {
    seq(g.numNodes, i requires 0 <= i < g.numNodes => MarginalAt(s, alpha, beta, g.root, i))
  }

  // ------------------------------------------------------- outside adjoint

  /** The direct term of alphaAdj[i]: zero + marginalAdj[i] * beta[i] / beta[root]. */
  function AlphaAdjDirect(s: SemiringExt, marginalAdj: seq<real>, beta: seq<real>, root: nat, i: nat): real
    requires i < |marginalAdj| && i < |beta| && root < |beta|
  {
    s.base.plus(s.base.zero, s.divide(s.base.times(marginalAdj[i], beta[i]), beta[root]))
  }

  function AlphaAdjInit(g: Hypergraph, s: SemiringExt, beta: seq<real>, marginalAdj: seq<real>): (r: seq<real>)
    requires WellFormed(g) && |beta| == g.numNodes && |marginalAdj| == g.numNodes
    ensures |r| == g.numNodes
  {
    seq(g.numNodes, i requires 0 <= i < g.numNodes => AlphaAdjDirect(s, marginalAdj, beta, g.root, i))
  }

  /** alphaAdj after the first t tails of e: alphaAdj[H(e)] += alphaAdj[j] * w(e) * prod_{k != j} beta[k]. */
  function OutsideAdjTails(s: Semiring, w: Hyperpotential, beta: seq<real>, alphaAdj: seq<real>, e: Hyperedge, t: nat): (r: seq<real>)
    requires |beta| == |alphaAdj| && EdgeFits(e, |alphaAdj|) && t <= |e.tails|
    ensures |r| == |alphaAdj|
  {
    if t == 0 then alphaAdj
    else
      var a := OutsideAdjTails(s, w, beta, alphaAdj, e, t - 1);
      var j := e.tails[t - 1];
      a[e.head := s.plus(a[e.head], ProdSkipping(s, s.times(a[j], w(e)), beta, e.tails, {j}))]
  }

  /** alphaAdj after the direct terms and the first k edges in topological order. */
  function OutsideAdjPrefix(g: Hypergraph, s: SemiringExt, w: Hyperpotential, beta: seq<real>, marginalAdj: seq<real>, k: nat): (r: seq<real>)
    requires WellFormed(g) && |beta| == g.numNodes && |marginalAdj| == g.numNodes && k <= |g.edges|
    ensures |r| == g.numNodes
  {
    if k == 0 then AlphaAdjInit(g, s, beta, marginalAdj)
    else
      var e := g.edges[k - 1];
      OutsideAdjTails(s.base, w, beta, OutsideAdjPrefix(g, s, w, beta, marginalAdj, k - 1), e, |e.tails|)
  }

  function OutsideAdjoint(g: Hypergraph, s: SemiringExt, w: Hyperpotential, beta: seq<real>, marginalAdj: seq<real>): (r: seq<real>)
    requires WellFormed(g) && |beta| == g.numNodes && |marginalAdj| == g.numNodes
    ensures |r| == g.numNodes
  {
    OutsideAdjPrefix(g, s, w, beta, marginalAdj, |g.edges|)
  }

  /**
   * The plus-fold onto acc, over the first t tails j of e in their order, of
   * alphaAdj[j] * w(e) * the product of beta over the tails other than j.
   */
  function HeadAdjEdgeSum(s: Semiring, w: Hyperpotential, beta: seq<real>, alphaAdj: seq<real>, e: Hyperedge, acc: real, t: nat): real
    requires |beta| == |alphaAdj| && EdgeFits(e, |alphaAdj|) && t <= |e.tails|
  {
    if t == 0 then acc
    else
      var j := e.tails[t - 1];
      s.plus(HeadAdjEdgeSum(s, w, beta, alphaAdj, e, acc, t - 1), ProdSkipping(s, s.times(alphaAdj[j], w(e)), beta, e.tails, {j}))
  }

  /**
   * The right-hand side of the outside-adjoint equation for node i: its
   * direct term, then, over the first k edges in order, the contributions of
   * the tails of every edge with head i.
   */
  function AlphaAdjHeadSum(g: Hypergraph, s: SemiringExt, w: Hyperpotential, beta: seq<real>, marginalAdj: seq<real>,
                           alphaAdj: seq<real>, i: nat, k: nat): real
    requires WellFormed(g) && |beta| == g.numNodes && |marginalAdj| == g.numNodes && |alphaAdj| == g.numNodes
    requires i < g.numNodes && k <= |g.edges|
  {
    if k == 0 then AlphaAdjDirect(s, marginalAdj, beta, g.root, i)
    else
      var e := g.edges[k - 1];
      var acc := AlphaAdjHeadSum(g, s, w, beta, marginalAdj, alphaAdj, i, k - 1);
      if e.head == i then HeadAdjEdgeSum(s.base, w, beta, alphaAdj, e, acc, |e.tails|) else acc
  }

  /** `alphaAdj` solves the outside-adjoint equations of g. */
  ghost predicate OutsideAdjEquations(g: Hypergraph, s: SemiringExt, w: Hyperpotential, beta: seq<real>,
                                      marginalAdj: seq<real>, alphaAdj: seq<real>)
    requires WellFormed(g) && |beta| == g.numNodes && |marginalAdj| == g.numNodes && |alphaAdj| == g.numNodes
  {
    forall i :: 0 <= i < g.numNodes ==> alphaAdj[i] == AlphaAdjHeadSum(g, s, w, beta, marginalAdj, alphaAdj, i, |g.edges|)
  }

  // -------------------------------------------------------- inside adjoint

  /** marginalAdj[j] * alpha[j] * beta[j] / (beta[root] * beta[root]). */
  function RootAdjTerm(s: SemiringExt, marginalAdj: seq<real>, alpha: seq<real>, beta: seq<real>, root: nat, j: nat): real
    requires j < |marginalAdj| && j < |alpha| && j < |beta| && root < |beta|
  {
    s.divide(s.base.times(s.base.times(marginalAdj[j], alpha[j]), beta[j]), s.base.times(beta[root], beta[root]))
  }

  /** betaAdj[root] after subtracting the terms of the non-root nodes 0 .. m-1, in node order. */
  function RootAdjAcc(g: Hypergraph, s: SemiringExt, marginalAdj: seq<real>, alpha: seq<real>, beta: seq<real>, m: nat): real
    requires WellFormed(g) && |marginalAdj| == g.numNodes && |alpha| == g.numNodes && |beta| == g.numNodes
    requires m <= g.numNodes
  {
    if m == 0 then s.base.zero
    else
      var acc := RootAdjAcc(g, s, marginalAdj, alpha, beta, m - 1);
      if m - 1 == g.root then acc else s.minus(acc, RootAdjTerm(s, marginalAdj, alpha, beta, g.root, m - 1))
  }

  /** The direct term of a non-root betaAdj[j]: zero + marginalAdj[j] * alpha[j] / beta[root]. */
  function BetaAdjDirect(s: SemiringExt, marginalAdj: seq<real>, alpha: seq<real>, beta: seq<real>, root: nat, j: nat): real
    requires j < |marginalAdj| && j < |alpha| && root < |beta|
  {
    s.base.plus(s.base.zero, s.divide(s.base.times(marginalAdj[j], alpha[j]), beta[root]))
  }

  /** betaAdj before any edge is visited. */
  function BetaAdjInit(g: Hypergraph, s: SemiringExt, marginalAdj: seq<real>, alpha: seq<real>, beta: seq<real>): (r: seq<real>)
    requires WellFormed(g) && |marginalAdj| == g.numNodes && |alpha| == g.numNodes && |beta| == g.numNodes
    ensures |r| == g.numNodes
  {
    seq(g.numNodes, j requires 0 <= j < g.numNodes =>
      if j == g.root then RootAdjAcc(g, s, marginalAdj, alpha, beta, g.numNodes)
      else BetaAdjDirect(s, marginalAdj, alpha, beta, g.root, j))
  }

  /**
   * The inner loop over the tails k != j of e:
   * acc += alphaAdj[k] * w(e) * alpha[H(e)] * prod_{l != j, l != k} beta[l].
   */
  function PairSum(s: Semiring, w: Hyperpotential, beta: seq<real>, alpha: seq<real>, alphaAdj: seq<real>,
                   e: Hyperedge, j: nat, acc: real, u: nat): real
    requires |beta| == |alpha| == |alphaAdj| && EdgeFits(e, |beta|) && u <= |e.tails|
  {
    if u == 0 then acc
    else
      var a := PairSum(s, w, beta, alpha, alphaAdj, e, j, acc, u - 1);
      var k := e.tails[u - 1];
      if k == j then a
      else s.plus(a, ProdSkipping(s, s.times(s.times(alphaAdj[k], w(e)), alpha[e.head]), beta, e.tails, {j, k}))
  }

  /** betaAdj after the first t tails of e. */
  function InsideAdjTails(s: Semiring, w: Hyperpotential, beta: seq<real>, alpha: seq<real>, alphaAdj: seq<real>,
                          betaAdj: seq<real>, e: Hyperedge, t: nat): (r: seq<real>)
    requires |beta| == |alpha| == |alphaAdj| == |betaAdj| && EdgeFits(e, |beta|) && t <= |e.tails|
    ensures |r| == |betaAdj|
  {
    if t == 0 then betaAdj
    else
      var b := InsideAdjTails(s, w, beta, alpha, alphaAdj, betaAdj, e, t - 1);
      var j := e.tails[t - 1];
      var first := s.plus(b[j], ProdSkipping(s, s.times(b[e.head], w(e)), beta, e.tails, {j}));
      b[j := PairSum(s, w, beta, alpha, alphaAdj, e, j, first, |e.tails|)]
  }

  /** betaAdj after the direct terms and edges |edges|-1 down to k. */
  function InsideAdjSuffix(g: Hypergraph, s: SemiringExt, w: Hyperpotential, alpha: seq<real>, beta: seq<real>,
                           marginalAdj: seq<real>, alphaAdj: seq<real>, k: nat): (r: seq<real>)
    requires WellFormed(g) && |alpha| == g.numNodes && |beta| == g.numNodes
    requires |marginalAdj| == g.numNodes && |alphaAdj| == g.numNodes && k <= |g.edges|
    ensures |r| == g.numNodes
    decreases |g.edges| - k
  {
    if k == |g.edges| then BetaAdjInit(g, s, marginalAdj, alpha, beta)
    else
      var e := g.edges[k];
      InsideAdjTails(s.base, w, beta, alpha, alphaAdj, InsideAdjSuffix(g, s, w, alpha, beta, marginalAdj, alphaAdj, k + 1), e, |e.tails|)
  }

  function InsideAdjoint(g: Hypergraph, s: SemiringExt, w: Hyperpotential, alpha: seq<real>, beta: seq<real>,
                         marginalAdj: seq<real>, alphaAdj: seq<real>): (r: seq<real>)
    requires WellFormed(g) && |alpha| == g.numNodes && |beta| == g.numNodes
    requires |marginalAdj| == g.numNodes && |alphaAdj| == g.numNodes
    ensures |r| == g.numNodes
  {
    InsideAdjSuffix(g, s, w, alpha, beta, marginalAdj, alphaAdj, 0)
  }

  /**
   * One occurrence of j among the tails of e: acc plus headAdj * w(e) * the
   * product of beta over the tails other than j, then the pair terms.
   */
  function InsideAdjTerm(s: Semiring, w: Hyperpotential, beta: seq<real>, alpha: seq<real>, alphaAdj: seq<real>,
                         headAdj: real, e: Hyperedge, j: nat, acc: real): real
    requires |beta| == |alpha| == |alphaAdj| && EdgeFits(e, |beta|)
  {
    PairSum(s, w, beta, alpha, alphaAdj, e, j, s.plus(acc, ProdSkipping(s, s.times(headAdj, w(e)), beta, e.tails, {j})), |e.tails|)
  }

  /** The fold onto acc, over the first t tails of e that equal j, of the inside-adjoint term of e. */
  function BetaAdjEdgeSum(s: Semiring, w: Hyperpotential, beta: seq<real>, alpha: seq<real>, alphaAdj: seq<real>,
                          betaAdj: seq<real>, e: Hyperedge, j: nat, acc: real, t: nat): real
    requires |beta| == |alpha| == |alphaAdj| == |betaAdj| && EdgeFits(e, |beta|) && t <= |e.tails|
  {
    if t == 0 then acc
    else
      var a := BetaAdjEdgeSum(s, w, beta, alpha, alphaAdj, betaAdj, e, j, acc, t - 1);
      if e.tails[t - 1] == j then InsideAdjTerm(s, w, beta, alpha, alphaAdj, betaAdj[e.head], e, j, a) else a
  }

  /**
   * The right-hand side of the inside-adjoint equation for node j: its
   * direct term, then, edge by edge from the last down to position k, the
   * terms of every occurrence of j among the edge's tails.
   */
  function BetaAdjTailSum(g: Hypergraph, s: SemiringExt, w: Hyperpotential, alpha: seq<real>, beta: seq<real>,
                          marginalAdj: seq<real>, alphaAdj: seq<real>, betaAdj: seq<real>, j: nat, k: nat): real
    requires WellFormed(g) && |alpha| == g.numNodes && |beta| == g.numNodes && |marginalAdj| == g.numNodes
    requires |alphaAdj| == g.numNodes && |betaAdj| == g.numNodes && j < g.numNodes && k <= |g.edges|
    decreases |g.edges| - k
  {
    if k == |g.edges| then BetaAdjInit(g, s, marginalAdj, alpha, beta)[j]
    else
      var e := g.edges[k];
      BetaAdjEdgeSum(s.base, w, beta, alpha, alphaAdj, betaAdj, e, j,
                     BetaAdjTailSum(g, s, w, alpha, beta, marginalAdj, alphaAdj, betaAdj, j, k + 1), |e.tails|)
  }

  /** `betaAdj` solves the inside-adjoint equations of g. */
  ghost predicate InsideAdjEquations(g: Hypergraph, s: SemiringExt, w: Hyperpotential, alpha: seq<real>, beta: seq<real>,
                                     marginalAdj: seq<real>, alphaAdj: seq<real>, betaAdj: seq<real>)
    requires WellFormed(g) && |alpha| == g.numNodes && |beta| == g.numNodes && |marginalAdj| == g.numNodes
    requires |alphaAdj| == g.numNodes && |betaAdj| == g.numNodes
  {
    forall j :: 0 <= j < g.numNodes ==>
      betaAdj[j] == BetaAdjTailSum(g, s, w, alpha, beta, marginalAdj, alphaAdj, betaAdj, j, 0)
  }

  // -------------------------------------------------------- weight adjoint

  /** w_e after the first t tails: += alphaAdj[j] * alpha[H(e)] * prod_{k != j} beta[k]. */
  function TailTermSum(s: Semiring, beta: seq<real>, alpha: seq<real>, alphaAdj: seq<real>, e: Hyperedge, acc: real, t: nat): real
    requires |beta| == |alpha| == |alphaAdj| && EdgeFits(e, |beta|) && t <= |e.tails|
  {
    if t == 0 then acc
    else
      var j := e.tails[t - 1];
      s.plus(TailTermSum(s, beta, alpha, alphaAdj, e, acc, t - 1),
             ProdSkipping(s, s.times(alphaAdj[j], alpha[e.head]), beta, e.tails, {j}))
  }

  /** The adjoint of one hyperedge weight: betaAdj[H(e)] * prod of tail betas, plus the tail terms. */
  function WeightAdjOf(s: Semiring, beta: seq<real>, alpha: seq<real>, alphaAdj: seq<real>, betaAdj: seq<real>, e: Hyperedge): real
    requires |beta| == |alpha| == |alphaAdj| == |betaAdj| && EdgeFits(e, |beta|)
  {
    TailTermSum(s, beta, alpha, alphaAdj, e, ProdSkipping(s, betaAdj[e.head], beta, e.tails, {}), |e.tails|)
  }

  /** weightAdj (a fresh double[], all 0.0) after the first k edges assign their slot. */
  function WeightAdjPrefix(g: Hypergraph, s: Semiring, alpha: seq<real>, beta: seq<real>, alphaAdj: seq<real>,
                           betaAdj: seq<real>, k: nat): (r: seq<real>)
    requires WellFormed(g) && |alpha| == g.numNodes && |beta| == g.numNodes
    requires |alphaAdj| == g.numNodes && |betaAdj| == g.numNodes && k <= |g.edges|
    ensures |r| == |g.edges|
  {
    if k == 0 then Fill(|g.edges|, 0.0)
    else
      var e := g.edges[k - 1];
      WeightAdjPrefix(g, s, alpha, beta, alphaAdj, betaAdj, k - 1)[e.id := WeightAdjOf(s, beta, alpha, alphaAdj, betaAdj, e)]
  }

  function WeightAdjoint(g: Hypergraph, s: Semiring, alpha: seq<real>, beta: seq<real>, alphaAdj: seq<real>,
                         betaAdj: seq<real>): (r: seq<real>)
    requires WellFormed(g) && |alpha| == g.numNodes && |beta| == g.numNodes
    requires |alphaAdj| == g.numNodes && |betaAdj| == g.numNodes
    ensures |r| == |g.edges|
  {
    WeightAdjPrefix(g, s, alpha, beta, alphaAdj, betaAdj, |g.edges|)
  }
}
