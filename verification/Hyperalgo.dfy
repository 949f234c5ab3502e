/**
 * The generalized inside-outside algorithm over a hypergraph, and the
 * reverse-mode adjoints of its outputs.
 *
 * Every phase allocates a fresh score array, fills it with the loops of the
 * algorithm and is proved equal to the reference fold of the same name in
 * module Hypergraphs. The `Scores` object carries the arrays between the
 * phases; the phases that take it store their result in one field and leave
 * the others alone.
 */
module Hyperalgo {
  import opened Wrappers
  import opened Semirings
  import opened Hypergraphs

  /** The input/output record of the forward and backward passes; any field may be null. */
  class Scores {
    var alpha: array?<real>
    var beta: array?<real>
    var marginal: array?<real>
    var alphaAdj: array?<real>
    var betaAdj: array?<real>
    var marginalAdj: array?<real>
    var weightAdj: array?<real>

    constructor ()
      ensures alpha == null && beta == null && marginal == null
      ensures alphaAdj == null && betaAdj == null && marginalAdj == null && weightAdj == null
    {
      alpha, beta, marginal := null, null, null;
      alphaAdj, betaAdj, marginalAdj, weightAdj := null, null, null, null;
    }
  }

  /** A score array present and with one entry per node. */
  predicate HasNodeScores(a: array?<real>, g: Hypergraph) {
    a != null && a.Length == g.numNodes
  }

  /**
   * The running product `prod = init; for k in tails: unless k is skipped, prod = times(prod, beta[k])`
   * that every phase computes; `skip` holds the tail ids the loop steps over.
   */
  method TailProduct(s: Semiring, init: real, beta: array<real>, tails: seq<nat>, skip: set<nat>) returns (prod: real)
    requires AllBelow(tails, beta.Length)
    ensures prod == ProdSkipping(s, init, beta[..], tails, skip)
  {
    prod := init;
    var u := 0;
    while u < |tails|
      invariant 0 <= u <= |tails|
      invariant AllBelow(tails[..u], beta.Length)
      invariant prod == ProdSkipping(s, init, beta[..], tails[..u], skip)
    {
      ProdSkippingSnoc(s, init, beta[..], tails, skip, u);
      var k := tails[u];
      if k !in skip {
        prod := s.times(prod, beta[k]);
      }
      u := u + 1;
    }
    assert tails[..u] == tails;
  }

  // ---------------------------------------------------------------- inside

  /** The inside visit of one edge: beta[H(e)] += w_e * prod_{j in T(e)} beta_j. */
  method InsideApply(w: Hyperpotential, s: Semiring, beta: array<real>, e: Hyperedge)
    requires EdgeFits(e, beta.Length)
    modifies beta
    ensures beta[..] == InsideStep(s, w, old(beta[..]), e)
  {
    var prod := TailProduct(s, s.one, beta, e.tails, {});
    var i := e.head;
    beta[i] := s.plus(beta[i], s.times(w(e), prod));
  }

  /** beta_i = 0 for all i; then every edge in topological order. */
  method InsideAlgorithm(g: Hypergraph, w: Hyperpotential, s: Semiring) returns (beta: array<real>)
    requires WellFormed(g)
    ensures beta[..] == Inside(g, s, w)
  {
    beta := new real[g.numNodes](_ => s.zero);
    assert beta[..] == InsidePrefix(g, s, w, 0);
    var k := 0;
    while k < |g.edges|
      invariant 0 <= k <= |g.edges|
      invariant beta.Length == g.numNodes
      invariant beta[..] == InsidePrefix(g, s, w, k)
    {
      InsideApply(w, s, beta, g.edges[k]);
      k := k + 1;
    }
  }

  // --------------------------------------------------------------- outside

  /**
   * The outside visit of one edge: for each tail j in order,
   * alpha_j += alpha_{H(e)} * w_e * prod_{k in T(e), k != j} beta_k.
   */
  method OutsideApply(w: Hyperpotential, s: Semiring, beta: array<real>, alpha: array<real>, e: Hyperedge)
    requires alpha != beta && beta.Length == alpha.Length && EdgeFits(e, alpha.Length)
    modifies alpha
    ensures alpha[..] == OutsideTails(s, w, beta[..], old(alpha[..]), e, |e.tails|)
  {
    var i := e.head;
    var t := 0;
    while t < |e.tails|
      invariant 0 <= t <= |e.tails|
      invariant alpha[..] == OutsideTails(s, w, beta[..], old(alpha[..]), e, t)
    {
      var j := e.tails[t];
      ghost var cur := alpha[..];
      var prod := TailProduct(s, s.one, beta, e.tails, {j});
      prod := s.times(prod, alpha[i]);
      prod := s.times(prod, w(e));
      alpha[j] := s.plus(alpha[j], prod);
      assert alpha[..] == cur[j := s.plus(cur[j], OutsideTerm(s, w, beta[..], cur[i], e, j))];
      t := t + 1;
    }
  }

  /** alpha_i = 0 for all i, alpha_root = 1; then every edge in reverse topological order. */
  method OutsideAlgorithm(g: Hypergraph, w: Hyperpotential, s: Semiring, beta: array<real>) returns (alpha: array<real>)
    requires WellFormed(g) && beta.Length == g.numNodes
    ensures alpha[..] == Outside(g, s, w, beta[..])
  {
    alpha := new real[g.numNodes](_ => s.zero);
    alpha[g.root] := s.one;
    assert alpha[..] == OutsideSuffix(g, s, w, beta[..], |g.edges|);
    var k := |g.edges|;
    while k > 0
      invariant 0 <= k <= |g.edges|
      invariant alpha.Length == g.numNodes
      invariant alpha[..] == OutsideSuffix(g, s, w, beta[..], k)
    {
      k := k - 1;
      OutsideApply(w, s, beta, alpha, g.edges[k]);
    }
  }

  // ------------------------------------------------------------- marginals

  /** p(i) = alpha_i * beta_i / beta_root for every node i. */
  method Marginals(g: Hypergraph, s: SemiringExt, alpha: array<real>, beta: array<real>) returns (marginal: array<real>)
    requires WellFormed(g) && alpha.Length == g.numNodes && beta.Length == g.numNodes
    ensures marginal[..] == Hypergraphs.Marginals(g, s, alpha[..], beta[..])
  {
    marginal := new real[g.numNodes];
    var root := g.root;
    var i := 0;
    while i < g.numNodes
      invariant 0 <= i <= g.numNodes
      invariant forall i' :: 0 <= i' < i ==> marginal[i'] == MarginalAt(s, alpha[..], beta[..], root, i')
    {
      marginal[i] := s.divide(s.base.times(alpha[i], beta[i]), beta[root]);
      i := i + 1;
    }
  }

  // ------------------------------------------------------- outside adjoint

  /** alphaAdj_i = 0 + marginalAdj_i * beta_i / beta_root for every node i. */
  method OutsideAdjointInit(g: Hypergraph, s: SemiringExt, beta: array<real>, marginalAdj: array<real>)
    returns (alphaAdj: array<real>)
    requires WellFormed(g) && beta.Length == g.numNodes && marginalAdj.Length == g.numNodes
    ensures fresh(alphaAdj)
    ensures alphaAdj[..] == AlphaAdjInit(g, s, beta[..], marginalAdj[..])
  {
    var n := g.numNodes;
    alphaAdj := new real[n](_ => s.base.zero);
    var i := 0;
    while i < n
      invariant 0 <= i <= n
      invariant forall i' :: 0 <= i' < i ==> alphaAdj[i'] == AlphaAdjDirect(s, marginalAdj[..], beta[..], g.root, i')
      invariant forall i' :: i <= i' < n ==> alphaAdj[i'] == s.base.zero
    {
      var prod := s.base.times(marginalAdj[i], beta[i]);
      prod := s.divide(prod, beta[g.root]);
      alphaAdj[i] := s.base.plus(alphaAdj[i], prod);
      i := i + 1;
    }
  }

  /**
   * The outside-adjoint visit of one edge: for each tail j in order,
   * alphaAdj_{H(e)} += alphaAdj_j * w_e * prod_{k in T(e), k != j} beta_k.
   */
  method OutsideAdjApply(w: Hyperpotential, s: Semiring, beta: array<real>, alphaAdj: array<real>, e: Hyperedge)
    requires alphaAdj != beta && beta.Length == alphaAdj.Length && EdgeFits(e, alphaAdj.Length)
    modifies alphaAdj
    ensures alphaAdj[..] == OutsideAdjTails(s, w, beta[..], old(alphaAdj[..]), e, |e.tails|)
  {
    var h := e.head;
    var t := 0;
    while t < |e.tails|
      invariant 0 <= t <= |e.tails|
      invariant alphaAdj[..] == OutsideAdjTails(s, w, beta[..], old(alphaAdj[..]), e, t)
    {
      var j := e.tails[t];
      ghost var cur := alphaAdj[..];
      var prod := TailProduct(s, s.times(alphaAdj[j], w(e)), beta, e.tails, {j});
      alphaAdj[h] := s.plus(alphaAdj[h], prod);
      assert alphaAdj[..] == cur[h := s.plus(cur[h], ProdSkipping(s, s.times(cur[j], w(e)), beta[..], e.tails, {j}))];
      t := t + 1;
    }
  }

  /** The direct terms; then every edge in topological order. */
  method OutsideAdjoint(g: Hypergraph, w: Hyperpotential, s: SemiringExt, beta: array<real>, marginalAdj: array<real>)
    returns (alphaAdj: array<real>)
    requires WellFormed(g) && beta.Length == g.numNodes && marginalAdj.Length == g.numNodes
    ensures alphaAdj[..] == Hypergraphs.OutsideAdjoint(g, s, w, beta[..], marginalAdj[..])
  {
    ghost var be, ma := beta[..], marginalAdj[..];
    alphaAdj := OutsideAdjointInit(g, s, beta, marginalAdj);
    var k := 0;
    while k < |g.edges|
      invariant 0 <= k <= |g.edges|
      invariant alphaAdj.Length == g.numNodes && fresh(alphaAdj)
      invariant alphaAdj[..] == OutsideAdjPrefix(g, s, w, be, ma, k)
    {
      OutsideAdjApply(w, s.base, beta, alphaAdj, g.edges[k]);
      k := k + 1;
    }
  }

  // -------------------------------------------------------- inside adjoint

  /**
   * betaAdj_root = 0 - sum over the other nodes of marginalAdj_j * alpha_j * beta_j / beta_root^2;
   * betaAdj_j = 0 + marginalAdj_j * alpha_j / beta_root for j != root.
   */
  method InsideAdjointInit(g: Hypergraph, s: SemiringExt, alpha: array<real>, beta: array<real>, marginalAdj: array<real>)
    returns (betaAdj: array<real>)
    requires WellFormed(g) && alpha.Length == g.numNodes && beta.Length == g.numNodes
    requires marginalAdj.Length == g.numNodes
    ensures fresh(betaAdj)
    ensures betaAdj[..] == BetaAdjInit(g, s, marginalAdj[..], alpha[..], beta[..])
  {
    var n := g.numNodes;
    var root := g.root;
    ghost var ma, al, be := marginalAdj[..], alpha[..], beta[..];
    betaAdj := new real[n](_ => s.base.zero);
    var j := 0;
    while j < n
      invariant 0 <= j <= n
      invariant betaAdj[root] == RootAdjAcc(g, s, ma, al, be, j)
      invariant forall j' :: 0 <= j' < n && j' != root ==> betaAdj[j'] == s.base.zero
    {
      if j != root {
        var prod := s.base.times(marginalAdj[j], alpha[j]);
        prod := s.base.times(prod, beta[j]);
        prod := s.divide(prod, s.base.times(beta[root], beta[root]));
        betaAdj[root] := s.minus(betaAdj[root], prod);
      }
      j := j + 1;
    }
    j := 0;
    while j < n
      invariant 0 <= j <= n
      invariant betaAdj[root] == RootAdjAcc(g, s, ma, al, be, n)
      invariant forall j' :: 0 <= j' < j && j' != root ==> betaAdj[j'] == BetaAdjDirect(s, ma, al, be, root, j')
      invariant forall j' :: j <= j' < n && j' != root ==> betaAdj[j'] == s.base.zero
    {
      if j != root {
        var prod := s.divide(s.base.times(marginalAdj[j], alpha[j]), beta[root]);
        betaAdj[j] := s.base.plus(betaAdj[j], prod);
      }
      j := j + 1;
    }
  }

  /** acc + sum over the tails k != j of alphaAdj_k * w_e * alpha_{H(e)} * prod_{l in T(e), l != j, l != k} beta_l. */
  method PairTerms(w: Hyperpotential, s: Semiring, beta: array<real>, alpha: array<real>, alphaAdj: array<real>,
                   e: Hyperedge, j: nat, acc: real) returns (r: real)
    requires beta.Length == alpha.Length == alphaAdj.Length && EdgeFits(e, beta.Length)
    ensures r == PairSum(s, w, beta[..], alpha[..], alphaAdj[..], e, j, acc, |e.tails|)
  {
    r := acc;
    var u := 0;
    while u < |e.tails|
      invariant 0 <= u <= |e.tails|
      invariant r == PairSum(s, w, beta[..], alpha[..], alphaAdj[..], e, j, acc, u)
    {
      var k := e.tails[u];
      if k != j {
        var prod := TailProduct(s, s.times(s.times(alphaAdj[k], w(e)), alpha[e.head]), beta, e.tails, {j, k});
        r := s.plus(r, prod);
      }
      u := u + 1;
    }
  }

  /**
   * The inside-adjoint visit of one edge: for each tail j in order,
   * betaAdj_j += betaAdj_{H(e)} * w_e * prod_{k != j} beta_k, then the pair terms.
   */
  method InsideAdjApply(w: Hyperpotential, s: Semiring, beta: array<real>, alpha: array<real>, alphaAdj: array<real>,
                        betaAdj: array<real>, e: Hyperedge)
    requires betaAdj != beta && betaAdj != alpha && betaAdj != alphaAdj
    requires beta.Length == alpha.Length == alphaAdj.Length == betaAdj.Length && EdgeFits(e, beta.Length)
    modifies betaAdj
    ensures betaAdj[..] == InsideAdjTails(s, w, beta[..], alpha[..], alphaAdj[..], old(betaAdj[..]), e, |e.tails|)
  {
    var i := e.head;
    ghost var be, al, aa := beta[..], alpha[..], alphaAdj[..];
    var t := 0;
    while t < |e.tails|
      invariant 0 <= t <= |e.tails|
      invariant betaAdj[..] == InsideAdjTails(s, w, be, al, aa, old(betaAdj[..]), e, t)
    {
      var j := e.tails[t];
      ghost var cur := betaAdj[..];
      var prod := TailProduct(s, s.times(betaAdj[i], w(e)), beta, e.tails, {j});
      var first := s.plus(betaAdj[j], prod);
      var total := PairTerms(w, s, beta, alpha, alphaAdj, e, j, first);
      betaAdj[j] := total;
      assert betaAdj[..] == cur[j := total];
      t := t + 1;
    }
  }

  /** The direct terms; then every edge in reverse topological order. */
  method InsideAdjoint(g: Hypergraph, w: Hyperpotential, s: SemiringExt, alpha: array<real>, beta: array<real>,
                       marginalAdj: array<real>, alphaAdj: array<real>) returns (betaAdj: array<real>)
    requires WellFormed(g) && alpha.Length == g.numNodes && beta.Length == g.numNodes
    requires marginalAdj.Length == g.numNodes && alphaAdj.Length == g.numNodes
    ensures betaAdj[..] == Hypergraphs.InsideAdjoint(g, s, w, alpha[..], beta[..], marginalAdj[..], alphaAdj[..])
  {
    betaAdj := InsideAdjointInit(g, s, alpha, beta, marginalAdj);
    var k := |g.edges|;
    while k > 0
      invariant 0 <= k <= |g.edges|
      invariant betaAdj.Length == g.numNodes && fresh(betaAdj)
      invariant betaAdj[..] == InsideAdjSuffix(g, s, w, alpha[..], beta[..], marginalAdj[..], alphaAdj[..], k)
    {
      k := k - 1;
      InsideAdjApply(w, s.base, beta, alpha, alphaAdj, betaAdj, g.edges[k]);
    }
  }

  // -------------------------------------------------------- weight adjoint

  /**
   * The adjoint of one edge weight:
   * betaAdj_{H(e)} * prod_{j in T(e)} beta_j + sum_{j in T(e)} alphaAdj_j * alpha_{H(e)} * prod_{k in T(e), k != j} beta_k.
   */
  method WeightAdjOfEdge(s: Semiring, alpha: array<real>, beta: array<real>, alphaAdj: array<real>, betaAdj: array<real>,
                         e: Hyperedge) returns (we: real)
    requires beta.Length == alpha.Length == alphaAdj.Length == betaAdj.Length && EdgeFits(e, beta.Length)
    ensures we == WeightAdjOf(s, beta[..], alpha[..], alphaAdj[..], betaAdj[..], e)
  {
    var i := e.head;
    var start := TailProduct(s, betaAdj[i], beta, e.tails, {});
    we := start;
    var t := 0;
    while t < |e.tails|
      invariant 0 <= t <= |e.tails|
      invariant we == TailTermSum(s, beta[..], alpha[..], alphaAdj[..], e, start, t)
    {
      var j := e.tails[t];
      var prod := TailProduct(s, s.times(alphaAdj[j], alpha[i]), beta, e.tails, {j});
      we := s.plus(we, prod);
      t := t + 1;
    }
  }

  /** weightAdj (all 0.0); then, for every edge in topological order, weightAdj[e.id] := its adjoint. */
  method WeightAdjoint(g: Hypergraph, s: Semiring, alpha: array<real>, beta: array<real>,
                       alphaAdj: array<real>, betaAdj: array<real>) returns (weightAdj: array<real>)
    requires WellFormed(g) && alpha.Length == g.numNodes && beta.Length == g.numNodes
    requires alphaAdj.Length == g.numNodes && betaAdj.Length == g.numNodes
    ensures weightAdj[..] == Hypergraphs.WeightAdjoint(g, s, alpha[..], beta[..], alphaAdj[..], betaAdj[..])
  {
    weightAdj := new real[|g.edges|](_ => 0.0);
    assert weightAdj[..] == WeightAdjPrefix(g, s, alpha[..], beta[..], alphaAdj[..], betaAdj[..], 0);
    var k := 0;
    while k < |g.edges|
      invariant 0 <= k <= |g.edges|
      invariant weightAdj.Length == |g.edges|
      invariant weightAdj[..] == WeightAdjPrefix(g, s, alpha[..], beta[..], alphaAdj[..], betaAdj[..], k)
    {
      var e := g.edges[k];
      var we := WeightAdjOfEdge(s, alpha, beta, alphaAdj, betaAdj, e);
      weightAdj[e.id] := we;
      k := k + 1;
    }
  }

  // ------------------------------------------------ phases over a Scores object

  /** Stores the inside scores in scores.beta. */
  method InsideAlgorithmScores(g: Hypergraph, w: Hyperpotential, s: SemiringExt, scores: Scores)
    requires WellFormed(g)
    modifies scores
    ensures scores.alpha == old(scores.alpha) && scores.marginal == old(scores.marginal)
    ensures scores.alphaAdj == old(scores.alphaAdj) && scores.betaAdj == old(scores.betaAdj)
    ensures scores.marginalAdj == old(scores.marginalAdj) && scores.weightAdj == old(scores.weightAdj)
    ensures scores.beta != null && scores.beta[..] == Inside(g, s.base, w)
  {
    scores.beta := InsideAlgorithm(g, w, s.base);
  }

  /** Reads scores.beta; stores the outside scores in scores.alpha. */
  method OutsideAlgorithmScores(g: Hypergraph, w: Hyperpotential, s: SemiringExt, scores: Scores)
    requires WellFormed(g) && HasNodeScores(scores.beta, g)
    modifies scores
    ensures scores.beta == old(scores.beta) && scores.marginal == old(scores.marginal)
    ensures scores.alphaAdj == old(scores.alphaAdj) && scores.betaAdj == old(scores.betaAdj)
    ensures scores.marginalAdj == old(scores.marginalAdj) && scores.weightAdj == old(scores.weightAdj)
    ensures scores.alpha != null && scores.alpha[..] == Outside(g, s.base, w, scores.beta[..])
  {
    scores.alpha := OutsideAlgorithm(g, w, s.base, scores.beta);
  }

  /** Reads scores.alpha and scores.beta; stores the node marginals in scores.marginal. */
  method MarginalsScores(g: Hypergraph, s: SemiringExt, scores: Scores)
    requires WellFormed(g) && HasNodeScores(scores.alpha, g) && HasNodeScores(scores.beta, g)
    modifies scores
    ensures scores.alpha == old(scores.alpha) && scores.beta == old(scores.beta)
    ensures scores.alphaAdj == old(scores.alphaAdj) && scores.betaAdj == old(scores.betaAdj)
    ensures scores.marginalAdj == old(scores.marginalAdj) && scores.weightAdj == old(scores.weightAdj)
    ensures scores.marginal != null
    ensures scores.marginal[..] == Hypergraphs.Marginals(g, s, scores.alpha[..], scores.beta[..])
  {
    scores.marginal := Marginals(g, s, scores.alpha, scores.beta);
  }

  /** Reads scores.beta and scores.marginalAdj; stores the outside adjoints in scores.alphaAdj. */
  method OutsideAdjointScores(g: Hypergraph, w: Hyperpotential, s: SemiringExt, scores: Scores)
    requires WellFormed(g) && HasNodeScores(scores.beta, g) && HasNodeScores(scores.marginalAdj, g)
    modifies scores
    ensures scores.alpha == old(scores.alpha) && scores.beta == old(scores.beta) && scores.marginal == old(scores.marginal)
    ensures scores.betaAdj == old(scores.betaAdj)
    ensures scores.marginalAdj == old(scores.marginalAdj) && scores.weightAdj == old(scores.weightAdj)
    ensures scores.alphaAdj != null
    ensures scores.alphaAdj[..] == Hypergraphs.OutsideAdjoint(g, s, w, scores.beta[..], scores.marginalAdj[..])
  {
    scores.alphaAdj := OutsideAdjoint(g, w, s, scores.beta, scores.marginalAdj);
  }

  /** Reads alpha, beta, marginalAdj and alphaAdj; stores the inside adjoints in scores.betaAdj. */
  method InsideAdjointScores(g: Hypergraph, w: Hyperpotential, s: SemiringExt, scores: Scores)
    requires WellFormed(g) && HasNodeScores(scores.alpha, g) && HasNodeScores(scores.beta, g)
    requires HasNodeScores(scores.marginalAdj, g) && HasNodeScores(scores.alphaAdj, g)
    modifies scores
    ensures scores.alpha == old(scores.alpha) && scores.beta == old(scores.beta) && scores.marginal == old(scores.marginal)
    ensures scores.alphaAdj == old(scores.alphaAdj)
    ensures scores.marginalAdj == old(scores.marginalAdj) && scores.weightAdj == old(scores.weightAdj)
    ensures scores.betaAdj != null
    ensures scores.betaAdj[..] == Hypergraphs.InsideAdjoint(g, s, w, scores.alpha[..], scores.beta[..],
                                                            scores.marginalAdj[..], scores.alphaAdj[..])
  {
    scores.betaAdj := InsideAdjoint(g, w, s, scores.alpha, scores.beta, scores.marginalAdj, scores.alphaAdj);
  }

  /** Reads alpha, beta, alphaAdj and betaAdj; stores the weight adjoints in scores.weightAdj. */
  method WeightAdjointScores(g: Hypergraph, s: SemiringExt, scores: Scores)
    requires WellFormed(g) && HasNodeScores(scores.alpha, g) && HasNodeScores(scores.beta, g)
    requires HasNodeScores(scores.alphaAdj, g) && HasNodeScores(scores.betaAdj, g)
    modifies scores
    ensures scores.alpha == old(scores.alpha) && scores.beta == old(scores.beta) && scores.marginal == old(scores.marginal)
    ensures scores.alphaAdj == old(scores.alphaAdj) && scores.betaAdj == old(scores.betaAdj)
    ensures scores.marginalAdj == old(scores.marginalAdj)
    ensures scores.weightAdj != null
    ensures scores.weightAdj[..] == Hypergraphs.WeightAdjoint(g, s.base, scores.alpha[..], scores.beta[..],
                                                              scores.alphaAdj[..], scores.betaAdj[..])
  {
    scores.weightAdj := WeightAdjoint(g, s.base, scores.alpha, scores.beta, scores.alphaAdj, scores.betaAdj);
  }

  // ------------------------------------------------------- the two passes

  /** Inside, then outside, then marginals. */
  method Forward(g: Hypergraph, w: Hyperpotential, s: SemiringExt, scores: Scores)
    requires WellFormed(g)
    modifies scores
    ensures scores.alphaAdj == old(scores.alphaAdj) && scores.betaAdj == old(scores.betaAdj)
    ensures scores.marginalAdj == old(scores.marginalAdj) && scores.weightAdj == old(scores.weightAdj)
    ensures scores.beta != null && scores.beta[..] == Inside(g, s.base, w)
    ensures scores.alpha != null && scores.alpha[..] == Outside(g, s.base, w, Inside(g, s.base, w))
    ensures scores.marginal != null
    ensures scores.marginal[..] == Hypergraphs.Marginals(g, s, Outside(g, s.base, w, Inside(g, s.base, w)), Inside(g, s.base, w))
  {
    InsideAlgorithmScores(g, w, s, scores);
    OutsideAlgorithmScores(g, w, s, scores);
    MarginalsScores(g, s, scores);
  }

  /**
   * Outside adjoint, then inside adjoint, then weight adjoint. Fails, changing
   * nothing, when scores.marginalAdj is null, whatever the other fields hold
   * (a call before the forward pass included).
   */
  method Backward(g: Hypergraph, w: Hyperpotential, s: SemiringExt, scores: Scores) returns (outcome: Outcome<string>)
    requires WellFormed(g)
    requires scores.marginalAdj != null ==>
      && HasNodeScores(scores.alpha, g) && HasNodeScores(scores.beta, g)
      && scores.marginalAdj.Length == g.numNodes
    modifies scores
    ensures outcome.Fail? <==> old(scores.marginalAdj) == null
    ensures outcome.Fail? ==> unchanged(scores)
    ensures outcome.Pass? ==>
      && scores.alpha == old(scores.alpha) && scores.beta == old(scores.beta)
      && scores.marginal == old(scores.marginal) && scores.marginalAdj == old(scores.marginalAdj)
      && scores.alphaAdj != null && scores.betaAdj != null && scores.weightAdj != null
      && scores.alphaAdj[..] == Hypergraphs.OutsideAdjoint(g, s, w, scores.beta[..], scores.marginalAdj[..])
      && scores.betaAdj[..] == Hypergraphs.InsideAdjoint(g, s, w, scores.alpha[..], scores.beta[..],
                                                         scores.marginalAdj[..], scores.alphaAdj[..])
      && scores.weightAdj[..] == Hypergraphs.WeightAdjoint(g, s.base, scores.alpha[..], scores.beta[..],
                                                           scores.alphaAdj[..], scores.betaAdj[..])
  {
    if scores.marginalAdj == null {
      return Fail("scores.marginalAdj must be non-null.");
    }
    OutsideAdjointScores(g, w, s, scores);
    InsideAdjointScores(g, w, s, scores);
    WeightAdjointScores(g, s, scores);
    outcome := Pass;
  }
}
