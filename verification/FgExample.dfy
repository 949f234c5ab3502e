/**
 * A training example over a factor graph: the graph, the gold assignment to
 * its variables and the two clamped copies training needs, one with the
 * OBSERVED variables clamped to their gold states and one with the OBSERVED
 * and PREDICTED variables clamped.
 */
module FgExamples {
  import opened Wrappers
  import opened FactorGraphs

  /**
   * The check's test for one factor: the gold assignments to its OBSERVED
   * variables are as many as those variables, and likewise for its
   * PREDICTED variables.
   */
  predicate FactorLabeled(vars: set<Var>, gold: VarConfig) {
    && |OfType(vars, Observed)| == |Intersection(gold, OfType(vars, Observed))|
    && |OfType(vars, Predicted)| == |Intersection(gold, OfType(vars, Predicted))|
  }

  /** Every factor of fg passes the check. */
  predicate GoldLabeled(fg: FactorGraph, gold: VarConfig) {
    forall a :: 0 <= a < |fg.factors| ==> FactorLabeled(fg.factors[a].vars, gold)
  }

  /** The gold config assigns all of vars exactly when its restriction to vars is as large as vars. */
  lemma IntersectionFull(gold: VarConfig, vars: set<Var>)
    ensures |Intersection(gold, vars)| == |vars| <==> vars <= gold.Keys
  {
    var keys := Intersection(gold, vars).Keys;
    assert keys <= vars;
    if |keys| == |vars| {
      assert keys + (vars - keys) == vars;
      assert |vars - keys| == 0;
      assert vars - keys == {};
    }
    if vars <= gold.Keys {
      assert keys == vars;
    }
  }

  /** A factor passes the check exactly when all its non-LATENT variables have a gold state. */
  lemma FactorLabeledIff(vars: set<Var>, gold: VarConfig)
    ensures FactorLabeled(vars, gold) <==> forall v :: v in vars && v.vtype != Latent ==> v in gold
  {
    IntersectionFull(gold, OfType(vars, Observed));
    IntersectionFull(gold, OfType(vars, Predicted));
    if FactorLabeled(vars, gold) {
      forall v | v in vars && v.vtype != Latent
        ensures v in gold
      {
        assert v in OfType(vars, v.vtype);
      }
    }
  }

  /** The graph passes the check exactly when every non-LATENT variable of every factor has a gold state. */
  lemma GoldLabeledIff(fg: FactorGraph, gold: VarConfig)
    ensures GoldLabeled(fg, gold) <==>
      forall a, v :: 0 <= a < |fg.factors| && v in fg.factors[a].vars && v.vtype != Latent ==> v in gold
  {
    forall a | 0 <= a < |fg.factors| {
      FactorLabeledIff(fg.factors[a].vars, gold);
    }
  }

  /**
   * Checks the factors in order; fails with the index of the first factor
   * an OBSERVED or PREDICTED variable of which has no gold state.
   */
  method CheckGoldConfig(fg: FactorGraph, gold: VarConfig) returns (r: Outcome<nat>)
    ensures r.Pass? <==> GoldLabeled(fg, gold)
    ensures r.Fail? ==> r.error < |fg.factors| && !FactorLabeled(fg.factors[r.error].vars, gold)
    ensures r.Fail? ==> forall a :: 0 <= a < r.error ==> FactorLabeled(fg.factors[a].vars, gold)
  {
    var a := 0;
    while a < |fg.factors|
      invariant 0 <= a <= |fg.factors|
      invariant forall b :: 0 <= b < a ==> FactorLabeled(fg.factors[b].vars, gold)
    {
      var vars := fg.factors[a].vars;
      var varsObs := OfType(vars, Observed);
      var obsConfig := Intersection(gold, varsObs);
      var varsPred := OfType(vars, Predicted);
      var predConfig := Intersection(gold, varsPred);
      if |varsObs| != |obsConfig| || |varsPred| != |predConfig| {
        return Fail(a);
      }
      a := a + 1;
    }
    return Pass;
  }

  /** The variables a list holds, minus the OBSERVED and PREDICTED ones, are its LATENT ones. */
  lemma {:induction false} LatentCount(vars: seq<Var>)
    ensures |vars| - |ListOfType(vars, Observed)| - |ListOfType(vars, Predicted)| == |ListOfType(vars, Latent)|
  {
    if vars != [] {
      LatentCount(vars[1..]);
    }
  }

  /** Clamping variables that are all OBSERVED leaves every factor's PREDICTED variables as they were. */
  lemma ClampKeepsPredicted(vars: set<Var>, clamped: set<Var>)
    requires forall v :: v in clamped ==> v.vtype == Observed
    ensures OfType(vars - clamped, Predicted) == OfType(vars, Predicted)
  {
    forall v | v in OfType(vars, Predicted)
      ensures v in OfType(vars - clamped, Predicted)
    {
      assert v !in clamped;
    }
  }

  /**
   * Re-computes the potentials of every factor of g from the model, in
   * factor order, and returns g itself.
   */
  method GetUpdatedFactorGraph(g: FactorGraph, params: seq<real>, logDomain: bool) returns (r: FactorGraph)
    modifies g.Factors()
    ensures r == g
    ensures forall a :: 0 <= a < |g.factors| ==> g.factors[a].lastUpdate == Some(Update(params, logDomain))
  {
    var a := 0;
    while a < |g.factors|
      invariant 0 <= a <= |g.factors|
      invariant forall b :: 0 <= b < a ==> g.factors[b].lastUpdate == Some(Update(params, logDomain))
    {
      var f := g.factors[a];
      f.UpdateFromModel(params, logDomain);
      a := a + 1;
    }
    return g;
  }

  class FgExample {
    /** The original graph. */
    const fg: FactorGraph
    /** The gold assignment to the graph's variables. */
    const goldConfig: VarConfig
    /** The graph with its OBSERVED variables clamped. */
    const fgLatPred: FactorGraph
    /** The graph with its OBSERVED and PREDICTED variables clamped. */
    const fgLat: FactorGraph
    /** Whether the graph has LATENT variables. */
    const hasLatentVars: bool

    /**
     * The gold config passes the check; both clamped graphs have as many
     * factors as the original; clamping the OBSERVED variables kept each
     * factor's PREDICTED variables; and hasLatentVars counts LATENT variables.
     */
    ghost predicate Valid() {
      && GoldLabeled(fg, goldConfig)
      && |fgLatPred.factors| == |fg.factors| && |fgLat.factors| == |fg.factors|
      && (forall a :: 0 <= a < |fg.factors| ==>
            OfType(fgLatPred.factors[a].vars, Predicted) == OfType(fg.factors[a].vars, Predicted))
      && hasLatentVars == (|ListOfType(fg.vars, Latent)| > 0)
    }

    /**
     * Builds the example from a gold config that passes the check: the
     * OBSERVED variables are clamped to their gold states (the graph itself
     * is used when it has none), then the PREDICTED ones.
     */
    constructor (fg: FactorGraph, goldConfig: VarConfig)
      requires GoldLabeled(fg, goldConfig)
      ensures Valid() && this.fg == fg && this.goldConfig == goldConfig
      ensures |ListOfType(fg.vars, Observed)| == 0 ==> fgLatPred == fg
      ensures |ListOfType(fg.vars, Observed)| > 0 ==> fresh(fgLatPred)
      ensures |ListOfType(fg.vars, Observed)| > 0 ==> forall a :: 0 <= a < |fg.factors| ==>
        fgLatPred.factors[a].vars == fg.factors[a].vars - Intersection(goldConfig, Elements(ListOfType(fg.vars, Observed))).Keys
      ensures fresh(fgLat) && forall a :: 0 <= a < |fg.factors| ==>
        fgLat.factors[a].vars == fgLatPred.factors[a].vars - Intersection(goldConfig, Elements(ListOfType(fg.vars, Predicted))).Keys
      ensures hasLatentVars == (|fg.vars| - |ListOfType(fg.vars, Observed)| - |ListOfType(fg.vars, Predicted)| > 0)
    {
      var observedVars := ListOfType(fg.vars, Observed);
      var latPred: FactorGraph;
      if |observedVars| > 0 {
        var obsConfig := Intersection(goldConfig, Elements(observedVars));
        latPred := fg.Clamped(obsConfig);
        forall a | 0 <= a < |fg.factors|
          ensures OfType(latPred.factors[a].vars, Predicted) == OfType(fg.factors[a].vars, Predicted)
        {
          ClampKeepsPredicted(fg.factors[a].vars, obsConfig.Keys);
        }
      } else {
        latPred := fg;
      }
      var predictedVars := ListOfType(fg.vars, Predicted);
      var lat := latPred.Clamped(Intersection(goldConfig, Elements(predictedVars)));
      LatentCount(fg.vars);
      this.fg := fg;
      this.goldConfig := goldConfig;
      fgLatPred := latPred;
      fgLat := lat;
      hasLatentVars := |fg.vars| - |observedVars| - |predictedVars| > 0;
    }

    /** Whether some variable of the graph is LATENT. */
    function HasLatentVars(): (r: bool)
      requires Valid()
      ensures r <==> exists i :: 0 <= i < |fg.vars| && fg.vars[i].vtype == Latent
    {
      if hasLatentVars then
        assert ListOfType(fg.vars, Latent)[0] in fg.vars;
        true
      else
        false
    }

    /** Re-computes the potentials of the OBSERVED-clamped graph and returns it. */
    method UpdateFgLatPred(params: seq<real>, logDomain: bool) returns (r: FactorGraph)
      modifies fgLatPred.Factors()
      ensures r == fgLatPred
      ensures forall a :: 0 <= a < |r.factors| ==> r.factors[a].lastUpdate == Some(Update(params, logDomain))
    {
      r := GetUpdatedFactorGraph(fgLatPred, params, logDomain);
    }

    /** Re-computes the potentials of the OBSERVED-and-PREDICTED-clamped graph and returns it. */
    method UpdateFgLat(params: seq<real>, logDomain: bool) returns (r: FactorGraph)
      modifies fgLat.Factors()
      ensures r == fgLat
      ensures forall a :: 0 <= a < |r.factors| ==> r.factors[a].lastUpdate == Some(Update(params, logDomain))
    {
      r := GetUpdatedFactorGraph(fgLat, params, logDomain);
    }

    /**
     * The gold states of the PREDICTED variables of factor factorId: exactly
     * those variables of the original factor, each with its gold state.
     */
    function GetGoldConfigPred(factorId: nat): (r: VarConfig)
      requires Valid() && factorId < |fgLatPred.factors|
      ensures r.Keys == OfType(fg.factors[factorId].vars, Predicted)
      ensures forall v :: v in r ==> v in goldConfig && r[v] == goldConfig[v]
    {
      FactorLabeledIff(fg.factors[factorId].vars, goldConfig);
      Intersection(goldConfig, OfType(fgLatPred.factors[factorId].vars, Predicted))
    }
  }

  /**
   * Constructs an example, first checking the gold config: fails with the
   * index of the first factor the check rejects, and builds nothing then.
   */
  method NewFgExample(fg: FactorGraph, goldConfig: VarConfig) returns (r: Result<FgExample, nat>)
    ensures r.Failure? <==> !GoldLabeled(fg, goldConfig)
    ensures r.Failure? ==> r.error < |fg.factors| && !FactorLabeled(fg.factors[r.error].vars, goldConfig)
    ensures r.Failure? ==> forall a :: 0 <= a < r.error ==> FactorLabeled(fg.factors[a].vars, goldConfig)
    ensures r.Success? ==> fresh(r.value) && r.value.Valid() && r.value.fg == fg && r.value.goldConfig == goldConfig
  {
    var check := CheckGoldConfig(fg, goldConfig);
    if check.Fail? {
      return Failure(check.error);
    }
    var ex := new FgExample(fg, goldConfig);
    return Success(ex);
  }
}
