/**
 * A labeled training example: a factor graph, the graph with its OBSERVED
 * variables clamped (built by the unlabeled base example), the gold
 * assignment, checked variable by variable, and a training weight.
 */
module LabeledFgExamples {
  import opened Wrappers
  import opened FactorGraphs
  import FgExamples

  /** Every non-LATENT variable of the list has a gold state (getState does not fall back to -1). */
  predicate VarsLabeled(vars: seq<Var>, gold: VarConfig) {
    forall i :: 0 <= i < |vars| && vars[i].vtype != Latent ==> GetState(gold, vars[i], -1) != -1
  }

  /** The check passes exactly when the gold config assigns every non-LATENT variable of the list. */
  lemma VarsLabeledIff(vars: seq<Var>, gold: VarConfig)
    ensures VarsLabeled(vars, gold) <==> forall v :: v in vars && v.vtype != Latent ==> v in gold
  {
    if VarsLabeled(vars, gold) {
      forall v | v in vars && v.vtype != Latent
        ensures v in gold
      {
        var i :| 0 <= i < |vars| && vars[i] == v;
      }
    }
  }

  /**
   * When every factor's variables are variables of the graph, the
   * per-variable check implies the per-factor check of FgExample.
   */
  lemma VarCheckCoversFactorCheck(fg: FactorGraph, gold: VarConfig)
    requires VarsLabeled(fg.vars, gold)
    requires forall a :: 0 <= a < |fg.factors| ==> fg.factors[a].vars <= Elements(fg.vars)
    ensures FgExamples.GoldLabeled(fg, gold)
  {
    VarsLabeledIff(fg.vars, gold);
    FgExamples.GoldLabeledIff(fg, gold);
  }

  /**
   * Checks the graph's variables in order; fails with the first one that is
   * not LATENT and has no gold state.
   */
  method CheckGoldConfig(fg: FactorGraph, gold: VarConfig) returns (r: Outcome<Var>)
    ensures r.Pass? <==> VarsLabeled(fg.vars, gold)
    ensures r.Fail? ==> exists i ::
      && 0 <= i < |fg.vars| && fg.vars[i] == r.error && r.error.vtype != Latent && r.error !in gold
      && VarsLabeled(fg.vars[..i], gold)
  {
    var i := 0;
    while i < |fg.vars|
      invariant 0 <= i <= |fg.vars|
      invariant VarsLabeled(fg.vars[..i], gold)
    {
      var v := fg.vars[i];
      if v.vtype != Latent && GetState(gold, v, -1) == -1 {
        return Fail(v);
      }
      i := i + 1;
    }
    assert fg.vars[..i] == fg.vars;
    return Pass;
  }

  class LabeledFgExample {
    const fg: FactorGraph
    /** The graph with its OBSERVED variables clamped, as the unlabeled base example builds it. */
    const fgLatPred: FactorGraph
    /** The gold assignment to the graph's variables. */
    const goldConfig: VarConfig
    /** The weight of the example in training. */
    var weight: real

    /** The gold config passed the check. */
    ghost predicate Valid() {
      VarsLabeled(fg.vars, goldConfig)
    }

    /** An example with weight 1.0 from a gold config that passes the check. */
    constructor (fg: FactorGraph, fgLatPred: FactorGraph, goldConfig: VarConfig)
      requires VarsLabeled(fg.vars, goldConfig)
      ensures Valid() && this.fg == fg && this.fgLatPred == fgLatPred && this.goldConfig == goldConfig
      ensures weight == 1.0
    {
      this.fg := fg;
      this.fgLatPred := fgLatPred;
      this.goldConfig := goldConfig;
      weight := 1.0;
    }

    /** The gold config passed in, which assigns every non-LATENT variable of the graph. */
    function GetGoldConfig(): (r: VarConfig)
      requires Valid()
      ensures r == goldConfig
      ensures forall v :: v in fg.vars && v.vtype != Latent ==> v in r
    {
      VarsLabeledIff(fg.vars, goldConfig);
      goldConfig
    }

    /**
     * The gold states of the PREDICTED variables of factor factorId of the
     * clamped graph; all of them when they are variables of the graph.
     */
    function GetGoldConfigPred(factorId: nat): (r: VarConfig)
      requires Valid() && factorId < |fgLatPred.factors|
      ensures r.Keys <= OfType(fgLatPred.factors[factorId].vars, Predicted)
      ensures forall v :: v in r ==> v in goldConfig && r[v] == goldConfig[v]
      ensures fgLatPred.factors[factorId].vars <= Elements(fg.vars) ==>
        r.Keys == OfType(fgLatPred.factors[factorId].vars, Predicted)
    {
      VarsLabeledIff(fg.vars, goldConfig);
      Intersection(goldConfig, OfType(fgLatPred.factors[factorId].vars, Predicted))
    }

    method SetWeight(w: real)
      modifies this`weight
      ensures weight == w
    {
      weight := w;
    }

    /** The weight last given to SetWeight, 1.0 if none. */
    function GetWeight(): (r: real)
      reads this`weight
      ensures r == weight
    {
      weight
    }
  }

  /**
   * Constructs a labeled example, first checking the gold config: fails with
   * the first unassigned non-LATENT variable, and builds nothing then.
   */
  method NewLabeledFgExample(fg: FactorGraph, fgLatPred: FactorGraph, goldConfig: VarConfig)
    returns (r: Result<LabeledFgExample, Var>)
    ensures r.Failure? <==> !VarsLabeled(fg.vars, goldConfig)
    ensures r.Failure? ==> r.error in fg.vars && r.error.vtype != Latent && r.error !in goldConfig
    ensures r.Success? ==> fresh(r.value) && r.value.Valid() && r.value.weight == 1.0
    ensures r.Success? ==> r.value.fg == fg && r.value.fgLatPred == fgLatPred && r.value.goldConfig == goldConfig
  {
    var check := CheckGoldConfig(fg, goldConfig);
    if check.Fail? {
      return Failure(check.error);
    }
    var ex := new LabeledFgExample(fg, fgLatPred, goldConfig);
    return Success(ex);
  }
}
