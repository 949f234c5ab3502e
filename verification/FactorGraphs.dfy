/**
 * The factor-graph vocabulary the training examples are built on: typed
 * variables, assignments of states to variables, factors over sets of
 * variables and factor graphs. Only what the examples use is modelled:
 * variable types, factor scopes, clamping as a change of scope, and the
 * record of the last model a factor was updated from.
 */
module FactorGraphs {
  import opened Wrappers

  /** How a variable is treated in training: given as input, hidden, or to be predicted. */
  datatype VarType = Observed | Latent | Predicted

  /** A variable: its type, its number of states and its name. */
  datatype Var = Var(vtype: VarType, numStates: nat, name: string)

  /** An assignment of states to some of the variables. */
  type VarConfig = map<Var, nat>

  /** The state of v in config, or `default` when config assigns v nothing. */
  function GetState(config: VarConfig, v: Var, default: int): int {
    if v in config then config[v] else default
  }

  /** The variables of a set that have type t. */
  function OfType(vars: set<Var>, t: VarType): set<Var> {
    set v | v in vars && v.vtype == t
  }

  /** The variables of a list that have type t, in list order. */
  function ListOfType(vars: seq<Var>, t: VarType): (r: seq<Var>)
    ensures |r| <= |vars|
    ensures forall v :: v in r <==> v in vars && v.vtype == t
  {
    if vars == [] then []
    else if vars[0].vtype == t then [vars[0]] + ListOfType(vars[1..], t)
    else ListOfType(vars[1..], t)
  }

  /** The assignments of config to the variables of vars (the variables it assigns nothing are left out). */
  function Intersection(config: VarConfig, vars: set<Var>): (r: VarConfig)
    ensures r.Keys == config.Keys * vars
    ensures forall v :: v in r ==> r[v] == config[v]
  {
    map v | v in config && v in vars :: config[v]
  }

  /** The variables of a list, as a set. */
  function Elements(vars: seq<Var>): set<Var> {
    set v | v in vars
  }

  /** The parameters and the domain a factor was last updated with. */
  datatype Update = Update(params: seq<real>, logDomain: bool)

  /** A factor over a set of variables. */
  class Factor {
    const vars: set<Var>
    /** The model the factor's potentials were last computed from, if any. */
    var lastUpdate: Option<Update>

    constructor (vars: set<Var>)
      ensures this.vars == vars && lastUpdate == None
    {
      this.vars := vars;
      lastUpdate := None;
    }

    /** Recomputes the factor's potentials from the model's parameters. */
    method UpdateFromModel(params: seq<real>, logDomain: bool)
      modifies this
      ensures lastUpdate == Some(Update(params, logDomain))
    {
      lastUpdate := Some(Update(params, logDomain));
    }
  }

  /** A factor graph: its variables, in order, and its factors, in order. */
  class FactorGraph {
    const vars: seq<Var>
    const factors: seq<Factor>

    constructor (vars: seq<Var>, factors: seq<Factor>)
      ensures this.vars == vars && this.factors == factors
    {
      this.vars := vars;
      this.factors := factors;
    }

    /** The factor objects of the graph. */
    ghost function Factors(): set<Factor> {
      set a | 0 <= a < |factors| :: factors[a]
    }

    /**
     * A new graph in which the variables config assigns are clamped: the
     * same number of factors, each over its variables minus the clamped
     * ones, and the graph's variables minus the clamped ones.
     */
    method Clamped(config: VarConfig) returns (g: FactorGraph)
      ensures fresh(g) && |g.factors| == |factors|
      ensures forall a :: 0 <= a < |factors| ==> g.factors[a].vars == factors[a].vars - config.Keys
      ensures forall v :: v in g.vars <==> v in vars && v !in config
    {
      var clamped: seq<Factor> := [];
      var a := 0;
      while a < |factors|
        invariant 0 <= a <= |factors| && |clamped| == a
        invariant forall b :: 0 <= b < a ==> clamped[b].vars == factors[b].vars - config.Keys
      {
        var f := new Factor(factors[a].vars - config.Keys);
        clamped := clamped + [f];
        a := a + 1;
      }
      g := new FactorGraph(Unclamped(vars, config), clamped);
    }
  }

  /** The variables of a list that config does not assign, in list order. */
  function Unclamped(vars: seq<Var>, config: VarConfig): (r: seq<Var>)
    ensures forall v :: v in r <==> v in vars && v !in config
  {
    if vars == [] then []
    else if vars[0] in config then Unclamped(vars[1..], config)
    else [vars[0]] + Unclamped(vars[1..], config)
  }
}
