/** The XPPAUT-style model: a named list of variables and an ordered
    parameter list, the classification of fixed points from their
    eigenvalues, and the Lorenz system. */
module Xppaut {
  import opened Wrappers
  import opened OldiesCore

  /** A complex eigenvalue. */
  datatype Complex = Complex(re: real, im: real)

  datatype BifurcationType =
    | SaddleNode
    | Transcritical
    | Pitchfork
    | Hopf(supercritical: bool)
    | PeriodDoubling
    | LimitPointCycles
    | Torus

  datatype FixedPointType =
    StableNode | UnstableNode | StableFocus | UnstableFocus | Saddle | Center | Unknown

  datatype FixedPoint = FixedPoint(state: seq<real>, parameter: real, eigenvalues: seq<Complex>,
                                   stable: bool, pointType: FixedPointType)

  datatype LimitCycle = LimitCycle(period: real, amplitude: real, parameter: real,
                                   floquetMultipliers: seq<Complex>, stable: bool)

  datatype BifurcationPoint = BifurcationPoint(bifurcationType: BifurcationType, parameter: real,
                                               state: seq<real>, info: Option<string>)

  datatype BifurcationDiagram = BifurcationDiagram(parameterName: string, parameterRange: (real, real),
                                                   stateIndex: nat, fixedPoints: seq<FixedPoint>,
                                                   limitCycles: seq<LimitCycle>,
                                                   bifurcations: seq<BifurcationPoint>)

  // ---------------------------------------------------------------------------
  // The parameter list
  // ---------------------------------------------------------------------------

  /** The position of the first pair named `name`. */
  function FirstMatch(params: seq<(string, real)>, name: string): (r: Option<nat>)
    ensures r.None? <==> forall i :: 0 <= i < |params| ==> params[i].0 != name
    ensures r.Some? ==> r.value < |params| && params[r.value].0 == name &&
                        forall i :: 0 <= i < r.value ==> params[i].0 != name
  {
    if params == [] then None
    else if params[0].0 == name then Some(0)
    else
      match FirstMatch(params[1..], name)
      case None => None
      case Some(i) => Some(i + 1)
  }

  /** An index holding the name with no earlier match is the first match. */
  lemma FirstMatchAt(params: seq<(string, real)>, name: string, i: nat)
    requires i < |params| && params[i].0 == name
    requires forall j :: 0 <= j < i ==> params[j].0 != name
    ensures FirstMatch(params, name) == Some(i)
  {
  }

  /** The value of the first pair named `name`, if any. */
  function Lookup(params: seq<(string, real)>, name: string): (r: Option<real>)
    ensures r.None? <==> forall i :: 0 <= i < |params| ==> params[i].0 != name
    ensures r.Some? ==> exists i :: 0 <= i < |params| && params[i] == (name, r.value) &&
                                    forall j :: 0 <= j < i ==> params[j].0 != name
  {
    match FirstMatch(params, name)
    case None => None
    case Some(i) => Some(params[i].1)
  }

  /** The looked-up value, or `default` when the name is absent. */
  function LookupOr(params: seq<(string, real)>, name: string, default: real): real
  {
    match Lookup(params, name)
    case None => default
    case Some(v) => v
  }

  /** An appended pair is only seen by names not already present. */
  lemma LookupAppend(params: seq<(string, real)>, name: string, value: real, other: string)
    ensures Lookup(params + [(name, value)], other) ==
            if other == name && Lookup(params, other).None? then Some(value) else Lookup(params, other)
  {
    var ps := params + [(name, value)];
    match FirstMatch(params, other)
    case None =>
      if other == name {
        FirstMatchAt(ps, other, |params|);
      } else {
        assert FirstMatch(ps, other).None?;
      }
    case Some(i) =>
      FirstMatchAt(ps, other, i);
  }

  /** An ODE model: its variables and its parameters, in insertion order. */
  class XppModel {
    const name: string
    const variables: seq<string>
    var parameters: seq<(string, real)>
    const dimension: nat

    constructor (name: string, variables: seq<string>)
      ensures this.name == name && this.variables == variables
      ensures dimension == |variables| && parameters == []
    {
      this.name := name;
      this.variables := variables;
      parameters := [];
      dimension := |variables|;
    }

    method AddParameter(pname: string, value: real)
      modifies this`parameters
      ensures parameters == old(parameters) + [(pname, value)]
    {
      parameters := parameters + [(pname, value)];
    }

    function GetParameter(pname: string): (r: Option<real>)
      reads this
      ensures r.None? <==> forall i :: 0 <= i < |parameters| ==> parameters[i].0 != pname
      ensures r.Some? ==> exists i :: 0 <= i < |parameters| && parameters[i] == (pname, r.value) &&
                                      forall j :: 0 <= j < i ==> parameters[j].0 != pname
    {
      Lookup(parameters, pname)
    }

    /** Overwrites the first pair named `pname`; an absent name is an error
        and changes nothing. */
    method SetParameter(pname: string, value: real) returns (r: Result<(), OldiesError>)
      modifies this`parameters
      ensures r.Ok? <==> Lookup(old(parameters), pname).Some?
      ensures r.Ok? ==> parameters == old(parameters)[FirstMatch(old(parameters), pname).value := (pname, value)]
      ensures r.Ok? ==> Lookup(parameters, pname) == Some(value)
      ensures forall other :: other != pname ==> Lookup(parameters, other) == Lookup(old(parameters), other)
      ensures r.Err? ==> parameters == old(parameters) &&
                         r.error == ModelNotFound("Parameter " + pname + " not found")
    {
      var i := 0;
      while i < |parameters|
        invariant 0 <= i <= |parameters|
        invariant parameters == old(parameters)
        invariant forall j :: 0 <= j < i ==> parameters[j].0 != pname
      {
        if parameters[i].0 == pname {
          ghost var before := parameters;
          parameters := parameters[i := (pname, value)];
          assert FirstMatch(before, pname) == Some(i);
          SetFirstLookup(before, i, pname, value);
          return Ok(());
        }
        i := i + 1;
      }
      r := Err(ModelNotFound("Parameter " + pname + " not found"));
    }
  }

  /** Overwriting the value of the first match changes the lookup of that
      name only. */
  lemma SetFirstLookup(params: seq<(string, real)>, i: nat, name: string, value: real)
    requires FirstMatch(params, name) == Some(i)
    ensures Lookup(params[i := (name, value)], name) == Some(value)
    ensures forall other :: other != name ==> Lookup(params[i := (name, value)], other) == Lookup(params, other)
  {
    var ps := params[i := (name, value)];
    FirstMatchAt(ps, name, i);
    forall other | other != name
      ensures Lookup(ps, other) == Lookup(params, other)
    {
      assert forall j :: 0 <= j < |ps| ==> (ps[j].0 == other <==> params[j].0 == other);
      match FirstMatch(params, other)
      case None =>
        assert FirstMatch(ps, other).None?;
      case Some(k) =>
        FirstMatchAt(ps, other, k);
    }
  }

  // ---------------------------------------------------------------------------
  // Fixed-point classification
  // ---------------------------------------------------------------------------

  /** Below this magnitude a real or imaginary part counts as zero. */
  const Epsilon: real := 0.0000000001

  function AllReal(eigs: seq<Complex>): (b: bool)
    ensures b <==> forall i :: 0 <= i < |eigs| ==> Abs(eigs[i].im) < Epsilon
  {
    eigs == [] || (Abs(eigs[0].im) < Epsilon && AllReal(eigs[1..]))
  }

  function AllNegative(eigs: seq<Complex>): (b: bool)
    ensures b <==> forall i :: 0 <= i < |eigs| ==> eigs[i].re < 0.0
  {
    eigs == [] || (eigs[0].re < 0.0 && AllNegative(eigs[1..]))
  }

  function AllPositive(eigs: seq<Complex>): (b: bool)
    ensures b <==> forall i :: 0 <= i < |eigs| ==> eigs[i].re > 0.0
  {
    eigs == [] || (eigs[0].re > 0.0 && AllPositive(eigs[1..]))
  }

  function AnyZero(eigs: seq<Complex>): (b: bool)
    ensures b <==> exists i :: 0 <= i < |eigs| && Abs(eigs[i].re) < Epsilon
  {
    eigs != [] && (Abs(eigs[0].re) < Epsilon || AnyZero(eigs[1..]))
  }

  /** The type of a fixed point from the eigenvalues of its Jacobian. */
  function ClassifyFixedPoint(eigs: seq<Complex>): (r: FixedPointType)
    ensures r != Unknown
    ensures r == Center <==> AnyZero(eigs)
    ensures r in {StableNode, UnstableNode} ==> AllReal(eigs)
    ensures r in {StableFocus, UnstableFocus} ==> !AllReal(eigs)
    ensures r in {StableNode, StableFocus} <==> !AnyZero(eigs) && AllNegative(eigs)
    ensures r in {UnstableNode, UnstableFocus} <==> !AnyZero(eigs) && !AllNegative(eigs) && AllPositive(eigs)
  {
    if AnyZero(eigs) then Center
    else if AllReal(eigs) then
      if AllNegative(eigs) then StableNode
      else if AllPositive(eigs) then UnstableNode
      else Saddle
    else
      if AllNegative(eigs) then StableFocus
      else if AllPositive(eigs) then UnstableFocus
      else Saddle
  }

  /** A saddle has an eigenvalue on each side of the imaginary axis, each
      clear of it by at least the tolerance. */
  lemma SaddleIsMixed(eigs: seq<Complex>)
    requires ClassifyFixedPoint(eigs) == Saddle
    ensures exists i :: 0 <= i < |eigs| && eigs[i].re <= -Epsilon
    ensures exists i :: 0 <= i < |eigs| && eigs[i].re >= Epsilon
  {
    var i :| 0 <= i < |eigs| && eigs[i].re >= 0.0;
    var j :| 0 <= j < |eigs| && eigs[j].re <= 0.0;
    assert Abs(eigs[i].re) >= Epsilon && Abs(eigs[j].re) >= Epsilon;
  }

  /** One eigenvalue near zero decides the type whatever the others are. */
  lemma CenterDominates(eigs: seq<Complex>, e: Complex)
    requires Abs(e.re) < Epsilon
    ensures ClassifyFixedPoint(eigs + [e]) == Center
    ensures ClassifyFixedPoint([e] + eigs) == Center
  {
    assert (eigs + [e])[|eigs|] == e;
    assert ([e] + eigs)[0] == e;
  }

  /** A fixed point whose Jacobian has eigenvalues `eigs`. */
  function MakeFixedPoint(state: seq<real>, eigs: seq<Complex>): (fp: FixedPoint)
    ensures fp.state == state && fp.eigenvalues == eigs && fp.parameter == 0.0
    ensures fp.stable <==> forall i :: 0 <= i < |eigs| ==> eigs[i].re < 0.0
    ensures fp.pointType == ClassifyFixedPoint(eigs)
  {
    FixedPoint(state, 0.0, eigs, AllNegative(eigs), ClassifyFixedPoint(eigs))
  }

  /** The stability flag and the type agree: a stable type means a stable
      flag, and a stable flag means a stable type or a centre. */
  lemma StabilityAgrees(state: seq<real>, eigs: seq<Complex>)
    ensures var fp := MakeFixedPoint(state, eigs);
            (fp.pointType in {StableNode, StableFocus} ==> fp.stable) &&
            (fp.stable ==> fp.pointType in {StableNode, StableFocus, Center}) &&
            (fp.pointType in {UnstableNode, UnstableFocus, Saddle} ==> !fp.stable)
  {
  }

  /** The two classifications the source checks by example. */
  lemma ClassificationExamples()
    ensures ClassifyFixedPoint([Complex(-1.0, 0.0), Complex(-2.0, 0.0)]) == StableNode
    ensures ClassifyFixedPoint([Complex(-1.0, 0.0), Complex(1.0, 0.0)]) == Saddle
  {
    var a := [Complex(-1.0, 0.0), Complex(-2.0, 0.0)];
    assert a[1..] == [Complex(-2.0, 0.0)];
    var b := [Complex(-1.0, 0.0), Complex(1.0, 0.0)];
    assert b[1..] == [Complex(1.0, 0.0)];
    assert !AllNegative(b) && !AllPositive(b);
  }

  // ---------------------------------------------------------------------------
  // Example systems
  // ---------------------------------------------------------------------------

  method Lorenz(sigma: real, rho: real, beta: real) returns (m: XppModel)
    ensures fresh(m) && m.name == "Lorenz" && m.variables == ["x", "y", "z"] && m.dimension == 3
    ensures m.parameters == [("sigma", sigma), ("rho", rho), ("beta", beta)]
    ensures m.GetParameter("sigma") == Some(sigma) && m.GetParameter("rho") == Some(rho) &&
            m.GetParameter("beta") == Some(beta)
  {
    m := new XppModel("Lorenz", ["x", "y", "z"]);
    m.AddParameter("sigma", sigma);
    m.AddParameter("rho", rho);
    m.AddParameter("beta", beta);
    FirstMatchAt(m.parameters, "rho", 1);
    FirstMatchAt(m.parameters, "beta", 2);
  }

  method FitzhughNagumo(a: real, b: real, epsilon: real) returns (m: XppModel)
    ensures fresh(m) && m.name == "FitzHugh-Nagumo" && m.variables == ["v", "w"] && m.dimension == 2
    ensures m.parameters == [("a", a), ("b", b), ("epsilon", epsilon)]
  {
    m := new XppModel("FitzHugh-Nagumo", ["v", "w"]);
    m.AddParameter("a", a);
    m.AddParameter("b", b);
    m.AddParameter("epsilon", epsilon);
  }

  /** The Lorenz vector field; a missing parameter takes its classical
      value (sigma 10, rho 28, beta 8/3). */
  function LorenzRhs(state: seq<real>, params: seq<(string, real)>): (r: seq<real>)
    requires |state| >= 3
    ensures |r| == 3
  {
    LorenzField(state[0], state[1], state[2],
                LookupOr(params, "sigma", 10.0), LookupOr(params, "rho", 28.0), LookupOr(params, "beta", 8.0 / 3.0))
  }

  /** The Lorenz equations at one point, for given parameters. */
  function LorenzField(x: real, y: real, z: real, sigma: real, rho: real, beta: real): seq<real>
  {
    [sigma * (y - x), x * (rho - z) - y, x * y - beta * z]
  }

  /** The equilibria of the Lorenz system: the origin, and the points with
      x = y, x^2 = beta (rho - 1), z = rho - 1. */
  lemma LorenzEquilibria(state: seq<real>, params: seq<(string, real)>)
    requires |state| >= 3
    requires var rho := LookupOr(params, "rho", 28.0);
             var beta := LookupOr(params, "beta", 8.0 / 3.0);
             state[0] == state[1] && state[2] == rho - 1.0 && state[0] * state[0] == beta * (rho - 1.0)
    ensures LorenzRhs(state, params) == [0.0, 0.0, 0.0]
  {
    var x, y, z := state[0], state[1], state[2];
    var rho := LookupOr(params, "rho", 28.0);
    var beta := LookupOr(params, "beta", 8.0 / 3.0);
    var sigma := LookupOr(params, "sigma", 10.0);
    var r := LorenzRhs(state, params);
    assert r[0] == sigma * (y - x) && r[1] == x * (rho - z) - y && r[2] == x * y - beta * z;
    assert sigma * (y - x) == 0.0;
    assert x * (rho - z) - y == 0.0 by {
      assert rho - z == 1.0;
    }
    assert x * y - beta * z == 0.0 by {
      assert x * y == x * x;
    }
  }

  /** The origin is always an equilibrium. */
  lemma LorenzOrigin(params: seq<(string, real)>)
    ensures LorenzRhs([0.0, 0.0, 0.0], params) == [0.0, 0.0, 0.0]
  {
  }

  /** Equal x and y make the first component vanish, as the source checks at
      (1, 1, 1). */
  lemma LorenzFirstComponent(state: seq<real>, params: seq<(string, real)>)
    requires |state| >= 3 && state[0] == state[1]
    ensures LorenzRhs(state, params)[0] == 0.0
  {
  }

  /** An empty parameter list behaves like the classical parameters. */
  lemma LorenzDefaults(state: seq<real>)
    requires |state| >= 3
    ensures LorenzRhs(state, []) == LorenzRhs(state, [("sigma", 10.0), ("rho", 28.0), ("beta", 8.0 / 3.0)])
  {
    var ps := [("sigma", 10.0), ("rho", 28.0), ("beta", 8.0 / 3.0)];
    FirstMatchAt(ps, "sigma", 0);
    FirstMatchAt(ps, "rho", 1);
    FirstMatchAt(ps, "beta", 2);
    assert LookupOr(ps, "sigma", 10.0) == 10.0 == LookupOr([], "sigma", 10.0);
    assert LookupOr(ps, "rho", 28.0) == 28.0 == LookupOr([], "rho", 28.0);
    assert LookupOr(ps, "beta", 8.0 / 3.0) == 8.0 / 3.0 == LookupOr([], "beta", 8.0 / 3.0);
    LorenzSameParameters(state, [], ps);
  }

  /** The vector field depends on the parameter list only through the three
      values it looks up. */
  lemma LorenzSameParameters(state: seq<real>, p: seq<(string, real)>, q: seq<(string, real)>)
    requires |state| >= 3
    requires LookupOr(p, "sigma", 10.0) == LookupOr(q, "sigma", 10.0)
    requires LookupOr(p, "rho", 28.0) == LookupOr(q, "rho", 28.0)
    requires LookupOr(p, "beta", 8.0 / 3.0) == LookupOr(q, "beta", 8.0 / 3.0)
    ensures LorenzRhs(state, p) == LorenzRhs(state, q)
  {
  }
}
