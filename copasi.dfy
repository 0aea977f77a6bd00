/** The COPASI-style biochemical network simulator: the SBML model with its
    append-only builders and lookups, the stoichiometry matrix, and the
    simulation object that integrates species concentrations. */
module Copasi {
  import opened Wrappers

  // ---------------------------------------------------------------------------
  // SBML entities
  // ---------------------------------------------------------------------------

  datatype SbmlVersion = SbmlVersion(level: nat, version: nat)

  const DefaultSbmlVersion := SbmlVersion(3, 2)

  datatype UnitKind = Mole | Litre | Second | Metre | Kilogram | Item | Dimensionless

  datatype Compartment = Compartment(id: string, name: Option<string>, spatialDimensions: nat,
                                     size: real, units: Option<string>, constant: bool)

  /** A three-dimensional, constant compartment of the given size. */
  function NewCompartment(id: string, size: real): (c: Compartment)
    ensures c.id == id && c.size == size && c.spatialDimensions == 3 && c.constant
    ensures c.name.None? && c.units.None?
  {
    Compartment(id, None, 3, size, None, true)
  }

  datatype Species = Species(id: string, name: Option<string>, compartment: string,
                             initialConcentration: Option<real>, initialAmount: Option<real>,
                             substanceUnits: Option<string>, hasOnlySubstanceUnits: bool,
                             boundaryCondition: bool, constant: bool)

  /** A species with the given initial concentration and no initial amount. */
  function NewSpecies(id: string, compartment: string, initialConcentration: real): (sp: Species)
    ensures sp.id == id && sp.compartment == compartment
    ensures sp.initialConcentration == Some(initialConcentration) && sp.initialAmount.None?
    ensures !sp.hasOnlySubstanceUnits && !sp.boundaryCondition && !sp.constant
    ensures sp.name.None? && sp.substanceUnits.None?
  {
    Species(id, None, compartment, Some(initialConcentration), None, None, false, false, false)
  }

  datatype Parameter = Parameter(id: string, name: Option<string>, value: real,
                                 units: Option<string>, constant: bool)

  function NewParameter(id: string, value: real): (p: Parameter)
    ensures p.id == id && p.value == value && p.constant
    ensures p.name.None? && p.units.None?
  {
    Parameter(id, None, value, None, true)
  }

  datatype SpeciesReference = SpeciesReference(species: string, stoichiometry: real, constant: bool)

  function NewReference(species: string, stoichiometry: real): (r: SpeciesReference)
    ensures r.species == species && r.stoichiometry == stoichiometry && r.constant
  {
    SpeciesReference(species, stoichiometry, true)
  }

  /** A kinetic law names the parameters (or species) it reads by id. */
  datatype KineticLaw =
    | MassAction(rateConstant: string)
    | MichaelisMenten(vmax: string, km: string, substrate: string)
    | Hill(vmax: string, k: string, substrate: string, n: real)
    | ReversibleMM(vmaxF: string, kmF: string, vmaxR: string, kmR: string)
    | Custom(expression: string)

  datatype Reaction = Reaction(id: string, name: Option<string>, reversible: bool,
                               reactants: seq<SpeciesReference>, products: seq<SpeciesReference>,
                               modifiers: seq<string>, kineticLaw: KineticLaw,
                               localParameters: seq<Parameter>)

  /** The irreversible mass-action reaction reactant -> product. */
  function SimpleReaction(id: string, reactant: string, product: string, rateConstant: string): (r: Reaction)
    ensures r.id == id && !r.reversible && r.name.None?
    ensures |r.reactants| == 1 && r.reactants[0].species == reactant && r.reactants[0].stoichiometry == 1.0
    ensures |r.products| == 1 && r.products[0].species == product && r.products[0].stoichiometry == 1.0
    ensures r.modifiers == [] && r.localParameters == []
    ensures r.kineticLaw == MassAction(rateConstant)
  {
    Reaction(id, None, false, [NewReference(reactant, 1.0)], [NewReference(product, 1.0)],
             [], MassAction(rateConstant), [])
  }

  /** The Michaelis-Menten reaction substrate -> product catalysed by enzyme. */
  function EnzymaticReaction(id: string, substrate: string, product: string, enzyme: string,
                             vmax: string, km: string): (r: Reaction)
    ensures r.id == id && !r.reversible && r.name.None?
    ensures |r.reactants| == 1 && r.reactants[0].species == substrate && r.reactants[0].stoichiometry == 1.0
    ensures |r.products| == 1 && r.products[0].species == product && r.products[0].stoichiometry == 1.0
    ensures r.modifiers == [enzyme] && r.localParameters == []
    ensures r.kineticLaw.MichaelisMenten? && r.kineticLaw.substrate == r.reactants[0].species
    ensures r.kineticLaw.vmax == vmax && r.kineticLaw.km == km
  {
    Reaction(id, None, false, [NewReference(substrate, 1.0)], [NewReference(product, 1.0)],
             [enzyme], MichaelisMenten(vmax, km, substrate), [])
  }

  datatype AssignmentRule = AssignmentRule(variable: string, expression: string)
  datatype RateRule = RateRule(variable: string, expression: string)
  datatype EventAssignment = EventAssignment(variable: string, expression: string)
  datatype Event = Event(id: string, trigger: string, delay: Option<real>, assignments: seq<EventAssignment>)

  // ---------------------------------------------------------------------------
  // Lookups by id
  // ---------------------------------------------------------------------------

  function SpeciesIds(species: seq<Species>): (ids: seq<string>)
    ensures |ids| == |species|
    ensures forall i :: 0 <= i < |species| ==> ids[i] == species[i].id
  {
    seq(|species|, i requires 0 <= i < |species| => species[i].id)
  }

  function ParameterIds(parameters: seq<Parameter>): (ids: seq<string>)
    ensures |ids| == |parameters|
    ensures forall i :: 0 <= i < |parameters| ==> ids[i] == parameters[i].id
  {
    seq(|parameters|, i requires 0 <= i < |parameters| => parameters[i].id)
  }

  /** `iter().position(..)`: the index of the first occurrence of `id`. */
  function FirstIndex(ids: seq<string>, id: string): (r: Option<nat>)
    ensures r.None? <==> id !in ids
    ensures r.Some? ==> r.value < |ids| && ids[r.value] == id
    ensures r.Some? ==> forall k :: 0 <= k < r.value ==> ids[k] != id
  {
    if ids == [] then None
    else if ids[0] == id then Some(0)
    else match FirstIndex(ids[1..], id)
      case None => None
      case Some(k) => Some(k + 1)
  }

  /** The map `iter().enumerate().map(|(i, x)| (x, i)).collect()`: later
      entries overwrite earlier ones, so every id maps to its LAST index. */
  function IndexMap(ids: seq<string>): (index: map<string, nat>)
    ensures forall id :: id in index <==> id in ids
    ensures forall id :: id in index ==> index[id] < |ids| && ids[index[id]] == id
    ensures forall id :: id in index ==> forall k :: index[id] < k < |ids| ==> ids[k] != id
  {
    if ids == [] then map[]
    else
      var prefix := ids[..|ids| - 1];
      LastIndexStep(prefix, ids[|ids| - 1], IndexMap(prefix));
      assert prefix + [ids[|ids| - 1]] == ids;
      IndexMap(prefix)[ids[|ids| - 1] := |ids| - 1]
  }

  /** Entering the last id at its index keeps every id at its last index. */
  lemma LastIndexStep(ids: seq<string>, x: string, index: map<string, nat>)
    requires forall id :: id in index <==> id in ids
    requires forall id :: id in index ==> index[id] < |ids| && ids[index[id]] == id
    requires forall id :: id in index ==> forall k :: index[id] < k < |ids| ==> ids[k] != id
    ensures var next := index[x := |ids|];
            && (forall id :: id in next <==> id in ids + [x])
            && (forall id :: id in next ==> next[id] < |ids + [x]| && (ids + [x])[next[id]] == id)
            && (forall id :: id in next ==> forall k :: next[id] < k < |ids + [x]| ==> (ids + [x])[k] != id)
  {
  }

  /** No id occurs twice. */
  predicate Distinct(ids: seq<string>)
  {
    forall i, j :: 0 <= i < j < |ids| ==> ids[i] != ids[j]
  }

  /** Appending an entry leaves every earlier first match in place: a later
      duplicate is never found. */
  lemma FirstIndexAppend(ids: seq<string>, x: string, id: string)
    ensures FirstIndex(ids + [x], id) ==
              if id in ids then FirstIndex(ids, id) else if x == id then Some(|ids|) else None
  {
    var ext := ids + [x];
    if id in ids {
      var k := FirstIndex(ids, id).value;
      assert forall j :: 0 <= j <= k ==> ext[j] == ids[j];
      FirstIndexAt(ext, id, k);
    } else if x == id {
      assert forall j :: 0 <= j < |ids| ==> ext[j] == ids[j];
      FirstIndexAt(ext, id, |ids|);
    } else {
      assert id !in ext;
    }
  }

  /** The first index is the one before which `id` does not occur. */
  lemma FirstIndexAt(ids: seq<string>, id: string, k: nat)
    requires k < |ids| && ids[k] == id
    requires forall j :: 0 <= j < k ==> ids[j] != id
    ensures FirstIndex(ids, id) == Some(k)
  {
  }

  /** Appending an entry makes it the one the index map points to. */
  lemma IndexMapAppend(ids: seq<string>, x: string, id: string)
    requires id in ids + [x]
    ensures IndexMap(ids + [x])[id] == if x == id then |ids| else IndexMap(ids)[id]
  {
    assert (ids + [x])[..|ids|] == ids;
  }

  /** For distinct ids the first and the last occurrence coincide. */
  lemma DistinctLookups(ids: seq<string>, i: nat)
    requires Distinct(ids) && i < |ids|
    ensures IndexMap(ids)[ids[i]] == i
    ensures FirstIndex(ids, ids[i]) == Some(i)
  {
    var last := IndexMap(ids)[ids[i]];
    var first := FirstIndex(ids, ids[i]).value;
    assert !(last < i) && !(i < last);
    assert !(first < i) && !(i < first);
  }

  // ---------------------------------------------------------------------------
  // The SBML model
  // ---------------------------------------------------------------------------

  /** A complete SBML model; its builders only append. */
  class SbmlModel {
    var id: string
    var name: Option<string>
    var sbmlVersion: SbmlVersion
    var compartments: seq<Compartment>
    var species: seq<Species>
    var parameters: seq<Parameter>
    var reactions: seq<Reaction>
    var assignmentRules: seq<AssignmentRule>
    var rateRules: seq<RateRule>
    var events: seq<Event>

    constructor (id: string)
      ensures this.id == id && name == None && sbmlVersion == DefaultSbmlVersion
      ensures compartments == [] && species == [] && parameters == [] && reactions == []
      ensures assignmentRules == [] && rateRules == [] && events == []
    {
      this.id := id;
      name := None;
      sbmlVersion := DefaultSbmlVersion;
      compartments := [];
      species := [];
      parameters := [];
      reactions := [];
      assignmentRules := [];
      rateRules := [];
      events := [];
    }

    method AddCompartment(c: Compartment)
      modifies this`compartments
      ensures compartments == old(compartments) + [c]
    {
      compartments := compartments + [c];
    }

    method AddSpecies(s: Species)
      modifies this`species
      ensures species == old(species) + [s]
    {
      species := species + [s];
    }

    method AddParameter(p: Parameter)
      modifies this`parameters
      ensures parameters == old(parameters) + [p]
    {
      parameters := parameters + [p];
    }

    method AddReaction(r: Reaction)
      modifies this`reactions
      ensures reactions == old(reactions) + [r]
    {
      reactions := reactions + [r];
    }

    /** The first species with the given id. */
    function GetSpecies(id: string): (r: Option<Species>)
      reads this
      ensures r.None? <==> forall i :: 0 <= i < |species| ==> species[i].id != id
      ensures r.Some? ==> (r.value.id == id &&
                exists i :: 0 <= i < |species| && species[i] == r.value &&
                  forall k :: 0 <= k < i ==> species[k].id != id)
    {
      match FirstIndex(SpeciesIds(species), id)
      case None => None
      case Some(i) => Some(species[i])
    }

    /** The first parameter with the given id. */
    function GetParameter(id: string): (r: Option<Parameter>)
      reads this
      ensures r.None? <==> forall i :: 0 <= i < |parameters| ==> parameters[i].id != id
      ensures r.Some? ==> (r.value.id == id &&
                exists i :: 0 <= i < |parameters| && parameters[i] == r.value &&
                  forall k :: 0 <= k < i ==> parameters[k].id != id)
    {
      ParameterLookup(parameters, id)
    }

    method StoichiometryMatrix() returns (m: array2<real>)
      ensures fresh(m)
      ensures m.Length0 == |species| && m.Length1 == |reactions|
      ensures forall i, j :: 0 <= i < |species| && 0 <= j < |reactions| ==>
                m[i, j] == Entry(species, reactions[j], i)
    {
      m := BuildStoichiometry(species, reactions);
    }
  }

  /** The first parameter with the given id, on the parameter list itself. */
  function ParameterLookup(parameters: seq<Parameter>, id: string): (r: Option<Parameter>)
    ensures r.None? <==> forall i :: 0 <= i < |parameters| ==> parameters[i].id != id
    ensures r.Some? ==> (r.value.id == id &&
              exists i :: 0 <= i < |parameters| && parameters[i] == r.value &&
                forall k :: 0 <= k < i ==> parameters[k].id != id)
  {
    var ids := ParameterIds(parameters);
    match FirstIndex(ids, id)
    case None =>
      assert forall i :: 0 <= i < |parameters| ==> parameters[i].id == ids[i];
      None
    case Some(i) => Some(parameters[i])
  }

  // ---------------------------------------------------------------------------
  // Stoichiometry
  // ---------------------------------------------------------------------------

  /** The summed stoichiometry of the references that the species index maps
      to row `i`; references to unknown species add nothing. */
  function Net(refs: seq<SpeciesReference>, index: map<string, nat>, i: nat): real
  {
    if refs == [] then 0.0
    else
      var sr := refs[|refs| - 1];
      Net(refs[..|refs| - 1], index, i) +
        (if sr.species in index && index[sr.species] == i then sr.stoichiometry else 0.0)
  }

  /** Entry (i, j) of the stoichiometry matrix: products minus reactants of
      reaction j for species row i. */
  function Entry(species: seq<Species>, reaction: Reaction, i: nat): real
  {
    var index := IndexMap(SpeciesIds(species));
    Net(reaction.products, index, i) - Net(reaction.reactants, index, i)
  }

  /** The matrix as rows of species, one column per reaction. */
  function Stoichiometry(species: seq<Species>, reactions: seq<Reaction>): (n: seq<seq<real>>)
    ensures |n| == |species|
    ensures forall i :: 0 <= i < |species| ==> |n[i]| == |reactions|
  {
    seq(|species|, i requires 0 <= i < |species| =>
      seq(|reactions|, j requires 0 <= j < |reactions| => Entry(species, reactions[j], i)))
  }

  /** The species x reactions matrix, filled with `-=` for every reactant and
      `+=` for every product whose species is known. */
  method BuildStoichiometry(species: seq<Species>, reactions: seq<Reaction>) returns (m: array2<real>)
    ensures fresh(m)
    ensures m.Length0 == |species| && m.Length1 == |reactions|
    ensures forall i, j :: 0 <= i < |species| && 0 <= j < |reactions| ==>
              m[i, j] == Entry(species, reactions[j], i)
  {
    m := new real[|species|, |reactions|]((i, j) => 0.0);
    var index := IndexMap(SpeciesIds(species));
    var j := 0;
    while j < |reactions|
      invariant 0 <= j <= |reactions|
      invariant forall i, c :: 0 <= i < |species| && 0 <= c < j ==> m[i, c] == Entry(species, reactions[c], i)
      invariant forall i, c :: 0 <= i < |species| && j <= c < |reactions| ==> m[i, c] == 0.0
    {
      FillColumn(m, j, reactions[j], index);
      j := j + 1;
    }
  }

  /** One column: the reactant loop, then the product loop. */
  method FillColumn(m: array2<real>, j: nat, reaction: Reaction, index: map<string, nat>)
    requires j < m.Length1
    requires forall id :: id in index ==> index[id] < m.Length0
    requires forall i :: 0 <= i < m.Length0 ==> m[i, j] == 0.0
    modifies m
    ensures forall i :: 0 <= i < m.Length0 ==>
              m[i, j] == Net(reaction.products, index, i) - Net(reaction.reactants, index, i)
    ensures forall i, c :: 0 <= i < m.Length0 && 0 <= c < m.Length1 && c != j ==> m[i, c] == old(m[i, c])
  {
    AccumulateColumn(m, j, reaction.reactants, index, true);
    AccumulateColumn(m, j, reaction.products, index, false);
  }

  /** Adds (or, when `negate`, subtracts) the stoichiometries of `terms` to
      column j, row by row through `index`. */
  method AccumulateColumn(m: array2<real>, j: nat, terms: seq<SpeciesReference>, index: map<string, nat>, negate: bool)
    requires j < m.Length1
    requires forall id :: id in index ==> index[id] < m.Length0
    modifies m
    ensures forall i :: 0 <= i < m.Length0 ==>
              m[i, j] == if negate then old(m[i, j]) - Net(terms, index, i) else old(m[i, j]) + Net(terms, index, i)
    ensures forall i, c :: 0 <= i < m.Length0 && 0 <= c < m.Length1 && c != j ==> m[i, c] == old(m[i, c])
  {
    var k := 0;
    while k < |terms|
      invariant 0 <= k <= |terms|
      invariant forall i :: 0 <= i < m.Length0 ==>
                  m[i, j] == if negate then old(m[i, j]) - Net(terms[..k], index, i)
                             else old(m[i, j]) + Net(terms[..k], index, i)
      invariant forall i, c :: 0 <= i < m.Length0 && 0 <= c < m.Length1 && c != j ==> m[i, c] == old(m[i, c])
    {
      var sr := terms[k];
      assert terms[..k + 1][..k] == terms[..k];
      if sr.species in index {
        var i := index[sr.species];
        if negate {
          m[i, j] := m[i, j] - sr.stoichiometry;
        } else {
          m[i, j] := m[i, j] + sr.stoichiometry;
        }
      }
      k := k + 1;
    }
    assert terms[..k] == terms;
  }

  /** The net stoichiometry of a concatenation is the sum of the parts. */
  lemma {:induction false} NetAppend(a: seq<SpeciesReference>, b: seq<SpeciesReference>, index: map<string, nat>, i: nat)
    ensures Net(a + b, index, i) == Net(a, index, i) + Net(b, index, i)
  {
    if b == [] {
      assert a + b == a;
    } else {
      NetAppend(a, b[..|b| - 1], index, i);
      assert (a + b)[..|a + b| - 1] == a + b[..|b| - 1];
    }
  }

  /** A reference to a species the model does not declare changes no entry. */
  lemma UnknownSpeciesIgnored(a: seq<SpeciesReference>, sr: SpeciesReference, b: seq<SpeciesReference>,
                              index: map<string, nat>, i: nat)
    requires sr.species !in index
    ensures Net(a + [sr] + b, index, i) == Net(a + b, index, i)
  {
    NetAppend(a + [sr], b, index, i);
    NetAppend(a, b, index, i);
    assert (a + [sr])[..|a|] == a;
  }

  /** With distinct species ids, the column of A -> B is -1 in A's row, +1 in
      B's row and 0 elsewhere. */
  lemma SimpleReactionColumn(species: seq<Species>, id: string, a: nat, b: nat, k: string, i: nat)
    requires Distinct(SpeciesIds(species))
    requires a < |species| && b < |species| && a != b && i < |species|
    ensures Entry(species, SimpleReaction(id, species[a].id, species[b].id, k), i) ==
              if i == a then -1.0 else if i == b then 1.0 else 0.0
  {
    var ids := SpeciesIds(species);
    var index := IndexMap(ids);
    DistinctLookups(ids, a);
    DistinctLookups(ids, b);
    assert ids[a] == species[a].id && ids[b] == species[b].id;
    NetSingle(NewReference(species[a].id, 1.0), index, i);
    NetSingle(NewReference(species[b].id, 1.0), index, i);
  }

  /** The contribution of a single reference. */
  lemma NetSingle(sr: SpeciesReference, index: map<string, nat>, i: nat)
    ensures Net([sr], index, i) == if sr.species in index && index[sr.species] == i then sr.stoichiometry else 0.0
  {
    assert [sr][..0] == [];
  }

  // ---------------------------------------------------------------------------
  // Values and rates
  // ---------------------------------------------------------------------------

  /** The concentration of the first species with that id, or 0. */
  function Concentration(species: seq<Species>, state: seq<real>, id: string): (c: real)
    requires |state| == |species|
    ensures (forall i :: 0 <= i < |species| ==> species[i].id != id) ==> c == 0.0
    ensures forall i :: (0 <= i < |species| && species[i].id == id &&
              (forall k :: 0 <= k < i ==> species[k].id != id)) ==> c == state[i]
  {
    var ids := SpeciesIds(species);
    match FirstIndex(ids, id)
    case None => 0.0
    case Some(i) =>
      assert forall k :: 0 <= k < |species| ==> ids[k] == species[k].id;
      state[i]
  }

  /** A parameter with that id first, then the species concentration, else 0. */
  function ValueOf(parameters: seq<Parameter>, species: seq<Species>, state: seq<real>, id: string): (v: real)
    requires |state| == |species|
    ensures ParameterLookup(parameters, id).Some? ==> v == ParameterLookup(parameters, id).value.value
    ensures ParameterLookup(parameters, id).None? ==> v == Concentration(species, state, id)
  {
    match ParameterLookup(parameters, id)
    case Some(p) => p.value
    case None => Concentration(species, state, id)
  }

  /** A parameter shadows a species of the same id; an id that names neither
      reads as 0. */
  lemma ValueOfPrecedence(parameters: seq<Parameter>, species: seq<Species>, state: seq<real>, id: string, p: nat)
    requires |state| == |species|
    requires p < |parameters| && parameters[p].id == id
    requires forall k :: 0 <= k < p ==> parameters[k].id != id
    ensures ValueOf(parameters, species, state, id) == parameters[p].value
  {
    var r := ParameterLookup(parameters, id);
    var i :| 0 <= i < |parameters| && parameters[i] == r.value && forall k :: 0 <= k < i ==> parameters[k].id != id;
    assert !(i < p) && !(p < i);
  }

  /** `rate *= pow(conc, stoichiometry)` for every reactant, in order. */
  function MassActionRate(k: real, concs: seq<real>, stoich: seq<real>, pow: (real, real) -> real): (r: real)
    requires |concs| == |stoich|
    ensures concs == [] ==> r == k
    ensures k == 0.0 ==> r == 0.0
    ensures (exists i :: 0 <= i < |concs| && pow(concs[i], stoich[i]) == 0.0) ==> r == 0.0
    ensures k >= 0.0 && (forall i :: 0 <= i < |concs| ==> pow(concs[i], stoich[i]) >= 0.0) ==> r >= 0.0
  {
    if concs == [] then k
    else pow(concs[|concs| - 1], stoich[|stoich| - 1]) *
           MassActionRate(k, concs[..|concs| - 1], stoich[..|stoich| - 1], pow)
  }

  /** `v * s / (k + s)`, the shape of both the Michaelis-Menten and the Hill
      rate; `None` when the denominator is zero. */
  function SaturatingRate(v: real, k: real, s: real): (r: Option<real>)
    ensures r.None? <==> k + s == 0.0
    ensures r.Some? ==> r.value * (k + s) == v * s
  {
    if k + s == 0.0 then None else Some(v * s / (k + s))
  }

  /** The rate of one reaction. `pow` stands for `f64::powf`. `None` marks
      a zero denominator, where `f64` would produce an infinite or NaN rate. */
  function ReactionRate(reaction: Reaction, parameters: seq<Parameter>, species: seq<Species>,
                        state: seq<real>, pow: (real, real) -> real): (r: Option<real>)
    requires |state| == |species|
    ensures (reaction.kineticLaw.MassAction? || reaction.kineticLaw.ReversibleMM? ||
             reaction.kineticLaw.Custom?) ==> r.Some?
    ensures reaction.kineticLaw.ReversibleMM? || reaction.kineticLaw.Custom? ==> r == Some(0.0)
    ensures reaction.kineticLaw.MichaelisMenten? ==>
              var law := reaction.kineticLaw;
              r == SaturatingRate(ValueOf(parameters, species, state, law.vmax),
                                  ValueOf(parameters, species, state, law.km),
                                  Concentration(species, state, law.substrate))
    ensures reaction.kineticLaw.Hill? ==>
              var law := reaction.kineticLaw;
              r == SaturatingRate(ValueOf(parameters, species, state, law.vmax),
                                  pow(ValueOf(parameters, species, state, law.k), law.n),
                                  pow(Concentration(species, state, law.substrate), law.n))
  {
    match reaction.kineticLaw
    case MassAction(rateConstant) =>
      var refs := reaction.reactants;
      var concs := seq(|refs|, i requires 0 <= i < |refs| => Concentration(species, state, refs[i].species));
      var stoich := seq(|refs|, i requires 0 <= i < |refs| => refs[i].stoichiometry);
      Some(MassActionRate(ValueOf(parameters, species, state, rateConstant), concs, stoich, pow))
    case MichaelisMenten(vmax, km, substrate) =>
      var v := ValueOf(parameters, species, state, vmax);
      var kmv := ValueOf(parameters, species, state, km);
      var s := Concentration(species, state, substrate);
      SaturatingRate(v, kmv, s)
    case Hill(vmax, k, substrate, n) =>
      var v := ValueOf(parameters, species, state, vmax);
      var kv := ValueOf(parameters, species, state, k);
      var s := Concentration(species, state, substrate);
      SaturatingRate(v, pow(kv, n), pow(s, n))
    case ReversibleMM(_, _, _, _) => Some(0.0)
    case Custom(_) => Some(0.0)
  }

  /** Michaelis-Menten saturation: with positive Vmax, Km and substrate the
      rate lies strictly between 0 and Vmax. */
  lemma MichaelisMentenSaturates(vmax: real, km: real, s: real)
    requires vmax > 0.0 && km > 0.0 && s > 0.0
    ensures SaturatingRate(vmax, km, s).Some?
    ensures 0.0 < SaturatingRate(vmax, km, s).value < vmax
  {
    var r := SaturatingRate(vmax, km, s).value;
    assert r * (km + s) == vmax * s;
    assert vmax * s < vmax * (km + s);
  }

  /** The rates of all reactions, in reaction order. */
  function Rates(reactions: seq<Reaction>, parameters: seq<Parameter>, species: seq<Species>,
                 state: seq<real>, pow: (real, real) -> real): (rates: seq<Option<real>>)
    requires |state| == |species|
    ensures |rates| == |reactions|
  {
    seq(|reactions|, j requires 0 <= j < |reactions| => ReactionRate(reactions[j], parameters, species, state, pow))
  }

  predicate AllFinite(rates: seq<Option<real>>)
  {
    forall j :: 0 <= j < |rates| ==> rates[j].Some?
  }

  function Values(rates: seq<Option<real>>): (vs: seq<real>)
    requires AllFinite(rates)
    ensures |vs| == |rates|
    ensures forall j :: 0 <= j < |rates| ==> Some(vs[j]) == rates[j]
  {
    seq(|rates|, j requires 0 <= j < |rates| => rates[j].value)
  }

  function Sum(xs: seq<real>): real
  {
    if xs == [] then 0.0 else Sum(xs[..|xs| - 1]) + xs[|xs| - 1]
  }

  /** The matrix-vector product N v. */
  function Dot(row: seq<real>, v: seq<real>): real
    requires |row| == |v|
  {
    if row == [] then 0.0 else Dot(row[..|row| - 1], v[..|v| - 1]) + row[|row| - 1] * v[|v| - 1]
  }

  function Derivative(n: seq<seq<real>>, v: seq<real>): (d: seq<real>)
    requires forall i :: 0 <= i < |n| ==> |n[i]| == |v|
    ensures |d| == |n|
  {
    seq(|n|, i requires 0 <= i < |n| => Dot(n[i], v))
  }

  /** Negative entries become 0; the rest stay. */
  function Clamp(s: seq<real>): (r: seq<real>)
    ensures |r| == |s|
    ensures forall i :: 0 <= i < |s| ==> r[i] >= 0.0
    ensures forall i :: 0 <= i < |s| ==> (s[i] >= 0.0 ==> r[i] == s[i]) && (s[i] < 0.0 ==> r[i] == 0.0)
  {
    seq(|s|, i requires 0 <= i < |s| => if s[i] < 0.0 then 0.0 else s[i])
  }

  /** Clamping twice is clamping once. */
  lemma ClampIdempotent(s: seq<real>)
    ensures Clamp(Clamp(s)) == Clamp(s)
  {
    var c := Clamp(s);
    assert forall i :: 0 <= i < |c| ==> Clamp(c)[i] == c[i];
  }

  /** s + d * dt. */
  function Shifted(s: seq<real>, d: seq<real>, dt: real): (r: seq<real>)
    requires |d| == |s|
    ensures |r| == |s|
    ensures forall i :: 0 <= i < |s| ==> r[i] == s[i] + d[i] * dt
  {
    seq(|s|, i requires 0 <= i < |s| => s[i] + d[i] * dt)
  }

  /** One Euler step s + d * dt, then the clamp. */
  function EulerStep(s: seq<real>, d: seq<real>, dt: real): (r: seq<real>)
    requires |d| == |s|
    ensures |r| == |s|
    ensures forall i :: 0 <= i < |s| ==> r[i] >= 0.0
  {
    Clamp(Shifted(s, d, dt))
  }

  /** A step of length 0 only clamps. */
  lemma EulerStepZero(s: seq<real>, d: seq<real>)
    requires |d| == |s|
    ensures EulerStep(s, d, 0.0) == Clamp(s)
  {
    assert Shifted(s, d, 0.0) == s;
  }

  /** The state after a deterministic step, or `None` when some rate is not
      finite. */
  function DeterministicState(species: seq<Species>, parameters: seq<Parameter>, reactions: seq<Reaction>,
                              state: seq<real>, dt: real, pow: (real, real) -> real): (r: Option<seq<real>>)
    requires |state| == |species|
    ensures r.Some? <==> AllFinite(Rates(reactions, parameters, species, state, pow))
    ensures r.Some? ==> |r.value| == |state| && forall i :: 0 <= i < |state| ==> r.value[i] >= 0.0
  {
    var rates := Rates(reactions, parameters, species, state, pow);
    if AllFinite(rates) then
      Some(EulerStep(state, Derivative(Stoichiometry(species, reactions), Values(rates)), dt))
    else None
  }

  // ---------------------------------------------------------------------------
  // The simulation
  // ---------------------------------------------------------------------------

  datatype SimulationMethod = Deterministic | Stochastic | Hybrid | TauLeaping

  datatype SimulationResult = SimulationResult(time: seq<real>, concentrations: map<string, seq<real>>,
                                               fluxes: Option<map<string, seq<real>>>)

  const DefaultDt: real := 0.01
  const DefaultRngSeed: nat := 42

  /** The initial concentration of every species, 0 where it has none. */
  function InitialState(species: seq<Species>): (s: seq<real>)
    ensures |s| == |species|
    ensures forall i :: 0 <= i < |species| ==>
              s[i] == (if species[i].initialConcentration.Some? then species[i].initialConcentration.value else 0.0)
  {
    seq(|species|, i requires 0 <= i < |species| =>
      match species[i].initialConcentration case Some(c) => c case None => 0.0)
  }

  /** One empty trace per species id. */
  function EmptyTraces(ids: seq<string>): (m: map<string, seq<real>>)
    ensures forall id :: id in m <==> id in ids
    ensures forall id :: id in m ==> m[id] == []
  {
    map id | id in ids :: []
  }

  /** `concentrations.get_mut(&species.id).unwrap().push(state[i])` for every
      species i, in order. */
  function AppendSample(traces: map<string, seq<real>>, ids: seq<string>, values: seq<real>): (r: map<string, seq<real>>)
    requires |values| == |ids|
    requires forall id :: id in ids ==> id in traces
    ensures r.Keys == traces.Keys
  {
    if ids == [] then traces
    else
      var n := |ids| - 1;
      var before := AppendSample(traces, ids[..n], values[..n]);
      before[ids[n] := before[ids[n]] + [values[n]]]
  }

  /** A sample appends one value per occurrence of the id, after what was
      there, and touches no other key. */
  lemma {:induction false} AppendSampleShape(traces: map<string, seq<real>>, ids: seq<string>, values: seq<real>)
    requires |values| == |ids|
    requires forall id :: id in ids ==> id in traces
    ensures forall id :: id in traces ==>
              var r := AppendSample(traces, ids, values);
              |r[id]| == |traces[id]| + multiset(ids)[id] && r[id][..|traces[id]|] == traces[id]
  {
    if ids != [] {
      var n := |ids| - 1;
      AppendSampleShape(traces, ids[..n], values[..n]);
      assert ids == ids[..n] + [ids[n]];
      assert multiset(ids) == multiset(ids[..n]) + multiset{ids[n]};
      var before := AppendSample(traces, ids[..n], values[..n]);
      forall id | id in traces
        ensures var r := AppendSample(traces, ids, values);
                |r[id]| == |traces[id]| + multiset(ids)[id] && r[id][..|traces[id]|] == traces[id]
      {
        if id == ids[n] {
          assert before[id][..|traces[id]|] == traces[id];
          assert (before[id] + [values[n]])[..|traces[id]|] == before[id][..|traces[id]|];
        }
      }
    }
  }

  /** With distinct ids, species i's trace gains exactly its own value. */
  lemma {:induction false} AppendSampleDistinct(traces: map<string, seq<real>>, ids: seq<string>, values: seq<real>, i: nat)
    requires |values| == |ids| && Distinct(ids) && i < |ids|
    requires forall id :: id in ids ==> id in traces
    ensures AppendSample(traces, ids, values)[ids[i]] == traces[ids[i]] + [values[i]]
  {
    var n := |ids| - 1;
    var before := AppendSample(traces, ids[..n], values[..n]);
    assert AppendSample(traces, ids, values) == before[ids[n] := before[ids[n]] + [values[n]]];
    if i < n {
      assert ids[..n][i] == ids[i] && values[..n][i] == values[i] && ids[i] != ids[n];
      assert Distinct(ids[..n]);
      AppendSampleDistinct(traces, ids[..n], values[..n], i);
    } else {
      AppendSampleShape(traces, ids[..n], values[..n]);
      assert ids[n] !in ids[..n];
      assert multiset(ids[..n])[ids[n]] == 0;
      assert |before[ids[n]]| == |traces[ids[n]]|;
      assert before[ids[n]] == before[ids[n]][..|traces[ids[n]]|];
    }
  }

  /** A distinct id occurs once. */
  lemma DistinctOnce(ids: seq<string>, i: nat)
    requires Distinct(ids) && i < |ids|
    ensures multiset(ids)[ids[i]] == 1
  {
    assert ids == ids[..i] + [ids[i]] + ids[i + 1..];
    assert ids[i] !in ids[..i];
    assert ids[i] !in ids[i + 1..];
    assert multiset(ids) == multiset(ids[..i]) + multiset{ids[i]} + multiset(ids[i + 1..]);
  }

  /** The simulator: it owns the model (whose species, parameters and
      reactions it reads) and integrates the species concentrations. */
  class CopasiSimulation {
    const species: seq<Species>
    const parameters: seq<Parameter>
    const reactions: seq<Reaction>
    var simulationMethod: SimulationMethod
    var state: array<real>
    var t: real
    var dt: real
    var rngSeed: nat

    ghost predicate Valid()
      reads this
    {
      state.Length == |species|
    }

    constructor (model: SbmlModel)
      ensures Valid() && fresh(state)
      ensures species == model.species && parameters == model.parameters && reactions == model.reactions
      ensures state[..] == InitialState(model.species)
      ensures simulationMethod == Deterministic && t == 0.0 && dt == DefaultDt && rngSeed == DefaultRngSeed
    {
      species := model.species;
      parameters := model.parameters;
      reactions := model.reactions;
      var n := |model.species|;
      var s := new real[n](i => 0.0);
      var i := 0;
      while i < n
        invariant 0 <= i <= n
        invariant forall k :: 0 <= k < i ==> s[k] == InitialState(model.species)[k]
      {
        s[i] := match model.species[i].initialConcentration case Some(c) => c case None => 0.0;
        i := i + 1;
      }
      state := s;
      simulationMethod := Deterministic;
      t := 0.0;
      dt := DefaultDt;
      rngSeed := DefaultRngSeed;
    }

    method SetMethod(m: SimulationMethod)
      modifies this`simulationMethod
      ensures simulationMethod == m
    {
      simulationMethod := m;
    }

    /** The concentration of every species id; a later duplicate id wins. */
    function GetConcentrations(): (c: map<string, real>)
      requires Valid()
      reads this, state
      ensures forall id :: id in c <==> id in SpeciesIds(species)
      ensures forall id :: id in c ==>
                exists i :: (0 <= i < |species| && species[i].id == id && c[id] == state[i] &&
                  forall k :: i < k < |species| ==> species[k].id != id)
    {
      var index := IndexMap(SpeciesIds(species));
      map id | id in index :: state[index[id]]
    }

    /** The state one `step` of length `h` leads to from `s` under the
        current method: the stochastic method takes a deterministic step of
        length 1/(total rate); a step whose rates are not all finite keeps
        the state. */
    function NextState(m: SimulationMethod, s: seq<real>, h: real, pow: (real, real) -> real): (r: seq<real>)
      requires |s| == |species|
      ensures |r| == |s|
      ensures r == s || forall i :: 0 <= i < |r| ==> r[i] >= 0.0
    {
      var rates := Rates(reactions, parameters, species, s, pow);
      var next :=
        if m != Stochastic then DeterministicState(species, parameters, reactions, s, h, pow)
        else if AllFinite(rates) && Sum(Values(rates)) > 0.0 then
          DeterministicState(species, parameters, reactions, s, 1.0 / Sum(Values(rates)), pow)
        else None;
      if next.Some? then next.value else s
    }

    /** The states of a run of `n` steps of length `h` from `s0`: the
        initial state and the state after each step. */
    function Trajectory(m: SimulationMethod, s0: seq<real>, h: real, n: nat, pow: (real, real) -> real): (r: seq<seq<real>>)
      requires |s0| == |species|
      ensures |r| == n + 1 && r[0] == s0
      ensures forall k :: 0 <= k <= n ==> |r[k]| == |species|
      ensures forall k :: 0 < k <= n ==> r[k] == NextState(m, r[k - 1], h, pow)
    {
      if n == 0 then [s0]
      else
        var before := Trajectory(m, s0, h, n - 1, pow);
        before + [NextState(m, before[n - 1], h, pow)]
    }

    /** The Euler step with the stoichiometry matrix, then the clamp loop. */
    method StepDeterministic(h: real, pow: (real, real) -> real)
      requires Valid()
      modifies this`state
      ensures Valid()
      ensures var next := DeterministicState(species, parameters, reactions, old(state[..]), h, pow);
              if next.Some? then state[..] == next.value && fresh(state) else state == old(state)
    {
      var s := state[..];
      var rates := Rates(reactions, parameters, species, s, pow);
      if AllFinite(rates) {
        var d := Derivative(Stoichiometry(species, reactions), Values(rates));
        state := EulerInto(s, d, h);
      }
    }

    /** One step of the current method, then the clock advances by `h`. */
    method Step(h: real, pow: (real, real) -> real)
      requires Valid()
      modifies this`state, this`t
      ensures Valid()
      ensures t == old(t) + h
      ensures state == old(state) || fresh(state)
      ensures simulationMethod != Stochastic ==>
                var next := DeterministicState(species, parameters, reactions, old(state[..]), h, pow);
                if next.Some? then state[..] == next.value else state[..] == old(state[..])
      ensures simulationMethod == Stochastic ==>
                var rates := Rates(reactions, parameters, species, old(state[..]), pow);
                if AllFinite(rates) && Sum(Values(rates)) > 0.0 then
                  var next := DeterministicState(species, parameters, reactions, old(state[..]), 1.0 / Sum(Values(rates)), pow);
                  next.Some? && state[..] == next.value
                else state[..] == old(state[..])
      ensures state[..] == old(state[..]) || forall i :: 0 <= i < state.Length ==> state[i] >= 0.0
      ensures state[..] == NextState(simulationMethod, old(state[..]), h, pow)
    {
      match simulationMethod {
        case Deterministic => StepDeterministic(h, pow);
        case Stochastic => StepStochastic(pow);
        case TauLeaping => StepDeterministic(h, pow);
        case Hybrid => StepDeterministic(h, pow);
      }
      t := t + h;
    }

    /** A deterministic step of length 1/(total rate), when that total is
        positive. */
    method StepStochastic(pow: (real, real) -> real)
      requires Valid()
      modifies this`state
      ensures Valid()
      ensures state == old(state) || fresh(state)
      ensures var rates := Rates(reactions, parameters, species, old(state[..]), pow);
              if AllFinite(rates) && Sum(Values(rates)) > 0.0 then
                var next := DeterministicState(species, parameters, reactions, old(state[..]), 1.0 / Sum(Values(rates)), pow);
                state[..] == next.value
              else state == old(state)
    {
      var rates := Rates(reactions, parameters, species, state[..], pow);
      if AllFinite(rates) {
        var total := Sum(Values(rates));
        if total > 0.0 {
          StepDeterministic(1.0 / total, pow);
        }
      }
    }

    /** One step of the run followed by one recorded sample. */
    method StepAndRecord(h: real, pow: (real, real) -> real, ids: seq<string>, traces: map<string, seq<real>>,
                         ghost first: map<string, seq<real>>, ghost count: nat, ghost samples: seq<seq<real>>)
      returns (next: map<string, seq<real>>)
      requires Valid() && ids == SpeciesIds(species) && Traces(traces, first, ids, count)
      requires Recorded(traces, ids, samples)
      modifies this`state, this`t
      ensures Valid() && t == old(t) + h
      ensures state[..] == NextState(simulationMethod, old(state[..]), h, pow)
      ensures next == AppendSample(traces, ids, state[..])
      ensures Traces(next, first, ids, count + 1)
      ensures Recorded(next, ids, samples + [state[..]])
    {
      Step(h, pow);
      TracesStep(traces, first, ids, state[..], count);
      RecordedStep(traces, ids, samples, state[..]);
      next := RecordSample(traces, ids, state[..]);
    }

    /** The sampling loop of `run`: `nPoints` steps of length `h`, with the
        time and the state recorded after each. */
    method Sample(h: real, nPoints: nat, pow: (real, real) -> real, ids: seq<string>,
                  traces0: map<string, seq<real>>, ghost first: map<string, seq<real>>)
      returns (time: seq<real>, traces: map<string, seq<real>>)
      requires Valid() && ids == SpeciesIds(species) && Traces(traces0, first, ids, 1)
      requires Recorded(traces0, ids, [state[..]])
      modifies this`state, this`t
      ensures Valid()
      ensures |time| == nPoints + 1 && time[0] == old(t) && t == time[nPoints]
      ensures Spaced(time, h)
      ensures Traces(traces, first, ids, nPoints + 1)
      ensures state[..] == Trajectory(simulationMethod, old(state[..]), h, nPoints, pow)[nPoints]
      ensures Recorded(traces, ids, Trajectory(simulationMethod, old(state[..]), h, nPoints, pow))
    {
      time := [t];
      traces := traces0;
      var k := 0;
      ghost var count := 1;
      ghost var s0 := state[..];
      while k < nPoints
        invariant 0 <= k <= nPoints && count == k + 1
        invariant Valid()
        invariant |time| == k + 1 && time[0] == old(t) && t == time[k]
        invariant Spaced(time, h)
        invariant Traces(traces, first, ids, count)
        invariant state[..] == Trajectory(simulationMethod, s0, h, k, pow)[k]
        invariant Recorded(traces, ids, Trajectory(simulationMethod, s0, h, k, pow))
      {
        traces := StepAndRecord(h, pow, ids, traces, first, count, Trajectory(simulationMethod, s0, h, k, pow));
        assert Trajectory(simulationMethod, s0, h, k + 1, pow) == Trajectory(simulationMethod, s0, h, k, pow) + [state[..]];
        SpacedAppend(time, h, t);
        count := count + 1;
        time := time + [t];
        k := k + 1;
      }
    }

    /** Records `duration / nPoints`-spaced samples: the state before the run
        and after each of the `nPoints` steps. */
    method Run(duration: real, nPoints: nat, pow: (real, real) -> real) returns (r: SimulationResult)
      requires Valid()
      modifies this`state, this`t
      ensures Valid()
      ensures |r.time| == nPoints + 1 && r.time[0] == old(t) && t == r.time[nPoints]
      ensures Spaced(r.time, SampleStep(duration, nPoints))
      ensures forall id :: id in r.concentrations <==> id in SpeciesIds(species)
      ensures forall id :: id in r.concentrations ==>
                |r.concentrations[id]| == (nPoints + 1) * multiset(SpeciesIds(species))[id]
      ensures Distinct(SpeciesIds(species)) ==> forall i :: 0 <= i < |species| ==>
                r.concentrations[species[i].id][0] == old(state[..])[i]
      ensures state[..] == Trajectory(simulationMethod, old(state[..]), SampleStep(duration, nPoints), nPoints, pow)[nPoints]
      ensures Distinct(SpeciesIds(species)) ==> forall i :: 0 <= i < |species| ==>
                species[i].id in r.concentrations &&
                r.concentrations[species[i].id] == Column(Trajectory(simulationMethod, old(state[..]), SampleStep(duration, nPoints), nPoints, pow), i)
      ensures r.fluxes == None
    {
      var h := SampleStep(duration, nPoints);
      var ids := SpeciesIds(species);
      var traces := RecordSample(EmptyTraces(ids), ids, state[..]);
      ghost var first := traces;
      FirstSample(ids, state[..]);
      var time;
      time, traces := Sample(h, nPoints, pow, ids, traces, first);
      r := SimulationResult(time, traces, None);
      RunTraces(r.concentrations, first, species, Trajectory(simulationMethod, old(state[..]), h, nPoints, pow),
                nPoints + 1, old(state[..]));
    }
  }

  /** The step of a run of `nPoints` samples over `duration`; a run of no
      steps never uses it. */
  function SampleStep(duration: real, nPoints: nat): (h: real)
    ensures nPoints > 0 ==> h * (nPoints as real) == duration
  {
    if nPoints > 0 then duration / (nPoints as real) else 0.0
  }

  /** Component `i` of every sample, in order. */
  function Column(samples: seq<seq<real>>, i: nat): (c: seq<real>)
    ensures |c| == |samples|
    ensures forall k :: 0 <= k < |samples| && i < |samples[k]| ==> c[k] == samples[k][i]
  {
    if samples == [] then []
    else
      var last := samples[|samples| - 1];
      Column(samples[..|samples| - 1], i) + [if i < |last| then last[i] else 0.0]
  }

  /** With distinct ids, the trace of the i-th id holds component i of each
      recorded sample, in order. */
  ghost predicate Recorded(traces: map<string, seq<real>>, ids: seq<string>, samples: seq<seq<real>>)
  {
    Distinct(ids) ==> forall i :: 0 <= i < |ids| ==> ids[i] in traces && traces[ids[i]] == Column(samples, i)
  }

  /** Recording one more sample extends every column by its value. */
  lemma RecordedStep(traces: map<string, seq<real>>, ids: seq<string>, samples: seq<seq<real>>, values: seq<real>)
    requires |values| == |ids| && (forall id :: id in ids ==> id in traces)
    requires Recorded(traces, ids, samples)
    ensures Recorded(AppendSample(traces, ids, values), ids, samples + [values])
  {
    if Distinct(ids) {
      var next := AppendSample(traces, ids, values);
      forall i | 0 <= i < |ids|
        ensures ids[i] in next && next[ids[i]] == Column(samples + [values], i)
      {
        AppendSampleDistinct(traces, ids, values, i);
        assert (samples + [values])[..|samples|] == samples;
      }
    }
  }

  /** The length of `count` samples of an id that occurs `each` times. */
  function Copies(count: nat, each: nat): nat
  {
    if count == 0 then 0 else Copies(count - 1, each) + each
  }

  lemma {:induction false} CopiesProduct(count: nat, each: nat)
    ensures Copies(count, each) == count * each
  {
    if count > 0 {
      CopiesProduct(count - 1, each);
    }
  }

  /** Consecutive sample times `h` apart. */
  ghost predicate Spaced(time: seq<real>, h: real)
  {
    forall m :: 0 < m < |time| ==> time[m] == time[m - 1] + h
  }

  /** A time `h` after the last keeps the times spaced. */
  lemma SpacedAppend(time: seq<real>, h: real, next: real)
    requires Spaced(time, h) && |time| > 0 && next == time[|time| - 1] + h
    ensures Spaced(time + [next], h)
  {
  }

  /** The traces after `count` samples that started with the samples in
      `first`. */
  ghost predicate Traces(traces: map<string, seq<real>>, first: map<string, seq<real>>, ids: seq<string>, count: nat)
  {
    && (forall id :: id in traces <==> id in ids)
    && (forall id :: id in first <==> id in ids)
    && forall id :: id in traces ==>
         |traces[id]| == Copies(count, multiset(ids)[id]) && |first[id]| <= |traces[id]| &&
         traces[id][..|first[id]|] == first[id]
  }

  /** The first sample starts one trace per id, one value per occurrence,
      and records the sample. */
  lemma FirstSample(ids: seq<string>, values: seq<real>)
    requires |values| == |ids|
    ensures var first := AppendSample(EmptyTraces(ids), ids, values);
            Traces(first, first, ids, 1) && Recorded(first, ids, [values])
  {
    AppendSampleShape(EmptyTraces(ids), ids, values);
    RecordedStep(EmptyTraces(ids), ids, [], values);
  }

  /** What a run records, id by id: every species' trace, `count` values per
      occurrence of its id, and with distinct ids the trace of species i is
      component i of each sample, starting with component i of `s0`. */
  lemma RunTraces(traces: map<string, seq<real>>, first: map<string, seq<real>>, species: seq<Species>,
                  samples: seq<seq<real>>, count: nat, s0: seq<real>)
    requires count == |samples| > 0 && samples[0] == s0 && |s0| == |species|
    requires Traces(traces, first, SpeciesIds(species), count)
    requires Recorded(traces, SpeciesIds(species), samples)
    ensures forall id :: id in traces <==> id in SpeciesIds(species)
    ensures forall id :: id in traces ==> |traces[id]| == count * multiset(SpeciesIds(species))[id]
    ensures Distinct(SpeciesIds(species)) ==> forall i :: 0 <= i < |species| ==> traces[species[i].id][0] == s0[i]
    ensures Distinct(SpeciesIds(species)) ==> forall i :: 0 <= i < |species| ==>
              species[i].id in traces && traces[species[i].id] == Column(samples, i)
  {
    var ids := SpeciesIds(species);
    forall id | id in traces ensures |traces[id]| == count * multiset(ids)[id] {
      CopiesProduct(count, multiset(ids)[id]);
    }
  }

  /** Each further sample adds one value per occurrence of the id and keeps
      what was recorded. */
  lemma TracesStep(traces: map<string, seq<real>>, first: map<string, seq<real>>, ids: seq<string>,
                   values: seq<real>, count: nat)
    requires |values| == |ids| && Traces(traces, first, ids, count)
    ensures forall id :: id in ids ==> id in traces
    ensures Traces(AppendSample(traces, ids, values), first, ids, count + 1)
  {
    var next := AppendSample(traces, ids, values);
    AppendSampleShape(traces, ids, values);
    forall id | id in next
      ensures |next[id]| == Copies(count + 1, multiset(ids)[id]) && |first[id]| <= |next[id]| &&
              next[id][..|first[id]|] == first[id]
    {
      assert next[id][..|traces[id]|] == traces[id];
      assert next[id][..|first[id]|] == traces[id][..|first[id]|];
    }
  }

  /** `state + dstate * h` into a new array, then the clamp loop on it. */
  method EulerInto(s: seq<real>, d: seq<real>, h: real) returns (next: array<real>)
    requires |d| == |s|
    ensures fresh(next)
    ensures next[..] == EulerStep(s, d, h)
  {
    next := new real[|s|];
    var i := 0;
    while i < |s|
      invariant 0 <= i <= |s| == next.Length
      invariant forall k :: 0 <= k < i ==> next[k] == s[k] + d[k] * h
    {
      next[i] := s[i] + d[i] * h;
      i := i + 1;
    }
    assert next[..] == Shifted(s, d, h);
    ClampInPlace(next);
  }

  /** The clamp loop: every negative entry is set to 0 in place. */
  method ClampInPlace(a: array<real>)
    modifies a
    ensures a[..] == Clamp(old(a[..]))
  {
    var i := 0;
    while i < a.Length
      invariant 0 <= i <= a.Length
      invariant forall k :: 0 <= k < i ==> a[k] == Clamp(old(a[..]))[k]
      invariant forall k :: i <= k < a.Length ==> a[k] == old(a[k])
    {
      if a[i] < 0.0 {
        a[i] := 0.0;
      }
      i := i + 1;
    }
  }

  /** One sample: a value pushed onto the trace of every species id. */
  method RecordSample(traces: map<string, seq<real>>, ids: seq<string>, values: seq<real>)
    returns (r: map<string, seq<real>>)
    requires |values| == |ids|
    requires forall id :: id in ids ==> id in traces
    ensures r == AppendSample(traces, ids, values)
  {
    r := traces;
    var i := 0;
    while i < |ids|
      invariant 0 <= i <= |ids|
      invariant r == AppendSample(traces, ids[..i], values[..i])
    {
      AppendSampleShape(traces, ids[..i], values[..i]);
      assert ids[..i + 1][..i] == ids[..i] && values[..i + 1][..i] == values[..i];
      r := r[ids[i] := r[ids[i]] + [values[i]]];
      i := i + 1;
    }
    assert ids[..i] == ids && values[..i] == values;
  }
}
