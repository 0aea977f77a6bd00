/** The NEST kernel bookkeeping: node-id allocation, the deterministic
    connection rules, node status, node collections and spike recording.
    The process-wide kernel singleton of the original becomes an explicit
    `Kernel` object that the caller owns and passes around. */
module Nest {
  import opened Wrappers

  type NodeId = nat

  datatype NestError =
    | UnknownModel(name: string)
    | NodeNotFound(id: NodeId)
    | InvalidParameter(msg: string)
    | ConnectionError(msg: string)
    | SimulationError(msg: string)

  // ---------------------------------------------------------------------------
  // Node collections
  // ---------------------------------------------------------------------------

  /** An ordered list of node ids, as returned by `Create`. */
  datatype NodeCollection = NodeCollection(ids: seq<NodeId>) {

    function Len(): nat { |ids| }

    function IsEmpty(): (b: bool)
      ensures b <==> Len() == 0
    {
      ids == []
    }

    /** The first id, or `None` for an empty collection. */
    function First(): (r: Option<NodeId>)
      ensures r.Some? <==> Len() > 0
      ensures r.Some? ==> r.value == ids[0] && r.value in ids
    {
      if ids == [] then None else Some(ids[0])
    }

    /** The last id, or `None` for an empty collection. */
    function Last(): (r: Option<NodeId>)
      ensures r.Some? <==> Len() > 0
      ensures r.Some? ==> r.value == ids[Len() - 1] && r.value in ids
    {
      if ids == [] then None else Some(ids[|ids| - 1])
    }

    /** The ids at positions start .. end-1; Rust panics outside those bounds. */
    function Slice(start: nat, end: nat): (r: NodeCollection)
      requires start <= end <= Len()
      ensures r.Len() == end - start
      ensures forall k :: 0 <= k < r.Len() ==> r.ids[k] == ids[start + k]
    {
      NodeCollection(ids[start..end])
    }
  }

  /** Two adjacent slices make up the slice that spans both, and the full
      slice is the collection itself. */
  lemma SliceConcat(nc: NodeCollection, a: nat, b: nat, c: nat)
    requires a <= b <= c <= nc.Len()
    ensures nc.Slice(a, b).ids + nc.Slice(b, c).ids == nc.Slice(a, c).ids
    ensures nc.Slice(0, nc.Len()) == nc
  {
    var l, r, whole := nc.Slice(a, b).ids, nc.Slice(b, c).ids, nc.Slice(a, c).ids;
    assert |l + r| == |whole|;
    forall k | 0 <= k < |whole|
      ensures (l + r)[k] == whole[k]
    {
      if k < |l| {
        assert (l + r)[k] == l[k] == nc.ids[a + k];
      } else {
        assert (l + r)[k] == r[k - |l|] == nc.ids[b + (k - |l|)];
      }
    }
    assert nc.Slice(0, nc.Len()).ids == nc.ids;
  }

  /** The ids start, start + 1, ..., start + n - 1. */
  function IdRange(start: NodeId, n: nat): (r: seq<NodeId>)
    ensures |r| == n
  {
    if n == 0 then [] else IdRange(start, n - 1) + [start + n - 1]
  }

  /** The k-th id of the range is start + k. */
  lemma {:induction false} IdRangeAt(start: NodeId, n: nat)
    ensures forall k :: 0 <= k < n ==> IdRange(start, n)[k] == start + k
  {
    if n > 0 {
      IdRangeAt(start, n - 1);
    }
  }

  lemma IdRangeSnoc(start: NodeId, n: nat)
    ensures IdRange(start, n + 1) == IdRange(start, n) + [start + n]
  {
  }

  // ---------------------------------------------------------------------------
  // Neuron and device models
  // ---------------------------------------------------------------------------

  /** The node models. Only the parameters that node creation reads are kept:
      the leak reversal potential `eL` and the Izhikevich `b` and `c`. */
  datatype NeuronModel =
    | IafPscAlpha(eL: real)
    | IafPscExp(eL: real)
    | IafPscDelta
    | IafCondAlpha(eL: real)
    | IafCondExp
    | AeifCondAlpha(eL: real)
    | HhPscAlpha(eL: real)
    | Izhikevich(b: real, c: real)
    | ParrotNeuron
    | PoissonGenerator
    | SpikeGenerator
    | DcGenerator
    | NoiseGenerator
    | SpikeDetector
    | Multimeter

  /** The names NEST gives its models. */
  const IafPscAlphaName: string := "iaf_psc_alpha"
  const IafPscExpName: string := "iaf_psc_exp"
  const IafPscDeltaName: string := "iaf_psc_delta"
  const IafCondAlphaName: string := "iaf_cond_alpha"
  const IafCondExpName: string := "iaf_cond_exp"
  const AeifCondAlphaName: string := "aeif_cond_alpha"
  const HhPscAlphaName: string := "hh_psc_alpha"
  const IzhikevichName: string := "izhikevich"
  const ParrotNeuronName: string := "parrot_neuron"
  const PoissonGeneratorName: string := "poisson_generator"
  const SpikeGeneratorName: string := "spike_generator"
  const DcGeneratorName: string := "dc_generator"
  const NoiseGeneratorName: string := "noise_generator"
  const DetectorModelName: string := "spike_detector"
  const MultimeterName: string := "multimeter"

  function ModelName(model: NeuronModel): string
  {
    match model
    case IafPscAlpha(_) => IafPscAlphaName
    case IafPscExp(_) => IafPscExpName
    case IafPscDelta => IafPscDeltaName
    case IafCondAlpha(_) => IafCondAlphaName
    case IafCondExp => IafCondExpName
    case AeifCondAlpha(_) => AeifCondAlphaName
    case HhPscAlpha(_) => HhPscAlphaName
    case Izhikevich(_, _) => IzhikevichName
    case ParrotNeuron => ParrotNeuronName
    case PoissonGenerator => PoissonGeneratorName
    case SpikeGenerator => SpikeGeneratorName
    case DcGenerator => DcGeneratorName
    case NoiseGenerator => NoiseGeneratorName
    case SpikeDetector => DetectorModelName
    case Multimeter => MultimeterName
  }

  /** Exactly the spike detectors are named "spike_detector", so the model
      name of a node tells whether it owns a spike record. */
  lemma SpikeDetectorName(model: NeuronModel)
    ensures ModelName(model) == "spike_detector" <==> model.SpikeDetector?
  {
    if !model.SpikeDetector? {
      var name := ModelName(model);
      assert name != "spike_detector" by {
        match model
        case IafPscAlpha(_) => assert name[0] == 'i';
        case IafPscExp(_) => assert name[0] == 'i';
        case IafPscDelta => assert name[0] == 'i';
        case IafCondAlpha(_) => assert name[0] == 'i';
        case IafCondExp => assert name[0] == 'i';
        case AeifCondAlpha(_) => assert name[0] == 'a';
        case HhPscAlpha(_) => assert name[0] == 'h';
        case Izhikevich(_, _) => assert name[0] == 'i';
        case ParrotNeuron => assert name[0] == 'p';
        case PoissonGenerator => assert name[0] == 'p';
        case SpikeGenerator => assert name[6] == 'g';
        case DcGenerator => assert name[0] == 'd';
        case NoiseGenerator => assert name[0] == 'n';
        case Multimeter => assert name[0] == 'm';
      }
    }
  }

  /** The state variables a freshly created node of `model` starts with. */
  function InitialState(model: NeuronModel): (st: map<string, real>)
    ensures "V_m" in st <==> (model.IafPscAlpha? || model.IafPscExp? || model.IafCondAlpha? ||
                              model.AeifCondAlpha? || model.HhPscAlpha? || model.Izhikevich?)
    ensures "V_m" !in st ==> st == map[]
    ensures "V_m" in st && !model.Izhikevich? ==> st["V_m"] == model.eL
    ensures model.AeifCondAlpha? ==> st.Keys == {"V_m", "w"} && st["w"] == 0.0
    ensures model.HhPscAlpha? ==> st.Keys == {"V_m", "n", "m", "h"}
    ensures model.Izhikevich? ==> st.Keys == {"V_m", "U_m"} && st["V_m"] == model.c && st["U_m"] == model.b * st["V_m"]
  {
    match model
    case IafPscAlpha(eL) => map["V_m" := eL]
    case IafPscExp(eL) => map["V_m" := eL]
    case IafCondAlpha(eL) => map["V_m" := eL]
    case AeifCondAlpha(eL) => map["V_m" := eL, "w" := 0.0]
    case HhPscAlpha(eL) => map["V_m" := eL, "n" := 0.3, "m" := 0.05, "h" := 0.6]
    case Izhikevich(b, c) => map["V_m" := c, "U_m" := b * c]
    case _ => map[]
  }

  /** The membrane potential a node starts with when no "V_m" is set. */
  const DefaultPotential: real := -70.0

  datatype NodeState = NodeState(
    id: NodeId,
    model: string,
    vM: real,
    lastSpike: ExtReal,
    refractoryUntil: ExtReal,
    state: map<string, real>)

  /** The node that `Create` stores under `id`. */
  function NewNode(model: NeuronModel, id: NodeId): (node: NodeState)
    ensures node.id == id && node.model == ModelName(model)
    ensures node.lastSpike == NegInf && node.refractoryUntil == NegInf
    ensures node.state == InitialState(model)
    ensures node.model == "spike_detector" <==> model.SpikeDetector?
  {
    SpikeDetectorName(model);
    var state := InitialState(model);
    NodeState(id, ModelName(model), if "V_m" in state then state["V_m"] else DefaultPotential,
              NegInf, NegInf, state)
  }

  /** The membrane potential of a new node: the leak reversal potential for
      the models that carry one, c for Izhikevich (whose recovery variable
      starts at b*c), and -70 mV for every other model. */
  lemma NewNodePotential(model: NeuronModel, id: NodeId)
    ensures (model.IafPscAlpha? || model.IafPscExp? || model.IafCondAlpha? ||
             model.AeifCondAlpha? || model.HhPscAlpha?) ==> NewNode(model, id).vM == model.eL
    ensures model.Izhikevich? ==>
              NewNode(model, id).vM == model.c && NewNode(model, id).state["U_m"] == model.b * model.c
    ensures (model.IafPscDelta? || model.IafCondExp? || model.ParrotNeuron? ||
             model.PoissonGenerator? || model.SpikeGenerator? || model.DcGenerator? ||
             model.NoiseGenerator? || model.SpikeDetector? || model.Multimeter?)
              ==> NewNode(model, id).vM == DefaultPotential && NewNode(model, id).state == map[]
  {
  }

  /** The nodes created for ids start .. start+n-1. */
  function NewNodes(model: NeuronModel, start: NodeId, n: nat): (m: map<NodeId, NodeState>)
    ensures forall id :: id in m <==> start <= id < start + n
    ensures forall id :: id in m ==> m[id] == NewNode(model, id)
  {
    map id: NodeId | start <= id < start + n :: NewNode(model, id)
  }

  lemma NewNodesSnoc(existing: map<NodeId, NodeState>, model: NeuronModel, start: NodeId, i: nat)
    ensures existing + NewNodes(model, start, i + 1) ==
              (existing + NewNodes(model, start, i))[start + i := NewNode(model, start + i)]
  {
    assert NewNodes(model, start, i + 1) == NewNodes(model, start, i)[start + i := NewNode(model, start + i)];
  }

  // ---------------------------------------------------------------------------
  // Synapses and connection specifications
  // ---------------------------------------------------------------------------

  datatype SynapseModel =
    | Static
    | StdpSynapse
    | TsodyksMarkramSynapse
    | BernoulliSynapse
    | VogelsSprekelerSynapse

  datatype ConnectivityRule =
    | AllToAll
    | OneToOne
    | FixedIndegree(indegree: nat)
    | FixedOutdegree(outdegree: nat)
    | FixedTotalNumber(n: nat)
    | PairwiseBernoulli(p: real)
    | SymmetricPairwiseBernoulli(p: real)

  datatype WeightDistribution =
    | WeightConstant(w: real)
    | WeightUniform(min: real, max: real)
    | WeightNormal(mean: real, std: real)
    | WeightLognormal(mu: real, sigma: real)

  datatype DelayDistribution =
    | DelayConstant(d: real)
    | DelayUniform(min: real, max: real)
    | DelayNormal(mean: real, std: real)

  datatype ConnectionSpec = ConnectionSpec(
    rule: ConnectivityRule,
    weight: WeightDistribution,
    delay: DelayDistribution,
    synapseModel: SynapseModel,
    allowAutapses: bool,
    allowMultapses: bool)

  /** All-to-all, weight and delay 1, static synapses, no autapses. */
  const DefaultConnectionSpec: ConnectionSpec :=
    ConnectionSpec(AllToAll, WeightConstant(1.0), DelayConstant(1.0), Static, false, true)

  /** The weight given to every connection. No randomness is drawn: a uniform
      distribution yields its midpoint, a normal one its mean and a
      log-normal one exp(mu); `exp` is the exponential function. */
  function SampleWeight(dist: WeightDistribution, exp: real -> real): (w: real)
    ensures dist.WeightConstant? ==> w == dist.w
    ensures dist.WeightUniform? ==> w - dist.min == dist.max - w
    ensures dist.WeightNormal? ==> w == dist.mean
    ensures dist.WeightLognormal? ==> w == exp(dist.mu)
  {
    match dist
    case WeightConstant(w) => w
    case WeightUniform(min, max) => (min + max) / 2.0
    case WeightNormal(mean, _) => mean
    case WeightLognormal(mu, _) => exp(mu)
  }

  /** The delay given to every connection: the constant, the midpoint of a
      uniform range or the mean of a normal distribution. */
  function SampleDelay(dist: DelayDistribution): (d: real)
    ensures dist.DelayConstant? ==> d == dist.d
    ensures dist.DelayUniform? ==> d - dist.min == dist.max - d
    ensures dist.DelayUniform? && dist.min <= dist.max ==> dist.min <= d <= dist.max
    ensures dist.DelayNormal? ==> d == dist.mean
  {
    match dist
    case DelayConstant(d) => d
    case DelayUniform(min, max) => (min + max) / 2.0
    case DelayNormal(mean, _) => mean
  }

  datatype Connection = Connection(
    source: NodeId,
    target: NodeId,
    weight: real,
    delay: real,
    synapseModel: SynapseModel,
    state: map<string, real>)

  /** What every connection made by one `Connect` call shares. */
  datatype EdgeValues = EdgeValues(weight: real, delay: real, synapseModel: SynapseModel)

  function MakeConnection(src: NodeId, tgt: NodeId, ev: EdgeValues): Connection
  {
    Connection(src, tgt, ev.weight, ev.delay, ev.synapseModel, map[])
  }

  /** The pair filter of the all-to-all rule: self-connections only when
      autapses are allowed. */
  function AutapseFilter(allowAutapses: bool): (NodeId, NodeId) -> bool
  {
    (src: NodeId, tgt: NodeId) => allowAutapses || src != tgt
  }

  /** The pair filter of the pairwise-Bernoulli rule. `draw(src, tgt, time)`
      is the number in [0, 1] that the original derives from a hash of the
      pair and the kernel time; a pair is kept when it is below `p`. */
  function BernoulliFilter(allowAutapses: bool, p: real, draw: (NodeId, NodeId, real) -> real, time: real)
    : (NodeId, NodeId) -> bool
  {
    (src: NodeId, tgt: NodeId) => (allowAutapses || src != tgt) && draw(src, tgt, time) < p
  }

  /** The connections from `src` to the admitted targets, in target order. */
  function Row(src: NodeId, targets: seq<NodeId>, keep: (NodeId, NodeId) -> bool, ev: EdgeValues)
    : seq<Connection>
  {
    if targets == [] then []
    else
      var tgt := targets[|targets| - 1];
      Row(src, targets[..|targets| - 1], keep, ev) + (if keep(src, tgt) then [MakeConnection(src, tgt, ev)] else [])
  }

  /** The connections of every admitted (source, target) pair, source-major. */
  function Grid(sources: seq<NodeId>, targets: seq<NodeId>, keep: (NodeId, NodeId) -> bool, ev: EdgeValues)
    : seq<Connection>
  {
    if sources == [] then []
    else Grid(sources[..|sources| - 1], targets, keep, ev) + Row(sources[|sources| - 1], targets, keep, ev)
  }

  /** The connections pairing the k-th source with the k-th target. */
  function Zip(sources: seq<NodeId>, targets: seq<NodeId>, ev: EdgeValues): (r: seq<Connection>)
    requires |sources| == |targets|
  {
    if sources == [] then []
    else Zip(sources[..|sources| - 1], targets[..|targets| - 1], ev)
           + [MakeConnection(sources[|sources| - 1], targets[|targets| - 1], ev)]
  }

  lemma {:induction false} RowMembers(src: NodeId, targets: seq<NodeId>, keep: (NodeId, NodeId) -> bool, ev: EdgeValues, c: Connection)
    ensures c in Row(src, targets, keep, ev) <==>
              c.source == src && c.target in targets && keep(src, c.target) && c == MakeConnection(src, c.target, ev)
  {
    if targets != [] {
      var init := targets[..|targets| - 1];
      RowMembers(src, init, keep, ev, c);
      assert targets == init + [targets[|targets| - 1]];
    }
  }

  /** A connection is made exactly when its pair is admitted: its source is
      one of the sources, its target one of the targets, and the filter keeps
      the pair; it carries the shared weight, delay and synapse model. */
  lemma {:induction false} GridMembers(sources: seq<NodeId>, targets: seq<NodeId>, keep: (NodeId, NodeId) -> bool, ev: EdgeValues, c: Connection)
    ensures c in Grid(sources, targets, keep, ev) <==>
              c.source in sources && c.target in targets && keep(c.source, c.target)
              && c == MakeConnection(c.source, c.target, ev)
  {
    if sources != [] {
      var init := sources[..|sources| - 1];
      GridMembers(init, targets, keep, ev, c);
      RowMembers(sources[|sources| - 1], targets, keep, ev, c);
      assert sources == init + [sources[|sources| - 1]];
    }
  }

  /** When every pair is admitted there are |sources| * |targets| connections. */
  lemma {:induction false} GridSize(sources: seq<NodeId>, targets: seq<NodeId>, keep: (NodeId, NodeId) -> bool, ev: EdgeValues)
    requires forall s, t :: keep(s, t)
    ensures |Grid(sources, targets, keep, ev)| == |sources| * |targets|
  {
    if sources != [] {
      var n := |sources| - 1;
      GridSize(sources[..n], targets, keep, ev);
      RowSize(sources[n], targets, keep, ev);
      assert n * |targets| + |targets| == |sources| * |targets|;
    }
  }

  lemma {:induction false} RowSize(src: NodeId, targets: seq<NodeId>, keep: (NodeId, NodeId) -> bool, ev: EdgeValues)
    requires forall s, t :: keep(s, t)
    ensures |Row(src, targets, keep, ev)| == |targets|
  {
    if targets != [] {
      RowSize(src, targets[..|targets| - 1], keep, ev);
    }
  }

  /** Source-major order: the connections of a split source list are those of
      the first part followed by those of the second. */
  lemma {:induction false} GridSplit(s1: seq<NodeId>, s2: seq<NodeId>, targets: seq<NodeId>, keep: (NodeId, NodeId) -> bool, ev: EdgeValues)
    ensures Grid(s1 + s2, targets, keep, ev) == Grid(s1, targets, keep, ev) + Grid(s2, targets, keep, ev)
  {
    if s2 == [] {
      assert s1 + s2 == s1;
    } else {
      var init := s2[..|s2| - 1];
      GridSplit(s1, init, targets, keep, ev);
      assert (s1 + s2)[..|s1 + s2| - 1] == s1 + init;
      assert (s1 + s2)[|s1 + s2| - 1] == s2[|s2| - 1];
    }
  }

  /** One-to-one connects position k to position k and nothing else. */
  lemma {:induction false} ZipPairs(sources: seq<NodeId>, targets: seq<NodeId>, ev: EdgeValues)
    requires |sources| == |targets|
    ensures |Zip(sources, targets, ev)| == |sources|
    ensures forall k :: 0 <= k < |sources| ==> Zip(sources, targets, ev)[k] == MakeConnection(sources[k], targets[k], ev)
  {
    if sources != [] {
      ZipPairs(sources[..|sources| - 1], targets[..|targets| - 1], ev);
    }
  }

  /** The connections a `Connect` call appends, or the error it returns. */
  function PlannedConnections(sources: NodeCollection, targets: NodeCollection, spec: ConnectionSpec,
                              time: real, exp: real -> real, draw: (NodeId, NodeId, real) -> real)
    : Result<seq<Connection>, NestError>
  {
    var ev := EdgeValues(SampleWeight(spec.weight, exp), SampleDelay(spec.delay), spec.synapseModel);
    match spec.rule
    case AllToAll => Ok(Grid(sources.ids, targets.ids, AutapseFilter(spec.allowAutapses), ev))
    case OneToOne =>
      if sources.Len() != targets.Len() then Err(ConnectionError("OneToOne requires equal population sizes"))
      else Ok(Zip(sources.ids, targets.ids, ev))
    case PairwiseBernoulli(p) =>
      Ok(Grid(sources.ids, targets.ids, BernoulliFilter(spec.allowAutapses, p, draw, time), ev))
    case _ => Ok([])
  }

  /** All-to-all connects every source to every target (self-pairs only with
      autapses allowed), |sources| * |targets| connections when they are. */
  lemma AllToAllConnections(sources: NodeCollection, targets: NodeCollection, spec: ConnectionSpec,
                            time: real, exp: real -> real, draw: (NodeId, NodeId, real) -> real, c: Connection)
    requires spec.rule == AllToAll
    ensures PlannedConnections(sources, targets, spec, time, exp, draw).Ok?
    ensures c in PlannedConnections(sources, targets, spec, time, exp, draw).value <==>
              c.source in sources.ids && c.target in targets.ids
              && (spec.allowAutapses || c.source != c.target)
              && c.weight == SampleWeight(spec.weight, exp) && c.delay == SampleDelay(spec.delay)
              && c.synapseModel == spec.synapseModel && c.state == map[]
    ensures spec.allowAutapses ==>
              |PlannedConnections(sources, targets, spec, time, exp, draw).value| == sources.Len() * targets.Len()
  {
    var ev := EdgeValues(SampleWeight(spec.weight, exp), SampleDelay(spec.delay), spec.synapseModel);
    GridMembers(sources.ids, targets.ids, AutapseFilter(spec.allowAutapses), ev, c);
    if spec.allowAutapses {
      GridSize(sources.ids, targets.ids, AutapseFilter(spec.allowAutapses), ev);
    }
  }

  /** One-to-one fails on populations of different sizes and otherwise pairs
      the k-th source with the k-th target; the rules that are not
      implemented connect nothing and succeed. */
  lemma OneToOneAndOtherRules(sources: NodeCollection, targets: NodeCollection, spec: ConnectionSpec,
                              time: real, exp: real -> real, draw: (NodeId, NodeId, real) -> real)
    ensures spec.rule == OneToOne && sources.Len() != targets.Len() ==>
              PlannedConnections(sources, targets, spec, time, exp, draw).Err?
    ensures spec.rule == OneToOne && sources.Len() == targets.Len() ==>
              var planned := PlannedConnections(sources, targets, spec, time, exp, draw);
              planned.Ok? && |planned.value| == sources.Len() &&
              forall k :: 0 <= k < sources.Len() ==>
                planned.value[k].source == sources.ids[k] && planned.value[k].target == targets.ids[k]
    ensures spec.rule.FixedIndegree? || spec.rule.FixedOutdegree? || spec.rule.FixedTotalNumber? ||
            spec.rule.SymmetricPairwiseBernoulli? ==>
              PlannedConnections(sources, targets, spec, time, exp, draw) == Ok([])
  {
    if spec.rule == OneToOne && sources.Len() == targets.Len() {
      var ev := EdgeValues(SampleWeight(spec.weight, exp), SampleDelay(spec.delay), spec.synapseModel);
      ZipPairs(sources.ids, targets.ids, ev);
    }
  }

  // ---------------------------------------------------------------------------
  // Node status
  // ---------------------------------------------------------------------------

  /** The status dictionary of a node: its state variables, then "V_m" and
      "t_spike" written over them. */
  function Status(node: NodeState): map<string, ExtReal>
  {
    (map k | k in node.state :: Finite(node.state[k]))["V_m" := Finite(node.vM)]["t_spike" := node.lastSpike]
  }

  /** One status per id that names an existing node, in id order. */
  function StatusList(nodes: map<NodeId, NodeState>, ids: seq<NodeId>): (r: seq<map<string, ExtReal>>)
    ensures |r| <= |ids|
  {
    if ids == [] then []
    else
      var id := ids[|ids| - 1];
      StatusList(nodes, ids[..|ids| - 1]) + (if id in nodes then [Status(nodes[id])] else [])
  }

  /** The node after `set_status(params)`: "V_m" goes to the membrane
      potential, every other key into the state variables. */
  function ApplyStatus(node: NodeState, params: map<string, real>): (r: NodeState)
    ensures r.id == node.id && r.model == node.model
    ensures r.lastSpike == node.lastSpike && r.refractoryUntil == node.refractoryUntil
  {
    ApplyKeys(node, params, params.Keys)
  }

  /** The entries of `params` under `keys` that go into the state variables. */
  function Written(params: map<string, real>, keys: set<string>): map<string, real>
  {
    map k | k in keys && k in params && k != "V_m" :: params[k]
  }

  /** The node after writing only the entries of `params` under `keys`. */
  function ApplyKeys(node: NodeState, params: map<string, real>, keys: set<string>): NodeState
  {
    node.(vM := if "V_m" in keys && "V_m" in params then params["V_m"] else node.vM,
          state := node.state + Written(params, keys))
  }

  /** Writing no entry leaves the node as it is. */
  lemma ApplyNoKeys(node: NodeState, params: map<string, real>)
    ensures ApplyKeys(node, params, {}) == node
  {
    assert node.state + Written(params, {}) == node.state;
  }

  /** Writing one more entry of the dictionary. */
  lemma ApplyKeysStep(node: NodeState, params: map<string, real>, done: set<string>, key: string)
    requires key in params
    ensures key == "V_m" ==>
              ApplyKeys(node, params, done + {key}) == ApplyKeys(node, params, done).(vM := params[key])
    ensures key != "V_m" ==>
              ApplyKeys(node, params, done + {key}) ==
              ApplyKeys(node, params, done).(state := ApplyKeys(node, params, done).state[key := params[key]])
  {
    if key == "V_m" {
      assert Written(params, done + {key}) == Written(params, done);
    } else {
      assert Written(params, done + {key}) == Written(params, done)[key := params[key]];
      assert node.state + Written(params, done + {key}) == (node.state + Written(params, done))[key := params[key]];
    }
  }

  /** Setting the same status twice is the same as setting it once. */
  lemma ApplyStatusIdempotent(node: NodeState, params: map<string, real>)
    ensures ApplyStatus(ApplyStatus(node, params), params) == ApplyStatus(node, params)
  {
    var once := ApplyStatus(node, params);
    assert once.state + Written(params, params.Keys) == once.state;
  }

  /** Reading back: after `set_status(params)` the status reports each
      written value, except under "t_spike", which the status always takes
      from the last spike time. */
  lemma StatusAfterSet(node: NodeState, params: map<string, real>, key: string)
    requires key in params && key != "t_spike"
    ensures key in Status(ApplyStatus(node, params))
    ensures Status(ApplyStatus(node, params))[key] == Finite(params[key])
  {
  }

  /** Every listed status comes from an existing node and carries "V_m" and
      "t_spike"; when all ids exist there is one status per id. */
  lemma {:induction false} StatusListShape(nodes: map<NodeId, NodeState>, ids: seq<NodeId>)
    ensures forall st :: st in StatusList(nodes, ids) ==> "V_m" in st && "t_spike" in st
    ensures (forall id :: id in ids ==> id in nodes) ==> |StatusList(nodes, ids)| == |ids|
    ensures (forall id :: id in ids ==> id in nodes) ==>
              forall k :: 0 <= k < |ids| ==> StatusList(nodes, ids)[k] == Status(nodes[ids[k]])
    ensures (forall id :: id in ids ==> id !in nodes) ==> StatusList(nodes, ids) == []
  {
    if ids != [] {
      StatusListShape(nodes, ids[..|ids| - 1]);
      assert forall id :: id in ids[..|ids| - 1] ==> id in ids;
    }
  }

  /** The loop body of `set_status` for one node: walks the parameter
      dictionary in whatever order and writes each entry. */
  method UpdateNode(node: NodeState, params: map<string, real>) returns (updated: NodeState)
    ensures updated == ApplyStatus(node, params)
  {
    updated := node;
    var pending := params.Keys;
    ghost var done: set<string> := {};
    ApplyNoKeys(node, params);
    while pending != {}
      invariant pending <= params.Keys && done == params.Keys - pending
      invariant updated == ApplyKeys(node, params, done)
      decreases |pending|
    {
      var key :| key in pending;
      ApplyKeysStep(node, params, done, key);
      if key == "V_m" {
        updated := updated.(vM := params[key]);
      } else {
        updated := updated.(state := updated.state[key := params[key]]);
      }
      pending := pending - {key};
      done := done + {key};
    }
    assert done == params.Keys;
  }

  // ---------------------------------------------------------------------------
  // Spike recording
  // ---------------------------------------------------------------------------

  /** The spike times of `sender`, in recording order. */
  function TrainOf(times: seq<real>, senders: seq<NodeId>, sender: NodeId): seq<real>
    requires |times| == |senders|
  {
    if times == [] then []
    else
      var n := |times| - 1;
      TrainOf(times[..n], senders[..n], sender) + (if senders[n] == sender then [times[n]] else [])
  }

  /** Each sender's train has one spike per event it sent, so the train
      lengths add up to the number of events; an event appears in the train of
      its own sender. */
  lemma {:induction false} TrainLengths(times: seq<real>, senders: seq<NodeId>, sender: NodeId)
    requires |times| == |senders|
    ensures |TrainOf(times, senders, sender)| == multiset(senders)[sender]
    ensures forall k :: 0 <= k < |times| && senders[k] == sender ==> times[k] in TrainOf(times, senders, sender)
  {
    if times != [] {
      var n := |times| - 1;
      TrainLengths(times[..n], senders[..n], sender);
      assert senders == senders[..n] + [senders[n]];
      forall k | 0 <= k < |times| && senders[k] == sender
        ensures times[k] in TrainOf(times, senders, sender)
      {
        if k < n {
          assert senders[..n][k] == senders[k] && times[..n][k] == times[k];
        }
      }
    }
  }

  lemma TrainOfSnoc(times: seq<real>, senders: seq<NodeId>, t: real, s: NodeId, sender: NodeId)
    requires |times| == |senders|
    ensures TrainOf(times + [t], senders + [s], sender) ==
              TrainOf(times, senders, sender) + (if s == sender then [t] else [])
  {
    assert (times + [t])[..|times|] == times;
    assert (senders + [s])[..|senders|] == senders;
  }

  /** The spikes recorded by one spike detector. */
  class SpikeData {
    var times: seq<real>
    var senders: seq<NodeId>

    ghost predicate Valid()
      reads this
    {
      |times| == |senders|
    }

    constructor ()
      ensures Valid() && times == [] && senders == []
    {
      times := [];
      senders := [];
    }

    constructor Copy(times: seq<real>, senders: seq<NodeId>)
      ensures this.times == times && this.senders == senders
    {
      this.times := times;
      this.senders := senders;
    }

    method Record(time: real, sender: NodeId)
      requires Valid()
      modifies this
      ensures Valid()
      ensures times == old(times) + [time] && senders == old(senders) + [sender]
      ensures NEvents() == old(NEvents()) + 1
    {
      times := times + [time];
      senders := senders + [sender];
    }

    /** The number of recorded events, which is also the number of senders. */
    function NEvents(): (n: nat)
      requires Valid()
      reads this
      ensures n == |senders|
    {
      |times|
    }

    /** The spike times grouped by sender, each group in recording order. */
    method SpikeTrains() returns (trains: map<NodeId, seq<real>>)
      requires Valid()
      ensures forall s :: s in trains <==> s in senders
      ensures forall s :: s in trains ==> trains[s] == TrainOf(times, senders, s)
    {
      trains := map[];
      var i := 0;
      while i < |times|
        invariant 0 <= i <= |times|
        invariant forall s :: s in trains <==> s in senders[..i]
        invariant forall s :: s in trains ==> trains[s] == TrainOf(times[..i], senders[..i], s)
        invariant forall s :: s !in trains ==> TrainOf(times[..i], senders[..i], s) == []
      {
        var t, s := times[i], senders[i];
        TrainsStep(times, senders, i);
        if s in trains {
          trains := trains[s := trains[s] + [t]];
        } else {
          trains := trains[s := [t]];
        }
        i := i + 1;
      }
      assert times[..i] == times && senders[..i] == senders;
    }
  }

  lemma TrainsStep(times: seq<real>, senders: seq<NodeId>, i: nat)
    requires |times| == |senders| && i < |times|
    ensures times[..i + 1] == times[..i] + [times[i]]
    ensures senders[..i + 1] == senders[..i] + [senders[i]]
    ensures forall s :: TrainOf(times[..i + 1], senders[..i + 1], s) ==
              TrainOf(times[..i], senders[..i], s) + (if senders[i] == s then [times[i]] else [])
    ensures forall s :: s in senders[..i + 1] <==> s in senders[..i] || s == senders[i]
  {
    assert times[..i + 1] == times[..i] + [times[i]];
    assert senders[..i + 1] == senders[..i] + [senders[i]];
    forall s
      ensures TrainOf(times[..i + 1], senders[..i + 1], s) ==
                TrainOf(times[..i], senders[..i], s) + (if senders[i] == s then [times[i]] else [])
    {
      TrainOfSnoc(times[..i], senders[..i], times[i], senders[i], s);
    }
  }

  /** Events per neuron per second; 0 when there are no neurons or the
      duration (in ms) is not positive. */
  function MeanFiringRate(data: SpikeData, nNeurons: nat, duration: real): (rate: real)
    requires data.Valid()
    reads data
    ensures rate >= 0.0
    ensures nNeurons == 0 || duration <= 0.0 ==> rate == 0.0
    ensures nNeurons > 0 && duration > 0.0 ==>
              rate * (nNeurons as real) * duration == 1000.0 * (data.NEvents() as real)
  {
    if nNeurons == 0 || duration <= 0.0 then 0.0
    else
      var n, d := nNeurons as real, duration / 1000.0;
      var rate := (data.NEvents() as real) / n / d;
      assert rate * n * d == data.NEvents() as real;
      rate
  }

  // ---------------------------------------------------------------------------
  // The kernel
  // ---------------------------------------------------------------------------

  datatype KernelParams = KernelParams(
    resolution: real,
    minDelay: real,
    maxDelay: real,
    rngSeed: nat,
    numThreads: nat,
    printTime: bool)

  const DefaultKernelParams: KernelParams := KernelParams(0.1, 0.1, 100.0, 12345, 1, false)

  /** NEST node ids start at 1. */
  const FirstNodeId: NodeId := 1

  /** Every node id lies below the next id to hand out and is stored under
      itself; the spike records belong exactly to the spike detectors. */
  ghost predicate KernelInvariant(nextNodeId: NodeId, nodes: map<NodeId, NodeState>, spikeData: map<NodeId, SpikeData>)
  {
    && FirstNodeId <= nextNodeId
    && (forall id :: id in nodes ==> FirstNodeId <= id < nextNodeId && nodes[id].id == id)
    && (forall id :: id in spikeData <==> id in nodes && nodes[id].model == "spike_detector")
  }

  /** Replacing a node by one with the same id and model keeps the invariant. */
  lemma UpdateKeepsInvariant(nextNodeId: NodeId, nodes: map<NodeId, NodeState>, spikeData: map<NodeId, SpikeData>,
                             id: NodeId, node: NodeState)
    requires KernelInvariant(nextNodeId, nodes, spikeData)
    requires id in nodes && node.id == id && node.model == nodes[id].model
    ensures KernelInvariant(nextNodeId, nodes[id := node], spikeData)
  {
  }

  /** Updating one more node keeps the progress of `SetStatus`: updating a
      node twice is the same as updating it once. */
  lemma SetStatusStep(nodes: map<NodeId, NodeState>, orig: map<NodeId, NodeState>, params: map<string, real>,
                      done: set<NodeId>, id: NodeId, updated: NodeState)
    requires nodes.Keys == orig.Keys
    requires forall x :: x in nodes ==> nodes[x] == if x in done then ApplyStatus(orig[x], params) else orig[x]
    requires id in nodes && updated == ApplyStatus(nodes[id], params)
    ensures forall x :: x in nodes[id := updated] ==>
              nodes[id := updated][x] == if x in done + {id} then ApplyStatus(orig[x], params) else orig[x]
  {
    if id in done {
      ApplyStatusIdempotent(orig[id], params);
    }
  }

  /** A spike record with no events yet. */
  predicate EmptyRecord(data: SpikeData)
    reads data
  {
    data.times == [] && data.senders == []
  }

  /** The ids, nodes and spike records after `i` steps of `Create` from
      `start`, `baseNodes` and `baseSpikes`. */
  ghost predicate CreatedFrom(nextNodeId: NodeId, nodes: map<NodeId, NodeState>, spikeData: map<NodeId, SpikeData>,
                              model: NeuronModel, start: NodeId, i: nat, baseNodes: map<NodeId, NodeState>,
                              baseSpikes: map<NodeId, SpikeData>)
  {
    && nextNodeId == start + i
    && nodes == baseNodes + NewNodes(model, start, i)
    && (!model.SpikeDetector? ==> spikeData == baseSpikes)
    && (model.SpikeDetector? ==> forall id :: id in spikeData <==> id in baseSpikes || start <= id < start + i)
    && (forall id :: id in baseSpikes ==> id in spikeData && spikeData[id] == baseSpikes[id])
  }

  /** Ids handed out from `start` on are not yet in use. */
  lemma IdRangeFresh(start: NodeId, n: nat, nodes: map<NodeId, NodeState>)
    requires forall id :: id in nodes ==> id < start
    ensures forall id :: id in IdRange(start, n) ==> id !in nodes
  {
    IdRangeAt(start, n);
  }

  /** Before the first step nothing has been created. */
  lemma CreatedInit(model: NeuronModel, start: NodeId, nodes: map<NodeId, NodeState>, spikeData: map<NodeId, SpikeData>)
    ensures CreatedFrom(start, nodes, spikeData, model, start, 0, nodes, spikeData)
  {
    assert NewNodes(model, start, 0) == map[];
    assert nodes + map[] == nodes;
  }

  /** Adding the node under the next id (and its record, for a spike
      detector) is one more step of `Create`. */
  lemma CreatedStep(model: NeuronModel, start: NodeId, i: nat, baseNodes: map<NodeId, NodeState>,
                    baseSpikes: map<NodeId, SpikeData>, nodes: map<NodeId, NodeState>, spikeData: map<NodeId, SpikeData>,
                    nodes': map<NodeId, NodeState>, spikeData': map<NodeId, SpikeData>)
    requires CreatedFrom(start + i, nodes, spikeData, model, start, i, baseNodes, baseSpikes)
    requires nodes' == nodes[start + i := NewNode(model, start + i)]
    requires !model.SpikeDetector? ==> spikeData' == spikeData
    requires model.SpikeDetector? ==>
               spikeData'.Keys == spikeData.Keys + {start + i}
               && forall k :: k in spikeData ==> spikeData'[k] == spikeData[k]
    ensures CreatedFrom(start + i + 1, nodes', spikeData', model, start, i + 1, baseNodes, baseSpikes)
  {
    NewNodesSnoc(baseNodes, model, start, i);
  }

  /** The simulation state: nodes, connections and spike records. */
  class Kernel {
    var params: KernelParams
    var time: real
    var nextNodeId: NodeId
    var nodes: map<NodeId, NodeState>
    var connections: seq<Connection>
    var spikeData: map<NodeId, SpikeData>

    ghost predicate Valid()
      reads this
    {
      KernelInvariant(nextNodeId, nodes, spikeData)
    }

    constructor (params: KernelParams)
      ensures Valid()
      ensures this.params == params && time == 0.0 && nextNodeId == FirstNodeId
      ensures nodes == map[] && connections == [] && spikeData == map[]
    {
      this.params := params;
      time := 0.0;
      nextNodeId := FirstNodeId;
      nodes := map[];
      connections := [];
      spikeData := map[];
    }

    method Reset()
      modifies this
      ensures Valid()
      ensures params == old(params) && time == 0.0 && nextNodeId == FirstNodeId
      ensures nodes == map[] && connections == [] && spikeData == map[]
    {
      time := 0.0;
      nodes := map[];
      connections := [];
      spikeData := map[];
      nextNodeId := FirstNodeId;
    }

    method SetParams(params: KernelParams)
      requires Valid()
      modifies this`params
      ensures Valid() && this.params == params
    {
      this.params := params;
    }

    function GetTime(): real
      reads this
    {
      time
    }

    /** One step of `Create`: the node under the next free id, with an empty
        spike record when it is a spike detector. */
    method AddNode(model: NeuronModel) returns (id: NodeId)
      requires Valid()
      modifies this`nextNodeId, this`nodes, this`spikeData
      ensures Valid()
      ensures id == old(nextNodeId) && nextNodeId == id + 1 && id !in old(nodes)
      ensures nodes == old(nodes)[id := NewNode(model, id)]
      ensures !model.SpikeDetector? ==> spikeData == old(spikeData)
      ensures model.SpikeDetector? ==>
                id !in old(spikeData) && spikeData.Keys == old(spikeData).Keys + {id}
                && fresh(spikeData[id]) && spikeData[id].times == [] && spikeData[id].senders == []
                && forall k :: k in old(spikeData) ==> spikeData[k] == old(spikeData)[k]
    {
      SpikeDetectorName(model);
      id := nextNodeId;
      nextNodeId := nextNodeId + 1;
      if model.SpikeDetector? {
        var record := new SpikeData();
        spikeData := spikeData[id := record];
      }
      nodes := nodes[id := NewNode(model, id)];
    }

    /** After `i` steps of `Create` from the ids, nodes and spike records
        `start`, `baseNodes` and `baseSpikes`: the kernel is consistent and
        every record added so far is empty. */
    ghost predicate Created(model: NeuronModel, start: NodeId, i: nat, baseNodes: map<NodeId, NodeState>,
                            baseSpikes: map<NodeId, SpikeData>)
      reads this, spikeData.Values
    {
      && Valid()
      && CreatedFrom(nextNodeId, nodes, spikeData, model, start, i, baseNodes, baseSpikes)
      && NewRecordsEmpty(baseSpikes)
    }

    /** Every spike record added since `baseSpikes` is still empty. */
    ghost predicate NewRecordsEmpty(baseSpikes: map<NodeId, SpikeData>)
      reads this, spikeData.Values
    {
      forall id :: id in spikeData && id !in baseSpikes ==> EmptyRecord(spikeData[id])
    }

    /** One step of `Create`, with its progress made explicit: the next node
        is added and its id appended to `ids`. */
    method AddNext(model: NeuronModel, ids: seq<NodeId>, ghost start: NodeId, ghost i: nat,
                   ghost baseNodes: map<NodeId, NodeState>, ghost baseSpikes: map<NodeId, SpikeData>)
      returns (ids': seq<NodeId>)
      requires Created(model, start, i, baseNodes, baseSpikes) && ids == IdRange(start, i)
      modifies this`nextNodeId, this`nodes, this`spikeData
      ensures Created(model, start, i + 1, baseNodes, baseSpikes) && ids' == IdRange(start, i + 1)
    {
      ghost var nodes0, spikes0 := nodes, spikeData;
      var id := AddNode(model);
      CreatedStep(model, start, i, baseNodes, baseSpikes, nodes0, spikes0, nodes, spikeData);
      IdRangeSnoc(start, i);
      ids' := ids + [id];
    }

    /** Creates `n` nodes of `model` under consecutive fresh ids; every spike
        detector also gets an empty spike record. */
    method Create(model: NeuronModel, n: nat) returns (nc: NodeCollection)
      requires Valid()
      modifies this`nextNodeId, this`nodes, this`spikeData
      ensures Valid()
      ensures nc.ids == IdRange(old(nextNodeId), n)
      ensures nextNodeId == old(nextNodeId) + n
      ensures forall id :: id in nc.ids ==> id !in old(nodes)
      ensures nodes == old(nodes) + NewNodes(model, old(nextNodeId), n)
      ensures !model.SpikeDetector? ==> spikeData == old(spikeData)
      ensures model.SpikeDetector? ==>
                forall id :: id in spikeData <==> id in old(spikeData) || old(nextNodeId) <= id < nextNodeId
      ensures forall id :: id in old(spikeData) ==> id in spikeData && spikeData[id] == old(spikeData)[id]
      ensures forall id :: id in spikeData && id !in old(spikeData) ==> EmptyRecord(spikeData[id])
    {
      IdRangeFresh(nextNodeId, n, nodes);
      var ids := AddNodes(model, n);
      nc := NodeCollection(ids);
    }

    /** The loop of `Create`: `n` steps of `AddNext`, collecting the ids. */
    method AddNodes(model: NeuronModel, n: nat) returns (ids: seq<NodeId>)
      requires Valid()
      modifies this`nextNodeId, this`nodes, this`spikeData
      ensures Created(model, old(nextNodeId), n, old(nodes), old(spikeData))
      ensures ids == IdRange(old(nextNodeId), n)
    {
      ids := [];
      var i := 0;
      CreatedInit(model, nextNodeId, nodes, spikeData);
      while i < n
        invariant 0 <= i <= n
        invariant Created(model, old(nextNodeId), i, old(nodes), old(spikeData))
        invariant ids == IdRange(old(nextNodeId), i)
      {
        ids := AddNext(model, ids, old(nextNodeId), i, old(nodes), old(spikeData));
        i := i + 1;
      }
    }

    /** Appends the connections of every admitted (source, target) pair,
        source-major. */
    method AppendGrid(sources: seq<NodeId>, targets: seq<NodeId>, keep: (NodeId, NodeId) -> bool, ev: EdgeValues)
      modifies this`connections
      ensures connections == old(connections) + Grid(sources, targets, keep, ev)
    {
      var i := 0;
      while i < |sources|
        invariant 0 <= i <= |sources|
        invariant connections == old(connections) + Grid(sources[..i], targets, keep, ev)
      {
        AppendRow(sources[i], targets, keep, ev);
        assert sources[..i + 1][..i] == sources[..i];
        i := i + 1;
      }
      assert sources[..i] == sources;
    }

    /** The connections of one source to every admitted target, in order. */
    method AppendRow(src: NodeId, targets: seq<NodeId>, keep: (NodeId, NodeId) -> bool, ev: EdgeValues)
      modifies this`connections
      ensures connections == old(connections) + Row(src, targets, keep, ev)
    {
      var j := 0;
      while j < |targets|
        invariant 0 <= j <= |targets|
        invariant connections == old(connections) + Row(src, targets[..j], keep, ev)
      {
        var tgt := targets[j];
        if keep(src, tgt) {
          connections := connections + [MakeConnection(src, tgt, ev)];
        }
        assert targets[..j + 1][..j] == targets[..j];
        j := j + 1;
      }
      assert targets[..j] == targets;
    }

    /** Connects `sources` to `targets` under `spec`. `exp` is the exponential
        function (for log-normal weights) and `draw` the hash-derived number
        of the pairwise-Bernoulli rule. */
    method Connect(sources: NodeCollection, targets: NodeCollection, spec: ConnectionSpec,
                   exp: real -> real, draw: (NodeId, NodeId, real) -> real)
      returns (r: Result<(), NestError>)
      requires Valid()
      modifies this`connections
      ensures Valid()
      ensures var planned := PlannedConnections(sources, targets, spec, old(time), exp, draw);
              && (planned.Err? ==> r == Err(planned.error) && connections == old(connections))
              && (planned.Ok? ==> r == Ok(()) && connections == old(connections) + planned.value)
    {
      var ev := EdgeValues(SampleWeight(spec.weight, exp), SampleDelay(spec.delay), spec.synapseModel);
      match spec.rule {
        case AllToAll =>
          AppendGrid(sources.ids, targets.ids, AutapseFilter(spec.allowAutapses), ev);
        case OneToOne =>
          if sources.Len() != targets.Len() {
            return Err(ConnectionError("OneToOne requires equal population sizes"));
          }
          var k := 0;
          while k < sources.Len()
            invariant 0 <= k <= sources.Len()
            invariant connections == old(connections) + Zip(sources.ids[..k], targets.ids[..k], ev)
          {
            connections := connections + [MakeConnection(sources.ids[k], targets.ids[k], ev)];
            assert sources.ids[..k + 1][..k] == sources.ids[..k];
            assert targets.ids[..k + 1][..k] == targets.ids[..k];
            k := k + 1;
          }
          assert sources.ids[..k] == sources.ids && targets.ids[..k] == targets.ids;
        case PairwiseBernoulli(p) =>
          AppendGrid(sources.ids, targets.ids, BernoulliFilter(spec.allowAutapses, p, draw, time), ev);
        case _ =>
      }
      r := Ok(());
    }

    /** The status of every listed node that exists, in list order. */
    method GetStatus(nc: NodeCollection) returns (results: seq<map<string, ExtReal>>)
      ensures results == StatusList(nodes, nc.ids)
    {
      results := [];
      var i := 0;
      while i < nc.Len()
        invariant 0 <= i <= nc.Len()
        invariant results == StatusList(nodes, nc.ids[..i])
      {
        var id := nc.ids[i];
        if id in nodes {
          results := results + [Status(nodes[id])];
        }
        assert nc.ids[..i + 1][..i] == nc.ids[..i];
        i := i + 1;
      }
      assert nc.ids[..i] == nc.ids;
    }

    /** Writes `params` into every listed node that exists; unknown ids are
        skipped and the call always succeeds. */
    method SetStatus(nc: NodeCollection, params: map<string, real>) returns (r: Result<(), NestError>)
      requires Valid()
      modifies this`nodes
      ensures Valid()
      ensures r == Ok(())
      ensures nodes.Keys == old(nodes).Keys
      ensures forall id :: id in nodes ==>
                nodes[id] == if id in nc.ids then ApplyStatus(old(nodes)[id], params) else old(nodes)[id]
    {
      var i := 0;
      ghost var done: set<NodeId> := {};
      while i < nc.Len()
        invariant 0 <= i <= nc.Len()
        invariant Valid()
        invariant forall id :: id in done <==> id in nc.ids[..i]
        invariant nodes.Keys == old(nodes).Keys
        invariant forall id :: id in nodes ==>
                    nodes[id] == if id in done then ApplyStatus(old(nodes)[id], params) else old(nodes)[id]
      {
        var id := nc.ids[i];
        SetOne(id, params, old(nodes), done);
        assert nc.ids[..i + 1] == nc.ids[..i] + [id];
        done := done + {id};
        i := i + 1;
      }
      assert nc.ids[..i] == nc.ids;
      r := Ok(());
    }

    /** One step of `SetStatus`: the node `id`, if it exists, takes the
        parameters, so that the nodes of `done + {id}` have been updated. */
    method SetOne(id: NodeId, params: map<string, real>, ghost orig: map<NodeId, NodeState>, ghost done: set<NodeId>)
      requires Valid() && nodes.Keys == orig.Keys
      requires forall x :: x in nodes ==> nodes[x] == if x in done then ApplyStatus(orig[x], params) else orig[x]
      modifies this`nodes
      ensures Valid() && nodes.Keys == orig.Keys
      ensures forall x :: x in nodes ==>
                nodes[x] == if x in done + {id} then ApplyStatus(orig[x], params) else orig[x]
    {
      if id in nodes {
        var updated := UpdateNode(nodes[id], params);
        UpdateKeepsInvariant(nextNodeId, nodes, spikeData, id, updated);
        SetStatusStep(nodes, orig, params, done, id, updated);
        nodes := nodes[id := updated];
      }
    }

    /** A copy of the spike record of `detector`, if it has one. */
    method GetSpikeData(detector: NodeId) returns (r: Option<SpikeData>)
      ensures r.Some? <==> detector in spikeData
      ensures r.Some? ==> fresh(r.value)
      ensures r.Some? ==> r.value.times == spikeData[detector].times && r.value.senders == spikeData[detector].senders
    {
      if detector in spikeData {
        var source := spikeData[detector];
        var copy := new SpikeData.Copy(source.times, source.senders);
        return Some(copy);
      }
      return None;
    }
  }
}
