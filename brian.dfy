/** The data structures of the Brian simulator: physical units, neuron
    groups, synapse builders, spike generators, spike and state monitors and
    the network that holds them. */
module Brian {
  import opened Wrappers

  /** What went wrong inside a simulation call. */
  datatype SimulationFault =
    | UnknownVariable(name: string)
    | WrongLength(expected: nat, got: nat)

  datatype BrianError =
    | ParseError(msg: string)
    | SimulationError(fault: SimulationFault)
    | EquationError(msg: string)
    | UnitError(expected: string, got: string)

  // ---------------------------------------------------------------------------
  // Units
  // ---------------------------------------------------------------------------

  datatype Unit =
    | Second | Millisecond | Microsecond
    | Volt | Millivolt
    | Ampere | Nanoampere | Picoampere
    | Siemens | Nanosiemens | Microsiemens
    | Farad | Picofarad
    | Ohm | Megaohm | Gigaohm
    | Hertz
    | Dimensionless

  /** The factor that converts a value in `u` to SI base units. */
  function ToSiFactor(u: Unit): (f: real)
    ensures f > 0.0
  {
    match u
    case Second => 1.0
    case Millisecond => 0.001
    case Microsecond => 0.000001
    case Volt => 1.0
    case Millivolt => 0.001
    case Ampere => 1.0
    case Nanoampere => 0.000000001
    case Picoampere => 0.000000000001
    case Siemens => 1.0
    case Nanosiemens => 0.000000001
    case Microsiemens => 0.000001
    case Farad => 1.0
    case Picofarad => 0.000000000001
    case Ohm => 1.0
    case Megaohm => 1000000.0
    case Gigaohm => 1000000000.0
    case Hertz => 1.0
    case Dimensionless => 1.0
  }

  /** The physical dimension a unit measures. */
  datatype Dimension = Time | Voltage | Current | Conductance | Capacitance | Resistance | Frequency | NoDimension

  /** The SI prefixes the units use, by their power of ten. */
  datatype Prefix = NoPrefix | Milli | Micro | Nano | Pico | Mega | Giga

  /** The dimension a unit measures; only Dimensionless measures none. */
  function DimensionOf(u: Unit): (d: Dimension)
    ensures d == NoDimension <==> u == Dimensionless
  {
    match u
    case Second | Millisecond | Microsecond => Time
    case Volt | Millivolt => Voltage
    case Ampere | Nanoampere | Picoampere => Current
    case Siemens | Nanosiemens | Microsiemens => Conductance
    case Farad | Picofarad => Capacitance
    case Ohm | Megaohm | Gigaohm => Resistance
    case Hertz => Frequency
    case Dimensionless => NoDimension
  }

  /** The SI prefix of a unit; exactly the unprefixed units convert with
      factor 1. */
  function PrefixOf(u: Unit): (p: Prefix)
    ensures p == NoPrefix <==> ToSiFactor(u) == 1.0
  {
    match u
    case Millisecond | Millivolt => Milli
    case Microsecond | Microsiemens => Micro
    case Nanoampere | Nanosiemens => Nano
    case Picoampere | Picofarad => Pico
    case Megaohm => Mega
    case Gigaohm => Giga
    case _ => NoPrefix
  }

  function Exponent(p: Prefix): int
  {
    match p
    case NoPrefix => 0
    case Milli => -3
    case Micro => -6
    case Nano => -9
    case Pico => -12
    case Mega => 6
    case Giga => 9
  }

  /** The SI base unit of a dimension. */
  function BaseUnit(d: Dimension): (u: Unit)
    ensures DimensionOf(u) == d && PrefixOf(u) == NoPrefix
  {
    match d
    case Time => Second
    case Voltage => Volt
    case Current => Ampere
    case Conductance => Siemens
    case Capacitance => Farad
    case Resistance => Ohm
    case Frequency => Hertz
    case NoDimension => Dimensionless
  }

  /** 10 to the power e. */
  function Pow10(e: int): real
    decreases if e < 0 then -e else e
  {
    if e == 0 then 1.0
    else if e > 0 then 10.0 * Pow10(e - 1)
    else Pow10(e + 1) / 10.0
  }

  /** Each conversion factor is the power of ten of the unit's SI prefix, so
      base units convert with factor 1. */
  lemma ToSiFactorIsPrefixPower(u: Unit)
    ensures ToSiFactor(u) == Pow10(Exponent(PrefixOf(u)))
    ensures PrefixOf(u) == NoPrefix ==> ToSiFactor(u) == 1.0
  {
    assert Pow10(-3) == 0.001;
    assert Pow10(-6) == 0.000001;
    assert Pow10(-9) == 0.000000001;
    assert Pow10(-12) == 0.000000000001;
    assert Pow10(6) == 1000000.0;
    assert Pow10(9) == 1000000000.0;
  }

  datatype Quantity = Quantity(value: real, unit: Unit) {

    /** The value in SI base units; the conversion keeps the sign. */
    function ToSi(): (r: real)
      ensures r > 0.0 <==> value > 0.0
      ensures r == 0.0 <==> value == 0.0
    {
      value * ToSiFactor(unit)
    }
  }

  /** Converting to SI and reading the number in the base unit of the same
      dimension gives the same SI value; the conversion is linear. */
  lemma ToSiInBaseUnit(q: Quantity, k: real)
    ensures Quantity(q.ToSi(), BaseUnit(DimensionOf(q.unit))).ToSi() == q.ToSi()
    ensures Quantity(k * q.value, q.unit).ToSi() == k * q.ToSi()
  {
    ToSiFactorIsPrefixPower(BaseUnit(DimensionOf(q.unit)));
  }

  // ---------------------------------------------------------------------------
  // Equations
  // ---------------------------------------------------------------------------

  datatype IntegrationMethod = Euler | ExponentialEuler | RungeKutta2 | RungeKutta4 | Heun | Milstein | ExactSolution

  datatype DifferentialEquation = DifferentialEquation(variable: string, expression: string, unit: Unit, integration: IntegrationMethod)

  datatype AlgebraicEquation = AlgebraicEquation(variable: string, expression: string, unit: Unit)

  datatype RefractorySpec = Duration(duration: Quantity) | Condition(condition: string)

  datatype NeuronEquations = NeuronEquations(
    differential: seq<DifferentialEquation>,
    algebraic: seq<AlgebraicEquation>,
    threshold: Option<string>,
    reset: Option<seq<string>>,
    refractory: Option<RefractorySpec>,
    parameters: map<string, Quantity>)

  /** The state variables of a set of differential equations. */
  function Variables(eqs: seq<DifferentialEquation>): set<string>
  {
    set k | 0 <= k < |eqs| :: eqs[k].variable
  }

  // ---------------------------------------------------------------------------
  // Neuron groups
  // ---------------------------------------------------------------------------

  function Zeros(n: nat): (r: seq<real>)
    ensures |r| == n && forall k :: 0 <= k < n ==> r[k] == 0.0
  {
    seq(n, _ => 0.0)
  }

  function NeverSpiked(n: nat): (r: seq<ExtReal>)
    ensures |r| == n && forall k :: 0 <= k < n ==> r[k] == NegInf
  {
    seq(n, _ => NegInf)
  }

  /** A group of `n` neurons sharing the same equations. */
  class NeuronGroup {
    var name: string
    var n: nat
    var equations: NeuronEquations
    var integration: IntegrationMethod
    var state: map<string, seq<real>>
    var lastSpike: seq<ExtReal>
    var refractoryUntil: seq<ExtReal>

    /** Every per-neuron array has one entry per neuron. */
    ghost predicate Valid()
      reads this
    {
      && (forall v :: v in state ==> |state[v]| == n)
      && |lastSpike| == n
      && |refractoryUntil| == n
    }

    /** One zero array per differential variable; no neuron has spiked. */
    constructor (name: string, n: nat, equations: NeuronEquations)
      ensures Valid()
      ensures this.name == name && this.n == n && this.equations == equations && integration == Euler
      ensures state.Keys == Variables(equations.differential)
      ensures forall v :: v in state ==> state[v] == Zeros(n)
      ensures lastSpike == NeverSpiked(n) && refractoryUntil == NeverSpiked(n)
    {
      var initial: map<string, seq<real>> := map[];
      var i := 0;
      while i < |equations.differential|
        invariant 0 <= i <= |equations.differential|
        invariant initial.Keys == Variables(equations.differential[..i])
        invariant forall v :: v in initial ==> initial[v] == Zeros(n)
      {
        assert Variables(equations.differential[..i + 1]) ==
               Variables(equations.differential[..i]) + {equations.differential[i].variable} by {
          assert forall k :: 0 <= k < i ==> equations.differential[..i + 1][k] == equations.differential[..i][k];
        }
        initial := initial[equations.differential[i].variable := Zeros(n)];
        i := i + 1;
      }
      assert equations.differential[..i] == equations.differential;
      this.name := name;
      this.n := n;
      this.equations := equations;
      integration := Euler;
      state := initial;
      lastSpike := NeverSpiked(n);
      refractoryUntil := NeverSpiked(n);
    }

    /** Replaces the values of `variable`, which must be a state variable
        and have one value per neuron; on failure nothing changes. */
    method SetInitial(variable: string, values: seq<real>) returns (r: Result<(), BrianError>)
      requires Valid()
      modifies this`state
      ensures Valid()
      ensures variable !in old(state) ==> r == Err(SimulationError(UnknownVariable(variable))) && state == old(state)
      ensures variable in old(state) && |values| != n ==>
                r == Err(SimulationError(WrongLength(n, |values|))) && state == old(state)
      ensures variable in old(state) && |values| == n ==> r == Ok(()) && state == old(state)[variable := values]
    {
      if variable in state {
        if |values| != n {
          return Err(SimulationError(WrongLength(n, |values|)));
        }
        state := state[variable := values];
        return Ok(());
      }
      return Err(SimulationError(UnknownVariable(variable)));
    }
  }

  // ---------------------------------------------------------------------------
  // Synapses
  // ---------------------------------------------------------------------------

  datatype SynapseModel =
    | Delta(weight: real)
    | Exponential(weight: real, tau: real)
    | Alpha(weight: real, tau: real)
    | DualExponential(weight: real, tauRise: real, tauDecay: real)
    | Nmda(weight: real, tauRise: real, tauDecay: real, mgConcentration: real)
    | Stp(weight: real, uSe: real, tauRec: real, tauFac: real)

  datatype StdpRule = StdpRule(tauPre: real, tauPost: real, aPlus: real, aMinus: real, wMax: real, wMin: real)

  /** A pair (source index, target index). */
  type Pair = (nat, nat)

  /** The pairs (i, 0), ..., (i, m-1). */
  function RowPairs(i: nat, m: nat): (r: seq<Pair>)
    ensures |r| == m
  {
    if m == 0 then [] else RowPairs(i, m - 1) + [(i, m - 1)]
  }

  /** All pairs of a source population of n and a target population of m,
      row-major. */
  function GridPairs(n: nat, m: nat): (r: seq<Pair>)
  {
    if n == 0 then [] else GridPairs(n - 1, m) + RowPairs(n - 1, m)
  }

  /** The grid has n * m pairs. */
  lemma {:induction false} GridPairsLength(n: nat, m: nat)
    ensures |GridPairs(n, m)| == n * m
  {
    if n > 0 {
      GridPairsLength(n - 1, m);
      assert (n - 1) * m + m == n * m;
    }
  }

  /** The pairs (0, 0), ..., (n-1, n-1). */
  function DiagonalPairs(n: nat): (r: seq<Pair>)
    ensures |r| == n
  {
    if n == 0 then [] else DiagonalPairs(n - 1) + [(n - 1, n - 1)]
  }

  /** k copies of x. */
  function Repeat<T>(x: T, k: nat): (r: seq<T>)
    ensures |r| == k
  {
    if k == 0 then [] else Repeat(x, k - 1) + [x]
  }

  lemma {:induction false} RepeatAdd<T>(x: T, a: nat, b: nat)
    ensures Repeat(x, a) + Repeat(x, b) == Repeat(x, a + b)
  {
    if b > 0 {
      RepeatAdd(x, a, b - 1);
      assert Repeat(x, a) + Repeat(x, b) == Repeat(x, a) + Repeat(x, b - 1) + [x];
    }
  }

  lemma AppendAssoc<T>(a: seq<T>, b: seq<T>, c: seq<T>)
    ensures (a + b) + c == a + (b + c)
  {
  }

  /** n rows of m copies of x, row by row. */
  function RepeatRows<T>(x: T, n: nat, m: nat): seq<T>
  {
    if n == 0 then [] else RepeatRows(x, n - 1, m) + Repeat(x, m)
  }

  /** n rows of m copies are n * m copies. */
  lemma {:induction false} RepeatRowsFlat<T>(x: T, n: nat, m: nat)
    ensures RepeatRows(x, n, m) == Repeat(x, n * m)
  {
    if n > 0 {
      RepeatRowsFlat(x, n - 1, m);
      RepeatAdd(x, (n - 1) * m, m);
      assert (n - 1) * m + m == n * m;
    }
  }

  lemma {:induction false} RowPairsAt(i: nat, m: nat, j: nat)
    requires j < m
    ensures RowPairs(i, m)[j] == (i, j)
  {
    if j < m - 1 {
      RowPairsAt(i, m - 1, j);
    }
  }

  /** Row-major order: pair (i, j) sits at position i*m + j. */
  lemma {:induction false} GridPairsAt(n: nat, m: nat, i: nat, j: nat)
    requires i < n && j < m
    ensures i * m + j < n * m == |GridPairs(n, m)|
    ensures GridPairs(n, m)[i * m + j] == (i, j)
  {
    RowBound(n, m, i, j);
    GridPairsLength(n, m);
    var k := i * m + j;
    var prefix := GridPairs(n - 1, m);
    GridPairsLength(n - 1, m);
    assert GridPairs(n, m) == prefix + RowPairs(n - 1, m);
    if i < n - 1 {
      RowBound(n - 1, m, i, j);
      GridPairsAt(n - 1, m, i, j);
      assert k < |prefix|;
    } else {
      assert k == |prefix| + j;
      RowPairsAt(i, m, j);
    }
  }

  /** Position i*m + j of row i lies inside an n-row grid. */
  lemma RowBound(n: nat, m: nat, i: nat, j: nat)
    requires i < n && j < m
    ensures i * m + j < n * m
  {
    assert (i + 1) * m <= n * m;
  }

  lemma {:induction false} DiagonalPairsAt(n: nat, i: nat)
    requires i < n
    ensures DiagonalPairs(n)[i] == (i, i)
  {
    if i < n - 1 {
      DiagonalPairsAt(n - 1, i);
    }
  }

  /** The connections from one neuron group to another, held as three
      parallel vectors. */
  class Synapses {
    var name: string
    var source: string
    var target: string
    var model: SynapseModel
    var plasticity: Option<StdpRule>
    var connections: seq<Pair>
    var weights: seq<real>
    var delays: seq<real>

    /** The three vectors stay in lockstep. */
    ghost predicate Valid()
      reads this
    {
      |connections| == |weights| == |delays|
    }

    constructor (name: string, source: string, target: string, model: SynapseModel)
      ensures Valid()
      ensures this.name == name && this.source == source && this.target == target && this.model == model
      ensures plasticity == None && connections == [] && weights == [] && delays == []
    {
      this.name := name;
      this.source := source;
      this.target := target;
      this.model := model;
      plasticity := None;
      connections := [];
      weights := [];
      delays := [];
    }

    /** Connects every source index to every target index, row-major. */
    method ConnectAllToAll(nSource: nat, nTarget: nat, weight: real, delay: real)
      requires Valid()
      modifies this`connections, this`weights, this`delays
      ensures Valid()
      ensures connections == old(connections) + GridPairs(nSource, nTarget)
      ensures weights == old(weights) + Repeat(weight, nSource * nTarget)
      ensures delays == old(delays) + Repeat(delay, nSource * nTarget)
    {
      var i := 0;
      while i < nSource
        invariant 0 <= i <= nSource
        invariant connections == old(connections) + GridPairs(i, nTarget)
        invariant weights == old(weights) + RepeatRows(weight, i, nTarget)
        invariant delays == old(delays) + RepeatRows(delay, i, nTarget)
      {
        ConnectRow(i, nTarget, weight, delay);
        AppendAssoc(old(connections), GridPairs(i, nTarget), RowPairs(i, nTarget));
        AppendAssoc(old(weights), RepeatRows(weight, i, nTarget), Repeat(weight, nTarget));
        AppendAssoc(old(delays), RepeatRows(delay, i, nTarget), Repeat(delay, nTarget));
        i := i + 1;
      }
      RepeatRowsFlat(weight, nSource, nTarget);
      RepeatRowsFlat(delay, nSource, nTarget);
      GridPairsLength(nSource, nTarget);
    }

    /** One row of `ConnectAllToAll`: source i to every target index. */
    method ConnectRow(i: nat, nTarget: nat, weight: real, delay: real)
      modifies this`connections, this`weights, this`delays
      ensures connections == old(connections) + RowPairs(i, nTarget)
      ensures weights == old(weights) + Repeat(weight, nTarget)
      ensures delays == old(delays) + Repeat(delay, nTarget)
    {
      var j := 0;
      while j < nTarget
        invariant 0 <= j <= nTarget
        invariant connections == old(connections) + RowPairs(i, j)
        invariant weights == old(weights) + Repeat(weight, j)
        invariant delays == old(delays) + Repeat(delay, j)
      {
        connections := connections + [(i, j)];
        weights := weights + [weight];
        delays := delays + [delay];
        j := j + 1;
      }
    }

    /** Connects index i to index i for every i below n. */
    method ConnectOneToOne(n: nat, weight: real, delay: real)
      requires Valid()
      modifies this`connections, this`weights, this`delays
      ensures Valid()
      ensures connections == old(connections) + DiagonalPairs(n)
      ensures weights == old(weights) + Repeat(weight, n)
      ensures delays == old(delays) + Repeat(delay, n)
    {
      var i := 0;
      while i < n
        invariant 0 <= i <= n
        invariant connections == old(connections) + DiagonalPairs(i)
        invariant weights == old(weights) + Repeat(weight, i)
        invariant delays == old(delays) + Repeat(delay, i)
      {
        connections := connections + [(i, i)];
        weights := weights + [weight];
        delays := delays + [delay];
        i := i + 1;
      }
    }
  }

  /** What the all-to-all and one-to-one builders append: n*m (resp. n)
      connections, each (i, j) at position i*m + j (resp. (i, i) at i), all
      with the same weight. */
  lemma ConnectionBuilders(n: nat, m: nat, w: real, i: nat, j: nat)
    requires i < n && j < m
    ensures |GridPairs(n, m)| == |Repeat(w, n * m)| == n * m
    ensures i * m + j < n * m && GridPairs(n, m)[i * m + j] == (i, j)
    ensures DiagonalPairs(n)[i] == (i, i)
    ensures forall k :: 0 <= k < n * m ==> Repeat(w, n * m)[k] == w
  {
    GridPairsLength(n, m);
    GridPairsAt(n, m, i, j);
    DiagonalPairsAt(n, i);
    RepeatAt(w, n * m);
  }

  lemma {:induction false} RepeatAt<T>(x: T, k: nat)
    ensures forall i :: 0 <= i < k ==> Repeat(x, k)[i] == x
  {
    if k > 0 {
      RepeatAt(x, k - 1);
    }
  }

  // ---------------------------------------------------------------------------
  // Input devices
  // ---------------------------------------------------------------------------

  /** Poisson spike sources with one rate (Hz) per neuron. */
  datatype PoissonGroup = PoissonGroup(name: string, n: nat, rates: seq<real>)

  function NewPoissonGroup(name: string, n: nat, rate: real): (g: PoissonGroup)
    ensures g.name == name && g.n == n == |g.rates|
    ensures forall k :: 0 <= k < n ==> g.rates[k] == rate
  {
    PoissonGroup(name, n, seq(n, _ => rate))
  }

  function NewHeterogeneousPoissonGroup(name: string, rates: seq<real>): (g: PoissonGroup)
    ensures g.n == |g.rates| && g.rates == rates
  {
    PoissonGroup(name, |rates|, rates)
  }

  /** A spike of neuron `index` at `time` (ms). */
  datatype Spike = Spike(index: nat, time: real)

  /** The spikes (indices[k], times[k]), as many as the shorter list holds. */
  function ZipSpikes(indices: seq<nat>, times: seq<real>): (r: seq<Spike>)
    ensures |r| == if |indices| < |times| then |indices| else |times|
    ensures forall k :: 0 <= k < |r| ==> r[k] == Spike(indices[k], times[k])
  {
    if indices == [] || times == [] then []
    else [Spike(indices[0], times[0])] + ZipSpikes(indices[1..], times[1..])
  }

  ghost predicate SortedByTime(s: seq<Spike>)
  {
    forall i, j :: 0 <= i < j < |s| ==> s[i].time <= s[j].time
  }

  /** Inserts x after every spike of `s` whose time is not later than x's. */
  function InsertByTime(x: Spike, s: seq<Spike>): seq<Spike>
  {
    if s == [] then [x]
    else if x.time < s[0].time then [x] + s
    else [s[0]] + InsertByTime(x, s[1..])
  }

  /** The stable sort by time: spikes with equal times keep their order. */
  function SortByTime(s: seq<Spike>): seq<Spike>
  {
    if s == [] then [] else InsertByTime(s[|s| - 1], SortByTime(s[..|s| - 1]))
  }

  /** The spikes of `s` at exactly time t, in order. */
  function AtTime(s: seq<Spike>, t: real): seq<Spike>
  {
    if s == [] then [] else (if s[0].time == t then [s[0]] else []) + AtTime(s[1..], t)
  }

  lemma {:induction false} InsertByTimeElements(x: Spike, s: seq<Spike>)
    ensures multiset(InsertByTime(x, s)) == multiset(s) + multiset{x}
    ensures |InsertByTime(x, s)| == |s| + 1
  {
    if s != [] && x.time >= s[0].time {
      InsertByTimeElements(x, s[1..]);
      assert s == [s[0]] + s[1..];
    }
  }

  lemma {:induction false} InsertByTimeSorted(x: Spike, s: seq<Spike>)
    requires SortedByTime(s)
    ensures SortedByTime(InsertByTime(x, s))
  {
    if s != [] && x.time >= s[0].time {
      var rest := s[1..];
      InsertByTimeSorted(x, rest);
      InsertByTimeBound(x, rest, s[0].time);
      SortedCons(s[0], InsertByTime(x, rest));
    }
  }

  /** Inserting keeps a lower bound on the times. */
  lemma InsertByTimeBound(x: Spike, s: seq<Spike>, lo: real)
    requires lo <= x.time && forall k :: 0 <= k < |s| ==> lo <= s[k].time
    ensures forall k :: 0 <= k < |InsertByTime(x, s)| ==> lo <= InsertByTime(x, s)[k].time
  {
    var r := InsertByTime(x, s);
    InsertByTimeElements(x, s);
    forall k | 0 <= k < |r|
      ensures lo <= r[k].time
    {
      assert r[k] in multiset(r);
      if r[k] != x {
        assert r[k] in multiset(s);
      }
    }
  }

  /** A spike no later than every spike of a sorted list can go in front. */
  lemma SortedCons(a: Spike, r: seq<Spike>)
    requires SortedByTime(r) && forall k :: 0 <= k < |r| ==> a.time <= r[k].time
    ensures SortedByTime([a] + r)
  {
    forall i, j | 0 <= i < j < |[a] + r|
      ensures ([a] + r)[i].time <= ([a] + r)[j].time
    {
      if i > 0 {
        assert ([a] + r)[i] == r[i - 1] && ([a] + r)[j] == r[j - 1];
      }
    }
  }

  /** Spikes at a time earlier than every time in a sorted list are not
      among its spikes at that time. */
  lemma {:induction false} AtTimeBelow(s: seq<Spike>, t: real)
    requires SortedByTime(s) && s != [] && t < s[0].time
    ensures AtTime(s, t) == []
  {
    if |s| > 1 {
      AtTimeBelow(s[1..], t);
    }
  }

  lemma {:induction false} InsertByTimeStable(x: Spike, s: seq<Spike>, t: real)
    requires SortedByTime(s)
    ensures AtTime(InsertByTime(x, s), t) == AtTime(s, t) + (if x.time == t then [x] else [])
  {
    var extra := if x.time == t then [x] else [];
    if s == [] {
    } else if x.time < s[0].time {
      assert ([x] + s)[1..] == s;
      assert AtTime([x] + s, t) == extra + AtTime(s, t);
      if x.time == t {
        AtTimeBelow(s, t);
      }
    } else {
      var head := if s[0].time == t then [s[0]] else [];
      var r := InsertByTime(x, s[1..]);
      SortedTail(s);
      InsertByTimeStable(x, s[1..], t);
      assert ([s[0]] + r)[1..] == r;
      assert AtTime([s[0]] + r, t) == head + AtTime(r, t);
      assert AtTime(s, t) == head + AtTime(s[1..], t);
      assert head + (AtTime(s[1..], t) + extra) == (head + AtTime(s[1..], t)) + extra;
    }
  }

  lemma SortedTail(s: seq<Spike>)
    requires SortedByTime(s) && s != []
    ensures SortedByTime(s[1..])
  {
    forall i, j | 0 <= i < j < |s| - 1
      ensures s[1..][i].time <= s[1..][j].time
    {
      assert s[1..][i] == s[i + 1] && s[1..][j] == s[j + 1];
    }
  }

  lemma {:induction false} AtTimeSnoc(s: seq<Spike>, x: Spike, t: real)
    ensures AtTime(s + [x], t) == AtTime(s, t) + (if x.time == t then [x] else [])
  {
    if s != [] {
      AtTimeSnoc(s[1..], x, t);
      assert (s + [x])[1..] == s[1..] + [x];
    }
  }

  /** The sort orders by time, permutes the spikes, and is stable: the
      spikes at any one time appear in their original order. */
  lemma {:induction false} SortByTimeCorrect(s: seq<Spike>)
    ensures SortedByTime(SortByTime(s))
    ensures multiset(SortByTime(s)) == multiset(s)
    ensures forall t :: AtTime(SortByTime(s), t) == AtTime(s, t)
  {
    if s != [] {
      var init, last := s[..|s| - 1], s[|s| - 1];
      SortByTimeCorrect(init);
      InsertByTimeSorted(last, SortByTime(init));
      InsertByTimeElements(last, SortByTime(init));
      assert s == init + [last];
      forall t
        ensures AtTime(SortByTime(s), t) == AtTime(s, t)
      {
        InsertByTimeStable(last, SortByTime(init), t);
        AtTimeSnoc(init, last, t);
      }
    }
  }

  /** A spike generator replaying predetermined spike times. */
  class SpikeGeneratorGroup {
    var name: string
    var n: nat
    var spikeTimes: seq<Spike>

    constructor (name: string, n: nat)
      ensures this.name == name && this.n == n && spikeTimes == []
    {
      this.name := name;
      this.n := n;
      spikeTimes := [];
    }

    /** Appends the pairs (indices[k], times[k]) and then sorts every spike
        by time with a stable sort. */
    method AddSpikes(indices: seq<nat>, times: seq<real>)
      modifies this`spikeTimes
      ensures spikeTimes == SortByTime(old(spikeTimes) + ZipSpikes(indices, times))
    {
      var k := 0;
      while k < |indices| && k < |times|
        invariant 0 <= k <= |indices| && k <= |times|
        invariant spikeTimes == old(spikeTimes) + ZipSpikes(indices, times)[..k]
      {
        spikeTimes := spikeTimes + [Spike(indices[k], times[k])];
        assert ZipSpikes(indices, times)[..k + 1] == ZipSpikes(indices, times)[..k] + [Spike(indices[k], times[k])];
        k := k + 1;
      }
      assert ZipSpikes(indices, times)[..k] == ZipSpikes(indices, times);
      spikeTimes := SortByTime(spikeTimes);
    }
  }

  // ---------------------------------------------------------------------------
  // Monitors
  // ---------------------------------------------------------------------------

  function ZeroCounts(n: nat): (r: seq<nat>)
    ensures |r| == n && forall k :: 0 <= k < n ==> r[k] == 0
  {
    seq(n, _ => 0)
  }

  /** The counts after a spike of `idx`: only an in-range index is counted. */
  function Bump(counts: seq<nat>, idx: nat): (r: seq<nat>)
    ensures |r| == |counts|
  {
    if idx < |counts| then counts[idx := counts[idx] + 1] else counts
  }

  /** The per-neuron spike counts of n neurons after the spikes `spikes`. */
  function CountsOf(spikes: seq<Spike>, n: nat): (r: seq<nat>)
    ensures |r| == n
  {
    if spikes == [] then ZeroCounts(n)
    else Bump(CountsOf(spikes[..|spikes| - 1], n), spikes[|spikes| - 1].index)
  }

  function Sum(s: seq<nat>): nat
  {
    if s == [] then 0 else s[0] + Sum(s[1..])
  }

  /** The number of spikes whose index is below n. */
  function InRange(spikes: seq<Spike>, n: nat): nat
  {
    if spikes == [] then 0
    else InRange(spikes[..|spikes| - 1], n) + (if spikes[|spikes| - 1].index < n then 1 else 0)
  }

  /** The spike times of neuron `idx`, in recording order. */
  function TrainOf(spikes: seq<Spike>, idx: nat): seq<real>
  {
    if spikes == [] then []
    else
      var last := spikes[|spikes| - 1];
      TrainOf(spikes[..|spikes| - 1], idx) + (if last.index == idx then [last.time] else [])
  }

  lemma {:induction false} SumBump(counts: seq<nat>, idx: nat)
    ensures Sum(Bump(counts, idx)) == Sum(counts) + (if idx < |counts| then 1 else 0)
  {
    if counts != [] && idx < |counts| {
      if idx == 0 {
        assert Bump(counts, idx)[1..] == counts[1..];
      } else {
        SumBump(counts[1..], idx - 1);
        assert Bump(counts, idx)[1..] == Bump(counts[1..], idx - 1);
      }
    }
  }

  lemma {:induction false} SumZeroCounts(n: nat)
    ensures Sum(ZeroCounts(n)) == 0
  {
    if n > 0 {
      SumZeroCounts(n - 1);
      assert ZeroCounts(n)[1..] == ZeroCounts(n - 1);
    }
  }

  /** The counts add up to the number of spikes from in-range neurons, and
      each count is the length of that neuron's spike train. */
  lemma {:induction false} CountsOfTotals(spikes: seq<Spike>, n: nat)
    ensures Sum(CountsOf(spikes, n)) == InRange(spikes, n)
    ensures forall i :: 0 <= i < n ==> CountsOf(spikes, n)[i] == |TrainOf(spikes, i)|
  {
    if spikes == [] {
      SumZeroCounts(n);
    } else {
      var init := spikes[..|spikes| - 1];
      CountsOfTotals(init, n);
      SumBump(CountsOf(init, n), spikes[|spikes| - 1].index);
    }
  }

  /** Records every spike and counts the spikes of each of n neurons. */
  class SpikeMonitor {
    var source: string
    var spikes: seq<Spike>
    var counts: seq<nat>

    /** The counts are those of the recorded spikes. */
    ghost predicate Valid()
      reads this
    {
      counts == CountsOf(spikes, |counts|)
    }

    constructor (source: string, n: nat)
      ensures Valid()
      ensures this.source == source && spikes == [] && counts == ZeroCounts(n)
    {
      this.source := source;
      spikes := [];
      counts := ZeroCounts(n);
    }

    /** Every spike is recorded; only an in-range index is counted. */
    method RecordSpike(idx: nat, time: real)
      requires Valid()
      modifies this`spikes, this`counts
      ensures Valid()
      ensures spikes == old(spikes) + [Spike(idx, time)]
      ensures counts == Bump(old(counts), idx)
    {
      spikes := spikes + [Spike(idx, time)];
      counts := Bump(counts, idx);
      assert spikes[..|spikes| - 1] == old(spikes);
    }

    /** The spike times grouped by neuron, each train in recording order. */
    method SpikeTrains() returns (trains: map<nat, seq<real>>)
      ensures forall i :: i in trains <==> exists k :: 0 <= k < |spikes| && spikes[k].index == i
      ensures forall i :: i in trains ==> trains[i] == TrainOf(spikes, i)
    {
      trains := map[];
      var k := 0;
      while k < |spikes|
        invariant 0 <= k <= |spikes|
        invariant forall i :: i in trains <==> exists m :: 0 <= m < k && spikes[m].index == i
        invariant forall i :: i in trains ==> trains[i] == TrainOf(spikes[..k], i)
        invariant forall i :: i !in trains ==> TrainOf(spikes[..k], i) == []
      {
        var s := spikes[k];
        assert spikes[..k + 1][..k] == spikes[..k];
        if s.index in trains {
          trains := trains[s.index := trains[s.index] + [s.time]];
        } else {
          trains := trains[s.index := [s.time]];
        }
        k := k + 1;
      }
      assert spikes[..k] == spikes;
    }

    /** The mean rate in Hz over `duration` ms; 0 without neurons or for a
        duration that is not positive. */
    function MeanRate(duration: real): (rate: real)
      reads this
      ensures rate >= 0.0
      ensures |counts| == 0 || duration <= 0.0 ==> rate == 0.0
      ensures |counts| > 0 && duration > 0.0 ==>
                rate * (|counts| as real) * duration == 1000.0 * (Sum(counts) as real)
    {
      if |counts| == 0 || duration <= 0.0 then 0.0
      else
        var n, d := |counts| as real, duration / 1000.0;
        var rate := (Sum(counts) as real) / n / d;
        assert rate * n * d == Sum(counts) as real;
        rate
    }
  }

  /** For a valid monitor the total count is the number of recorded spikes
      from in-range neurons, and each count is that neuron's train length. */
  lemma MonitorCounts(m: SpikeMonitor)
    requires m.Valid()
    ensures Sum(m.counts) == InRange(m.spikes, |m.counts|)
    ensures forall i :: 0 <= i < |m.counts| ==> m.counts[i] == |TrainOf(m.spikes, i)|
  {
    CountsOfTotals(m.spikes, |m.counts|);
  }

  /** The recorded times of one variable and one row of samples per
      recorded neuron. */
  datatype Trace = Trace(times: seq<real>, rows: seq<seq<real>>)

  /** A sample is taken when nothing is recorded yet or at least dt has
      passed since the last recorded time. */
  predicate Accepts(times: seq<real>, time: real, dt: real)
  {
    times == [] || time >= times[|times| - 1] + dt
  }

  /** Consecutive recorded times lie at least dt apart. */
  ghost predicate Spaced(times: seq<real>, dt: real)
  {
    forall i :: 0 <= i < |times| - 1 ==> times[i] + dt <= times[i + 1]
  }

  /** Row i grows by values[indices[i]] when that index is in range. */
  function AppendSamples(rows: seq<seq<real>>, indices: seq<nat>, values: seq<real>): seq<seq<real>>
    requires |rows| == |indices|
  {
    seq(|rows|, i requires 0 <= i < |rows| =>
      if indices[i] < |values| then rows[i] + [values[indices[i]]] else rows[i])
  }

  /** Recording keeps one row per recorded neuron, adds a sample exactly to
      the rows of in-range neurons, and keeps the spacing of the times. */
  lemma RecordKeepsShape(trace: Trace, indices: seq<nat>, values: seq<real>, time: real, dt: real)
    requires |trace.rows| == |indices| && Spaced(trace.times, dt)
    requires Accepts(trace.times, time, dt)
    ensures |AppendSamples(trace.rows, indices, values)| == |indices|
    ensures forall i :: 0 <= i < |indices| ==>
              |AppendSamples(trace.rows, indices, values)[i]| == |trace.rows[i]| + (if indices[i] < |values| then 1 else 0)
    ensures Spaced(trace.times + [time], dt)
  {
  }

  class StateMonitor {
    var source: string
    var variables: seq<string>
    var recordIndices: seq<nat>
    var dt: real
    var data: map<string, Trace>

    /** One row per recorded neuron and recorded times at least dt apart. */
    ghost predicate Valid()
      reads this
    {
      forall v :: v in data ==> |data[v].rows| == |recordIndices| && Spaced(data[v].times, dt)
    }

    constructor (source: string, variables: seq<string>, indices: seq<nat>, dt: real)
      ensures Valid()
      ensures this.source == source && this.variables == variables && recordIndices == indices && this.dt == dt
      ensures forall v :: v in data <==> v in variables
      ensures forall v :: v in data ==> data[v] == Trace([], seq(|indices|, _ => []))
    {
      var initial: map<string, Trace> := map[];
      var i := 0;
      while i < |variables|
        invariant 0 <= i <= |variables|
        invariant forall v :: v in initial <==> v in variables[..i]
        invariant forall v :: v in initial ==> initial[v] == Trace([], seq(|indices|, _ => []))
      {
        assert variables[..i + 1] == variables[..i] + [variables[i]];
        initial := initial[variables[i] := Trace([], seq(|indices|, _ => []))];
        i := i + 1;
      }
      assert variables[..i] == variables;
      this.source := source;
      this.variables := variables;
      recordIndices := indices;
      this.dt := dt;
      data := initial;
    }

    /** Records `values` at `time` for a registered variable when the gate
        accepts the time; otherwise nothing changes. */
    method Record(variable: string, time: real, values: seq<real>)
      requires Valid()
      modifies this`data
      ensures Valid()
      ensures variable !in old(data) ==> data == old(data)
      ensures variable in old(data) && !Accepts(old(data)[variable].times, time, dt) ==> data == old(data)
      ensures variable in old(data) && Accepts(old(data)[variable].times, time, dt) ==>
                data == old(data)[variable := Trace(old(data)[variable].times + [time],
                                                    AppendSamples(old(data)[variable].rows, recordIndices, values))]
    {
      if variable in data {
        var trace := data[variable];
        if trace.times == [] || time >= trace.times[|trace.times| - 1] + dt {
          var rows := trace.rows;
          var i := 0;
          while i < |recordIndices|
            invariant 0 <= i <= |recordIndices| && |rows| == |recordIndices|
            invariant forall k :: 0 <= k < i ==> rows[k] == AppendSamples(trace.rows, recordIndices, values)[k]
            invariant forall k :: i <= k < |rows| ==> rows[k] == trace.rows[k]
          {
            var idx := recordIndices[i];
            if idx < |values| {
              rows := rows[i := rows[i] + [values[idx]]];
            }
            i := i + 1;
          }
          assert rows == AppendSamples(trace.rows, recordIndices, values);
          RecordKeepsShape(trace, recordIndices, values, time, dt);
          data := data[variable := Trace(trace.times + [time], rows)];
        }
      }
    }
  }

  // ---------------------------------------------------------------------------
  // Network
  // ---------------------------------------------------------------------------

  /** The largest value of the 64-bit `usize` a step count is cast to. */
  const UsizeMax: nat := 0xFFFF_FFFF_FFFF_FFFF

  /** The number of steps `run` takes: ceil(duration / dt) through the
      saturating float-to-`usize` cast, so that a quotient that is not
      positive (or NaN, for 0 / 0) gives 0 and an infinite or too large one
      gives `UsizeMax`. */
  function StepCount(duration: real, dt: real): (n: nat)
    ensures n <= UsizeMax
    ensures dt == 0.0 ==> (n == UsizeMax <==> duration > 0.0) && (n == 0 <==> duration <= 0.0)
    ensures dt != 0.0 && duration / dt <= 0.0 ==> n == 0
    ensures dt != 0.0 && 0.0 < duration / dt <= UsizeMax as real ==>
              (n as real) >= duration / dt > (n as real) - 1.0
  {
    if dt == 0.0 then
      (if duration > 0.0 then UsizeMax else 0)
    else
      var q := duration / dt;
      if q <= 0.0 then 0
      else
        var c := -((-q).Floor);
        if c >= UsizeMax then UsizeMax else c
  }

  class Network {
    var neuronGroups: map<string, NeuronGroup>
    var synapses: map<string, Synapses>
    var poissonGroups: map<string, PoissonGroup>
    var spikeGenerators: map<string, SpikeGeneratorGroup>
    var spikeMonitors: map<string, SpikeMonitor>
    var stateMonitors: map<string, StateMonitor>
    var dt: real
    var t: real

    constructor (dt: real)
      ensures this.dt == dt && t == 0.0
      ensures neuronGroups == map[] && synapses == map[] && poissonGroups == map[]
      ensures spikeGenerators == map[] && spikeMonitors == map[] && stateMonitors == map[]
    {
      this.dt := dt;
      t := 0.0;
      neuronGroups := map[];
      synapses := map[];
      poissonGroups := map[];
      spikeGenerators := map[];
      spikeMonitors := map[];
      stateMonitors := map[];
    }

    /** Registers a group under its name, replacing any group of that name. */
    method AddNeuronGroup(group: NeuronGroup)
      modifies this`neuronGroups
      ensures neuronGroups == old(neuronGroups)[group.name := group]
    {
      neuronGroups := neuronGroups[group.name := group];
    }

    method AddSynapses(syn: Synapses)
      modifies this`synapses
      ensures synapses == old(synapses)[syn.name := syn]
    {
      synapses := synapses[syn.name := syn];
    }

    method AddPoissonGroup(group: PoissonGroup)
      modifies this`poissonGroups
      ensures poissonGroups == old(poissonGroups)[group.name := group]
    {
      poissonGroups := poissonGroups[group.name := group];
    }

    /** A spike monitor is registered under the name of its source. */
    method AddSpikeMonitor(monitor: SpikeMonitor)
      modifies this`spikeMonitors
      ensures spikeMonitors == old(spikeMonitors)[monitor.source := monitor]
    {
      spikeMonitors := spikeMonitors[monitor.source := monitor];
    }

    /** A state monitor is registered under its source's name followed by
        "_state", so it never clashes with a spike monitor key of the same
        source. */
    method AddStateMonitor(monitor: StateMonitor)
      modifies this`stateMonitors
      ensures stateMonitors == old(stateMonitors)[monitor.source + "_state" := monitor]
      ensures monitor.source + "_state" != monitor.source
    {
      stateMonitors := stateMonitors[monitor.source + "_state" := monitor];
    }

    /** One time step; the integration of the groups is not implemented. */
    method Step() returns (r: Result<(), BrianError>)
      modifies this`t
      ensures r == Ok(()) && t == old(t) + dt
    {
      t := t + dt;
      return Ok(());
    }

    /** ceil(duration / dt) steps of dt each. */
    method Run(duration: real) returns (r: Result<(), BrianError>)
      modifies this`t
      ensures r == Ok(())
      ensures t == old(t) + (StepCount(duration, dt) as real) * dt
    {
      var steps := StepCount(duration, dt);
      var k := 0;
      while k < steps
        invariant 0 <= k <= steps
        invariant t == old(t) + (k as real) * dt
      {
        var _ := Step();
        k := k + 1;
      }
      return Ok(());
    }
  }
}
