# Oldies: a Dafny model of the simulator crates

This project models the bookkeeping core of the Oldies workspace, a Rust
re-implementation of six classic neural and biochemical simulators. Each
crate becomes one Dafny module:

- `Wrappers` (`wrappers.dfy`): Rust's `Option` and `Result`, plus `ExtReal`,
  a real that may be minus infinity (the "never spiked" value).
- `OldiesCore` (`oldies_core.dfy`): the shared error kinds, the `TimeSeries`
  recording buffer and the gating-rate functions of ion channels.
- `Nest` (`nest.dfy`): the NEST kernel. It covers node-id allocation in
  `create`, the connection rules, node status get/set, `NodeCollection`
  slicing, spike-detector records and the mean firing rate. The process-wide
  kernel singleton of the original is an explicit `Kernel` object.
- `Brian` (`brian.dfy`): the Brian data structures. It covers units and SI
  conversion, neuron groups, synapse builders that keep three parallel
  vectors in step, spike generators (append, then a stable sort by time),
  spike and state monitors, and the network clock.
- `BrianParse` (`brian_parse.dfy`): the line-oriented Brian equation parser.
  `ParseEquations` and `EquationsOf` read a derivative's variable as the
  source does, stripping every leading 'd'. `CorrectedEquationsOf` strips the
  one 'd' of the derivative (see "## Findings").
- `Copasi` (`copasi.dfy`): the append-only SBML model and its first-match
  lookups. It covers the stoichiometry matrix built in nested loops, reaction
  rates, the clamped Euler step and the sampling loop of `run`.
- `Neuron` (`neuron.dfy`): NEURON cells. It covers sections and their
  segments, `access`/`current`, the parent/child topology built by `connect`,
  segment counting, and the simulation clock with `finitialize`.
- `Xppaut` (`xppaut.dfy`): the XPP model's ordered parameter list and the
  classification of a fixed point from its eigenvalues. It also covers the
  Lorenz and FitzHugh-Nagumo example models and the Lorenz vector field.
- `Genesis` (`genesis.dfy`): the GENESIS element graph. It covers elements
  by path, their parameters, the messages between them, the step counter and
  the standard compartment and channel objects.

Structs whose methods update fields in place are Dafny classes with `modifies`
clauses. Vectors they push to are `seq` fields, hash maps are `map` fields,
and the stoichiometry matrix is an `array2`. Pure helpers are functions, and
what the source promises about them is proved as lemmas. `f64` is modelled as
`real`. Where the source calls an exponential, a power or π, the model takes
that function as a parameter. The same goes for the hash-derived draw of the
pairwise-Bernoulli rule.

## Model

| member | source | states |
|---|---|---|
| OldiesCore.TimeSeries.constructor | crates/oldies-core/src/lib.rs:88-95 | a new series is empty, carries the given name and has no units |
| OldiesCore.TimeSeries.Push | crates/oldies-core/src/lib.rs:97-100 | appends t to the times and v to the values together, so both stay the same length; the length grows by exactly one and the name and units are kept |
| OldiesCore.TimeSeries.Len | crates/oldies-core/src/lib.rs:102-104 | the length counted on the time vector equals the number of values |
| OldiesCore.TimeSeries.IsEmpty | crates/oldies-core/src/lib.rs:106-108 | empty exactly when the length is 0, i.e. when no value is stored |
| OldiesCore.Eval | crates/oldies-core/src/lib.rs:195-217 | a constant gives its value and a linear rate a*(V+B); Exponential, Sigmoid and Hodgkin-Huxley have no value for a zero C; Hodgkin-Huxley gives a*c inside the small window and otherwise the r with r*(exp(x)-1) = a*(V+B), undefined exactly when exp(x) = 1; the sigmoid gives the r with r*(1+exp(x)) = a; the exponential's value is a*exp(x) |
| OldiesCore.HodgkinHuxleyRate | crates/oldies-core/src/lib.rs:197-205 | no value exactly for a zero C or, outside the window \|x\| < 1e-6, for exp(x) = 1; a*c inside the window; otherwise r*(exp(x)-1) = a*(V+B) |
| OldiesCore.SigmoidRate | crates/oldies-core/src/lib.rs:209-211 | no value exactly for a zero C or 1+exp(x) = 0; otherwise r*(1+exp(x)) = a |
| OldiesCore.ConstantRateIgnoresVoltage | crates/oldies-core/src/lib.rs:215 | a constant rate has the same value at every voltage |
| OldiesCore.LinearRateRootAndSlope | crates/oldies-core/src/lib.rs:212-214 | a linear rate grows by a*dV when V grows by dV, and for a non-zero A it vanishes exactly at V = -B |
| OldiesCore.HodgkinHuxleySmallBranch | crates/oldies-core/src/lib.rs:197-201 | whenever \|V+B\| < 1e-6*\|C\|, the Hodgkin-Huxley rate is the L'Hopital limit a*c, whatever the voltage in that window |
| OldiesCore.HodgkinHuxleyPositive | crates/oldies-core/src/lib.rs:197-205 | with positive A and C and V+B below the window, the rate is defined and positive (the situation of the source's rate test) |
| Nest.NodeCollection.IsEmpty | crates/nest-rs/src/lib.rs:60-62 | a collection is empty exactly when its length is 0 |
| Nest.NodeCollection.First | crates/nest-rs/src/lib.rs:64-66 | the first id, present exactly when the collection is non-empty |
| Nest.NodeCollection.Last | crates/nest-rs/src/lib.rs:68-70 | the last id, present exactly when the collection is non-empty |
| Nest.NodeCollection.Slice | crates/nest-rs/src/lib.rs:73-75 | slice(start, end) holds end-start ids, the k-th being ids[start+k] |
| Nest.SliceConcat | crates/nest-rs/src/lib.rs:73-75 | adjacent slices concatenate to the slice spanning both, and the full slice is the collection itself |
| Nest.IdRange | crates/nest-rs/src/lib.rs:771-773 | n consecutive ids hold n entries |
| Nest.IdRangeAt | crates/nest-rs/src/lib.rs:771-773 | the k-th id handed out is start+k |
| Nest.IdRangeSnoc | crates/nest-rs/src/lib.rs:771-818 | one more loop iteration appends the next id |
| Nest.IdRangeFresh | crates/nest-rs/src/lib.rs:771-773 | ids handed out from the counter on are not in use, given every existing id lies below the counter |
| Nest.SpikeDetectorName | crates/nest-rs/src/lib.rs:823-841 | ModelName gives "spike_detector" exactly to the spike detector |
| Nest.NewNode | crates/nest-rs/src/lib.rs:778-816 | a new node carries its id and the model's name, has never spiked, is not refractory, and holds the model's initial state |
| Nest.NewNodePotential | crates/nest-rs/src/lib.rs:778-811 | V_m starts at E_L for the iaf/aeif/hh models and at c (with U_m = b*c) for Izhikevich; the other models default to -70 |
| Nest.InitialState | crates/nest-rs/src/lib.rs:778-801 | V_m is set exactly for the iaf_psc_alpha, iaf_psc_exp, iaf_cond_alpha, aeif_cond_alpha, hh_psc_alpha and izhikevich models, to E_L or, for Izhikevich, to c with U_m = b*c; aeif adds w = 0 and hh adds n, m and h; every other model starts with no state variables |
| Nest.NewNodes | crates/nest-rs/src/lib.rs:771-818 | the nodes created hold exactly the ids start..start+n-1, each as NewNode |
| Nest.NewNodesSnoc | crates/nest-rs/src/lib.rs:771-818 | one more iteration adds exactly the node of the next id |
| Nest.SampleWeight | crates/nest-rs/src/lib.rs:936-946 | a constant gives w; a uniform gives the midpoint, equidistant from min and max; a normal gives its mean; a log-normal gives exp(mu) |
| Nest.SampleDelay | crates/nest-rs/src/lib.rs:948-954 | a constant gives d; a uniform gives the midpoint, inside [min, max] when min <= max; a normal gives its mean |
| Nest.RowMembers | crates/nest-rs/src/lib.rs:857-870 | the row of one source holds exactly the admitted targets, with the shared weight, delay and model |
| Nest.GridMembers | crates/nest-rs/src/lib.rs:852-872 | a connection is made exactly when its (source, target) pair is admitted |
| Nest.GridSize | crates/nest-rs/src/lib.rs:852-872 | with every pair admitted there are \|sources\|*\|targets\| connections |
| Nest.RowSize | crates/nest-rs/src/lib.rs:857-870 | with every pair admitted a row holds one connection per target |
| Nest.GridSplit | crates/nest-rs/src/lib.rs:852-872 | connections come in source-major order: the grid of a split source list is the two grids in order |
| Nest.ZipPairs | crates/nest-rs/src/lib.rs:874-894 | one-to-one makes \|sources\| connections, the k-th from the k-th source to the k-th target |
| Nest.AllToAllConnections | crates/nest-rs/src/lib.rs:852-872 | PlannedConnections for all-to-all succeeds and connects every source to every target, skipping self-pairs unless autapses are allowed, with the sampled weight and delay; with autapses there are n*m connections |
| Nest.OneToOneAndOtherRules | crates/nest-rs/src/lib.rs:874-933 | PlannedConnections for one-to-one fails on unequal sizes and otherwise pairs position k with position k; the fixed-degree, fixed-total and symmetric rules connect nothing and succeed |
| Nest.StatusList | crates/nest-rs/src/lib.rs:977-991 | at most one status per listed id |
| Nest.StatusListShape | crates/nest-rs/src/lib.rs:977-991 | every status carries V_m and t_spike; when every id exists the k-th status is that of the k-th id; when none exists the list is empty |
| Nest.ApplyStatus | crates/nest-rs/src/lib.rs:994-1010 | set_status keeps the id, model, last spike and refractory time of a node |
| Nest.ApplyNoKeys | crates/nest-rs/src/lib.rs:999-1006 | writing no entry leaves the node unchanged |
| Nest.ApplyKeysStep | crates/nest-rs/src/lib.rs:999-1006 | writing key V_m sets the membrane potential; any other key is inserted into the state variables |
| Nest.ApplyStatusIdempotent | crates/nest-rs/src/lib.rs:994-1010 | setting the same status twice is the same as setting it once |
| Nest.StatusAfterSet | crates/nest-rs/src/lib.rs:977-1010 | after set_status, get_status reports each written key with its written value (except t_spike, which get_status overwrites) |
| Nest.UpdateNode | crates/nest-rs/src/lib.rs:999-1006 | the parameter loop over one node computes exactly the node set_status describes, whatever the key order |
| Nest.TrainLengths | crates/nest-rs/src/lib.rs:636-642 | a sender's train holds one time per event it sent, and every such time |
| Nest.TrainOfSnoc | crates/nest-rs/src/lib.rs:626-642 | recording one more event extends only that sender's train, by its time |
| Nest.SpikeData.constructor | crates/nest-rs/src/lib.rs:619-624 | a new record has no events |
| Nest.SpikeData.Copy | crates/nest-rs/src/lib.rs:971-974 | a copy holds the same times and senders as the record it copies |
| Nest.SpikeData.Record | crates/nest-rs/src/lib.rs:626-629 | appends the time and the sender together; the number of events grows by one |
| Nest.SpikeData.NEvents | crates/nest-rs/src/lib.rs:631-633 | the number of events equals the number of senders |
| Nest.SpikeData.SpikeTrains | crates/nest-rs/src/lib.rs:636-642 | one train per sender that occurs, holding its times in recording order |
| Nest.TrainsStep | crates/nest-rs/src/lib.rs:638-641 | one more loop iteration adds the event's time to its sender's train only |
| Nest.MeanFiringRate | crates/nest-rs/src/lib.rs:1076-1081 | 0 without neurons or with a non-positive duration; otherwise rate * neurons * duration = 1000 * events, so the rate is non-negative |
| Nest.UpdateKeepsInvariant | crates/nest-rs/src/lib.rs:1000-1006 | updating a node in place keeps every node under its own id below the counter |
| Nest.SetStatusStep | crates/nest-rs/src/lib.rs:997-1007 | updating one more node keeps the progress of set_status: updated nodes hold ApplyStatus of their original, the rest are untouched |
| Nest.CreatedInit | crates/nest-rs/src/lib.rs:765-770 | before the first iteration of create nothing has been added |
| Nest.CreatedStep | crates/nest-rs/src/lib.rs:771-818 | one iteration adds the next id's node (and an empty record for a spike detector) and keeps the progress invariant |
| Nest.Kernel.constructor | crates/nest-rs/src/lib.rs:699-708 | a new kernel holds the parameters, time 0, next id 1 and no nodes, connections or records |
| Nest.Kernel.Reset | crates/nest-rs/src/lib.rs:711-717 | reset keeps the parameters and clears time, counter, nodes, connections and records |
| Nest.Kernel.SetParams | crates/nest-rs/src/lib.rs:720-722 | replaces the parameters |
| Nest.Kernel.AddNode | crates/nest-rs/src/lib.rs:771-816 | one iteration of create: the next id, not yet in use, gets its new node; a spike detector also gets a fresh empty record; the counter advances by one |
| Nest.Kernel.AddNext | crates/nest-rs/src/lib.rs:771-818 | one iteration of create advances the progress invariant and pushes the next id |
| Nest.Kernel.Create | crates/nest-rs/src/lib.rs:765-821 | returns the n consecutive ids from the old counter, all previously unused; the counter advances by n; the nodes are the old ones plus NewNodes; records exist for exactly the new spike detectors and are empty |
| Nest.Kernel.AddNodes | crates/nest-rs/src/lib.rs:771-818 | the loop of create: n iterations reach the progress invariant for n and collect the n ids |
| Nest.Kernel.AppendGrid | crates/nest-rs/src/lib.rs:852-872 | the nested loops append exactly the grid of admitted pairs in source-major order |
| Nest.Kernel.AppendRow | crates/nest-rs/src/lib.rs:857-870 | the inner loop appends the admitted targets of one source in order |
| Nest.Kernel.Connect | crates/nest-rs/src/lib.rs:844-934 | on error (one-to-one with unequal sizes) nothing is appended; otherwise exactly the planned connections are appended |
| Nest.Kernel.GetStatus | crates/nest-rs/src/lib.rs:977-991 | one status per listed id that exists, in list order |
| Nest.Kernel.SetStatus | crates/nest-rs/src/lib.rs:994-1010 | always Ok; every listed existing node becomes ApplyStatus of itself, unknown ids are skipped and the other nodes are untouched |
| Nest.Kernel.SetOne | crates/nest-rs/src/lib.rs:997-1007 | one iteration of set_status keeps its progress invariant |
| Nest.Kernel.GetSpikeData | crates/nest-rs/src/lib.rs:971-974 | a copy of the detector's record exactly when it has one |
| Brian.ToSiFactor | crates/brian-rs/src/lib.rs:77-98 | every conversion factor is positive |
| Brian.BaseUnit | crates/brian-rs/src/lib.rs:77-98 | the base unit of a dimension measures it without a prefix |
| Brian.DimensionOf | crates/brian-rs/src/lib.rs:38-72 | only Dimensionless measures no dimension |
| Brian.PrefixOf | crates/brian-rs/src/lib.rs:38-98 | a unit has no SI prefix exactly when its conversion factor is 1 |
| Brian.ToSiFactorIsPrefixPower | crates/brian-rs/src/lib.rs:77-98 | each factor is ten to the power of the unit's SI prefix, so the base units have factor 1 |
| Brian.Quantity.ToSi | crates/brian-rs/src/lib.rs:114-116 | conversion keeps the sign and zero |
| Brian.ToSiInBaseUnit | crates/brian-rs/src/lib.rs:109-116 | a converted value read in the base unit converts to itself, and conversion is linear in the value |
| Brian.Zeros | crates/brian-rs/src/lib.rs:474-478 | n zeros |
| Brian.NeverSpiked | crates/brian-rs/src/lib.rs:479-485 | n minus infinities |
| Brian.NeuronGroup.constructor | crates/brian-rs/src/lib.rs:469-486 | one zero array of length n per differential variable, and no neuron has spiked or is refractory |
| Brian.NeuronGroup.SetInitial | crates/brian-rs/src/lib.rs:488-502 | an unknown variable or a length other than n is an error that leaves the state unchanged; otherwise the variable's array is replaced |
| Brian.RowPairs | crates/brian-rs/src/lib.rs:542-546 | one row has one pair per target |
| Brian.GridPairsLength | crates/brian-rs/src/lib.rs:540-548 | all-to-all pairs n_source*n_target |
| Brian.DiagonalPairs | crates/brian-rs/src/lib.rs:572-578 | one pair per index |
| Brian.Repeat | crates/brian-rs/src/lib.rs:540-578 | k copies |
| Brian.RepeatAdd | crates/brian-rs/src/lib.rs:540-548 | a copies then b copies are a+b copies |
| Brian.RepeatRowsFlat | crates/brian-rs/src/lib.rs:540-548 | n rows of m copies are n*m copies |
| Brian.RowPairsAt | crates/brian-rs/src/lib.rs:542-546 | position j of row i is (i, j) |
| Brian.GridPairsAt | crates/brian-rs/src/lib.rs:540-548 | row-major order: pair (i, j) sits at position i*m+j |
| Brian.DiagonalPairsAt | crates/brian-rs/src/lib.rs:572-578 | position i of the one-to-one pairs is (i, i) |
| Brian.Synapses.constructor | crates/brian-rs/src/lib.rs:526-537 | no plasticity and three empty vectors |
| Brian.Synapses.ConnectAllToAll | crates/brian-rs/src/lib.rs:540-548 | appends every pair in row-major order, and the weight and delay once per pair, keeping the three vectors in step |
| Brian.Synapses.ConnectRow | crates/brian-rs/src/lib.rs:542-546 | the inner loop appends row i with one weight and one delay per target |
| Brian.Synapses.ConnectOneToOne | crates/brian-rs/src/lib.rs:572-578 | appends exactly the pairs (i, i), each with the weight and the delay |
| Brian.ConnectionBuilders | crates/brian-rs/src/lib.rs:540-578 | n*m pairs with n*m equal weights, (i, j) at i*m+j, and (i, i) at position i of the one-to-one pairs |
| Brian.RepeatAt | crates/brian-rs/src/lib.rs:540-578 | every copy is the value |
| Brian.NewPoissonGroup | crates/brian-rs/src/lib.rs:594-600 | n neurons, each with the given rate |
| Brian.NewHeterogeneousPoissonGroup | crates/brian-rs/src/lib.rs:602-609 | one neuron per given rate |
| Brian.ZipSpikes | crates/brian-rs/src/lib.rs:631-633 | as many spikes as the shorter list, pairing the k-th index with the k-th time |
| Brian.InsertByTimeElements | crates/brian-rs/src/lib.rs:635 | InsertByTime adds exactly the one spike |
| Brian.InsertByTimeSorted | crates/brian-rs/src/lib.rs:635 | InsertByTime keeps a time-sorted list sorted |
| Brian.InsertByTimeBound | crates/brian-rs/src/lib.rs:635 | inserting keeps a lower bound on the times |
| Brian.SortedCons | crates/brian-rs/src/lib.rs:635 | a spike no later than a sorted list goes in front of it |
| Brian.AtTimeBelow | crates/brian-rs/src/lib.rs:635 | no spike of a sorted list lies before its first time |
| Brian.InsertByTimeStable | crates/brian-rs/src/lib.rs:635 | InsertByTime puts the new spike after every spike of the same time |
| Brian.SortedTail | crates/brian-rs/src/lib.rs:635 | the tail of a sorted list is sorted |
| Brian.AtTimeSnoc | crates/brian-rs/src/lib.rs:635 | a spike appended at time t comes last among the spikes at t |
| Brian.SortByTimeCorrect | crates/brian-rs/src/lib.rs:635 | SortByTime orders by time, permutes the spikes and is stable: spikes of equal time keep their order |
| Brian.SpikeGeneratorGroup.constructor | crates/brian-rs/src/lib.rs:622-628 | no spikes yet |
| Brian.SpikeGeneratorGroup.AddSpikes | crates/brian-rs/src/lib.rs:630-636 | the spikes become the stable time-sort of the old spikes followed by the zipped pairs |
| Brian.ZeroCounts | crates/brian-rs/src/lib.rs:662-668 | n zero counts |
| Brian.Bump | crates/brian-rs/src/lib.rs:672-674 | counting keeps the number of neurons |
| Brian.CountsOf | crates/brian-rs/src/lib.rs:670-675 | one count per neuron |
| Brian.SumBump | crates/brian-rs/src/lib.rs:670-675 | a spike raises the total count by one exactly when its index is in range |
| Brian.SumZeroCounts | crates/brian-rs/src/lib.rs:662-668 | fresh counts total 0 |
| Brian.CountsOfTotals | crates/brian-rs/src/lib.rs:670-684 | the counts total the in-range spikes, and each count is the length of that neuron's train |
| Brian.SpikeMonitor.constructor | crates/brian-rs/src/lib.rs:662-668 | no spikes and n zero counts |
| Brian.SpikeMonitor.RecordSpike | crates/brian-rs/src/lib.rs:670-675 | every spike is appended, but only an in-range index is counted; counts stay those of the spikes |
| Brian.SpikeMonitor.SpikeTrains | crates/brian-rs/src/lib.rs:678-684 | one train per neuron that spiked, with its times in recording order |
| Brian.SpikeMonitor.MeanRate | crates/brian-rs/src/lib.rs:687-693 | 0 without neurons or for a non-positive duration, otherwise the total count per neuron per second, never negative |
| Brian.MonitorCounts | crates/brian-rs/src/lib.rs:670-693 | a monitor's total count is its number of in-range spikes, and each count is that neuron's train length |
| Brian.RecordKeepsShape | crates/brian-rs/src/lib.rs:723-734 | a record keeps one row per recorded neuron, grows row i by its value only for an in-range index, and keeps the times dt apart |
| Brian.StateMonitor.constructor | crates/brian-rs/src/lib.rs:708-721 | one empty trace with one empty row per recorded neuron, for exactly the given variables |
| Brian.StateMonitor.Record | crates/brian-rs/src/lib.rs:723-734 | an unregistered variable or a time less than dt after the last one changes nothing; otherwise the time and the in-range values are appended |
| Brian.StepCount | crates/brian-rs/src/lib.rs:802-803 | the ceiling of duration/dt through the saturating cast: at most usize::MAX; 0 for a non-positive quotient; the least whole number of steps covering the duration otherwise; with dt = 0, usize::MAX for a positive duration and 0 for the rest |
| Brian.Network.constructor | crates/brian-rs/src/lib.rs:764-775 | time 0 and every registry empty |
| Brian.Network.AddNeuronGroup | crates/brian-rs/src/lib.rs:777-779 | registers the group under its name, replacing any of that name |
| Brian.Network.AddSynapses | crates/brian-rs/src/lib.rs:781-783 | registers the synapses under their name |
| Brian.Network.AddPoissonGroup | crates/brian-rs/src/lib.rs:785-787 | registers the group under its name |
| Brian.Network.AddSpikeMonitor | crates/brian-rs/src/lib.rs:789-791 | registers the monitor under its source's name |
| Brian.Network.AddStateMonitor | crates/brian-rs/src/lib.rs:793-798 | registers the monitor under its source's name plus "_state", a key distinct from the spike monitor's |
| Brian.Network.Step | crates/brian-rs/src/lib.rs:812-824 | a step succeeds and advances the clock by dt |
| Brian.Network.Run | crates/brian-rs/src/lib.rs:801-809 | succeeds and advances the clock by StepCount steps of dt |
| BrianParse.TrimStart | crates/brian-rs/src/lib.rs:836 | the trimmed text starts with no white space |
| BrianParse.TrimEnd | crates/brian-rs/src/lib.rs:836 | the trimmed text ends with no white space and keeps its first character |
| BrianParse.Trim | crates/brian-rs/src/lib.rs:836 | no white space at either end |
| BrianParse.BeforeFirst | crates/brian-rs/src/lib.rs:843-844 | the first field of a split holds no separator |
| BrianParse.AfterFirst | crates/brian-rs/src/lib.rs:852 | when the separator occurs, the rest after its first occurrence is shorter than the text |
| BrianParse.BeforeDt | crates/brian-rs/src/lib.rs:847-849 | the text before "/dt" is no longer than the text |
| BrianParse.TrimLeadingD | crates/brian-rs/src/lib.rs:846 | stripping leading 'd's never lengthens the text |
| BrianParse.ParseLineWith | crates/brian-rs/src/lib.rs:835-880 | blank and '#' lines are skipped; a line is differential exactly when it starts with 'd' and holds "/dt" and '='; it is algebraic exactly when it holds '=' but no "/dt" |
| BrianParse.Differentials | crates/brian-rs/src/lib.rs:841-862 | at most one differential equation per line, each dimensionless and integrated by Euler |
| BrianParse.Algebraics | crates/brian-rs/src/lib.rs:864-875 | at most one algebraic equation per line, each dimensionless |
| BrianParse.EquationsWith | crates/brian-rs/src/lib.rs:832-890 | at most two equations per line, and no threshold, reset, refractory period or parameters |
| BrianParse.EquationsStep | crates/brian-rs/src/lib.rs:835-880 | one more line adds exactly what that line parses into |
| BrianParse.ParseEquations | crates/brian-rs/src/lib.rs:832-890 | the line loop always succeeds, with the equations of the lines under the as-written `trim_start_matches('d')` rule, and no threshold, reset, refractory period or parameters |
| BrianParse.TrimStartWhite | crates/brian-rs/src/lib.rs:836 | leading white space is removed |
| BrianParse.TrimEndWhite | crates/brian-rs/src/lib.rs:836 | trailing white space is removed |
| BrianParse.TrimPadded | crates/brian-rs/src/lib.rs:836 | a clean text padded with white space trims back to itself |
| BrianParse.SplitAtFirst | crates/brian-rs/src/lib.rs:843-852 | splitting at the first separator gives back the text before and after it |
| BrianParse.BeforeFirstAbsent | crates/brian-rs/src/lib.rs:852-853 | without the separator the first field is the whole text |
| BrianParse.NoDtTail | crates/brian-rs/src/lib.rs:842 | a text without "/dt" has no "/dt" in its tail |
| BrianParse.NoDtJoin | crates/brian-rs/src/lib.rs:842 | "/dt" cannot straddle two texts when the second starts with a space |
| BrianParse.NoDtCons | crates/brian-rs/src/lib.rs:842 | a character other than '/' cannot start a "/dt" |
| BrianParse.HasDtAt | crates/brian-rs/src/lib.rs:842 | "/dt" at any position is found |
| BrianParse.BeforeDtAppend | crates/brian-rs/src/lib.rs:847-849 | cutting "v/dt" at its first "/dt" gives v |
| BrianParse.TrimLeadingDAppend | crates/brian-rs/src/lib.rs:846 | stripping 'd's stops before "/dt" |
| BrianParse.TrimLeadingDSuffix | crates/brian-rs/src/lib.rs:846 | stripping 'd's creates no "/dt" |
| BrianParse.LinesSingle | crates/brian-rs/src/lib.rs:835 | a text without line breaks is one line |
| BrianParse.ExpressionOf | crates/brian-rs/src/lib.rs:843-853 | the expression of "head = e : u" is e |
| BrianParse.HasDtPrefix | crates/brian-rs/src/lib.rs:842 | a text holding "/dt" still holds it after anything is appended |
| BrianParse.EquationLine | crates/brian-rs/src/lib.rs:836-853 | the line "head = e : u" is already trimmed, its left side trims to head and its expression is e |
| BrianParse.LineTrimmed | crates/brian-rs/src/lib.rs:836 | a line with no white space at its ends trims to itself |
| BrianParse.HeadTrimmed | crates/brian-rs/src/lib.rs:844 | the left side trims back to the head |
| BrianParse.DifferentialLineParts | crates/brian-rs/src/lib.rs:841-862 | a differential line parses into a differential equation with expression e, dimensionless and Euler, under either variable rule |
| BrianParse.DifferentialLineHasDt | crates/brian-rs/src/lib.rs:842 | a differential line holds "/dt" |
| BrianParse.DifferentialLineSides | crates/brian-rs/src/lib.rs:841-853 | a differential line is trimmed, starts with 'd', and its left side is "d<v>/dt" |
| BrianParse.SingleLineEquations | crates/brian-rs/src/lib.rs:832-890 | a one-line text yields exactly what the line parses into, under either variable rule |
| BrianParse.OneLeadingDVariable | crates/brian-rs/src/lib.rs:844-850 | removing the derivative's one 'd' and cutting at "/dt" gives back the variable name |
| BrianParse.DifferentialRoundTrip | crates/brian-rs/src/lib.rs:832-890 | with the one-'d' rule, the line "d<v>/dt = <e> : <u>" parses into the single differential equation (v, e) and no algebraic one, for every variable name |
| BrianParse.AllLeadingDPlain | crates/brian-rs/src/lib.rs:844-850 | as written, a variable that does not start with 'd' is read back unchanged |
| BrianParse.AsWrittenRoundTrip | crates/brian-rs/src/lib.rs:832-890 | as written, the line "d<v>/dt = <e> : <u>" parses into the single differential equation (v, e) whenever v does not start with 'd' |
| BrianParse.LeadingDsStripped | crates/brian-rs/src/lib.rs:844-850 | as written, a variable that starts with 'd' is read back without all its leading 'd's, a strictly shorter name |
| BrianParse.DeltaExample | crates/brian-rs/src/lib.rs:844-850 | as written, "ddelta/dt = x : 1" declares the variable "elta" |
| BrianParse.DeltaCorrected | crates/brian-rs/src/lib.rs:844-850 | with the one-'d' rule, "ddelta/dt = x : 1" declares "delta" |
| BrianParse.AllLeadingDVariable | crates/brian-rs/src/lib.rs:844-850 | as written, the variable read back is v without its leading 'd's |
| BrianParse.NoDtSlashFree | crates/brian-rs/src/lib.rs:842 | a prefix without '/' creates no "/dt" |
| BrianParse.AlgebraicLineNoDt | crates/brian-rs/src/lib.rs:866 | an algebraic line built from parts without "/dt" holds none |
| BrianParse.AlgebraicRoundTrip | crates/brian-rs/src/lib.rs:832-890 | under either variable rule, the line "<v> = <e> : <u>" parses into the single algebraic equation (v, e) and no differential one |
| BrianParse.SkippedLines | crates/brian-rs/src/lib.rs:836-839 | blank lines and '#' lines contribute no equation |
| Copasi.NewCompartment | crates/copasi-rs/src/lib.rs:88-97 | a constant three-dimensional compartment of the given id and size, with no name or units |
| Copasi.NewSpecies | crates/copasi-rs/src/lib.rs:115-127 | a species with the given initial concentration and no initial amount, neither boundary, constant nor substance-only |
| Copasi.NewParameter | crates/copasi-rs/src/lib.rs:141-149 | a constant parameter of the given value, with no name or units |
| Copasi.NewReference | crates/copasi-rs/src/lib.rs:161-167 | a constant reference with the given species and stoichiometry |
| Copasi.SimpleReaction | crates/copasi-rs/src/lib.rs:216-229 | an irreversible A -> B with one reactant and one product of stoichiometry 1, no modifiers and mass-action kinetics on the given constant |
| Copasi.EnzymaticReaction | crates/copasi-rs/src/lib.rs:232-254 | an irreversible S -> P with the enzyme as its only modifier and Michaelis-Menten kinetics whose substrate is the reaction's reactant |
| Copasi.SpeciesIds | crates/copasi-rs/src/lib.rs:358-361 | the species ids in model order |
| Copasi.ParameterIds | crates/copasi-rs/src/lib.rs:348-350 | the parameter ids in model order |
| Copasi.FirstIndex | crates/copasi-rs/src/lib.rs:343-350 | the position of the first occurrence, absent exactly when the id does not occur |
| Copasi.IndexMap | crates/copasi-rs/src/lib.rs:358-361 | the index map holds exactly the ids, each pointing to its last occurrence |
| Copasi.FirstIndexAppend | crates/copasi-rs/src/lib.rs:328-350 | appending keeps every earlier first match; the new entry is found only for a new id |
| Copasi.FirstIndexAt | crates/copasi-rs/src/lib.rs:343-350 | the first match is the position before which the id does not occur |
| Copasi.IndexMapAppend | crates/copasi-rs/src/lib.rs:358-361 | an appended id becomes the one its index points to |
| Copasi.DistinctLookups | crates/copasi-rs/src/lib.rs:343-361 | for distinct ids the first and the last occurrence coincide |
| Copasi.SbmlModel.constructor | crates/copasi-rs/src/lib.rs:307-320 | a new model has no name, SBML level 3 version 2, and empty lists |
| Copasi.SbmlModel.AddCompartment | crates/copasi-rs/src/lib.rs:323-325 | appends to the compartments only |
| Copasi.SbmlModel.AddSpecies | crates/copasi-rs/src/lib.rs:328-330 | appends to the species only |
| Copasi.SbmlModel.AddParameter | crates/copasi-rs/src/lib.rs:333-335 | appends to the parameters only |
| Copasi.SbmlModel.AddReaction | crates/copasi-rs/src/lib.rs:338-340 | appends to the reactions only |
| Copasi.SbmlModel.GetSpecies | crates/copasi-rs/src/lib.rs:343-345 | the first species with the id, or None when no species has it |
| Copasi.SbmlModel.GetParameter | crates/copasi-rs/src/lib.rs:348-350 | the first parameter with the id, or None when no parameter has it |
| Copasi.SbmlModel.StoichiometryMatrix | crates/copasi-rs/src/lib.rs:353-379 | a species x reactions matrix whose entry (i, j) is the product stoichiometry minus the reactant stoichiometry of species i in reaction j |
| Copasi.ParameterLookup | crates/copasi-rs/src/lib.rs:348-350 | the first parameter with the id, or None |
| Copasi.Stoichiometry | crates/copasi-rs/src/lib.rs:353-379 | one row per species, one column per reaction |
| Copasi.BuildStoichiometry | crates/copasi-rs/src/lib.rs:353-379 | the nested loops fill exactly the stoichiometry matrix |
| Copasi.FillColumn | crates/copasi-rs/src/lib.rs:364-376 | one column gets products minus reactants; the other columns are untouched |
| Copasi.AccumulateColumn | crates/copasi-rs/src/lib.rs:365-375 | the reactant loop subtracts and the product loop adds the stoichiometries of the known species |
| Copasi.NetAppend | crates/copasi-rs/src/lib.rs:365-375 | the net stoichiometry of two reference lists is the sum of the parts |
| Copasi.UnknownSpeciesIgnored | crates/copasi-rs/src/lib.rs:366-368 | a reference to an undeclared species changes no entry |
| Copasi.SimpleReactionColumn | crates/copasi-rs/src/lib.rs:216-229 | with distinct ids, the column of A -> B is -1 in A's row, +1 in B's row and 0 elsewhere |
| Copasi.NetSingle | crates/copasi-rs/src/lib.rs:365-375 | one reference contributes its stoichiometry only to its species' row |
| Copasi.Concentration | crates/copasi-rs/src/lib.rs:595-602 | the state of the first species with the id, or 0 when no species has it |
| Copasi.ValueOf | crates/copasi-rs/src/lib.rs:585-592 | a parameter's value when one has the id, else the species concentration |
| Copasi.ValueOfPrecedence | crates/copasi-rs/src/lib.rs:585-592 | a parameter shadows a species of the same id |
| Copasi.SaturatingRate | crates/copasi-rs/src/lib.rs:568-577 | v*s/(k+s): undefined exactly when k+s = 0, otherwise r*(k+s) = v*s |
| Copasi.MassActionRate | crates/copasi-rs/src/lib.rs:557-565 | k times the power of each reactant concentration: k with no reactants, 0 when k or any power is 0, and non-negative when k and every power are |
| Copasi.ReactionRate | crates/copasi-rs/src/lib.rs:555-582 | mass action, reversible MM and custom laws are always defined, the last two with rate 0; Michaelis-Menten and Hill are the saturating rate of their values |
| Copasi.MichaelisMentenSaturates | crates/copasi-rs/src/lib.rs:567-571 | with positive Vmax, Km and substrate the rate lies strictly between 0 and Vmax |
| Copasi.Rates | crates/copasi-rs/src/lib.rs:543-552 | one rate per reaction |
| Copasi.Values | crates/copasi-rs/src/lib.rs:543-552 | the finite rates as numbers, in order |
| Copasi.Derivative | crates/copasi-rs/src/lib.rs:505 | one derivative per species |
| Copasi.Clamp | crates/copasi-rs/src/lib.rs:509-513 | negative entries become 0 and the others stay, so every entry is non-negative |
| Copasi.ClampIdempotent | crates/copasi-rs/src/lib.rs:509-513 | clamping twice is clamping once |
| Copasi.Shifted | crates/copasi-rs/src/lib.rs:506 | entry i is s[i] + d[i]*dt |
| Copasi.EulerStep | crates/copasi-rs/src/lib.rs:506-513 | the clamped Euler step keeps the length and is non-negative |
| Copasi.EulerStepZero | crates/copasi-rs/src/lib.rs:506-513 | a step of length 0 only clamps |
| Copasi.DeterministicState | crates/copasi-rs/src/lib.rs:500-514 | defined exactly when every rate is finite, and then non-negative with one entry per species |
| Copasi.InitialState | crates/copasi-rs/src/lib.rs:430-433 | each species' initial concentration, 0 where it has none |
| Copasi.EmptyTraces | crates/copasi-rs/src/lib.rs:462-464 | one empty trace per species id |
| Copasi.AppendSample | crates/copasi-rs/src/lib.rs:468-470 | a sample keeps the set of traced ids |
| Copasi.AppendSampleShape | crates/copasi-rs/src/lib.rs:468-470 | a sample appends one value per occurrence of the id, after the old values |
| Copasi.AppendSampleDistinct | crates/copasi-rs/src/lib.rs:468-470 | with distinct ids, species i's trace gains exactly its own value |
| Copasi.DistinctOnce | crates/copasi-rs/src/lib.rs:468-470 | a distinct id occurs once |
| Copasi.CopasiSimulation.constructor | crates/copasi-rs/src/lib.rs:426-443 | the state is the initial state, at t = 0, deterministic, with the default step and seed |
| Copasi.CopasiSimulation.SetMethod | crates/copasi-rs/src/lib.rs:446-448 | replaces the method |
| Copasi.CopasiSimulation.GetConcentrations | crates/copasi-rs/src/lib.rs:451-456 | one entry per species id, holding the state of its last occurrence |
| Copasi.CopasiSimulation.StepDeterministic | crates/copasi-rs/src/lib.rs:500-514 | the state becomes the clamped Euler step when every rate is finite, and is unchanged otherwise |
| Copasi.CopasiSimulation.Step | crates/copasi-rs/src/lib.rs:489-497 | the clock advances by h; the deterministic, tau-leaping and hybrid methods take the deterministic step; the stochastic method takes the deterministic step of length 1/(total rate) when that total is finite and positive and otherwise keeps the state; the state stays or becomes non-negative; the new state is `NextState` of the old |
| Copasi.CopasiSimulation.NextState | crates/copasi-rs/src/lib.rs:489-497 | the state one step leads to under a given method: same length, and either the old state or entirely non-negative |
| Copasi.CopasiSimulation.Trajectory | crates/copasi-rs/src/lib.rs:473-478 | the states of an n-step run: n+1 states of the species' length, starting at the initial state, each the `NextState` of the one before |
| Copasi.CopasiSimulation.StepStochastic | crates/copasi-rs/src/lib.rs:517-528 | with a positive total rate the state takes a deterministic step of length 1/total, and is unchanged otherwise |
| Copasi.CopasiSimulation.StepAndRecord | crates/copasi-rs/src/lib.rs:474-478 | the state becomes `NextState` of the old and the clock advances by h; the sample appended is the new state, so the traces keep their shape invariant and, with distinct ids, hold one more recorded state |
| Copasi.CopasiSimulation.Sample | crates/copasi-rs/src/lib.rs:473-479 | n_points steps, each followed by a sample: n_points+1 times spaced h apart, starting at the old clock; the final state is the last state of the trajectory; with distinct ids the traces hold, id by id, the matching component of every state of the trajectory |
| Copasi.CopasiSimulation.Run | crates/copasi-rs/src/lib.rs:459-486 | n_points+1 time points spaced duration/n_points apart; each species id gets n_points+1 samples per occurrence; with distinct ids the first sample is the pre-run state and the trace of species i is component i of each state of the n_points-step trajectory; the final state is that trajectory's last; no fluxes |
| Copasi.SampleStep | crates/copasi-rs/src/lib.rs:460 | n_points steps of the sample step add up to the duration |
| Copasi.Column | crates/copasi-rs/src/lib.rs:467-478 | component i of every sample, one value per sample, in sample order |
| Copasi.RecordedStep | crates/copasi-rs/src/lib.rs:474-477 | with distinct ids, recording one more sample extends each id's column by that sample's component |
| Copasi.RunTraces | crates/copasi-rs/src/lib.rs:467-479 | after count recorded samples every species id is traced, count values per occurrence; with distinct ids species i's trace is column i of the samples and starts with the first sample's component |
| Copasi.CopiesProduct | crates/copasi-rs/src/lib.rs:473-479 | count samples of an id occurring each times hold count*each values |
| Copasi.FirstSample | crates/copasi-rs/src/lib.rs:467-470 | the first sample starts one trace per id, one value per occurrence, and records that sample |
| Copasi.TracesStep | crates/copasi-rs/src/lib.rs:476-478 | each further sample adds one value per occurrence and keeps the first sample |
| Copasi.EulerInto | crates/copasi-rs/src/lib.rs:505-513 | the new state array is the clamped Euler step |
| Copasi.ClampInPlace | crates/copasi-rs/src/lib.rs:509-513 | the in-place loop clamps the array |
| Copasi.RecordSample | crates/copasi-rs/src/lib.rs:468-470 | the push loop computes the sample |
| Neuron.HhNa | crates/neuron-rs/src/lib.rs:420-430 | the "na" mechanism with exactly gnabar 0.12 and ena 50 mV, a reversal above the resting potential, and no state |
| Neuron.HhK | crates/neuron-rs/src/lib.rs:433-443 | the "k" mechanism with exactly gkbar 0.036 and ek -77 mV, a reversal below the resting potential, and no state |
| Neuron.Pas | crates/neuron-rs/src/lib.rs:446-456 | the "pas" mechanism with exactly g 0.001 and e -70 mV, below the resting potential, and no state |
| Neuron.ExpSyn | crates/neuron-rs/src/lib.rs:459-471 | an ExpSyn at the given section and location with exactly tau 2 ms and e 0 mV |
| Neuron.Exp2Syn | crates/neuron-rs/src/lib.rs:474-487 | an Exp2Syn at the given section and location with exactly tau1 0.5 ms, tau2 2 ms and e 0 mV, the rise faster than the decay |
| Neuron.IClamp | crates/neuron-rs/src/lib.rs:490-503 | an IClamp at the given section and location carrying exactly its delay, duration and amplitude |
| Neuron.Filled | crates/neuron-rs/src/lib.rs:285-288 | n copies of the voltage |
| Neuron.Section.constructor | crates/neuron-rs/src/lib.rs:269-282 | one segment at -65 mV, the default geometry and no mechanisms, parent or children |
| Neuron.Section.SetNseg | crates/neuron-rs/src/lib.rs:285-288 | k segments, all back at -65 mV |
| Neuron.Section.Area | crates/neuron-rs/src/lib.rs:296-299 | defined exactly for a non-zero segment count, and then area * nseg = pi * diam * L * 1e-8 |
| Neuron.Section.Insert | crates/neuron-rs/src/lib.rs:291-293 | appends the mechanism and changes nothing else |
| Neuron.AppendFresh | crates/neuron-rs/src/lib.rs:388-393 | appending an absent name keeps the children free of duplicates |
| Neuron.OccursOnce | crates/neuron-rs/src/lib.rs:388-393 | in a duplicate-free list a member occurs once |
| Neuron.TotalRemove | crates/neuron-rs/src/lib.rs:406-408 | the sum does not depend on the order of the sections |
| Neuron.TotalBound | crates/neuron-rs/src/lib.rs:406-408 | each section's count is at most the total |
| Neuron.TotalUpdate | crates/neuron-rs/src/lib.rs:406-408 | replacing one section changes the total by the difference |
| Neuron.Restrict | crates/neuron-rs/src/lib.rs:406-408 | the restriction holds exactly the chosen keys with their values |
| Neuron.NeuronCell.constructor | crates/neuron-rs/src/lib.rs:335-342 | no sections, point processes or accessed section |
| Neuron.NeuronCell.Create | crates/neuron-rs/src/lib.rs:345-349 | a fresh default section under the name, replacing any section there |
| Neuron.NeuronCell.Access | crates/neuron-rs/src/lib.rs:352-359 | succeeds exactly when the section exists, and then current() is that section; on failure nothing changes |
| Neuron.NeuronCell.Current | crates/neuron-rs/src/lib.rs:362-364 | the accessed section, present exactly when it exists |
| Neuron.NeuronCell.Connect | crates/neuron-rs/src/lib.rs:376-398 | a missing child or parent is ModelNotFound with nothing changed; otherwise only the child's parent field and the parent's children field may change: the child's parent is (parent, loc) and the child occurs exactly once among the parent's children, appended when it was not there |
| Neuron.NeuronCell.AddPointProcess | crates/neuron-rs/src/lib.rs:401-403 | appends the point process |
| Neuron.NeuronCell.SegmentCounts | crates/neuron-rs/src/lib.rs:406-408 | the segment count of every section by name |
| Neuron.NeuronCell.TotalSegments | crates/neuron-rs/src/lib.rs:406-408 | the sum of nseg over all sections |
| Neuron.AllSectionsSnoc | crates/neuron-rs/src/lib.rs:548-553 | the outer loop of finitialize covers the cells one at a time |
| Neuron.NeuronSimulation.constructor | crates/neuron-rs/src/lib.rs:528-537 | no cells, t = 0, dt = 0.025, tstop = 100, 37 degrees and no recordings |
| Neuron.NeuronSimulation.AddCell | crates/neuron-rs/src/lib.rs:540-542 | appends the cell |
| Neuron.NeuronSimulation.Finitialize | crates/neuron-rs/src/lib.rs:545-556 | t = 0, the recordings are cleared and every segment voltage of every section of every cell is v_init |
| Neuron.NeuronSimulation.Fadvance | crates/neuron-rs/src/lib.rs:559-563 | t advances by exactly dt and nothing else changes |
| Neuron.NeuronSimulation.Run | crates/neuron-rs/src/lib.rs:566-570 | the clock ends a whole number of dt steps after where it was; a clock at or past tstop stays (no step); otherwise at least one step is taken and it stops in [tstop, tstop+dt), so no fewer steps would reach tstop |
| Neuron.NeuronSimulation.ContinueRun | crates/neuron-rs/src/lib.rs:573-576 | sets tstop, then runs as above: a whole number of dt steps, none when already past the new tstop, else ending in [tstop, tstop+dt) |
| Neuron.ResetCell | crates/neuron-rs/src/lib.rs:550-554 | every voltage of one cell's sections becomes the value |
| Neuron.ResetVoltages | crates/neuron-rs/src/lib.rs:551-553 | every voltage of one section becomes the value, keeping the count |
| Neuron.StepCountDrops | crates/neuron-rs/src/lib.rs:566-570 | each step removes exactly one whole step from what is left, so the run loop terminates |
| Xppaut.FirstMatch | crates/xppaut-rs/src/lib.rs:158-166 | the position of the first pair with the name, absent exactly when no pair has it |
| Xppaut.FirstMatchAt | crates/xppaut-rs/src/lib.rs:158-166 | the first position holding the name is the first match |
| Xppaut.Lookup | crates/xppaut-rs/src/lib.rs:151-155 | the value of the first pair with the name, absent exactly when no pair has it |
| Xppaut.LookupAppend | crates/xppaut-rs/src/lib.rs:146-155 | an appended pair is seen only by a name not already present |
| Xppaut.XppModel.constructor | crates/xppaut-rs/src/lib.rs:135-143 | the dimension is the number of variables and there are no parameters |
| Xppaut.XppModel.AddParameter | crates/xppaut-rs/src/lib.rs:146-148 | appends the pair |
| Xppaut.XppModel.GetParameter | crates/xppaut-rs/src/lib.rs:151-155 | the value of the first pair with the name, or None |
| Xppaut.XppModel.SetParameter | crates/xppaut-rs/src/lib.rs:158-166 | an absent name is ModelNotFound with the list unchanged; otherwise exactly the first match is overwritten, the name then reads the new value and other names read as before |
| Xppaut.SetFirstLookup | crates/xppaut-rs/src/lib.rs:158-166 | overwriting the first match changes the lookup of that name only |
| Xppaut.AllReal | crates/xppaut-rs/src/lib.rs:315 | every imaginary part is below 1e-10 in magnitude |
| Xppaut.AllNegative | crates/xppaut-rs/src/lib.rs:316 | every real part is negative |
| Xppaut.AllPositive | crates/xppaut-rs/src/lib.rs:317 | every real part is positive |
| Xppaut.AnyZero | crates/xppaut-rs/src/lib.rs:311 | some real part is below 1e-10 in magnitude |
| Xppaut.ClassifyFixedPoint | crates/xppaut-rs/src/lib.rs:307-332 | never Unknown; Center exactly when some real part is near 0; nodes have real eigenvalues and foci complex ones; stable exactly when all real parts are negative, unstable exactly when none is negative and all are positive |
| Xppaut.SaddleIsMixed | crates/xppaut-rs/src/lib.rs:307-332 | a saddle has eigenvalues clearly on both sides of the imaginary axis |
| Xppaut.CenterDominates | crates/xppaut-rs/src/lib.rs:311-314 | one eigenvalue near zero makes the point a center, whatever the others |
| Xppaut.MakeFixedPoint | crates/xppaut-rs/src/lib.rs:211-221 | the stable flag holds exactly when every real part is negative, and the type is the classification |
| Xppaut.StabilityAgrees | crates/xppaut-rs/src/lib.rs:211-213 | a stable node or focus carries the stable flag; a flagged point is a stable node, a stable focus or a center; an unstable node, unstable focus or saddle never carries the flag |
| Xppaut.ClassificationExamples | crates/xppaut-rs/src/lib.rs:396-404 | eigenvalues -1, -2 make a stable node; -1, 1 make a saddle |
| Xppaut.Lorenz | crates/xppaut-rs/src/lib.rs:339-345 | the three variables x, y, z and the parameters sigma, rho, beta, each readable |
| Xppaut.FitzhughNagumo | crates/xppaut-rs/src/lib.rs:365-371 | the variables v, w and the parameters a, b, epsilon |
| Xppaut.LorenzRhs | crates/xppaut-rs/src/lib.rs:348-362 | three components |
| Xppaut.LorenzEquilibria | crates/xppaut-rs/src/lib.rs:348-362 | the field vanishes at the points x = y = ±sqrt(beta(rho-1)), z = rho-1 |
| Xppaut.LorenzOrigin | crates/xppaut-rs/src/lib.rs:348-362 | the origin is an equilibrium for any parameters |
| Xppaut.LorenzFirstComponent | crates/xppaut-rs/src/lib.rs:386-393 | equal x and y make the first component vanish |
| Xppaut.LorenzDefaults | crates/xppaut-rs/src/lib.rs:353-355 | a missing parameter takes its classical value 10, 28 or 8/3 |
| Xppaut.LorenzSameParameters | crates/xppaut-rs/src/lib.rs:348-362 | the field depends on the parameter list only through the first sigma, rho and beta |
| Genesis.Element.constructor | crates/genesis-rs/src/lib.rs:101-110 | the path and type, with no parameters, children or messages |
| Genesis.Element.SetParam | crates/genesis-rs/src/lib.rs:113-115 | the parameter reads back the new value and every other parameter reads as before |
| Genesis.Element.GetParam | crates/genesis-rs/src/lib.rs:118-120 | the parameter's value, None exactly when it is unset |
| Genesis.StepCount | crates/genesis-rs/src/lib.rs:221 | the saturating usize cast of duration/dt: at most usize::MAX, 0 for a negative quotient |
| Genesis.StepCountFits | crates/genesis-rs/src/lib.rs:220-225 | with a positive step, run takes the largest number of whole steps that fit in the duration |
| Genesis.GenesisSimulation.constructor | crates/genesis-rs/src/lib.rs:153-160 | no elements, time 0, dt 1e-5 and no recordings |
| Genesis.GenesisSimulation.Create | crates/genesis-rs/src/lib.rs:163-167 | a fresh empty element at the path, replacing any there, and get(path) then finds it |
| Genesis.GenesisSimulation.Get | crates/genesis-rs/src/lib.rs:170-172 | the element at the path, present exactly when one is stored there |
| Genesis.GenesisSimulation.AddMessage | crates/genesis-rs/src/lib.rs:180-211 | a missing source is ModelNotFound with nothing changed; a missing destination is ModelNotFound after the source has recorded the message; otherwise both ends record it |
| Genesis.GenesisSimulation.Step | crates/genesis-rs/src/lib.rs:214-217 | the clock advances by dt |
| Genesis.GenesisSimulation.Run | crates/genesis-rs/src/lib.rs:220-225 | the clock advances by StepCount steps of dt |
| Genesis.GenesisSimulation.SetDt | crates/genesis-rs/src/lib.rs:228-230 | replaces the step |
| Genesis.GenesisSimulation.CurrentTime | crates/genesis-rs/src/lib.rs:233-235 | the clock |
| Genesis.RunEndsWithinOneStep | crates/genesis-rs/src/lib.rs:220-225 | a run with a positive step ends within one step short of the requested end |
| Genesis.NewCompartment | crates/genesis-rs/src/lib.rs:249-258 | a compartment with exactly Rm, Cm, Ra, Em, initVm and Vm at their standard values |
| Genesis.NewNaChannel | crates/genesis-rs/src/lib.rs:261-266 | a sodium channel with exactly Gbar 0.12 and Ek 0.045 |
| Genesis.NewKChannel | crates/genesis-rs/src/lib.rs:269-274 | a potassium channel with exactly Gbar 0.036 and Ek -0.082 |

## Left out

- The global `static mut KERNEL` singleton and its unsafe accessors (`reset_kernel`, `get_kernel`, `set_kernel_status`, `get_kernel_status`) are not modelled. Every operation acts on an explicit `Nest.Kernel` object instead.
- Hash-based pseudo-randomness is not computed. Pairwise-Bernoulli takes its draw as a parameter (`draw`). Brian's `connect_random` is not modelled, because its `DefaultHasher` output cannot be stated.
- Transcendental functions are parameters rather than computed: `exp` in rate functions and log-normal weights, `powf` in mass-action and Hill rates, and π in `Section::area`. Floating-point rounding, infinities and NaN are not modelled (`f64` is `real`). A division that would give an infinite or NaN result in Rust is `None` in the model.
- OldiesCore.Eval: a zero C gives no value, also where Rust's result would be finite. There x = (V+B)/C is an infinity whose sign comes from the sign of the zero, which a `real` does not carry. Rust then gives -a*(V+B) or 0 for Hodgkin-Huxley, a or 0 for the sigmoid, and 0 for the exponential when V+B < 0.
- Copasi.CopasiSimulation.StepDeterministic: when some rate is not finite, the model leaves the state unchanged. The source would propagate infinities or NaN into the state.
- Copasi `steady_state`, the example models (`michaelis_menten`, `lotka_volterra`, `repressilator`), SBML units, assignment and rate rules and events are not modelled. The rules and events are stored, but no operation of the core reads them.
- Xppaut: Newton's method, the numerical Jacobian, the eigenvalue solver and `find_fixed_points` are not modelled. They hand their work to nalgebra. Only the construction of a `FixedPoint` from given eigenvalues (`MakeFixedPoint`) is modelled. The AUTO continuation crate is not modelled either: its entry points are `todo!()`.
- NEST `simulate`, `balanced_network`, `cv_isi` and `spike_correlation` are not modelled. The last two depend on square roots and floating-point statistics.
- Brian `brunel_network`, `cuba_network`, `coba_network` and the `to_equations` methods of the neuron models are not modelled. They build `format!` strings.
- The HOC and SLI pest grammars, and the `load_hoc`, `parse_nmodl` and `load_script` stubs, are not modelled. The generated parser code is not visible.
- Neuron.NeuronSimulation.Run: requires a positive `dt` whenever the clock is short of `tstop`. With a non-positive step the source loops forever.
- Neuron.NeuronSimulation.ContinueRun: the same requirement applies with the new `tstop`.
- `current_mut` of a NEURON cell is covered by `Neuron.NeuronCell.Current`, since the returned reference is to the same section object.
- Error messages that the source builds with `format!` are modelled as the strings the model builds. No formatting behaviour is stated. Brian's simulation errors are the structured `Brian.SimulationFault` values the messages are formatted from.
- Recording buffers that no modelled operation fills are not modelled: the `recordings` maps of the GENESIS and NEURON simulations, and the copasi fluxes.
- Genesis.StepCount, Brian.StepCount: the model assumes a 64-bit `usize`.
- Nest.Kernel.Create: the contract does not state that the spike records it adds are newly allocated. Nest.Kernel.AddNode states it for each record it adds.
- The CLI, the GUI and the ModelDB importer are not modelled. They are terminal, window and network front ends.

## Findings

| source | as written | input that shows it | evidently intended | confidence | as-written member | corrected member |
|---|---|---|---|---|---|---|
| crates/brian-rs/src/lib.rs:844-850 | the variable of "d<name>/dt" is cut with `trim_start_matches('d')`, which strips every leading 'd', so a name starting with 'd' loses its initial letters | "ddelta/dt = -delta/tau : 1" yields the variable "elta" | strip only the one 'd' of the derivative, yielding "delta" | not executed | BrianParse.LeadingDsStripped | BrianParse.DifferentialRoundTrip |
