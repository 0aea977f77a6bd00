/** The NEURON-style cell model: sections with segments and inserted
    mechanisms, the cell's section topology, and the simulation clock. */
module Neuron {
  import opened Wrappers
  import opened OldiesCore

  /** The resting potential every new segment starts at (mV). */
  const RestingPotential: real := -65.0

  /** NEURON's default time step (ms). */
  const DefaultDt: real := 0.025
  const DefaultTstop: real := 100.0
  const DefaultCelsius: real := 37.0

  datatype InsertedMechanism = InsertedMechanism(name: string, parameters: map<string, real>,
                                                 state: map<string, seq<real>>)

  datatype PointProcess = PointProcess(name: string, section: string, location: real,
                                       parameters: map<string, real>, state: map<string, real>)

  // ---------------------------------------------------------------------------
  // Standard mechanisms
  // ---------------------------------------------------------------------------

  /** The Hodgkin-Huxley sodium channel. */
  function HhNa(): (m: InsertedMechanism)
    ensures m.name == "na" && m.parameters.Keys == {"gnabar", "ena"} && m.state == map[]
    ensures m.parameters["gnabar"] == 0.12 && m.parameters["ena"] == 50.0
    ensures m.parameters["ena"] > RestingPotential
  {
    InsertedMechanism("na", map["gnabar" := 0.12, "ena" := 50.0], map[])
  }

  /** The Hodgkin-Huxley potassium channel. */
  function HhK(): (m: InsertedMechanism)
    ensures m.name == "k" && m.parameters.Keys == {"gkbar", "ek"} && m.state == map[]
    ensures m.parameters["gkbar"] == 0.036 && m.parameters["ek"] == -77.0
    ensures m.parameters["ek"] < RestingPotential
  {
    InsertedMechanism("k", map["gkbar" := 0.036, "ek" := -77.0], map[])
  }

  /** The passive leak channel. */
  function Pas(): (m: InsertedMechanism)
    ensures m.name == "pas" && m.parameters.Keys == {"g", "e"} && m.state == map[]
    ensures m.parameters["g"] == 0.001 && m.parameters["e"] == -70.0
    ensures m.parameters["e"] < RestingPotential
  {
    InsertedMechanism("pas", map["g" := 0.001, "e" := -70.0], map[])
  }

  /** The exponential synapse: decay time constant 2 ms, reversal 0 mV. */
  function ExpSyn(section: string, loc: real): (pp: PointProcess)
    ensures pp.name == "ExpSyn" && pp.section == section && pp.location == loc && pp.state == map[]
    ensures pp.parameters.Keys == {"tau", "e"}
    ensures pp.parameters["tau"] == 2.0 && pp.parameters["e"] == 0.0
  {
    PointProcess("ExpSyn", section, loc, map["tau" := 2.0, "e" := 0.0], map[])
  }

  /** The double-exponential synapse: rise 0.5 ms, faster than the 2 ms
      decay, reversal 0 mV. */
  function Exp2Syn(section: string, loc: real): (pp: PointProcess)
    ensures pp.name == "Exp2Syn" && pp.section == section && pp.location == loc && pp.state == map[]
    ensures pp.parameters.Keys == {"tau1", "tau2", "e"}
    ensures pp.parameters["tau1"] == 0.5 && pp.parameters["tau2"] == 2.0 && pp.parameters["e"] == 0.0
    ensures 0.0 < pp.parameters["tau1"] < pp.parameters["tau2"]
  {
    PointProcess("Exp2Syn", section, loc, map["tau1" := 0.5, "tau2" := 2.0, "e" := 0.0], map[])
  }

  /** The current clamp, carrying its delay, duration and amplitude. */
  function IClamp(section: string, loc: real, delay: real, dur: real, amp: real): (pp: PointProcess)
    ensures pp.name == "IClamp" && pp.section == section && pp.location == loc && pp.state == map[]
    ensures pp.parameters.Keys == {"delay", "dur", "amp"}
    ensures pp.parameters["delay"] == delay && pp.parameters["dur"] == dur && pp.parameters["amp"] == amp
  {
    PointProcess("IClamp", section, loc, map["delay" := delay, "dur" := dur, "amp" := amp], map[])
  }

  // ---------------------------------------------------------------------------
  // Sections
  // ---------------------------------------------------------------------------

  /** `n` copies of the voltage `x`. */
  function Filled(n: nat, x: real): (v: seq<real>)
    ensures |v| == n && forall i :: 0 <= i < n ==> v[i] == x
  {
    seq(n, _ => x)
  }

  /** A cable section: its segments' voltages, its mechanisms and its place in
      the tree. */
  class Section {
    const name: string
    var nseg: nat
    var length: real
    var diam: real
    var ra: real
    var cm: real
    var mechanisms: seq<InsertedMechanism>
    var parent: Option<(string, real)>
    var children: seq<string>
    var v: seq<real>

    constructor (name: string)
      ensures this.name == name && nseg == 1 && v == [RestingPotential]
      ensures length == 100.0 && diam == 1.0 && ra == 100.0 && cm == 1.0
      ensures mechanisms == [] && parent == None && children == []
    {
      this.name := name;
      nseg := 1;
      length := 100.0;
      diam := 1.0;
      ra := 100.0;
      cm := 1.0;
      mechanisms := [];
      parent := None;
      children := [];
      v := [RestingPotential];
    }

    /** k segments, all back at the resting potential. */
    method SetNseg(k: nat)
      modifies this`nseg, this`v
      ensures nseg == k && v == Filled(k, RestingPotential)
    {
      nseg := k;
      v := Filled(k, RestingPotential);
    }

    /** Surface area of one segment in cm^2, given the value of pi; with no
        segments the division by zero leaves no finite area. */
    function Area(pi: real): (r: Option<real>)
      reads this
      ensures r.Some? <==> nseg > 0
      ensures r.Some? ==> r.value * (nseg as real) == pi * diam * length * 1e-8
    {
      if nseg == 0 then None
      else
        var segLength := length / nseg as real;
        assert segLength * (nseg as real) == length;
        Some(pi * diam * segLength * 1e-8)
    }

    method Insert(m: InsertedMechanism)
      modifies this`mechanisms
      ensures mechanisms == old(mechanisms) + [m]
    {
      mechanisms := mechanisms + [m];
    }
  }

  predicate NoDuplicates(names: seq<string>)
  {
    forall i, j :: 0 <= i < j < |names| ==> names[i] != names[j]
  }

  /** Appending a name that is not present keeps the list free of
      duplicates, and the name is then there exactly once. */
  lemma AppendFresh(names: seq<string>, x: string)
    requires NoDuplicates(names) && x !in names
    ensures NoDuplicates(names + [x])
    ensures multiset(names + [x])[x] == 1
  {
    assert multiset(names)[x] == 0;
  }

  /** In a list without duplicates a member occurs exactly once. */
  lemma OccursOnce(names: seq<string>, x: string)
    requires NoDuplicates(names) && x in names
    ensures multiset(names)[x] == 1
  {
    var i :| 0 <= i < |names| && names[i] == x;
    assert names == names[..i] + [x] + names[i + 1..];
    assert x !in names[..i];
    assert x !in names[i + 1..];
    assert multiset(names) == multiset(names[..i]) + multiset{x} + multiset(names[i + 1..]);
  }

  // ---------------------------------------------------------------------------
  // Summing segment counts over a map
  // ---------------------------------------------------------------------------

  /** The sum of the values of a map, in no particular key order. */
  ghost function Total(m: map<string, nat>): nat
    decreases |m|
  {
    if m == map[] then 0
    else
      var k :| k in m;
      m[k] + Total(m - {k})
  }

  /** The sum does not depend on which key is taken first. */
  lemma {:induction false} TotalRemove(m: map<string, nat>, k: string)
    requires k in m
    ensures Total(m) == m[k] + Total(m - {k})
    decreases |m|
  {
    var j :| j in m && Total(m) == m[j] + Total(m - {j});
    if j != k {
      TotalRemove(m - {j}, k);
      TotalRemove(m - {k}, j);
      assert m - {j} - {k} == m - {k} - {j};
    }
  }

  /** Every value is at most the total. */
  lemma TotalBound(m: map<string, nat>, k: string)
    requires k in m
    ensures m[k] <= Total(m)
  {
    TotalRemove(m, k);
  }

  /** Replacing one entry changes the total by the difference. */
  lemma TotalUpdate(m: map<string, nat>, k: string, x: nat)
    ensures Total(m[k := x]) + (if k in m then m[k] else 0) == Total(m) + x
  {
    TotalRemove(m[k := x], k);
    assert m[k := x] - {k} == m - {k};
    if k in m {
      TotalRemove(m, k);
    } else {
      assert m - {k} == m;
    }
  }

  /** The restriction of a map to some keys. */
  function Restrict(m: map<string, nat>, keys: set<string>): (r: map<string, nat>)
    ensures forall k :: k in r <==> k in m && k in keys
    ensures forall k :: k in r ==> r[k] == m[k]
  {
    map k | k in m && k in keys :: m[k]
  }

  // ---------------------------------------------------------------------------
  // Cells
  // ---------------------------------------------------------------------------

  /** A cell: its sections by name, its point processes, and the section
      currently accessed. */
  class NeuronCell {
    const name: string
    var sections: map<string, Section>
    var pointProcesses: seq<PointProcess>
    var currentSection: Option<string>

    /** Every section is stored under its own name, and no child is listed
        twice. */
    ghost predicate Valid()
      reads this, sections.Values
    {
      forall k :: k in sections ==> sections[k].name == k && NoDuplicates(sections[k].children)
    }

    constructor (name: string)
      ensures Valid()
      ensures this.name == name && sections == map[] && pointProcesses == [] && currentSection == None
    {
      this.name := name;
      sections := map[];
      pointProcesses := [];
      currentSection := None;
    }

    /** A fresh default section under `sname`, replacing any section of that
        name. */
    method Create(sname: string) returns (s: Section)
      requires Valid()
      modifies this`sections
      ensures Valid()
      ensures fresh(s) && sections == old(sections)[sname := s]
      ensures s.name == sname && s.nseg == 1 && s.v == [RestingPotential]
      ensures s.mechanisms == [] && s.parent == None && s.children == []
    {
      s := new Section(sname);
      sections := sections[sname := s];
    }

    method Access(sname: string) returns (r: Result<(), OldiesError>)
      requires Valid()
      modifies this`currentSection
      ensures r.Ok? <==> sname in sections
      ensures r.Ok? ==> currentSection == Some(sname) && Current() == Some(sections[sname]) &&
                        Current().value.name == sname
      ensures r.Err? ==> currentSection == old(currentSection) &&
                         r.error == ModelNotFound("Section " + sname + " not found")
    {
      if sname in sections {
        currentSection := Some(sname);
        r := Ok(());
      } else {
        r := Err(ModelNotFound("Section " + sname + " not found"));
      }
    }

    /** The accessed section, if it (still) exists. */
    function Current(): (r: Option<Section>)
      reads this
      ensures r.Some? <==> currentSection.Some? && currentSection.value in sections
      ensures r.Some? ==> r.value == sections[currentSection.value]
    {
      match currentSection
      case None => None
      case Some(n) => if n in sections then Some(sections[n]) else None
    }

    /** Makes `child` a child of `parent` at `parentLoc`; `childEnd` is not
        used. Both sections must exist. */
    method Connect(child: string, childEnd: real, parent: string, parentLoc: real) returns (r: Result<(), OldiesError>)
      requires Valid()
      modifies (if child in sections && parent in sections then {sections[child]} else {})`parent
      modifies (if child in sections && parent in sections then {sections[parent]} else {})`children
      ensures Valid()
      ensures sections == old(sections)
      ensures child !in sections ==> r == Err(ModelNotFound("Section " + child + " not found"))
      ensures child in sections && parent !in sections ==>
                r == Err(ModelNotFound("Section " + parent + " not found"))
      ensures r.Ok? <==> child in sections && parent in sections
      ensures r.Ok? ==> sections[child].parent == Some((parent, parentLoc))
      ensures r.Ok? ==> (sections[parent].children ==
                           if child in old(sections[parent].children) then old(sections[parent].children)
                           else old(sections[parent].children) + [child])
      ensures r.Ok? ==> multiset(sections[parent].children)[child] == 1
    {
      if child !in sections {
        return Err(ModelNotFound("Section " + child + " not found"));
      }
      if parent !in sections {
        return Err(ModelNotFound("Section " + parent + " not found"));
      }
      var c := sections[child];
      c.parent := Some((parent, parentLoc));
      var p := sections[parent];
      if child !in p.children {
        AppendFresh(p.children, child);
        p.children := p.children + [child];
      } else {
        OccursOnce(p.children, child);
      }
      r := Ok(());
    }

    method AddPointProcess(pp: PointProcess)
      modifies this`pointProcesses
      ensures pointProcesses == old(pointProcesses) + [pp]
    {
      pointProcesses := pointProcesses + [pp];
    }

    /** The segment count of every section, by name. */
    function SegmentCounts(): (m: map<string, nat>)
      reads this, sections.Values
      ensures forall k :: k in m <==> k in sections
      ensures forall k :: k in m ==> m[k] == sections[k].nseg
    {
      map k | k in sections :: sections[k].nseg
    }

    /** The sum of `nseg` over all sections. */
    method TotalSegments() returns (n: nat)
      ensures n == Total(SegmentCounts())
    {
      var counts := SegmentCounts();
      var keys := sections.Keys;
      n := 0;
      assert Restrict(counts, keys) == counts;
      while keys != {}
        invariant keys <= counts.Keys
        invariant n + Total(Restrict(counts, keys)) == Total(counts)
        decreases keys
      {
        var k :| k in keys;
        TotalRemove(Restrict(counts, keys), k);
        assert Restrict(counts, keys) - {k} == Restrict(counts, keys - {k});
        n := n + sections[k].nseg;
        keys := keys - {k};
      }
      assert Restrict(counts, {}) == map[];
      assert Restrict(counts, counts.Keys) == counts;
    }
  }

  // ---------------------------------------------------------------------------
  // The simulation
  // ---------------------------------------------------------------------------

  /** Every section of every cell. */
  ghost function AllSections(cells: seq<NeuronCell>): set<Section>
    reads set c | c in cells
  {
    set c, s | c in cells && s in c.sections.Values :: s
  }

  /** The sections of a prefix of the cells grow one cell at a time, and all
      lie among the sections of all the cells. */
  lemma AllSectionsSnoc(cells: seq<NeuronCell>, i: nat)
    requires i < |cells|
    ensures AllSections(cells[..i + 1]) == AllSections(cells[..i]) + cells[i].sections.Values
    ensures AllSections(cells[..i + 1]) <= AllSections(cells)
  {
    assert cells[..i + 1] == cells[..i] + [cells[i]];
  }

  class NeuronSimulation {
    var cells: seq<NeuronCell>
    var t: real
    var dt: real
    var tstop: real
    var celsius: real
    var recordings: map<string, seq<real>>

    constructor ()
      ensures cells == [] && t == 0.0 && dt == DefaultDt && tstop == DefaultTstop
      ensures celsius == DefaultCelsius && recordings == map[]
    {
      cells := [];
      t := 0.0;
      dt := DefaultDt;
      tstop := DefaultTstop;
      celsius := DefaultCelsius;
      recordings := map[];
    }

    method AddCell(cell: NeuronCell)
      modifies this`cells
      ensures cells == old(cells) + [cell]
    {
      cells := cells + [cell];
    }

    /** Clock to 0, recordings cleared, and every segment of every section
        of every cell at `vInit`. */
    method Finitialize(vInit: real)
      modifies this`t, this`recordings, AllSections(cells)`v
      ensures t == 0.0 && recordings == map[]
      ensures forall s :: s in old(AllSections(cells)) ==> s.v == Filled(|old(s.v)|, vInit)
    {
      ghost var all := AllSections(cells);
      ghost var sizes := map s | s in all :: |s.v|;
      ghost var done: set<Section> := {};
      var i := 0;
      while i < |cells|
        invariant 0 <= i <= |cells|
        invariant done <= all == AllSections(cells)
        invariant AllSections(cells[..i]) <= done
        invariant forall s :: s in all ==> |s.v| == sizes[s] && (s in done ==> s.v == Filled(sizes[s], vInit))
      {
        var cell := cells[i];
        AllSectionsSnoc(cells, i);
        ResetCell(cell, vInit);
        done := done + cell.sections.Values;
        i := i + 1;
      }
      assert cells[..i] == cells;
      t := 0.0;
      recordings := map[];
    }

    /** One step: the clock advances by `dt` and nothing else changes. */
    method Fadvance()
      modifies this`t
      ensures t == old(t) + dt
    {
      t := t + dt;
    }

    /** Steps until the clock reaches `tstop`; the clock then lies in
        [tstop, tstop + dt) unless it was already past `tstop`. A clock
        short of `tstop` needs a positive step to get there. `steps` counts
        the calls to `Fadvance`; as the clock before the last one was short
        of `tstop`, no fewer would do. */
    method Run() returns (ghost steps: nat)
      requires dt > 0.0 || t >= tstop
      modifies this`t
      ensures t == old(t) + (steps as real) * dt
      ensures old(t) >= tstop ==> steps == 0 && t == old(t)
      ensures old(t) < tstop ==> steps > 0 && tstop <= t < tstop + dt
    {
      steps := 0;
      while t < tstop
        invariant dt <= 0.0 ==> t >= tstop
        invariant t == old(t) + (steps as real) * dt
        invariant old(t) >= tstop ==> steps == 0
        invariant old(t) < tstop && t >= tstop ==> steps > 0
        invariant old(t) < tstop ==> t < tstop + dt
        decreases if t < tstop then ((tstop - t) / dt).Floor + 1 else 0
      {
        ghost var before := t;
        Fadvance();
        StepCountDrops(tstop - before, dt);
        OneMoreStep(old(t), dt, steps);
        steps := steps + 1;
      }
    }

    method ContinueRun(stop: real) returns (ghost steps: nat)
      requires dt > 0.0 || t >= stop
      modifies this`t, this`tstop
      ensures tstop == stop
      ensures t == old(t) + (steps as real) * dt
      ensures old(t) >= stop ==> steps == 0 && t == old(t)
      ensures old(t) < stop ==> steps > 0 && stop <= t < stop + dt
    {
      tstop := stop;
      steps := Run();
    }
  }

  /** Every voltage of every section of one cell set to `x`. */
  method ResetCell(cell: NeuronCell, x: real)
    modifies cell.sections.Values`v
    ensures forall s :: s in cell.sections.Values ==> s.v == Filled(|old(s.v)|, x)
  {
    var keys := cell.sections.Keys;
    ghost var done: set<Section> := {};
    while keys != {}
      invariant keys <= cell.sections.Keys
      invariant done <= cell.sections.Values
      invariant forall k :: k in cell.sections && k !in keys ==> cell.sections[k] in done
      invariant forall s :: s in done ==> s.v == Filled(|old(s.v)|, x)
      invariant forall s :: s in cell.sections.Values && s !in done ==> s.v == old(s.v)
      decreases keys
    {
      var k :| k in keys;
      var section := cell.sections[k];
      ResetVoltages(section, x);
      done := done + {section};
      keys := keys - {k};
    }
  }

  /** The inner loop of `finitialize`: every voltage of one section set to
      `x`. */
  method ResetVoltages(s: Section, x: real)
    modifies s`v
    ensures s.v == Filled(|old(s.v)|, x)
  {
    var i := 0;
    while i < |s.v|
      invariant 0 <= i <= |s.v| == |old(s.v)|
      invariant forall j :: 0 <= j < i ==> s.v[j] == x
    {
      s.v := s.v[i := x];
      i := i + 1;
    }
  }

  /** Each step of length dt removes exactly one whole step from what is left
      before tstop. */
  /** n steps of `dt` and then one more are n + 1 steps. */
  lemma OneMoreStep(t0: real, dt: real, n: nat)
    ensures t0 + (n as real) * dt + dt == t0 + ((n + 1) as real) * dt
  {
  }

  lemma StepCountDrops(gap: real, dt: real)
    requires dt > 0.0
    ensures ((gap - dt) / dt).Floor == (gap / dt).Floor - 1
  {
    assert dt / dt == 1.0;
    assert (gap - dt) / dt == gap / dt - dt / dt;
  }
}
