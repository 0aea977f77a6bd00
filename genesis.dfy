/** The GENESIS element graph: elements stored by path, their parameters,
    the messages that connect them, and the simulation clock. */
module Genesis {
  import opened Wrappers
  import opened OldiesCore

  datatype ElementType =
    | Compartment
    | NaChannel
    | KChannel
    | CaChannel
    | Synapse
    | SpikeGen
    | Recorder
    | Neutral
    | Custom(name: string)

  /** A message from a field of one element to a field of another. */
  datatype Message = Message(source: string, sourceField: string, dest: string, destField: string,
                             msgType: string)

  /** The default time step: 10 microseconds. */
  const DefaultDt: real := 0.00001

  /** The largest value of the 64-bit `usize` a step count is cast to. */
  const UsizeMax: nat := 0xFFFF_FFFF_FFFF_FFFF

  class Element {
    const path: string
    const elementType: ElementType
    var params: map<string, real>
    var children: seq<string>
    var messagesIn: seq<Message>
    var messagesOut: seq<Message>

    constructor (path: string, elementType: ElementType)
      ensures this.path == path && this.elementType == elementType
      ensures params == map[] && children == [] && messagesIn == [] && messagesOut == []
    {
      this.path := path;
      this.elementType := elementType;
      params := map[];
      children := [];
      messagesIn := [];
      messagesOut := [];
    }

    /** Sets (or overwrites) one parameter; the others keep their values. */
    method SetParam(name: string, value: real)
      modifies this`params
      ensures params == old(params)[name := value]
      ensures GetParam(name) == Some(value)
      ensures forall other :: other != name ==> GetParam(other) == old(GetParam(other))
    {
      params := params[name := value];
    }

    function GetParam(name: string): (r: Option<real>)
      reads this
      ensures r.None? <==> name !in params
      ensures r.Some? ==> r.value == params[name]
    {
      if name in params then Some(params[name]) else None
    }
  }

  /** The number of steps `run` takes: the quotient truncated toward zero
      by the saturating float-to-`usize` cast, so that a negative or NaN
      quotient gives 0 and an infinite or too large one gives `UsizeMax`. */
  function StepCount(duration: real, dt: real): (n: nat)
    ensures n <= UsizeMax
    ensures dt != 0.0 && duration / dt < 0.0 ==> n == 0
  {
    if dt == 0.0 then
      (if duration > 0.0 then UsizeMax else 0)
    else
      var q := duration / dt;
      if q < 0.0 then 0
      else if q.Floor >= UsizeMax then UsizeMax
      else q.Floor
  }

  /** With a positive step and a quotient below the cast's limit, `run`
      takes the largest number of whole steps that fit in the duration. */
  lemma StepCountFits(duration: real, dt: real)
    requires dt > 0.0 && 0.0 <= duration && duration / dt < UsizeMax as real
    ensures StepCount(duration, dt) as real * dt <= duration < (StepCount(duration, dt) + 1) as real * dt
  {
    var q := duration / dt;
    var n := StepCount(duration, dt);
    assert n == q.Floor;
    assert n as real <= q < n as real + 1.0;
    assert q * dt == duration;
    LeqScaled(n as real, q, dt);
    LeqScaled(q, n as real + 1.0, dt);
    assert (n as real + 1.0) * dt == (n + 1) as real * dt;
  }

  /** Scaling by a positive factor keeps the order. */
  lemma LeqScaled(a: real, b: real, c: real)
    requires a <= b && c > 0.0
    ensures a * c <= b * c
    ensures a < b ==> a * c < b * c
  {
    assert b * c - a * c == (b - a) * c;
  }

  class GenesisSimulation {
    var elements: map<string, Element>
    var time: real
    var dt: real
    var recordings: map<string, TimeSeries>

    /** Every element is stored under its own path. */
    ghost predicate Valid()
      reads this, elements.Values
    {
      forall p :: p in elements ==> elements[p].path == p
    }

    constructor ()
      ensures Valid()
      ensures elements == map[] && time == 0.0 && dt == DefaultDt && recordings == map[]
    {
      elements := map[];
      time := 0.0;
      dt := DefaultDt;
      recordings := map[];
    }

    /** A fresh element at `path`, replacing any element already there. */
    method Create(path: string, elementType: ElementType) returns (e: Element)
      requires Valid()
      modifies this`elements
      ensures Valid()
      ensures fresh(e) && elements == old(elements)[path := e]
      ensures e.path == path && e.elementType == elementType
      ensures e.params == map[] && e.children == [] && e.messagesIn == [] && e.messagesOut == []
      ensures Get(path) == Some(e)
    {
      e := new Element(path, elementType);
      elements := elements[path := e];
    }

    function Get(path: string): (r: Option<Element>)
      reads this
      ensures r.Some? <==> path in elements
      ensures r.Some? ==> r.value == elements[path]
    {
      if path in elements then Some(elements[path]) else None
    }

    /** The element at `path`, as a frame. */
    function At(path: string): set<Element>
      reads this
    {
      if path in elements then {elements[path]} else {}
    }

    /** Records the message on the source and then on the destination; a
        missing source changes nothing, but a missing destination is
        reported only after the source has recorded the message. */
    method AddMessage(source: string, sourceField: string, dest: string, destField: string, msgType: string)
      returns (r: Result<(), OldiesError>)
      modifies At(source)`messagesOut, At(dest)`messagesIn
      ensures var msg := Message(source, sourceField, dest, destField, msgType);
              (source !in elements ==> r == Err(ModelNotFound(source)) &&
                                       (dest in elements ==> elements[dest].messagesIn == old(elements[dest].messagesIn))) &&
              (source in elements ==> elements[source].messagesOut == old(elements[source].messagesOut) + [msg]) &&
              (source in elements && dest !in elements ==> r == Err(ModelNotFound(dest))) &&
              (source in elements && dest in elements ==>
                 r == Ok(()) && elements[dest].messagesIn == old(elements[dest].messagesIn) + [msg])
    {
      var msg := Message(source, sourceField, dest, destField, msgType);
      if source in elements {
        var e := elements[source];
        e.messagesOut := e.messagesOut + [msg];
      } else {
        return Err(ModelNotFound(source));
      }
      if dest in elements {
        var e := elements[dest];
        e.messagesIn := e.messagesIn + [msg];
      } else {
        return Err(ModelNotFound(dest));
      }
      r := Ok(());
    }

    /** One step: the clock advances by `dt` and nothing else changes. */
    method Step()
      modifies this`time
      ensures time == old(time) + dt
    {
      time := time + dt;
    }

    /** Takes `StepCount(duration, dt)` steps. */
    method Run(duration: real)
      modifies this`time
      ensures time == old(time) + StepCount(duration, dt) as real * dt
    {
      var steps := StepCount(duration, dt);
      var i := 0;
      while i < steps
        invariant 0 <= i <= steps
        invariant time == old(time) + i as real * dt
      {
        Step();
        assert (i + 1) as real * dt == i as real * dt + dt;
        i := i + 1;
      }
    }

    method SetDt(newDt: real)
      modifies this`dt
      ensures dt == newDt
    {
      dt := newDt;
    }

    function CurrentTime(): (t: real)
      reads this
      ensures t == time
    {
      time
    }
  }

  /** A run with a positive step ends within one step short of the
      requested duration. */
  lemma RunEndsWithinOneStep(start: real, duration: real, dt: real)
    requires dt > 0.0 && 0.0 <= duration && duration / dt < UsizeMax as real
    ensures var end := start + StepCount(duration, dt) as real * dt;
            start + duration - dt < end <= start + duration
  {
    StepCountFits(duration, dt);
    var n := StepCount(duration, dt);
    assert (n + 1) as real * dt == n as real * dt + dt;
  }

  // ---------------------------------------------------------------------------
  // Standard objects
  // ---------------------------------------------------------------------------

  /** A passive compartment with the standard membrane constants. */
  method NewCompartment(sim: GenesisSimulation, path: string) returns (e: Element)
    requires sim.Valid()
    modifies sim`elements
    ensures sim.Valid()
    ensures fresh(e) && sim.elements == old(sim.elements)[path := e]
    ensures e.path == path && e.elementType == Compartment
    ensures e.params == map["Rm" := 1000000000.0, "Cm" := 0.00000000001, "Ra" := 10000000.0,
                            "Em" := -0.065, "initVm" := -0.065, "Vm" := -0.065]
    ensures e.GetParam("Rm") == Some(1000000000.0)
  {
    e := sim.Create(path, Compartment);
    e.SetParam("Rm", 1000000000.0);
    e.SetParam("Cm", 0.00000000001);
    e.SetParam("Ra", 10000000.0);
    e.SetParam("Em", -0.065);
    e.SetParam("initVm", -0.065);
    e.SetParam("Vm", -0.065);
  }

  /** A Hodgkin-Huxley sodium channel. */
  method NewNaChannel(sim: GenesisSimulation, path: string) returns (e: Element)
    requires sim.Valid()
    modifies sim`elements
    ensures sim.Valid()
    ensures fresh(e) && sim.elements == old(sim.elements)[path := e]
    ensures e.path == path && e.elementType == NaChannel
    ensures e.params == map["Gbar" := 0.12, "Ek" := 0.045]
  {
    e := sim.Create(path, NaChannel);
    e.SetParam("Gbar", 0.12);
    e.SetParam("Ek", 0.045);
  }

  /** A Hodgkin-Huxley potassium channel. */
  method NewKChannel(sim: GenesisSimulation, path: string) returns (e: Element)
    requires sim.Valid()
    modifies sim`elements
    ensures sim.Valid()
    ensures fresh(e) && sim.elements == old(sim.elements)[path := e]
    ensures e.path == path && e.elementType == KChannel
    ensures e.params == map["Gbar" := 0.036, "Ek" := -0.082]
  {
    e := sim.Create(path, KChannel);
    e.SetParam("Gbar", 0.036);
    e.SetParam("Ek", -0.082);
  }
}
