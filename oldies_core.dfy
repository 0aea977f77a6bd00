/** Shared types of the simulator crates: the common error kinds, the
    `TimeSeries` recording buffer and the gating-rate functions of ion
    channels. */
module OldiesCore {
  import opened Wrappers

  /** The error kinds every simulator crate reports; the message is kept as
      plain text. */
  datatype OldiesError =
    | ParseError(msg: string)
    | SimulationError(msg: string)
    | ModelNotFound(msg: string)
    | IoError(msg: string)
    | NumericalError(msg: string)

  function Abs(x: real): (r: real)
    ensures r >= 0.0 && (r == x || r == -x)
  {
    if x < 0.0 then -x else x
  }

  // ---------------------------------------------------------------------------
  // Time series
  // ---------------------------------------------------------------------------

  /** A recorded trace: time points and the value at each of them. */
  class TimeSeries {
    var time: seq<real>
    var values: seq<real>
    var name: string
    var units: Option<string>

    /** The two vectors grow in lockstep. */
    ghost predicate Valid()
      reads this
    {
      |time| == |values|
    }

    constructor (name: string)
      ensures Valid()
      ensures time == [] && values == []
      ensures this.name == name && units == None
    {
      time := [];
      values := [];
      this.name := name;
      units := None;
    }

    method Push(t: real, v: real)
      requires Valid()
      modifies this
      ensures Valid()
      ensures time == old(time) + [t] && values == old(values) + [v]
      ensures Len() == old(Len()) + 1
      ensures name == old(name) && units == old(units)
    {
      time := time + [t];
      values := values + [v];
    }

    /** The number of samples: it counts the values as well as the time points. */
    function Len(): (n: nat)
      requires Valid()
      reads this
      ensures n == |values|
    {
      |time|
    }

    function IsEmpty(): (b: bool)
      requires Valid()
      reads this
      ensures b <==> Len() == 0
      ensures b <==> values == []
    {
      |time| == 0
    }
  }

  // ---------------------------------------------------------------------------
  // Rate functions
  // ---------------------------------------------------------------------------

  /** The voltage-dependent forms of a gating rate alpha(V) or beta(V). */
  datatype RateFunction =
    | HodgkinHuxley(a: real, b: real, c: real)
    | Exponential(a: real, b: real, c: real)
    | Sigmoid(a: real, b: real, c: real)
    | Linear(a: real, b: real)
    | Constant(k: real)

  /** The threshold below which the Hodgkin-Huxley form is replaced by its
      limit a*c (L'Hopital's rule at V + B = 0). */
  const SmallArgument: real := 0.000001

  /** The argument (V + B) / C of the exponential forms. */
  function Scaled(b: real, c: real, v: real): real
    requires c != 0.0
  {
    (v + b) / c
  }

  /** The Hodgkin-Huxley form A*(V+B)/(exp((V+B)/C) - 1), with its
      L'Hopital value A*C when |(V+B)/C| < 1e-6. */
  function HodgkinHuxleyRate(rf: RateFunction, v: real, exp: real -> real): (r: Option<real>)
    requires rf.HodgkinHuxley?
    ensures r.None? <==>
              rf.c == 0.0 || (Abs(Scaled(rf.b, rf.c, v)) >= SmallArgument && exp(Scaled(rf.b, rf.c, v)) == 1.0)
    ensures rf.c != 0.0 && Abs(Scaled(rf.b, rf.c, v)) < SmallArgument ==> r == Some(rf.a * rf.c)
    ensures r.Some? && Abs(Scaled(rf.b, rf.c, v)) >= SmallArgument ==>
              r.value * (exp(Scaled(rf.b, rf.c, v)) - 1.0) == rf.a * (v + rf.b)
  {
    if rf.c == 0.0 then None
    else if Abs(Scaled(rf.b, rf.c, v)) < SmallArgument then Some(rf.a * rf.c)
    else if exp(Scaled(rf.b, rf.c, v)) - 1.0 == 0.0 then None
    else Some(rf.a * (v + rf.b) / (exp(Scaled(rf.b, rf.c, v)) - 1.0))
  }

  /** The sigmoid form A/(1 + exp((V+B)/C)). */
  function SigmoidRate(rf: RateFunction, v: real, exp: real -> real): (r: Option<real>)
    requires rf.Sigmoid?
    ensures r.None? <==> rf.c == 0.0 || 1.0 + exp(Scaled(rf.b, rf.c, v)) == 0.0
    ensures r.Some? ==> r.value * (1.0 + exp(Scaled(rf.b, rf.c, v))) == rf.a
  {
    if rf.c == 0.0 || 1.0 + exp(Scaled(rf.b, rf.c, v)) == 0.0 then None
    else Some(rf.a / (1.0 + exp(Scaled(rf.b, rf.c, v))))
  }

  /** The rate at voltage `v`; `exp` is the exponential function. `None`
      stands for a zero denominator (exp(x) = 1 in the general Hodgkin-Huxley
      branch, 1 + exp(x) = 0 in the sigmoid), where the floating-point result
      is not a finite number, and for a zero `c`. With a zero `c`, x is an
      infinity whose sign is that of the signed zero, which a real does not
      carry, so the model gives no value there. */
  function Eval(rf: RateFunction, v: real, exp: real -> real): (r: Option<real>)
    ensures r.None? <==>
              ((rf.HodgkinHuxley? || rf.Exponential? || rf.Sigmoid?) && rf.c == 0.0) ||
              (rf.HodgkinHuxley? && rf.c != 0.0 && Abs(Scaled(rf.b, rf.c, v)) >= SmallArgument &&
               exp(Scaled(rf.b, rf.c, v)) == 1.0) ||
              (rf.Sigmoid? && rf.c != 0.0 && 1.0 + exp(Scaled(rf.b, rf.c, v)) == 0.0)
    ensures rf.Constant? ==> r == Some(rf.k)
    ensures rf.Linear? ==> r == Some(rf.a * (v + rf.b))
    ensures rf.HodgkinHuxley? && rf.c != 0.0 && Abs(Scaled(rf.b, rf.c, v)) < SmallArgument ==>
              r == Some(rf.a * rf.c)
    ensures rf.HodgkinHuxley? && r.Some? && Abs(Scaled(rf.b, rf.c, v)) >= SmallArgument ==>
              r.value * (exp(Scaled(rf.b, rf.c, v)) - 1.0) == rf.a * (v + rf.b)
    ensures rf.Sigmoid? && r.Some? ==> r.value * (1.0 + exp(Scaled(rf.b, rf.c, v))) == rf.a
  {
    if rf.HodgkinHuxley? then HodgkinHuxleyRate(rf, v, exp)
    else if rf.Exponential? then (if rf.c == 0.0 then None else Some(rf.a * exp(Scaled(rf.b, rf.c, v))))
    else if rf.Sigmoid? then SigmoidRate(rf, v, exp)
    else if rf.Linear? then Some(rf.a * (v + rf.b))
    else Some(rf.k)
  }

  /** |n / d| < e exactly when |n| < e * |d|. */
  lemma QuotientBelow(n: real, d: real, e: real)
    requires d != 0.0
    ensures Abs(n / d) < e <==> Abs(n) < e * Abs(d)
  {
    var q := n / d;
    assert n == q * d;
    assert Abs(n) == Abs(q) * Abs(d) by {
      if q < 0.0 && d < 0.0 { assert -q * -d == q * d; }
      else if q < 0.0 { assert -q * d == -(q * d); }
      else if d < 0.0 { assert q * -d == -(q * d); }
    }
    if Abs(q) < e {
      assert Abs(q) * Abs(d) < e * Abs(d);
    } else {
      assert Abs(q) * Abs(d) >= e * Abs(d);
    }
  }

  /** A constant rate does not depend on the voltage. */
  lemma ConstantRateIgnoresVoltage(k: real, v1: real, v2: real, exp: real -> real)
    ensures Eval(Constant(k), v1, exp) == Eval(Constant(k), v2, exp) == Some(k)
  {
  }

  /** A linear rate vanishes exactly at V = -B (when A is not zero) and is
      additive in the voltage offset. */
  lemma LinearRateRootAndSlope(a: real, b: real, v: real, dv: real, exp: real -> real)
    ensures Eval(Linear(a, b), v + dv, exp).value == Eval(Linear(a, b), v, exp).value + a * dv
    ensures a != 0.0 ==> (Eval(Linear(a, b), v, exp) == Some(0.0) <==> v == -b)
  {
  }

  /** The Hodgkin-Huxley rate takes its L'Hopital value a*c on the whole window
      |V + B| < 1e-6 * |C| around V = -B, whatever the voltage inside it. */
  lemma HodgkinHuxleySmallBranch(rf: RateFunction, v: real, exp: real -> real)
    requires rf.HodgkinHuxley? && rf.c != 0.0
    requires Abs(v + rf.b) < SmallArgument * Abs(rf.c)
    ensures Eval(rf, v, exp) == Some(rf.a * rf.c)
  {
    QuotientBelow(v + rf.b, rf.c, SmallArgument);
    assert Abs(Scaled(rf.b, rf.c, v)) < SmallArgument;
    assert Eval(rf, v, exp).Some?;
    assert Eval(rf, v, exp).value == rf.a * rf.c;
  }

  /** Below its midpoint (V + B < 0, with positive A and C and V + B clear
      of the small window) the Hodgkin-Huxley rate is positive, given that
      the exponential of a negative number lies strictly between 0 and 1. */
  lemma HodgkinHuxleyPositive(rf: RateFunction, v: real, exp: real -> real)
    requires rf.HodgkinHuxley? && rf.a > 0.0 && rf.c > 0.0 && v + rf.b <= -SmallArgument * rf.c
    requires 0.0 < exp(Scaled(rf.b, rf.c, v)) < 1.0
    ensures Eval(rf, v, exp).Some?
    ensures Eval(rf, v, exp).value > 0.0
  {
    QuotientBelow(v + rf.b, rf.c, SmallArgument);
    var r := Eval(rf, v, exp).value;
    var den := exp(Scaled(rf.b, rf.c, v)) - 1.0;
    assert r * den == rf.a * (v + rf.b) < 0.0;
  }
}
