/** The line-oriented parser of Brian equation text:
      dv/dt = <expression> : <unit>   a differential equation
      v = <expression> : <unit>       an algebraic equation
    Blank lines and lines starting with '#' are skipped. */
module BrianParse {
  import opened Wrappers
  import opened Brian

  // ---------------------------------------------------------------------------
  // String helpers with the meaning of the Rust `str` methods the parser uses
  // ---------------------------------------------------------------------------

  /** The Unicode White_Space characters, which `str::trim` removes. */
  predicate IsWhite(c: char)
  {
    || c == '\t' || c == '\n' || c == '\U{0B}' || c == '\U{0C}' || c == '\r' || c == ' '
    || c == '\U{85}' || c == '\U{A0}' || c == '\U{1680}' || ('\U{2000}' <= c <= '\U{200A}')
    || c == '\U{2028}' || c == '\U{2029}' || c == '\U{202F}' || c == '\U{205F}' || c == '\U{3000}'
  }

  function TrimStart(s: string): (r: string)
    ensures |r| <= |s|
    ensures r == [] || !IsWhite(r[0])
  {
    if s != [] && IsWhite(s[0]) then TrimStart(s[1..]) else s
  }

  function TrimEnd(s: string): (r: string)
    ensures |r| <= |s|
    ensures r == [] || !IsWhite(r[|r| - 1])
    ensures r != [] ==> r[0] == s[0]
  {
    if s != [] && IsWhite(s[|s| - 1]) then TrimEnd(s[..|s| - 1]) else s
  }

  /** `str::trim`: the text without leading and trailing white space. */
  function Trim(s: string): (r: string)
    ensures |r| <= |s|
    ensures r == [] || (!IsWhite(r[0]) && !IsWhite(r[|r| - 1]))
  {
    TrimEnd(TrimStart(s))
  }

  /** No white space at either end. */
  predicate Clean(s: string)
  {
    s == [] || (!IsWhite(s[0]) && !IsWhite(s[|s| - 1]))
  }

  /** `s.split(c).next()`: the text before the first `c`, or all of it. */
  function BeforeFirst(s: string, c: char): (r: string)
    ensures |r| <= |s| && c !in r
  {
    if s == [] || s[0] == c then [] else [s[0]] + BeforeFirst(s[1..], c)
  }

  /** The text after the first `c`. */
  function AfterFirst(s: string, c: char): (r: string)
    requires c in s
    ensures |r| < |s|
  {
    if s[0] == c then s[1..] else AfterFirst(s[1..], c)
  }

  predicate StartsWithDt(s: string)
  {
    |s| >= 3 && s[0] == '/' && s[1] == 'd' && s[2] == 't'
  }

  /** `s.contains("/dt")`. */
  predicate HasDt(s: string)
  {
    s != [] && (StartsWithDt(s) || HasDt(s[1..]))
  }

  /** `s.split("/dt").next()`: the text before the first "/dt". */
  function BeforeDt(s: string): (r: string)
    ensures |r| <= |s|
  {
    if s == [] || StartsWithDt(s) then [] else [s[0]] + BeforeDt(s[1..])
  }

  /** `s.trim_start_matches('d')`: every leading 'd' removed. */
  function TrimLeadingD(s: string): (r: string)
    ensures |r| <= |s|
  {
    if s != [] && s[0] == 'd' then TrimLeadingD(s[1..]) else s
  }

  /** `text.lines()` up to empty lines, which the parser skips anyway. */
  function Lines(text: string): seq<string>
    decreases |text|
  {
    if '\n' !in text then [text]
    else [BeforeFirst(text, '\n')] + Lines(AfterFirst(text, '\n'))
  }

  // ---------------------------------------------------------------------------
  // Parsing one line
  // ---------------------------------------------------------------------------

  /** How the variable name is cut from "d<name>/dt": as written, every
      leading 'd' is removed; the corrected rule removes exactly the one
      derivative 'd'. */
  datatype VariableRule = AllLeadingD | OneLeadingD

  function StripD(s: string, rule: VariableRule): string
  {
    match rule
    case AllLeadingD => TrimLeadingD(s)
    case OneLeadingD => if s != [] && s[0] == 'd' then s[1..] else s
  }

  datatype ParsedLine = Skipped | Differential(deq: DifferentialEquation) | Algebraic(aeq: AlgebraicEquation)

  /** The expression: the text after the first '=' and before the next '=',
      cut at the first ':' and trimmed. */
  function Expression(line: string): string
    requires '=' in line
  {
    Trim(BeforeFirst(BeforeFirst(AfterFirst(line, '='), '='), ':'))
  }

  /** One line of equation text under the given variable rule. */
  function ParseLineWith(raw: string, rule: VariableRule): (r: ParsedLine)
    ensures Trim(raw) == [] || Trim(raw)[0] == '#' ==> r == Skipped
    ensures r.Differential? <==> Trim(raw) != [] && Trim(raw)[0] == 'd' && HasDt(Trim(raw)) && '=' in Trim(raw)
    ensures r.Algebraic? <==> Trim(raw) != [] && Trim(raw)[0] != '#' && '=' in Trim(raw) && !HasDt(Trim(raw))
  {
    var line := Trim(raw);
    if line == [] || line[0] == '#' then Skipped
    else if line[0] == 'd' && HasDt(line) then
      if '=' in line then
        var variable := Trim(BeforeDt(StripD(Trim(BeforeFirst(line, '=')), rule)));
        Differential(DifferentialEquation(variable, Expression(line), Dimensionless, Euler))
      else Skipped
    else if '=' in line && !HasDt(line) then
      Algebraic(AlgebraicEquation(Trim(BeforeFirst(line, '=')), Expression(line), Dimensionless))
    else Skipped
  }

  /** An equation read under the line syntax: dimensionless, and Euler for
      a derivative. */
  predicate Plain(eq: DifferentialEquation)
  {
    eq.unit == Dimensionless && eq.integration == Euler
  }

  /** The differential equations of the lines, in order. */
  function Differentials(lines: seq<string>, rule: VariableRule): (r: seq<DifferentialEquation>)
    ensures |r| <= |lines|
    ensures forall k :: 0 <= k < |r| ==> Plain(r[k])
  {
    if lines == [] then []
    else
      var p := ParseLineWith(lines[|lines| - 1], rule);
      Differentials(lines[..|lines| - 1], rule) + (if p.Differential? then [p.deq] else [])
  }

  /** The algebraic equations of the lines, in order. */
  function Algebraics(lines: seq<string>, rule: VariableRule): (r: seq<AlgebraicEquation>)
    ensures |r| <= |lines|
    ensures forall k :: 0 <= k < |r| ==> r[k].unit == Dimensionless
  {
    if lines == [] then []
    else
      var p := ParseLineWith(lines[|lines| - 1], rule);
      Algebraics(lines[..|lines| - 1], rule) + (if p.Algebraic? then [p.aeq] else [])
  }

  /** The equations of `text` under the given variable rule; the parser
      never sets a threshold, reset, refractory period or parameter. */
  function EquationsWith(text: string, rule: VariableRule): (eqs: NeuronEquations)
    ensures |eqs.differential| + |eqs.algebraic| <= 2 * |Lines(text)|
    ensures eqs.threshold == None && eqs.reset == None && eqs.refractory == None
    ensures eqs.parameters == map[]
  {
    var lines := Lines(text);
    NeuronEquations(Differentials(lines, rule), Algebraics(lines, rule), None, None, None, map[])
  }

  /** What `parse_equations` returns for `text`, as written: every leading
      'd' is stripped from a derivative's left side. */
  function EquationsOf(text: string): NeuronEquations
  {
    EquationsWith(text, AllLeadingD)
  }

  /** The evidently intended result: only the derivative's own 'd' is
      removed. */
  function CorrectedEquationsOf(text: string): NeuronEquations
  {
    EquationsWith(text, OneLeadingD)
  }

  /** One more line adds what that line parses into. */
  lemma EquationsStep(lines: seq<string>, i: nat, rule: VariableRule)
    requires i < |lines|
    ensures var p := ParseLineWith(lines[i], rule);
            Differentials(lines[..i + 1], rule) == Differentials(lines[..i], rule) + (if p.Differential? then [p.deq] else [])
            && Algebraics(lines[..i + 1], rule) == Algebraics(lines[..i], rule) + (if p.Algebraic? then [p.aeq] else [])
  {
    assert lines[..i + 1][..i] == lines[..i];
  }

  /** Parses equation text line by line; it never fails. */
  method ParseEquations(text: string) returns (r: Result<NeuronEquations, BrianError>)
    ensures r == Ok(EquationsOf(text))
    ensures r.value.threshold == None && r.value.reset == None && r.value.refractory == None
    ensures r.value.parameters == map[]
  {
    var lines := Lines(text);
    var differential: seq<DifferentialEquation> := [];
    var algebraic: seq<AlgebraicEquation> := [];
    var i := 0;
    while i < |lines|
      invariant 0 <= i <= |lines|
      invariant differential == Differentials(lines[..i], AllLeadingD)
      invariant algebraic == Algebraics(lines[..i], AllLeadingD)
    {
      var parsed := ParseLineWith(lines[i], AllLeadingD);
      EquationsStep(lines, i, AllLeadingD);
      match parsed {
        case Differential(eq) => differential := differential + [eq];
        case Algebraic(eq) => algebraic := algebraic + [eq];
        case Skipped =>
      }
      i := i + 1;
    }
    assert lines[..i] == lines;
    return Ok(NeuronEquations(differential, algebraic, None, None, None, map[]));
  }

  // ---------------------------------------------------------------------------
  // Lemmas about the string helpers
  // ---------------------------------------------------------------------------

  predicate AllWhite(w: string)
  {
    forall k :: 0 <= k < |w| ==> IsWhite(w[k])
  }

  lemma {:induction false} TrimStartWhite(w: string, s: string)
    requires AllWhite(w)
    ensures TrimStart(w + s) == TrimStart(s)
  {
    if w != [] {
      assert (w + s)[0] == w[0];
      assert (w + s)[1..] == w[1..] + s;
      TrimStartWhite(w[1..], s);
    } else {
      assert w + s == s;
    }
  }

  lemma {:induction false} TrimEndWhite(s: string, w: string)
    requires AllWhite(w)
    ensures TrimEnd(s + w) == TrimEnd(s)
  {
    if w != [] {
      assert (s + w)[|s + w| - 1] == w[|w| - 1];
      assert (s + w)[..|s + w| - 1] == s + w[..|w| - 1];
      TrimEndWhite(s, w[..|w| - 1]);
    } else {
      assert s + w == s;
    }
  }

  /** Trimming a clean text with white space around it gives the text back. */
  lemma TrimPadded(a: string, s: string, b: string)
    requires AllWhite(a) && AllWhite(b) && Clean(s)
    ensures Trim(a + s + b) == s
  {
    assert a + s + b == a + (s + b);
    TrimStartWhite(a, s + b);
    if s == [] {
      assert s + b == b + [];
      TrimStartWhite(b, []);
      assert TrimStart(a + s + b) == [];
    } else {
      assert TrimStart(s + b) == s + b;
      TrimEndWhite(s, b);
      assert TrimEnd(s) == s;
    }
  }

  lemma {:induction false} SplitAtFirst(a: string, c: char, b: string)
    requires c !in a
    ensures c in a + [c] + b
    ensures BeforeFirst(a + [c] + b, c) == a
    ensures AfterFirst(a + [c] + b, c) == b
  {
    assert (a + [c] + b)[|a|] == c;
    if a != [] {
      SplitAtFirst(a[1..], c, b);
      assert (a + [c] + b)[1..] == a[1..] + [c] + b;
    }
  }

  lemma {:induction false} BeforeFirstAbsent(s: string, c: char)
    requires c !in s
    ensures BeforeFirst(s, c) == s
  {
    if s != [] {
      BeforeFirstAbsent(s[1..], c);
    }
  }

  lemma {:induction false} NoDtTail(s: string)
    requires !HasDt(s) && s != []
    ensures !HasDt(s[1..])
  {
  }

  /** "/dt" cannot straddle into a text that starts with a space. */
  lemma {:induction false} NoDtJoin(a: string, b: string)
    requires !HasDt(a) && !HasDt(b) && (b == [] || b[0] == ' ')
    ensures !HasDt(a + b)
  {
    if a == [] {
      assert a + b == b;
    } else {
      NoDtJoin(a[1..], b);
      assert (a + b)[1..] == a[1..] + b;
      if |a| >= 3 {
        assert (a + b)[..3] == a[..3];
      }
    }
  }

  lemma NoDtCons(c: char, s: string)
    requires c != '/' && !HasDt(s)
    ensures !HasDt([c] + s)
  {
    assert ([c] + s)[1..] == s;
  }

  lemma {:induction false} HasDtAt(s: string, i: nat)
    requires i + 3 <= |s| && s[i..i + 3] == "/dt"
    ensures HasDt(s)
  {
    if i > 0 {
      HasDtAt(s[1..], i - 1);
      assert s[1..][i - 1..i + 2] == s[i..i + 3];
    } else {
      assert s[0] == '/' && s[1] == 'd' && s[2] == 't';
    }
  }

  /** Cutting "v/dt" before its first "/dt" gives v back. */
  lemma {:induction false} BeforeDtAppend(v: string)
    requires !HasDt(v)
    ensures BeforeDt(v + "/dt") == v
  {
    if v != [] {
      assert !StartsWithDt(v + "/dt") by {
        if |v| >= 3 {
          assert (v + "/dt")[..3] == v[..3];
        } else if |v| == 1 {
          assert (v + "/dt")[1] == '/';
        } else {
          assert (v + "/dt")[2] == '/';
        }
      }
      BeforeDtAppend(v[1..]);
      assert (v + "/dt")[1..] == v[1..] + "/dt";
    }
  }

  lemma {:induction false} TrimLeadingDAppend(w: string)
    ensures TrimLeadingD(w + "/dt") == TrimLeadingD(w) + "/dt"
  {
    if w != [] && w[0] == 'd' {
      TrimLeadingDAppend(w[1..]);
      assert (w + "/dt")[1..] == w[1..] + "/dt";
    }
  }

  lemma {:induction false} TrimLeadingDSuffix(w: string)
    requires !HasDt(w)
    ensures !HasDt(TrimLeadingD(w))
  {
    if w != [] && w[0] == 'd' {
      TrimLeadingDSuffix(w[1..]);
    }
  }

  lemma {:induction false} LinesSingle(line: string)
    requires '\n' !in line
    ensures Lines(line) == [line]
  {
  }

  // ---------------------------------------------------------------------------
  // What the parser recovers
  // ---------------------------------------------------------------------------

  /** A name or expression the line syntax can carry unchanged. */
  predicate Token(s: string)
  {
    Clean(s) && '=' !in s && '\n' !in s && !HasDt(s)
  }

  /** The line "d<v>/dt = <e> : <u>". */
  function DifferentialLine(v: string, e: string, u: string): string
  {
    "d" + v + "/dt = " + e + " : " + u
  }

  /** The line "<v> = <e> : <u>". */
  function AlgebraicLine(v: string, e: string, u: string): string
  {
    v + " = " + e + " : " + u
  }

  /** The expression of a line "<head> = <e> : <u>" is e. */
  lemma ExpressionOf(head: string, e: string, u: string)
    requires '=' !in head && Token(e) && ':' !in e && '=' !in u
    ensures '=' in head + " = " + e + " : " + u
    ensures BeforeFirst(head + " = " + e + " : " + u, '=') == head + " "
    ensures Expression(head + " = " + e + " : " + u) == e
  {
    var rest := " " + e + " : " + u;
    assert head + " = " + e + " : " + u == (head + " ") + ['='] + rest;
    SplitAtFirst(head + " ", '=', rest);
    BeforeFirstAbsent(rest, '=');
    assert rest == (" " + e + " ") + [':'] + (" " + u);
    SplitAtFirst(" " + e + " ", ':', " " + u);
    TrimPadded(" ", e, " ");
  }

  lemma {:induction false} HasDtPrefix(a: string, b: string)
    requires HasDt(a)
    ensures HasDt(a + b)
  {
    assert (a + b)[1..] == a[1..] + b;
    if StartsWithDt(a) {
      assert (a + b)[..3] == a[..3];
    } else {
      HasDtPrefix(a[1..], b);
    }
  }

  /** A line "<head> = <e> : <u>" is already trimmed and splits at its first
      '=' into head and the expression e. */
  lemma EquationLine(head: string, e: string, u: string)
    requires head != [] && Clean(head) && '=' !in head
    requires Token(e) && ':' !in e && '=' !in u
    requires u != [] && !IsWhite(u[|u| - 1])
    ensures '=' in head + " = " + e + " : " + u
    ensures Trim(head + " = " + e + " : " + u) == head + " = " + e + " : " + u
    ensures Trim(BeforeFirst(head + " = " + e + " : " + u, '=')) == head
    ensures Expression(head + " = " + e + " : " + u) == e
  {
    ExpressionOf(head, e, u);
    LineTrimmed(head + " = " + e + " : " + u);
    HeadTrimmed(head);
  }

  lemma LineTrimmed(line: string)
    requires line != [] && !IsWhite(line[0]) && !IsWhite(line[|line| - 1])
    ensures Trim(line) == line
  {
    TrimPadded([], line, []);
    assert [] + line + [] == line;
  }

  lemma HeadTrimmed(head: string)
    requires Clean(head)
    ensures Trim(head + " ") == head
  {
    TrimPadded([], head, " ");
    assert [] + head + " " == head + " ";
  }

  /** Under either variable rule, a differential line parses into a
      differential equation whose expression is e and whose variable is cut
      from "d<v>/dt" by that rule. */
  lemma DifferentialLineParts(v: string, e: string, u: string, rule: VariableRule)
    requires Token(v) && Token(e) && ':' !in e && '=' !in u && '\n' !in u
    requires u != [] && !IsWhite(u[|u| - 1])
    ensures ParseLineWith(DifferentialLine(v, e, u), rule) ==
              Differential(DifferentialEquation(Trim(BeforeDt(StripD("d" + v + "/dt", rule))), e, Dimensionless, Euler))
  {
    var line := DifferentialLine(v, e, u);
    DifferentialLineHasDt(v, e, u);
    DifferentialLineSides(v, e, u);
    assert line[0] == 'd';
  }

  /** A differential line holds "/dt". */
  lemma DifferentialLineHasDt(v: string, e: string, u: string)
    ensures HasDt(DifferentialLine(v, e, u))
  {
    var head := "d" + v + "/dt";
    assert head[1 + |v|..1 + |v| + 3] == "/dt";
    HasDtAt(head, 1 + |v|);
    HasDtPrefix(head, " = " + e + " : " + u);
    assert head + (" = " + e + " : " + u) == DifferentialLine(v, e, u);
  }

  /** A differential line is trimmed, its left side is "d<v>/dt" and its
      expression is e. */
  lemma DifferentialLineSides(v: string, e: string, u: string)
    requires Token(v) && Token(e) && ':' !in e && '=' !in u && '\n' !in u
    requires u != [] && !IsWhite(u[|u| - 1])
    ensures var line := DifferentialLine(v, e, u);
            Trim(line) == line && '=' in line && Trim(BeforeFirst(line, '=')) == "d" + v + "/dt" && Expression(line) == e
  {
    var head := "d" + v + "/dt";
    assert DifferentialLine(v, e, u) == head + " = " + e + " : " + u;
    assert head[|head| - 1] == 't' && head[0] == 'd';
    EquationLine(head, e, u);
  }

  /** A single line of text yields exactly what that line parses into. */
  lemma SingleLineEquations(line: string, rule: VariableRule)
    requires '\n' !in line
    ensures EquationsWith(line, rule).differential ==
              (if ParseLineWith(line, rule).Differential? then [ParseLineWith(line, rule).deq] else [])
    ensures EquationsWith(line, rule).algebraic ==
              (if ParseLineWith(line, rule).Algebraic? then [ParseLineWith(line, rule).aeq] else [])
  {
    LinesSingle(line);
    assert [line][..0] == [];
    var p := ParseLineWith(line, rule);
    assert Differentials([line], rule) == Differentials([], rule) + (if p.Differential? then [p.deq] else []);
    assert Algebraics([line], rule) == Algebraics([], rule) + (if p.Algebraic? then [p.aeq] else []);
  }

  /** Removing the one derivative 'd' from "d<v>/dt" and cutting at "/dt"
      gives v back. */
  lemma OneLeadingDVariable(v: string)
    requires Token(v)
    ensures Trim(BeforeDt(StripD("d" + v + "/dt", OneLeadingD))) == v
  {
    assert StripD("d" + v + "/dt", OneLeadingD) == v + "/dt";
    BeforeDtAppend(v);
    TrimPadded([], v, []);
    assert [] + v + [] == v;
  }

  /** Round trip of the corrected parser: the line "d<v>/dt = <e> : <u>"
      parses into the single differential equation dv/dt = e, with v and e
      unchanged, whatever letter v starts with. */
  lemma DifferentialRoundTrip(v: string, e: string, u: string)
    requires Token(v) && Token(e) && ':' !in e && '=' !in u && '\n' !in u
    requires u != [] && !IsWhite(u[|u| - 1])
    ensures CorrectedEquationsOf(DifferentialLine(v, e, u)).differential == [DifferentialEquation(v, e, Dimensionless, Euler)]
    ensures CorrectedEquationsOf(DifferentialLine(v, e, u)).algebraic == []
  {
    var line := DifferentialLine(v, e, u);
    assert ParseLineWith(line, OneLeadingD) == Differential(DifferentialEquation(v, e, Dimensionless, Euler)) by {
      DifferentialLineParts(v, e, u, OneLeadingD);
      OneLeadingDVariable(v);
    }
    NoNewline3("d" + v + "/dt = ", e, " : " + u);
    SingleLineEquations(line, OneLeadingD);
  }

  /** Stripping every leading 'd' from "d<v>/dt" removes only the
      derivative's own when v does not start with 'd'. */
  lemma AllLeadingDPlain(v: string)
    requires Token(v) && (v == [] || v[0] != 'd')
    ensures Trim(BeforeDt(StripD("d" + v + "/dt", AllLeadingD))) == v
  {
    var w := "d" + v + "/dt";
    assert w[0] == 'd' && w[1..] == v + "/dt";
    assert TrimLeadingD(w) == TrimLeadingD(v + "/dt");
    TrimLeadingDAppend(v);
    assert TrimLeadingD(v) == v;
    BeforeDtAppend(v);
    TrimPadded([], v, []);
    assert [] + v + [] == v;
  }

  /** As written, the round trip holds for a variable that does not start
      with 'd': stripping every leading 'd' then removes only the
      derivative's own. */
  lemma AsWrittenRoundTrip(v: string, e: string, u: string)
    requires Token(v) && Token(e) && ':' !in e && '=' !in u && '\n' !in u
    requires u != [] && !IsWhite(u[|u| - 1])
    requires v == [] || v[0] != 'd'
    ensures EquationsOf(DifferentialLine(v, e, u)).differential == [DifferentialEquation(v, e, Dimensionless, Euler)]
    ensures EquationsOf(DifferentialLine(v, e, u)).algebraic == []
  {
    var line := DifferentialLine(v, e, u);
    assert ParseLineWith(line, AllLeadingD) == Differential(DifferentialEquation(v, e, Dimensionless, Euler)) by {
      DifferentialLineParts(v, e, u, AllLeadingD);
      AllLeadingDPlain(v);
    }
    NoNewline3("d" + v + "/dt = ", e, " : " + u);
    SingleLineEquations(line, AllLeadingD);
  }

  /** Joining three texts without a line break gives one line. */
  lemma NoNewline3(a: string, b: string, c: string)
    requires '\n' !in a && '\n' !in b && '\n' !in c
    ensures '\n' !in a + b + c
  {
    assert forall k :: 0 <= k < |a + b + c| ==> (a + b + c)[k] in a || (a + b + c)[k] in b || (a + b + c)[k] in c;
  }

  /** As written, a variable whose name starts with 'd' (say "delta") is
      read back shorter, under a different name: the text
      "ddelta/dt = ..." yields one differential equation, for "elta". */
  lemma LeadingDsStripped(v: string, e: string, u: string)
    requires Token(v) && Token(e) && ':' !in e && '=' !in u && '\n' !in u
    requires u != [] && !IsWhite(u[|u| - 1])
    requires v != [] && v[0] == 'd'
    ensures EquationsOf(DifferentialLine(v, e, u)).differential ==
              [DifferentialEquation(Trim(TrimLeadingD(v[1..])), e, Dimensionless, Euler)]
    ensures |Trim(TrimLeadingD(v[1..]))| < |v|
    ensures EquationsOf(DifferentialLine(v, e, u)).algebraic == []
  {
    var line := DifferentialLine(v, e, u);
    DifferentialLineParts(v, e, u, AllLeadingD);
    AllLeadingDVariable(v);
    NoNewline3("d" + v + "/dt = ", e, " : " + u);
    SingleLineEquations(line, AllLeadingD);
  }

  /** The line "ddelta/dt = x : 1" is the differential line of
      ("delta", "x", "1"). */
  lemma DeltaLine()
    ensures DifferentialLine("delta", "x", "1") == "ddelta/dt = x : 1"
  {
  }

  /** Its pieces meet the round-trip conditions. */
  lemma DeltaTokens()
    ensures Token("delta") && Token("x") && ':' !in "x" && '=' !in "1" && '\n' !in "1" && !IsWhite('1')
  {
  }

  /** Stripping the 'd's of "delta" after the first leaves "elta". */
  lemma DeltaVariable()
    ensures "delta"[1..] == "elta" && Trim(TrimLeadingD("elta")) == "elta"
  {
    assert TrimLeadingD("elta") == "elta";
    LineTrimmed("elta");
  }

  /** The concrete case: as written, "ddelta/dt = x : 1" defines "elta",
      not "delta". */
  lemma DeltaExample()
    ensures EquationsOf("ddelta/dt = x : 1").differential == [DifferentialEquation("elta", "x", Dimensionless, Euler)]
  {
    DeltaLine();
    DeltaTokens();
    DeltaVariable();
    LeadingDsStripped("delta", "x", "1");
  }

  /** The same text under the corrected rule defines "delta". */
  lemma DeltaCorrected()
    ensures CorrectedEquationsOf("ddelta/dt = x : 1").differential == [DifferentialEquation("delta", "x", Dimensionless, Euler)]
  {
    DeltaLine();
    DeltaTokens();
    DifferentialRoundTrip("delta", "x", "1");
  }

  /** With every leading 'd' stripped, the variable read back is the
      stripped remainder of `v` after its first letter. */
  lemma AllLeadingDVariable(v: string)
    requires Token(v) && v != [] && v[0] == 'd'
    ensures BeforeDt(StripD("d" + v + "/dt", AllLeadingD)) == TrimLeadingD(v[1..])
  {
    var w := v[1..];
    assert TrimLeadingD("d" + v + "/dt") == TrimLeadingD(w) + "/dt" by {
      assert ("d" + v + "/dt")[1..] == v + "/dt";
      assert ("d" + v + "/dt")[2..] == w + "/dt";
      TrimLeadingDAppend(w);
    }
    assert !HasDt(TrimLeadingD(w)) by {
      NoDtTail(v);
      TrimLeadingDSuffix(w);
    }
    BeforeDtAppend(TrimLeadingD(w));
  }

  /** A prefix without '/' cannot start a "/dt". */
  lemma {:induction false} NoDtSlashFree(p: string, s: string)
    requires '/' !in p && !HasDt(s)
    ensures !HasDt(p + s)
  {
    if p != [] {
      NoDtSlashFree(p[1..], s);
      NoDtCons(p[0], p[1..] + s);
      assert p + s == [p[0]] + (p[1..] + s);
    } else {
      assert p + s == s;
    }
  }

  /** An algebraic line holds no "/dt" when none of its parts does. */
  lemma AlgebraicLineNoDt(v: string, e: string, u: string)
    requires !HasDt(v) && !HasDt(e) && !HasDt(u)
    ensures !HasDt(AlgebraicLine(v, e, u))
  {
    var tail := " : " + u;
    NoDtSlashFree(" : ", u);
    var mid := e + tail;
    NoDtJoin(e, tail);
    var rest := " = " + mid;
    NoDtSlashFree(" = ", mid);
    NoDtJoin(v, rest);
    assert AlgebraicLine(v, e, u) == v + rest;
  }

  /** Round trip: the line "<v> = <e> : <u>" parses into the single algebraic
      equation v = e, under either variable rule. */
  lemma AlgebraicRoundTrip(v: string, e: string, u: string, rule: VariableRule)
    requires Token(v) && Token(e) && ':' !in e && '=' !in u && '\n' !in u && !HasDt(u)
    requires v != [] && v[0] != '#'
    requires u != [] && !IsWhite(u[|u| - 1])
    ensures EquationsWith(AlgebraicLine(v, e, u), rule).algebraic == [AlgebraicEquation(v, e, Dimensionless)]
    ensures EquationsWith(AlgebraicLine(v, e, u), rule).differential == []
  {
    var line := AlgebraicLine(v, e, u);
    assert ParseLineWith(line, rule) == Algebraic(AlgebraicEquation(v, e, Dimensionless)) by {
      AlgebraicLineNoDt(v, e, u);
      assert line == v + " = " + e + " : " + u;
      EquationLine(v, e, u);
      assert line[0] == v[0];
    }
    NoNewline3(v + " = ", e, " : " + u);
    SingleLineEquations(line, rule);
  }

  /** Lines that are blank or start with '#' contribute nothing. */
  lemma SkippedLines(lines: seq<string>, extra: string, rule: VariableRule)
    requires Trim(extra) == [] || Trim(extra)[0] == '#'
    ensures Differentials(lines + [extra], rule) == Differentials(lines, rule)
    ensures Algebraics(lines + [extra], rule) == Algebraics(lines, rule)
  {
    assert (lines + [extra])[..|lines|] == lines;
  }
}
