/**
  Conditional inclusion: the preprocessor's flat stack machine over lines,
  against the nested groups of section 6.10.1 of ISO/IEC 9899:2018.
 */
module Conditionals {
  type Defines = map<string, string>

  /** The integer an `#if` expression has under the current definitions. */
  type Evaluator = (string, Defines) -> int

  datatype Condition = Expression(text: string) | Defined(name: string) | NotDefined(name: string)

  datatype Line =
    | Text(token: string)
    | Define(name: string, body: string)
    | Undef(name: string)
    | Diagnose(message: string)
    | If(condition: Condition)
    | Elif(condition: Condition)
    | Else
    | Endif

  datatype CondState = OuterSkip | Active | Inactive | Done

  predicate Holds(ev: Evaluator, condition: Condition, defines: Defines)
  {
    match condition
    case Expression(text) => ev(text, defines) != 0
    case Defined(name) => name in defines
    case NotDefined(name) => name !in defines
  }

  /** What lines leave behind; `evaluated` lists the `#if` expressions evaluated, in order. */
  datatype Effect = Effect(defines: Defines, output: seq<string>, diagnostics: seq<string>, evaluated: seq<string>)

  function Evaluate(condition: Condition, e: Effect): Effect
  {
    if condition.Expression? then e.(evaluated := e.evaluated + [condition.text]) else e
  }

  function Plain(line: Line, e: Effect): Effect
    requires line.Text? || line.Define? || line.Undef? || line.Diagnose?
  {
    match line
    case Text(token) => e.(output := e.output + [token])
    case Define(name, body) => e.(defines := e.defines[name := body])
    case Undef(name) => e.(defines := e.defines - {name})
    case Diagnose(message) => e.(diagnostics := e.diagnostics + [message])
  }

  // ----- The flat machine.

  datatype Machine = Machine(stack: seq<CondState>, effect: Effect)

  predicate Skipping(stack: seq<CondState>) { exists i :: 0 <= i < |stack| && !stack[i].Active? }

  function Push(m: Machine, active: bool): Machine
  {
    m.(stack := m.stack + [if Skipping(m.stack) then OuterSkip else if active then Active else Inactive])
  }

  function SetTop(m: Machine, state: CondState): Machine
    requires m.stack != []
  {
    m.(stack := m.stack[..|m.stack| - 1] + [state])
  }

  /** `#elif` and `#else` (no condition). */
  function Advance(ev: Evaluator, m: Machine, guard: Guard): Machine
  {
    if m.stack == [] then m
    else
      match m.stack[|m.stack| - 1]
      case Active => SetTop(m, Done)
      case Inactive =>
        (match guard
         case Otherwise => SetTop(m, Active)
         case When(condition) =>
           SetTop(m.(effect := Evaluate(condition, m.effect)),
                  if Holds(ev, condition, m.effect.defines) then Active else Inactive))
      case other => SetTop(m, other)
  }

  function Step(ev: Evaluator, m: Machine, line: Line): Machine
  {
    match line
    case If(condition) =>
      if Skipping(m.stack) then Push(m, false)
      else Push(m.(effect := Evaluate(condition, m.effect)), Holds(ev, condition, m.effect.defines))
    case Elif(condition) => Advance(ev, m, When(condition))
    case Else => Advance(ev, m, Otherwise)
    case Endif => if m.stack == [] then m else m.(stack := m.stack[..|m.stack| - 1])
    case _ => if Skipping(m.stack) then m else m.(effect := Plain(line, m.effect))
  }

  function Flat(ev: Evaluator, m: Machine, lines: seq<Line>): Machine
    decreases |lines|
  {
    if lines == [] then m else Flat(ev, Step(ev, m, lines[0]), lines[1..])
  }

  /** The preprocessor's conditional state, updated in place one line at a time. */
  class TokenStream {
    var condStack: seq<CondState>
    var defines: Defines
    var output: seq<string>
    var diagnostics: seq<string>
    ghost var evaluated: seq<string>
    const ev: Evaluator

    constructor (ev: Evaluator, defines: Defines)
      ensures this.ev == ev && State() == Machine([], Effect(defines, [], [], []))
    {
      this.ev := ev;
      this.condStack, this.defines, this.output, this.diagnostics, this.evaluated := [], defines, [], [], [];
    }

    ghost function State(): Machine
      reads this
    {
      Machine(condStack, Effect(defines, output, diagnostics, evaluated))
    }

    method IsSkipping() returns (r: bool)
      ensures r == Skipping(condStack)
    {
      for i := 0 to |condStack|
        invariant forall j | 0 <= j < i :: condStack[j].Active?
      {
        if !condStack[i].Active? {
          return true;
        }
      }
      return false;
    }

    method Test(condition: Condition) returns (r: bool)
      modifies this`evaluated
      ensures State() == old(State()).(effect := Evaluate(condition, old(State()).effect))
      ensures r == Holds(ev, condition, defines)
    {
      if condition.Expression? {
        evaluated := evaluated + [condition.text];
      }
      r := Holds(ev, condition, defines);
    }

    method PushCond(skipping: bool, active: bool)
      requires skipping == Skipping(condStack)
      modifies this`condStack
      ensures State() == Push(old(State()), active)
    {
      condStack := condStack + [if skipping then OuterSkip else if active then Active else Inactive];
    }

    method AdvanceCond(guard: Guard)
      modifies this`condStack, this`evaluated
      ensures State() == Advance(ev, old(State()), guard)
    {
      if condStack == [] {
        return;
      }
      var next;
      match condStack[|condStack| - 1] {
        case Inactive =>
          var holds := true;
          if guard.When? {
            holds := Test(guard.condition);
          }
          next := if holds then Active else Inactive;
        case Active => next := Done;
        case other => next := other;
      }
      condStack := condStack[..|condStack| - 1] + [next];
    }

    method Process(line: Line)
      modifies this
      ensures State() == Step(ev, old(State()), line)
    {
      var skipping := IsSkipping();
      match line {
        case Text(token) => if !skipping { output := output + [token]; }
        case Define(name, body) => if !skipping { defines := defines[name := body]; }
        case Undef(name) => if !skipping { defines := defines - {name}; }
        case Diagnose(message) => if !skipping { diagnostics := diagnostics + [message]; }
        case If(condition) =>
          var result := false;
          if !skipping {
            result := Test(condition);
          }
          PushCond(skipping, result);
        case Elif(condition) => AdvanceCond(When(condition));
        case Else => AdvanceCond(Otherwise);
        case Endif =>
          if condStack != [] {
            condStack := condStack[..|condStack| - 1];
          }
      }
    }

    method ProcessAll(lines: seq<Line>)
      modifies this
      ensures State() == Flat(ev, old(State()), lines)
    {
      for i := 0 to |lines|
        invariant Flat(ev, old(State()), lines) == Flat(ev, State(), lines[i..])
      {
        assert lines[i..][0] == lines[i] && lines[i..][1..] == lines[i + 1..];
        Process(lines[i]);
      }
    }
  }

  // ----- Nested groups.

  datatype Guard = When(condition: Condition) | Otherwise

  datatype Branch = Branch(guard: Guard, body: seq<Section>)

  /** A line, or an if-section: a condition, its group, and the groups of its `#elif`s and `#else`s. */
  datatype Section = Single(line: Line) | Choice(condition: Condition, body: seq<Section>, more: seq<Branch>)

  ghost predicate WellFormed(s: Section)
  {
    match s
    case Single(line) => line.Text? || line.Define? || line.Undef? || line.Diagnose?
    case Choice(_, body, more) =>
      (forall t | t in body :: WellFormed(t)) && (forall b | b in more :: forall t | t in b.body :: WellFormed(t))
  }

  ghost predicate AllWellFormed(group: seq<Section>) { forall s | s in group :: WellFormed(s) }

  function Lines(group: seq<Section>): seq<Line>
    decreases group, 1
  {
    if group == [] then [] else SectionLines(group[0]) + Lines(group[1..])
  }

  function SectionLines(s: Section): seq<Line>
    decreases s, 0
  {
    match s
    case Single(line) => [line]
    case Choice(condition, body, more) => [If(condition)] + Lines(body) + BranchLines(more) + [Endif]
  }

  function BranchLines(more: seq<Branch>): seq<Line>
    decreases more, 0
  {
    if more == [] then []
    else
      [if more[0].guard.When? then Elif(more[0].guard.condition) else Else] + Lines(more[0].body) + BranchLines(more[1..])
  }

  /** Groups in order; of each if-section, the first group whose condition holds. */
  function Nested(ev: Evaluator, group: seq<Section>, e: Effect): Effect
    requires AllWellFormed(group)
    decreases group, 1
  {
    if group == [] then e else Nested(ev, group[1..], NestedSection(ev, group[0], e))
  }

  function NestedSection(ev: Evaluator, s: Section, e: Effect): Effect
    requires WellFormed(s)
    decreases s, 0
  {
    match s
    case Single(line) => Plain(line, e)
    case Choice(condition, body, more) =>
      var tested := Evaluate(condition, e);
      if Holds(ev, condition, e.defines) then Nested(ev, body, tested) else FirstTrue(ev, more, tested)
  }

  function FirstTrue(ev: Evaluator, more: seq<Branch>, e: Effect): Effect
    requires forall b | b in more :: AllWellFormed(b.body)
    decreases more, 0
  {
    if more == [] then e
    else
      match more[0].guard
      case Otherwise => Nested(ev, more[0].body, e)
      case When(condition) =>
        var tested := Evaluate(condition, e);
        if Holds(ev, condition, e.defines) then Nested(ev, more[0].body, tested) else FirstTrue(ev, more[1..], tested)
  }

  // ----- What directives do, one by one.

  /** A condition opens or leaves closed the group behind it where nothing is skipped; skipped, it is not even looked at. */
  lemma {:induction false} IfTests(ev: Evaluator, m: Machine, condition: Condition)
    ensures var after := Step(ev, m, If(condition));
            if exists i :: 0 <= i < |m.stack| && m.stack[i] != Active then after == m.(stack := m.stack + [OuterSkip])
            else
              && after.stack == m.stack + [if IsTrue(ev, condition, m.effect.defines) then Active else Inactive]
              && after.effect.defines == m.effect.defines && after.effect.output == m.effect.output
              && after.effect.diagnostics == m.effect.diagnostics
              && after.effect.evaluated == m.effect.evaluated + if condition.Expression? then [condition.text] else []
  {
  }

  /** An expression is true when it is not 0, `ifdef` when the name is defined, `ifndef` when it is not. */
  ghost predicate IsTrue(ev: Evaluator, condition: Condition, defines: Defines)
  {
    || (condition.Expression? && ev(condition.text, defines) != 0)
    || (condition.Defined? && condition.name in defines.Keys)
    || (condition.NotDefined? && !(condition.name in defines.Keys))
  }

  /** `#elif` takes an inactive group on when its condition is true, and ends an active one without a look. */
  lemma {:induction false} ElifTests(ev: Evaluator, m: Machine, condition: Condition)
    ensures var after := Step(ev, m, Elif(condition));
            if m.stack == [] || m.stack[|m.stack| - 1] == OuterSkip || m.stack[|m.stack| - 1] == Done then after == m
            else if m.stack[|m.stack| - 1] == Active then after == m.(stack := m.stack[..|m.stack| - 1] + [Done])
            else after.stack == m.stack[..|m.stack| - 1] + [if IsTrue(ev, condition, m.effect.defines) then Active else Inactive]
  {
    if m.stack != [] {
      assert m.stack == m.stack[..|m.stack| - 1] + [m.stack[|m.stack| - 1]];
    }
  }

  /** `#else` takes an inactive group on and ends an active one. */
  lemma {:induction false} ElseTurns(ev: Evaluator, m: Machine)
    ensures var after := Step(ev, m, Else);
            after.effect == m.effect &&
            (m.stack != [] ==>
               after.stack == m.stack[..|m.stack| - 1] + [match m.stack[|m.stack| - 1] case Active => Done case Inactive => Active case other => other])
  {
  }

  /** Where nothing is skipped a line is passed on, or defines, or undefines its name alone; elsewhere it does nothing. */
  lemma {:induction false} PlainLines(ev: Evaluator, m: Machine, name: string, text: string)
    ensures var skipping := exists i :: 0 <= i < |m.stack| && m.stack[i] != Active;
            var (passed, reported) := (Step(ev, m, Text(text)), Step(ev, m, Diagnose(text)));
            var (defined, undefined) := (Step(ev, m, Define(name, text)), Step(ev, m, Undef(name)));
            if skipping then passed == m && reported == m && defined == m && undefined == m
            else
              && reported == m.(effect := m.effect.(diagnostics := m.effect.diagnostics + [text]))
              && passed == m.(effect := m.effect.(output := m.effect.output + [text]))
              && defined == m.(effect := m.effect.(defines := defined.effect.defines))
              && undefined == m.(effect := m.effect.(defines := undefined.effect.defines))
              && name in defined.effect.defines && defined.effect.defines[name] == text && name !in undefined.effect.defines
              && forall other | other != name ::
                   && (other in defined.effect.defines <==> other in m.effect.defines)
                   && (other in undefined.effect.defines <==> other in m.effect.defines)
                   && (other in m.effect.defines ==>
                         defined.effect.defines[other] == m.effect.defines[other] == undefined.effect.defines[other])
  {
  }

  // ----- The flat machine refines the nested meaning.

  lemma {:induction false} FlatConcat(ev: Evaluator, m: Machine, a: seq<Line>, b: seq<Line>)
    ensures Flat(ev, m, a + b) == Flat(ev, Flat(ev, m, a), b)
    decreases |a|
  {
    if a == [] {
      assert a + b == b;
    } else {
      assert (a + b)[1..] == a[1..] + b;
      FlatConcat(ev, Step(ev, m, a[0]), a[1..], b);
    }
  }

  lemma {:induction false} FlatOne(ev: Evaluator, m: Machine, line: Line)
    ensures Flat(ev, m, [line]) == Step(ev, m, line)
  {
  }

  lemma SkippingTop(stack: seq<CondState>, top: CondState)
    ensures Skipping(stack + [top]) <==> Skipping(stack) || !top.Active?
  {
    var s := stack + [top];
    if Skipping(stack) {
      var i :| 0 <= i < |stack| && !stack[i].Active?;
      assert !s[i].Active?;
    }
    assert s[|stack|] == top;
  }

  /**
    From any state, the flat machine over the lines of a well-nested group
    leaves the stack as it was and, unless an enclosing group is skipped, has
    exactly the effect of the nested meaning: the same tokens, definitions and
    diagnostics, and the same expressions evaluated.
   */
  lemma {:induction false} FlatRefinesNested(ev: Evaluator, m: Machine, group: seq<Section>)
    requires AllWellFormed(group)
    ensures Flat(ev, m, Lines(group)) == if Skipping(m.stack) then m else m.(effect := Nested(ev, group, m.effect))
    decreases group, 1
  {
    if group != [] {
      FlatConcat(ev, m, SectionLines(group[0]), Lines(group[1..]));
      FlatRefinesSection(ev, m, group[0]);
      var next := Flat(ev, m, SectionLines(group[0]));
      FlatRefinesNested(ev, next, group[1..]);
    }
  }

  lemma {:induction false} FlatRefinesSection(ev: Evaluator, m: Machine, s: Section)
    requires WellFormed(s)
    ensures Flat(ev, m, SectionLines(s)) == if Skipping(m.stack) then m else m.(effect := NestedSection(ev, s, m.effect))
    decreases s, 0
  {
    match s
    case Single(line) =>
      FlatOne(ev, m, line);
    case Choice(condition, body, more) =>
      var opening := [If(condition)];
      FlatConcat(ev, m, opening + Lines(body) + BranchLines(more), [Endif]);
      FlatConcat(ev, m, opening + Lines(body), BranchLines(more));
      FlatConcat(ev, m, opening, Lines(body));
      FlatOne(ev, m, If(condition));
      var inside := Step(ev, m, If(condition));
      var top := inside.stack[|m.stack|];
      assert inside.stack == m.stack + [top];
      SkippingTop(m.stack, top);
      FlatRefinesNested(ev, inside, body);
      var after := Flat(ev, inside, Lines(body));
      BranchesRefine(ev, m.stack, top, after.effect, more);
      FlatOne(ev, Flat(ev, after, BranchLines(more)), Endif);
  }

  /** The branches after the first, entered with `top` on the stack. */
  lemma {:induction false} BranchesRefine(ev: Evaluator, stack: seq<CondState>, top: CondState, e: Effect, more: seq<Branch>)
    requires forall b | b in more :: AllWellFormed(b.body)
    requires top.OuterSkip? <==> Skipping(stack)
    ensures var m := Flat(ev, Machine(stack + [top], e), BranchLines(more));
            && |m.stack| == |stack| + 1 && m.stack[..|stack|] == stack
            && m.effect == if top.Inactive? then FirstTrue(ev, more, e) else e
    decreases more, 0
  {
    var m := Machine(stack + [top], e);
    if more != [] {
      var line := if more[0].guard.When? then Elif(more[0].guard.condition) else Else;
      FlatConcat(ev, m, [line] + Lines(more[0].body), BranchLines(more[1..]));
      FlatConcat(ev, m, [line], Lines(more[0].body));
      FlatOne(ev, m, line);
      var inside := Step(ev, m, line);
      var next := inside.stack[|stack|];
      assert inside.stack == stack + [next];
      SkippingTop(stack, next);
      FlatRefinesNested(ev, inside, more[0].body);
      var after := Flat(ev, inside, Lines(more[0].body));
      BranchesRefine(ev, stack, next, after.effect, more[1..]);
    }
  }

  // ----- Every well-nested line sequence is the spelling of some group.

  ghost predicate WellNested(lines: seq<Line>, depth: nat)
    decreases |lines|
  {
    if lines == [] then depth == 0
    else
      match lines[0]
      case If(_) => WellNested(lines[1..], depth + 1)
      case Elif(_) => depth > 0 && WellNested(lines[1..], depth)
      case Else => depth > 0 && WellNested(lines[1..], depth)
      case Endif => depth > 0 && WellNested(lines[1..], depth - 1)
      case _ => WellNested(lines[1..], depth)
  }

  ghost predicate Ends(line: Line) { line.Elif? || line.Else? || line.Endif? }

  lemma {:induction false} ParseGroup(lines: seq<Line>, depth: nat) returns (group: seq<Section>, rest: seq<Line>)
    requires WellNested(lines, depth)
    ensures AllWellFormed(group) && lines == Lines(group) + rest && WellNested(rest, depth)
    ensures rest == [] || Ends(rest[0])
    decreases |lines|, 1
  {
    if lines == [] || Ends(lines[0]) {
      group, rest := [], lines;
    } else {
      var section, after := ParseSection(lines, depth);
      var others;
      others, rest := ParseGroup(after, depth);
      group := [section] + others;
      assert group[1..] == others;
    }
  }

  lemma {:induction false} ParseSection(lines: seq<Line>, depth: nat) returns (section: Section, rest: seq<Line>)
    requires WellNested(lines, depth) && lines != [] && !Ends(lines[0])
    ensures WellFormed(section) && lines == SectionLines(section) + rest && WellNested(rest, depth)
    ensures |rest| < |lines|
    decreases |lines|, 0
  {
    if lines[0].If? {
      var body, after := ParseGroup(lines[1..], depth + 1);
      var more;
      more, rest := ParseBranches(after, depth + 1);
      section := Choice(lines[0].condition, body, more);
    } else {
      section, rest := Single(lines[0]), lines[1..];
    }
  }

  lemma {:induction false} ParseBranches(lines: seq<Line>, depth: nat) returns (more: seq<Branch>, rest: seq<Line>)
    requires depth > 0 && WellNested(lines, depth) && (lines == [] || Ends(lines[0]))
    ensures forall b | b in more :: AllWellFormed(b.body)
    ensures lines == BranchLines(more) + [Endif] + rest && WellNested(rest, depth - 1)
    decreases |lines|, 0
  {
    if lines[0].Endif? {
      more, rest := [], lines[1..];
    } else {
      var body, after := ParseGroup(lines[1..], depth);
      var others;
      others, rest := ParseBranches(after, depth);
      more := [Branch(if lines[0].Elif? then When(lines[0].condition) else Otherwise, body)] + others;
      assert more[1..] == others;
    }
  }

  /** A unit of well-nested lines is preprocessed as the groups it spells. */
  method Preprocess(ev: Evaluator, defines: Defines, lines: seq<Line>) returns (stream: TokenStream, ghost group: seq<Section>)
    requires WellNested(lines, 0)
    ensures AllWellFormed(group) && Lines(group) == lines
    ensures stream.State() == Machine([], Nested(ev, group, Effect(defines, [], [], [])))
  {
    stream := new TokenStream(ev, defines);
    ghost var rest;
    group, rest := ParseGroup(lines, 0);
    assert rest == [];
    assert Lines(group) + [] == Lines(group);
    FlatRefinesNested(ev, stream.State(), group);
    stream.ProcessAll(lines);
  }
}
