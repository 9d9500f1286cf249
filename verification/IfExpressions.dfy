/**
  The `#if` expression evaluator: precedence climbing straight to a value. The
  evaluator is proved for any arithmetic an operator may have, so for a build
  that wraps as well as for `CheckedArithmetic`, the 64-bit arithmetic of a
  build that checks overflow (`None` is the panic).
 */
module IfExpressions {
  import opened Options
  import opened Bits64

  datatype Token =
    | Or | And | BitOr | BitXor | BitAnd | Eq | Ne | Lt | Le | Gt | Ge | Shl | Shr
    | Plus | Minus | Star | Slash | Percent
    | Bang | Tilde | LParen | RParen | Question | Colon | DefinedKeyword
    | Integer(n: int) | Identifier(name: string) | Stray(text: string)

  /** A macro's value in an `#if`: an integer-literal body, or nothing usable. */
  type Defines = map<string, Option<int>>

  function Precedence(t: Token): Option<nat>
  {
    match t
    case Or => Some(0)
    case And => Some(1)
    case BitOr => Some(2)
    case BitXor => Some(3)
    case BitAnd => Some(4)
    case Eq => Some(5)
    case Ne => Some(5)
    case Lt => Some(6)
    case Le => Some(6)
    case Gt => Some(6)
    case Ge => Some(6)
    case Shl => Some(7)
    case Shr => Some(7)
    case Plus => Some(8)
    case Minus => Some(8)
    case Star => Some(9)
    case Slash => Some(9)
    case Percent => Some(9)
    case _ => None
  }

  // ----- Arithmetic.

  function Checked(x: int): Option<int>
  {
    if Fits(x) then Some(x) else None
  }

  function Bit(b: bool): int { if b then 1 else 0 }

  /** Division rounding toward zero. */
  function Quotient(a: int, b: int): int
    requires b != 0
  {
    if a >= 0 then a / b else -(-a / b)
  }

  function Apply(op: Token, a: int, b: int): Option<int>
  {
    match op
    case Or => Some(Bit(a != 0 || b != 0))
    case And => Some(Bit(a != 0 && b != 0))
    case BitOr => Some(BitwiseOr(a, b))
    case BitXor => Some(BitwiseXor(a, b))
    case BitAnd => Some(BitwiseAnd(a, b))
    case Eq => Some(Bit(a == b))
    case Ne => Some(Bit(a != b))
    case Lt => Some(Bit(a < b))
    case Le => Some(Bit(a <= b))
    case Gt => Some(Bit(a > b))
    case Ge => Some(Bit(a >= b))
    case Shl => if 0 <= b < WIDTH then Some(Wrapped(a * Pow2(b))) else None
    case Shr => if 0 <= b < WIDTH then Some(a / Pow2(b)) else None
    case Plus => Checked(a + b)
    case Minus => Checked(a - b)
    case Star => Checked(a * b)
    case Slash => if b == 0 then Some(0) else Checked(Quotient(a, b))
    case Percent =>
      if b == 0 then Some(0)
      else if Checked(Quotient(a, b)).None? then None
      else Checked(a - b * Quotient(a, b))
    case _ => None
  }

  datatype Prefix = Not | Complement | Negate | Keep

  function PrefixOf(t: Token): Option<Prefix>
  {
    match t
    case Bang => Some(Not)
    case Tilde => Some(Complement)
    case Minus => Some(Negate)
    case Plus => Some(Keep)
    case _ => None
  }

  function ApplyPrefix(p: Prefix, x: int): Option<int>
  {
    match p
    case Not => Some(Bit(x == 0))
    case Complement => Some(0 - x - 1)
    case Negate => Checked(0 - x)
    case Keep => Some(x)
  }

  /** What names mean, and the arithmetic of each operator. */
  datatype Env = Env(defines: Defines, binary: (Token, int, int) -> Option<int>, prefix: (Prefix, int) -> Option<int>)

  function CheckedArithmetic(defines: Defines): Env { Env(defines, Apply, ApplyPrefix) }

  function NameValue(defines: Defines, name: string): int
  {
    if name in defines && defines[name].Some? then defines[name].value else 0
  }

  /** Whether `t` is a binary operator of precedence at least `least`. */
  predicate Binds(t: Token, least: nat) { Precedence(t).Some? && Precedence(t).value >= least }

  // ----- The grammar's equations.

  datatype Outcome = Panic | Stop(value: int, pos: nat)

  predicate At(toks: seq<Token>, pos: nat, t: Token) { pos < |toks| && toks[pos] == t }

  function Skip(toks: seq<Token>, pos: nat, t: Token): nat { if At(toks, pos, t) then pos + 1 else pos }

  /** The grammar's levels; `Operators` continues a binary expression whose left side is known. */
  datatype Rule = Ternary | Binary(least: nat) | Operators(least: nat, left: int) | Unary | Primary

  function Level(rule: Rule): nat
  {
    match rule
    case Ternary => 4
    case Binary(_) => 3
    case Operators(_, _) => 2
    case Unary => 1
    case Primary => 0
  }

  /** What a rule gives at `pos`, where `f` says what the rules it uses give. */
  function OneStep(f: (Rule, nat) -> Outcome, rule: Rule, toks: seq<Token>, env: Env, pos: nat): Outcome
  {
    match rule
    case Ternary =>
      var test := f(Binary(0), pos);
      if test.Panic? || !At(toks, test.pos, Question) then test
      else
        var yes := f(Ternary, test.pos + 1);
        if yes.Panic? then Panic
        else
          var no := f(Ternary, Skip(toks, yes.pos, Colon));
          if no.Panic? then Panic else Stop(if test.value != 0 then yes.value else no.value, no.pos)
    case Binary(least) =>
      var left := f(Unary, pos);
      if left.Panic? then Panic else f(Operators(least, left.value), left.pos)
    case Operators(least, left) =>
      if pos >= |toks| || !Binds(toks[pos], least) then Stop(left, pos)
      else
        var right := f(Binary(Precedence(toks[pos]).value + 1), pos + 1);
        if right.Panic? then Panic
        else
          var value := env.binary(toks[pos], left, right.value);
          if value.None? then Panic else f(Operators(least, value.value), right.pos)
    case Unary =>
      if pos < |toks| && PrefixOf(toks[pos]).Some? then
        var operand := f(Unary, pos + 1);
        if operand.Panic? then Panic
        else
          var value := env.prefix(PrefixOf(toks[pos]).value, operand.value);
          if value.None? then Panic else Stop(value.value, operand.pos)
      else if At(toks, pos, DefinedKeyword) then
        var name := Skip(toks, pos + 1, LParen);
        var found := name < |toks| && toks[name].Identifier?;
        var after := if found then name + 1 else name;
        Stop(Bit(found && toks[name].name in env.defines), if name != pos + 1 then Skip(toks, after, RParen) else after)
      else f(Primary, pos)
    case Primary =>
      if pos >= |toks| then Stop(0, pos)
      else if toks[pos].Integer? then Stop(toks[pos].n, pos + 1)
      else if toks[pos].Identifier? then Stop(NameValue(env.defines, toks[pos].name), pos + 1)
      else if toks[pos].LParen? then
        var inner := f(Ternary, pos + 1);
        if inner.Panic? then Panic else Stop(inner.value, Skip(toks, inner.pos, RParen))
      else Stop(0, pos + 1)
  }

  /** `f` solves the grammar's equations over `toks`. */
  ghost predicate Solves(f: (Rule, nat) -> Outcome, toks: seq<Token>, env: Env)
  {
    && (forall rule, pos: nat {:trigger f(rule, pos)} | pos <= |toks| && f(rule, pos).Stop? :: pos <= f(rule, pos).pos <= |toks|)
    && (forall rule, pos: nat {:trigger OneStep(f, rule, toks, env, pos)} | pos <= |toks| ::
          f(rule, pos) == OneStep(f, rule, toks, env, pos))
  }

  /** The solution: positions only grow, and a rule uses lower ones at its own. */
  function Parse(rule: Rule, toks: seq<Token>, env: Env, pos: nat): (r: Outcome)
    requires pos <= |toks|
    ensures r.Stop? ==> pos <= r.pos <= |toks|
    decreases |toks| - pos, Level(rule)
  {
    var later := (r: Rule, p: nat) =>
      if p <= |toks| && (pos < p || (pos == p && Level(r) < Level(rule))) then Parse(r, toks, env, p) else Panic;
    StepAdvances(later, rule, toks, env, pos);
    OneStep(later, rule, toks, env, pos)
  }

  /** A step ends no earlier than it starts, if what it looks at does. */
  lemma {:induction false} StepAdvances(f: (Rule, nat) -> Outcome, rule: Rule, toks: seq<Token>, env: Env, pos: nat)
    requires pos <= |toks|
    requires forall r: Rule, p: nat | f(r, p).Stop? :: p <= f(r, p).pos <= |toks|
    ensures OneStep(f, rule, toks, env, pos).Stop? ==> pos <= OneStep(f, rule, toks, env, pos).pos <= |toks|
  {
  }

  function Solution(toks: seq<Token>, env: Env): (Rule, nat) -> Outcome
  {
    (rule: Rule, pos: nat) => if pos <= |toks| then Parse(rule, toks, env, pos) else Panic
  }

  lemma {:induction false} SolutionSolves(toks: seq<Token>, env: Env)
    ensures Solves(Solution(toks, env), toks, env)
  {
    var f := Solution(toks, env);
    forall rule: Rule, pos: nat | pos <= |toks|
      ensures f(rule, pos) == OneStep(f, rule, toks, env, pos)
    {
      var g := (r: Rule, p: nat) =>
        if p <= |toks| && (pos < p || (pos == p && Level(r) < Level(rule))) then Parse(r, toks, env, p) else Panic;
      assert f(rule, pos) == OneStep(g, rule, toks, env, pos);
      SameStep(f, g, rule, toks, env, pos);
    }
  }

  /** A step looks only at later positions, and at lower rules here. */
  lemma {:induction false} SameStep(f: (Rule, nat) -> Outcome, g: (Rule, nat) -> Outcome, rule: Rule, toks: seq<Token>, env: Env, pos: nat)
    requires pos <= |toks|
    requires forall r: Rule, p: nat | p <= |toks| && (pos < p || (pos == p && Level(r) < Level(rule))) :: f(r, p) == g(r, p)
    requires forall r: Rule, p: nat | p <= |toks| && f(r, p).Stop? :: p <= f(r, p).pos <= |toks|
    ensures OneStep(f, rule, toks, env, pos) == OneStep(g, rule, toks, env, pos)
  {
  }

  // ----- The evaluator that walks the tokens.

  class IfExpr {
    const toks: seq<Token>
    var pos: nat
    const env: Env

    constructor (toks: seq<Token>, env: Env)
      ensures this.toks == toks && this.env == env && pos == 0
    {
      this.toks, this.pos, this.env := toks, 0, env;
    }

    method SkipOne(t: Token) returns (skipped: bool)
      modifies this
      ensures skipped == At(toks, old(pos), t) && pos == Skip(toks, old(pos), t)
    {
      skipped := pos < |toks| && toks[pos] == t;
      if skipped {
        pos := pos + 1;
      }
    }

    method EvalTernary(ghost f: (Rule, nat) -> Outcome) returns (r: Option<int>)
      requires pos <= |toks| && Solves(f, toks, env)
      modifies this
      ensures f(Ternary, old(pos)) == if r.None? then Panic else Stop(r.value, pos)
      decreases |toks| - pos, 4
    {
      ghost var all := OneStep(f, Ternary, toks, env, pos);
      var value := EvalBinary(0, f);
      if value.None? {
        return None;
      }
      var asks := SkipOne(Question);
      if !asks {
        return value;
      }
      var yes := EvalTernary(f);
      if yes.None? {
        return None;
      }
      var _ := SkipOne(Colon);
      var no := EvalTernary(f);
      if no.None? {
        return None;
      }
      return if value.value != 0 then yes else no;
    }

    method EvalBinary(least: nat, ghost f: (Rule, nat) -> Outcome) returns (r: Option<int>)
      requires pos <= |toks| && Solves(f, toks, env)
      modifies this
      ensures f(Binary(least), old(pos)) == if r.None? then Panic else Stop(r.value, pos)
      decreases |toks| - pos, 3
    {
      ghost var all := OneStep(f, Binary(least), toks, env, pos);
      r := EvalUnary(f);
      if r.None? {
        return;
      }
      ghost var chain := OneStep(f, Operators(least, r.value), toks, env, pos);
      while pos < |toks| && Binds(toks[pos], least)
        invariant r.Some? && old(pos) <= pos <= |toks|
        invariant all == f(Operators(least, r.value), pos) == OneStep(f, Operators(least, r.value), toks, env, pos)
        decreases |toks| - pos
      {
        var op := toks[pos];
        pos := pos + 1;
        var right := EvalBinary(Precedence(op).value + 1, f);
        if right.None? {
          return None;
        }
        r := env.binary(op, r.value, right.value);
        if r.None? {
          return;
        }
        chain := OneStep(f, Operators(least, r.value), toks, env, pos);
      }
    }

    method EvalUnary(ghost f: (Rule, nat) -> Outcome) returns (r: Option<int>)
      requires pos <= |toks| && Solves(f, toks, env)
      modifies this
      ensures f(Unary, old(pos)) == if r.None? then Panic else Stop(r.value, pos)
      decreases |toks| - pos, 1
    {
      ghost var all := OneStep(f, Unary, toks, env, pos);
      if pos < |toks| && PrefixOf(toks[pos]).Some? {
        var prefix := PrefixOf(toks[pos]).value;
        pos := pos + 1;
        r := EvalUnary(f);
        if r.Some? {
          r := env.prefix(prefix, r.value);
        }
        return;
      }
      var defined := SkipOne(DefinedKeyword);
      if defined {
        var paren := SkipOne(LParen);
        var value := 0;
        if pos < |toks| && toks[pos].Identifier? {
          value := Bit(toks[pos].name in env.defines);
          pos := pos + 1;
        }
        if paren {
          var _ := SkipOne(RParen);
        }
        return Some(value);
      }
      r := EvalPrimary(f);
    }

    method EvalPrimary(ghost f: (Rule, nat) -> Outcome) returns (r: Option<int>)
      requires pos <= |toks| && Solves(f, toks, env)
      modifies this
      ensures f(Primary, old(pos)) == if r.None? then Panic else Stop(r.value, pos)
      decreases |toks| - pos, 0
    {
      ghost var all := OneStep(f, Primary, toks, env, pos);
      if pos == |toks| {
        return Some(0);
      }
      var t := toks[pos];
      pos := pos + 1;
      match t {
        case Integer(n) => r := Some(n);
        case Identifier(name) => r := Some(NameValue(env.defines, name));
        case LParen =>
          r := EvalTernary(f);
          if r.Some? {
            var _ := SkipOne(RParen);
          }
        case _ => r := Some(0);
      }
    }
  }

  // ----- What each rule does where its parts are.

  /** No binary operator of precedence at least `least` stands at `pos`. */
  ghost predicate Stops(toks: seq<Token>, pos: nat, least: nat)
  {
    pos <= |toks| && (pos < |toks| ==> !Binds(toks[pos], least))
  }

  ghost function End(value: Option<int>, pos: nat): Outcome
  {
    if value.None? then Panic else Stop(value.value, pos)
  }

  lemma {:induction false} ChoiceStep(f: (Rule, nat) -> Outcome, toks: seq<Token>, env: Env, pos: nat, q: nat, c: nat, end: nat,
                                      test: Option<int>, yes: Option<int>, no: Option<int>)
    requires Solves(f, toks, env) && pos <= q < c < |toks| && toks[q] == Question && toks[c] == Colon
    requires f(Binary(0), pos) == End(test, q) && f(Ternary, q + 1) == End(yes, c) && f(Ternary, c + 1) == End(no, end)
    ensures f(Ternary, pos)
         == if test.None? || yes.None? || no.None? then Panic else Stop(if test.value != 0 then yes.value else no.value, end)
  {
    var all := OneStep(f, Ternary, toks, env, pos);
  }

  lemma {:induction false} OperatorStep(f: (Rule, nat) -> Outcome, toks: seq<Token>, env: Env, at: nat, end: nat, p: nat, least: nat,
                                        left: int, right: Option<int>)
    requires Solves(f, toks, env) && at < |toks| && Precedence(toks[at]) == Some(p) && least <= p
    requires f(Binary(p + 1), at + 1) == End(right, end)
    ensures f(Operators(least, left), at)
         == if right.None? || env.binary(toks[at], left, right.value).None? then Panic
            else f(Operators(least, env.binary(toks[at], left, right.value).value), end)
  {
    var chain := OneStep(f, Operators(least, left), toks, env, at);
  }

  lemma {:induction false} ChainStops(f: (Rule, nat) -> Outcome, toks: seq<Token>, env: Env, pos: nat, least: nat, left: int)
    requires Solves(f, toks, env) && Stops(toks, pos, least)
    ensures f(Operators(least, left), pos) == Stop(left, pos)
  {
    var chain := OneStep(f, Operators(least, left), toks, env, pos);
  }

  lemma {:induction false} ParenthesisStep(f: (Rule, nat) -> Outcome, toks: seq<Token>, env: Env, pos: nat, end: nat, inner: Option<int>)
    requires Solves(f, toks, env) && At(toks, pos, LParen) && At(toks, end, RParen) && f(Ternary, pos + 1) == End(inner, end)
    ensures f(Unary, pos) == End(inner, end + 1)
  {
    var all := OneStep(f, Unary, toks, env, pos);
    var one := OneStep(f, Primary, toks, env, pos);
  }

  lemma {:induction false} LeafStep(f: (Rule, nat) -> Outcome, toks: seq<Token>, env: Env, pos: nat)
    requires Solves(f, toks, env) && pos < |toks| && (toks[pos].Integer? || toks[pos].Identifier?)
    ensures f(Unary, pos) == Stop(if toks[pos].Integer? then toks[pos].n else NameValue(env.defines, toks[pos].name), pos + 1)
  {
    var all := OneStep(f, Unary, toks, env, pos);
    var one := OneStep(f, Primary, toks, env, pos);
  }

  lemma {:induction false} DefinedStep(f: (Rule, nat) -> Outcome, toks: seq<Token>, env: Env, pos: nat, name: string, paren: bool)
    requires Solves(f, toks, env) && At(toks, pos, DefinedKeyword)
    requires if paren then At(toks, pos + 1, LParen) && At(toks, pos + 2, Identifier(name)) && At(toks, pos + 3, RParen)
             else At(toks, pos + 1, Identifier(name))
    ensures f(Unary, pos) == Stop(Bit(name in env.defines), if paren then pos + 4 else pos + 2)
  {
    var all := OneStep(f, Unary, toks, env, pos);
  }

  lemma {:induction false} PrefixStep(f: (Rule, nat) -> Outcome, toks: seq<Token>, env: Env, pos: nat, end: nat, prefix: Prefix, operand: Option<int>)
    requires Solves(f, toks, env) && pos < |toks| && PrefixOf(toks[pos]) == Some(prefix) && f(Unary, pos + 1) == End(operand, end)
    ensures f(Unary, pos) == if operand.None? then Panic else End(env.prefix(prefix, operand.value), end)
  {
    var all := OneStep(f, Unary, toks, env, pos);
  }
}
