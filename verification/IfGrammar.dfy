/**
  The grammar of `#if` expressions, tier by tier as in sections 6.5.3 to 6.5.15
  of ISO/IEC 9899:2018, and what the evaluator makes of it: every derivation is
  read as the tree it derives.
 */
module IfGrammar {
  import opened Options
  import opened Bits64
  import opened IfExpressions

  datatype Expr =
    | Literal(n: int)
    | Name(name: string)
    | IsDefined(name: string, paren: bool)
    | Prefixed(prefix: Prefix, operand: Expr)
    | Infix(op: Token, left: Expr, right: Expr)
    | Choose(test: Expr, yes: Expr, no: Expr)

  /** What a tree comes to: a name that is no integer macro is 0, all operands are evaluated, and a panic is one of the whole. */
  ghost function Value(e: Expr, env: Env): Option<int>
  {
    match e
    case Literal(n) => Some(n)
    case Name(name) => Some(if name in env.defines && env.defines[name].Some? then env.defines[name].value else 0)
    case IsDefined(name, _) => Some(if name in env.defines then 1 else 0)
    case Prefixed(prefix, operand) =>
      var x := Value(operand, env);
      if x.None? then None else env.prefix(prefix, x.value)
    case Infix(op, left, right) =>
      var a, b := Value(left, env), Value(right, env);
      if a.None? || b.None? then None else env.binary(op, a.value, b.value)
    case Choose(test, yes, no) =>
      var c, a, b := Value(test, env), Value(yes, env), Value(no, env);
      if c.None? || a.None? || b.None? then None else if c.value != 0 then a else b
  }

  // ----- The grammar.

  datatype Nonterminal =
    | Conditional
    | LogicalOr | LogicalAnd | InclusiveOr | ExclusiveOr | Conjunction
    | Equality | Relational | Shift | Additive | Multiplicative
    | UnaryExpression | Atom

  /** Each tier's operands are of the next. */
  function Tighter(n: Nonterminal): Nonterminal
  {
    match n
    case Conditional => LogicalOr
    case LogicalOr => LogicalAnd
    case LogicalAnd => InclusiveOr
    case InclusiveOr => ExclusiveOr
    case ExclusiveOr => Conjunction
    case Conjunction => Equality
    case Equality => Relational
    case Relational => Shift
    case Shift => Additive
    case Additive => Multiplicative
    case Multiplicative => UnaryExpression
    case UnaryExpression => Atom
    case Atom => Atom
  }

  function OperatorsOf(n: Nonterminal): set<Token>
  {
    match n
    case LogicalOr => {Or}
    case LogicalAnd => {And}
    case InclusiveOr => {BitOr}
    case ExclusiveOr => {BitXor}
    case Conjunction => {BitAnd}
    case Equality => {Eq, Ne}
    case Relational => {Lt, Le, Gt, Ge}
    case Shift => {Shl, Shr}
    case Additive => {Plus, Minus}
    case Multiplicative => {Star, Slash, Percent}
    case _ => {}
  }

  function Sign(prefix: Prefix): Token
  {
    match prefix
    case Not => Bang
    case Complement => Tilde
    case Negate => Minus
    case Keep => Plus
  }

  function Rank(n: Nonterminal): nat
  {
    match n
    case Conditional => 12
    case LogicalOr => 11
    case LogicalAnd => 10
    case InclusiveOr => 9
    case ExclusiveOr => 8
    case Conjunction => 7
    case Equality => 6
    case Relational => 5
    case Shift => 4
    case Additive => 3
    case Multiplicative => 2
    case UnaryExpression => 1
    case Atom => 0
  }

  predicate IsTier(n: Nonterminal) { !n.Conditional? && !n.UnaryExpression? && !n.Atom? }

  /** The tokens from `lo` to `hi` are derived from the nonterminal, and `e` is the tree. */
  ghost predicate Derives(n: Nonterminal, toks: seq<Token>, lo: nat, hi: nat, e: Expr)
    requires hi <= |toks|
    decreases if lo <= hi then hi - lo else 0, Rank(n) + 1
  {
    && lo < hi
    && match n
       case Conditional => Derives(LogicalOr, toks, lo, hi, e) || Chooses(toks, lo, hi, e)
       case UnaryExpression => Derives(Atom, toks, lo, hi, e) || Prefixes(toks, lo, hi, e)
       case Atom => IsLeaf(toks, lo, hi, e) || Enclosed(toks, lo, hi, e)
       case _ => Derives(Tighter(n), toks, lo, hi, e) || Joins(n, toks, lo, hi, e)
  }

  /** `test ? yes : no` */
  ghost predicate Chooses(toks: seq<Token>, lo: nat, hi: nat, e: Expr)
    requires lo < hi <= |toks|
    decreases hi - lo, 0
  {
    e.Choose? && exists q: nat, c: nat :: lo < q < c < hi - 1 && toks[q] == Question && toks[c] == Colon && ChoosesAt(toks, lo, q, c, hi, e)
  }

  ghost predicate ChoosesAt(toks: seq<Token>, lo: nat, q: nat, c: nat, hi: nat, e: Expr)
    requires lo < q < c < hi - 1 < |toks| && e.Choose?
    decreases hi - lo, 0, 0
  {
    Derives(LogicalOr, toks, lo, q, e.test) && Derives(Conditional, toks, q + 1, c, e.yes) && Derives(Conditional, toks, c + 1, hi, e.no)
  }

  /** `left op right`, the left side of the same tier. */
  ghost predicate Joins(n: Nonterminal, toks: seq<Token>, lo: nat, hi: nat, e: Expr)
    requires lo < hi <= |toks|
    decreases hi - lo, 0
  {
    e.Infix? && e.op in OperatorsOf(n) && exists at: nat :: lo < at < hi - 1 && toks[at] == e.op && JoinsAt(n, toks, lo, at, hi, e)
  }

  ghost predicate JoinsAt(n: Nonterminal, toks: seq<Token>, lo: nat, at: nat, hi: nat, e: Expr)
    requires lo < at < hi - 1 < |toks| && e.Infix?
    decreases hi - lo, 0, 0
  {
    Derives(n, toks, lo, at, e.left) && Derives(Tighter(n), toks, at + 1, hi, e.right)
  }

  ghost predicate Prefixes(toks: seq<Token>, lo: nat, hi: nat, e: Expr)
    requires lo < hi <= |toks|
    decreases hi - lo, 0
  {
    e.Prefixed? && toks[lo] == Sign(e.prefix) && Derives(UnaryExpression, toks, lo + 1, hi, e.operand)
  }

  ghost predicate IsLeaf(toks: seq<Token>, lo: nat, hi: nat, e: Expr)
    requires lo < hi <= |toks|
  {
    match e
    case Literal(n) => hi == lo + 1 && toks[lo] == Integer(n)
    case Name(name) => hi == lo + 1 && toks[lo] == Identifier(name)
    case IsDefined(name, paren) => toks[lo..hi] == if paren then [DefinedKeyword, LParen, Identifier(name), RParen] else [DefinedKeyword, Identifier(name)]
    case _ => false
  }

  /** `( e )` */
  ghost predicate Enclosed(toks: seq<Token>, lo: nat, hi: nat, e: Expr)
    requires lo < hi <= |toks|
    decreases hi - lo, 0
  {
    lo + 2 < hi && toks[lo] == LParen && toks[hi - 1] == RParen && Derives(Conditional, toks, lo + 1, hi - 1, e)
  }

  // ----- The evaluator reads every derivation as its tree.

  /** The precedence of a tier's operators, which the evaluator's table gives them. */
  function LevelOf(n: Nonterminal): nat
    requires IsTier(n)
  {
    11 - Rank(n)
  }

  lemma TierIs(n: Nonterminal, op: Token)
    requires IsTier(n)
    ensures op in OperatorsOf(n) <==> Precedence(op) == Some(LevelOf(n))
    ensures IsTier(Tighter(n)) ==> LevelOf(Tighter(n)) == LevelOf(n) + 1
  {
    if n.LogicalOr? || n.LogicalAnd? || n.InclusiveOr? || n.ExclusiveOr? || n.Conjunction? {
      LooseTierIs(n, op);
    } else {
      TightTierIs(n, op);
    }
  }

  lemma LooseTierIs(n: Nonterminal, op: Token)
    requires n.LogicalOr? || n.LogicalAnd? || n.InclusiveOr? || n.ExclusiveOr? || n.Conjunction?
    ensures op in OperatorsOf(n) <==> Precedence(op) == Some(LevelOf(n))
  {
  }

  lemma TightTierIs(n: Nonterminal, op: Token)
    requires n.Equality? || n.Relational? || n.Shift? || n.Additive? || n.Multiplicative?
    ensures op in OperatorsOf(n) <==> Precedence(op) == Some(LevelOf(n))
  {
  }

  /** Where a value was read up to, a chain of operators goes on. */
  ghost predicate GoesOn(f: (Rule, nat) -> Outcome, least: nat, lo: nat, value: Option<int>, hi: nat)
  {
    f(Binary(least), lo) == if value.None? then Panic else f(Operators(least, value.value), hi)
  }

  lemma {:induction false} TierReaches(f: (Rule, nat) -> Outcome, n: Nonterminal, least: nat, toks: seq<Token>, env: Env, lo: nat, hi: nat, e: Expr)
    requires Solves(f, toks, env) && IsTier(n) && least <= LevelOf(n) && hi <= |toks| && Derives(n, toks, lo, hi, e)
    requires Stops(toks, hi, LevelOf(n) + 1)
    ensures GoesOn(f, least, lo, Value(e, env), hi)
    decreases hi - lo, Rank(n), 0
  {
    if Derives(Tighter(n), toks, lo, hi, e) {
      TierIs(n, Or);
      if n.Multiplicative? {
        UnaryReaches(f, toks, env, lo, hi, e);
        var all := OneStep(f, Binary(least), toks, env, lo);
      } else {
        TierReaches(f, Tighter(n), least, toks, env, lo, hi, e);
      }
    } else {
      var at: nat :| lo < at < hi - 1 && toks[at] == e.op && JoinsAt(n, toks, lo, at, hi, e);
      TierIs(n, e.op);
      OperatorReaches(f, n, least, toks, env, lo, at, hi, e);
    }
  }

  lemma {:induction false} OperatorReaches(f: (Rule, nat) -> Outcome, n: Nonterminal, least: nat, toks: seq<Token>, env: Env, lo: nat, at: nat, hi: nat, e: Expr)
    requires Solves(f, toks, env) && IsTier(n) && least <= LevelOf(n) && lo < at < hi - 1 < |toks| && e.Infix? && toks[at] == e.op
    requires JoinsAt(n, toks, lo, at, hi, e) && Precedence(e.op) == Some(LevelOf(n)) && Stops(toks, hi, LevelOf(n) + 1)
    ensures GoesOn(f, least, lo, Value(e, env), hi)
    decreases hi - lo, 0, 1
  {
    var p := LevelOf(n);
    TierReaches(f, n, least, toks, env, lo, at, e.left);
    RightEvaluates(f, n, toks, env, at + 1, hi, e.right);
    if Value(e.left, env).Some? {
      OperatorStep(f, toks, env, at, hi, p, least, Value(e.left, env).value, Value(e.right, env));
    }
  }

  lemma {:induction false} RightEvaluates(f: (Rule, nat) -> Outcome, n: Nonterminal, toks: seq<Token>, env: Env, lo: nat, hi: nat, e: Expr)
    requires Solves(f, toks, env) && IsTier(n) && hi <= |toks| && Derives(Tighter(n), toks, lo, hi, e) && Stops(toks, hi, LevelOf(n) + 1)
    ensures f(Binary(LevelOf(n) + 1), lo) == End(Value(e, env), hi)
    decreases hi - lo, 12, 0
  {
    var p := LevelOf(n) + 1;
    TierIs(n, Or);
    if n.Multiplicative? {
      UnaryReaches(f, toks, env, lo, hi, e);
      var all := OneStep(f, Binary(p), toks, env, lo);
    } else {
      TierReaches(f, Tighter(n), p, toks, env, lo, hi, e);
    }
    if Value(e, env).Some? {
      ChainStops(f, toks, env, hi, p, Value(e, env).value);
    }
  }

  lemma {:induction false} UnaryReaches(f: (Rule, nat) -> Outcome, toks: seq<Token>, env: Env, lo: nat, hi: nat, e: Expr)
    requires Solves(f, toks, env) && hi <= |toks| && Derives(UnaryExpression, toks, lo, hi, e)
    ensures f(Unary, lo) == End(Value(e, env), hi)
    decreases hi - lo, 1, 0
  {
    if Prefixes(toks, lo, hi, e) {
      UnaryReaches(f, toks, env, lo + 1, hi, e.operand);
      PrefixStep(f, toks, env, lo, hi, e.prefix, Value(e.operand, env));
    } else if Enclosed(toks, lo, hi, e) {
      ConditionalReaches(f, toks, env, lo + 1, hi - 1, e);
      ParenthesisStep(f, toks, env, lo, hi - 1, Value(e, env));
    } else {
      LeafReaches(f, toks, env, lo, hi, e);
    }
  }

  lemma {:induction false} LeafReaches(f: (Rule, nat) -> Outcome, toks: seq<Token>, env: Env, lo: nat, hi: nat, e: Expr)
    requires Solves(f, toks, env) && lo < hi <= |toks| && IsLeaf(toks, lo, hi, e)
    ensures f(Unary, lo) == End(Value(e, env), hi)
  {
    if e.IsDefined? {
      assert toks[lo..hi][0] == toks[lo] && toks[lo..hi][1] == toks[lo + 1];
      if e.paren {
        assert toks[lo..hi][2] == toks[lo + 2] && toks[lo..hi][3] == toks[lo + 3];
      }
      DefinedStep(f, toks, env, lo, e.name, e.paren);
    } else {
      LeafStep(f, toks, env, lo);
    }
  }

  /** A whole expression, where neither an operator nor a `?` goes on. */
  lemma {:induction false} ConditionalReaches(f: (Rule, nat) -> Outcome, toks: seq<Token>, env: Env, lo: nat, hi: nat, e: Expr)
    requires Solves(f, toks, env) && hi <= |toks| && Derives(Conditional, toks, lo, hi, e)
    requires Stops(toks, hi, 0) && !At(toks, hi, Question)
    ensures f(Ternary, lo) == End(Value(e, env), hi)
    decreases hi - lo, 12, 1
  {
    if Derives(LogicalOr, toks, lo, hi, e) {
      TestReaches(f, toks, env, lo, hi, e);
      var all := OneStep(f, Ternary, toks, env, lo);
    } else {
      var q: nat, c: nat :| lo < q < c < hi - 1 && toks[q] == Question && toks[c] == Colon && ChoosesAt(toks, lo, q, c, hi, e);
      TestReaches(f, toks, env, lo, q, e.test);
      ConditionalReaches(f, toks, env, q + 1, c, e.yes);
      ConditionalReaches(f, toks, env, c + 1, hi, e.no);
      ChoiceStep(f, toks, env, lo, q, c, hi, Value(e.test, env), Value(e.yes, env), Value(e.no, env));
    }
  }

  lemma {:induction false} TestReaches(f: (Rule, nat) -> Outcome, toks: seq<Token>, env: Env, lo: nat, hi: nat, e: Expr)
    requires Solves(f, toks, env) && hi <= |toks| && Derives(LogicalOr, toks, lo, hi, e) && Stops(toks, hi, 0)
    ensures f(Binary(0), lo) == End(Value(e, env), hi)
    decreases hi - lo, 12, 0
  {
    TierReaches(f, LogicalOr, 0, toks, env, lo, hi, e);
    if Value(e, env).Some? {
      ChainStops(f, toks, env, hi, 0, Value(e, env).value);
    }
  }

  /** Evaluating the tokens of an expression yields the value of its tree and consumes every token. */
  method EvaluateDerived(ghost e: Expr, env: Env, toks: seq<Token>) returns (r: Option<int>, consumed: nat)
    requires Derives(Conditional, toks, 0, |toks|, e)
    ensures r == Value(e, env)
    ensures r.Some? ==> consumed == |toks|
  {
    var evaluator := new IfExpr(toks, env);
    SolutionSolves(toks, env);
    ConditionalReaches(Solution(toks, env), toks, env, 0, |toks|, e);
    r := evaluator.EvalTernary(Solution(toks, env));
    consumed := evaluator.pos;
  }

  // ----- What the grammar does not derive.

  /** The token starts an operand. */
  predicate StartsOperand(t: Token)
  {
    t.Integer? || t.Identifier? || t.DefinedKeyword? || t.LParen? || t.Bang? || t.Tilde? || t.Minus? || t.Plus?
  }

  /** A missing operand is 0: nothing is read at the end, and one token elsewhere. */
  lemma {:induction false} MissingOperand(f: (Rule, nat) -> Outcome, toks: seq<Token>, env: Env, pos: nat)
    requires Solves(f, toks, env) && pos <= |toks| && (pos < |toks| ==> !StartsOperand(toks[pos]))
    ensures f(Unary, pos) == Stop(0, if pos < |toks| then pos + 1 else pos)
  {
    var all := OneStep(f, Unary, toks, env, pos);
    var one := OneStep(f, Primary, toks, env, pos);
  }

  /** A closing parenthesis may be missing. */
  lemma {:induction false} MissingParenthesis(f: (Rule, nat) -> Outcome, toks: seq<Token>, env: Env, pos: nat)
    requires Solves(f, toks, env) && pos < |toks| && toks[pos] == LParen && f(Ternary, pos + 1).Stop?
    ensures var inner := f(Ternary, pos + 1);
            f(Unary, pos) == Stop(inner.value, if inner.pos < |toks| && toks[inner.pos] == RParen then inner.pos + 1 else inner.pos)
  {
    var all := OneStep(f, Unary, toks, env, pos);
    var one := OneStep(f, Primary, toks, env, pos);
  }

  /** A colon may be missing. */
  lemma {:induction false} MissingColon(f: (Rule, nat) -> Outcome, toks: seq<Token>, env: Env, pos: nat)
    requires Solves(f, toks, env) && pos <= |toks| && f(Binary(0), pos).Stop?
    ensures var test := f(Binary(0), pos);
            test.pos < |toks| && toks[test.pos] == Question && f(Ternary, test.pos + 1).Stop? ==>
              var yes := f(Ternary, test.pos + 1);
              var no := f(Ternary, if yes.pos < |toks| && toks[yes.pos] == Colon then yes.pos + 1 else yes.pos);
              no.Stop? ==> f(Ternary, pos) == Stop(if test.value != 0 then yes.value else no.value, no.pos)
  {
    var all := OneStep(f, Ternary, toks, env, pos);
  }

  /** `defined` without a name is 0, and takes no more than the parentheses. */
  lemma {:induction false} MissingName(f: (Rule, nat) -> Outcome, toks: seq<Token>, env: Env, pos: nat)
    requires Solves(f, toks, env) && pos < |toks| && toks[pos] == DefinedKeyword
    requires var at := if pos + 1 < |toks| && toks[pos + 1] == LParen then pos + 2 else pos + 1;
             at < |toks| ==> !toks[at].Identifier?
    ensures var paren := pos + 1 < |toks| && toks[pos + 1] == LParen;
            var at := if paren then pos + 2 else pos + 1;
            f(Unary, pos) == Stop(0, if paren && at < |toks| && toks[at] == RParen then at + 1 else at)
  {
    var all := OneStep(f, Unary, toks, env, pos);
  }

  // ----- Every tree has a spelling, with parentheses only where the grammar needs them.

  function TierOf(op: Token): Option<Nonterminal>
  {
    match op
    case Or => Some(LogicalOr)
    case And => Some(LogicalAnd)
    case BitOr => Some(InclusiveOr)
    case BitXor => Some(ExclusiveOr)
    case BitAnd => Some(Conjunction)
    case Eq | Ne => Some(Equality)
    case Lt | Le | Gt | Ge => Some(Relational)
    case Shl | Shr => Some(Shift)
    case Plus | Minus => Some(Additive)
    case Star | Slash | Percent => Some(Multiplicative)
    case _ => None
  }

  /** Every operator of the tree is one of a tier. */
  ghost predicate Proper(e: Expr)
  {
    match e
    case Prefixed(_, operand) => Proper(operand)
    case Infix(op, left, right) => TierOf(op).Some? && Proper(left) && Proper(right)
    case Choose(test, yes, no) => Proper(test) && Proper(yes) && Proper(no)
    case _ => true
  }

  function Home(e: Expr): Nonterminal
    requires e.Infix? ==> TierOf(e.op).Some?
  {
    match e
    case Choose(_, _, _) => Conditional
    case Infix(op, _, _) => TierOf(op).value
    case Prefixed(_, _) => UnaryExpression
    case _ => Atom
  }

  function Print(e: Expr, n: Nonterminal): seq<Token>
    requires Proper(e)
    decreases e, Rank(Home(e)) > Rank(n)
  {
    if Rank(Home(e)) > Rank(n) then [LParen] + Print(e, Conditional) + [RParen]
    else
      match e
      case Literal(n) => [Integer(n)]
      case Name(name) => [Identifier(name)]
      case IsDefined(name, paren) =>
        if paren then [DefinedKeyword, LParen, Identifier(name), RParen] else [DefinedKeyword, Identifier(name)]
      case Prefixed(prefix, operand) => [Sign(prefix)] + Print(operand, UnaryExpression)
      case Infix(op, left, right) => Print(left, Home(e)) + [op] + Print(right, Tighter(Home(e)))
      case Choose(test, yes, no) => Print(test, LogicalOr) + [Question] + Print(yes, Conditional) + [Colon] + Print(no, Conditional)
  }

  ghost predicate Spells(toks: seq<Token>, pos: nat, p: seq<Token>) { pos + |p| <= |toks| && toks[pos..pos + |p|] == p }

  lemma {:induction false} SpellsParts(toks: seq<Token>, pos: nat, a: seq<Token>, b: seq<Token>)
    requires Spells(toks, pos, a + b)
    ensures Spells(toks, pos, a) && Spells(toks, pos + |a|, b)
  {
    var p := toks[pos..pos + |a + b|];
    assert toks[pos..pos + |a|] == p[..|a|] == a;
    assert toks[pos + |a|..pos + |a| + |b|] == p[|a|..] == b;
  }

  lemma {:induction false} SpellsOne(toks: seq<Token>, pos: nat, t: Token)
    requires Spells(toks, pos, [t])
    ensures toks[pos] == t
  {
    assert toks[pos..pos + 1][0] == toks[pos];
  }

  /** What a tier derives, every looser one does. */
  lemma {:induction false} Loosen(m: Nonterminal, n: Nonterminal, toks: seq<Token>, lo: nat, hi: nat, e: Expr)
    requires Rank(m) <= Rank(n) && hi <= |toks| && Derives(m, toks, lo, hi, e)
    ensures Derives(n, toks, lo, hi, e)
    decreases Rank(n)
  {
    if m != n {
      SameRank(m, n);
      Loosen(m, Tighter(n), toks, lo, hi, e);
    }
  }

  lemma SameRank(m: Nonterminal, n: Nonterminal)
    ensures Rank(m) == Rank(n) ==> m == n
    ensures !n.Atom? ==> Rank(Tighter(n)) == Rank(n) - 1
  {
  }

  /** The printed form of a tree is derived from the grammar, wherever it stands. */
  lemma {:induction false} PrintedDerives(e: Expr, n: Nonterminal, toks: seq<Token>, pos: nat)
    requires Proper(e) && Spells(toks, pos, Print(e, n))
    ensures Derives(n, toks, pos, pos + |Print(e, n)|, e)
    decreases e, Rank(Home(e)) > Rank(n), 4
  {
    PrintIs(e, n);
    if Rank(Home(e)) > Rank(n) {
      EnclosedDerives(e, n, toks, pos, Print(e, Conditional));
    } else {
      BareDerives(e, n, toks, pos, Print(e, n));
    }
  }

  lemma {:induction false} PrintIs(e: Expr, n: Nonterminal)
    requires Proper(e)
    ensures if Rank(Home(e)) > Rank(n) then Print(e, n) == [LParen] + Print(e, Conditional) + [RParen] else PrintsBare(e, Print(e, n))
  {
  }

  lemma {:induction false} BareDerives(e: Expr, n: Nonterminal, toks: seq<Token>, pos: nat, p: seq<Token>)
    requires Proper(e) && Rank(Home(e)) <= Rank(n) && PrintsBare(e, p) && Spells(toks, pos, p)
    ensures Derives(n, toks, pos, pos + |p|, e)
    decreases e, false, 3
  {
    HomeDerives(e, toks, pos, p);
    Loosen(Home(e), n, toks, pos, pos + |p|, e);
  }

  lemma {:induction false} EnclosedDerives(e: Expr, n: Nonterminal, toks: seq<Token>, pos: nat, inner: seq<Token>)
    requires Proper(e) && Rank(Home(e)) > Rank(n) && inner == Print(e, Conditional) && Spells(toks, pos, [LParen] + inner + [RParen])
    ensures Derives(n, toks, pos, pos + |inner| + 2, e)
    decreases e, true, 0
  {
    EnclosedSpells(toks, pos, inner);
    PrintedDerives(e, Conditional, toks, pos + 1);
    EnclosedAssembles(e, n, toks, pos, pos + |inner| + 2);
  }

  lemma {:induction false} EnclosedSpells(toks: seq<Token>, pos: nat, inner: seq<Token>)
    requires Spells(toks, pos, [LParen] + inner + [RParen])
    ensures Spells(toks, pos + 1, inner) && pos + 1 + |inner| < |toks| && toks[pos] == LParen && toks[pos + 1 + |inner|] == RParen
  {
    SpellsParts(toks, pos, [LParen] + inner, [RParen]);
    SpellsParts(toks, pos, [LParen], inner);
    SpellsOne(toks, pos, LParen);
    SpellsOne(toks, pos + 1 + |inner|, RParen);
  }

  lemma {:induction false} EnclosedAssembles(e: Expr, n: Nonterminal, toks: seq<Token>, lo: nat, hi: nat)
    requires lo + 1 < hi <= |toks| && toks[lo] == LParen && toks[hi - 1] == RParen && Derives(Conditional, toks, lo + 1, hi - 1, e)
    ensures Derives(n, toks, lo, hi, e)
  {
    assert Enclosed(toks, lo, hi, e);
    Loosen(Atom, n, toks, lo, hi, e);
  }

  /** What the tree's own construct is printed as. */
  ghost predicate PrintsBare(e: Expr, p: seq<Token>)
    requires Proper(e)
  {
    match e
    case Literal(n) => p == [Integer(n)]
    case Name(name) => p == [Identifier(name)]
    case IsDefined(name, paren) =>
      p == if paren then [DefinedKeyword, LParen, Identifier(name), RParen] else [DefinedKeyword, Identifier(name)]
    case Prefixed(prefix, operand) => p == [Sign(prefix)] + Print(operand, UnaryExpression)
    case Infix(op, left, right) => p == Print(left, Home(e)) + [op] + Print(right, Tighter(Home(e)))
    case Choose(test, yes, no) =>
      p == Print(test, LogicalOr) + [Question] + Print(yes, Conditional) + [Colon] + Print(no, Conditional)
  }

  lemma {:induction false} HomeDerives(e: Expr, toks: seq<Token>, pos: nat, p: seq<Token>)
    requires Proper(e) && PrintsBare(e, p) && Spells(toks, pos, p)
    ensures Derives(Home(e), toks, pos, pos + |p|, e)
    decreases e, false, 2
  {
    match e
    case Infix(_, left, right) => InfixDerives(e, toks, pos, Print(left, Home(e)), Print(right, Tighter(Home(e))));
    case Choose(test, yes, no) => ChoiceDerives(e, toks, pos, Print(test, LogicalOr), Print(yes, Conditional), Print(no, Conditional));
    case Prefixed(_, operand) => PrefixDerives(e, toks, pos, Print(operand, UnaryExpression));
    case _ => LeafDerives(e, toks, pos, p);
  }

  lemma {:induction false} LeafDerives(e: Expr, toks: seq<Token>, pos: nat, p: seq<Token>)
    requires (e.Literal? || e.Name? || e.IsDefined?) && PrintsBare(e, p) && Spells(toks, pos, p)
    ensures Derives(Atom, toks, pos, pos + |p|, e)
  {
    assert p[0] == toks[pos..pos + |p|][0] == toks[pos];
    assert IsLeaf(toks, pos, pos + |p|, e);
  }

  lemma {:induction false} PrefixDerives(e: Expr, toks: seq<Token>, pos: nat, operand: seq<Token>)
    requires Proper(e) && e.Prefixed? && operand == Print(e.operand, UnaryExpression) && Spells(toks, pos, [Sign(e.prefix)] + operand)
    ensures Derives(UnaryExpression, toks, pos, pos + 1 + |operand|, e)
    decreases e, false, 0, 3
  {
    SpellsParts(toks, pos, [Sign(e.prefix)], operand);
    SpellsOne(toks, pos, Sign(e.prefix));
    PartDerives(e, e.operand, UnaryExpression, toks, pos + 1, operand);
    PrefixAssembles(e, toks, pos, pos + 1 + |operand|);
  }

  lemma {:induction false} PrefixAssembles(e: Expr, toks: seq<Token>, lo: nat, hi: nat)
    requires e.Prefixed? && lo < hi <= |toks| && toks[lo] == Sign(e.prefix) && Derives(UnaryExpression, toks, lo + 1, hi, e.operand)
    ensures Derives(UnaryExpression, toks, lo, hi, e)
  {
    assert Prefixes(toks, lo, hi, e);
  }

  lemma {:induction false} InfixDerives(e: Expr, toks: seq<Token>, pos: nat, left: seq<Token>, right: seq<Token>)
    requires Proper(e) && e.Infix? && left == Print(e.left, Home(e)) && right == Print(e.right, Tighter(Home(e)))
    requires Spells(toks, pos, left + [e.op] + right)
    ensures Derives(Home(e), toks, pos, pos + |left| + 1 + |right|, e)
    decreases e, false, 1
  {
    InfixSpells(toks, pos, left, e.op, right);
    InfixDerivesAt(e, toks, pos, pos + |left|, left, right);
  }

  lemma {:induction false} InfixDerivesAt(e: Expr, toks: seq<Token>, pos: nat, at: nat, left: seq<Token>, right: seq<Token>)
    requires Proper(e) && e.Infix? && left == Print(e.left, Home(e)) && right == Print(e.right, Tighter(Home(e)))
    requires Spells(toks, pos, left) && Spells(toks, at + 1, right) && at == pos + |left| < |toks| && toks[at] == e.op
    ensures Derives(Home(e), toks, pos, at + 1 + |right|, e)
    decreases e, false, 0, 2
  {
    SidesDerive(e, Home(e), Tighter(Home(e)), toks, pos, at + 1, left, right);
    InfixAssembles(e, toks, pos, at, at + 1 + |right|);
  }

  lemma {:induction false} SidesDerive(e: Expr, n: Nonterminal, m: Nonterminal, toks: seq<Token>, lo: nat, after: nat, left: seq<Token>, right: seq<Token>)
    requires e.Infix? && Proper(e) && left == Print(e.left, n) && right == Print(e.right, m) && Spells(toks, lo, left) && Spells(toks, after, right)
    ensures Derives(n, toks, lo, lo + |left|, e.left) && Derives(m, toks, after, after + |right|, e.right)
    decreases e, false, 0, 1
  {
    PartDerives(e, e.left, n, toks, lo, left);
    PartDerives(e, e.right, m, toks, after, right);
  }

  lemma {:induction false} InfixAssembles(e: Expr, toks: seq<Token>, lo: nat, at: nat, hi: nat)
    requires e.Infix? && TierOf(e.op).Some? && lo < at < hi - 1 < |toks| && toks[at] == e.op
    requires Derives(Home(e), toks, lo, at, e.left) && Derives(Tighter(Home(e)), toks, at + 1, hi, e.right)
    ensures Derives(Home(e), toks, lo, hi, e)
  {
    assert JoinsAt(Home(e), toks, lo, at, hi, e);
    assert e.op in OperatorsOf(Home(e));
  }

  lemma {:induction false} ChoiceDerives(e: Expr, toks: seq<Token>, pos: nat, test: seq<Token>, yes: seq<Token>, no: seq<Token>)
    requires Proper(e) && e.Choose? && test == Print(e.test, LogicalOr) && yes == Print(e.yes, Conditional) && no == Print(e.no, Conditional)
    requires Spells(toks, pos, test + [Question] + yes + [Colon] + no)
    ensures Derives(Conditional, toks, pos, pos + |test| + 1 + |yes| + 1 + |no|, e)
    decreases e, false, 1
  {
    ChoiceSpells(toks, pos, test, yes, no);
    ChoiceDerivesAt(e, toks, pos, pos + |test|, pos + |test| + 1 + |yes|, test, yes, no);
  }

  lemma {:induction false} ChoiceDerivesAt(e: Expr, toks: seq<Token>, pos: nat, q: nat, c: nat, test: seq<Token>, yes: seq<Token>, no: seq<Token>)
    requires Proper(e) && e.Choose? && test == Print(e.test, LogicalOr) && yes == Print(e.yes, Conditional) && no == Print(e.no, Conditional)
    requires Spells(toks, pos, test) && Spells(toks, q + 1, yes) && Spells(toks, c + 1, no)
    requires q == pos + |test| && c == q + 1 + |yes| < |toks| && toks[q] == Question && toks[c] == Colon
    ensures Derives(Conditional, toks, pos, c + 1 + |no|, e)
    decreases e, false, 0, 2
  {
    PartDerives(e, e.test, LogicalOr, toks, pos, test);
    BranchesDerive(e, toks, q + 1, c + 1, yes, no);
    ChoiceAssembles(e, toks, pos, q, c, c + 1 + |no|);
  }

  lemma {:induction false} BranchesDerive(e: Expr, toks: seq<Token>, at: nat, after: nat, yes: seq<Token>, no: seq<Token>)
    requires Proper(e) && e.Choose? && yes == Print(e.yes, Conditional) && no == Print(e.no, Conditional) && Spells(toks, at, yes) && Spells(toks, after, no)
    ensures Derives(Conditional, toks, at, at + |yes|, e.yes) && Derives(Conditional, toks, after, after + |no|, e.no)
    decreases e, false, 0, 1
  {
    PartDerives(e, e.yes, Conditional, toks, at, yes);
    PartDerives(e, e.no, Conditional, toks, after, no);
  }

  lemma {:induction false} PartDerives(e: Expr, part: Expr, n: Nonterminal, toks: seq<Token>, pos: nat, p: seq<Token>)
    requires part < e && Proper(part) && p == Print(part, n) && Spells(toks, pos, p)
    ensures Derives(n, toks, pos, pos + |p|, part)
    decreases e, false, 0, 0
  {
    PrintedDerives(part, n, toks, pos);
  }

  lemma {:induction false} ChoiceAssembles(e: Expr, toks: seq<Token>, lo: nat, q: nat, c: nat, hi: nat)
    requires lo < q < c < hi - 1 < |toks| && e.Choose? && toks[q] == Question && toks[c] == Colon
    requires Derives(LogicalOr, toks, lo, q, e.test) && Derives(Conditional, toks, q + 1, c, e.yes) && Derives(Conditional, toks, c + 1, hi, e.no)
    ensures Derives(Conditional, toks, lo, hi, e)
  {
    assert ChoosesAt(toks, lo, q, c, hi, e);
  }

  lemma {:induction false} ChoiceSpells(toks: seq<Token>, pos: nat, test: seq<Token>, yes: seq<Token>, no: seq<Token>)
    requires Spells(toks, pos, test + [Question] + yes + [Colon] + no)
    ensures var q := pos + |test|;
            var c := q + 1 + |yes|;
            && Spells(toks, pos, test) && Spells(toks, q + 1, yes) && Spells(toks, c + 1, no)
            && c < |toks| && toks[q] == Question && toks[c] == Colon
  {
    SpellsParts(toks, pos, test + [Question] + yes + [Colon], no);
    SpellsParts(toks, pos, test + [Question] + yes, [Colon]);
    SpellsParts(toks, pos, test + [Question], yes);
    SpellsParts(toks, pos, test, [Question]);
    SpellsOne(toks, pos + |test|, Question);
    SpellsOne(toks, pos + |test| + 1 + |yes|, Colon);
  }

  lemma {:induction false} InfixSpells(toks: seq<Token>, pos: nat, left: seq<Token>, op: Token, right: seq<Token>)
    requires Spells(toks, pos, left + [op] + right)
    ensures var at := pos + |left|;
            Spells(toks, pos, left) && Spells(toks, at + 1, right) && at < |toks| && toks[at] == op
  {
    SpellsParts(toks, pos, left + [op], right);
    SpellsParts(toks, pos, left, [op]);
    SpellsOne(toks, pos + |left|, op);
  }

  /** Every solution of the evaluator's equations reads a printed tree back to its value and stops right behind it. */
  lemma {:induction false} PrintedEvaluates(f: (Rule, nat) -> Outcome, e: Expr, toks: seq<Token>, env: Env, pos: nat)
    requires Solves(f, toks, env) && Proper(e) && Spells(toks, pos, Print(e, Conditional))
    requires Stops(toks, pos + |Print(e, Conditional)|, 0) && !At(toks, pos + |Print(e, Conditional)|, Question)
    ensures f(Ternary, pos) == End(Value(e, env), pos + |Print(e, Conditional)|)
  {
    PrintedDerives(e, Conditional, toks, pos);
    ConditionalReaches(f, toks, env, pos, pos + |Print(e, Conditional)|, e);
  }

  /** Evaluating the printed form of any tree yields the tree's value and consumes every token. */
  method EvaluatePrinted(e: Expr, env: Env, toks: seq<Token>) returns (r: Option<int>, consumed: nat)
    requires Proper(e) && toks == Print(e, Conditional)
    ensures r == Value(e, env)
    ensures r.Some? ==> consumed == |toks|
  {
    assert toks[0..|toks|] == toks;
    PrintedDerives(e, Conditional, toks, 0);
    r, consumed := EvaluateDerived(e, env, toks);
  }
}
