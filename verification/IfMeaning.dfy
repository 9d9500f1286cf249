/**
  What each operator of an `#if` computes on 64-bit values, and so what an
  expression comes to in a build that checks overflow.
 */
module IfMeaning {
  import opened Options
  import opened Bits64
  import opened IfExpressions
  import opened IfGrammar

  ghost predicate IsBit(r: Option<int>, b: bool) { r == Some(if b then 1 else 0) }

  const LEAST: int := -0x8000_0000_0000_0000

  /** `q` and `rest` are quotient and remainder rounded toward zero. */
  ghost predicate Truncates(a: int, b: int, q: int, rest: int)
  {
    && a == q * b + rest && (if b > 0 then -b < rest < b else b < rest < -b)
    && (rest > 0 ==> a > 0) && (rest < 0 ==> a < 0)
  }

  ghost predicate HasBits(r: Option<int>, a: int, b: int, bit: (bool, bool) -> bool)
  {
    r.Some? && Fits(r.value) && forall k: nat | k < WIDTH :: BitAt(r.value, k) == bit(BitAt(a, k), BitAt(b, k))
  }

  /** What the operator gives for two 64-bit values; `None` is a panic. */
  ghost predicate Computes(op: Token, a: int, b: int, r: Option<int>)
  {
    match op
    case Or => IsBit(r, a != 0 || b != 0)
    case And => IsBit(r, a != 0 && b != 0)
    case BitOr => HasBits(r, a, b, (x, y) => x || y)
    case BitXor => HasBits(r, a, b, (x, y) => x != y)
    case BitAnd => HasBits(r, a, b, (x, y) => x && y)
    case Eq => IsBit(r, a == b)
    case Ne => IsBit(r, a != b)
    case Lt => IsBit(r, a < b)
    case Le => IsBit(r, a <= b)
    case Gt => IsBit(r, a > b)
    case Ge => IsBit(r, a >= b)
    case Shl => if 0 <= b < 64 then r.Some? && Fits(r.value) && (r.value - a * Pow2(b)) % 0x1_0000_0000_0000_0000 == 0 else r.None?
    case Shr => if 0 <= b < 64 then r.Some? && r.value * Pow2(b) <= a < (r.value + 1) * Pow2(b) else r.None?
    case Plus => if Fits(a + b) then r == Some(a + b) else r.None?
    case Minus => if Fits(a - b) then r == Some(a - b) else r.None?
    case Star => if Fits(a * b) then r == Some(a * b) else r.None?
    case Slash =>
      if b == 0 then r == Some(0)
      else if a == LEAST && b == -1 then r.None?
      else r.Some? && exists rest: int :: Truncates(a, b, r.value, rest)
    case Percent =>
      if b == 0 then r == Some(0)
      else if a == LEAST && b == -1 then r.None?
      else r.Some? && exists q: int :: Truncates(a, b, q, r.value)
    case _ => r.None?
  }

  lemma Division(a: int, b: int)
    requires b != 0
    ensures a == a / b * b + a % b && 0 <= a % b < if b > 0 then b else -b
  {
    assert a == b * (a / b) + a % b;
  }

  lemma {:induction false} QuotientIs(a: int, b: int)
    requires b != 0
    ensures Truncates(a, b, Quotient(a, b), a - b * Quotient(a, b))
  {
    if a >= 0 {
      Division(a, b);
      Rounded(a, b, a / b, a % b);
    } else {
      Division(-a, b);
      RoundedUp(a, b, -a / b, -a % b);
    }
  }

  lemma Rounded(a: int, b: int, x: int, m: int)
    requires b != 0 && a >= 0 && a == x * b + m && 0 <= m < if b > 0 then b else -b
    ensures Truncates(a, b, x, a - b * x)
  {
    assert b * x == x * b;
  }

  lemma RoundedUp(a: int, b: int, x: int, m: int)
    requires b != 0 && a < 0 && -a == x * b + m && 0 <= m < if b > 0 then b else -b
    ensures Truncates(a, b, -x, a - b * -x)
  {
    var n := -x;
    assert n * b == -(x * b) && b * n == n * b;
  }

  lemma {:induction false} QuotientFits(a: int, b: int)
    requires Fits(a) && b != 0
    ensures Checked(Quotient(a, b)).None? <==> a == LEAST && b == -1
  {
    var q := Quotient(a, b);
    if b == -1 {
      assert a >= 0 ==> a / -1 == -a;
      assert a < 0 ==> (-a) / -1 == a;
    } else if b == 1 {
      assert a >= 0 ==> a / 1 == a;
      assert a < 0 ==> (-a) / 1 == -a;
    } else {
      QuotientIs(a, b);
      HalfAtMost(a, b, q, a - b * q);
    }
  }

  lemma TwiceAtLeast(x: nat, k: nat)
    requires k >= 2
    ensures x * k >= 2 * x
  {
    assert x * k == 2 * x + x * (k - 2);
  }

  lemma OneLess(q: int, b: int)
    ensures (q - 1) * b == q * b - b && (q + 1) * b == q * b + b && (-q) * b == -(q * b) && q * -b == -(q * b)
  {
  }

  /** Divided by anything but one and minus one, a value at least halves. */
  lemma {:induction false} HalfAtMost(a: int, b: int, q: int, rest: int)
    requires Fits(a) && (b > 1 || b < -1) && Truncates(a, b, q, rest)
    ensures Fits(q)
  {
    OneLess(q, b);
    if q > 0 {
      TwiceAtLeast(q - 1, if b > 1 then b else -b);
      OneLess(q - 1, b);
    } else if q < 0 {
      TwiceAtLeast(-(q + 1), if b > 1 then b else -b);
      OneLess(q + 1, b);
      OneLess(-(q + 1), b);
    }
  }

  lemma {:induction false} DivideComputes(a: int, b: int)
    requires Fits(a) && Fits(b)
    ensures Computes(Slash, a, b, Apply(Slash, a, b)) && Computes(Percent, a, b, Apply(Percent, a, b))
  {
    if b != 0 {
      QuotientIs(a, b);
      QuotientFits(a, b);
      var q, rest := Quotient(a, b), a - b * Quotient(a, b);
      assert Truncates(a, b, q, rest);
    }
  }

  lemma {:induction false} ShiftRight(a: int, p: nat)
    requires p > 0
    ensures (a / p) * p <= a < (a / p + 1) * p
  {
    assert a == (a / p) * p + a % p;
    assert (a / p + 1) * p == (a / p) * p + p;
  }

  lemma {:induction false} ShiftFits(a: int, p: nat)
    requires Fits(a) && p > 0
    ensures Fits(a / p)
  {
    ShiftRight(a, p);
    NoFarther(a, p, a / p);
  }

  lemma {:induction false} NoFarther(a: int, p: nat, q: int)
    requires p > 0 && q * p <= a < (q + 1) * p
    ensures if a >= 0 then 0 <= q <= a else a <= q < 0
  {
    if q >= 0 {
      Grows(q, p);
    } else {
      Grows(-(q + 1), p);
      OneLess(q + 1, p);
      Grows(-q, p);
      OneLess(q, p);
    }
  }

  lemma Grows(x: nat, p: nat)
    requires p > 0
    ensures x * p >= x
  {
    assert x * p == x + x * (p - 1);
  }

  lemma {:induction false} BitsCompute(a: int, b: int)
    ensures Computes(BitOr, a, b, Apply(BitOr, a, b))
    ensures Computes(BitXor, a, b, Apply(BitXor, a, b))
    ensures Computes(BitAnd, a, b, Apply(BitAnd, a, b))
  {
    WordIs(seq(WIDTH, (k: nat) => BitAt(a, k) || BitAt(b, k)));
    WordIs(seq(WIDTH, (k: nat) => BitAt(a, k) != BitAt(b, k)));
    WordIs(seq(WIDTH, (k: nat) => BitAt(a, k) && BitAt(b, k)));
  }

  /** The evaluator's arithmetic is that of the operators. */
  lemma {:induction false} ApplyComputes(op: Token, a: int, b: int)
    requires Fits(a) && Fits(b)
    ensures Computes(op, a, b, Apply(op, a, b))
    ensures Apply(op, a, b).Some? ==> Fits(Apply(op, a, b).value)
  {
    match op
    case BitOr => BitsCompute(a, b);
    case BitXor => BitsCompute(a, b);
    case BitAnd => BitsCompute(a, b);
    case Shl =>
      if 0 <= b < 64 {
        WrappedCongruent(a * Pow2(b));
      }
    case Shr =>
      if 0 <= b < 64 {
        ShiftRight(a, Pow2(b));
        ShiftFits(a, Pow2(b));
      }
    case Slash => DivideComputes(a, b);
    case Percent => DivideComputes(a, b);
    case _ =>
  }

  ghost predicate PrefixComputes(prefix: Prefix, x: int, r: Option<int>)
  {
    match prefix
    case Not => IsBit(r, x == 0)
    case Complement => r.Some? && x + r.value == -1
    case Negate => if x == LEAST then r.None? else r.Some? && x + r.value == 0
    case Keep => r == Some(x)
  }

  lemma {:induction false} PrefixIs(prefix: Prefix, x: int)
    requires Fits(x)
    ensures PrefixComputes(prefix, x, ApplyPrefix(prefix, x))
    ensures ApplyPrefix(prefix, x).Some? ==> Fits(ApplyPrefix(prefix, x).value)
  {
  }

  // ----- A whole expression.

  /** Every literal of the tree is a 64-bit value. */
  ghost predicate LiteralsFit(e: Expr)
  {
    match e
    case Literal(n) => Fits(n)
    case Prefixed(_, operand) => LiteralsFit(operand)
    case Infix(_, left, right) => LiteralsFit(left) && LiteralsFit(right)
    case Choose(test, yes, no) => LiteralsFit(test) && LiteralsFit(yes) && LiteralsFit(no)
    case _ => true
  }

  ghost predicate DefinesFit(defines: Defines) { forall name | name in defines && defines[name].Some? :: Fits(defines[name].value) }

  /** The tree comes to `r`, each operator computing what it does; `None` is a panic somewhere in it. */
  ghost predicate ComesTo(e: Expr, defines: Defines, r: Option<int>)
  {
    match e
    case Literal(n) => r == Some(n)
    case Name(name) => r == Some(if name in defines && defines[name].Some? then defines[name].value else 0)
    case IsDefined(name, _) => IsBit(r, name in defines)
    case Prefixed(prefix, operand) =>
      exists x: Option<int> :: ComesTo(operand, defines, x) && if x.None? then r.None? else PrefixComputes(prefix, x.value, r)
    case Infix(op, left, right) =>
      exists a: Option<int>, b: Option<int> :: ComesTo(left, defines, a) && ComesTo(right, defines, b) && JoinsTo(op, a, b, r)
    case Choose(test, yes, no) =>
      exists c: Option<int>, a: Option<int>, b: Option<int> ::
        ComesTo(test, defines, c) && ComesTo(yes, defines, a) && ComesTo(no, defines, b) && ChoosesTo(c, a, b, r)
  }

  ghost predicate JoinsTo(op: Token, a: Option<int>, b: Option<int>, r: Option<int>)
  {
    if a.None? || b.None? then r.None? else Computes(op, a.value, b.value, r)
  }

  ghost predicate ChoosesTo(c: Option<int>, a: Option<int>, b: Option<int>, r: Option<int>)
  {
    if c.None? || a.None? || b.None? then r.None? else r == if c.value != 0 then a else b
  }

  lemma {:induction false} ValueComesTo(e: Expr, defines: Defines)
    requires LiteralsFit(e) && DefinesFit(defines)
    ensures var v := Value(e, CheckedArithmetic(defines));
            ComesTo(e, defines, v) && (v.Some? ==> Fits(v.value))
  {
    var env := CheckedArithmetic(defines);
    match e
    case Prefixed(prefix, operand) =>
      ValueComesTo(operand, defines);
      var x := Value(operand, env);
      if x.Some? {
        PrefixIs(prefix, x.value);
      }
    case Infix(op, left, right) =>
      ValueComesTo(left, defines);
      ValueComesTo(right, defines);
      var a, b := Value(left, env), Value(right, env);
      if a.Some? && b.Some? {
        ApplyComputes(op, a.value, b.value);
      }
      assert JoinsTo(op, a, b, Value(e, env));
    case Choose(test, yes, no) =>
      ValueComesTo(test, defines);
      ValueComesTo(yes, defines);
      ValueComesTo(no, defines);
      assert ChoosesTo(Value(test, env), Value(yes, env), Value(no, env), Value(e, env));
    case _ =>
  }

  /** Read with checked arithmetic, an expression comes to its 64-bit value, or panics where the tree has none. */
  method EvaluateChecked(ghost e: Expr, defines: Defines, toks: seq<Token>) returns (r: Option<int>)
    requires Derives(Conditional, toks, 0, |toks|, e) && LiteralsFit(e) && DefinesFit(defines)
    ensures r == Value(e, CheckedArithmetic(defines))
    ensures ComesTo(e, defines, r) && (r.Some? ==> Fits(r.value))
  {
    ValueComesTo(e, defines);
    var consumed;
    r, consumed := EvaluateDerived(e, CheckedArithmetic(defines), toks);
  }
}
