/**
  What macro expansion means, independently of how the expander computes it:
  which token runs are invocations, when expansion is plain inlining, what it
  leaves unexpanded, and what pasting does.
 */
module MacroTheorems {
  import opened Options
  import opened MacroModel
  import Seqs

  // ----- Argument collection accepts exactly the parenthesised, comma-separated lists.

  /** The parenthesis depth after `a`; `None` if `a` has a comma or a closing parenthesis at depth 0. */
  ghost function Scan(a: seq<Tok>, depth: nat): Option<nat>
  {
    if a == [] then Some(depth)
    else
      match a[0].token
      case LParen => Scan(a[1..], depth + 1)
      case RParen => if depth == 0 then None else Scan(a[1..], depth - 1)
      case Comma => if depth == 0 then None else Scan(a[1..], depth)
      case _ => Scan(a[1..], depth)
  }

  ghost predicate Balanced(a: seq<Tok>) { Scan(a, 0) == Some(0) }

  /** Arguments spelled out with `commas` between them. */
  ghost function Spelled(args: seq<seq<Tok>>, commas: seq<Tok>): seq<Tok>
    requires |args| == |commas| + 1
    decreases |args|
  {
    if commas == [] then args[0]
    else Spelled(args[..|args| - 1], commas[..|commas| - 1]) + [commas[|commas| - 1]] + args[|args| - 1]
  }

  ghost predicate ListOf(args: seq<seq<Tok>>, commas: seq<Tok>)
  {
    && |args| == |commas| + 1
    && (forall c | c in commas :: c.token.Comma?)
    && (forall a | a in args :: Balanced(a))
  }

  /** `q` starts with an invocation: blanks, `(`, a list of balanced arguments, `)`, spanning `used` tokens. */
  ghost predicate Spells(q: seq<Tok>, start: nat, list: seq<seq<Tok>>, commas: seq<Tok>, used: nat)
  {
    && start + 2 <= used <= |q|
    && (forall i | 0 <= i < start :: Blank(q[i]))
    && q[start].token.LParen? && q[used - 1].token.RParen?
    && ListOf(list, commas)
    && q[start + 1..used - 1] == Spelled(list, commas)
  }

  ghost predicate AllBlank(q: seq<Tok>) { forall i | 0 <= i < |q| :: Blank(q[i]) }

  ghost predicate IsInvocation(q: seq<Tok>, parameters: seq<string>, args: seq<seq<Tok>>, used: nat)
  {
    exists start, list, commas ::
      Spells(q, start, list, commas, used) && args == (if parameters == [] && |list| == 1 && AllBlank(list[0]) then [] else list) && |args| == |parameters|
  }

  lemma {:induction false} ScanConcat(a: seq<Tok>, b: seq<Tok>, depth: nat)
    ensures Scan(a + b, depth) == if Scan(a, depth).None? then None else Scan(b, Scan(a, depth).value)
  {
    if a == [] {
      assert a + b == b;
    } else {
      assert (a + b)[1..] == a[1..] + b;
      match a[0].token {
        case LParen => ScanConcat(a[1..], b, depth + 1);
        case RParen => if depth > 0 { ScanConcat(a[1..], b, depth - 1); }
        case _ => ScanConcat(a[1..], b, depth);
      }
    }
  }

  lemma {:induction false} SpelledPush(args: seq<seq<Tok>>, open: seq<Tok>, commas: seq<Tok>, t: Tok)
    requires |args| == |commas|
    ensures Spelled(args + [open + [t]], commas) == Spelled(args + [open], commas) + [t]
    ensures Spelled(args + [open] + [[]], commas + [t]) == Spelled(args + [open], commas) + [t]
  {
  }

  /** The depth after one token that neither ends nor splits an argument. */
  ghost function After(t: Tok, depth: nat): nat
    requires !(depth == 0 && (t.token.RParen? || t.token.Comma?))
  {
    if t.token.LParen? then depth + 1 else if t.token.RParen? then depth - 1 else depth
  }

  lemma {:induction false} ScanPush(open: seq<Tok>, t: Tok, depth: nat)
    requires Scan(open, 0) == Some(depth) && !(depth == 0 && (t.token.RParen? || t.token.Comma?))
    ensures Scan(open + [t], 0) == Some(After(t, depth))
  {
    ScanConcat(open, [t], 0);
    assert [t][1..] == [];
  }

  ghost predicate Partial(done: seq<seq<Tok>>, open: seq<Tok>, depth: nat, commas: seq<Tok>)
  {
    && |done| == |commas| && Scan(open, 0) == Some(depth)
    && (forall a | a in done :: Balanced(a)) && (forall c | c in commas :: c.token.Comma?)
  }

  /** The arguments, spelled, are what was open and the tokens taken up to the closing parenthesis. */
  ghost predicate Collected(q: seq<Tok>, start: seq<Tok>, args: seq<seq<Tok>>, used: nat, all: seq<Tok>)
  {
    ListOf(args, all) && 1 <= used <= |q| && q[used - 1].token.RParen? && Spelled(args, all) == start + q[..used - 1]
  }

  lemma {:induction false} CollectedMore(q: seq<Tok>, start: seq<Tok>, args: seq<seq<Tok>>, used: nat, all: seq<Tok>)
    requires q != [] && Collected(q[1..], start + [q[0]], args, used, all)
    ensures Collected(q, start, args, used + 1, all)
  {
    Seqs.PrependTake(start, q, used);
  }

  /** Everything `Collect` accepts is a list. */
  lemma {:induction false} CollectSound(q: seq<Tok>, depth: nat, done: seq<seq<Tok>>, open: seq<Tok>, commas: seq<Tok>)
    returns (all: seq<Tok>)
    requires Partial(done, open, depth, commas)
    requires Collect(q, depth, done, open).Some?
    ensures var (args, used) := Collect(q, depth, done, open).value;
            Collected(q, Spelled(done + [open], commas), args, used, all)
    decreases |q|
  {
    var t := q[0];
    var start := Spelled(done + [open], commas);
    var (args, used) := Collect(q, depth, done, open).value;
    SpelledPush(done, open, commas, t);
    if t.token.RParen? && depth == 0 {
      all := commas;
      assert start + q[..0] == start;
    } else if t.token.Comma? && depth == 0 {
      assert Partial(done + [open], [], 0, commas + [t]);
      all := CollectSound(q[1..], 0, done + [open], [], commas + [t]);
      CollectedMore(q, start, args, used - 1, all);
    } else {
      ScanPush(open, t, depth);
      all := CollectSound(q[1..], After(t, depth), done, open + [t], commas);
      CollectedMore(q, start, args, used - 1, all);
    }
  }

  lemma {:induction false} CollectArgument(a: seq<Tok>, q: seq<Tok>, depth: nat, done: seq<seq<Tok>>, open: seq<Tok>)
    requires Scan(a, depth).Some?
    ensures Collect(a + q, depth, done, open) == ShiftBy(Collect(q, Scan(a, depth).value, done, open + a), |a|)
    decreases |a|
  {
    if a == [] {
      assert a + q == q && open + a == open;
    } else {
      var deep := if a[0].token.LParen? then depth + 1 else if a[0].token.RParen? then depth - 1 else depth;
      assert (a + q)[1..] == a[1..] + q && open + [a[0]] + a[1..] == open + a;
      CollectArgument(a[1..], q, deep, done, open + [a[0]]);
    }
  }

  /** Every list followed by a closing parenthesis is accepted, and split into its own arguments. */
  lemma {:induction false} CollectComplete(args: seq<seq<Tok>>, commas: seq<Tok>, q: seq<Tok>)
    requires ListOf(args, commas)
    ensures Collect(Spelled(args, commas) + q, 0, [], [])
         == ShiftBy(Collect(q, 0, args[..|args| - 1], args[|args| - 1]), |Spelled(args, commas)|)
    decreases |args|
  {
    var n := |args| - 1;
    var last := args[n];
    assert Balanced(last);
    if commas == [] {
      CollectArgument(last, q, 0, [], []);
      assert args[..n] == [] && [] + last == last;
    } else {
      var first, c := args[..n], commas[n - 1];
      var head := Spelled(first, commas[..n - 1]);
      var tail := [c] + (last + q);
      assert Spelled(args, commas) + q == head + tail;
      CollectComplete(first, commas[..n - 1], tail);
      assert tail[1..] == last + q;
      assert first[..n - 1] + [first[n - 1]] == args[..n];
      CollectArgument(last, q, 0, args[..n], []);
      assert [] + last == last;
    }
  }

  lemma {:induction false} SkipsBlanks(q: seq<Tok>, start: nat)
    requires start < |q| && !Blank(q[start]) && forall i | 0 <= i < start :: Blank(q[i])
    ensures SkipBlanks(q) == start
  {
  }

  lemma {:induction false} InvocationSound(q: seq<Tok>, parameters: seq<string>)
    requires Invocation(q, parameters).Some?
    ensures IsInvocation(q, parameters, Invocation(q, parameters).value.0, Invocation(q, parameters).value.1)
  {
    var start := SkipBlanks(q);
    var tail := q[start + 1..];
    var (list, n) := Collect(tail, 0, [], []).value;
    var none: seq<seq<Tok>> := [];
    assert Partial(none, [], 0, []);
    var commas := CollectSound(tail, 0, none, [], []);
    assert Spelled(none + [[]], []) == [];
    var used := start + 1 + n;
    assert Spelled(list, commas) == tail[..n - 1] == q[start + 1..used - 1];
    assert Spells(q, start, list, commas, used);
  }

  lemma {:induction false} InvocationComplete(q: seq<Tok>, parameters: seq<string>, start: nat, list: seq<seq<Tok>>,
                                              commas: seq<Tok>, used: nat)
    requires Spells(q, start, list, commas, used) && |Arguments(parameters, list)| == |parameters|
    ensures Invocation(q, parameters) == Some((Arguments(parameters, list), used))
  {
    SkipsBlanks(q, start);
    Seqs.Split(q, start + 1, used - 1);
    CollectsList(list, commas, q[used - 1..]);
  }

  lemma {:induction false} CollectsList(list: seq<seq<Tok>>, commas: seq<Tok>, rest: seq<Tok>)
    requires ListOf(list, commas) && rest != [] && rest[0].token.RParen?
    ensures Collect(Spelled(list, commas) + rest, 0, [], []) == Some((list, |Spelled(list, commas)| + 1))
  {
    CollectComplete(list, commas, rest);
    assert list[..|list| - 1] + [list[|list| - 1]] == list;
  }

  /** Collection finds an invocation exactly when the queue starts with one, and finds that one. */
  lemma {:induction false} InvocationExact(q: seq<Tok>, parameters: seq<string>, args: seq<seq<Tok>>, used: nat)
    ensures Invocation(q, parameters) == Some((args, used)) <==> IsInvocation(q, parameters, args, used)
  {
    if Invocation(q, parameters) == Some((args, used)) {
      InvocationSound(q, parameters);
    }
    if IsInvocation(q, parameters, args, used) {
      var start, list, commas :|
        Spells(q, start, list, commas, used)
        && args == (if parameters == [] && |list| == 1 && AllBlank(list[0]) then [] else list) && |args| == |parameters|;
      InvocationComplete(q, parameters, start, list, commas, used);
    }
  }

  // ----- Object-like macros: expansion is inlining.

  ghost predicate ObjectOnly(table: Table) { forall m | m in table.macros :: table.macros[m].Object? }

  /** A token by itself: its body inlined under its own name, recursively, or itself. */
  ghost function Inline(table: Table, t: Tok): seq<Tok>
    requires ObjectOnly(table)
    decreases Rank(table, t), 1, 0
  {
    if !Expandable(table, t) then [t]
    else
      var body := Body(table.macros[t.token.name].body, t.span, t.hideset);
      PaintedRanksBelow(table, t, body);
      InlineAll(table, Paint(body, t.hideset + {t.token.name}), Rank(table, t))
  }

  ghost function InlineAll(table: Table, q: seq<Tok>, bound: nat): seq<Tok>
    requires ObjectOnly(table) && forall t | t in q :: Rank(table, t) < bound
    decreases bound, 0, |q|
  {
    if q == [] then [] else Inline(table, q[0]) + InlineAll(table, q[1..], bound)
  }

  lemma {:induction false} InlineConcat(table: Table, a: seq<Tok>, b: seq<Tok>, bound: nat, low: nat)
    requires ObjectOnly(table) && low <= bound
    requires (forall t | t in a :: Rank(table, t) < low) && forall t | t in a + b :: Rank(table, t) < bound
    ensures (forall t | t in b :: Rank(table, t) < bound)
    ensures InlineAll(table, a + b, bound) == InlineAll(table, a, low) + InlineAll(table, b, bound)
    decreases |a|
  {
    assert forall t | t in b :: t in a + b;
    if a == [] {
      assert a + b == b;
    } else {
      assert (a + b)[0] == a[0] && (a + b)[1..] == a[1..] + b;
      assert forall t | t in a[1..] + b :: t in a + b;
      InlineConcat(table, a[1..], b, bound, low);
      var first, more, last := Inline(table, a[0]), InlineAll(table, a[1..], low), InlineAll(table, b, bound);
      assert first + (more + last) == (first + more) + last;
    }
  }

  /** With object-like macros only, draining the queue inlines each token on its own. */
  lemma {:induction false} ObjectExpansionInlines(table: Table, q: seq<Tok>)
    requires ObjectOnly(table)
    ensures (forall t | t in q :: Rank(table, t) < |table.macros| + 1)
    ensures Expand(table, q) == InlineAll(table, q, |table.macros| + 1)
    decreases Height(table, q)
  {
    var n := |table.macros| + 1;
    if q != [] {
      var t, rest := q[0], q[1..];
      if Expandable(table, t) {
        var news := Paint(Body(table.macros[t.token.name].body, t.span, t.hideset), t.hideset + {t.token.name});
        PaintedRanksBelow(table, t, Body(table.macros[t.token.name].body, t.span, t.hideset));
        ObjectStep(table, q);
        ObjectExpansionInlines(table, news + rest);
        InlineConcat(table, news, rest, n, Rank(table, t));
      } else {
        RestDescends(table, q);
        ObjectExpansionInlines(table, rest);
      }
    }
  }

  /** So expansion distributes over concatenation. */
  lemma {:induction false} ObjectExpansionDistributes(table: Table, a: seq<Tok>, b: seq<Tok>)
    requires ObjectOnly(table)
    ensures Expand(table, a + b) == Expand(table, a) + Expand(table, b)
  {
    ObjectExpansionInlines(table, a + b);
    ObjectExpansionInlines(table, a);
    ObjectExpansionInlines(table, b);
    InlineConcat(table, a, b, |table.macros| + 1, |table.macros| + 1);
  }

  // ----- What is left.

  /** No object-like macro name survives unless its hideset hides it. */
  lemma {:induction false} ExpandedIsNormal(table: Table, q: seq<Tok>)
    ensures forall t | t in Expand(table, q) :: Expandable(table, t) ==> table.macros[t.token.name].Function?
    decreases Height(table, q)
  {
    if q != [] {
      var t, rest := q[0], q[1..];
      RestDescends(table, q);
      ExpandedIsNormal(table, rest);
      if Expandable(table, t) {
        match table.macros[t.token.name]
        case Object(body) =>
          ObjectStep(table, q);
          ExpandedIsNormal(table, Paint(Body(body, t.span, t.hideset), t.hideset + {t.token.name}) + rest);
        case Function(parameters, body) =>
          if Invocation(rest, parameters).Some? {
            FunctionStep(table, q);
            var (arguments, used) := Invocation(rest, parameters).value;
            var replaced := PasteAll(table, SubstituteFrom(table, body, parameters, TrimAll(arguments), t.span, |body|, Height(table, q)));
            ExpandedIsNormal(table, Paint(replaced, t.hideset + {t.token.name}) + rest[used..]);
          }
      }
    }
  }

  lemma {:induction false} FixedPoint(table: Table, q: seq<Tok>)
    requires forall t | t in q :: !Expandable(table, t)
    ensures Expand(table, q) == q
    decreases |q|
  {
    if q != [] {
      FixedPoint(table, q[1..]);
    }
  }

  /** With object-like macros only, expanding again changes nothing. */
  lemma {:induction false} ObjectExpansionIdempotent(table: Table, q: seq<Tok>)
    requires ObjectOnly(table)
    ensures Expand(table, Expand(table, q)) == Expand(table, q)
  {
    ExpandedIsNormal(table, q);
    FixedPoint(table, Expand(table, q));
  }

  // ----- When expanding changes something.

  /** A macro name at the head of the queue that is not hidden and, if it takes arguments, has them. */
  predicate Redex(table: Table, q: seq<Tok>)
  {
    && q != [] && Expandable(table, q[0])
    && var m := table.macros[q[0].token.name];
       m.Object? || Invocation(q[1..], m.parameters).Some?
  }

  predicate HasRedex(table: Table, q: seq<Tok>) { exists k: nat :: k < |q| && Redex(table, q[k..]) }

  lemma {:induction false} RedexInRest(table: Table, q: seq<Tok>)
    requires q != []
    ensures HasRedex(table, q) <==> Redex(table, q) || HasRedex(table, q[1..])
  {
    assert q[0..] == q;
    assert forall k: nat | k < |q| - 1 :: q[1..][k..] == q[k + 1..];
    if k: nat :| k < |q| && Redex(table, q[k..]) {
      assert k > 0 ==> q[1..][k - 1..] == q[k..];
    }
  }

  lemma {:induction false} LowerOn(table: Table, t: Tok, a: seq<Tok>, b: seq<Tok>)
    requires Lower(table, a, b)
    ensures Lower(table, [t] + a, [t] + b)
  {
    var rank: nat :| rank <= |table.macros| && FewerAt(table, a, b, rank);
    FewerOn(table, t, a, b, rank);
  }

  lemma {:induction false} FewerOn(table: Table, t: Tok, a: seq<Tok>, b: seq<Tok>, rank: nat)
    requires FewerAt(table, a, b, rank)
    ensures FewerAt(table, [t] + a, [t] + b, rank)
  {
    CountsAdd(table, t, a);
    CountsAdd(table, t, b);
    FewerPlus(|table.macros|, CountOf(table, [t]), CountOf(table, a), CountOf(table, b), CountOf(table, [t] + a), CountOf(table, [t] + b), rank);
  }

  lemma {:induction false} CountsAdd(table: Table, t: Tok, a: seq<Tok>)
    ensures forall r: nat :: CountOf(table, [t] + a)(r) == CountOf(table, [t])(r) + CountOf(table, a)(r)
  {
    forall r: nat
      ensures CountOf(table, [t] + a)(r) == CountOf(table, [t])(r) + CountOf(table, a)(r)
    {
      CountConcat(table, [t], a, r);
    }
  }

  lemma {:induction false} FewerPlus(n: nat, more: nat -> nat, f: nat -> nat, g: nat -> nat, f': nat -> nat, g': nat -> nat, rank: nat)
    requires FewerBelow(n, f, g, rank)
    requires forall r: nat :: f'(r) == more(r) + f(r)
    requires forall r: nat :: g'(r) == more(r) + g(r)
    ensures FewerBelow(n, f', g', rank)
  {
  }

  lemma {:induction false} LowerStill(table: Table, a: seq<Tok>, b: seq<Tok>, c: seq<Tok>)
    requires Lower(table, a, b) && Lower(table, b, c)
    ensures Lower(table, a, c)
  {
    var i: nat :| i <= |table.macros| && FewerAt(table, a, b, i);
    var j: nat :| j <= |table.macros| && FewerAt(table, b, c, j);
    FewerStill(|table.macros|, CountOf(table, a), CountOf(table, b), CountOf(table, c), i, j);
    assert FewerAt(table, a, c, if i < j then j else i);
  }

  lemma {:induction false} FewerStill(n: nat, f: nat -> nat, g: nat -> nat, h: nat -> nat, i: nat, j: nat)
    requires i <= n && j <= n && FewerBelow(n, f, g, i) && FewerBelow(n, g, h, j)
    ensures FewerBelow(n, f, h, if i < j then j else i)
  {
  }

  /** Expansion leaves a queue without a redex alone and lowers any other. */
  lemma {:induction false} ExpandLowers(table: Table, q: seq<Tok>)
    ensures if HasRedex(table, q) then Lower(table, Expand(table, q), q) else Expand(table, q) == q
    decreases Height(table, q), 0
  {
    if q != [] {
      var t, rest := q[0], q[1..];
      RedexInRest(table, q);
      if !Redex(table, q) {
        RestDescends(table, q);
        ExpandLowers(table, rest);
        assert q == [t] + rest && Expand(table, q) == [t] + Expand(table, rest);
        if HasRedex(table, rest) {
          LowerOn(table, t, Expand(table, rest), rest);
        }
      } else if table.macros[t.token.name].Object? {
        ObjectStep(table, q);
        var news := Paint(Body(table.macros[t.token.name].body, t.span, t.hideset), t.hideset + {t.token.name});
        LowersFurther(table, news + rest, q);
      } else {
        FunctionStep(table, q);
        var d := table.macros[t.token.name];
        var (arguments, used) := Invocation(rest, d.parameters).value;
        var replaced := PasteAll(table, SubstituteFrom(table, d.body, d.parameters, TrimAll(arguments), t.span, |d.body|, Height(table, q)));
        LowersFurther(table, Paint(replaced, t.hideset + {t.token.name}) + rest[used..], q);
      }
    }
  }

  lemma {:induction false} LowersFurther(table: Table, next: seq<Tok>, q: seq<Tok>)
    requires Lower(table, next, q) && Height(table, next) < Height(table, q) && Expand(table, q) == Expand(table, next)
    ensures Lower(table, Expand(table, q), q)
    decreases Height(table, next), 1
  {
    ExpandLowers(table, next);
    var end := Expand(table, next);
    if HasRedex(table, next) {
      LowerStill(table, end, next, q);
    }
  }

  /** A queue expands to itself exactly when it has no redex. */
  lemma {:induction false} ExpandsToItself(table: Table, q: seq<Tok>)
    ensures Expand(table, q) == q <==> !HasRedex(table, q)
  {
    ExpandLowers(table, q);
  }

  /** So expanding again changes nothing exactly when the first expansion leaves no redex. */
  lemma {:induction false} ExpansionIdempotent(table: Table, q: seq<Tok>)
    ensures Expand(table, Expand(table, q)) == Expand(table, q) <==> !HasRedex(table, Expand(table, q))
  {
    ExpandsToItself(table, Expand(table, q));
  }

  /**
    It can change something with function-like macros: `F E (x)` with `F(p)`
    and both bodies empty expands to `F (x)`, which expands to nothing.
   */
  lemma {:induction false} ExpansionNotIdempotent(table: Table, q: seq<Tok>, list: seq<Tok>)
    requires table.macros == map["F" := Function(["p"], []), "E" := Object([])]
    requires list == [Tok(LParen, 0, {}), Tok(Word("x"), 0, {}), Tok(RParen, 0, {})]
    requires q == [Tok(Word("F"), 0, {}), Tok(Word("E"), 0, {})] + list
    ensures Expand(table, q) == [q[0]] + list
    ensures Expand(table, [q[0]] + list) == []
  {
    ExpandsHidden(table, q[1..], list);
    assert Invocation(q[1..], ["p"]).None?;
    var r := [q[0]] + list;
    var x := list[1];
    assert r[1..] == list && list[1..] == [x, list[2]];
    assert Spells(list, 0, [[x]], [], 3) by {
      assert [x][1..] == [] && Balanced([x]);
      assert Spelled([[x]], []) == [x] == list[1..2];
    }
    InvocationComplete(list, ["p"], 0, [[x]], [], 3);
    FunctionStep(table, r);
    assert Expand(table, r) == Expand(table, Paint([], {} + {"F"}) + list[3..]);
    assert Paint([], {} + {"F"}) + list[3..] == [];
  }

  lemma {:induction false} ExpandsHidden(table: Table, q: seq<Tok>, list: seq<Tok>)
    requires q == [Tok(Word("E"), 0, {})] + list && "E" in table.macros && table.macros["E"] == Object([])
    requires forall t | t in list :: !Expandable(table, t)
    ensures Expand(table, q) == list
  {
    FixedPoint(table, list);
    ObjectStep(table, q);
    assert q[1..] == list && Paint(Body([], 0, {}), {} + {"E"}) + list == list;
  }

  // ----- Pasting.

  lemma {:induction false} PasteSkips(table: Table, a: seq<PasteTok>, b: seq<PasteTok>, out: seq<PasteTok>)
    requires forall t | t in a :: !IsPaste(t)
    ensures PasteRun(table, a + b, out) == PasteRun(table, b, out + a)
    decreases |a|
  {
    if a == [] {
      assert a + b == b && out + a == out;
    } else {
      assert (a + b)[1..] == a[1..] + b && out + [a[0]] + a[1..] == out + a;
      PasteSkips(table, a[1..], b, out + [a[0]]);
    }
  }

  lemma {:induction false} DropsBack(out: seq<PasteTok>, blanks: seq<PasteTok>)
    requires (forall t | t in blanks :: IsBlankPaste(t)) && (out != [] ==> !IsBlankPaste(out[|out| - 1]))
    ensures DropBlanksBack(out + blanks) == out
    decreases |blanks|
  {
    if blanks != [] {
      var n := |blanks| - 1;
      assert blanks[n] in blanks && (out + blanks)[..|out| + n] == out + blanks[..n];
      DropsBack(out, blanks[..n]);
    } else {
      assert out + blanks == out;
    }
  }

  lemma {:induction false} DropsFront(blanks: seq<PasteTok>, input: seq<PasteTok>)
    requires (forall t | t in blanks :: IsBlankPaste(t)) && (input != [] ==> !IsBlankPaste(input[0]))
    ensures DropBlanksFront(blanks + input) == input
    decreases |blanks|
  {
    if blanks != [] {
      assert blanks[0] in blanks && (blanks + input)[1..] == blanks[1..] + input;
      DropsFront(blanks[1..], input);
    } else {
      assert blanks + input == input;
    }
  }

  /** What a paste of two operands leaves: one operand beside a placemarker, one token where the spellings lex as one, or all three. */
  ghost predicate GluesTo(table: Table, l: PasteTok, operator: PasteTok, r: PasteTok, g: seq<PasteTok>)
  {
    if l.Placemarker? then g == [r]
    else if r.Placemarker? then g == [l]
    else if table.glue(l.tok.token, r.tok.token).None? then g == [l, operator, r]
    else g == [Paste(Tok(table.glue(l.tok.token, r.tok.token).value, l.tok.span, l.tok.hideset + r.tok.hideset))]
  }

  /**
    The first `##` with an operand on either side glues the two, over any
    blanks, and what is left takes its place before the rest is pasted.
   */
  lemma {:induction false} PasteFirst(table: Table, x: seq<PasteTok>, l: PasteTok, b1: seq<PasteTok>, operator: PasteTok,
                                      b2: seq<PasteTok>, r: PasteTok, y: seq<PasteTok>) returns (g: seq<PasteTok>)
    requires forall t | t in x + [l] :: !IsPaste(t)
    requires (forall t | t in b1 + b2 :: IsBlankPaste(t)) && !IsBlankPaste(l) && !IsBlankPaste(r) && IsPaste(operator)
    ensures GluesTo(table, l, operator, r, g)
    ensures PasteRun(table, x + [l] + b1 + [operator] + b2 + [r] + y, []) == PasteRun(table, y, x + g)
  {
    var front := x + [l] + b1;
    var back := b2 + ([r] + y);
    g := Glued(table, l, operator, r);
    NoPasteBefore(x, l, b1, b2);
    assert x + [l] + b1 + [operator] + b2 + [r] + y == front + ([operator] + back);
    PasteSkips(table, front, [operator] + back, []);
    assert [] + front == (x + [l]) + b1;
    DropsBack(x + [l], b1);
    assert ([operator] + back)[1..] == back;
    DropsFront(b2, [r] + y);
    assert (x + [l])[..|x|] == x && ([r] + y)[1..] == y;
  }

  lemma {:induction false} NoPasteBefore(x: seq<PasteTok>, l: PasteTok, b1: seq<PasteTok>, b2: seq<PasteTok>)
    requires (forall t | t in x + [l] :: !IsPaste(t)) && forall t | t in b1 + b2 :: IsBlankPaste(t)
    ensures (forall t | t in x + [l] + b1 :: !IsPaste(t)) && (forall t | t in b1 :: IsBlankPaste(t)) && forall t | t in b2 :: IsBlankPaste(t)
  {
    assert forall t | t in b1 || t in b2 :: t in b1 + b2;
  }

  /** `x l ## r y`, blanks allowed around `##`, glues `l` and `r` in that order and keeps the rest. */
  lemma {:induction false} PasteGlues(table: Table, x: seq<PasteTok>, l: PasteTok, b1: seq<PasteTok>, operator: PasteTok,
                                      b2: seq<PasteTok>, r: PasteTok, y: seq<PasteTok>) returns (g: seq<PasteTok>)
    requires forall t | t in x + [l] + y :: !IsPaste(t)
    requires (forall t | t in b1 + b2 :: IsBlankPaste(t)) && !IsBlankPaste(l) && !IsBlankPaste(r) && IsPaste(operator)
    ensures GluesTo(table, l, operator, r, g)
    ensures PasteRun(table, x + [l] + b1 + [operator] + b2 + [r] + y, []) == x + g + y
  {
    assert forall t | t in x || t == l || t in y :: t in x + [l] + y;
    g := PasteFirst(table, x, l, b1, operator, b2, r, y);
    PasteSkips(table, y, [], x + g);
    assert y + [] == y;
  }

  /** `##` with nothing before it but blanks stays, and so does one with nothing behind it. */
  lemma {:induction false} PasteAtEdge(table: Table, x: seq<PasteTok>, b: seq<PasteTok>, operator: PasteTok, y: seq<PasteTok>)
    requires (forall t | t in b :: IsBlankPaste(t)) && IsPaste(operator) && forall t | t in x :: !IsPaste(t)
    requires x == [] || !IsBlankPaste(x[|x| - 1])
    ensures PasteRun(table, b + [operator] + y, []) == PasteRun(table, y, [operator])
    ensures x != [] ==> PasteRun(table, x + [operator] + b, []) == x + [operator]
  {
    assert b + [operator] + y == b + ([operator] + y) && ([operator] + y)[1..] == y;
    PasteSkips(table, b, [operator] + y, []);
    assert [] + b == b == [] + b;
    DropsBack([], b);
    if x != [] {
      assert x + [operator] + b == x + ([operator] + b) && ([operator] + b)[1..] == b;
      PasteSkips(table, x, [operator] + b, []);
      assert [] + x == x;
      DropsFront(b, []);
      assert b + [] == b;
    }
  }
}
