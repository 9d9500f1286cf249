/**
  What one expansion step puts in place of a name: for an invocation, the body
  with each parameter replaced by its argument, raw beside `##` and fully
  expanded elsewhere.
 */
module MacroCalls {
  import opened Options
  import opened MacroModel

  // ----- Names that expand, and tokens that stay.

  /** The first token names a macro that is not hidden from it. */
  ghost predicate Calls(table: Table, q: seq<Tok>)
  {
    q != [] && q[0].token.Word? && q[0].token.name in table.macros && q[0].token.name !in q[0].hideset
  }

  /** Every token with the name and its hideset added to its own. */
  ghost predicate Painted(news: seq<Tok>, toks: seq<Tok>, t: Tok)
    requires t.token.Word?
  {
    |news| == |toks| && forall i: nat | i < |toks| ::
      news[i] == Tok(toks[i].token, toks[i].span, toks[i].hideset + t.hideset + {t.token.name})
  }

  /** A token that calls nothing, or a function-like name without its arguments, stays. */
  lemma {:induction false} OthersStay(table: Table, q: seq<Tok>)
    requires q != []
    requires Calls(table, q) ==>
               table.macros[q[0].token.name].Function? && Invocation(q[1..], table.macros[q[0].token.name].parameters).None?
    ensures Expand(table, q) == [q[0]] + Expand(table, q[1..])
  {
  }

  /** An object-like name is replaced by its body. */
  lemma {:induction false} ObjectCall(table: Table, q: seq<Tok>) returns (news: seq<Tok>)
    requires Calls(table, q) && table.macros[q[0].token.name].Object?
    ensures var body := table.macros[q[0].token.name].body;
            |news| == |body| && forall i: nat | i < |body| :: news[i] == Tok(body[i], q[0].span, q[0].hideset + {q[0].token.name})
    ensures Expand(table, q) == Expand(table, news + q[1..])
  {
    var t := q[0];
    news := Paint(Body(table.macros[t.token.name].body, t.span, t.hideset), t.hideset + {t.token.name});
    ObjectStep(table, q);
    assert forall i: nat | i < |news| :: news[i].hideset == t.hideset + {t.token.name};
  }

  // ----- What stands in for a token of the body.

  /** The token names the `k`th parameter, the first of that name. */
  ghost predicate NamesParameter(body: seq<Token>, parameters: seq<string>, i: nat, k: nat)
  {
    && i < |body| && body[i].Word? && k < |parameters| && parameters[k] == body[i].name
    && forall j: nat | j < k :: parameters[j] != body[i].name
  }

  /** The nearest token that is no blank, on one side or the other, is `##`. */
  ghost predicate BesidePaste(body: seq<Token>, i: nat)
  {
    exists j: nat :: j < |body| && j != i && body[j].HashHash? && forall k: nat | k < |body| && (i < k < j || j < k < i) :: body[k].Space?
  }

  /** Full expansion under a table, as a function of what is expanded. */
  ghost function Expansion(table: Table): seq<Tok> -> seq<Tok> { (toks: seq<Tok>) => Expand(table, toks) }

  type Expander = seq<Tok> -> seq<Tok>

  ghost predicate Wraps(part: seq<PasteTok>, toks: seq<Tok>) { |part| == |toks| && forall i: nat | i < |toks| :: part[i] == Paste(toks[i]) }

  /** What the `i`th token of the body contributes. */
  ghost predicate Contributes(expand: Expander, body: seq<Token>, parameters: seq<string>, arguments: seq<seq<Tok>>, span: nat, i: nat, part: seq<PasteTok>)
    requires i < |body| && |arguments| == |parameters|
  {
    && (forall k: nat | NamesParameter(body, parameters, i, k) :: StandsFor(expand, Trim(arguments[k]), BesidePaste(body, i), part))
    && ((forall k: nat :: !NamesParameter(body, parameters, i, k)) ==> part == [Paste(Tok(body[i], span, {}))])
  }

  /** Beside `##` the argument as it is, or a placemarker for none; elsewhere all of its expansion. */
  ghost predicate StandsFor(expand: Expander, argument: seq<Tok>, raw: bool, part: seq<PasteTok>)
  {
    if raw && argument == [] then part == [Placemarker]
    else Wraps(part, if raw then argument else expand(argument))
  }

  ghost function Flat<T>(parts: seq<seq<T>>): seq<T>
  {
    if parts == [] then [] else Flat(parts[..|parts| - 1]) + parts[|parts| - 1]
  }

  lemma {:induction false} BeforeIs(body: seq<Token>, i: nat)
    requires i <= |body|
    ensures AdjacentBefore(body, i) <==> exists j: nat :: j < i && body[j].HashHash? && forall k: nat | j < k < i :: body[k].Space?
  {
    if i > 0 && body[i - 1].Space? {
      BeforeIs(body, i - 1);
      if j: nat :| j < i && body[j].HashHash? && forall k: nat | j < k < i :: body[k].Space? {
        assert j < i - 1;
      }
    }
  }

  lemma {:induction false} AfterIs(body: seq<Token>, i: nat)
    requires i <= |body|
    ensures AdjacentAfter(body, i) <==> exists j: nat :: i <= j < |body| && body[j].HashHash? && forall k: nat | i <= k < j :: body[k].Space?
    decreases |body| - i
  {
    if i < |body| && body[i].Space? {
      AfterIs(body, i + 1);
      if j: nat :| i <= j < |body| && body[j].HashHash? && forall k: nat | i <= k < j :: body[k].Space? {
        assert j > i;
      }
    }
  }

  lemma {:induction false} AdjacentIs(body: seq<Token>, i: nat)
    requires i < |body|
    ensures AdjacentToPaste(body, i) <==> BesidePaste(body, i)
  {
    BeforeIs(body, i);
    AfterIs(body, i + 1);
  }

  lemma {:induction false} OneContributes(table: Table, body: seq<Token>, parameters: seq<string>, arguments: seq<seq<Tok>>, span: nat, i: nat, bound: ORDINAL)
    requires i < |body| && |arguments| == |parameters| && forall a | a in TrimAll(arguments) :: Height(table, a) < bound
    ensures Contributes(Expansion(table), body, parameters, arguments, span, i, SubstituteOne(table, body, parameters, TrimAll(arguments), span, i, bound))
  {
    AdjacentIs(body, i);
    var p := ParameterAt(body, parameters, i);
    if p.Some? {
      assert forall j: nat | j < p.value :: parameters[j] == parameters[..p.value][j] && parameters[j] in parameters[..p.value];
      assert NamesParameter(body, parameters, i, p.value);
      assert forall k: nat | NamesParameter(body, parameters, i, k) :: k == p.value;
    } else {
      assert forall k: nat | k < |parameters| :: parameters[k] in parameters;
    }
  }

  ghost predicate AllContribute(expand: Expander, body: seq<Token>, parameters: seq<string>, arguments: seq<seq<Tok>>, span: nat, parts: seq<seq<PasteTok>>)
    requires |parts| <= |body| && |arguments| == |parameters|
  {
    forall i: nat | i < |parts| :: Contributes(expand, body, parameters, arguments, span, i, parts[i])
  }

  lemma {:induction false} OneMore(expand: Expander, body: seq<Token>, parameters: seq<string>, arguments: seq<seq<Tok>>, span: nat,
                                   parts: seq<seq<PasteTok>>, last: seq<PasteTok>)
    requires |parts| < |body| && |arguments| == |parameters| && AllContribute(expand, body, parameters, arguments, span, parts)
    requires Contributes(expand, body, parameters, arguments, span, |parts|, last)
    ensures AllContribute(expand, body, parameters, arguments, span, parts + [last])
  {
    var more := parts + [last];
    forall i: nat | i < |more|
      ensures Contributes(expand, body, parameters, arguments, span, i, more[i])
    {
      if i < |parts| {
        assert more[i] == parts[i];
      }
    }
  }

  lemma {:induction false} FlatMore<T>(parts: seq<seq<T>>, last: seq<T>)
    ensures Flat(parts + [last]) == Flat(parts) + last
  {
    assert (parts + [last])[..|parts|] == parts;
  }

  lemma {:induction false} PartMore(table: Table, body: seq<Token>, parameters: seq<string>, arguments: seq<seq<Tok>>, span: nat, n: nat, bound: ORDINAL,
                                    before: seq<seq<PasteTok>>) returns (last: seq<PasteTok>)
    requires |before| == n < |body| && |arguments| == |parameters| && forall a | a in TrimAll(arguments) :: Height(table, a) < bound
    requires SubstituteFrom(table, body, parameters, TrimAll(arguments), span, n, bound) == Flat(before)
    ensures Contributes(Expansion(table), body, parameters, arguments, span, n, last)
    ensures SubstituteFrom(table, body, parameters, TrimAll(arguments), span, n + 1, bound) == Flat(before + [last])
  {
    last := SubstituteOne(table, body, parameters, TrimAll(arguments), span, n, bound);
    OneContributes(table, body, parameters, arguments, span, n, bound);
    FlatMore(before, last);
  }

  lemma {:induction false} PartsOf(table: Table, body: seq<Token>, parameters: seq<string>, arguments: seq<seq<Tok>>, span: nat, n: nat, bound: ORDINAL)
    returns (parts: seq<seq<PasteTok>>)
    requires n <= |body| && |arguments| == |parameters| && forall a | a in TrimAll(arguments) :: Height(table, a) < bound
    ensures |parts| == n && AllContribute(Expansion(table), body, parameters, arguments, span, parts)
    ensures SubstituteFrom(table, body, parameters, TrimAll(arguments), span, n, bound) == Flat(parts)
  {
    if n == 0 {
      parts := [];
    } else {
      var before := PartsOf(table, body, parameters, arguments, span, n - 1, bound);
      var last := PartMore(table, body, parameters, arguments, span, n - 1, bound, before);
      OneMore(Expansion(table), body, parameters, arguments, span, before, last);
      parts := before + [last];
    }
  }

  /** An invocation is replaced by what the tokens of its body contribute, pasted and painted. */
  lemma {:induction false} FunctionCall(table: Table, q: seq<Tok>) returns (parts: seq<seq<PasteTok>>, news: seq<Tok>)
    requires Calls(table, q) && table.macros[q[0].token.name].Function?
    requires Invocation(q[1..], table.macros[q[0].token.name].parameters).Some?
    ensures var d := table.macros[q[0].token.name];
            var (arguments, used) := Invocation(q[1..], d.parameters).value;
            && |parts| == |d.body|
            && AllContribute(Expansion(table), d.body, d.parameters, arguments, q[0].span, parts)
            && Painted(news, PasteAll(table, Flat(parts)), q[0]) && Expand(table, q) == Expand(table, news + q[1..][used..])
  {
    var t, d := q[0], table.macros[q[0].token.name];
    var (arguments, used) := Invocation(q[1..], d.parameters).value;
    FunctionStep(table, q);
    parts := PartsOf(table, d.body, d.parameters, arguments, t.span, |d.body|, Height(table, q));
    news := Paint(PasteAll(table, Flat(parts)), t.hideset + {t.token.name});
    PaintIs(PasteAll(table, Flat(parts)), t);
  }

  lemma {:induction false} PaintIs(toks: seq<Tok>, t: Tok)
    requires t.token.Word?
    ensures Painted(Paint(toks, t.hideset + {t.token.name}), toks, t)
  {
    assert forall i: nat | i < |toks| :: toks[i].hideset + (t.hideset + {t.token.name}) == toks[i].hideset + t.hideset + {t.token.name};
  }

  // ----- Without `##`.

  /** What the `i`th token of the body becomes when nothing is pasted. */
  ghost predicate Becomes(expand: Expander, body: seq<Token>, parameters: seq<string>, arguments: seq<seq<Tok>>, span: nat, i: nat, part: seq<Tok>)
    requires i < |body| && |arguments| == |parameters|
  {
    && (forall k: nat | NamesParameter(body, parameters, i, k) :: part == expand(Trim(arguments[k])))
    && ((forall k: nat :: !NamesParameter(body, parameters, i, k)) ==> part == [Tok(body[i], span, {})])
  }

  ghost predicate NoPaste(toks: seq<Tok>) { forall i: nat | i < |toks| :: !toks[i].token.HashHash? }

  lemma {:induction false} PlainRun(table: Table, a: seq<PasteTok>, out: seq<PasteTok>)
    requires forall i: nat | i < |a| :: !IsPaste(a[i])
    ensures PasteRun(table, a, out) == out + a
    decreases |a|
  {
    if a != [] {
      PlainRun(table, a[1..], out + [a[0]]);
      assert out + [a[0]] + a[1..] == out + a;
    }
  }

  lemma {:induction false} TokensWrapped(part: seq<PasteTok>, toks: seq<Tok>)
    requires Wraps(part, toks)
    ensures Tokens(part) == toks
  {
    if part != [] {
      TokensWrapped(part[1..], toks[1..]);
      assert toks == [toks[0]] + toks[1..];
    }
  }

  lemma {:induction false} FlatWraps(parts: seq<seq<PasteTok>>, plain: seq<seq<Tok>>)
    requires AllWrap(parts, plain)
    ensures Wraps(Flat(parts), Flat(plain)) && NoPaste(Flat(plain))
  {
    if parts != [] {
      FlatWraps(parts[..|parts| - 1], plain[..|plain| - 1]);
    }
  }

  /** Without `##` in the body a part is no placemarker, but the token itself or its argument's expansion. */
  lemma {:induction false} PartBecomes(expand: Expander, body: seq<Token>, parameters: seq<string>, arguments: seq<seq<Tok>>, span: nat, i: nat, part: seq<PasteTok>)
    returns (plain: seq<Tok>)
    requires i < |body| && |arguments| == |parameters| && (forall j: nat | j < |body| :: !body[j].HashHash?)
    requires Contributes(expand, body, parameters, arguments, span, i, part) && forall k: nat | k < |arguments| :: NoPaste(expand(Trim(arguments[k])))
    ensures Becomes(expand, body, parameters, arguments, span, i, plain) && Wraps(part, plain) && NoPaste(plain)
  {
    assert !BesidePaste(body, i);
    if k: nat :| NamesParameter(body, parameters, i, k) {
      plain := expand(Trim(arguments[k]));
      assert forall l: nat | NamesParameter(body, parameters, i, l) :: l == k;
    } else {
      plain := [Tok(body[i], span, {})];
    }
  }

  /** What every token of the body becomes. */
  ghost predicate AllBecome(expand: Expander, body: seq<Token>, parameters: seq<string>, arguments: seq<seq<Tok>>, span: nat, plain: seq<seq<Tok>>)
    requires |plain| <= |body| && |arguments| == |parameters|
  {
    forall i: nat | i < |plain| :: Becomes(expand, body, parameters, arguments, span, i, plain[i])
  }

  ghost predicate AllWrap(parts: seq<seq<PasteTok>>, plain: seq<seq<Tok>>)
  {
    |parts| == |plain| && forall i: nat | i < |parts| :: Wraps(parts[i], plain[i]) && NoPaste(plain[i])
  }

  lemma {:induction false} OneMoreBecomes(expand: Expander, body: seq<Token>, parameters: seq<string>, arguments: seq<seq<Tok>>, span: nat,
                                          plain: seq<seq<Tok>>, last: seq<Tok>)
    requires |plain| < |body| && |arguments| == |parameters| && AllBecome(expand, body, parameters, arguments, span, plain)
    requires Becomes(expand, body, parameters, arguments, span, |plain|, last)
    ensures AllBecome(expand, body, parameters, arguments, span, plain + [last])
  {
    var more := plain + [last];
    forall i: nat | i < |more|
      ensures Becomes(expand, body, parameters, arguments, span, i, more[i])
    {
      if i < |plain| {
        assert more[i] == plain[i];
      }
    }
  }

  lemma {:induction false} OneMoreWraps(parts: seq<seq<PasteTok>>, part: seq<PasteTok>, plain: seq<seq<Tok>>, last: seq<Tok>)
    requires AllWrap(parts, plain) && Wraps(part, last) && NoPaste(last)
    ensures AllWrap(parts + [part], plain + [last])
  {
  }

  lemma {:induction false} FirstContribute(expand: Expander, body: seq<Token>, parameters: seq<string>, arguments: seq<seq<Tok>>, span: nat,
                                           parts: seq<seq<PasteTok>>, n: nat)
    requires n < |parts| <= |body| && |arguments| == |parameters| && AllContribute(expand, body, parameters, arguments, span, parts)
    ensures AllContribute(expand, body, parameters, arguments, span, parts[..n]) && Contributes(expand, body, parameters, arguments, span, n, parts[n])
  {
    forall i: nat | i < n
      ensures Contributes(expand, body, parameters, arguments, span, i, parts[..n][i])
    {
      assert parts[..n][i] == parts[i];
    }
  }

  lemma {:induction false} PartsBecome(expand: Expander, body: seq<Token>, parameters: seq<string>, arguments: seq<seq<Tok>>, span: nat, parts: seq<seq<PasteTok>>)
    returns (plain: seq<seq<Tok>>)
    requires |parts| <= |body| && |arguments| == |parameters| && (forall j: nat | j < |body| :: !body[j].HashHash?)
    requires AllContribute(expand, body, parameters, arguments, span, parts)
    requires forall k: nat | k < |arguments| :: NoPaste(expand(Trim(arguments[k])))
    ensures |plain| == |parts| && AllBecome(expand, body, parameters, arguments, span, plain) && AllWrap(parts, plain)
  {
    if parts == [] {
      plain := [];
    } else {
      var n := |parts| - 1;
      FirstContribute(expand, body, parameters, arguments, span, parts, n);
      var before := PartsBecome(expand, body, parameters, arguments, span, parts[..n]);
      var last := PartBecomes(expand, body, parameters, arguments, span, n, parts[n]);
      OneMoreBecomes(expand, body, parameters, arguments, span, before, last);
      OneMoreWraps(parts[..n], parts[n], before, last);
      assert parts[..n] + [parts[n]] == parts;
      plain := before + [last];
    }
  }

  /**
    Where nothing is pasted, an invocation is replaced by its body with each
    parameter replaced by the full expansion of its argument.
   */
  lemma {:induction false} CallInlines(table: Table, q: seq<Tok>) returns (plain: seq<seq<Tok>>, news: seq<Tok>)
    requires Calls(table, q) && table.macros[q[0].token.name].Function?
    requires Invocation(q[1..], table.macros[q[0].token.name].parameters).Some?
    requires forall t | t in table.macros[q[0].token.name].body :: !t.HashHash?
    requires forall a | a in Invocation(q[1..], table.macros[q[0].token.name].parameters).value.0 :: NoPaste(Expand(table, Trim(a)))
    ensures var d := table.macros[q[0].token.name];
            var (arguments, used) := Invocation(q[1..], d.parameters).value;
            && |plain| == |d.body|
            && AllBecome(Expansion(table), d.body, d.parameters, arguments, q[0].span, plain)
            && Painted(news, Flat(plain), q[0]) && Expand(table, q) == Expand(table, news + q[1..][used..])
  {
    var d := table.macros[q[0].token.name];
    var (arguments, used) := Invocation(q[1..], d.parameters).value;
    var parts;
    parts, news := FunctionCall(table, q);
    plain := PartsBecome(Expansion(table), d.body, d.parameters, arguments, q[0].span, parts);
    FlatWraps(parts, plain);
    PlainRun(table, Flat(parts), []);
    assert [] + Flat(parts) == Flat(parts);
    TokensWrapped(Flat(parts), Flat(plain));
  }
}
