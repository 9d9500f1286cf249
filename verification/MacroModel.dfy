/**
  Macro tables, expansion tokens and the value-level meaning of the pieces of
  the C preprocessor's macro expander: argument collection, trimming, pasting
  and substitution. `Expand` is what draining a queue of tokens yields.
 */
module MacroModel {
  import LexOrder
  import Seqs
  import opened Options

  /** `Word` is any token spelled like an identifier that is not a string. */
  datatype Token =
    | Word(name: string)
    | LParen
    | RParen
    | Comma
    | HashHash
    | Space(text: string)
    | Other(text: string)

  datatype Macro =
    | Object(body: seq<Token>)
    | Function(parameters: seq<string>, body: seq<Token>)

  /** `glue` lexes the concatenated spelling of two tokens as one token, if it is one. */
  datatype Table = Table(macros: map<string, Macro>, glue: (Token, Token) -> Option<Token>)

  datatype Tok = Tok(token: Token, span: nat, hideset: set<string>)

  predicate Blank(t: Tok) { t.token.Space? }

  /** Whether `t` names a macro its hideset does not hide. */
  predicate Expandable(table: Table, t: Tok)
  {
    t.token.Word? && t.token.name in table.macros && t.token.name !in t.hideset
  }

  // ----- The termination measure: tokens counted by rank, highest rank first.

  ghost function Rank(table: Table, t: Tok): (r: nat)
    ensures r <= |table.macros|
  {
    LemmaSubsetSize(table.macros.Keys - t.hideset, table.macros.Keys);
    |table.macros.Keys - t.hideset|
  }

  lemma {:induction false} LemmaSubsetSize<T>(a: set<T>, b: set<T>)
    requires a <= b
    ensures |a| <= |b|
    ensures a != b ==> |a| < |b|
  {
    assert b == a + (b - a);
    if a != b {
      var x :| x in b && x !in a;
      assert x in b - a;
    }
  }

  ghost function Count(table: Table, q: seq<Tok>, rank: nat): nat
  {
    if q == [] then 0 else (if Rank(table, q[0]) == rank then 1 else 0) + Count(table, q[1..], rank)
  }

  ghost function CountOf(table: Table, q: seq<Tok>): nat -> nat { rank => Count(table, q, rank) }

  ghost function VectorOf(n: nat, counts: nat -> nat): LexOrder.Vec
  {
    seq(n + 1, k requires 0 <= k <= n => counts(n - k))
  }

  ghost function Measure(table: Table, q: seq<Tok>): LexOrder.Vec
  {
    VectorOf(|table.macros|, CountOf(table, q))
  }

  ghost function Height(table: Table, q: seq<Tok>): ORDINAL
  {
    LexOrder.Height(Measure(table, q))
  }

  lemma {:induction false} CountConcat(table: Table, a: seq<Tok>, b: seq<Tok>, rank: nat)
    ensures Count(table, a + b, rank) == Count(table, a, rank) + Count(table, b, rank)
  {
    if a == [] {
      assert a + b == b;
    } else {
      assert (a + b)[1..] == a[1..] + b;
      CountConcat(table, a[1..], b, rank);
    }
  }

  lemma {:induction false} CountZero(table: Table, q: seq<Tok>, rank: nat)
    requires forall t | t in q :: Rank(table, t) != rank
    ensures Count(table, q, rank) == 0
  {
    if q != [] {
      CountZero(table, q[1..], rank);
    }
  }

  /** Fewer tokens of one rank and no more of any higher rank. */
  ghost predicate Lower(table: Table, a: seq<Tok>, b: seq<Tok>)
  {
    exists rank: nat :: rank <= |table.macros| && FewerAt(table, a, b, rank)
  }

  ghost predicate FewerAt(table: Table, a: seq<Tok>, b: seq<Tok>, rank: nat)
  {
    FewerBelow(|table.macros|, CountOf(table, a), CountOf(table, b), rank)
  }

  ghost predicate FewerBelow(n: nat, fewer: nat -> nat, more: nat -> nat, rank: nat)
  {
    fewer(rank) < more(rank) && forall r: nat | rank < r <= n :: fewer(r) <= more(r)
  }

  lemma {:induction false} LowerDescends(table: Table, a: seq<Tok>, b: seq<Tok>)
    requires Lower(table, a, b)
    ensures Height(table, a) < Height(table, b)
  {
    var rank: nat :| rank <= |table.macros| && FewerAt(table, a, b, rank);
    VectorDrops(|table.macros|, CountOf(table, a), CountOf(table, b), rank);
  }

  lemma {:induction false} VectorDrops(n: nat, fewer: nat -> nat, more: nat -> nat, rank: nat)
    requires rank <= n && FewerBelow(n, fewer, more, rank)
    ensures LexOrder.Height(VectorOf(n, fewer)) < LexOrder.Height(VectorOf(n, more))
  {
    var a, b, k := VectorOf(n, fewer), VectorOf(n, more), n - rank;
    assert a[k] < b[k];
    forall j: nat | j < k
      ensures a[j] <= b[j]
    {
      assert fewer(n - j) <= more(n - j);
    }
    LexOrder.DropsBelow(a, b, k);
  }

  lemma {:induction false} CountFour(table: Table, t: Tok, b: seq<Tok>, c: seq<Tok>, d: seq<Tok>, rank: nat)
    ensures Count(table, [t] + b + c + d, rank)
         == (if Rank(table, t) == rank then 1 else 0) + Count(table, b, rank) + Count(table, c, rank) + Count(table, d, rank)
  {
    CountConcat(table, [t] + b + c, d, rank);
    CountConcat(table, [t] + b, c, rank);
    CountConcat(table, [t], b, rank);
    assert [t][1..] == [];
  }

  /**
    One expansion descends: a token and whatever `gone` follows it are replaced
    by `news` tokens that all rank below the token.
   */
  lemma {:induction false} ReplaceDescends(table: Table, t: Tok, gone: seq<Tok>, news: seq<Tok>, rest: seq<Tok>)
    requires forall u | u in news :: Rank(table, u) < Rank(table, t)
    ensures Lower(table, news + rest, [t] + gone + rest)
    ensures Height(table, news + rest) < Height(table, [t] + gone + rest)
  {
    forall rank: nat | Rank(table, t) <= rank
      ensures Count(table, news + rest, rank) + (if rank == Rank(table, t) then 1 else 0)
           <= Count(table, [t] + gone + rest, rank)
    {
      CountConcat(table, news, rest, rank);
      CountZero(table, news, rank);
      CountFour(table, t, gone, rest, [], rank);
      assert [t] + gone + rest + [] == [t] + gone + rest;
    }
    assert FewerAt(table, news + rest, [t] + gone + rest, Rank(table, t));
    LowerDescends(table, news + rest, [t] + gone + rest);
  }

  /** Any part of what follows a token is below the whole. */
  lemma {:induction false} PartDescends(table: Table, t: Tok, before: seq<Tok>, part: seq<Tok>, after: seq<Tok>)
    ensures Height(table, part) < Height(table, [t] + before + part + after)
  {
    forall rank: nat
      ensures Count(table, part, rank) + (if rank == Rank(table, t) then 1 else 0)
           <= Count(table, [t] + before + part + after, rank)
    {
      CountFour(table, t, before, part, after, rank);
    }
    assert FewerAt(table, part, [t] + before + part + after, Rank(table, t));
    LowerDescends(table, part, [t] + before + part + after);
  }

  // ----- Argument collection.

  function SkipBlanks(q: seq<Tok>): (r: nat)
    ensures r <= |q| && (forall i | 0 <= i < r :: Blank(q[i])) && (r < |q| ==> !Blank(q[r]))
  {
    if q == [] || !Blank(q[0]) then 0 else SkipBlanks(q[1..]) + 1
  }

  function TrimEnd(q: seq<Tok>): (r: nat)
    ensures r <= |q| && (forall i | r <= i < |q| :: Blank(q[i])) && (r > 0 ==> !Blank(q[r - 1]))
  {
    if q == [] || !Blank(q[|q| - 1]) then |q| else TrimEnd(q[..|q| - 1])
  }

  /** An argument without the blanks around it. */
  function Trim(argument: seq<Tok>): (r: seq<Tok>)
    ensures r == [] <==> forall i | 0 <= i < |argument| :: Blank(argument[i])
    ensures r != [] ==> !Blank(r[0]) && !Blank(r[|r| - 1])
    ensures RunOf(r, argument)
    ensures exists lo: nat, hi: nat :: BlankAround(argument, lo, hi) && r == argument[lo..hi]
  {
    var start, end := SkipBlanks(argument), TrimEnd(argument);
    if start == |argument| then
      assert argument[0..0] == [] && BlankAround(argument, 0, 0);
      []
    else
      assert BlankAround(argument, start, end);
      argument[start..end]
  }

  /** Outside of this run there are only blanks. */
  ghost predicate BlankAround(q: seq<Tok>, lo: nat, hi: nat)
  {
    lo <= hi <= |q| && (forall i | 0 <= i < lo :: Blank(q[i])) && forall i | hi <= i < |q| :: Blank(q[i])
  }

  ghost predicate RunOf(a: seq<Tok>, tail: seq<Tok>)
  {
    exists lo, hi :: 0 <= lo <= hi <= |tail| && a == tail[lo..hi]
  }

  /** The same arguments, found so many tokens further on. */
  function ShiftBy(r: Option<(seq<seq<Tok>>, nat)>, count: nat): Option<(seq<seq<Tok>>, nat)>
  {
    if r.Some? then Some((r.value.0, r.value.1 + count)) else None
  }

  /** The tokens of an open argument list up to its closing parenthesis: `None` when it never closes. */
  function Collect(q: seq<Tok>, depth: nat, done: seq<seq<Tok>>, open: seq<Tok>): (r: Option<(seq<seq<Tok>>, nat)>)
    ensures r.Some? ==> r.value.1 <= |q| && 0 < r.value.1
  {
    if q == [] then None
    else
      var t := q[0];
      match t.token
      case RParen =>
        if depth == 0 then Some((done + [open], 1))
        else Shift(Collect(q[1..], depth - 1, done, open + [t]))
      case LParen => Shift(Collect(q[1..], depth + 1, done, open + [t]))
      case Comma =>
        if depth == 0 then Shift(Collect(q[1..], depth, done + [open], []))
        else Shift(Collect(q[1..], depth, done, open + [t]))
      case _ => Shift(Collect(q[1..], depth, done, open + [t]))
  }

  function Shift(r: Option<(seq<seq<Tok>>, nat)>): Option<(seq<seq<Tok>>, nat)>
  {
    if r.Some? then Some((r.value.0, r.value.1 + 1)) else None
  }

  function Arguments(parameters: seq<string>, arguments: seq<seq<Tok>>): seq<seq<Tok>>
  {
    if parameters == [] && |arguments| == 1 && Trim(arguments[0]) == [] then [] else arguments
  }

  /** The arguments of an invocation at the head of `q`, and how many tokens it spans. */
  function Invocation(q: seq<Tok>, parameters: seq<string>): (r: Option<(seq<seq<Tok>>, nat)>)
    ensures r.Some? ==> r.value.1 <= |q| && |r.value.0| == |parameters|
  {
    var start := SkipBlanks(q);
    if start == |q| || !q[start].token.LParen? then None
    else
      match Collect(q[start + 1..], 0, [], [])
      case None => None
      case Some((collected, used)) =>
        var arguments := Arguments(parameters, collected);
        if |arguments| != |parameters| then None else Some((arguments, start + 1 + used))
  }

  // ----- Pasting.

  datatype PasteTok = Paste(tok: Tok) | Placemarker

  predicate IsPaste(t: PasteTok) { t.Paste? && t.tok.token.HashHash? }

  predicate IsBlankPaste(t: PasteTok) { t.Paste? && Blank(t.tok) }

  function DropBlanksBack(out: seq<PasteTok>): (r: seq<PasteTok>)
    ensures |r| <= |out| && (r != [] ==> !IsBlankPaste(r[|r| - 1]))
  {
    if out != [] && IsBlankPaste(out[|out| - 1]) then DropBlanksBack(out[..|out| - 1]) else out
  }

  function DropBlanksFront(input: seq<PasteTok>): (r: seq<PasteTok>)
    ensures |r| <= |input| && (r != [] ==> !IsBlankPaste(r[0]))
  {
    if input != [] && IsBlankPaste(input[0]) then DropBlanksFront(input[1..]) else input
  }

  /** What `left ## right` leaves. */
  function Glued(table: Table, left: PasteTok, operator: PasteTok, right: PasteTok): seq<PasteTok>
  {
    if left.Placemarker? then [right]
    else if right.Placemarker? then [left]
    else
      match table.glue(left.tok.token, right.tok.token)
      case None => [left, operator, right]
      case Some(token) => [Paste(Tok(token, left.tok.span, left.tok.hideset + right.tok.hideset))]
  }

  function PasteRun(table: Table, input: seq<PasteTok>, out: seq<PasteTok>): seq<PasteTok>
    decreases |input|
  {
    if input == [] then out
    else if !IsPaste(input[0]) then PasteRun(table, input[1..], out + [input[0]])
    else
      var kept := DropBlanksBack(out);
      if kept == [] then PasteRun(table, input[1..], [input[0]])
      else
        var ahead := DropBlanksFront(input[1..]);
        if ahead == [] then kept + [input[0]]
        else PasteRun(table, ahead[1..], kept[..|kept| - 1] + Glued(table, kept[|kept| - 1], input[0], ahead[0]))
  }

  function Tokens(ps: seq<PasteTok>): seq<Tok>
  {
    if ps == [] then [] else (if ps[0].Paste? then [ps[0].tok] else []) + Tokens(ps[1..])
  }

  function PasteAll(table: Table, input: seq<PasteTok>): seq<Tok>
  {
    Tokens(PasteRun(table, input, []))
  }

  function Wrap(toks: seq<Tok>): (r: seq<PasteTok>)
    ensures |r| == |toks| && forall i | 0 <= i < |r| :: r[i] == Paste(toks[i])
  {
    seq(|toks|, i requires 0 <= i < |toks| => Paste(toks[i]))
  }

  // ----- Substitution.

  predicate AdjacentBefore(body: seq<Token>, index: nat)
    requires index <= |body|
  {
    index > 0 && (if body[index - 1].Space? then AdjacentBefore(body, index - 1) else body[index - 1].HashHash?)
  }

  predicate AdjacentAfter(body: seq<Token>, index: nat)
    requires index <= |body|
    decreases |body| - index
  {
    index < |body| && (if body[index].Space? then AdjacentAfter(body, index + 1) else body[index].HashHash?)
  }

  /** Whether the nearest non-blank neighbour of `body[index]` on either side is `##`. */
  predicate AdjacentToPaste(body: seq<Token>, index: nat)
    requires index < |body|
  {
    AdjacentBefore(body, index) || AdjacentAfter(body, index + 1)
  }

  function Position(parameters: seq<string>, name: string): (r: Option<nat>)
    ensures r.Some? ==> r.value < |parameters| && parameters[r.value] == name && name !in parameters[..r.value]
    ensures r.None? ==> name !in parameters
  {
    if parameters == [] then None
    else if parameters[0] == name then Some(0)
    else
      match Position(parameters[1..], name)
      case None => None
      case Some(i) =>
        assert parameters[..i + 1] == [parameters[0]] + parameters[1..][..i];
        Some(i + 1)
  }

  function ParameterAt(body: seq<Token>, parameters: seq<string>, index: nat): (r: Option<nat>)
    requires index < |body|
    ensures r.Some? ==> r.value < |parameters|
  {
    if body[index].Word? then Position(parameters, body[index].name) else None
  }

  /** The hideset of an expanded name and the name itself, added to every replacement token. */
  function Paint(toks: seq<Tok>, hideset: set<string>): (r: seq<Tok>)
    ensures |r| == |toks|
    ensures forall i | 0 <= i < |toks| :: r[i] == toks[i].(hideset := toks[i].hideset + hideset)
  {
    seq(|toks|, i requires 0 <= i < |toks| => toks[i].(hideset := toks[i].hideset + hideset))
  }

  function Body(body: seq<Token>, span: nat, hideset: set<string>): (r: seq<Tok>)
    ensures |r| == |body| && forall i | 0 <= i < |r| :: r[i] == Tok(body[i], span, hideset)
  {
    seq(|body|, i requires 0 <= i < |body| => Tok(body[i], span, hideset))
  }

  /** What one replacement token contributes, its parameter's argument already trimmed. */
  function SubstituteOne(table: Table, body: seq<Token>, parameters: seq<string>, arguments: seq<seq<Tok>>, span: nat,
                         index: nat, ghost bound: ORDINAL): seq<PasteTok>
    requires index < |body| && |arguments| == |parameters|
    requires forall a | a in arguments :: Height(table, a) < bound
    decreases bound, 0, 0
  {
    match ParameterAt(body, parameters, index)
    case None => [Paste(Tok(body[index], span, {}))]
    case Some(p) =>
      if !AdjacentToPaste(body, index) then Wrap(Expand(table, arguments[p]))
      else if arguments[p] == [] then [Placemarker]
      else Wrap(arguments[p])
  }

  function SubstituteFrom(table: Table, body: seq<Token>, parameters: seq<string>, arguments: seq<seq<Tok>>, span: nat,
                          count: nat, ghost bound: ORDINAL): seq<PasteTok>
    requires count <= |body| && |arguments| == |parameters|
    requires forall a | a in arguments :: Height(table, a) < bound
    decreases bound, 1, count
  {
    if count == 0 then []
    else
      SubstituteFrom(table, body, parameters, arguments, span, count - 1, bound)
      + SubstituteOne(table, body, parameters, arguments, span, count - 1, bound)
  }

  function TrimAll(arguments: seq<seq<Tok>>): (r: seq<seq<Tok>>)
    ensures |r| == |arguments|
    ensures forall i | 0 <= i < |r| :: r[i] == Trim(arguments[i])
  {
    seq(|arguments|, i requires 0 <= i < |arguments| => Trim(arguments[i]))
  }

  // ----- Expansion of a whole queue.

  /** The tokens draining `q` yields, every macro expanded. */
  function Expand(table: Table, q: seq<Tok>): seq<Tok>
    decreases Height(table, q), 2, 0
  {
    if q == [] then []
    else
      var t, rest := q[0], q[1..];
      assert q == [t] + [] + rest + [];
      PartDescends(table, t, [], rest, []);
      if !Expandable(table, t) then [t] + Expand(table, rest)
      else
        var hideset := t.hideset + {t.token.name};
        match table.macros[t.token.name]
        case Object(body) =>
          var news := Paint(Body(body, t.span, t.hideset), hideset);
          PaintedRanksBelow(table, t, Body(body, t.span, t.hideset));
          assert [t] + [] + rest == q;
          ReplaceDescends(table, t, [], news, rest);
          Expand(table, news + rest)
        case Function(parameters, body) =>
          match Invocation(rest, parameters)
          case None => [t] + Expand(table, rest)
          case Some((arguments, used)) =>
            var trimmed := TrimAll(arguments);
            ArgumentsDescend(table, t, rest, parameters);
            assert [t] + rest == q;
            var replaced := PasteAll(table, SubstituteFrom(table, body, parameters, trimmed, t.span, |body|, Height(table, q)));
            var news := Paint(replaced, hideset);
            PaintedRanksBelow(table, t, replaced);
            assert [t] + rest[..used] + rest[used..] == q;
            ReplaceDescends(table, t, rest[..used], news, rest[used..]);
            Expand(table, news + rest[used..])
  }

  /** Hiding the expanded name ranks every replacement token below it. */
  lemma {:induction false} PaintedRanksBelow(table: Table, t: Tok, toks: seq<Tok>)
    requires Expandable(table, t)
    ensures forall u | u in Paint(toks, t.hideset + {t.token.name}) :: Rank(table, u) < Rank(table, t)
  {
    forall u | u in Paint(toks, t.hideset + {t.token.name})
      ensures Rank(table, u) < Rank(table, t)
    {
      var keys := table.macros.Keys;
      assert t.token.name in keys - t.hideset && t.token.name !in keys - u.hideset;
      LemmaSubsetSize(keys - u.hideset, keys - t.hideset);
    }
  }

  /** Every trimmed argument is a run of the tokens collected, so below the whole queue. */
  lemma {:induction false} ArgumentsDescend(table: Table, t: Tok, rest: seq<Tok>, parameters: seq<string>)
    requires Invocation(rest, parameters).Some?
    ensures forall a | a in TrimAll(Invocation(rest, parameters).value.0) :: Height(table, a) < Height(table, [t] + rest)
  {
    var arguments := Invocation(rest, parameters).value.0;
    forall i | 0 <= i < |arguments|
      ensures Height(table, Trim(arguments[i])) < Height(table, [t] + rest)
    {
      ArgumentDescends(table, t, rest, parameters, i);
    }
  }

  lemma {:induction false} ArgumentDescends(table: Table, t: Tok, rest: seq<Tok>, parameters: seq<string>, i: nat)
    requires Invocation(rest, parameters).Some? && i < |Invocation(rest, parameters).value.0|
    ensures Height(table, Trim(Invocation(rest, parameters).value.0[i])) < Height(table, [t] + rest)
  {
    var argument := Invocation(rest, parameters).value.0[i];
    var start := SkipBlanks(rest);
    var tail := rest[start + 1..];
    CollectedRuns(tail, tail, 0, 0, [], [], 0);
    assert RunOf(argument, tail) by {
      assert argument in Collect(tail, 0, [], []).value.0;
    }
    RunOfRun(Trim(argument), argument, tail);
    RunDescends(table, t, rest[..start + 1], tail, Trim(argument));
    assert rest == rest[..start + 1] + tail;
  }

  lemma {:induction false} RunOfRun(a: seq<Tok>, b: seq<Tok>, c: seq<Tok>)
    requires RunOf(a, b) && RunOf(b, c)
    ensures RunOf(a, c)
  {
    var lo, hi :| 0 <= lo <= hi <= |c| && b == c[lo..hi];
    var i, j :| 0 <= i <= j <= |b| && a == b[i..j];
    Seqs.SliceOfSlice(c, lo, hi, i, j);
  }

  lemma {:induction false} RunDescends(table: Table, t: Tok, before: seq<Tok>, tail: seq<Tok>, a: seq<Tok>)
    requires RunOf(a, tail)
    ensures Height(table, a) < Height(table, [t] + (before + tail))
  {
    var lo, hi :| 0 <= lo <= hi <= |tail| && a == tail[lo..hi];
    assert [t] + (before + tail) == [t] + (before + tail[..lo]) + a + tail[hi..];
    PartDescends(table, t, before + tail[..lo], a, tail[hi..]);
  }

  lemma {:induction false} CollectedRuns(tail: seq<Tok>, q: seq<Tok>, at: nat, depth: nat,
                                         done: seq<seq<Tok>>, open: seq<Tok>, from: nat)
    requires at <= |tail| && q == tail[at..] && from <= at && open == tail[from..at]
    requires forall a | a in done :: RunOf(a, tail)
    ensures Collect(q, depth, done, open).Some? ==> forall a | a in Collect(q, depth, done, open).value.0 :: RunOf(a, tail)
    decreases |q|
  {
    if q != [] {
      var t := q[0];
      assert tail[from..at + 1] == open + [t];
      assert RunOf(open, tail);
      if t.token.RParen? && depth == 0 {
      } else if t.token.Comma? && depth == 0 {
        CollectedRuns(tail, q[1..], at + 1, depth, done + [open], [], at + 1);
      } else {
        var deep := if t.token.LParen? then depth + 1 else if t.token.RParen? then depth - 1 else depth;
        CollectedRuns(tail, q[1..], at + 1, deep, done, open + [t], from);
      }
    }
  }

  // ----- One step of the expander.

  lemma {:induction false} RestDescends(table: Table, q: seq<Tok>)
    requires q != []
    ensures Height(table, q[1..]) < Height(table, q)
  {
    assert q == [q[0]] + [] + q[1..] + [];
    PartDescends(table, q[0], [], q[1..], []);
  }

  /** An object-like name is replaced by its painted body. */
  lemma {:induction false} ObjectStep(table: Table, q: seq<Tok>)
    requires q != [] && Expandable(table, q[0]) && table.macros[q[0].token.name].Object?
    ensures var t := q[0];
            var news := Paint(Body(table.macros[t.token.name].body, t.span, t.hideset), t.hideset + {t.token.name});
            && Expand(table, q) == Expand(table, news + q[1..])
            && Lower(table, news + q[1..], q) && Height(table, news + q[1..]) < Height(table, q)
  {
    var t := q[0];
    var body := Body(table.macros[t.token.name].body, t.span, t.hideset);
    PaintedRanksBelow(table, t, body);
    assert q == [t] + [] + q[1..];
    ReplaceDescends(table, t, [], Paint(body, t.hideset + {t.token.name}), q[1..]);
  }

  /** An invocation is replaced by its painted, pasted body with the arguments substituted. */
  lemma {:induction false} FunctionStep(table: Table, q: seq<Tok>)
    requires q != [] && Expandable(table, q[0]) && table.macros[q[0].token.name].Function?
    requires Invocation(q[1..], table.macros[q[0].token.name].parameters).Some?
    ensures var t, d := q[0], table.macros[q[0].token.name];
            var (arguments, used) := Invocation(q[1..], d.parameters).value;
            && (forall a | a in TrimAll(arguments) :: Height(table, a) < Height(table, q))
            && var replaced := PasteAll(table, SubstituteFrom(table, d.body, d.parameters, TrimAll(arguments), t.span, |d.body|, Height(table, q)));
            var news := Paint(replaced, t.hideset + {t.token.name});
            && Expand(table, q) == Expand(table, news + q[1..][used..])
            && Lower(table, news + q[1..][used..], q) && Height(table, news + q[1..][used..]) < Height(table, q)
  {
    var t, rest := q[0], q[1..];
    var d := table.macros[t.token.name];
    var (arguments, used) := Invocation(rest, d.parameters).value;
    ArgumentsDescend(table, t, rest, d.parameters);
    assert [t] + rest == q;
    var replaced := PasteAll(table, SubstituteFrom(table, d.body, d.parameters, TrimAll(arguments), t.span, |d.body|, Height(table, q)));
    PaintedRanksBelow(table, t, replaced);
    assert [t] + rest[..used] + rest[used..] == q;
    ReplaceDescends(table, t, rest[..used], Paint(replaced, t.hideset + {t.token.name}), rest[used..]);
  }
}
