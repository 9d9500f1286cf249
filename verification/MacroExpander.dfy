/**
  The macro expander: a queue of tokens drained one expanded token at a time,
  argument collection that gives back what it took when it fails, parameter
  substitution and token pasting. Every method is proved against the
  value-level meaning in `MacroModel`, and all of them terminate.
 */
module MacroExpander {
  import opened Options
  import opened MacroModel

  class QueuedExpansion {
    var input: seq<Tok>
    const table: Table

    constructor (tokens: seq<Tok>, table: Table)
      ensures input == tokens && this.table == table
    {
      this.input := tokens;
      this.table := table;
    }

    method Take() returns (r: Option<Tok>)
      modifies this
      ensures old(input) == [] ==> r.None? && input == []
      ensures old(input) != [] ==> r == Some(old(input)[0]) && input == old(input)[1..]
    {
      if input == [] {
        r := None;
      } else {
        r := Some(input[0]);
        input := input[1..];
      }
    }

    method Prepend(tokens: seq<Tok>)
      modifies this
      ensures input == tokens + old(input)
    {
      var i := |tokens|;
      while i > 0
        invariant 0 <= i <= |tokens| && input == tokens[i..] + old(input)
      {
        i := i - 1;
        input := [tokens[i]] + input;
      }
    }

    /** Take the blanks at the head of the queue and the token after them. */
    method TakeOpening() returns (consumed: seq<Tok>, isOpen: bool)
      modifies this
      ensures old(input) == consumed + input
      ensures var start := SkipBlanks(old(input));
              if isOpen then start < |old(input)| && |consumed| == start + 1 && old(input)[start].token.LParen?
              else start == |old(input)| || !old(input)[start].token.LParen?
    {
      consumed := [];
      ghost var whole := input;
      while true
        invariant whole == consumed + input && SkipBlanks(whole) == |consumed| + SkipBlanks(input)
        decreases |input|
      {
        ghost var before := input;
        var taken := Take();
        if taken.None? {
          return consumed, false;
        }
        BlankTaken(whole, consumed, before);
        consumed := consumed + [taken.value];
        if !Blank(taken.value) {
          return consumed, taken.value.token.LParen?;
        }
      }
    }

    /** Taking one more token: past it when it is a blank. */
    lemma {:induction false} BlankTaken(whole: seq<Tok>, consumed: seq<Tok>, before: seq<Tok>)
      requires whole == consumed + before && before != []
      requires SkipBlanks(whole) == |consumed| + SkipBlanks(before)
      ensures whole == consumed + [before[0]] + before[1..] && whole[|consumed|] == before[0]
      ensures SkipBlanks(whole) == |consumed| + if Blank(before[0]) then 1 + SkipBlanks(before[1..]) else 0
    {
      assert before == [before[0]] + before[1..];
    }

    /** Take an argument list up to its closing parenthesis, splitting it at its own commas. */
    method TakeArguments() returns (consumed: seq<Tok>, found: Option<seq<seq<Tok>>>)
      modifies this
      ensures old(input) == consumed + input
      ensures Collect(old(input), 0, [], []) == if found.Some? then Some((found.value, |consumed|)) else None
    {
      consumed := [];
      var arguments: seq<seq<Tok>> := [];
      var argument: seq<Tok> := [];
      var depth: nat := 0;
      ghost var whole := input;
      while true
        invariant whole == consumed + input
        invariant Collect(whole, 0, [], []) == ShiftBy(Collect(input, depth, arguments, argument), |consumed|)
        decreases |input|
      {
        var taken := Take();
        if taken.None? {
          return consumed, None;
        }
        var token := taken.value;
        consumed := consumed + [token];
        if token.token.RParen? && depth == 0 {
          return consumed, Some(arguments + [argument]);
        } else if token.token.Comma? && depth == 0 {
          arguments, argument := arguments + [argument], [];
        } else {
          depth := if token.token.LParen? then depth + 1 else if token.token.RParen? then depth - 1 else depth;
          argument := argument + [token];
        }
      }
    }

    /** A failed collection leaves the queue exactly as it was. */
    method TakeInvocation(parameters: seq<string>) returns (r: Option<seq<seq<Tok>>>)
      modifies this
      ensures r.None? ==> Invocation(old(input), parameters).None? && input == old(input)
      ensures r.Some? ==>
                var found := Invocation(old(input), parameters);
                found.Some? && r.value == found.value.0 && input == old(input)[found.value.1..]
    {
      var opening, isOpen := TakeOpening();
      if !isOpen {
        Prepend(opening);
        return None;
      }
      assert input == old(input)[|opening|..];
      var list, found := TakeArguments();
      var consumed := opening + list;
      assert old(input) == consumed + input;
      if found.None? {
        Prepend(consumed);
        return None;
      }
      var arguments := Arguments(parameters, found.value);
      if |arguments| != |parameters| {
        Prepend(consumed);
        return None;
      }
      return Some(arguments);
    }

    /** One token of the expansion of the queue: what is left expands to the rest of it. */
    method NextExpanded() returns (r: Option<Tok>)
      modifies this
      ensures r.None? ==> Expand(table, old(input)) == [] && input == []
      ensures r.Some? ==> Expand(table, old(input)) == [r.value] + Expand(table, input)
      ensures r.Some? ==> Height(table, input) < Height(table, old(input))
      decreases Height(table, input), 4
    {
      ghost var all := Expand(table, input);
      ghost var top := Height(table, input);
      while true
        invariant Expand(table, input) == all && Height(table, input) <= top
        decreases Height(table, input)
      {
        ghost var q := input;
        var taken := Take();
        if taken.None? {
          return None;
        }
        var t := taken.value;
        RestDescends(table, q);
        if !Expandable(table, t) {
          return Some(t);
        }
        var replacement;
        match table.macros[t.token.name] {
          case Object(body) =>
            replacement := Body(body, t.span, t.hideset);
            ObjectStep(table, q);
          case Function(parameters, body) =>
            var arguments := TakeInvocation(parameters);
            if arguments.None? {
              return Some(t);
            }
            FunctionStep(table, q);
            replacement := SubstituteArguments(table, body, parameters, arguments.value, t.span, Height(table, q));
        }
        Prepend(Paint(replacement, t.hideset + {t.token.name}));
      }
    }
  }

  /** Drain a queue of `tokens`. */
  method ExpandTokens(tokens: seq<Tok>, table: Table) returns (output: seq<Tok>)
    ensures output == Expand(table, tokens)
    decreases Height(table, tokens), 5
  {
    var source := new QueuedExpansion(tokens, table);
    output := [];
    while true
      invariant Expand(table, tokens) == output + Expand(table, source.input)
      invariant Height(table, source.input) <= Height(table, tokens)
      invariant source.table == table
      decreases Height(table, source.input)
    {
      var t := source.NextExpanded();
      if t.None? {
        return;
      }
      output := output + [t.value];
    }
  }

  method SubstituteArguments(table: Table, body: seq<Token>, parameters: seq<string>, arguments: seq<seq<Tok>>,
                             span: nat, ghost bound: ORDINAL) returns (r: seq<Tok>)
    requires |arguments| == |parameters|
    requires forall a | a in TrimAll(arguments) :: Height(table, a) < bound
    ensures r == PasteAll(table, SubstituteFrom(table, body, parameters, TrimAll(arguments), span, |body|, bound))
    decreases bound, 3
  {
    var trimmed := TrimAll(arguments);
    var substituted: seq<PasteTok> := [];
    for index := 0 to |body|
      invariant substituted == SubstituteFrom(table, body, parameters, trimmed, span, index, bound)
    {
      var parameter := ParameterAt(body, parameters, index);
      if parameter.Some? {
        var argument := trimmed[parameter.value];
        assert argument in trimmed;
        if AdjacentToPaste(body, index) {
          substituted := substituted + if argument == [] then [Placemarker] else Wrap(argument);
        } else {
          var expanded := ExpandTokens(argument, table);
          substituted := substituted + Wrap(expanded);
        }
      } else {
        substituted := substituted + [Paste(Tok(body[index], span, {}))];
      }
    }
    r := PasteTokens(table, substituted);
  }

  method PasteTokens(table: Table, tokens: seq<PasteTok>) returns (r: seq<Tok>)
    ensures r == PasteAll(table, tokens)
  {
    var input, output: seq<PasteTok> := tokens, [];
    while input != []
      invariant PasteRun(table, input, output) == PasteRun(table, tokens, [])
      decreases |input|
    {
      var operator := input[0];
      ghost var before, held := input, output;
      input := input[1..];
      if !IsPaste(operator) {
        output := output + [operator];
        continue;
      }
      while output != [] && IsBlankPaste(output[|output| - 1])
        invariant DropBlanksBack(output) == DropBlanksBack(held)
        decreases |output|
      {
        output := output[..|output| - 1];
      }
      if output == [] {
        output := [operator];
        continue;
      }
      var left := output[|output| - 1];
      output := output[..|output| - 1];
      while input != [] && IsBlankPaste(input[0])
        invariant DropBlanksFront(input) == DropBlanksFront(before[1..]) && |input| < |before|
        decreases |input|
      {
        input := input[1..];
      }
      if input == [] {
        assert output + [left, operator] == DropBlanksBack(held) + [operator];
        output := output + [left, operator];
        break;
      }
      var right := input[0];
      input := input[1..];
      output := output + Glued(table, left, operator, right);
    }
    r := KeepTokens(output);
  }

  method KeepTokens(output: seq<PasteTok>) returns (r: seq<Tok>)
    ensures r == Tokens(output)
  {
    r := [];
    for i := 0 to |output|
      invariant Tokens(output) == r + Tokens(output[i..])
    {
      if output[i].Paste? {
        r := r + [output[i].tok];
      }
      assert output[i..][1..] == output[i + 1..];
    }
  }
}
