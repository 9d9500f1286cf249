/** The miter is well formed: ids are unique and every reference points back to a node. */
module StitchForm {
  import opened Options
  import opened Btor2
  import opened Stitch
  import opened StitchReads

  /** A checker's lines say what holds in one step: no state, and none of what goes with it. */
  predicate Stepwise(line: Line) { line.op != State && line.op != Init && line.op != Next && line.op != Constraint && line.op != Fair && line.op != Justice }

  ghost predicate HasId(lines: seq<Line>, id: nat) { exists j: nat :: j < |lines| && lines[j].id == id }

  ghost predicate HasNode(lines: seq<Line>, id: nat) { exists j: nat :: j < |lines| && IsNode(lines[j]) && lines[j].id == id }

  /** Every token that must name a node names one of the lines'. */
  ghost predicate RefsIn(line: Line, lines: seq<Line>)
  {
    forall i: nat | i < |line.args| && Refers(line, i) :: line.args[i].Num? && HasNode(lines, line.args[i].n)
  }

  /** The line can follow the others: a new positive id, and references to nodes before it. */
  ghost predicate Follows(lines: seq<Line>, line: Line) { line.id >= 1 && !HasId(lines, line.id) && RefsIn(line, lines) }

  ghost predicate WellFormed(lines: seq<Line>) { forall k: nat | k < |lines| :: Follows(lines[..k], lines[k]) }

  lemma {:induction false} Push(lines: seq<Line>, line: Line)
    ensures forall id: nat :: HasId(lines + [line], id) <==> HasId(lines, id) || id == line.id
    ensures forall id: nat :: HasNode(lines + [line], id) <==> HasNode(lines, id) || (IsNode(line) && id == line.id)
    ensures WellFormed(lines) && Follows(lines, line) ==> WellFormed(lines + [line])
  {
    var more := lines + [line];
    assert more[|lines|] == line;
    forall id: nat
      ensures HasId(more, id) <==> HasId(lines, id) || id == line.id
      ensures HasNode(more, id) <==> HasNode(lines, id) || (IsNode(line) && id == line.id)
    {
      if j: nat :| j < |lines| && lines[j].id == id {
        assert more[j] == lines[j];
      }
      if j: nat :| j < |lines| && IsNode(lines[j]) && lines[j].id == id {
        assert more[j] == lines[j];
      }
    }
    if WellFormed(lines) && Follows(lines, line) {
      PushFormed(lines, line);
    }
  }

  lemma {:induction false} PushFormed(lines: seq<Line>, line: Line)
    requires WellFormed(lines) && Follows(lines, line)
    ensures WellFormed(lines + [line])
  {
    var more := lines + [line];
    forall k: nat | k < |more|
      ensures Follows(more[..k], more[k])
    {
      assert more[..k] == lines[..k] && (k == |lines| ==> lines[..k] == lines);
    }
  }

  // ----- Facts about the two files.

  lemma {:induction false} DriverIsNode(lines: seq<Line>, s: string)
    requires WellFormed(lines) && s in Drivers(lines)
    ensures HasNode(lines, Drivers(lines)[s])
  {
    var n := |lines| - 1;
    var init := lines[..n];
    assert Follows(lines[..n], lines[n]);
    assert lines == init + [lines[n]];
    Push(init, lines[n]);
    if IsOutput(lines[n]) && lines[n].args[1].text == s {
      assert Refers(lines[n], 0);
    } else {
      PrefixFormed(lines, n);
      DriverIsNode(init, s);
    }
  }

  lemma {:induction false} PrefixFormed(lines: seq<Line>, n: nat)
    requires WellFormed(lines) && n <= |lines|
    ensures WellFormed(lines[..n])
  {
    forall k: nat | k < n
      ensures Follows(lines[..n][..k], lines[..n][k])
    {
      assert lines[..n][..k] == lines[..k];
    }
  }

  lemma {:induction false} ResetIsNode(lines: seq<Line>)
    requires ResetNode(lines).Some?
    ensures HasNode(lines, ResetNode(lines).value)
  {
    var n := |lines| - 1;
    assert lines == lines[..n] + [lines[n]];
    Push(lines[..n], lines[n]);
    if !(IsInput(lines[n]) && lines[n].args[1].text == "reset") {
      ResetIsNode(lines[..n]);
    }
  }

  /** Names are those of input lines, and of no other line when ids are unique. */
  lemma {:induction false} NameOfLine(lines: seq<Line>, id: nat)
    requires WellFormed(lines) && id in InputNames(lines)
    ensures exists k: nat :: k < |lines| && lines[k].id == id && IsInput(lines[k]) && InputNames(lines)[id] == lines[k].args[1].text
  {
    var n := |lines| - 1;
    if !(IsInput(lines[n]) && lines[n].id == id) {
      PrefixFormed(lines, n);
      NameOfLine(lines[..n], id);
      var k: nat :| k < n && lines[..n][k].id == id && IsInput(lines[..n][k]) && InputNames(lines[..n])[id] == lines[..n][k].args[1].text;
      assert lines[k] == lines[..n][k];
    }
  }

  lemma {:induction false} IdsDiffer(lines: seq<Line>, i: nat, j: nat)
    requires WellFormed(lines) && i < j < |lines|
    ensures lines[i].id != lines[j].id
  {
  }

  // ----- The setting of a link.

  /** Two well-formed files, the checker's lines understood and its input names unique, linked. */
  ghost predicate Setting(implementation: seq<Line>, checker: seq<Line>, link: Link)
  {
    && WellFormed(implementation) && WellFormed(checker) && AllReadable(link, checker)
    && link.offset == MaxId(implementation) && (forall k: nat | k < |checker| :: Acceptable(checker[k])) && UniqueInputs(checker)
    && IsWiring(InputNames(checker), Drivers(implementation), link.signals, link.wired)
  }

  ghost predicate UniqueInputs(checker: seq<Line>)
  {
    forall i: nat, j: nat | i < j < |checker| && IsInput(checker[i]) && IsInput(checker[j]) :: checker[i].args[1].text != checker[j].args[1].text
  }

  /** A checker's line: about one step, and read by the linker as the format has it. */
  predicate Acceptable(line: Line) { Stepwise(line) && Understood(line) }

  /** The wired ids are those of the dropped lines. */
  lemma {:induction false} WiredIsDropped(implementation: seq<Line>, checker: seq<Line>, link: Link, k: nat)
    requires Setting(implementation, checker, link) && k < |checker|
    ensures checker[k].id in link.wired <==> Dropped(link, checker[k])
  {
    var inputs := InputNames(checker);
    if checker[k].id in link.wired {
      var j := LineNamed(checker, checker[k].id);
      assert j == k by {
        if j < k {
          IdsDiffer(checker, j, k);
        } else if k < j {
          IdsDiffer(checker, k, j);
        }
      }
    } else if Dropped(link, checker[k]) {
      var id :| id in link.wired && inputs[id] == checker[k].args[1].text;
      var j := LineNamed(checker, id);
    }
  }

  lemma {:induction false} LineNamed(lines: seq<Line>, id: nat) returns (k: nat)
    requires WellFormed(lines) && id in InputNames(lines)
    ensures k < |lines| && lines[k].id == id && IsInput(lines[k]) && InputNames(lines)[id] == lines[k].args[1].text
  {
    NameOfLine(lines, id);
    k :| k < |lines| && lines[k].id == id && IsInput(lines[k]) && InputNames(lines)[id] == lines[k].args[1].text;
  }

  // ----- The linked checker.

  /** What the link needs of one checker line after `pre`. */
  ghost predicate LineLinks(implementation: seq<Line>, link: Link, pre: seq<Line>, line: Line)
  {
    && Follows(pre, line) && Acceptable(line) && (line.id in link.wired <==> Dropped(link, line))
    && (line.id in link.wired ==> HasNode(implementation, link.wired[line.id]))
    && (line.op == BadWhen ==> |line.args| >= 1)
  }

  ghost predicate Links(implementation: seq<Line>, link: Link, lines: seq<Line>)
  {
    forall k: nat | k < |lines| :: LineLinks(implementation, link, lines[..k], lines[k])
  }

  lemma {:induction false} SettingLinks(implementation: seq<Line>, checker: seq<Line>, link: Link)
    requires Setting(implementation, checker, link)
    ensures Links(implementation, link, checker)
  {
    forall k: nat | k < |checker|
      ensures LineLinks(implementation, link, checker[..k], checker[k])
    {
      WiredIsDropped(implementation, checker, link, k);
      if checker[k].id in link.wired {
        DriverIsNode(implementation, InputNames(checker)[checker[k].id]);
      }
    }
  }

  lemma {:induction false} LinksPrefix(implementation: seq<Line>, link: Link, lines: seq<Line>, n: nat)
    requires Links(implementation, link, lines) && n <= |lines| && AllReadable(link, lines)
    ensures Links(implementation, link, lines[..n]) && AllReadable(link, lines[..n])
  {
    forall k: nat | k < n
      ensures LineLinks(implementation, link, lines[..n][..k], lines[..n][k])
    {
      assert lines[..n][..k] == lines[..k];
    }
  }

  /** The miter so far is well formed, its new ids are shifted ones, and every checker node has its place in it. */
  ghost predicate KeptRight(link: Link, pre: seq<Line>, miter: seq<Line>)
  {
    && WellFormed(miter)
    && (forall id: nat | HasId(miter, id) :: id <= link.offset || (id > link.offset && HasId(pre, id - link.offset)))
    && (forall c: nat | HasNode(pre, c) :: HasNode(miter, Remap(link, c)))
  }

  /** The miter so far: the implementation and the checker's lines, rewritten. */
  ghost function Miter(implementation: seq<Line>, link: Link, lines: seq<Line>): seq<Line>
    requires AllReadable(link, lines)
  {
    implementation + KeptLines(link, lines)
  }

  lemma {:induction false} MiterPush(implementation: seq<Line>, link: Link, lines: seq<Line>)
    requires AllReadable(link, lines) && lines != []
    ensures var pre, line := lines[..|lines| - 1], lines[|lines| - 1];
            && AllReadable(link, pre) && lines == pre + [line]
            && (Kept(link, line) ==> Miter(implementation, link, lines) == Miter(implementation, link, pre) + [RemapLine(link, line)])
            && (!Kept(link, line) ==> Miter(implementation, link, lines) == Miter(implementation, link, pre))
  {
  }

  lemma {:induction false} KeptFormed(implementation: seq<Line>, link: Link, lines: seq<Line>)
    requires WellFormed(implementation) && Links(implementation, link, lines) && AllReadable(link, lines) && link.offset == MaxId(implementation)
    ensures KeptRight(link, lines, Miter(implementation, link, lines))
    ensures Keeps(implementation, Miter(implementation, link, lines))
  {
    if lines == [] {
      assert Miter(implementation, link, lines) == implementation;
    } else {
      var n := |lines| - 1;
      var pre, line := lines[..n], lines[n];
      LinksPrefix(implementation, link, lines, n);
      KeptFormed(implementation, link, pre);
      MiterPush(implementation, link, lines);
      assert LineLinks(implementation, link, lines[..n], lines[n]);
      KeptStep(implementation, link, pre, Miter(implementation, link, pre), line);
      if Kept(link, line) {
        Push(Miter(implementation, link, pre), RemapLine(link, line));
      }
    }
  }

  lemma {:induction false} KeptBelow(implementation: seq<Line>, link: Link, lines: seq<Line>)
    requires AllReadable(link, lines) && link.offset == MaxId(implementation)
    ensures Below(Miter(implementation, link, lines), LastId(link, lines))
  {
    if lines == [] {
      assert Miter(implementation, link, lines) == implementation;
    } else {
      var n := |lines| - 1;
      MiterPush(implementation, link, lines);
      KeptBelow(implementation, link, lines[..n]);
      if Kept(link, lines[n]) {
        Push(Miter(implementation, link, lines[..n]), RemapLine(link, lines[n]));
      }
    }
  }

  lemma {:induction false} BadsKept(implementation: seq<Line>, link: Link, lines: seq<Line>)
    requires WellFormed(implementation) && Links(implementation, link, lines) && AllReadable(link, lines) && link.offset == MaxId(implementation)
    ensures BadsIn(BadsOf(link, lines), Miter(implementation, link, lines))
  {
    if lines != [] {
      var n := |lines| - 1;
      var pre, line := lines[..n], lines[n];
      LinksPrefix(implementation, link, lines, n);
      BadsKept(implementation, link, pre);
      KeptFormed(implementation, link, pre);
      MiterPush(implementation, link, lines);
      if Kept(link, line) {
        Push(Miter(implementation, link, pre), RemapLine(link, line));
      }
      assert LineLinks(implementation, link, lines[..n], lines[n]);
      if IsBad(link, line) {
        assert Refers(line, 0) && HasNode(pre, line.args[0].n);
      }
    }
  }

  lemma {:induction false} KeptStep(implementation: seq<Line>, link: Link, pre: seq<Line>, miter: seq<Line>, line: Line)
    requires KeptRight(link, pre, miter) && LineLinks(implementation, link, pre, line)
    requires (forall id: nat | HasNode(implementation, id) :: HasNode(miter, id)) && (Kept(link, line) ==> Readable(line))
    ensures !Kept(link, line) ==> KeptRight(link, pre + [line], miter)
    ensures Kept(link, line) ==> KeptRight(link, pre + [line], miter + [RemapLine(link, line)])
  {
    Push(pre, line);
    if Kept(link, line) {
      var moved := RemapLine(link, line);
      assert moved.id == line.id + link.offset;
      assert RefsIn(moved, miter);
      Push(miter, moved);
      assert IsNode(moved) <==> IsNode(line);
    }
  }

  // ----- The properties.

  ghost predicate BadsIn(bads: seq<Bad>, lines: seq<Line>) { forall i: nat | i < |bads| :: HasNode(lines, bads[i].node) && |bads[i].name| <= 1 }

  ghost predicate Below(lines: seq<Line>, last: nat) { forall id: nat | HasId(lines, id) :: id <= last }

  ghost predicate Keeps(lines: seq<Line>, more: seq<Line>) { forall id: nat | HasNode(lines, id) :: HasNode(more, id) }

  /** One more line, numbered on. */
  lemma {:induction false} PushNext(lines: seq<Line>, line: Line, last: nat)
    requires WellFormed(lines) && Below(lines, last) && line.id == last + 1 && RefsIn(line, lines)
    ensures WellFormed(lines + [line]) && Below(lines + [line], last + 1) && Keeps(lines, lines + [line])
    ensures IsNode(line) ==> HasNode(lines + [line], last + 1)
  {
    Push(lines, line);
  }

  lemma {:induction false} PlainFormed(lines: seq<Line>, last: nat, bads: seq<Bad>)
    requires WellFormed(lines) && Below(lines, last) && BadsIn(bads, lines)
    ensures WellFormed(lines + Plain(last, bads)) && Below(lines + Plain(last, bads), last + |bads|) && Keeps(lines, lines + Plain(last, bads))
  {
    if bads == [] {
      assert lines + Plain(last, bads) == lines;
    } else {
      var n := |bads| - 1;
      BadsKeep(lines, lines, bads[..n]);
      PlainFormed(lines, last, bads[..n]);
      var before := lines + Plain(last, bads[..n]);
      var line := Line(last + 1 + n, BadWhen, [Num(bads[n].node)] + bads[n].name);
      assert lines + Plain(last, bads) == before + [line];
      BadRefs(before, line, bads[n]);
      PushNext(before, line, last + n);
    }
  }

  lemma {:induction false} BadRefs(lines: seq<Line>, line: Line, bad: Bad)
    requires line.op == BadWhen && line.args == [Num(bad.node)] + bad.name && HasNode(lines, bad.node)
    ensures RefsIn(line, lines)
  {
  }

  lemma {:induction false} GatedFormed(lines: seq<Line>, last: nat, bads: seq<Bad>)
    requires WellFormed(lines) && Below(lines, last + 9) && BadsIn(bads, lines) && HasNode(lines, last + 1) && HasNode(lines, last + 4)
    ensures WellFormed(lines + Gated(last, bads)) && Below(lines + Gated(last, bads), last + 9 + 2 * |bads|) && Keeps(lines, lines + Gated(last, bads))
  {
    if bads == [] {
      assert lines + Gated(last, bads) == lines;
    } else {
      var n := |bads| - 1;
      GatedFormed(lines, last, bads[..n]);
      var before, id := lines + Gated(last, bads[..n]), last + 10 + 2 * n;
      var gate := Line(id, And, [Num(last + 1), Num(bads[n].node), Num(last + 4)]);
      var bad := Line(id + 1, BadWhen, [Num(id)] + bads[n].name);
      assert lines + Gated(last, bads) == before + [gate] + [bad];
      GateRefs(before, gate, last, bads[n].node);
      GatePush(before, gate, bad, id - 1);
    }
  }

  lemma {:induction false} GateRefs(lines: seq<Line>, gate: Line, last: nat, node: nat)
    requires gate.args == [Num(last + 1), Num(node), Num(last + 4)] && HasNode(lines, last + 1) && HasNode(lines, node) && HasNode(lines, last + 4)
    ensures RefsIn(gate, lines)
  {
  }

  lemma {:induction false} GatePush(lines: seq<Line>, gate: Line, bad: Line, last: nat)
    requires WellFormed(lines) && Below(lines, last) && gate.id == last + 1 && gate.op == And && RefsIn(gate, lines)
    requires bad.id == last + 2 && bad.op == BadWhen && 1 <= |bad.args| && bad.args[0] == Num(gate.id)
    ensures WellFormed(lines + [gate] + [bad]) && Below(lines + [gate] + [bad], last + 2) && Keeps(lines, lines + [gate] + [bad])
  {
    PushNext(lines, gate, last);
    PushNext(lines + [gate], bad, last + 1);
  }

  lemma {:induction false} OneRef(lines: seq<Line>, line: Line)
    requires |line.args| >= 1 && line.args[0].Num? && HasNode(lines, line.args[0].n)
    requires |line.args| == 1
    ensures RefsIn(line, lines)
  {
  }

  lemma {:induction false} Refs(lines: seq<Line>, line: Line)
    requires |line.args| >= 1 && forall i: nat | i < |line.args| :: line.args[i].Num? && HasNode(lines, line.args[i].n)
    ensures RefsIn(line, lines)
  {
  }

  /** The sort, the constants and the state. */
  lemma {:induction false} StartFormed(lines: seq<Line>, last: nat)
    requires WellFormed(lines) && Below(lines, last)
    ensures var more := lines + StartNodes(last);
            && WellFormed(more) && Below(more, last + 4) && Keeps(lines, more)
            && HasNode(more, last + 1) && HasNode(more, last + 2) && HasNode(more, last + 3) && HasNode(more, last + 4)
  {
    var block := StartNodes(last);
    var b := lines + [block[0]] + [block[1]];
    SortFormed(lines, block[0], block[1], last);
    StateFormed(b, block[2], block[3], last + 1, last + 2);
    assert lines + block == b + [block[2]] + [block[3]];
  }

  /** A sort and a constant of it. */
  lemma {:induction false} SortFormed(lines: seq<Line>, sort: Line, one: Line, last: nat)
    requires WellFormed(lines) && Below(lines, last) && sort == Line(last + 1, Sort, [Word("bitvec"), Num(1)]) && one == Line(last + 2, One, [Num(last + 1)])
    ensures var more := lines + [sort] + [one];
            WellFormed(more) && Below(more, last + 2) && Keeps(lines, more) && HasNode(more, last + 1) && HasNode(more, last + 2)
  {
    PushNext(lines, sort, last);
    OneRef(lines + [sort], one);
    PushNext(lines + [sort], one, last + 1);
  }

  /** Another constant of the sort, and a state. */
  lemma {:induction false} StateFormed(lines: seq<Line>, zero: Line, state: Line, sort: nat, last: nat)
    requires WellFormed(lines) && Below(lines, last) && HasNode(lines, sort) && zero == Line(last + 1, Zero, [Num(sort)])
    requires state.id == last + 2 && state.op == State && |state.args| == 2 && state.args[0] == Num(sort)
    ensures var more := lines + [zero] + [state];
            WellFormed(more) && Below(more, last + 2) && Keeps(lines, more) && HasNode(more, last + 1) && HasNode(more, last + 2)
  {
    OneRef(lines, zero);
    PushNext(lines, zero, last);
    StateRefs(lines + [zero], state);
    PushNext(lines + [zero], state, last + 1);
  }

  lemma {:induction false} StateRefs(lines: seq<Line>, line: Line)
    requires line.op == State && |line.args| == 2 && line.args[0].Num? && HasNode(lines, line.args[0].n)
    ensures RefsIn(line, lines)
  {
  }

  /** The state's two ends. */
  lemma {:induction false} EndsFormed(lines: seq<Line>, init: Line, next: Line, last: nat)
    requires WellFormed(lines) && Below(lines, last) && init.op == Init && next.op == Next && init.id == last + 1 && next.id == last + 2
    requires |init.args| == 3 && forall i: nat | i < 3 :: init.args[i].Num? && HasNode(lines, init.args[i].n)
    requires |next.args| == 3 && forall i: nat | i < 3 :: next.args[i].Num? && HasNode(lines, next.args[i].n)
    ensures var more := lines + [init] + [next];
            WellFormed(more) && Below(more, last + 2) && Keeps(lines, more)
  {
    Refs(lines, init);
    PushNext(lines, init, last);
    Refs(lines + [init], next);
    PushNext(lines + [init], next, last + 1);
  }

  lemma {:induction false} NotFormed(lines: seq<Line>, not: Line, last: nat, reset: nat)
    requires WellFormed(lines) && Below(lines, last + 6) && HasNode(lines, reset) && HasNode(lines, last + 1) && HasNode(lines, last + 4)
    requires not == Line(last + 7, Not, [Num(last + 1), Num(last + 4)])
    ensures var mid := lines + [not];
            WellFormed(mid) && Below(mid, last + 7) && Keeps(lines, mid) && HasNode(mid, last + 1) && HasNode(mid, reset) && HasNode(mid, last + 7)
  {
    Refs(lines, not);
    PushNext(lines, not, last + 6);
  }

  /** The constraint on reset. */
  lemma {:induction false} LateFormed(lines: seq<Line>, last: nat, reset: nat, not: Line, test: Line, constraint: Line)
    requires WellFormed(lines) && Below(lines, last + 6) && HasNode(lines, reset) && HasNode(lines, last + 1) && HasNode(lines, last + 4)
    requires not == Line(last + 7, Not, [Num(last + 1), Num(last + 4)]) && test == Line(last + 8, Eq, [Num(last + 1), Num(reset), Num(last + 7)])
    requires constraint == Line(last + 9, Constraint, [Num(last + 8)])
    ensures var more := lines + [not] + [test] + [constraint];
            WellFormed(more) && Below(more, last + 9) && Keeps(lines, more)
  {
    var mid := lines + [not];
    NotFormed(lines, not, last, reset);
    EndFormed(mid, test, constraint, last + 7);
  }

  lemma {:induction false} RestFormed(lines: seq<Line>, last: nat, reset: nat)
    requires WellFormed(lines) && Below(lines, last + 4) && HasNode(lines, reset)
    requires HasNode(lines, last + 1) && HasNode(lines, last + 2) && HasNode(lines, last + 3) && HasNode(lines, last + 4)
    ensures var more := lines + TestNodes(last, reset);
            WellFormed(more) && Below(more, last + 9) && Keeps(lines, more)
  {
    var block := TestNodes(last, reset);
    EndsFormed(lines, block[0], block[1], last + 4);
    LateFormed(lines + [block[0]] + [block[1]], last, reset, block[2], block[3], block[4]);
    assert lines + block == lines + [block[0]] + [block[1]] + [block[2]] + [block[3]] + [block[4]];
  }

  lemma {:induction false} EndFormed(lines: seq<Line>, test: Line, constraint: Line, last: nat)
    requires WellFormed(lines) && Below(lines, last) && test.op == Eq && test.id == last + 1 && |test.args| == 3
    requires forall i: nat | i < 3 :: test.args[i].Num? && HasNode(lines, test.args[i].n)
    requires constraint.op == Constraint && constraint.id == last + 2 && constraint.args == [Num(last + 1)]
    ensures var more := lines + [test] + [constraint];
            WellFormed(more) && Below(more, last + 2) && Keeps(lines, more)
  {
    Refs(lines, test);
    PushNext(lines, test, last);
    OneRef(lines + [test], constraint);
    PushNext(lines + [test], constraint, last + 1);
  }

  lemma {:induction false} ResetFormed(lines: seq<Line>, last: nat, reset: nat)
    requires WellFormed(lines) && Below(lines, last) && HasNode(lines, reset)
    ensures var more := lines + ResetNodes(last, reset);
            WellFormed(more) && Below(more, last + 9) && Keeps(lines, more) && HasNode(more, last + 1) && HasNode(more, last + 4)
  {
    StartFormed(lines, last);
    RestFormed(lines + StartNodes(last), last, reset);
    Joined(lines, StartNodes(last), TestNodes(last, reset));
  }

  lemma {:induction false} BadsKeep(lines: seq<Line>, more: seq<Line>, bads: seq<Bad>)
    requires BadsIn(bads, lines) && Keeps(lines, more)
    ensures BadsIn(bads, more)
  {
  }

  lemma {:induction false} AfterReset(lines: seq<Line>, both: seq<Line>, last: nat, bads: seq<Bad>)
    requires WellFormed(both) && Below(both, last + 9) && Keeps(lines, both) && BadsIn(bads, lines)
    requires HasNode(both, last + 1) && HasNode(both, last + 4)
    ensures WellFormed(both + Gated(last, bads))
  {
    BadsKeep(lines, both, bads);
    GatedFormed(both, last, bads);
  }

  lemma {:induction false} Joined(a: seq<Line>, b: seq<Line>, c: seq<Line>)
    ensures a + b + c == a + (b + c)
  {
  }

  lemma {:induction false} PropertiesFormed(lines: seq<Line>, last: nat, bads: seq<Bad>, reset: Option<nat>)
    requires WellFormed(lines) && Below(lines, last) && BadsIn(bads, lines) && (reset.Some? ==> HasNode(lines, reset.value))
    ensures WellFormed(lines + Properties(last, bads, reset))
  {
    if reset.None? {
      PlainFormed(lines, last, bads);
    } else {
      ResetFormed(lines, last, reset.value);
      var first := ResetNodes(last, reset.value);
      AfterReset(lines, lines + first, last, bads);
      Joined(lines, first, Gated(last, bads));
    }
  }

  /** The miter has unique ids and only references back to nodes. */
  lemma {:induction false} MiterIsWellFormed(implementation: seq<Line>, checker: seq<Line>, link: Link)
    requires Setting(implementation, checker, link)
    ensures WellFormed(Miter(implementation, link, checker) + Properties(LastId(link, checker), BadsOf(link, checker), ResetNode(implementation)))
  {
    SettingLinks(implementation, checker, link);
    KeptFormed(implementation, link, checker);
    KeptBelow(implementation, link, checker);
    BadsKept(implementation, link, checker);
    if ResetNode(implementation).Some? {
      ResetIsNode(implementation);
    }
    PropertiesFormed(Miter(implementation, link, checker), LastId(link, checker), BadsOf(link, checker), ResetNode(implementation));
  }
}
