/**
  Linking a checker onto an implementation, both in BTOR2: the checker's ids
  are shifted past the implementation's, and its retirement inputs are replaced
  by the implementation's outputs of the same name.
 */
module Stitch {
  import opened Options
  import opened Btor2

  /** The tokens the linker takes to name nodes, by its own table: the sort, and then by operation. */
  predicate IsRef(op: Opcode, i: nat)
  {
    match op
    case Sort => false
    case Input | Constd | Const | One | Zero | Ones => i == 0
    case Output | BadWhen => i == 0
    case Not | Sext | Uext | Slice => i <= 1
    case Ite => i <= 3
    case _ => i <= 2
  }

  function HasSort(op: Opcode): bool { op != Sort && op != Output && op != BadWhen }

  // ----- Reading the two files.

  function MaxId(lines: seq<Line>): (m: nat)
    ensures forall i: nat | i < |lines| :: lines[i].id <= m
  {
    if lines == [] then 0
    else
      var before := MaxId(lines[..|lines| - 1]);
      if lines[|lines| - 1].id > before then lines[|lines| - 1].id else before
  }

  predicate IsOutput(line: Line) { line.op == Output && |line.args| >= 2 && line.args[0].Num? && line.args[1].Word? }

  predicate IsInput(line: Line) { line.op == Input && |line.args| >= 2 && line.args[1].Word? }

  /** The node driving each named output; the last one of a name counts. */
  function Drivers(lines: seq<Line>): map<string, nat>
  {
    if lines == [] then map[]
    else
      var before, line := Drivers(lines[..|lines| - 1]), lines[|lines| - 1];
      if IsOutput(line) then before[line.args[1].text := line.args[0].n] else before
  }

  function ResetNode(lines: seq<Line>): Option<nat>
  {
    if lines == [] then None
    else
      var line := lines[|lines| - 1];
      if IsInput(line) && line.args[1].text == "reset" then Some(line.id) else ResetNode(lines[..|lines| - 1])
  }

  function InputNames(lines: seq<Line>): map<nat, string>
  {
    if lines == [] then map[]
    else
      var before, line := InputNames(lines[..|lines| - 1]), lines[|lines| - 1];
      if IsInput(line) then before[line.id := line.args[1].text] else before
  }

  /** Every named output names its node by a number. */
  predicate OutputsReadable(lines: seq<Line>)
  {
    forall i: nat | i < |lines| && lines[i].op == Output && |lines[i].args| >= 2 :: lines[i].args[0].Num?
  }

  method ReadImplementation(lines: seq<Line>) returns (r: Option<(nat, map<string, nat>, Option<nat>)>)
    ensures r.Some? <==> OutputsReadable(lines)
    ensures r.Some? ==> r.value == (MaxId(lines), Drivers(lines), ResetNode(lines))
  {
    var maxId: nat, drivers: map<string, nat>, reset: Option<nat> := 0, map[], None;
    for i := 0 to |lines|
      invariant OutputsReadable(lines[..i])
      invariant maxId == MaxId(lines[..i]) && drivers == Drivers(lines[..i]) && reset == ResetNode(lines[..i])
    {
      var line := lines[i];
      assert lines[..i + 1][..i] == lines[..i];
      if line.id > maxId {
        maxId := line.id;
      }
      if line.op == Output && |line.args| >= 2 {
        if !line.args[0].Num? {
          return None;
        }
        if line.args[1].Word? {
          drivers := drivers[line.args[1].text := line.args[0].n];
        }
      }
      if IsInput(line) && line.args[1].text == "reset" {
        reset := Some(line.id);
      }
    }
    assert lines[..|lines|] == lines;
    return Some((maxId, drivers, reset));
  }

  method ReadInputs(lines: seq<Line>) returns (inputs: map<nat, string>)
    ensures inputs == InputNames(lines)
  {
    inputs := map[];
    for i := 0 to |lines|
      invariant inputs == InputNames(lines[..i])
    {
      assert lines[..i + 1][..i] == lines[..i];
      if IsInput(lines[i]) {
        inputs := inputs[lines[i].id := lines[i].args[1].text];
      }
    }
    assert lines[..|lines|] == lines;
  }

  // ----- Rewriting the checker.

  /** Where the checker's nodes go. */
  datatype Link = Link(wired: map<nat, nat>, offset: nat, signals: seq<string>)

  function Remap(link: Link, id: nat): nat { if id in link.wired then link.wired[id] else id + link.offset }

  predicate Dropped(link: Link, line: Line) { IsInput(line) && line.args[1].text in link.signals }

  /** Every token that names a node is a number, and a line with a sort has one. */
  predicate Readable(line: Line)
  {
    (HasSort(line.op) ==> |line.args| >= 1) && forall i: nat | i < |line.args| && IsRef(line.op, i) :: line.args[i].Num?
  }

  function RemapLine(link: Link, line: Line): Line
    requires Readable(line)
  {
    Line(Remap(link, line.id), line.op,
         seq(|line.args|, i requires 0 <= i < |line.args| =>
           if IsRef(line.op, i) then Num(Remap(link, line.args[i].n)) else line.args[i]))
  }

  predicate Kept(link: Link, line: Line) { !Dropped(link, line) && line.op != BadWhen }

  predicate AllReadable(link: Link, lines: seq<Line>)
  {
    forall i: nat | i < |lines| :: LineReadable(link, lines[i])
  }

  predicate LineReadable(link: Link, line: Line)
  {
    (Kept(link, line) ==> Readable(line)) && (IsBad(link, line) ==> |line.args| >= 1 && line.args[0].Num?)
  }

  predicate IsBad(link: Link, line: Line) { !Dropped(link, line) && line.op == BadWhen }

  function KeptLines(link: Link, lines: seq<Line>): seq<Line>
    requires AllReadable(link, lines)
  {
    if lines == [] then []
    else
      var n := |lines| - 1;
      KeptLines(link, lines[..n]) + if Kept(link, lines[n]) then [RemapLine(link, lines[n])] else []
  }

  /** The properties held aside: the node and what follows it. */
  datatype Bad = Bad(node: nat, name: seq<Arg>)

  function BadOf(link: Link, line: Line): Bad
    requires |line.args| >= 1 && line.args[0].Num?
  {
    Bad(Remap(link, line.args[0].n), if |line.args| > 1 then [line.args[1]] else [])
  }

  function BadsOf(link: Link, lines: seq<Line>): seq<Bad>
    requires AllReadable(link, lines)
  {
    if lines == [] then []
    else
      var n := |lines| - 1;
      BadsOf(link, lines[..n]) +
        if IsBad(link, lines[n]) then [BadOf(link, lines[n])] else []
  }

  function LastId(link: Link, lines: seq<Line>): (last: nat)
    ensures last >= link.offset && forall i: nat | i < |lines| :: last >= Remap(link, lines[i].id)
  {
    if lines == [] then link.offset
    else
      var n := |lines| - 1;
      var before := LastId(link, lines[..n]);
      if Remap(link, lines[n].id) > before then Remap(link, lines[n].id) else before
  }

  // ----- The properties.

  function Plain(last: nat, bads: seq<Bad>): seq<Line>
  {
    if bads == [] then []
    else
      var n := |bads| - 1;
      Plain(last, bads[..n]) + [Line(last + 1 + n, BadWhen, [Num(bads[n].node)] + bads[n].name)]
  }

  /** A one-bit state with its constants. */
  function StartNodes(last: nat): seq<Line>
  {
    [ Line(last + 1, Sort, [Word("bitvec"), Num(1)]),
      Line(last + 2, One, [Num(last + 1)]),
      Line(last + 3, Zero, [Num(last + 1)]),
      Line(last + 4, State, [Num(last + 1), Word("started")]) ]
  }

  /** The state is low at step 0 and high afterwards, and reset is constrained to be its opposite. */
  function TestNodes(last: nat, reset: nat): seq<Line>
  {
    [ Line(last + 5, Init, [Num(last + 1), Num(last + 4), Num(last + 3)]),
      Line(last + 6, Next, [Num(last + 1), Num(last + 4), Num(last + 2)]),
      Line(last + 7, Not, [Num(last + 1), Num(last + 4)]),
      Line(last + 8, Eq, [Num(last + 1), Num(reset), Num(last + 7)]),
      Line(last + 9, Constraint, [Num(last + 8)]) ]
  }

  function ResetNodes(last: nat, reset: nat): seq<Line> { StartNodes(last) + TestNodes(last, reset) }

  function Gated(last: nat, bads: seq<Bad>): seq<Line>
  {
    if bads == [] then []
    else
      var n := |bads| - 1;
      var id := last + 10 + 2 * n;
      Gated(last, bads[..n]) + [
        Line(id, And, [Num(last + 1), Num(bads[n].node), Num(last + 4)]),
        Line(id + 1, BadWhen, [Num(id)] + bads[n].name) ]
  }

  function Properties(last: nat, bads: seq<Bad>, reset: Option<nat>): seq<Line>
  {
    if reset.None? then Plain(last, bads) else ResetNodes(last, reset.value) + Gated(last, bads)
  }

  method EmitProperty(last: nat, bads: seq<Bad>, reset: Option<nat>) returns (out: seq<Line>)
    ensures out == Properties(last, bads, reset)
  {
    out := [];
    var nid := last;
    if reset.None? {
      for i := 0 to |bads|
        invariant nid == last + i && out == Plain(last, bads[..i])
      {
        assert bads[..i + 1][..i] == bads[..i];
        nid := nid + 1;
        out := out + [Line(nid, BadWhen, [Num(bads[i].node)] + bads[i].name)];
      }
      assert bads[..|bads|] == bads;
      return;
    }
    out := ResetNodes(last, reset.value);
    nid := last + 9;
    for i := 0 to |bads|
      invariant nid == last + 9 + 2 * i && out == ResetNodes(last, reset.value) + Gated(last, bads[..i])
    {
      assert bads[..i + 1][..i] == bads[..i];
      nid := nid + 1;
      var gated := nid;
      out := out + [Line(gated, And, [Num(last + 1), Num(bads[i].node), Num(last + 4)])];
      nid := nid + 1;
      out := out + [Line(nid, BadWhen, [Num(gated)] + bads[i].name)];
    }
    assert bads[..|bads|] == bads;
  }

  // ----- The whole.

  /** Each signal's checker input is wired to the implementation's driver of that name, and nothing else is. */
  ghost predicate IsWiring(inputs: map<nat, string>, drivers: map<string, nat>, signals: seq<string>, wired: map<nat, nat>)
  {
    && (forall id | id in wired :: id in inputs && inputs[id] in signals && inputs[id] in drivers && wired[id] == drivers[inputs[id]])
    && (forall s | s in signals :: exists id :: id in wired && inputs[id] == s)
  }

  datatype Linked = Linked(lines: seq<Line>) | NoInput(signal: string) | NoOutput(signal: string) | Unreadable | NoProperty

  method Wire(inputs: map<nat, string>, drivers: map<string, nat>, signals: seq<string>) returns (wired: map<nat, nat>, missing: Linked)
    ensures missing == Linked([]) ==> IsWiring(inputs, drivers, signals, wired)
    ensures missing.NoInput? ==> missing.signal in signals && forall id | id in inputs :: inputs[id] != missing.signal
    ensures missing.NoOutput? ==> missing.signal in signals && missing.signal !in drivers
    ensures missing == Linked([]) || missing.NoInput? || missing.NoOutput?
  {
    wired, missing := map[], Linked([]);
    for k := 0 to |signals|
      invariant forall id | id in wired :: id in inputs && inputs[id] in signals && inputs[id] in drivers && wired[id] == drivers[inputs[id]]
      invariant forall j: nat | j < k :: exists id :: id in wired && inputs[id] == signals[j]
    {
      var s := signals[k];
      var named := set id | id in inputs && inputs[id] == s;
      if named == {} {
        forall id | id in inputs
          ensures inputs[id] != s
        {
          assert id !in named;
        }
        return wired, NoInput(s);
      }
      var id :| id in named;
      if s !in drivers {
        return wired, NoOutput(s);
      }
      wired := wired[id := drivers[s]];
    }
  }

  /** One more line of the checker. */
  lemma {:induction false} RewritePush(link: Link, pre: seq<Line>, line: Line)
    requires AllReadable(link, pre) && LineReadable(link, line)
    ensures AllReadable(link, pre + [line])
    ensures KeptLines(link, pre + [line]) == KeptLines(link, pre) + if Kept(link, line) then [RemapLine(link, line)] else []
    ensures BadsOf(link, pre + [line]) == BadsOf(link, pre) + if IsBad(link, line) then [BadOf(link, line)] else []
    ensures LastId(link, pre + [line]) == if Remap(link, line.id) > LastId(link, pre) then Remap(link, line.id) else LastId(link, pre)
  {
    assert (pre + [line])[..|pre|] == pre;
  }

  /** The checker's lines, rewritten, with its properties held aside; `None` when a token is not a number where it must be. */
  method Rewrite(link: Link, checker: seq<Line>) returns (r: Option<(seq<Line>, seq<Bad>, nat)>)
    ensures r.Some? <==> AllReadable(link, checker)
    ensures r.Some? ==> r.value == (KeptLines(link, checker), BadsOf(link, checker), LastId(link, checker))
  {
    var kept, bads, last := [], [], link.offset;
    for i := 0 to |checker|
      invariant AllReadable(link, checker[..i])
      invariant kept == KeptLines(link, checker[..i]) && bads == BadsOf(link, checker[..i]) && last == LastId(link, checker[..i])
    {
      var line := checker[i];
      assert checker[..i + 1] == checker[..i] + [line];
      if Remap(link, line.id) > last {
        last := Remap(link, line.id);
      }
      if LineReadable(link, line) {
        RewritePush(link, checker[..i], line);
      }
      if Dropped(link, line) {
        continue;
      }
      if line.op == BadWhen {
        if |line.args| == 0 || !line.args[0].Num? {
          return None;
        }
        bads := bads + [BadOf(link, line)];
        continue;
      }
      if !Readable(line) {
        return None;
      }
      kept := kept + [RemapLine(link, line)];
    }
    assert checker[..|checker|] == checker;
    return Some((kept, bads, last));
  }

  /** The miter: the implementation as it is, the checker linked to it, and the properties, gated when there is a reset. */
  method StitchFiles(implementation: seq<Line>, checker: seq<Line>, signals: seq<string>) returns (r: Linked, ghost link: Link)
    ensures link.signals == signals
    ensures r.NoInput? ==> r.signal in signals && forall id | id in InputNames(checker) :: InputNames(checker)[id] != r.signal
    ensures r.NoOutput? ==> r.signal in signals && r.signal !in Drivers(implementation)
    ensures r.Unreadable? ==> !OutputsReadable(implementation) || !AllReadable(link, checker)
    ensures r.NoProperty? ==> AllReadable(link, checker) && BadsOf(link, checker) == []
    ensures r.Linked? ==>
              && link.offset == MaxId(implementation) && link.signals == signals && AllReadable(link, checker)
              && IsWiring(InputNames(checker), Drivers(implementation), signals, link.wired) && BadsOf(link, checker) != []
              && r.lines == implementation + KeptLines(link, checker)
                          + Properties(LastId(link, checker), BadsOf(link, checker), ResetNode(implementation))
  {
    link := Link(map[], 0, signals);
    var read := ReadImplementation(implementation);
    if read.None? {
      return Unreadable, link;
    }
    var (maxId, drivers, reset) := read.value;
    var inputs := ReadInputs(checker);
    var wired, missing := Wire(inputs, drivers, signals);
    if missing != Linked([]) {
      return missing, link;
    }
    var l := Link(wired, maxId, signals);
    link := l;
    var rewritten := Rewrite(l, checker);
    if rewritten.None? {
      return Unreadable, link;
    }
    var (kept, bads, last) := rewritten.value;
    if bads == [] {
      return NoProperty, link;
    }
    var properties := EmitProperty(last, bads, reset);
    return Linked(implementation + kept + properties), link;
  }
}
