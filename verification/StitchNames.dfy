/** What the linker takes from a file's lines: its greatest id, its outputs and inputs by name, and its reset. */
module StitchNames {
  import opened Options
  import opened Btor2
  import opened Stitch

  /** An input line with this symbol. */
  ghost predicate InputNamed(line: Line, name: string) { line.op == Input && |line.args| >= 2 && line.args[1] == Word(name) }

  /** An output line with this symbol, naming its node by a number. */
  ghost predicate OutputNamed(line: Line, name: string)
  {
    line.op == Output && |line.args| >= 2 && line.args[0].Num? && line.args[1] == Word(name)
  }

  /** The reset is the last input line whose symbol is `reset`. */
  lemma {:induction false} ResetIs(lines: seq<Line>)
    ensures ResetNode(lines).None? <==> forall k: nat | k < |lines| :: !InputNamed(lines[k], "reset")
    ensures ResetNode(lines).Some? ==> exists k: nat :: k < |lines| && lines[k].id == ResetNode(lines).value && InputNamed(lines[k], "reset")
                                         && forall j: nat | k < j < |lines| :: !InputNamed(lines[j], "reset")
  {
    if lines != [] {
      var n := |lines| - 1;
      ResetIs(lines[..n]);
      assert forall k: nat | k < n :: lines[..n][k] == lines[k];
      assert IsInput(lines[n]) && lines[n].args[1].text == "reset" <==> InputNamed(lines[n], "reset");
    }
  }

  /** A signal's driver is the node of the last output line of that name. */
  lemma {:induction false} DriversAre(lines: seq<Line>, name: string)
    ensures name !in Drivers(lines) <==> forall k: nat | k < |lines| :: !OutputNamed(lines[k], name)
    ensures name in Drivers(lines) ==> exists k: nat :: k < |lines| && OutputNamed(lines[k], name) && lines[k].args[0].n == Drivers(lines)[name]
                                         && forall j: nat | k < j < |lines| :: !OutputNamed(lines[j], name)
  {
    if lines != [] {
      var n := |lines| - 1;
      DriversAre(lines[..n], name);
      assert forall k: nat | k < n :: lines[..n][k] == lines[k];
      assert IsOutput(lines[n]) && lines[n].args[1].text == name <==> OutputNamed(lines[n], name);
    }
  }

  /** An id is an input's, and has the symbol of the last input line with it. */
  lemma {:induction false} InputsAre(lines: seq<Line>, id: nat)
    ensures id !in InputNames(lines) <==> forall k: nat, name: string | k < |lines| && lines[k].id == id :: !InputNamed(lines[k], name)
    ensures id in InputNames(lines) ==> exists k: nat :: k < |lines| && lines[k].id == id && InputNamed(lines[k], InputNames(lines)[id])
                                         && forall j: nat, name: string | k < j < |lines| && lines[j].id == id :: !InputNamed(lines[j], name)
  {
    if lines != [] {
      var n := |lines| - 1;
      InputsAre(lines[..n], id);
      assert forall k: nat | k < n :: lines[..n][k] == lines[k];
      if IsInput(lines[n]) {
        assert InputNamed(lines[n], lines[n].args[1].text);
      }
    }
  }

  /** New ids start right above every id of the implementation. */
  lemma {:induction false} MaxIdIs(lines: seq<Line>)
    ensures forall k: nat | k < |lines| :: lines[k].id <= MaxId(lines)
    ensures MaxId(lines) == 0 || exists k: nat :: k < |lines| && lines[k].id == MaxId(lines)
  {
    if lines != [] {
      var n := |lines| - 1;
      MaxIdIs(lines[..n]);
      assert forall k: nat | k < n :: lines[..n][k] == lines[k];
    }
  }

  /** The properties are numbered on from the greatest id in the miter so far. */
  lemma {:induction false} LastIdIs(link: Link, lines: seq<Line>)
    ensures LastId(link, lines) >= link.offset && forall k: nat | k < |lines| :: LastId(link, lines) >= Remap(link, lines[k].id)
    ensures LastId(link, lines) == link.offset || exists k: nat :: k < |lines| && LastId(link, lines) == Remap(link, lines[k].id)
  {
    if lines != [] {
      var n := |lines| - 1;
      LastIdIs(link, lines[..n]);
      assert forall k: nat | k < n :: lines[..n][k] == lines[k];
    }
  }

  /** Without a reset the `i`th property line names its node, and keeps its symbol. */
  lemma {:induction false} PlainLines(last: nat, bads: seq<Bad>, i: nat)
    requires i < |bads|
    ensures |Properties(last, bads, None)| == |bads|
    ensures Properties(last, bads, None)[i] == Line(last + 1 + i, BadWhen, [Num(bads[i].node)] + bads[i].name)
  {
    PlainAt(last, bads, i);
  }

  lemma {:induction false} PlainAt(last: nat, bads: seq<Bad>, i: nat)
    requires i < |bads|
    ensures |Plain(last, bads)| == |bads| && Plain(last, bads)[i] == Line(last + 1 + i, BadWhen, [Num(bads[i].node)] + bads[i].name)
  {
    var n := |bads| - 1;
    PlainSize(last, bads[..n]);
    if i < n {
      PlainAt(last, bads[..n], i);
    }
  }

  lemma {:induction false} PlainSize(last: nat, bads: seq<Bad>)
    ensures |Plain(last, bads)| == |bads|
  {
    if bads != [] {
      PlainSize(last, bads[..|bads| - 1]);
    }
  }

  /** With a reset the constraint comes first, and the `i`th property line names its gate, and keeps its symbol. */
  lemma {:induction false} GatedLines(last: nat, reset: nat, bads: seq<Bad>, i: nat)
    requires i < |bads|
    ensures var lines := Properties(last, bads, Some(reset));
            && |lines| == 9 + 2 * |bads| && lines[8] == Line(last + 9, Constraint, [Num(last + 8)])
            && lines[9 + 2 * i + 1] == Line(last + 11 + 2 * i, BadWhen, [Num(last + 10 + 2 * i)] + bads[i].name)
  {
    GatedAt(last, bads, i);
    assert |ResetNodes(last, reset)| == 9;
  }

  lemma {:induction false} GatedAt(last: nat, bads: seq<Bad>, i: nat)
    requires i < |bads|
    ensures |Gated(last, bads)| == 2 * |bads|
    ensures Gated(last, bads)[2 * i + 1] == Line(last + 11 + 2 * i, BadWhen, [Num(last + 10 + 2 * i)] + bads[i].name)
  {
    var n := |bads| - 1;
    GatedSize(last, bads[..n]);
    if i < n {
      GatedAt(last, bads[..n], i);
    }
  }

  lemma {:induction false} GatedSize(last: nat, bads: seq<Bad>)
    ensures |Gated(last, bads)| == 2 * |bads|
  {
    if bads != [] {
      GatedSize(last, bads[..|bads| - 1]);
    }
  }
}
