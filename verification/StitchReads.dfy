/**
  Where the linker's table of references and the format agree: exactly on those
  lines a rewritten line is the line with its references renamed.
 */
module StitchReads {
  import opened Btor2
  import opened Stitch

  /** The table and the format agree on every number of the line. */
  predicate Understood(line: Line)
  {
    forall i: nat | i < |line.args| && line.args[i].Num? :: IsRef(line.op, i) <==> Refers(line, i)
  }

  /** The line with what the format calls references renamed, and nothing else. */
  function RightLine(link: Link, line: Line): Line
  {
    Line(Remap(link, line.id), line.op,
         seq(|line.args|, i requires 0 <= i < |line.args| =>
           if Refers(line, i) && line.args[i].Num? then Num(Remap(link, line.args[i].n)) else line.args[i]))
  }

  /** A line is rewritten right under every link exactly when it is understood. */
  lemma {:induction false} RewritesRight(line: Line)
    requires Readable(line)
    ensures (forall link: Link :: RemapLine(link, line) == RightLine(link, line)) <==> Understood(line)
  {
    if Understood(line) {
      forall link: Link
        ensures RemapLine(link, line) == RightLine(link, line)
      {
        assert RemapLine(link, line).args == RightLine(link, line).args;
      }
    } else {
      var i: nat :| i < |line.args| && line.args[i].Num? && !(IsRef(line.op, i) <==> Refers(line, i));
      var link := Link(map[], 1, []);
      assert RemapLine(link, line).args[i] != RightLine(link, line).args[i];
    }
  }

  /**
    Lines the table gets wrong: the value written to an array and the sorts of
    an array are left where they were, and a hexadecimal literal and a numeric
    symbol are moved like nodes.
   */
  lemma {:induction false} MisreadLines(link: Link, id: nat, s: nat, a: nat, b: nat, c: nat)
    requires link.wired == map[] && link.offset > 0
    ensures var write := Line(id, Write, [Num(s), Num(a), Num(b), Num(c)]);
            RemapLine(link, write).args[3] == Num(c) && RightLine(link, write).args[3] == Num(c + link.offset)
    ensures var table := Line(id, Sort, [Word("array"), Num(a), Num(b)]);
            RemapLine(link, table).args[1] == Num(a) && RightLine(link, table).args[1] == Num(a + link.offset)
    ensures var hex := Line(id, Consth, [Num(s), Num(a)]);
            RemapLine(link, hex).args[1] == Num(a + link.offset) && RightLine(link, hex).args[1] == Num(a)
    ensures var named := Line(id, Redor, [Num(s), Num(a), Num(b)]);
            RemapLine(link, named).args[2] == Num(b + link.offset) && RightLine(link, named).args[2] == Num(b)
  {
  }

  /** The operations a generated checker uses are all understood. */
  lemma {:induction false} GeneratedIsUnderstood(line: Line)
    requires match line.op
             case Sort => line.args != [] && line.args[0] == Word("bitvec")
             case Input | Constd | Const | One | Zero | Ones | Output | BadWhen | Not | Sext | Uext | Slice | Ite | And | Eq | Binary(_) => true
             case _ => false
    ensures Understood(line)
  {
  }
}
