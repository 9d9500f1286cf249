/**
  What the nodes of a linked file mean: each is a function of its literals and
  of the nodes it names, inputs and states are given step by step, and a state
  starts and goes on as its `init` and `next` lines say.
 */
module StitchMeaning {
  import opened Options
  import opened Btor2
  import opened Stitch
  import opened StitchReads
  import opened StitchForm

  type Env = map<nat, int>

  datatype Operand = Value(v: int) | Literal(arg: Arg)

  type Sem = (Opcode, seq<Operand>) -> int

  /** What the inputs and states are in one step. */
  type Given = nat -> int

  function Lookup(env: Env, n: nat): int { if n in env then env[n] else 0 }

  function OperandsOf(line: Line, env: Env): (r: seq<Operand>)
    ensures |r| == |line.args|
    ensures forall i: nat | i < |r| :: r[i] == if Refers(line, i) && line.args[i].Num? then Value(Lookup(env, line.args[i].n)) else Literal(line.args[i])
  {
    seq(|line.args|, i requires 0 <= i < |line.args| =>
      if Refers(line, i) && line.args[i].Num? then Value(Lookup(env, line.args[i].n)) else Literal(line.args[i]))
  }

  function EvalLine(sem: Sem, line: Line, env: Env, given: Given): Env
  {
    if !IsNode(line) then env
    else if line.op == Input || line.op == State then env[line.id := given(line.id)]
    else env[line.id := sem(line.op, OperandsOf(line, env))]
  }

  function EvalLines(sem: Sem, lines: seq<Line>, env: Env, given: Given): Env
  {
    if lines == [] then env
    else EvalLine(sem, lines[|lines| - 1], EvalLines(sem, lines[..|lines| - 1], env, given), given)
  }

  lemma {:induction false} EvalPush(sem: Sem, lines: seq<Line>, line: Line, env: Env, given: Given)
    ensures EvalLines(sem, lines + [line], env, given) == EvalLine(sem, line, EvalLines(sem, lines, env, given), given)
  {
  }

  lemma {:induction false} EvalSum(sem: Sem, a: seq<Line>, b: seq<Line>, env: Env, given: Given)
    ensures EvalLines(sem, a + b, env, given) == EvalLines(sem, b, EvalLines(sem, a, env, given), given)
  {
    if b == [] {
      assert a + b == a;
    } else {
      var n := |b| - 1;
      assert (a + b)[..|a| + n] == a + b[..n];
      EvalSum(sem, a, b[..n], env, given);
    }
  }

  // ----- The checker in the miter and on its own.

  /** The checker alone is given the implementation's outputs where it is wired, and the miter's inputs elsewhere. */
  ghost predicate SameInputs(link: Link, implementation: Env, given: Given, alone: Given)
  {
    && (forall id | id in link.wired :: alone(id) == Lookup(implementation, link.wired[id]))
    && (forall id: nat | id !in link.wired :: alone(id) == given(id + link.offset))
  }

  /** Every checker node has in the miter the value it has alone, and the implementation's keep theirs. */
  ghost predicate Same(link: Link, pre: seq<Line>, implementation: Env, miter: Env, alone: Env)
  {
    && (forall c: nat | HasNode(pre, c) :: Lookup(miter, Remap(link, c)) == Lookup(alone, c))
    && (forall n: nat | n <= link.offset :: Lookup(miter, n) == Lookup(implementation, n))
  }

  /** Whatever the lines linked: a checker node evaluates in the miter as in the checker alone. */
  lemma {:induction false} CheckerMeansTheSame(sem: Sem, implementation: seq<Line>, link: Link, lines: seq<Line>, env: Env, given: Given, alone: Given)
    requires Links(implementation, link, lines) && AllReadable(link, lines) && link.offset == MaxId(implementation)
    requires SameInputs(link, env, given, alone)
    ensures Same(link, lines, env, EvalLines(sem, KeptLines(link, lines), env, given), EvalLines(sem, lines, map[], alone))
  {
    if lines != [] {
      var n := |lines| - 1;
      var pre, line := lines[..n], lines[n];
      assert lines == pre + [line];
      LinksPrefix(implementation, link, lines, n);
      CheckerMeansTheSame(sem, implementation, link, pre, env, given, alone);
      KeptEvaluates(sem, link, lines, env, given);
      MeansStep(sem, implementation, link, pre, line, env, given, alone,
                EvalLines(sem, KeptLines(link, pre), env, given), EvalLines(sem, pre, map[], alone));
    }
  }

  lemma {:induction false} KeptEvaluates(sem: Sem, link: Link, lines: seq<Line>, env: Env, given: Given)
    requires AllReadable(link, lines) && lines != []
    ensures var pre, line := lines[..|lines| - 1], lines[|lines| - 1];
            && AllReadable(link, pre) && (Kept(link, line) ==> Readable(line))
            && EvalLines(sem, KeptLines(link, lines), env, given)
            == if Kept(link, line) then EvalLine(sem, RemapLine(link, line), EvalLines(sem, KeptLines(link, pre), env, given), given)
               else EvalLines(sem, KeptLines(link, pre), env, given)
  {
    var pre, line := lines[..|lines| - 1], lines[|lines| - 1];
    if Kept(link, line) {
      assert KeptLines(link, lines) == KeptLines(link, pre) + [RemapLine(link, line)];
      EvalPush(sem, KeptLines(link, pre), RemapLine(link, line), env, given);
    } else {
      assert KeptLines(link, lines) == KeptLines(link, pre);
    }
  }

  lemma {:induction false} MeansStep(sem: Sem, implementation: seq<Line>, link: Link, pre: seq<Line>, line: Line, env: Env, given: Given, alone: Given, miter: Env, own: Env)
    requires Links(implementation, link, pre + [line]) && Same(link, pre, env, miter, own) && (Kept(link, line) ==> Readable(line))
    requires SameInputs(link, env, given, alone) && link.offset == MaxId(implementation)
    ensures Same(link, pre + [line], env, if Kept(link, line) then EvalLine(sem, RemapLine(link, line), miter, given) else miter, EvalLine(sem, line, own, alone))
  {
    assert (pre + [line])[..|pre|] == pre && (pre + [line])[|pre|] == line;
    assert LineLinks(implementation, link, (pre + [line])[..|pre|], (pre + [line])[|pre|]);
    if Kept(link, line) {
      KeptMeansTheSame(sem, implementation, link, pre, line, env, given, alone, miter, own);
    } else {
      DroppedMeansTheSame(sem, implementation, link, pre, line, env, given, alone, miter, own);
    }
  }

  lemma {:induction false} WiredBelow(implementation: seq<Line>, id: nat)
    requires HasNode(implementation, id)
    ensures id <= MaxId(implementation)
  {
  }

  lemma {:induction false} DroppedMeansTheSame(sem: Sem, implementation: seq<Line>, link: Link, pre: seq<Line>, line: Line, env: Env, given: Given, alone: Given, miter: Env, own: Env)
    requires Same(link, pre, env, miter, own) && LineLinks(implementation, link, pre, line) && !Kept(link, line)
    requires SameInputs(link, env, given, alone) && link.offset == MaxId(implementation)
    ensures Same(link, pre + [line], env, miter, EvalLine(sem, line, own, alone))
  {
  }

  lemma HasNodeHasId(lines: seq<Line>)
    ensures forall id: nat | HasNode(lines, id) :: HasId(lines, id)
  {
  }

  lemma {:induction false} OperandsMove(link: Link, pre: seq<Line>, line: Line, env: Env, miter: Env, own: Env)
    requires Same(link, pre, env, miter, own) && RefsIn(line, pre) && Understood(line) && Readable(line)
    ensures OperandsOf(RemapLine(link, line), miter) == OperandsOf(line, own)
  {
  }

  // ----- A line keeps its meaning exactly when its references are read right.

  /** What the line refers to has, renamed, the same value. */
  ghost predicate AgreeOn(link: Link, line: Line, own: Env, miter: Env)
  {
    forall i: nat | i < |line.args| && Refers(line, i) && line.args[i].Num? :: Lookup(miter, Remap(link, line.args[i].n)) == Lookup(own, line.args[i].n)
  }

  /** Rewritten, the line means what it meant, whatever its operation computes and whatever the nodes are. */
  ghost predicate KeepsMeaning(link: Link, line: Line)
    requires Readable(line)
  {
    forall sem: Sem, own: Env, miter: Env | AgreeOn(link, line, own, miter) ::
      sem(line.op, OperandsOf(RemapLine(link, line), miter)) == sem(line.op, OperandsOf(line, own))
  }

  lemma {:induction false} UnderstoodKeepsMeaning(link: Link, line: Line)
    requires Readable(line) && Understood(line)
    ensures KeepsMeaning(link, line)
  {
    forall own: Env, miter: Env | AgreeOn(link, line, own, miter)
      ensures OperandsOf(RemapLine(link, line), miter) == OperandsOf(line, own)
    {
      var a, b := OperandsOf(RemapLine(link, line), miter), OperandsOf(line, own);
      forall i: nat | i < |a|
        ensures a[i] == b[i]
      {
      }
    }
  }

  ghost function NumbersIn(line: Line): set<nat> { set j: nat | j < |line.args| && line.args[j].Num? :: line.args[j].n }

  /** A line misread at some token means something else for some operation and some nodes. */
  lemma {:induction false} MisreadChangesMeaning(line: Line, i: nat)
    requires Readable(line) && i < |line.args| && line.args[i].Num? && !(IsRef(line.op, i) <==> Refers(line, i))
    ensures !KeepsMeaning(Link(map[], 1, []), line)
  {
    var link := Link(map[], 1, []);
    var miter: Env := map[line.args[i].n + 1 := 1];
    var own: Env := map c | c in NumbersIn(line) :: Lookup(miter, c + 1);
    forall j: nat | j < |line.args| && line.args[j].Num?
      ensures line.args[j].n in own
    {
      assert line.args[j].n in NumbersIn(line);
    }
    assert AgreeOn(link, line, own, miter);
    assert OperandsOf(RemapLine(link, line), miter)[i] != OperandsOf(line, own)[i];
    Distinguished(link, line, own, miter);
  }

  /** Different operands are told apart by some operation. */
  lemma {:induction false} Distinguished(link: Link, line: Line, own: Env, miter: Env)
    requires Readable(line) && AgreeOn(link, line, own, miter) && OperandsOf(RemapLine(link, line), miter) != OperandsOf(line, own)
    ensures !KeepsMeaning(link, line)
  {
    var right, wrong := OperandsOf(line, own), OperandsOf(RemapLine(link, line), miter);
    var sem: Sem := (op: Opcode, xs: seq<Operand>) => if xs == right then 1 else 0;
    assert sem(line.op, wrong) != sem(line.op, right);
  }

  /** So linking keeps the meaning of a line, under every link, exactly when the line is understood. */
  lemma {:induction false} LinkingKeepsMeaning(line: Line)
    requires Readable(line)
    ensures (forall link: Link :: KeepsMeaning(link, line)) <==> Understood(line)
  {
    if Understood(line) {
      forall link: Link
        ensures KeepsMeaning(link, line)
      {
        UnderstoodKeepsMeaning(link, line);
      }
    } else {
      var i: nat :| i < |line.args| && line.args[i].Num? && !(IsRef(line.op, i) <==> Refers(line, i));
      MisreadChangesMeaning(line, i);
    }
  }

  /** A checker node's place in the miter is its own. */
  lemma {:induction false} PlacesDiffer(implementation: seq<Line>, link: Link, lines: seq<Line>, pre: seq<Line>, line: Line, c: nat)
    requires lines == pre + [line] && Links(implementation, link, lines) && link.offset == MaxId(implementation)
    requires HasNode(pre, c) && Kept(link, line)
    ensures Remap(link, c) != Remap(link, line.id) && Remap(link, line.id) > link.offset
  {
    assert lines[..|pre|] == pre && lines[|pre|] == line;
    assert LineLinks(implementation, link, lines[..|pre|], lines[|pre|]);
    HasNodeHasId(pre);
    if c in link.wired {
      var j: nat :| j < |pre| && IsNode(pre[j]) && pre[j].id == c;
      assert lines[j] == pre[j];
      assert LineLinks(implementation, link, lines[..j], lines[j]);
      WiredBelow(implementation, link.wired[c]);
    }
  }

  lemma {:induction false} KeptMeansTheSame(sem: Sem, implementation: seq<Line>, link: Link, pre: seq<Line>, line: Line, env: Env, given: Given, alone: Given, miter: Env, own: Env)
    requires Links(implementation, link, pre + [line]) && Same(link, pre, env, miter, own) && LineLinks(implementation, link, pre, line) && Kept(link, line)
    requires SameInputs(link, env, given, alone) && link.offset == MaxId(implementation) && Readable(line)
    ensures Same(link, pre + [line], env, EvalLine(sem, RemapLine(link, line), miter, given), EvalLine(sem, line, own, alone))
  {
    Push(pre, line);
    OperandsMove(link, pre, line, env, miter, own);
    HasNodeHasId(pre);
    forall c: nat | HasNode(pre, c)
      ensures Remap(link, c) != Remap(link, line.id)
    {
      PlacesDiffer(implementation, link, pre + [line], pre, line, c);
    }
    LineMeansTheSame(sem, implementation, link, pre, line, env, given, alone, miter, own);
  }

  lemma {:induction false} LineMeansTheSame(sem: Sem, implementation: seq<Line>, link: Link, pre: seq<Line>, line: Line, env: Env, given: Given, alone: Given, miter: Env, own: Env)
    requires Same(link, pre, env, miter, own) && LineLinks(implementation, link, pre, line) && Kept(link, line) && Readable(line)
    requires SameInputs(link, env, given, alone) && link.offset == MaxId(implementation)
    requires OperandsOf(RemapLine(link, line), miter) == OperandsOf(line, own) && !HasNode(pre, line.id)
    requires forall c: nat | HasNode(pre, c) :: Remap(link, c) != Remap(link, line.id)
    requires forall c: nat :: HasNode(pre + [line], c) <==> HasNode(pre, c) || (IsNode(line) && c == line.id)
    ensures Same(link, pre + [line], env, EvalLine(sem, RemapLine(link, line), miter, given), EvalLine(sem, line, own, alone))
  {
    assert RemapLine(link, line).id == line.id + link.offset;
  }

  // ----- The properties over a run.

  /** The value of the one-bit sort. */
  function Bit(sem: Sem): int { sem(Sort, [Literal(Word("bitvec")), Literal(Num(1))]) }

  function OneOf(sem: Sem, w: int): int { sem(One, [Value(w)]) }

  function ZeroOf(sem: Sem, w: int): int { sem(Zero, [Value(w)]) }

  function NotOf(sem: Sem, w: int, x: int): int { sem(Not, [Value(w), Value(x)]) }

  function EqOf(sem: Sem, w: int, x: int, y: int): int { sem(Eq, [Value(w), Value(x), Value(y)]) }

  function AndOf(sem: Sem, w: int, x: int, y: int): int { sem(And, [Value(w), Value(x), Value(y)]) }

  /** One bit, as the operations of the gate compute on it. */
  ghost predicate OneBit(sem: Sem, w: int)
  {
    && OneOf(sem, w) == 1 && ZeroOf(sem, w) == 0
    && (forall x: int | 0 <= x <= 1 :: NotOf(sem, w, x) == 1 - x)
    && (forall x: int, y: int | 0 <= x <= 1 && 0 <= y <= 1 :: EqOf(sem, w, x, y) == if x == y then 1 else 0)
    && (forall x: int, y: int | 0 <= x <= 1 && 0 <= y <= 1 :: AndOf(sem, w, x, y) == if x == 1 && y == 1 then 1 else 0)
  }

  /** A run of lines: what is evaluated in each step, and the states from one step to the next. */
  ghost predicate IsRun(sem: Sem, lines: seq<Line>, base: nat -> Env, given: nat -> Given, run: nat -> Env)
  {
    && (forall k: nat :: run(k) == EvalLines(sem, lines, base(k), given(k)))
    && StatesGoOn(lines, given, run)
  }

  /** Every state starts and goes on as its lines say. */
  ghost predicate StatesGoOn(lines: seq<Line>, given: nat -> Given, run: nat -> Env)
  {
    && (forall i: nat | i < |lines| && lines[i].op == Init && |lines[i].args| == 3 && lines[i].args[1].Num? && lines[i].args[2].Num? ::
          given(0)(lines[i].args[1].n) == Lookup(run(0), lines[i].args[2].n))
    && (forall i: nat, k: nat | i < |lines| && lines[i].op == Next && |lines[i].args| == 3 && lines[i].args[1].Num? && lines[i].args[2].Num? ::
          given(k + 1)(lines[i].args[1].n) == Lookup(run(k), lines[i].args[2].n))
  }

  lemma {:induction false} EvalFour(sem: Sem, b: seq<Line>, env: Env, given: Given)
    requires |b| == 4
    ensures EvalLines(sem, b, env, given)
         == EvalLine(sem, b[3], EvalLine(sem, b[2], EvalLine(sem, b[1], EvalLine(sem, b[0], env, given), given), given), given)
  {
    assert b[..3] == b[..2] + [b[2]] && b[..2] == b[..1] + [b[1]] && b[..1] == [] + [b[0]];
    EvalPush(sem, b[..2], b[2], env, given);
    EvalPush(sem, b[..1], b[1], env, given);
    EvalPush(sem, [], b[0], env, given);
  }

  lemma {:induction false} EvalFive(sem: Sem, b: seq<Line>, env: Env, given: Given)
    requires |b| == 5
    ensures EvalLines(sem, b, env, given)
         == EvalLine(sem, b[4], EvalLine(sem, b[3], EvalLine(sem, b[2], EvalLine(sem, b[1], EvalLine(sem, b[0], env, given), given), given), given), given)
  {
    var four := b[..4];
    assert b == four + [b[4]] && four[0] == b[0] && four[1] == b[1] && four[2] == b[2] && four[3] == b[3];
    EvalFour(sem, four, env, given);
    EvalPush(sem, four, b[4], env, given);
  }

  lemma {:induction false} EvalTwo(sem: Sem, line: Line, a: nat, b: nat, env: Env, given: Given)
    requires line.op == Not && line.args == [Num(a), Num(b)]
    ensures EvalLine(sem, line, env, given) == env[line.id := NotOf(sem, Lookup(env, a), Lookup(env, b))]
  {
    assert OperandsOf(line, env) == [Value(Lookup(env, a)), Value(Lookup(env, b))];
  }

  lemma {:induction false} EvalThree(sem: Sem, line: Line, a: nat, b: nat, c: nat, env: Env, given: Given)
    requires line.args == [Num(a), Num(b), Num(c)]
    ensures line.op == Eq ==> EvalLine(sem, line, env, given) == env[line.id := EqOf(sem, Lookup(env, a), Lookup(env, b), Lookup(env, c))]
    ensures line.op == And ==> EvalLine(sem, line, env, given) == env[line.id := AndOf(sem, Lookup(env, a), Lookup(env, b), Lookup(env, c))]
  {
    if line.op == Eq || line.op == And {
      assert OperandsOf(line, env) == [Value(Lookup(env, a)), Value(Lookup(env, b)), Value(Lookup(env, c))];
    }
  }

  lemma {:induction false} EvalConstant(sem: Sem, line: Line, a: nat, env: Env, given: Given)
    requires line.args == [Num(a)]
    ensures line.op == One ==> EvalLine(sem, line, env, given) == env[line.id := OneOf(sem, Lookup(env, a))]
    ensures line.op == Zero ==> EvalLine(sem, line, env, given) == env[line.id := ZeroOf(sem, Lookup(env, a))]
  {
    if line.op == One || line.op == Zero {
      assert OperandsOf(line, env) == [Value(Lookup(env, a))];
    }
  }

  lemma {:induction false} EvalSort(sem: Sem, line: Line, env: Env, given: Given)
    requires line.op == Sort && line.args == [Word("bitvec"), Num(1)]
    ensures EvalLine(sem, line, env, given) == env[line.id := Bit(sem)]
  {
    assert OperandsOf(line, env) == [Literal(Word("bitvec")), Literal(Num(1))];
  }

  /** The sort, the constants and the state, in one step. */
  lemma {:induction false} StartEvaluates(sem: Sem, last: nat, env: Env, given: Given)
    ensures EvalLines(sem, StartNodes(last), env, given)
         == env[last + 1 := Bit(sem)][last + 2 := OneOf(sem, Bit(sem))][last + 3 := ZeroOf(sem, Bit(sem))][last + 4 := given(last + 4)]
  {
    StartSteps(sem, last, StartNodes(last), env, given);
    EvalFour(sem, StartNodes(last), env, given);
  }

  lemma {:induction false} StartSteps(sem: Sem, last: nat, b: seq<Line>, env: Env, given: Given)
    requires b == StartNodes(last)
    ensures EvalLine(sem, b[3], EvalLine(sem, b[2], EvalLine(sem, b[1], EvalLine(sem, b[0], env, given), given), given), given)
         == env[last + 1 := Bit(sem)][last + 2 := OneOf(sem, Bit(sem))][last + 3 := ZeroOf(sem, Bit(sem))][last + 4 := given(last + 4)]
  {
    SortSteps(sem, last, b[0], b[1], env, given);
    StateSteps(sem, last, b[2], b[3], env[last + 1 := Bit(sem)][last + 2 := OneOf(sem, Bit(sem))], given);
  }

  lemma {:induction false} SortSteps(sem: Sem, last: nat, sort: Line, one: Line, env: Env, given: Given)
    requires sort == Line(last + 1, Sort, [Word("bitvec"), Num(1)]) && one == Line(last + 2, One, [Num(last + 1)])
    ensures EvalLine(sem, one, EvalLine(sem, sort, env, given), given) == env[last + 1 := Bit(sem)][last + 2 := OneOf(sem, Bit(sem))]
  {
    EvalSort(sem, sort, env, given);
    EvalConstant(sem, one, last + 1, env[last + 1 := Bit(sem)], given);
  }

  lemma {:induction false} StateSteps(sem: Sem, last: nat, zero: Line, state: Line, env: Env, given: Given)
    requires zero == Line(last + 3, Zero, [Num(last + 1)]) && state.id == last + 4 && state.op == State
    ensures EvalLine(sem, state, EvalLine(sem, zero, env, given), given)
         == env[last + 3 := ZeroOf(sem, Lookup(env, last + 1))][last + 4 := given(last + 4)]
  {
    EvalConstant(sem, zero, last + 1, env, given);
  }

  /** The negated state and the test of reset, in one step. */
  lemma {:induction false} TestEvaluates(sem: Sem, last: nat, reset: nat, env: Env, given: Given)
    requires reset <= last
    ensures var w, not := Lookup(env, last + 1), NotOf(sem, Lookup(env, last + 1), Lookup(env, last + 4));
            EvalLines(sem, TestNodes(last, reset), env, given) == env[last + 7 := not][last + 8 := EqOf(sem, w, Lookup(env, reset), not)]
  {
    var b := TestNodes(last, reset);
    var not := NotOf(sem, Lookup(env, last + 1), Lookup(env, last + 4));
    var e7 := env[last + 7 := not];
    EvalTwo(sem, b[2], last + 1, last + 4, env, given);
    EvalThree(sem, b[3], last + 1, reset, last + 7, e7, given);
    EvalFive(sem, b, env, given);
  }

  /** What the gates go on from, in one step. */
  ghost predicate ResetDone(sem: Sem, last: nat, reset: nat, env: Env, started: int, out: Env)
  {
    && Lookup(out, last + 1) == Bit(sem) && Lookup(out, last + 2) == OneOf(sem, Bit(sem)) && Lookup(out, last + 3) == ZeroOf(sem, Bit(sem))
    && Lookup(out, last + 4) == started
    && Lookup(out, last + 8) == EqOf(sem, Bit(sem), Lookup(env, reset), NotOf(sem, Bit(sem), started))
    && forall n: nat | n <= last :: Lookup(out, n) == Lookup(env, n)
  }

  lemma {:induction false} ResetEvaluates(sem: Sem, last: nat, reset: nat, env: Env, given: Given)
    requires reset <= last
    ensures ResetDone(sem, last, reset, env, given(last + 4), EvalLines(sem, ResetNodes(last, reset), env, given))
  {
    StartEvaluates(sem, last, env, given);
    var e4 := EvalLines(sem, StartNodes(last), env, given);
    TestEvaluates(sem, last, reset, e4, given);
    EvalSum(sem, StartNodes(last), TestNodes(last, reset), env, given);
    ResetLooksUp(sem, last, reset, env, given(last + 4), e4, EvalLines(sem, ResetNodes(last, reset), env, given));
  }

  lemma {:induction false} ResetLooksUp(sem: Sem, last: nat, reset: nat, env: Env, started: int, e4: Env, out: Env)
    requires reset <= last
    requires e4 == env[last + 1 := Bit(sem)][last + 2 := OneOf(sem, Bit(sem))][last + 3 := ZeroOf(sem, Bit(sem))][last + 4 := started]
    requires var w, not := Lookup(e4, last + 1), NotOf(sem, Lookup(e4, last + 1), Lookup(e4, last + 4));
             out == e4[last + 7 := not][last + 8 := EqOf(sem, w, Lookup(e4, reset), not)]
    ensures ResetDone(sem, last, reset, env, started, out)
  {
  }

  /** One more gate: a new node, and nothing else. */
  lemma {:induction false} GatedPush(sem: Sem, last: nat, bads: seq<Bad>, env: Env, given: Given)
    requires bads != []
    ensures var n := |bads| - 1;
            var mid := EvalLines(sem, Gated(last, bads[..n]), env, given);
            EvalLines(sem, Gated(last, bads), env, given) == GateOn(sem, last, mid, bads[n].node, last + 10 + 2 * n)
  {
    var gate, bad := GatedSplits(last, bads);
    GateEvaluates(sem, last, Gated(last, bads), Gated(last, bads[..|bads| - 1]), gate, bad, bads[|bads| - 1].node, env, given);
  }

  /** The nodes after a gate on one of them. */
  function GateOn(sem: Sem, last: nat, env: Env, node: nat, id: nat): Env
  {
    env[id := AndOf(sem, Lookup(env, last + 1), Lookup(env, node), Lookup(env, last + 4))]
  }

  lemma {:induction false} GatedSplits(last: nat, bads: seq<Bad>) returns (gate: Line, bad: Line)
    requires bads != []
    ensures gate == Line(last + 10 + 2 * (|bads| - 1), And, [Num(last + 1), Num(bads[|bads| - 1].node), Num(last + 4)]) && !IsNode(bad)
    ensures Gated(last, bads) == Gated(last, bads[..|bads| - 1]) + [gate] + [bad]
  {
    var n := |bads| - 1;
    var id := last + 10 + 2 * n;
    gate := Line(id, And, [Num(last + 1), Num(bads[n].node), Num(last + 4)]);
    bad := Line(id + 1, BadWhen, [Num(id)] + bads[n].name);
  }

  lemma {:induction false} GateEvaluates(sem: Sem, last: nat, all: seq<Line>, before: seq<Line>, gate: Line, bad: Line, node: nat, env: Env, given: Given)
    requires gate.op == And && gate.args == [Num(last + 1), Num(node), Num(last + 4)] && !IsNode(bad) && all == before + [gate] + [bad]
    ensures EvalLines(sem, all, env, given) == GateOn(sem, last, EvalLines(sem, before, env, given), node, gate.id)
  {
    EvalPush(sem, before, gate, env, given);
    EvalPush(sem, before + [gate], bad, env, given);
    EvalThree(sem, gate, last + 1, node, last + 4, EvalLines(sem, before, env, given), given);
  }

  lemma {:induction false} GateOnKept(sem: Sem, last: nat, env: Env, mid: Env, node: nat, id: nat)
    requires node <= last && forall n: nat | n < last + 10 :: Lookup(mid, n) == Lookup(env, n)
    ensures Lookup(GateOn(sem, last, mid, node, id), id) == AndOf(sem, Lookup(env, last + 1), Lookup(env, node), Lookup(env, last + 4))
  {
  }

  /** The nodes after all the gates. */
  function Gates(sem: Sem, last: nat, bads: seq<Bad>, env: Env): Env
  {
    if bads == [] then env
    else GateOn(sem, last, Gates(sem, last, bads[..|bads| - 1], env), bads[|bads| - 1].node, last + 10 + 2 * (|bads| - 1))
  }

  lemma {:induction false} GatedIsGates(sem: Sem, last: nat, bads: seq<Bad>, env: Env, given: Given)
    ensures EvalLines(sem, Gated(last, bads), env, given) == Gates(sem, last, bads, env)
  {
    if bads != [] {
      GatedIsGates(sem, last, bads[..|bads| - 1], env, given);
      GatedPush(sem, last, bads, env, given);
    }
  }

  lemma {:induction false} GatesKeep(sem: Sem, last: nat, bads: seq<Bad>, env: Env)
    ensures forall n: nat | n < last + 10 :: Lookup(Gates(sem, last, bads, env), n) == Lookup(env, n)
  {
    if bads != [] {
      GatesKeep(sem, last, bads[..|bads| - 1], env);
    }
  }

  lemma {:induction false} GatesAt(sem: Sem, last: nat, bads: seq<Bad>, env: Env, i: nat)
    requires i < |bads| && bads[i].node <= last
    ensures Lookup(Gates(sem, last, bads, env), last + 10 + 2 * i)
         == AndOf(sem, Lookup(env, last + 1), Lookup(env, bads[i].node), Lookup(env, last + 4))
  {
    var n := |bads| - 1;
    if i < n {
      GatesAt(sem, last, bads[..n], env, i);
    } else {
      GatesKeep(sem, last, bads[..n], env);
      GateOnKept(sem, last, env, Gates(sem, last, bads[..n], env), bads[n].node, last + 10 + 2 * n);
    }
  }

  /** The property lines in one step: those before the gates, then the gates. */
  lemma {:induction false} PropertiesEvaluate(sem: Sem, last: nat, reset: nat, bads: seq<Bad>, env: Env, given: Given) returns (mid: Env)
    requires reset <= last
    ensures ResetDone(sem, last, reset, env, given(last + 4), mid)
    ensures EvalLines(sem, Properties(last, bads, Some(reset)), env, given) == Gates(sem, last, bads, mid)
  {
    mid := EvalLines(sem, ResetNodes(last, reset), env, given);
    ResetEvaluates(sem, last, reset, env, given);
    EvalSum(sem, ResetNodes(last, reset), Gated(last, bads), env, given);
    GatedIsGates(sem, last, bads, mid, given);
  }

  /** The state is low at step 0 and high ever after. */
  lemma {:induction false} StartedFromOne(sem: Sem, last: nat, reset: nat, bads: seq<Bad>, base: nat -> Env, given: nat -> Given, run: nat -> Env, k: nat)
    requires IsRun(sem, Properties(last, bads, Some(reset)), base, given, run) && Sane(sem, last, reset, bads, base)
    ensures given(k)(last + 4) == if k == 0 then 0 else 1
  {
    forall n: nat
      ensures Lookup(run(n), last + 2) == 1 && Lookup(run(n), last + 3) == 0
    {
      ConstantsHold(sem, last, reset, bads, base, given, run, n);
    }
    StateOfProperties(last, reset, bads, given, run, k);
  }

  lemma {:induction false} StateOfProperties(last: nat, reset: nat, bads: seq<Bad>, given: nat -> Given, run: nat -> Env, k: nat)
    requires StatesGoOn(Properties(last, bads, Some(reset)), given, run)
    requires forall n: nat :: Lookup(run(n), last + 2) == 1 && Lookup(run(n), last + 3) == 0
    ensures given(k)(last + 4) == if k == 0 then 0 else 1
  {
    StateLines(last, reset, bads);
    StateIs(Properties(last, bads, Some(reset)), last, given, run, k);
  }

  lemma {:induction false} ConstantsHold(sem: Sem, last: nat, reset: nat, bads: seq<Bad>, base: nat -> Env, given: nat -> Given, run: nat -> Env, k: nat)
    requires OneBit(sem, Bit(sem)) && reset <= last && forall j: nat :: run(j) == EvalLines(sem, Properties(last, bads, Some(reset)), base(j), given(j))
    ensures Lookup(run(k), last + 2) == 1 && Lookup(run(k), last + 3) == 0
  {
    ZeroAndOne(sem, last, reset, bads, base(k), given(k));
  }

  lemma {:induction false} StateLines(last: nat, reset: nat, bads: seq<Bad>)
    ensures var lines := Properties(last, bads, Some(reset));
            && |lines| > 5 && lines[4] == Line(last + 5, Init, [Num(last + 1), Num(last + 4), Num(last + 3)])
            && lines[5] == Line(last + 6, Next, [Num(last + 1), Num(last + 4), Num(last + 2)])
  {
  }

  lemma {:induction false} StateIs(lines: seq<Line>, last: nat, given: nat -> Given, run: nat -> Env, k: nat)
    requires StatesGoOn(lines, given, run)
    requires |lines| > 5 && lines[4] == Line(last + 5, Init, [Num(last + 1), Num(last + 4), Num(last + 3)])
    requires lines[5] == Line(last + 6, Next, [Num(last + 1), Num(last + 4), Num(last + 2)])
    requires forall n: nat :: Lookup(run(n), last + 2) == 1 && Lookup(run(n), last + 3) == 0
    ensures given(k)(last + 4) == if k == 0 then 0 else 1
  {
    if k > 0 {
      assert given(k - 1 + 1)(lines[5].args[1].n) == Lookup(run(k - 1), lines[5].args[2].n);
    }
  }

  /** One-bit operations, nodes below the new ids, and one-bit values on reset and the properties. */
  ghost predicate Sane(sem: Sem, last: nat, reset: nat, bads: seq<Bad>, base: nat -> Env)
  {
    && OneBit(sem, Bit(sem)) && reset <= last && (forall i: nat | i < |bads| :: bads[i].node <= last)
    && (forall k: nat :: 0 <= Lookup(base(k), reset) <= 1)
    && (forall k: nat, i: nat | i < |bads| :: 0 <= Lookup(base(k), bads[i].node) <= 1)
  }

  /** Whatever the state is, the constants are what they are. */
  lemma {:induction false} ZeroAndOne(sem: Sem, last: nat, reset: nat, bads: seq<Bad>, env: Env, given: Given)
    requires OneBit(sem, Bit(sem)) && reset <= last
    ensures var out := EvalLines(sem, Properties(last, bads, Some(reset)), env, given);
            Lookup(out, last + 2) == 1 && Lookup(out, last + 3) == 0
  {
    var mid := PropertiesEvaluate(sem, last, reset, bads, env, given);
    GatesKeep(sem, last, bads, mid);
  }

  /**
    Over every run of the gated properties: the constraint holds in a step
    exactly when reset is high in step 0 and low in others, and a gate is high
    exactly after step 0 and when its property's node is.
   */
  lemma {:induction false} GatedFires(sem: Sem, last: nat, reset: nat, bads: seq<Bad>, base: nat -> Env, given: nat -> Given, run: nat -> Env, k: nat)
    requires IsRun(sem, Properties(last, bads, Some(reset)), base, given, run) && Sane(sem, last, reset, bads, base)
    ensures Lookup(run(k), last + 8) != 0 <==> (Lookup(base(k), reset) == 1 <==> k == 0)
    ensures forall i: nat | i < |bads| :: Lookup(run(k), last + 10 + 2 * i) != 0 <==> k >= 1 && Lookup(base(k), bads[i].node) != 0
  {
    StartedFromOne(sem, last, reset, bads, base, given, run, k);
    var env := PropertiesEvaluate(sem, last, reset, bads, base(k), given(k));
    assert 0 <= Lookup(base(k), reset) <= 1;
    GatesKeep(sem, last, bads, env);
    forall i: nat | i < |bads|
      ensures Lookup(run(k), last + 10 + 2 * i) != 0 <==> k >= 1 && Lookup(base(k), bads[i].node) != 0
    {
      GatesAt(sem, last, bads, env, i);
      GateFires(sem, last, base(k), env, bads[i].node, if k == 0 then 0 else 1);
    }
  }

  lemma {:induction false} GateFires(sem: Sem, last: nat, base: Env, env: Env, node: nat, started: int)
    requires OneBit(sem, Bit(sem)) && 0 <= started <= 1 && 0 <= Lookup(base, node) <= 1
    requires Lookup(env, last + 1) == Bit(sem) && Lookup(env, last + 4) == started && Lookup(env, node) == Lookup(base, node)
    ensures AndOf(sem, Lookup(env, last + 1), Lookup(env, node), Lookup(env, last + 4)) != 0 <==> started == 1 && Lookup(base, node) != 0
  {
  }

  /** The places of the checker's property lines, in order. */
  function BadPlaces(link: Link, lines: seq<Line>): (places: seq<nat>)
    ensures forall i: nat | i < |places| :: places[i] < |lines|
  {
    if lines == [] then []
    else
      var n := |lines| - 1;
      BadPlaces(link, lines[..n]) + if IsBad(link, lines[n]) then [n] else []
  }

  /** The properties are those of the lines at these places, which are all the property lines, in order. */
  ghost predicate Matches(link: Link, lines: seq<Line>, places: seq<nat>, bads: seq<Bad>)
  {
    && |bads| == |places| && (forall i: nat, j: nat | i < j < |places| :: places[i] < places[j])
    && (forall k: nat :: k in places <==> k < |lines| && IsBad(link, lines[k]))
    && forall i: nat | i < |places| ::
         && places[i] < |lines| && LineReadable(link, lines[places[i]]) && IsBad(link, lines[places[i]])
         && bads[i].node == Remap(link, lines[places[i]].args[0].n)
         && bads[i].name == if |lines[places[i]].args| > 1 then [lines[places[i]].args[1]] else []
  }

  lemma {:induction false} MatchesPush(link: Link, init: seq<Line>, line: Line, places: seq<nat>, bads: seq<Bad>)
    requires Matches(link, init, places, bads) && LineReadable(link, line)
    ensures Matches(link, init + [line], places + if IsBad(link, line) then [|init|] else [], bads + if IsBad(link, line) then [BadOf(link, line)] else [])
  {
    var all := places + if IsBad(link, line) then [|init|] else [];
    forall k: nat
      ensures k in all <==> k < |init| + 1 && IsBad(link, (init + [line])[k])
    {
    }
  }

  /** The properties held aside are the checker's property lines, each once and in their order. */
  lemma {:induction false} BadsCorrespond(link: Link, checker: seq<Line>)
    requires AllReadable(link, checker)
    ensures Matches(link, checker, BadPlaces(link, checker), BadsOf(link, checker))
  {
    if checker != [] {
      var n := |checker| - 1;
      BadsCorrespond(link, checker[..n]);
      MatchesPush(link, checker[..n], checker[n], BadPlaces(link, checker[..n]), BadsOf(link, checker[..n]));
      assert checker == checker[..n] + [checker[n]];
    }
  }

  /** The node the `i`th property line of the checker names. */
  ghost predicate PropertyOf(checker: seq<Line>, link: Link, i: nat, c: nat)
  {
    && i < |BadPlaces(link, checker)|
    && var line := checker[BadPlaces(link, checker)[i]];
       IsBad(link, line) && |line.args| >= 1 && line.args[0] == Num(c)
  }

  lemma {:induction false} PropertyNamesNode(implementation: seq<Line>, link: Link, checker: seq<Line>, i: nat, c: nat)
    requires Links(implementation, link, checker) && PropertyOf(checker, link, i, c)
    ensures HasNode(checker, c)
  {
    PlaceNamesNode(implementation, link, checker, BadPlaces(link, checker)[i], c);
  }

  lemma {:induction false} PlaceNamesNode(implementation: seq<Line>, link: Link, checker: seq<Line>, j: nat, c: nat)
    requires Links(implementation, link, checker) && j < |checker| && checker[j].op == BadWhen && |checker[j].args| >= 1 && checker[j].args[0] == Num(c)
    ensures HasNode(checker, c)
  {
  }

  lemma {:induction false} PropertyMeansTheSame(sem: Sem, implementation: seq<Line>, checker: seq<Line>, link: Link, env: Env, given: Given, alone: Given, base: Env, i: nat)
    returns (c: nat)
    requires Links(implementation, link, checker) && AllReadable(link, checker) && link.offset == MaxId(implementation)
    requires SameInputs(link, env, given, alone) && base == EvalLines(sem, KeptLines(link, checker), env, given) && i < |BadsOf(link, checker)|
    ensures PropertyOf(checker, link, i, c)
    ensures Lookup(base, BadsOf(link, checker)[i].node) == Lookup(EvalLines(sem, checker, map[], alone), c)
  {
    c := PropertyAt(link, checker, i);
    PropertyNamesNode(implementation, link, checker, i, c);
    CheckerMeansTheSame(sem, implementation, link, checker, env, given, alone);
  }

  lemma {:induction false} PropertyAt(link: Link, checker: seq<Line>, i: nat) returns (c: nat)
    requires AllReadable(link, checker) && i < |BadsOf(link, checker)|
    ensures PropertyOf(checker, link, i, c) && BadsOf(link, checker)[i].node == Remap(link, c)
  {
    BadsCorrespond(link, checker);
    c := checker[BadPlaces(link, checker)[i]].args[0].n;
  }
}
