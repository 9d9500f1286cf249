/**
  Runs of the whole miter, the lines the linker returns: what its properties
  say of the implementation step by step.
 */
module StitchRuns {
  import opened Options
  import opened Btor2
  import opened Stitch
  import opened StitchForm
  import opened StitchMeaning

  ghost function Nothing(): nat -> Env { (k: nat) => map[] }

  /** The implementation's nodes in each step. */
  ghost function Running(sem: Sem, implementation: seq<Line>, given: nat -> Given): nat -> Env
  {
    (k: nat) => EvalLines(sem, implementation, map[], given(k))
  }

  /** The nodes before the properties in each step. */
  ghost function Linked(sem: Sem, implementation: seq<Line>, kept: seq<Line>, given: nat -> Given): nat -> Env
  {
    (k: nat) => EvalLines(sem, kept, Running(sem, implementation, given)(k), given(k))
  }

  lemma {:induction false} WholeEvaluates(sem: Sem, implementation: seq<Line>, kept: seq<Line>, properties: seq<Line>, given: nat -> Given, run: nat -> Env)
    requires forall k: nat :: run(k) == EvalLines(sem, implementation + kept + properties, map[], given(k))
    ensures forall k: nat :: run(k) == EvalLines(sem, properties, Linked(sem, implementation, kept, given)(k), given(k))
  {
    forall k: nat
      ensures run(k) == EvalLines(sem, properties, Linked(sem, implementation, kept, given)(k), given(k))
    {
      EvalSum(sem, implementation + kept, properties, map[], given(k));
      EvalSum(sem, implementation, kept, map[], given(k));
    }
  }

  /** A run of the whole is a run of the properties over what comes before them. */
  lemma {:induction false} RunOfProperties(sem: Sem, implementation: seq<Line>, kept: seq<Line>, properties: seq<Line>, given: nat -> Given, run: nat -> Env)
    requires IsRun(sem, implementation + kept + properties, Nothing(), given, run)
    ensures IsRun(sem, properties, Linked(sem, implementation, kept, given), given, run)
  {
    WholeEvaluates(sem, implementation, kept, properties, given, run);
    StatesOfPart(implementation + kept, properties, given, run);
  }

  lemma {:induction false} StatesOfPart(before: seq<Line>, properties: seq<Line>, given: nat -> Given, run: nat -> Env)
    requires StatesGoOn(before + properties, given, run)
    ensures StatesGoOn(properties, given, run)
  {
    assert forall i: nat | i < |properties| :: (before + properties)[|before| + i] == properties[i];
  }

  /** The properties leave the nodes before them alone. */
  lemma {:induction false} PropertiesKeep(sem: Sem, last: nat, reset: nat, bads: seq<Bad>, env: Env, given: Given)
    requires reset <= last
    ensures forall n: nat | n <= last :: Lookup(EvalLines(sem, Properties(last, bads, Some(reset)), env, given), n) == Lookup(env, n)
  {
    var mid := PropertiesEvaluate(sem, last, reset, bads, env, given);
    GatesKeep(sem, last, bads, mid);
  }

  /** The reset input and every property's node are one bit wide in every step. */
  ghost predicate OneBitRun(reset: nat, bads: seq<Bad>, run: nat -> Env)
  {
    && (forall k: nat :: 0 <= Lookup(run(k), reset) <= 1)
    && (forall k: nat, i: nat | i < |bads| :: 0 <= Lookup(run(k), bads[i].node) <= 1)
  }

  /** The checker alone is given, step by step, what the implementation puts out. */
  ghost predicate Beside(sem: Sem, implementation: seq<Line>, link: Link, given: nat -> Given, alone: nat -> Given)
  {
    forall k: nat :: SameInputs(link, Running(sem, implementation, given)(k), given(k), alone(k))
  }

  lemma {:induction false} NodesBelow(implementation: seq<Line>, checker: seq<Line>, link: Link)
    requires Setting(implementation, checker, link)
    ensures forall i: nat | i < |BadsOf(link, checker)| :: BadsOf(link, checker)[i].node <= LastId(link, checker)
    ensures ResetNode(implementation).Some? ==> ResetNode(implementation).value <= LastId(link, checker)
  {
    SettingLinks(implementation, checker, link);
    KeptBelow(implementation, link, checker);
    BadsKept(implementation, link, checker);
    HasNodeHasId(Miter(implementation, link, checker));
    HasNodeHasId(implementation);
    if ResetNode(implementation).Some? {
      ResetIsNode(implementation);
    }
  }

  lemma {:induction false} RunIsSane(sem: Sem, implementation: seq<Line>, kept: seq<Line>, last: nat, bads: seq<Bad>, reset: nat, given: nat -> Given, run: nat -> Env)
    requires IsRun(sem, Properties(last, bads, Some(reset)), Linked(sem, implementation, kept, given), given, run)
    requires OneBit(sem, Bit(sem)) && OneBitRun(reset, bads, run) && reset <= last && forall i: nat | i < |bads| :: bads[i].node <= last
    ensures Sane(sem, last, reset, bads, Linked(sem, implementation, kept, given))
  {
    var base := Linked(sem, implementation, kept, given);
    forall k: nat
      ensures forall n: nat | n <= last :: Lookup(run(k), n) == Lookup(base(k), n)
    {
      PropertiesKeep(sem, last, reset, bads, base(k), given(k));
    }
  }

  /**
    In every run of the miter of an implementation with a reset: a gated
    property fires in a step exactly when that is not the first and the
    property it stands for is high in the checker alone, and the constraint
    holds there exactly when reset is high in step 0 only.
   */
  lemma {:induction false} MiterChecks(sem: Sem, implementation: seq<Line>, checker: seq<Line>, link: Link, last: nat, bads: seq<Bad>, reset: nat,
                                       given: nat -> Given, alone: nat -> Given, run: nat -> Env, k: nat, i: nat)
    returns (c: nat)
    requires Setting(implementation, checker, link) && last == LastId(link, checker) && bads == BadsOf(link, checker) && i < |bads|
    requires ResetNode(implementation) == Some(reset)
    requires IsRun(sem, Miter(implementation, link, checker) + Properties(last, bads, ResetNode(implementation)), Nothing(), given, run)
    requires Beside(sem, implementation, link, given, alone) && OneBit(sem, Bit(sem)) && OneBitRun(reset, bads, run)
    ensures PropertyOf(checker, link, i, c)
    ensures Lookup(run(k), last + 10 + 2 * i) != 0 <==> k >= 1 && Lookup(EvalLines(sem, checker, map[], alone(k)), c) != 0
    ensures Lookup(run(k), last + 8) != 0 <==> (Lookup(run(k), reset) == 1 <==> k == 0)
  {
    var kept := KeptLines(link, checker);
    var base := Linked(sem, implementation, kept, given);
    RunOfProperties(sem, implementation, kept, Properties(last, bads, Some(reset)), given, run);
    NodesBelow(implementation, checker, link);
    RunIsSane(sem, implementation, kept, last, bads, reset, given, run);
    GatedFires(sem, last, reset, bads, base, given, run, k);
    PropertiesKeep(sem, last, reset, bads, base(k), given(k));
    c := StepMeansTheSame(sem, implementation, checker, link, given, alone, k, i);
  }

  lemma {:induction false} StepMeansTheSame(sem: Sem, implementation: seq<Line>, checker: seq<Line>, link: Link, given: nat -> Given, alone: nat -> Given, k: nat, i: nat)
    returns (c: nat)
    requires Setting(implementation, checker, link) && i < |BadsOf(link, checker)| && Beside(sem, implementation, link, given, alone)
    ensures PropertyOf(checker, link, i, c)
    ensures Lookup(Linked(sem, implementation, KeptLines(link, checker), given)(k), BadsOf(link, checker)[i].node)
         == Lookup(EvalLines(sem, checker, map[], alone(k)), c)
  {
    SettingLinks(implementation, checker, link);
    var env := Running(sem, implementation, given)(k);
    assert SameInputs(link, env, given(k), alone(k));
    c := PropertyMeansTheSame(sem, implementation, checker, link, env, given(k), alone(k), EvalLines(sem, KeptLines(link, checker), env, given(k)), i);
  }

  lemma {:induction false} PlainKeeps(sem: Sem, last: nat, bads: seq<Bad>, env: Env, given: Given)
    ensures EvalLines(sem, Plain(last, bads), env, given) == env
  {
    if bads != [] {
      var n := |bads| - 1;
      PlainKeeps(sem, last, bads[..n], env, given);
      EvalPush(sem, Plain(last, bads[..n]), Line(last + 1 + n, BadWhen, [Num(bads[n].node)] + bads[n].name), env, given);
    }
  }

  /** Without a reset a property of the miter is, in every step, what it is in the checker alone. */
  lemma {:induction false} MiterChecksPlain(sem: Sem, implementation: seq<Line>, checker: seq<Line>, link: Link, last: nat, bads: seq<Bad>,
                                            given: nat -> Given, alone: nat -> Given, run: nat -> Env, k: nat, i: nat)
    returns (c: nat)
    requires Setting(implementation, checker, link) && last == LastId(link, checker) && bads == BadsOf(link, checker) && i < |bads|
    requires ResetNode(implementation) == None
    requires IsRun(sem, Miter(implementation, link, checker) + Properties(last, bads, ResetNode(implementation)), Nothing(), given, run)
    requires Beside(sem, implementation, link, given, alone)
    ensures PropertyOf(checker, link, i, c)
    ensures Lookup(run(k), bads[i].node) == Lookup(EvalLines(sem, checker, map[], alone(k)), c)
  {
    RunOfProperties(sem, implementation, KeptLines(link, checker), Plain(last, bads), given, run);
    PlainKeeps(sem, last, bads, Linked(sem, implementation, KeptLines(link, checker), given)(k), given(k));
    c := StepMeansTheSame(sem, implementation, checker, link, given, alone, k, i);
  }

  /** Every miter the linker returns is well formed, and its lines are the ones these runs are of. */
  method LinkFiles(implementation: seq<Line>, checker: seq<Line>, signals: seq<string>) returns (r: Stitch.Linked, ghost link: Link)
    requires WellFormed(implementation) && WellFormed(checker) && UniqueInputs(checker)
    requires forall k: nat | k < |checker| :: Acceptable(checker[k])
    ensures r.Linked? ==> Setting(implementation, checker, link) && WellFormed(r.lines)
    ensures r.Linked? ==> r.lines == Miter(implementation, link, checker) + Properties(LastId(link, checker), BadsOf(link, checker), ResetNode(implementation))
  {
    r, link := StitchFiles(implementation, checker, signals);
    if r.Linked? {
      MiterIsWellFormed(implementation, checker, link);
    }
  }
}
