/** Copying a verified region, whatever the order its ops are kept in. */
module CloneVerified {
  import opened Seqs
  import opened Clone
  import opened CloneTheorems
  import opened CloneRegions
  import opened CloneDistinct
  import opened CloneSorted
  import opened CloneAlike
  import C = Cloner

  /** A verified region below `next`, and bindings for its ports or outside values that do not lead inside. */
  ghost predicate Bindable(r: Region, bindings: map<nat, nat>, next: nat)
  {
    var all := DefsOfRegion(r);
    && Verified(r, Bounds(all, next), {}) && (forall v | v in all :: v < next)
    && (forall v | v in bindings :: bindings[v] < next && bindings[v] !in all && (v in all ==> v in r.ports))
  }

  lemma {:induction false} SortedIsCopyable(r: Region, s: Region, bindings: map<nat, nat>, next: nat)
    requires Bindable(r, bindings, next) && SameRegion(r, s) && Sorted(s)
    ensures Copyable(s, bindings, next) && DefsOfRegion(s) == DefsOfRegion(r)
  {
    var b := Bounds(DefsOfRegion(r), next);
    SameRegionSets(r, s);
    SameVerified(r, s, b, {});
    SortedIsGood(s, b, {}, {});
    assert {} + Elements(s.ports) == Elements(s.ports);
  }

  /**
    A copy of the region in some order of its ops: a renaming that keeps
    definitions apart, and what the region evaluates to in any order.
   */
  ghost predicate IsCopy(r: Region, bindings: map<nat, nat>, next: nat, c: Region, values: map<nat, nat>, s: Region)
  {
    && SameRegion(r, s) && Sorted(s) && RenamedRegion(s, c, values)
    && RenamesRight(r, bindings, next, values) && Injective(bindings, values)
    && NamesOfRegion(c) !! DefsOfRegion(r)
    && forall sem: Sem, env: Env, outer: Env, args: seq<int>, t: Region |
         Extensional(sem) && Surroundings(r, bindings, next, env, outer, args) && SameRegion(r, t) && Sorted(t) ::
         EvalRegion(sem, c, outer, args) == EvalRegion(sem, t, env, args)
  }

  lemma {:induction false} SortedCopies(r: Region, s: Region, bindings: map<nat, nat>, next: nat)
    requires Bindable(r, bindings, next) && SameRegion(r, s) && Sorted(s)
    ensures var c := CloneRegion(s, Mapping(bindings, next));
            IsCopy(r, bindings, next, c.tree, c.mapping.values, s)
  {
    SortedIsCopyable(r, s, bindings, next);
    CopyIsRenaming(s, bindings, next);
    CopyIsInjective(s, bindings, next);
    CopyCapturesNothing(s, bindings, next);
    var c := CloneRegion(s, Mapping(bindings, next)).tree;
    forall sem: Sem, env: Env, outer: Env, args: seq<int>, t: Region |
      Extensional(sem) && Surroundings(r, bindings, next, env, outer, args) && SameRegion(r, t) && Sorted(t)
      ensures EvalRegion(sem, c, outer, args) == EvalRegion(sem, t, env, args)
    {
      CopyEvaluates(sem, s, bindings, next, env, outer, args);
      RegionAlike(sem, r, s, t, Bounds(DefsOfRegion(r), next), {}, env, env, args);
    }
  }

  /** Copying orders every region where it can; a verified one without cyclic reads gets a right copy. */
  method CopyRegion(r: Region, bindings: map<nat, nat>, next: nat) returns (copy: Region, ghost values: map<nat, nat>, ghost s: Region)
    ensures SameRegion(r, s) && CloneRegion(s, Mapping(bindings, next)).tree == copy
    ensures Bindable(r, bindings, next) && Acyclic(r) ==> IsCopy(r, bindings, next, copy, values, s)
  {
    var sorted := SortRegion(r);
    var context := new C.Context(bindings, next);
    copy := context.CloneNodesRegionInto(sorted);
    s, values := sorted, context.values;
    if Bindable(r, bindings, next) && Acyclic(r) {
      SortedCopies(r, s, bindings, next);
    }
  }
}
