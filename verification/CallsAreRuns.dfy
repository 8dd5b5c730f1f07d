/** What one thread's calls leave behind, destructors included, is what runs of the machine
    come to: each call is a run. */
module CallsAreRuns {
  import opened Options
  import opened Paths
  import opened SlabSpec
  import opened GenerationChain
  import opened RcuMachine
  import opened RcuTheorems
  import opened RcuProgress
  import opened Reclamation

  /** A state as one thread's calls see it. */
  ghost function AsManaged(s: State): Managed<nat> {
    Managed(s.slab, s.chain, s.pend, s.destroyed)
  }

  /** No removal is in flight and no proxy can still be used. */
  ghost predicate AtRest(s: State) {
    Good(s) && s.ownerMark == None && s.entries == map[]
  }

  lemma RestIsCoherent(s: State)
    requires AtRest(s)
    ensures Coherent(AsManaged(s))
  {
  }

  /** The steps of a cascade: body and release of `n` destructors, from generation `g` on. */
  ghost function Cascade(g: nat, n: nat): seq<Step>
    decreases n
  {
    if n == 0 then [] else [FinalizeGeneration(g), ReleaseGeneration(g)] + Cascade(g + 1, n - 1)
  }

  lemma FinalizeAsManaged(s: State, g: nat)
    requires AtRest(s) && g < |s.pend| && s.chain.gens[g].phase == Dying
    ensures var s' := Next(s, FinalizeGeneration(g));
            && s'.ownerMark == None && s'.entries == map[]
            && Clean(s.slab, s.pend[g])
            && AsManaged(s') == Managed(FinalizedAll(s.slab, s.pend[g]), FinalizedGen(s.chain, g), s.pend[g := []],
                                        s.destroyed + ItemsAt(s.slab.items, s.pend[g]))
  {
    StoresAreReady(s);
  }

  lemma ReleaseAsManaged(s: State, g: nat)
    requires Good(s) && g < |s.chain.gens| && s.chain.gens[g].phase == Finalized
    ensures Next(s, ReleaseGeneration(g)) == s.(chain := Released(s.chain, g))
  {
  }

  /** One destructor, body and release. */
  lemma OneDestructorIsARun(s: State, g: nat) returns (s': State)
    requires AtRest(s) && g < |s.pend| && s.chain.gens[g].phase == Dying
    ensures Runs(s, [FinalizeGeneration(g), ReleaseGeneration(g)], s') && AtRest(s')
    ensures Coherent(AsManaged(s)) && AsManaged(s') == OneReclaimed(AsManaged(s), g) && |s'.pend| == |s.pend|
  {
    RestIsCoherent(s);
    var s1 := Take(s, FinalizeGeneration(g));
    FinalizeAsManaged(s, g);
    s' := Take(s1, ReleaseGeneration(g));
    ReleaseAsManaged(s1, g);
    PathTwo(Takes, s, FinalizeGeneration(g), s1, ReleaseGeneration(g), s');
    OneReclaimedParts(AsManaged(s), g, s'.slab, s'.chain, ItemsAt(s.slab.items, s.pend[g]));
  }

  /** The steps from `s` to `s'` are `n` destructors, and all that were due. */
  ghost predicate Cascades(s: State, g: nat, n: nat, s': State) {
    Coherent(AsManaged(s)) && Runs(s, Cascade(g, n), s') && AsManaged(s') == Reclaimed(AsManaged(s), g)
  }

  lemma NoneInCascade(s: State, g: nat)
    requires Coherent(AsManaged(s)) && !(g < |s.pend| && s.chain.gens[g].phase == Dying)
    ensures Cascades(s, g, 0, s)
  {
    ReclaimedNone(AsManaged(s), g);
    PathNone(Takes, s);
  }

  lemma OneMoreInCascade(s: State, g: nat, s1: State, n: nat, s': State)
    requires Coherent(AsManaged(s)) && g < |s.pend| && s.chain.gens[g].phase == Dying
    requires Runs(s, [FinalizeGeneration(g), ReleaseGeneration(g)], s1)
    requires AsManaged(s1) == OneReclaimed(AsManaged(s), g) && Cascades(s1, g + 1, n, s')
    ensures Cascades(s, g, n + 1, s')
  {
    ReclaimedOnce(AsManaged(s), g);
    PathThenPath(Takes, s, [FinalizeGeneration(g), ReleaseGeneration(g)], s1, Cascade(g + 1, n), s');
  }

  /** The destructors that follow a last drop. */
  lemma {:induction false} CascadeIsARun(s: State, g: nat) returns (n: nat, s': State)
    requires AtRest(s)
    ensures Cascades(s, g, n, s') && AtRest(s')
    decreases |s.pend| - g
  {
    RestIsCoherent(s);
    if g < |s.pend| && s.chain.gens[g].phase == Dying {
      var s1 := OneDestructorIsARun(s, g);
      n, s' := CascadeIsARun(s1, g + 1);
      OneMoreInCascade(s, g, s1, n, s');
      n := n + 1;
    } else {
      n, s' := 0, s;
      NoneInCascade(s, g);
    }
  }

  lemma ReclaimedOnce(v: Managed<nat>, g: nat)
    requires Coherent(v) && g < |v.pend| && v.chain.gens[g].phase == Dying
    ensures Reclaimed(v, g) == Reclaimed(OneReclaimed(v, g), g + 1)
  {
  }

  lemma ReclaimedNone(v: Managed<nat>, g: nat)
    requires Coherent(v) && !(g < |v.pend| && v.chain.gens[g].phase == Dying)
    ensures Reclaimed(v, g) == v
  {
  }

  /** `advance_generation`. */
  lemma AdvanceIsARun(s: State) returns (n: nat, s': State)
    requires AtRest(s) && OwnerFree(s)
    ensures Runs(s, [LinkGeneration, SwapGeneration] + Cascade(s.chain.holders[Owner], n), s') && AtRest(s')
    ensures Coherent(AsManaged(s)) && Local !in s.chain.holders && Coherent(Advanced(AsManaged(s)))
    ensures AsManaged(s') == Reclaimed(Advanced(AsManaged(s)), s.chain.holders[Owner])
  {
    RestIsCoherent(s);
    var s1 := AdvanceAsManaged(s);
    var m, last := CascadeIsARun(s1, s.chain.holders[Owner]);
    n, s' := m, last;
    PathThenPath(Takes, s, [LinkGeneration, SwapGeneration], s1, Cascade(s.chain.holders[Owner], n), s');
  }

  lemma AdvanceAsManaged(s: State) returns (s': State)
    requires AtRest(s) && OwnerFree(s)
    ensures Runs(s, [LinkGeneration, SwapGeneration], s') && AtRest(s')
    ensures Coherent(AsManaged(s)) && Local !in s.chain.holders
    ensures AsManaged(s') == Advanced(AsManaged(s))
  {
    RestIsCoherent(s);
    var s1 := Take(s, LinkGeneration);
    assert s1 == AfterLink(s);
    s' := Take(s1, SwapGeneration);
    assert s' == AfterSwap(s1);
    PathTwo(Takes, s, LinkGeneration, s1, SwapGeneration, s');
  }

  /** Dropping a reader nobody uses, with everything that sets off. */
  lemma DropIsARun(s: State, id: nat) returns (n: nat, s': State)
    requires AtRest(s) && Reader(id) in s.chain.holders
    requires forall t :: t in s.observers ==> s.observers[t].reader != id
    ensures Runs(s, [DropReader(id)] + Cascade(s.chain.holders[Reader(id)], n), s') && AtRest(s')
    ensures Coherent(AsManaged(s)) && Coherent(Unheld(AsManaged(s), Reader(id)))
    ensures AsManaged(s') == Reclaimed(Unheld(AsManaged(s), Reader(id)), s.chain.holders[Reader(id)])
  {
    RestIsCoherent(s);
    UnheldIsCoherent(AsManaged(s), Reader(id));
    var s1 := Take(s, DropReader(id));
    assert s1 == AfterDrop(s, Reader(id));
    var m, last := CascadeIsARun(s1, s.chain.holders[Reader(id)]);
    n, s' := m, last;
    PathFirst(Takes, s, DropReader(id), s1, Cascade(s.chain.holders[Reader(id)], n), s');
  }

  /** Creating a reader, and cloning one: a reference more to the generation it belongs to,
      the writer's or its source's. */
  lemma ReaderIsARun(s: State, id: nat) returns (s': State)
    requires AtRest(s) && OwnerFree(s) && Reader(id) !in s.chain.holders
    ensures Runs(s, [NewReader(id)], s') && AtRest(s')
    ensures s.chain.holders[Owner] < |s.chain.gens|
    ensures AsManaged(s') == AsManaged(s).(chain := Acquired(s.chain, Reader(id), s.chain.holders[Owner]))
  {
    HeldIsLive(s.chain, Owner);
    s' := Take(s, NewReader(id));
    assert s' == AfterNewReader(s, id, Owner);
    PathOne(Takes, s, NewReader(id), s');
  }

  lemma CloneIsARun(s: State, source: nat, id: nat) returns (s': State)
    requires AtRest(s) && Reader(source) in s.chain.holders && Reader(id) !in s.chain.holders
    ensures Runs(s, [CloneReader(source, id)], s') && AtRest(s')
    ensures s.chain.holders[Reader(source)] < |s.chain.gens|
    ensures AsManaged(s') == AsManaged(s).(chain := Acquired(s.chain, Reader(id), s.chain.holders[Reader(source)]))
  {
    HeldIsLive(s.chain, Reader(source));
    s' := Take(s, CloneReader(source, id));
    assert s' == AfterNewReader(s, id, Reader(source));
    PathOne(Takes, s, CloneReader(source, id), s');
  }

  /** `mark_removed`. */
  lemma RemovalIsARun(s: State, i: nat) returns (s': State)
    requires AtRest(s) && OwnerFree(s) && i in s.slab.present
    ensures Runs(s, [Mark(Owner, i), Push(Owner)], s') && AtRest(s')
    ensures Coherent(AsManaged(s)) && s.chain.holders[Owner] < |s.pend|
    ensures AsManaged(s') == Removed(AsManaged(s), s.chain.holders[Owner], i)
  {
    RestIsCoherent(s);
    s' := RemovalNeverWaits(s, i);
  }

  /** `insert`, when there is room. */
  lemma InsertIsARun(s: State) returns (s': State)
    requires AtRest(s) && OwnerFree(s) && s.slab.free != []
    ensures Runs(s, [Insert], s') && AtRest(s')
    ensures AsManaged(s') == AsManaged(s).(slab := Inserted(s.slab, s.inserted))
  {
    s' := Take(s, Insert);
    InsertFacts(s);
    PathOne(Takes, s, Insert, s');
  }
}
