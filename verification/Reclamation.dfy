/** The slab with generations as one thread sees it: what a call leaves behind once the
    destructors it sets off have run. */
module Reclamation {
  import opened Options
  import opened SlabSpec
  import opened GenerationChain
  import opened RcuMachine
  import opened RcuHandleSteps
  import opened RcuAccessSteps
  import opened RcuStoreSteps

  /** The slab, its generations, the removals recorded in each, and the items destroyed
      so far, in order. */
  datatype Managed<T> = Managed(slab: Slab<T>, chain: Chain, pend: seq<seq<nat>>, destroyed: seq<T>)

  /** Every slot marked and not yet finalized is recorded once, in a generation whose
      destructor has not run. */
  ghost predicate Recording<T>(slab: Slab<T>, gens: seq<Gen>, pend: seq<seq<nat>>) {
    WellFormed(slab) && |pend| == |gens| && PendOk(slab, gens, pend, None, map[])
  }

  ghost predicate Coherent<T>(v: Managed<T>) {
    Inv(v.chain) && Recording(v.slab, v.chain.gens, v.pend)
  }

  ghost function Initial<T>(capacity: nat): Managed<T> {
    Managed(Fresh(capacity), START, [[]], [])
  }

  lemma InitialIsCoherent<T>(capacity: nat)
    ensures Coherent(Initial<T>(capacity)) && Quiescent(Initial<T>(capacity).chain)
  {
    GenerationChain.StartIsGood();
    assert forall g: nat, i: nat :: !RecordedIn(Initial<T>(capacity).pend, g, i);
  }

  // Calls.

  ghost function Removed<T>(v: Managed<T>, g: nat, i: nat): Managed<T>
    requires Coherent(v) && g < |v.pend|
  {
    v.(slab := Marked(v.slab, i), pend := RecordedAlso(v.pend, g, i))
  }

  lemma InsertIsCoherent<T>(v: Managed<T>, x: T)
    requires Coherent(v) && v.slab.free != []
    ensures Coherent(v.(slab := Inserted(v.slab, x)))
  {
    assert v.slab.free[0] in v.slab.free;
    assert Pending(Inserted(v.slab, x)) == Pending(v.slab);
    PendSlabFrame(v.slab, Inserted(v.slab, x), v.chain.gens, v.pend, None, map[]);
  }

  lemma RemovedIsCoherent<T>(v: Managed<T>, g: nat, i: nat)
    requires Coherent(v) && g < |v.pend| && v.chain.gens[g].phase == Live && i in v.slab.present
    ensures Coherent(Removed(v, g, i))
    ensures var v' := Removed(v, g, i);
            && v'.slab == v.slab.(present := v.slab.present - {i}) && v'.chain == v.chain && v'.destroyed == v.destroyed
            && forall k: nat, j: nat :: RecordedIn(v'.pend, k, j) <==> RecordedIn(v.pend, k, j) || (k == g && j == i)
  {
    var pend' := RecordedAlso(v.pend, g, i);
    assert forall k: nat :: RecordedIn(v.pend, k, i) ==> i in Pending(v.slab);
    PushNoRepeats(v.pend, g, i);
    assert Pending(Marked(v.slab, i)) == Pending(v.slab) + {i};
    forall k: nat, j: nat
      ensures RecordedIn(pend', k, j) <==> RecordedIn(v.pend, k, j) || (k == g && j == i)
    {
    }
    forall j: nat | j in Pending(Marked(v.slab, i))
      ensures exists k: nat :: RecordedIn(pend', k, j)
    {
      if j == i {
        assert RecordedIn(pend', g, i);
      } else {
        AwaitedSomewhere(v.slab, v.chain.gens, v.pend, j);
        var k: nat :| RecordedIn(v.pend, k, j);
        assert RecordedIn(pend', k, j);
      }
    }
  }

  lemma AwaitedSomewhere<T>(slab: Slab<T>, gens: seq<Gen>, pend: seq<seq<nat>>, i: nat)
    requires PendOk(slab, gens, pend, None, map[]) && i in Pending(slab)
    ensures exists g: nat :: RecordedIn(pend, g, i)
  {
    assert forall h :: !Flying(None, map[], h, i);
  }

  /** The next generation, linked and made current; the old one no longer the writer's. */
  ghost function Advanced<T>(v: Managed<T>): Managed<T>
    requires Coherent(v) && Owner in v.chain.holders && Local !in v.chain.holders
  {
    LinkKeeps(v.chain);
    v.(chain := Swapped(LinkedNext(v.chain)), pend := v.pend + [[]])
  }

  lemma AdvancedIsCoherent<T>(v: Managed<T>)
    requires Coherent(v) && Owner in v.chain.holders && Local !in v.chain.holders
    ensures Coherent(Advanced(v))
  {
    LinkKeeps(v.chain);
    SwapKeeps(LinkedNext(v.chain));
    PendGrows(v.slab, v.chain.gens, LinkedNext(v.chain).gens, v.pend, None, map[]);
    PendFrame(v.slab, LinkedNext(v.chain).gens, Advanced(v).chain.gens, v.pend + [[]], None, map[]);
  }

  /** An advance, field by field. */
  lemma AdvancedParts<T>(v: Managed<T>, g: nat)
    requires Coherent(v) && Owner in v.chain.holders && Local !in v.chain.holders && v.chain.holders[Owner] == g
    ensures g == |v.chain.gens| - 1 && v.chain.gens[g].strong > 0
    ensures
      var linked := v.chain.gens[g := v.chain.gens[g].(next := Some(g + 1))] + [Gen(2, None, Live)];
      Advanced(v)
      == v.(chain := Chain(Decremented(linked, g), v.chain.holders[Owner := g + 1]), pend := v.pend + [[]])
  {
    HeldIsLive(v.chain, Owner);
    LinkKeeps(v.chain);
    var c := LinkedNext(v.chain);
    assert (c.holders - {Local})[Owner := c.holders[Local]] == v.chain.holders[Owner := g + 1];
  }

  ghost function Unheld<T>(v: Managed<T>, h: Holder): Managed<T>
    requires Coherent(v) && h in v.chain.holders
  {
    v.(chain := Dropped(v.chain, h))
  }

  lemma AcquireIsCoherent<T>(v: Managed<T>, h: Holder, g: nat)
    requires Coherent(v) && h !in v.chain.holders && !h.Owner? && !h.Local?
    requires g < |v.chain.gens| && v.chain.gens[g].phase == Live
    ensures Coherent(v.(chain := Acquired(v.chain, h, g)))
  {
    AcquireKeeps(v.chain, h, g);
    PendFrame(v.slab, v.chain.gens, Acquired(v.chain, h, g).gens, v.pend, None, map[]);
  }

  lemma UnheldIsCoherent<T>(v: Managed<T>, h: Holder)
    requires Coherent(v) && h in v.chain.holders && !h.Owner? && !h.Local?
    ensures Coherent(Unheld(v, h))
    ensures Quiescent(v.chain) ==> QuiescentBut(Unheld(v, h).chain, v.chain.holders[h])
  {
    DropKeeps(v.chain, h);
    HeldIsLive(v.chain, h);
    PendFrame(v.slab, v.chain.gens, Unheld(v, h).chain.gens, v.pend, None, map[]);
  }

  // Destructors.

  /** One generation's destructor: finalize what was recorded in it, then let go of its
      successor. */
  ghost function OneReclaimed<T>(v: Managed<T>, g: nat): (v': Managed<T>)
    requires Coherent(v) && g < |v.pend| && v.chain.gens[g].phase == Dying
    ensures Coherent(v') && |v'.pend| == |v.pend|
  {
    ListIsClean(v, g);
    FinalizePend(v.slab, v.chain.gens, v.pend, None, map[], g);
    FinalizeKeeps(v.chain, g);
    ReleaseKeeps(FinalizedGen(v.chain, g), g);
    var chain := Released(FinalizedGen(v.chain, g), g);
    var slab, pend := FinalizedAll(v.slab, v.pend[g]), v.pend[g := []];
    PendFrame(slab, FinalizedGen(v.chain, g).gens, chain.gens, pend, None, map[]);
    Managed(slab, chain, pend, v.destroyed + ItemsAt(v.slab.items, v.pend[g]))
  }

  lemma OneReclaimedParts<T>(v: Managed<T>, g: nat, slab: Slab<T>, chain: Chain, items: seq<T>)
    requires Coherent(v) && g < |v.pend| && v.chain.gens[g].phase == Dying
    requires Clean(v.slab, v.pend[g]) && Inv(FinalizedGen(v.chain, g))
    requires slab == FinalizedAll(v.slab, v.pend[g]) && chain == Released(FinalizedGen(v.chain, g), g)
    requires items == ItemsAt(v.slab.items, v.pend[g])
    ensures Managed(slab, chain, v.pend[g := []], v.destroyed + items) == OneReclaimed(v, g)
  {
  }

  /** `slab` is `before` partway through finalizing `list`: `rest` to go, `items` taken. */
  ghost predicate Finalizing<T>(before: Slab<T>, list: seq<nat>, slab: Slab<T>, rest: seq<nat>, items: seq<T>) {
    && Clean(before, list) && Clean(slab, rest)
    && FinalizedAll(slab, rest) == FinalizedAll(before, list)
    && items + ItemsAt(slab.items, rest) == ItemsAt(before.items, list)
  }

  lemma FinalizingNext<T>(before: Slab<T>, list: seq<nat>, slab: Slab<T>, rest: seq<nat>, items: seq<T>)
    requires Finalizing(before, list, slab, rest, items) && rest != []
    ensures rest[0] in Pending(slab)
    ensures Finalizing(before, list, SlabSpec.Finalized(slab, rest[0]), rest[1..], items + [slab.items[rest[0]]])
  {
    FinalizeFirst(slab, rest);
    var tail := ItemsAt(SlabSpec.Finalized(slab, rest[0]).items, rest[1..]);
    assert items + ([slab.items[rest[0]]] + tail) == items + [slab.items[rest[0]]] + tail;
  }

  lemma ListIsClean<T>(v: Managed<T>, g: nat)
    requires Coherent(v) && g < |v.pend|
    ensures Clean(v.slab, v.pend[g])
  {
    PendingListIsClean(v.slab, v.chain.gens, v.pend, None, map[], g);
  }

  /** All destructors due from `g` on. */
  ghost function Reclaimed<T>(v: Managed<T>, g: nat): (v': Managed<T>)
    requires Coherent(v)
    ensures Coherent(v') && v'.chain == Settled(v.chain, g) && |v'.pend| == |v.pend|
    decreases |v.pend| - g
  {
    if g < |v.pend| && v.chain.gens[g].phase == Dying then Reclaimed(OneReclaimed(v, g), g + 1) else v
  }

  /** The slots of a chain's gone generations' recorded removals. */
  ghost predicate Collected(pend: seq<seq<nat>>, gens: seq<Gen>, i: nat) {
    exists g: nat :: g < |gens| && RecordedIn(pend, g, i) && gens[g].phase == Gone
  }

  /** Exactly the removals recorded in the generations that went are finalized, and
      nothing else is touched. */
  ghost predicate CollectedExactly<T>(v: Managed<T>, v': Managed<T>)
    requires |v.pend| == |v'.pend| == |v.chain.gens| == |v'.chain.gens|
  {
    && v'.slab.present == v.slab.present && v'.slab.capacity == v.slab.capacity
    && (forall i: nat :: i in v'.slab.items <==> i in v.slab.items && !Collected(v.pend, v'.chain.gens, i))
    && (forall i: nat :: i in v'.slab.items ==> v'.slab.items[i] == v.slab.items[i])
    && (forall g: nat :: g < |v.pend| ==> v'.pend[g] == if v'.chain.gens[g].phase == Gone then [] else v.pend[g])
    && exists list :: Destroys(v, v', list)
  }

  /** The items destroyed between `v` and `v'` are those of the slots freed, which `list`
      names, once each, in the order of destruction. */
  ghost predicate Destroys<T>(v: Managed<T>, v': Managed<T>, list: seq<nat>) {
    && NoDuplicates(list) && (forall i: nat :: i in list <==> i in v.slab.items && i !in v'.slab.items)
    && (forall n :: 0 <= n < |list| ==> list[n] in v.slab.items)
    && v'.destroyed == v.destroyed + ItemsAt(v.slab.items, list)
  }

  lemma NothingCollected<T>(v: Managed<T>)
    requires Coherent(v)
    ensures CollectedExactly(v, v)
  {
    assert forall i: nat :: !Collected(v.pend, v.chain.gens, i);
    assert Destroys(v, v, []);
  }

  lemma OneIsCollected<T>(v: Managed<T>, g: nat)
    requires Coherent(v) && QuiescentBut(v.chain, g) && g < |v.pend| && v.chain.gens[g].phase == Dying
    ensures CollectedExactly(v, OneReclaimed(v, g))
  {
    var v' := OneReclaimed(v, g);
    ListIsClean(v, g);
    NextMayBeDue(v.chain, g);
    forall i: nat
      ensures Collected(v.pend, v'.chain.gens, i) <==> i in v.pend[g]
    {
      if i in v.pend[g] {
        assert RecordedIn(v.pend, g, i);
      }
    }
    assert Destroys(v, v', v.pend[g]);
  }

  lemma NextMayBeDue(c: Chain, g: nat)
    requires Inv(c) && QuiescentBut(c, g) && g < |c.gens| && c.gens[g].phase == Dying
    ensures Inv(FinalizedGen(c, g))
    ensures var c' := Released(FinalizedGen(c, g), g);
            && |c'.gens| == |c.gens| && QuiescentBut(c', g + 1)
            && (g + 1 < |c'.gens| ==> c'.gens[g + 1].phase != Finalized)
            && forall k: nat :: k < |c.gens| ==> (c'.gens[k].phase == Gone <==> k == g || c.gens[k].phase == Gone)
  {
    FinalizeKeeps(c, g);
    var f := FinalizedGen(c, g);
    if f.gens[g].next.Some? {
      LinkIsCounted(f, g);
    }
  }

  lemma {:induction false} StillGone(c: Chain, g: nat, k: nat)
    requires Inv(c) && k < |c.gens| && c.gens[k].phase == Gone
    ensures Settled(c, g).gens[k].phase == Gone
    decreases |c.gens| - g
  {
    if g < |c.gens| && c.gens[g].phase == Dying {
      FinalizeKeeps(c, g);
      ReleaseKeeps(FinalizedGen(c, g), g);
      if c.gens[g].next.Some? {
        LinkIsCounted(FinalizedGen(c, g), g);
      }
      StillGone(Released(FinalizedGen(c, g), g), g + 1, k);
    }
  }

  lemma DestroyThenMore<T>(v: Managed<T>, v1: Managed<T>, v2: Managed<T>, list1: seq<nat>, list2: seq<nat>)
    requires Destroys(v, v1, list1) && Destroys(v1, v2, list2)
    requires forall i: nat :: i in v1.slab.items ==> i in v.slab.items && v1.slab.items[i] == v.slab.items[i]
    requires forall i: nat :: i in v2.slab.items ==> i in v1.slab.items
    ensures Destroys(v, v2, list1 + list2)
  {
    assert forall n :: 0 <= n < |list1| ==> list1[n] in list1;
    assert forall n :: 0 <= n < |list2| ==> list2[n] in list2;
    assert ItemsAt(v.slab.items, list1 + list2) == ItemsAt(v.slab.items, list1) + ItemsAt(v1.slab.items, list2);
  }

  lemma CollectedEither<T>(v: Managed<T>, v1: Managed<T>, v2: Managed<T>, i: nat)
    requires |v.pend| == |v1.pend| == |v2.pend| == |v.chain.gens| == |v1.chain.gens| == |v2.chain.gens|
    requires forall g: nat :: g < |v.pend| ==> v1.pend[g] == if v1.chain.gens[g].phase == Gone then [] else v.pend[g]
    requires forall k: nat :: k < |v.pend| && v1.chain.gens[k].phase == Gone ==> v2.chain.gens[k].phase == Gone
    ensures Collected(v.pend, v2.chain.gens, i) <==>
            Collected(v.pend, v1.chain.gens, i) || Collected(v1.pend, v2.chain.gens, i)
  {
    if Collected(v.pend, v1.chain.gens, i) {
      var k: nat :| k < |v.pend| && RecordedIn(v.pend, k, i) && v1.chain.gens[k].phase == Gone;
      assert v2.chain.gens[k].phase == Gone;
    } else if Collected(v1.pend, v2.chain.gens, i) {
      var k: nat :| k < |v.pend| && RecordedIn(v1.pend, k, i) && v2.chain.gens[k].phase == Gone;
      assert RecordedIn(v.pend, k, i);
    }
  }

  lemma CollectThenMore<T>(v: Managed<T>, v1: Managed<T>, v2: Managed<T>)
    requires |v.pend| == |v1.pend| == |v2.pend| == |v.chain.gens| == |v1.chain.gens| == |v2.chain.gens|
    requires CollectedExactly(v, v1) && CollectedExactly(v1, v2)
    requires forall k: nat :: k < |v.pend| && v1.chain.gens[k].phase == Gone ==> v2.chain.gens[k].phase == Gone
    ensures CollectedExactly(v, v2)
  {
    var list1 :| Destroys(v, v1, list1);
    var list2 :| Destroys(v1, v2, list2);
    DestroyThenMore(v, v1, v2, list1, list2);
    forall i: nat
      ensures Collected(v.pend, v2.chain.gens, i) <==>
              Collected(v.pend, v1.chain.gens, i) || Collected(v1.pend, v2.chain.gens, i)
    {
      CollectedEither(v, v1, v2, i);
    }
  }

  lemma {:induction false} ReclaimsExactly<T>(v: Managed<T>, g: nat)
    requires Coherent(v) && QuiescentBut(v.chain, g) && (g < |v.pend| ==> v.chain.gens[g].phase != Finalized)
    ensures CollectedExactly(v, Reclaimed(v, g))
    decreases |v.pend| - g
  {
    if g < |v.pend| && v.chain.gens[g].phase == Dying {
      var v1 := OneReclaimed(v, g);
      OneIsCollected(v, g);
      NextMayBeDue(v.chain, g);
      ReclaimsExactly(v1, g + 1);
      forall k: nat | k < |v.pend| && v1.chain.gens[k].phase == Gone
        ensures Reclaimed(v1, g + 1).chain.gens[k].phase == Gone
      {
        StillGone(v1.chain, g + 1, k);
      }
      CollectThenMore(v, v1, Reclaimed(v1, g + 1));
    } else {
      NothingCollected(v);
    }
  }

  // Clearing.

  ghost function AllRemoved<T>(v: Managed<T>, g: nat, list: seq<nat>): Managed<T>
    requires Coherent(v) && g < |v.pend|
  {
    v.(slab := v.slab.(present := v.slab.present - Elements(list)), pend := v.pend[g := v.pend[g] + list])
  }

  lemma RemovedAlso<T>(v: Managed<T>, g: nat, list: seq<nat>, i: nat)
    requires Coherent(v) && g < |v.pend| && Coherent(AllRemoved(v, g, list))
    ensures Removed(AllRemoved(v, g, list), g, i) == AllRemoved(v, g, list + [i])
  {
    assert Elements(list + [i]) == Elements(list) + {i};
    assert v.pend[g] + list + [i] == v.pend[g] + (list + [i]);
  }

  lemma NoneRemoved<T>(v: Managed<T>, g: nat)
    requires Coherent(v) && g < |v.pend|
    ensures AllRemoved(v, g, []) == v
  {
    assert Elements<nat>([]) == {};
    assert v.pend[g] + [] == v.pend[g];
  }

  /** Taking a reference to a live generation and giving it back changes nothing. */
  lemma AcquireThenDrop(c: Chain, h: Holder, g: nat)
    requires Inv(c) && h !in c.holders && !h.Owner? && !h.Local? && g < |c.gens| && c.gens[g].phase == Live
    ensures Inv(Acquired(c, h, g)) && Dropped(Acquired(c, h, g), h) == c
  {
    AcquireKeeps(c, h, g);
    UpAndDown(c.gens, g);
    assert c.holders[h := g] - {h} == c.holders;
  }

  lemma UpAndDown(gens: seq<Gen>, g: nat)
    requires g < |gens| && gens[g].phase == Live && gens[g].strong > 0
    ensures Decremented(gens[g := gens[g].(strong := gens[g].strong + 1)], g) == gens
  {
  }

  /** With no handle but the writer's, an advance finalizes every removal at once. */
  lemma AdvanceAloneFinalizesAll<T>(v: Managed<T>)
    requires Coherent(v) && Quiescent(v.chain) && v.chain.holders.Keys == {Owner}
    ensures Coherent(Advanced(v))
    ensures Pending(Reclaimed(Advanced(v), |v.pend| - 1).slab) == {}
  {
    AdvancedIsCoherent(v);
    var a, g := Advanced(v), |v.pend| - 1;
    var r := Reclaimed(a, g);
    AdvanceIsQuiescentBut(v);
    ReclaimsExactly(a, g);
    CascadeSettles(a.chain, g);
    forall k: nat | k < |r.pend|
      ensures r.pend[k] == []
    {
      GoneExactlyWhenUnpinned(r.chain, k);
      assert r.chain.holders == a.chain.holders;
    }
    forall i: nat | i in r.slab.items
      ensures i !in Pending(r.slab)
    {
      if i in Pending(r.slab) {
        AwaitedSomewhere(r.slab, r.chain.gens, r.pend, i);
      }
    }
  }

  lemma AdvanceIsQuiescentBut<T>(v: Managed<T>)
    requires Coherent(v) && Quiescent(v.chain) && Owner in v.chain.holders && Local !in v.chain.holders
    ensures var c := Advanced(v).chain;
            Inv(c) && QuiescentBut(c, |v.pend| - 1) && c.gens[|v.pend| - 1].phase != Finalized
  {
    LinkKeeps(v.chain);
    HeldIsLive(v.chain, Owner);
    SwapKeeps(LinkedNext(v.chain));
  }

  /** A proxy taken, used to remove its slot, and dropped: only the removal remains. */
  lemma EntryRemoved<T>(v: Managed<T>, g: nat, list: seq<nat>, p: nat, i: nat)
    requires Coherent(v) && g < |v.pend| && v.chain.gens[g].phase == Live && Coherent(AllRemoved(v, g, list))
    requires Proxy(p) !in v.chain.holders && i in v.slab.present && i !in list
    ensures var a := AllRemoved(v, g, list).(chain := Acquired(v.chain, Proxy(p), g));
            && Coherent(a) && Proxy(p) in Removed(a, g, i).chain.holders && Coherent(Removed(a, g, i))
            && Coherent(Unheld(Removed(a, g, i), Proxy(p))) && Coherent(AllRemoved(v, g, list + [i]))
            && Reclaimed(Unheld(Removed(a, g, i), Proxy(p)), g) == AllRemoved(v, g, list + [i])
  {
    var w := AllRemoved(v, g, list);
    AcquireIsCoherent(w, Proxy(p), g);
    AcquireThenDrop(v.chain, Proxy(p), g);
    var a := w.(chain := Acquired(v.chain, Proxy(p), g));
    RemovedIsCoherent(a, g, i);
    UnheldIsCoherent(Removed(a, g, i), Proxy(p));
    RemovedAlso(v, g, list, i);
  }

  // What the two ways to let go of a generation leave for the destructors.

  lemma AdvanceIsReady<T>(v: Managed<T>, g: nat) returns (after: Managed<T>)
    requires Coherent(v) && Quiescent(v.chain) && Owner in v.chain.holders && Local !in v.chain.holders
    requires v.chain.holders[Owner] == g
    ensures g == |v.chain.gens| - 1 && v.chain.gens[g].strong > 0
    ensures after == Advanced(v) && Coherent(after) && QuiescentBut(after.chain, g)
    ensures g < |after.chain.gens| && after.chain.gens[g].phase != Finalized
    ensures
      var linked := v.chain.gens[g := v.chain.gens[g].(next := Some(g + 1))] + [Gen(2, None, Live)];
      after == v.(chain := Chain(Decremented(linked, g), v.chain.holders[Owner := g + 1]), pend := v.pend + [[]])
  {
    AdvancedParts(v, g);
    AdvancedIsCoherent(v);
    AdvanceIsQuiescentBut(v);
    after := Advanced(v);
  }

  lemma UnheldIsReady<T>(v: Managed<T>, h: Holder) returns (after: Managed<T>)
    requires Coherent(v) && Quiescent(v.chain) && h in v.chain.holders && !h.Owner? && !h.Local?
    ensures v.chain.holders[h] < |v.chain.gens| && v.chain.gens[v.chain.holders[h]].strong > 0
    ensures after == Unheld(v, h) && Coherent(after) && QuiescentBut(after.chain, v.chain.holders[h])
    ensures |after.chain.gens| == |v.chain.gens| && after.chain.gens[v.chain.holders[h]].phase != Finalized
    ensures after == v.(chain := Chain(Decremented(v.chain.gens, v.chain.holders[h]), v.chain.holders - {h}))
  {
    UnheldIsCoherent(v, h);
    HeldIsLive(v.chain, h);
    after := Unheld(v, h);
  }
}
