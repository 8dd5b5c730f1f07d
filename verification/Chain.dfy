/** Generations and their reference counts. A generation is kept alive by the handles
    associated with it and by its predecessor's `next_gen` link; the last drop starts
    its destructor, which finalizes its removals and then releases that link. */
module GenerationChain {
  import opened Options

  /** Who holds a counted reference to a generation: the writer's `cur_gen`, the local
      variable of an advance in progress, a reader, or a removable-entry proxy. */
  datatype Holder = Owner | Local | Reader(id: nat) | Proxy(id: nat)

  /** `Dying`: the count reached zero. `Finalized`: the destructor's body has run.
      `Gone`: its fields have been dropped too. */
  datatype Phase = Live | Dying | Finalized | Gone

  datatype Gen = Gen(strong: nat, next: Option<nat>, phase: Phase)

  datatype Chain = Chain(gens: seq<Gen>, holders: map<Holder, nat>)

  ghost function Holding<H>(holders: map<H, nat>, g: nat): set<H> {
    set h | h in holders && holders[h] == g
  }

  ghost function Links(gens: seq<Gen>, g: nat): nat
    requires g < |gens|
  {
    if g > 0 && gens[g - 1].next == Some(g) then 1 else 0
  }

  ghost predicate CountsExact(c: Chain) {
    forall g: nat :: g < |c.gens| ==> c.gens[g].strong == |Holding(c.holders, g)| + Links(c.gens, g)
  }

  ghost predicate Linked(gens: seq<Gen>) {
    forall g: nat :: g < |gens| ==>
      gens[g].next == if g + 1 < |gens| && gens[g].phase != Gone then Some(g + 1) else None
  }

  ghost predicate PhasesMatch(gens: seq<Gen>) {
    forall g: nat :: g < |gens| ==> (gens[g].phase == Live <==> gens[g].strong > 0)
  }

  ghost predicate HoldersInRange(c: Chain) {
    && (forall h :: h in c.holders ==> c.holders[h] < |c.gens|)
    && (Local in c.holders ==>
          Owner in c.holders && c.holders[Local] == |c.gens| - 1 && c.holders[Owner] == |c.gens| - 2)
    && (Owner in c.holders && Local !in c.holders ==> c.holders[Owner] == |c.gens| - 1)
  }

  ghost predicate Inv(c: Chain) {
    |c.gens| > 0 && HoldersInRange(c) && CountsExact(c) && Linked(c.gens) && PhasesMatch(c.gens)
  }

  const START: Chain := Chain([Gen(1, None, Live)], map[Owner := 0])

  // Steps.

  ghost function Decremented(gens: seq<Gen>, g: nat): seq<Gen>
    requires g < |gens| && gens[g].strong > 0
  {
    var left := gens[g].strong - 1;
    gens[g := gens[g].(strong := left, phase := if left == 0 then Dying else gens[g].phase)]
  }

  ghost function Acquired(c: Chain, h: Holder, g: nat): Chain
    requires h !in c.holders && g < |c.gens|
  {
    Chain(c.gens[g := c.gens[g].(strong := c.gens[g].strong + 1)], c.holders[h := g])
  }

  ghost function Dropped(c: Chain, h: Holder): Chain
    requires Inv(c) && h in c.holders
  {
    HeldIsLive(c, h);
    Chain(Decremented(c.gens, c.holders[h]), c.holders - {h})
  }

  /** The first half of an advance: create the next generation and link it. */
  ghost function LinkedNext(c: Chain): Chain
    requires Inv(c) && Owner in c.holders && Local !in c.holders
  {
    var g := |c.gens|;
    Chain(c.gens[g - 1 := c.gens[g - 1].(next := Some(g))] + [Gen(2, None, Live)], c.holders[Local := g])
  }

  /** The second half: drop the writer's old generation, keeping the new one. */
  ghost function Swapped(c: Chain): Chain
    requires Inv(c) && Local in c.holders
  {
    HeldIsLive(c, Owner);
    Chain(Decremented(c.gens, c.holders[Owner]), (c.holders - {Local})[Owner := c.holders[Local]])
  }

  ghost function FinalizedGen(c: Chain, g: nat): Chain
    requires g < |c.gens|
  {
    c.(gens := c.gens[g := c.gens[g].(phase := Finalized)])
  }

  /** Dropping a finalized generation's fields releases its successor. */
  ghost function Released(c: Chain, g: nat): Chain
    requires Inv(c) && g < |c.gens| && c.gens[g].phase == Finalized
  {
    var gens := c.gens[g := c.gens[g].(phase := Gone, next := None)];
    match c.gens[g].next
    case None => c.(gens := gens)
    case Some(n) =>
      LinkIsCounted(c, g);
      c.(gens := Decremented(gens, n))
  }

  lemma HeldIsLive(c: Chain, h: Holder)
    requires Inv(c) && h in c.holders
    ensures c.holders[h] < |c.gens| && c.gens[c.holders[h]].strong > 0 && c.gens[c.holders[h]].phase == Live
  {
    assert h in Holding(c.holders, c.holders[h]);
  }

  lemma LinkIsCounted(c: Chain, g: nat)
    requires Inv(c) && g < |c.gens| && c.gens[g].next.Some?
    ensures c.gens[g].next == Some(g + 1) && g + 1 < |c.gens| && c.gens[g + 1].strong > 0
  {
    assert Links(c.gens, g + 1) == 1;
  }

  // Every step keeps the invariant.

  lemma StartIsGood()
    ensures Inv(START)
  {
    assert Holding(START.holders, 0) == {Owner};
  }

  lemma HoldingAfterAdd<H>(holders: map<H, nat>, h: H, g: nat)
    requires h !in holders
    ensures forall g': nat :: |Holding(holders[h := g], g')| == |Holding(holders, g')| + if g' == g then 1 else 0
  {
    assert Holding(holders[h := g], g) == Holding(holders, g) + {h};
    forall g': nat | g' != g
      ensures Holding(holders[h := g], g') == Holding(holders, g')
    {
    }
  }

  lemma HoldingAfterRemove<H>(holders: map<H, nat>, h: H)
    requires h in holders
    ensures forall g: nat :: |Holding(holders, g)| == |Holding(holders - {h}, g)| + if g == holders[h] then 1 else 0
  {
    assert (holders - {h})[h := holders[h]] == holders;
    HoldingAfterAdd(holders - {h}, h, holders[h]);
  }

  lemma AcquireKeeps(c: Chain, h: Holder, g: nat)
    requires Inv(c) && h !in c.holders && !h.Owner? && !h.Local?
    requires g < |c.gens| && c.gens[g].phase == Live
    ensures Inv(Acquired(c, h, g))
  {
    HoldingAfterAdd(c.holders, h, g);
  }

  lemma DropKeeps(c: Chain, h: Holder)
    requires Inv(c) && h in c.holders && (h == Owner ==> Local !in c.holders) && h != Local
    ensures Inv(Dropped(c, h))
  {
    HeldIsLive(c, h);
    HoldingAfterRemove(c.holders, h);
  }

  lemma LinkKeeps(c: Chain)
    requires Inv(c) && Owner in c.holders && Local !in c.holders
    ensures Inv(LinkedNext(c))
  {
    HeldIsLive(c, Owner);
    var g, c' := |c.gens|, LinkedNext(c);
    HoldingAfterAdd(c.holders, Local, g);
    assert Holding(c.holders, g) == {};
    assert c'.gens[g].strong == |Holding(c'.holders, g)| + Links(c'.gens, g);
    forall k: nat | k < g
      ensures c'.gens[k].strong == |Holding(c'.holders, k)| + Links(c'.gens, k)
    {
      assert Links(c'.gens, k) == Links(c.gens, k);
    }
  }

  lemma SwapKeeps(c: Chain)
    requires Inv(c) && Local in c.holders
    ensures Inv(Swapped(c))
  {
    HeldIsLive(c, Owner);
    HoldingAfterSwap(c.holders);
  }

  /** The writer's reference is dropped and the local variable's becomes the writer's. */
  lemma HoldingAfterSwap(holders: map<Holder, nat>)
    requires Local in holders && Owner in holders
    ensures forall g: nat :: |Holding(holders, g)|
              == |Holding((holders - {Local})[Owner := holders[Local]], g)| + if g == holders[Owner] then 1 else 0
  {
    var bare := holders - {Local} - {Owner};
    HoldingAfterRemove(holders, Local);
    HoldingAfterRemove(holders - {Local}, Owner);
    HoldingAfterAdd(bare, Owner, holders[Local]);
    assert (holders - {Local})[Owner := holders[Local]] == bare[Owner := holders[Local]];
  }

  lemma FinalizeKeeps(c: Chain, g: nat)
    requires Inv(c) && g < |c.gens| && c.gens[g].phase == Dying
    ensures Inv(FinalizedGen(c, g))
  {
  }

  lemma ReleaseKeeps(c: Chain, g: nat)
    requires Inv(c) && g < |c.gens| && c.gens[g].phase == Finalized
    ensures Inv(Released(c, g))
  {
    if c.gens[g].next.Some? {
      LinkIsCounted(c, g);
    }
  }

  // What the invariant says about finalization.

  /** A generation outlives every predecessor that is not gone yet. */
  lemma SuccessorOfLivingIsLive(c: Chain, g: nat)
    requires Inv(c) && g + 1 < |c.gens| && c.gens[g].phase != Gone
    ensures c.gens[g + 1].phase == Live
  {
    LinkIsCounted(c, g);
  }

  /** Everything after a generation that is not gone is live. */
  lemma {:induction false} LaterAreLive(c: Chain, g: nat, k: nat)
    requires Inv(c) && g < k < |c.gens| && c.gens[g].phase != Gone
    ensures c.gens[k].phase == Live
    decreases k - g
  {
    SuccessorOfLivingIsLive(c, g);
    if g + 1 < k {
      LaterAreLive(c, g + 1, k);
    }
  }

  /** Finalization follows creation order: when a generation's destructor runs, all
      earlier ones are gone, all later ones are live, and nobody holds it or older. */
  lemma FinalizedInOrder(c: Chain, g: nat)
    requires Inv(c) && g < |c.gens| && c.gens[g].phase != Live
    ensures forall k: nat :: k < g ==> c.gens[k].phase == Gone
    ensures c.gens[g].phase != Gone ==> forall k: nat :: g < k < |c.gens| ==> c.gens[k].phase == Live
    ensures forall h :: h in c.holders ==> c.holders[h] > g
  {
    forall k: nat | k < g
      ensures c.gens[k].phase == Gone
    {
      if c.gens[k].phase != Gone {
        LaterAreLive(c, k, g);
      }
    }
    if c.gens[g].phase != Gone {
      forall k: nat | g < k < |c.gens|
        ensures c.gens[k].phase == Live
      {
        LaterAreLive(c, g, k);
      }
    }
    forall h | h in c.holders
      ensures c.holders[h] > g
    {
      HeldIsLive(c, h);
    }
  }

  ghost predicate Quiescent(c: Chain) {
    forall g: nat :: g < |c.gens| ==> c.gens[g].phase == Live || c.gens[g].phase == Gone
  }

  /** Some handle belongs to generation `g` or an older one. */
  ghost predicate Pinned(c: Chain, g: nat) {
    exists h :: h in c.holders && c.holders[h] <= g
  }

  lemma HeldPins(c: Chain, g: nat)
    ensures Holding(c.holders, g) != {} ==> Pinned(c, g)
  {
    if Holding(c.holders, g) != {} {
      var h :| h in Holding(c.holders, g);
      assert h in c.holders && c.holders[h] <= g;
    }
  }

  /** With no drop in progress, a generation is gone exactly when nothing pins it. */
  lemma {:induction false} GoneExactlyWhenUnpinned(c: Chain, g: nat)
    requires Inv(c) && Quiescent(c) && g < |c.gens|
    ensures c.gens[g].phase == Gone <==> !Pinned(c, g)
  {
    if c.gens[g].phase == Gone {
      FinalizedInOrder(c, g);
    } else if Links(c.gens, g) == 1 {
      GoneExactlyWhenUnpinned(c, g - 1);
      assert Pinned(c, g - 1);
    } else {
      HeldPins(c, g);
    }
  }

  // The cascade a drop sets off.

  /** Run destructors from `g` up until one is not due. */
  ghost function Settled(c: Chain, g: nat): (c': Chain)
    requires Inv(c)
    ensures Inv(c') && c'.holders == c.holders && |c'.gens| == |c.gens|
    decreases |c.gens| - g
  {
    if g < |c.gens| && c.gens[g].phase == Dying then
      FinalizeKeeps(c, g);
      ReleaseKeeps(FinalizedGen(c, g), g);
      Settled(Released(FinalizedGen(c, g), g), g + 1)
    else c
  }

  /** No destructor is due except possibly at `g`. */
  ghost predicate QuiescentBut(c: Chain, g: nat) {
    forall k: nat :: k < |c.gens| && k != g ==> c.gens[k].phase == Live || c.gens[k].phase == Gone
  }

  lemma {:induction false} CascadeSettles(c: Chain, g: nat)
    requires Inv(c) && QuiescentBut(c, g)
    requires g < |c.gens| ==> c.gens[g].phase != Finalized
    ensures Quiescent(Settled(c, g))
    decreases |c.gens| - g
  {
    if g < |c.gens| && c.gens[g].phase == Dying {
      FinalizeKeeps(c, g);
      var f := FinalizedGen(c, g);
      ReleaseKeeps(f, g);
      if f.gens[g].next.Some? {
        LinkIsCounted(f, g);
      }
      CascadeSettles(Released(f, g), g + 1);
    }
  }

  lemma StillPinned(c: Chain, h: Holder, g: nat)
    requires Inv(c) && h in c.holders && Pinned(c, g) && c.holders[h] > g
    ensures Pinned(Dropped(c, h), g)
  {
    var k :| k in c.holders && c.holders[k] <= g;
    assert k in Dropped(c, h).holders && Dropped(c, h).holders[k] <= g;
  }

  /** Dropping one handle finalizes exactly the generations it alone was pinning: a
      run of generations no older than its own. */
  lemma DropFinalizesUnpinnedRun(c: Chain, h: Holder, g: nat)
    requires Inv(c) && Quiescent(c)
    requires h in c.holders && h != Local && (h == Owner ==> Local !in c.holders)
    requires g < |c.gens|
    ensures Inv(Dropped(c, h))
    ensures var c' := Settled(Dropped(c, h), c.holders[h]);
            && Quiescent(c')
            && (c'.gens[g].phase == Gone <==> !Pinned(Dropped(c, h), g))
            && (c.gens[g].phase != Gone && c'.gens[g].phase == Gone <==>
                  Pinned(c, g) && !Pinned(Dropped(c, h), g))
            && (c.gens[g].phase != Gone && c'.gens[g].phase == Gone ==> g >= c.holders[h])
  {
    DropKeeps(c, h);
    HeldIsLive(c, h);
    var d := Dropped(c, h);
    CascadeSettles(d, c.holders[h]);
    GoneExactlyWhenUnpinned(Settled(d, c.holders[h]), g);
    GoneExactlyWhenUnpinned(c, g);
    if Pinned(c, g) && c.holders[h] > g {
      StillPinned(c, h, g);
    }
  }
}
