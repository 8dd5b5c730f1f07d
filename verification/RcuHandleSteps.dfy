/** Steps that create, link, hand over or drop handles keep the invariant. */
module RcuHandleSteps {
  import opened Options
  import opened SlabSpec
  import opened GenerationChain
  import opened RcuMachine

  lemma PendFrame<T>(
    slab: Slab<T>, gens: seq<Gen>, gens': seq<Gen>, pend: seq<seq<nat>>, ownerMark: Option<nat>,
    entries: map<nat, Entry>)
    requires PendOk(slab, gens, pend, ownerMark, entries)
    requires forall g: nat :: g < |pend| && g < |gens'| && gens'[g].phase in {Finalized, Gone} ==> pend[g] == []
    ensures PendOk(slab, gens', pend, ownerMark, entries)
  {
  }

  /** Handle `h` belongs to the same generation, and has seen the same, in `s` and `s'`. */
  ghost predicate Stays(s: State, s': State, h: Holder) {
    && h in s.views && h in s'.views && s'.views[h] == s.views[h]
    && h in s.chain.holders && h in s'.chain.holders && s'.chain.holders[h] == s.chain.holders[h]
  }

  /** Nothing a handle relies on changes between `s` and `s'`, except that handles and
      observers may leave, observers may come, and the writer may change generation. */
  ghost predicate Quiet(s: State, s': State) {
    && s'.mem == s.mem && s'.slab == s.slab && s'.entries == s.entries
    && (s'.mode == s.mode || !s'.mode.Iterating?)
    && (forall g: nat, i: nat :: RecordedIn(s'.pend, g, i) ==> RecordedIn(s.pend, g, i))
    && (Owner in s'.views ==> Owner in s.views && s'.views[Owner] == s.views[Owner])
    && (forall h :: h in s'.views && h != Owner ==> Stays(s, s', h))
    && (forall p :: p in s.entries ==> Proxy(p) in s'.views)
    && (forall t :: t in s'.observers ==>
          s'.observers[t].seen == map[] || (t in s.observers && s'.observers[t] == s.observers[t]))
    && (forall r :: r in s'.found ==> r in s.found && s'.found[r] == s.found[r])
  }

  /** What the writer and its proxies had seen between them, they still have. */
  lemma StillSeen(s: State, s': State, w: nat)
    requires SeenByWriter(s, w)
    requires Knows(s, Owner, w) ==> Knows(s', Owner, w)
    requires forall p :: p in s.entries && Knows(s, Proxy(p), w) ==>
               (p in s'.entries && Knows(s', Proxy(p), w)) || Knows(s', Owner, w)
    ensures SeenByWriter(s', w)
  {
  }

  lemma QuietOwner(s: State, s': State)
    requires Quiet(s, s') && OwnerOk(s)
    requires Owner in s'.chain.holders ==> Owner in s'.views && Owner in s.chain.holders
    ensures OwnerOk(s')
  {
    if Owner in s'.chain.holders {
      forall w: nat
        ensures SeenByWriter(s', w)
      {
        assert SeenByWriter(s, w);
        StillSeen(s, s', w);
      }
    }
  }

  lemma QuietReaders(s: State, s': State)
    requires Quiet(s, s') && ReadersOk(s) && forall r :: Reader(r) in s'.chain.holders ==> Reader(r) in s'.views
    ensures ReadersOk(s')
  {
    forall r | Reader(r) in s'.chain.holders
      ensures ReaderGuarded(s', r)
    {
      assert Stays(s, s', Reader(r)) && ReaderGuarded(s, r);
    }
  }

  lemma QuietReferences(s: State, s': State)
    requires Quiet(s, s') && ReferencesOk(s)
    requires forall t :: t in s'.observers ==> Reader(s'.observers[t].reader) in s'.views
    ensures ReferencesOk(s')
  {
    forall t, i | t in s'.observers && i in s'.observers[t].seen
      ensures ObserverHolds(s', t, i)
    {
      assert ObserverHolds(s, t, i) && Stays(s, s', Reader(s.observers[t].reader));
    }
    forall p | p in s'.entries
      ensures EntryHolds(s', p)
    {
      assert EntryHolds(s, p);
    }
  }

  lemma QuietFound(s: State, s': State)
    requires Quiet(s, s') && FoundOk(s) && forall r :: r in s'.found ==> Reader(r) in s'.views
    ensures FoundOk(s')
  {
    forall r, i: nat | r in s'.found && i in s'.found[r]
      ensures ReaderKeeps(s', r, i)
    {
      assert ReaderKeeps(s, r, i) && Stays(s, s', Reader(r));
    }
  }

  lemma QuietKeeps(s: State, s': State)
    requires Typed(s) && Typed(s') && Quiet(s, s')
    requires OwnerOk(s) && ReadersOk(s) && ReferencesOk(s) && FoundOk(s)
    ensures OwnerOk(s') && ReadersOk(s') && ReferencesOk(s') && FoundOk(s')
  {
    ReadersOfObservers(s');
    QuietOwner(s, s');
    QuietReaders(s, s');
    QuietReferences(s, s');
    QuietFound(s, s');
  }

  lemma ObserversStay(s: State, s': State)
    requires Typed(s) && s'.mem == s.mem && s'.observers == s.observers
    requires s'.views.Keys == s'.chain.holders.Keys - {Local}
    requires forall t :: t in s.observers ==>
               && Reader(s.observers[t].reader) in s'.views
               && s'.views[Reader(s.observers[t].reader)] == s.views[Reader(s.observers[t].reader)]
    ensures forall t :: t in s'.observers ==> Observing(s', s'.observers[t])
  {
    forall t | t in s'.observers
      ensures Observing(s', s'.observers[t])
    {
      assert Observing(s, s.observers[t]);
    }
  }

  lemma ReadersOfObservers(s: State)
    requires Typed(s)
    ensures forall t :: t in s.observers ==> Reader(s.observers[t].reader) in s.views
  {
    forall t | t in s.observers
      ensures Reader(s.observers[t].reader) in s.views
    {
      assert Observing(s, s.observers[t]);
    }
  }

  // Each step in parts: types, the borrow, the pending lists, then what is quiet.

  lemma ObserversTyped(s: State, s': State)
    requires Typed(s) && s' == s.(observers := s'.observers)
    requires forall t :: t in s'.observers ==> Observing(s, s'.observers[t])
    ensures Typed(s')
  {
    forall t | t in s'.observers
      ensures Observing(s', s'.observers[t])
    {
      assert Observing(s, s'.observers[t]);
    }
  }

  lemma ObserversBorrow(s: State, s': State)
    requires BorrowOk(s) && s' == s.(observers := s'.observers)
    ensures BorrowOk(s')
  {
  }

  lemma AttachTyped(s: State, t: nat, r: nat)
    requires Typed(s) && t !in s.observers && Reader(r) in s.views
    ensures Typed(AfterAttach(s, t, r)) && Quiet(s, AfterAttach(s, t, r))
  {
    ObserversTyped(s, AfterAttach(s, t, r));
  }

  lemma AttachKeeps(s: State, t: nat, r: nat)
    requires Good(s) && Enabled(s, Attach(t, r))
    ensures Good(AfterAttach(s, t, r))
  {
    AttachTyped(s, t, r);
    ObserversBorrow(s, AfterAttach(s, t, r));
    QuietKeeps(s, AfterAttach(s, t, r));
  }

  lemma DetachTyped(s: State, t: nat)
    requires Typed(s) && t in s.observers
    ensures Typed(AfterDetach(s, t)) && Quiet(s, AfterDetach(s, t))
  {
    ObserversTyped(s, AfterDetach(s, t));
  }

  lemma DetachKeeps(s: State, t: nat)
    requires Good(s) && Enabled(s, Detach(t))
    ensures Good(AfterDetach(s, t))
  {
    DetachTyped(s, t);
    ObserversBorrow(s, AfterDetach(s, t));
    QuietKeeps(s, AfterDetach(s, t));
  }

  // New readers.

  lemma NewReaderTyped(s: State, id: nat, source: Holder)
    requires Typed(s) && !s.storageDropped && source in s.views && Reader(id) !in s.chain.holders
    ensures Typed(AfterNewReader(s, id, source))
  {
    HeldIsLive(s.chain, source);
    AcquireKeeps(s.chain, Reader(id), s.chain.holders[source]);
    ReadersOfObservers(s);
    ObserversStay(s, AfterNewReader(s, id, source));
  }

  lemma NewReaderBorrow(s: State, s': State, id: nat, g: nat)
    requires BorrowOk(s) && Reader(id) !in s.chain.holders
    requires Owner in s.chain.holders ==> g <= s.chain.holders[Owner]
    requires forall p :: p in s.entries && Proxy(p) in s.chain.holders ==> g <= s.chain.holders[Proxy(p)]
    requires s'.chain.holders == s.chain.holders[Reader(id) := g]
    requires s' == s.(chain := s'.chain, views := s'.views, found := s'.found)
    ensures BorrowOk(s')
  {
  }

  lemma NewReaderOwner(s: State, id: nat, source: Holder)
    requires Typed(s) && OwnerOk(s) && source in s.views && Reader(id) !in s.chain.holders
    ensures OwnerOk(AfterNewReader(s, id, source))
  {
    var s' := AfterNewReader(s, id, source);
    if Owner in s.chain.holders {
      forall w: nat
        ensures SeenByWriter(s', w)
      {
        assert SeenByWriter(s, w);
        StillSeen(s, s', w);
      }
    }
  }

  lemma NewReaderReaders(s: State, id: nat, source: Holder)
    requires Typed(s) && ReadersOk(s) && source in s.views && Reader(id) !in s.chain.holders
    requires Guarded(s.mem, s.slab, s.pend, s.views[source], s.chain.holders[source])
    ensures ReadersOk(AfterNewReader(s, id, source))
  {
    var s' := AfterNewReader(s, id, source);
    forall r | Reader(r) in s'.chain.holders
      ensures ReaderGuarded(s', r)
    {
      assert r != id ==> ReaderGuarded(s, r);
    }
  }

  lemma NewReaderReferences(s: State, id: nat, source: Holder)
    requires Typed(s) && ReferencesOk(s) && source in s.views && Reader(id) !in s.chain.holders
    ensures ReferencesOk(AfterNewReader(s, id, source))
  {
    var s' := AfterNewReader(s, id, source);
    forall t, i | t in s'.observers && i in s'.observers[t].seen
      ensures ObserverHolds(s', t, i)
    {
      assert ObserverHolds(s, t, i);
    }
    forall p | p in s'.entries
      ensures EntryHolds(s', p)
    {
      assert EntryHolds(s, p);
    }
  }

  lemma NewReaderFound(s: State, id: nat, source: Holder)
    requires Typed(s) && FoundOk(s) && source in s.views && Reader(id) !in s.chain.holders
    ensures FoundOk(AfterNewReader(s, id, source))
  {
    var s' := AfterNewReader(s, id, source);
    forall r, i: nat | r in s'.found && i in s'.found[r]
      ensures ReaderKeeps(s', r, i)
    {
      assert ReaderKeeps(s, if r == id then source.id else r, i);
    }
  }

  lemma NewReaderRest(s: State, id: nat, source: Holder)
    requires Typed(s) && OwnerOk(s) && ReadersOk(s) && ReferencesOk(s) && FoundOk(s)
    requires source in s.views && Reader(id) !in s.chain.holders
    requires Guarded(s.mem, s.slab, s.pend, s.views[source], s.chain.holders[source])
    ensures var s' := AfterNewReader(s, id, source);
            OwnerOk(s') && ReadersOk(s') && ReferencesOk(s') && FoundOk(s')
  {
    NewReaderOwner(s, id, source);
    NewReaderReaders(s, id, source);
    NewReaderReferences(s, id, source);
    NewReaderFound(s, id, source);
  }

  lemma NewReaderPend(s: State, id: nat, source: Holder)
    requires Typed(s) && source in s.views && Reader(id) !in s.chain.holders
    requires PendOk(s.slab, s.chain.gens, s.pend, s.ownerMark, s.entries)
    ensures PendOk(s.slab, AfterNewReader(s, id, source).chain.gens, s.pend, s.ownerMark, s.entries)
  {
    PendFrame(s.slab, s.chain.gens, AfterNewReader(s, id, source).chain.gens, s.pend, s.ownerMark, s.entries);
  }

  lemma CloneKeeps(s: State, source: nat, id: nat)
    requires Good(s) && Enabled(s, CloneReader(source, id))
    ensures Good(AfterNewReader(s, id, Reader(source)))
  {
    NewReaderTyped(s, id, Reader(source));
    NewReaderBorrow(s, AfterNewReader(s, id, Reader(source)), id, s.chain.holders[Reader(source)]);
    NewReaderRest(s, id, Reader(source));
    NewReaderPend(s, id, Reader(source));
  }

  // Dropping a handle.

  /** Nobody relies on `h`. */
  ghost predicate Droppable(s: State, h: Holder) {
    && h in s.views && (h.Proxy? ==> h.id !in s.entries)
    && (h == Owner ==> s.mode == Idle && s.ownerMark == None && s.entries == map[])
    && forall t :: t in s.observers ==> Reader(s.observers[t].reader) != h
  }

  lemma DropTyped(s: State, h: Holder)
    requires Typed(s) && Droppable(s, h)
    ensures Typed(AfterDrop(s, h))
  {
    DropKeeps(s.chain, h);
    ReadersOfObservers(s);
    ObserversStay(s, AfterDrop(s, h));
  }

  lemma DropBorrow(s: State, h: Holder)
    requires Typed(s) && BorrowOk(s) && Droppable(s, h)
    ensures BorrowOk(AfterDrop(s, h))
  {
  }

  lemma DropQuiet(s: State, h: Holder)
    requires Typed(s) && Droppable(s, h)
    ensures Quiet(s, AfterDrop(s, h))
  {
  }

  lemma DropPend(s: State, h: Holder)
    requires Typed(s) && h in s.views
    requires PendOk(s.slab, s.chain.gens, s.pend, s.ownerMark, s.entries)
    ensures PendOk(s.slab, AfterDrop(s, h).chain.gens, s.pend, s.ownerMark, s.entries)
  {
    HeldIsLive(s.chain, h);
    PendFrame(s.slab, s.chain.gens, AfterDrop(s, h).chain.gens, s.pend, s.ownerMark, s.entries);
  }

  lemma HandleDropKeeps(s: State, h: Holder)
    requires Good(s) && Droppable(s, h)
    ensures Good(AfterDrop(s, h))
  {
    DropTyped(s, h);
    DropBorrow(s, h);
    DropPend(s, h);
    DropQuiet(s, h);
    QuietKeeps(s, AfterDrop(s, h));
  }

  // The chain alone.

  lemma ReleaseTyped(s: State, g: nat)
    requires Typed(s) && g < |s.chain.gens| && s.chain.gens[g].phase == Finalized
    ensures Typed(AfterRelease(s, g)) && Quiet(s, AfterRelease(s, g))
  {
    ReleaseKeeps(s.chain, g);
    ReadersOfObservers(s);
    ObserversStay(s, AfterRelease(s, g));
  }

  lemma ReleaseBorrow(s: State, g: nat)
    requires Typed(s) && BorrowOk(s) && g < |s.chain.gens| && s.chain.gens[g].phase == Finalized
    ensures BorrowOk(AfterRelease(s, g))
  {
  }

  lemma ReleasePend(s: State, g: nat)
    requires Typed(s) && g < |s.chain.gens| && s.chain.gens[g].phase == Finalized
    requires PendOk(s.slab, s.chain.gens, s.pend, s.ownerMark, s.entries)
    ensures PendOk(s.slab, AfterRelease(s, g).chain.gens, s.pend, s.ownerMark, s.entries)
  {
    if s.chain.gens[g].next.Some? {
      LinkIsCounted(s.chain, g);
    }
    PendFrame(s.slab, s.chain.gens, AfterRelease(s, g).chain.gens, s.pend, s.ownerMark, s.entries);
  }

  lemma ReleaseGenerationKeeps(s: State, g: nat)
    requires Good(s) && Enabled(s, ReleaseGeneration(g))
    ensures Good(AfterRelease(s, g))
  {
    ReleaseTyped(s, g);
    ReleaseBorrow(s, g);
    ReleasePend(s, g);
    QuietKeeps(s, AfterRelease(s, g));
  }

  lemma LinkTyped(s: State)
    requires Typed(s) && Owner in s.chain.holders && s.mode != Advancing
    ensures Typed(AfterLink(s)) && Quiet(s, AfterLink(s))
  {
    LinkKeeps(s.chain);
    ReadersOfObservers(s);
    ObserversStay(s, AfterLink(s));
  }

  lemma PendGrows<T>(
    slab: Slab<T>, gens: seq<Gen>, gens': seq<Gen>, pend: seq<seq<nat>>, ownerMark: Option<nat>,
    entries: map<nat, Entry>)
    requires PendOk(slab, gens, pend, ownerMark, entries) && |pend| == |gens|
    requires |gens'| == |gens| + 1 && forall g: nat :: g < |gens| ==> gens'[g].phase == gens[g].phase
    ensures PendOk(slab, gens', pend + [[]], ownerMark, entries)
  {
    assert forall g: nat, i: nat :: RecordedIn(pend + [[]], g, i) <==> RecordedIn(pend, g, i);
  }

  lemma LinkBorrow(s: State)
    requires Typed(s) && BorrowOk(s) && Owner in s.chain.holders && s.mode != Advancing
    requires s.ownerMark == None && (s.mode == Idle ==> s.entries == map[])
    ensures BorrowOk(AfterLink(s))
  {
  }

  lemma LinkPend(s: State)
    requires Typed(s) && Owner in s.chain.holders && s.mode != Advancing
    requires PendOk(s.slab, s.chain.gens, s.pend, s.ownerMark, s.entries)
    ensures PendOk(s.slab, AfterLink(s).chain.gens, AfterLink(s).pend, s.ownerMark, s.entries)
  {
    PendGrows(s.slab, s.chain.gens, AfterLink(s).chain.gens, s.pend, s.ownerMark, s.entries);
  }

  lemma LinkGenerationKeeps(s: State)
    requires Good(s) && Enabled(s, LinkGeneration)
    ensures Good(AfterLink(s))
  {
    LinkTyped(s);
    LinkBorrow(s);
    LinkPend(s);
    QuietKeeps(s, AfterLink(s));
  }

  lemma SwapTyped(s: State)
    requires Typed(s) && s.mode == Advancing
    ensures Typed(AfterSwap(s)) && Quiet(s, AfterSwap(s))
  {
    SwapKeeps(s.chain);
    ReadersOfObservers(s);
    ObserversStay(s, AfterSwap(s));
  }

  lemma SwapBorrow(s: State)
    requires Typed(s) && BorrowOk(s) && s.mode == Advancing
    ensures BorrowOk(AfterSwap(s))
  {
  }

  lemma SwapPend(s: State)
    requires Typed(s) && s.mode == Advancing
    requires PendOk(s.slab, s.chain.gens, s.pend, s.ownerMark, s.entries)
    ensures PendOk(s.slab, AfterSwap(s).chain.gens, s.pend, s.ownerMark, s.entries)
  {
    HeldIsLive(s.chain, Owner);
    PendFrame(s.slab, s.chain.gens, AfterSwap(s).chain.gens, s.pend, s.ownerMark, s.entries);
  }

  lemma SwapGenerationKeeps(s: State)
    requires Good(s) && Enabled(s, SwapGeneration)
    ensures Good(AfterSwap(s))
  {
    SwapTyped(s);
    SwapBorrow(s);
    SwapPend(s);
    QuietKeeps(s, AfterSwap(s));
  }

  // Together.

  lemma DropStepKeeps(s: State, step: Step)
    requires Good(s) && Enabled(s, step) && (step.DropReader? || step.DropProxy? || step.DropOwner?)
    ensures Good(HandleNext(s, step))
  {
    var h := match step
             case DropReader(id) => Reader(id)
             case DropProxy(p) => Proxy(p)
             case _ => Owner;
    HandleDropKeeps(s, h);
  }

  lemma ChainStepKeeps(s: State, step: Step)
    requires Good(s) && Enabled(s, step) && (step.LinkGeneration? || step.SwapGeneration? || step.ReleaseGeneration?)
    ensures Good(HandleNext(s, step))
  {
    match step
    case LinkGeneration => LinkGenerationKeeps(s);
    case SwapGeneration => SwapGenerationKeeps(s);
    case ReleaseGeneration(g) => ReleaseGenerationKeeps(s, g);
  }

  lemma ObserverStepKeeps(s: State, step: Step)
    requires Good(s) && Enabled(s, step) && (step.Attach? || step.Detach?)
    ensures Good(HandleNext(s, step))
  {
    match step
    case Attach(t, r) => AttachKeeps(s, t, r);
    case Detach(t) => DetachKeeps(s, t);
  }
}
