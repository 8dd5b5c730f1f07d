/** Removable iteration: starting it, taking proxies from it, dropping them. */
module RcuIterationSteps {
  import opened Options
  import opened Words
  import opened ScanRuns
  import opened SlabSpec
  import opened GenerationChain
  import opened StoreHistory
  import opened RcuMachine
  import opened RcuHandleSteps
  import opened RcuAccessSteps

  lemma StartIterMutKeeps(s: State)
    requires Good(s) && OwnerFree(s)
    ensures Good(AfterStartIterMut(s))
  {
    ModeTyped(s, AfterStartIterMut(s));
    StartIterBorrow(s);
    StartIterOwner(s);
    ModeRest(s, AfterStartIterMut(s));
  }

  lemma ModeTyped(s: State, s': State)
    requires Typed(s) && Owner in s.chain.holders && s.mode != Advancing
    requires s' == s.(mode := s'.mode) && s'.mode.Iterating?
    requires s'.mode.head <= s'.mode.tail <= |s.mem.slots|
    ensures Typed(s')
  {
    ReadersOfObservers(s);
    ObserversStay(s, s');
  }

  lemma ModeRest(s: State, s': State)
    requires ReadersOk(s) && ReferencesOk(s) && FoundOk(s) && s' == s.(mode := s'.mode)
    ensures ReadersOk(s') && ReferencesOk(s') && FoundOk(s')
  {
    forall r | Reader(r) in s'.chain.holders
      ensures ReaderGuarded(s', r)
    {
      assert ReaderGuarded(s, r);
    }
    forall t, j | t in s'.observers && j in s'.observers[t].seen
      ensures ObserverHolds(s', t, j)
    {
      assert ObserverHolds(s, t, j);
    }
    forall p | p in s'.entries
      ensures EntryHolds(s', p)
    {
      assert EntryHolds(s, p);
    }
    forall r, j: nat | r in s'.found && j in s'.found[r]
      ensures ReaderKeeps(s', r, j)
    {
      assert ReaderKeeps(s, r, j);
    }
  }

  lemma StartIterBorrow(s: State)
    requires Typed(s) && BorrowOk(s) && OwnerFree(s)
    ensures BorrowOk(AfterStartIterMut(s))
  {
  }

  lemma StartIterOwner(s: State)
    requires Typed(s) && WellFormed(s.slab) && Mirrors(s.mem, s.slab) && OwnerOk(s) && OwnerFree(s)
    ensures OwnerOk(AfterStartIterMut(s))
  {
    var s' := AfterStartIterMut(s);
    WriterHasSeenAll(s);
    assert s'.mode.tail == s.slab.frontier;
    assert Ahead(s.slab.present, 0, s'.mode.tail) == s.slab.present;
    forall i: nat | i < s'.mode.tail
      ensures Exact(s.mem, s.views[Owner], s.slab.present, i) && Sound(s.mem, s.views[Owner], i)
    {
      UpToDateIsExact(s.mem, s.slab, s.views[Owner], i);
    }
    forall w: nat
      ensures SeenByWriter(s', w)
    {
      assert SeenByWriter(s, w);
      StillSeen(s, s', w);
    }
  }

  // Yielding.

  /** What the iterator skips is absent, what it finds is present. */
  lemma YieldIsRight(s: State, end: End, found: Option<nat>, p: nat, k: nat)
    requires Typed(s) && OwnerOk(s) && YieldEnabled(s, end, found, p, k)
    ensures found.Some? ==> found.value in s.slab.present
    ensures var mode := YieldedMode(s.mode, end, found);
            && s.mode.head <= mode.head <= mode.tail <= s.mode.tail
            && Ahead(s.slab.present, mode.head, mode.tail)
               == Ahead(s.slab.present, s.mode.head, s.mode.tail) - (if found.Some? then {found.value} else {})
            && mode.remaining == |Ahead(s.slab.present, mode.head, mode.tail)|
            && (found.Some? ==> !(mode.head <= found.value < mode.tail))
  {
    forall j: nat | s.mode.head <= j < s.mode.tail && MaySkip(s, j)
      ensures j !in s.slab.present
    {
      assert Exact(s.mem, s.views[Owner], s.slab.present, j);
    }
    if found.Some? {
      assert Exact(s.mem, s.views[Owner], s.slab.present, found.value);
    }
  }

  /** The reference it yields is to the item the slot holds. */
  lemma YieldIsHeld(s: State, end: End, i: nat, p: nat, k: nat)
    requires Good(s) && YieldEnabled(s, end, Some(i), p, k)
    ensures i in s.slab.present
    ensures InRange(s.mem, s.views[Owner])
    ensures InRange(s.mem, s.mem.words[WordOf(i)][k].view)
    ensures var v := Acquire(s.mem, s.views[Owner], WordOf(i), k);
            && InRange(s.mem, v) && Below(s.views[Owner], v) && i < |s.mem.slots|
            && Held(s.mem, s.slab, s.pend, v, s.chain.holders[Owner], i, ReadSlot(s.mem, v, i))
  {
    YieldIsRight(s, end, Some(i), p, k);
    AcquireKeepsRange(s.mem, s.views[Owner], WordOf(i), k);
    assert Sound(s.mem, s.views[Owner], i);
    LoadIsSound(s.mem, s.slab, s.views[Owner], i, k);
    PresentIsUnrecorded(s.slab, s.chain.gens, s.pend, s.ownerMark, s.entries, i);
  }

  lemma ExactLater(mem: Memory, v: View, v': View, present: set<nat>, i: nat)
    requires Shape(mem) && StoresInRange(mem) && InRange(mem, v) && InRange(mem, v') && Below(v, v') && i < |mem.slots|
    requires Exact(mem, v, present, i) && Sound(mem, v, i)
    ensures Exact(mem, v', present, i) && Sound(mem, v', i)
  {
  }

  /** The writer's part of the invariant survives its view growing and its iterator's
      range shrinking, with proxies added. */
  lemma OwnerGrows(s: State, s': State)
    requires OwnerOk(s) && Owner in s.chain.holders && Owner in s'.chain.holders && Owner in s'.views
    requires InRange(s.mem, s'.views[Owner])
    requires s'.mem == s.mem && s'.slab.present == s.slab.present && Below(s.views[Owner], s'.views[Owner])
    requires forall w: nat :: SeenByWriter(s', w)
    requires s'.mode.Iterating? ==>
               && s.mode.Iterating? && s.mode.head <= s'.mode.head && s'.mode.tail <= s.mode.tail
               && s'.mode.remaining == |Ahead(s.slab.present, s'.mode.head, s'.mode.tail)|
    ensures OwnerOk(s')
  {
    if s'.mode.Iterating? {
      forall i: nat | s'.mode.head <= i < s'.mode.tail
        ensures Exact(s'.mem, s'.views[Owner], s'.slab.present, i) && Sound(s'.mem, s'.views[Owner], i)
      {
        ExactLater(s.mem, s.views[Owner], s'.views[Owner], s.slab.present, i);
      }
    }
  }

  lemma YieldNoneKeeps(s: State, end: End, p: nat, k: nat)
    requires Good(s) && YieldEnabled(s, end, None, p, k)
    ensures Good(AfterYield(s, end, None, p, k))
  {
    var s' := AfterYield(s, end, None, p, k);
    YieldIsRight(s, end, None, p, k);
    ModeTyped(s, s');
    YieldNoneBorrow(s, s');
    YieldNoneOwner(s, s');
    ModeRest(s, s');
  }

  lemma YieldNoneBorrow(s: State, s': State)
    requires BorrowOk(s) && s' == s.(mode := s'.mode) && s.mode.Iterating? && s'.mode.Iterating?
    requires s.mode.head <= s'.mode.head <= s'.mode.tail <= s.mode.tail
    ensures BorrowOk(s')
  {
  }

  lemma YieldNoneOwner(s: State, s': State)
    requires OwnerOk(s) && Owner in s.chain.holders && s.mode.Iterating?
    requires s' == s.(mode := s'.mode) && s'.mode.Iterating?
    requires s.mode.head <= s'.mode.head <= s'.mode.tail <= s.mode.tail
    requires s'.mode.remaining == |Ahead(s.slab.present, s'.mode.head, s'.mode.tail)|
    ensures OwnerOk(s')
  {
    forall w: nat
      ensures SeenByWriter(s', w)
    {
      assert SeenByWriter(s, w);
      StillSeen(s, s', w);
    }
    OwnerGrows(s, s');
  }

  /** The iterator moves past slot `i` and lends a proxy for it, whose holder and the
      writer now both have view `v`. */
  ghost predicate Yields(s: State, s': State, i: nat, p: nat, v: View, value: SlotStore) {
    && s.mode.Iterating? && s'.mode.Iterating? && Proxy(p) !in s.chain.holders && Owner in s.chain.holders
    && s.chain.holders[Owner] < |s.chain.gens|
    && s.mode.head <= s'.mode.head <= s'.mode.tail <= s.mode.tail
    && s.mode.head <= i < s.mode.tail && !(s'.mode.head <= i < s'.mode.tail)
    && s' == s.(mode := s'.mode, entries := s.entries[p := Entry(i, value, Untouched)],
                chain := Acquired(s.chain, Proxy(p), s.chain.holders[Owner]),
                views := s.views[Owner := v][Proxy(p) := v])
  }

  lemma YieldSomeTyped(s: State, s': State, i: nat, p: nat, v: View, value: SlotStore)
    requires Typed(s) && Yields(s, s', i, p, v, value) && InRange(s.mem, v)
    ensures Typed(s')
  {
    HeldIsLive(s.chain, Owner);
    AcquireKeeps(s.chain, Proxy(p), s.chain.holders[Owner]);
    ReadersOfObservers(s);
    ObserversStay(s, s');
  }

  lemma YieldSomeBorrow(s: State, s': State, i: nat, p: nat, v: View, value: SlotStore)
    requires BorrowOk(s) && Yields(s, s', i, p, v, value)
    requires i in s.slab.present && i < s.slab.capacity && p !in s.entries
    ensures BorrowOk(s')
  {
  }

  lemma YieldSomeOwner(s: State, s': State, i: nat, p: nat, v: View, value: SlotStore)
    requires OwnerOk(s) && Yields(s, s', i, p, v, value) && p !in s.entries
    requires InRange(s.mem, v) && Below(s.views[Owner], v)
    requires s'.mode.remaining == |Ahead(s.slab.present, s'.mode.head, s'.mode.tail)|
    ensures OwnerOk(s')
  {
    forall w: nat
      ensures SeenByWriter(s', w)
    {
      assert SeenByWriter(s, w);
      StillSeen(s, s', w);
    }
    OwnerGrows(s, s');
  }

  lemma YieldSomeReaders(s: State, s': State, i: nat, p: nat, v: View, value: SlotStore)
    requires ReadersOk(s) && FoundOk(s) && Yields(s, s', i, p, v, value)
    ensures ReadersOk(s') && FoundOk(s')
  {
    forall r | Reader(r) in s'.chain.holders
      ensures ReaderGuarded(s', r)
    {
      assert ReaderGuarded(s, r);
    }
    forall r, j: nat | r in s'.found && j in s'.found[r]
      ensures ReaderKeeps(s', r, j)
    {
      assert ReaderKeeps(s, r, j);
    }
  }

  lemma YieldSomeReferences(s: State, s': State, i: nat, p: nat, v: View, value: SlotStore)
    requires ReferencesOk(s) && Yields(s, s', i, p, v, value) && p !in s.entries
    requires InRange(s.mem, v) && Held(s.mem, s.slab, s.pend, v, s.chain.holders[Owner], i, value)
    ensures ReferencesOk(s')
  {
    forall t, j | t in s'.observers && j in s'.observers[t].seen
      ensures ObserverHolds(s', t, j)
    {
      assert ObserverHolds(s, t, j);
    }
    forall q | q in s'.entries
      ensures EntryHolds(s', q)
    {
      if q != p {
        assert EntryHolds(s, q);
      }
    }
  }

  lemma PresentIsUnrecorded(slab: Slab<nat>, gens: seq<Gen>, pend: seq<seq<nat>>, ownerMark: Option<nat>,
                            entries: map<nat, Entry>, i: nat)
    requires PendOk(slab, gens, pend, ownerMark, entries) && i in slab.present
    ensures forall g: nat :: !RecordedIn(pend, g, i)
  {
  }

  lemma EntriesFrame(slab: Slab<nat>, gens: seq<Gen>, gens': seq<Gen>, pend: seq<seq<nat>>, ownerMark: Option<nat>,
                     entries: map<nat, Entry>, entries': map<nat, Entry>)
    requires PendOk(slab, gens, pend, ownerMark, entries)
    requires forall g: nat :: g < |pend| && g < |gens'| && gens'[g].phase in {Finalized, Gone} ==> pend[g] == []
    requires forall h, i: nat :: Flying(ownerMark, entries', h, i) <==> Flying(ownerMark, entries, h, i)
    ensures PendOk(slab, gens', pend, ownerMark, entries')
  {
  }

  lemma YieldSomePend(s: State, s': State, i: nat, p: nat, v: View, value: SlotStore)
    requires Typed(s) && Yields(s, s', i, p, v, value) && p !in s.entries
    requires PendOk(s.slab, s.chain.gens, s.pend, s.ownerMark, s.entries)
    ensures PendOk(s.slab, s'.chain.gens, s.pend, s.ownerMark, s'.entries)
  {
    EntriesFrame(s.slab, s.chain.gens, s'.chain.gens, s.pend, s.ownerMark, s.entries, s'.entries);
  }

  lemma YieldShape(s: State, end: End, i: nat, p: nat, k: nat) returns (v: View, value: SlotStore)
    requires Good(s) && YieldEnabled(s, end, Some(i), p, k)
    ensures i in s.slab.present && p !in s.entries && i < s.slab.capacity
    ensures InRange(s.mem, v) && Below(s.views[Owner], v)
    ensures Held(s.mem, s.slab, s.pend, v, s.chain.holders[Owner], i, value)
    ensures var s' := AfterYield(s, end, Some(i), p, k);
            && Yields(s, s', i, p, v, value)
            && s'.mode.remaining == |Ahead(s.slab.present, s'.mode.head, s'.mode.tail)|
  {
    YieldIsRight(s, end, Some(i), p, k);
    YieldIsHeld(s, end, i, p, k);
    v := Acquire(s.mem, s.views[Owner], WordOf(i), k);
    value := ReadSlot(s.mem, v, i);
  }

  lemma YieldSomeParts(s: State, s': State, i: nat, p: nat, v: View, value: SlotStore)
    requires Typed(s) && BorrowOk(s) && OwnerOk(s) && ReadersOk(s) && ReferencesOk(s) && FoundOk(s)
    requires PendOk(s.slab, s.chain.gens, s.pend, s.ownerMark, s.entries)
    requires Yields(s, s', i, p, v, value) && p !in s.entries && i in s.slab.present && i < s.slab.capacity
    requires s'.mode.remaining == |Ahead(s.slab.present, s'.mode.head, s'.mode.tail)|
    requires InRange(s.mem, v) && Below(s.views[Owner], v)
    requires Held(s.mem, s.slab, s.pend, v, s.chain.holders[Owner], i, value)
    ensures Typed(s') && BorrowOk(s') && OwnerOk(s') && ReadersOk(s') && ReferencesOk(s') && FoundOk(s')
    ensures PendOk(s.slab, s'.chain.gens, s.pend, s.ownerMark, s'.entries)
  {
    YieldSomeTyped(s, s', i, p, v, value);
    YieldSomeBorrow(s, s', i, p, v, value);
    YieldSomeOwner(s, s', i, p, v, value);
    YieldSomeReaders(s, s', i, p, v, value);
    YieldSomeReferences(s, s', i, p, v, value);
    YieldSomePend(s, s', i, p, v, value);
  }

  lemma YieldSomeKeeps(s: State, end: End, i: nat, p: nat, k: nat)
    requires Good(s) && YieldEnabled(s, end, Some(i), p, k)
    ensures Good(AfterYield(s, end, Some(i), p, k))
  {
    var v, value := YieldShape(s, end, i, p, k);
    YieldSomeParts(s, AfterYield(s, end, Some(i), p, k), i, p, v, value);
  }

  lemma YieldKeeps(s: State, end: End, found: Option<nat>, p: nat, k: nat)
    requires Good(s) && YieldEnabled(s, end, found, p, k)
    ensures Good(AfterYield(s, end, found, p, k))
  {
    match found
    case None => YieldNoneKeeps(s, end, p, k);
    case Some(i) => YieldSomeKeeps(s, end, i, p, k);
  }

  // A proxy's last use.

  /** Proxy `p` is given up, and the writer has now seen what its holder had. */
  ghost predicate Ends(s: State, s': State, p: nat) {
    && p in s.entries && Owner in s.views && Proxy(p) in s.views && Owner in s'.views
    && InRange(s.mem, s'.views[Owner])
    && Below(s.views[Owner], s'.views[Owner]) && Below(s.views[Proxy(p)], s'.views[Owner])
    && s' == s.(entries := s.entries - {p}, views := s.views[Owner := s'.views[Owner]])
  }

  lemma EndEntryShape(s: State, p: nat)
    requires Typed(s) && p in s.entries
    ensures Ends(s, AfterEndEntry(s, p), p)
  {
    JoinIsUpper(s.mem, s.views[Owner], s.views[Proxy(p)]);
  }

  lemma EndEntryTyped(s: State, s': State, p: nat)
    requires Typed(s) && Ends(s, s', p)
    ensures Typed(s')
  {
    ReadersOfObservers(s);
    ObserversStay(s, s');
  }

  lemma EndEntryBorrow(s: State, s': State, p: nat)
    requires BorrowOk(s) && Ends(s, s', p)
    ensures BorrowOk(s')
  {
  }

  lemma EndEntryOwner(s: State, s': State, p: nat)
    requires OwnerOk(s) && Ends(s, s', p) && Owner in s.chain.holders
    ensures OwnerOk(s')
  {
    forall w: nat
      ensures SeenByWriter(s', w)
    {
      assert SeenByWriter(s, w);
      StillSeen(s, s', w);
    }
    OwnerGrows(s, s');
  }

  lemma EndEntryReaders(s: State, s': State, p: nat)
    requires ReadersOk(s) && FoundOk(s) && Ends(s, s', p)
    ensures ReadersOk(s') && FoundOk(s')
  {
    forall r | Reader(r) in s'.chain.holders
      ensures ReaderGuarded(s', r)
    {
      assert ReaderGuarded(s, r);
    }
    forall r, j: nat | r in s'.found && j in s'.found[r]
      ensures ReaderKeeps(s', r, j)
    {
      assert ReaderKeeps(s, r, j);
    }
  }

  lemma EndEntryReferences(s: State, s': State, p: nat)
    requires ReferencesOk(s) && Ends(s, s', p)
    ensures ReferencesOk(s')
  {
    forall t, j | t in s'.observers && j in s'.observers[t].seen
      ensures ObserverHolds(s', t, j)
    {
      assert ObserverHolds(s, t, j);
    }
    forall q | q in s'.entries
      ensures EntryHolds(s', q)
    {
      assert EntryHolds(s, q);
    }
  }

  lemma EndEntryPend(s: State, p: nat)
    requires PendOk(s.slab, s.chain.gens, s.pend, s.ownerMark, s.entries) && |s.pend| == |s.chain.gens|
    requires p in s.entries && s.entries[p].stage != InFlight
    ensures PendOk(s.slab, s.chain.gens, s.pend, s.ownerMark, s.entries - {p})
  {
    EntriesFrame(s.slab, s.chain.gens, s.chain.gens, s.pend, s.ownerMark, s.entries, s.entries - {p});
  }

  lemma EndEntryKeeps(s: State, p: nat)
    requires Good(s) && Enabled(s, EndEntry(p))
    ensures Good(AfterEndEntry(s, p))
  {
    var s' := AfterEndEntry(s, p);
    EndEntryShape(s, p);
    EndEntryTyped(s, s', p);
    EndEntryBorrow(s, s', p);
    EndEntryOwner(s, s', p);
    EndEntryReaders(s, s', p);
    EndEntryReferences(s, s', p);
    EndEntryPend(s, p);
  }
}
