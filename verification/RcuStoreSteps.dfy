/** The writer's critical sections: insertion, marking, finalization, and the final
    scan of the storage. */
module RcuStoreSteps {
  import opened Options
  import opened Words
  import opened SlabSpec
  import opened GenerationChain
  import opened StoreHistory
  import opened StoreEffects
  import opened RcuMachine
  import opened RcuHandleSteps
  import opened RcuAccessSteps

  lemma LockedSeesAll(s: State, h: Holder)
    requires Typed(s) && h in s.views
    ensures Join(s.views[h], s.lock) == Top(s.mem) && Able(Acting(s.mem, Top(s.mem)))
  {
    JoinWithTop(s.mem, s.views[h]);
  }

  /** Handles stay well typed when memory grows and the lock holder's view with it. */
  lemma TypedThrough(s: State, s': State, h: Holder)
    requires Typed(s) && h in s.views && !h.Reader?
    requires Shape(s'.mem) && StoresInRange(s'.mem) && forall u :: InRange(s.mem, u) ==> InRange(s'.mem, u)
    requires |s'.mem.slots| == |s.mem.slots| && s'.lock == Top(s'.mem) && InRange(s'.mem, Top(s'.mem))
    requires s'.views == s.views[h := Top(s'.mem)]
    requires s'.chain == s.chain && s'.pend == s.pend && s'.observers == s.observers && s'.mode == s.mode
    requires s'.storageDropped == s.storageDropped && s'.found == s.found
    requires s'.entries.Keys == s.entries.Keys && (s'.ownerMark.Some? ==> Owner in s.chain.holders)
    ensures Typed(s')
  {
    forall t | t in s'.observers
      ensures Observing(s', s'.observers[t])
    {
      assert Observing(s, s.observers[t]);
    }
    assert s'.views.Keys == s.views.Keys;
  }

  /** Views of `m` are views of `m'`, which a thread can have seen all of. */
  ghost predicate Grows(m: Memory, m': Memory) {
    && Shape(m') && StoresInRange(m') && |m'.slots| == |m.slots| && InRange(m', Top(m'))
    && forall u :: InRange(m, u) ==> InRange(m', u)
  }

  // Insertion.

  lemma InsertGuarded(m: Memory, m': Memory, s: Slab<nat>, item: nat, pend: seq<seq<nat>>, u: View, g: nat)
    requires WellFormed(s) && s.free != [] && Mirrors(m, s) && Extends(m, m', s.free[0], true)
    requires StoresInRange(m') && InRange(m, u) && InRange(m', u)
    requires forall j :: 0 <= j < |m.slots| && j != s.free[0] ==> m'.slots[j] == m.slots[j]
    requires forall g': nat, j: nat :: RecordedIn(pend, g', j) ==> j in Pending(s)
    requires Guarded(m, s, pend, u, g)
    ensures Guarded(m', Inserted(s, item), pend, u, g)
  {
    var i := s.free[0];
    assert i in s.free;
    forall j: nat | j < |m'.slots|
      ensures Sound(m', u, j)
      ensures j != i && Covered(m, u, j) ==> Covered(m', u, j)
    {
      assert Sound(m, u, j) && (j !in s.items ==> Covered(m, u, j));
      SoundThrough(m, m', i, true, u, j);
      if j != i && Covered(m, u, j) {
        CoveredThrough(m, m', i, true, u, j);
      }
    }
    forall j: nat | j < |m'.slots| && j !in Inserted(s, item).items
      ensures Covered(m', u, j)
    {
      assert Covered(m, u, j);
    }
    forall g': nat, j: nat | g' < g && j < |m'.slots| && RecordedIn(pend, g', j)
      ensures Covered(m', u, j)
    {
      assert Covered(m, u, j) && j != i;
    }
  }

  /** An insertion at slot `i`, the head of the free list: memory extended by its stores,
      everything else alone. */
  ghost predicate Inserts(s: State, s': State, i: nat) {
    && WellFormed(s.slab) && s.slab.free != [] && s.slab.free[0] == i
    && i !in s.slab.items && i < |s.mem.slots| && Owner in s.views
    && Extends(s.mem, s'.mem, i, true) && Grows(s.mem, s'.mem)
    && (forall j :: 0 <= j < |s.mem.slots| && j != i ==> s'.mem.slots[j] == s.mem.slots[j])
    && s' == s.(slab := Inserted(s.slab, s.inserted), inserted := s.inserted + 1,
                mem := s'.mem, lock := s'.lock, views := s.views[Owner := Top(s'.mem)])
  }

  lemma InsertBorrow(s: State, s': State, i: nat)
    requires BorrowOk(s) && OwnerFree(s) && Inserts(s, s', i)
    ensures BorrowOk(s')
  {
  }

  lemma InsertOwner(s: State, s': State, i: nat)
    requires OwnerFree(s) && Inserts(s, s', i)
    ensures OwnerOk(s')
  {
    forall w: nat
      ensures SeenByWriter(s', w)
    {
      assert Knows(s', Owner, w);
    }
  }

  lemma InsertReferences(s: State, s': State, i: nat)
    requires ReferencesOk(s) && s.entries == map[] && Inserts(s, s', i)
    ensures ReferencesOk(s')
  {
    forall t, j | t in s'.observers && j in s'.observers[t].seen
      ensures ObserverHolds(s', t, j)
    {
      assert ObserverHolds(s, t, j);
    }
  }

  lemma InsertFound(s: State, s': State, i: nat)
    requires FoundOk(s) && Inserts(s, s', i)
    ensures FoundOk(s')
  {
    forall r, j: nat | r in s'.found && j in s'.found[r]
      ensures ReaderKeeps(s', r, j)
    {
      assert ReaderKeeps(s, r, j);
    }
  }

  lemma InsertItems(slab: Slab<nat>, inserted: nat, destroyed: seq<nat>)
    requires WellFormed(slab) && slab.free != [] && ItemsOk(slab.items, inserted, destroyed, false)
    ensures ItemsOk(Inserted(slab, inserted).items, inserted + 1, destroyed, false)
  {
    var i, items' := slab.free[0], Inserted(slab, inserted).items;
    assert i in slab.free;
    forall x: nat | x < inserted + 1
      ensures x in destroyed <==> !Stored(items', x)
    {
      if x == inserted {
        assert items'[i] == x;
      } else if Stored(slab.items, x) {
        var j :| j in slab.items && slab.items[j] == x;
        assert j in items' && items'[j] == x;
      }
    }
  }

  lemma PendSlabFrame<T>(slab: Slab<T>, slab': Slab<T>, gens: seq<Gen>, pend: seq<seq<nat>>,
                      ownerMark: Option<nat>, entries: map<nat, Entry>)
    requires PendOk(slab, gens, pend, ownerMark, entries) && Pending(slab') == Pending(slab)
    ensures PendOk(slab', gens, pend, ownerMark, entries)
  {
  }

  lemma InsertReaders(s: State, s': State, i: nat)
    requires ReadersOk(s) && Mirrors(s.mem, s.slab) && Inserts(s, s', i)
    requires forall g: nat, j: nat :: RecordedIn(s.pend, g, j) ==> j in Pending(s.slab)
    ensures ReadersOk(s')
  {
    forall r | Reader(r) in s'.chain.holders
      ensures ReaderGuarded(s', r)
    {
      assert ReaderGuarded(s, r);
      InsertGuarded(s.mem, s'.mem, s.slab, s.inserted, s.pend, s.views[Reader(r)], s.chain.holders[Reader(r)]);
    }
  }

  lemma InsertMemory(s: State, s': State)
    requires Typed(s) && WellFormed(s.slab) && Mirrors(s.mem, s.slab) && Owner in s.views && s.slab.free != []
    requires s.slab.free[0] < |s.mem.slots|
    requires Join(s.views[Owner], s.lock) == Top(s.mem) && Able(Acting(s.mem, Top(s.mem)))
    requires var a := InsertStores(Acting(s.mem, Top(s.mem)), s.slab.free[0], s.inserted);
             s' == s.(slab := Inserted(s.slab, s.inserted), inserted := s.inserted + 1,
                      mem := a.m, lock := a.v, views := s.views[Owner := a.v])
    ensures Typed(s') && Mirrors(s'.mem, s'.slab) && s'.lock == Top(s'.mem)
    ensures Extends(s.mem, s'.mem, s.slab.free[0], true) && Grows(s.mem, s'.mem)
    ensures forall j :: 0 <= j < |s.mem.slots| && j != s.slab.free[0] ==> s'.mem.slots[j] == s.mem.slots[j]
  {
    var act := Acting(s.mem, Top(s.mem));
    InsertShape(act, s.slab.free[0], s.inserted);
    InsertExtends(act, s.slab, s.slab.free[0], s.inserted);
    InsertMirrors(act, s.slab, s.inserted);
    StoresStayInRange(s.mem, s'.mem, s.slab.free[0], true);
    TypedThrough(s, s', Owner);
  }

  lemma InsertStored(s: State)
    requires Typed(s) && WellFormed(s.slab) && Mirrors(s.mem, s.slab) && OwnerFree(s) && s.slab.free != []
    ensures var s' := AfterInsert(s);
            Typed(s') && Mirrors(s'.mem, s'.slab) && Inserts(s, s', s.slab.free[0])
  {
    assert s.slab.free[0] in s.slab.free;
    LockedSeesAll(s, Owner);
    InsertMemory(s, AfterInsert(s));
  }

  lemma InsertPend(s: State)
    requires WellFormed(s.slab) && s.slab.free != [] && s.slab.free[0] !in s.slab.items
    requires PendOk(s.slab, s.chain.gens, s.pend, s.ownerMark, s.entries)
    ensures PendOk(Inserted(s.slab, s.inserted), s.chain.gens, s.pend, s.ownerMark, s.entries)
  {
    assert Pending(Inserted(s.slab, s.inserted)) == Pending(s.slab);
    PendSlabFrame(s.slab, Inserted(s.slab, s.inserted), s.chain.gens, s.pend, s.ownerMark, s.entries);
  }

  lemma RecordedIsPending(s: State)
    requires PendOk(s.slab, s.chain.gens, s.pend, s.ownerMark, s.entries)
    ensures forall g: nat, j: nat :: RecordedIn(s.pend, g, j) ==> j in Pending(s.slab)
  {
  }

  lemma StorageIsThere(s: State, h: Holder)
    requires Typed(s) && h in s.chain.holders
    ensures s.storageDropped == false
  {
  }

  lemma InsertRest(s: State, s': State, i: nat)
    requires ReadersOk(s) && ReferencesOk(s) && FoundOk(s) && Mirrors(s.mem, s.slab)
    requires OwnerFree(s) && Inserts(s, s', i)
    requires forall g: nat, j: nat :: RecordedIn(s.pend, g, j) ==> j in Pending(s.slab)
    ensures OwnerOk(s') && ReadersOk(s') && ReferencesOk(s') && FoundOk(s')
  {
    InsertOwner(s, s', i);
    InsertReaders(s, s', i);
    InsertReferences(s, s', i);
    InsertFound(s, s', i);
  }

  lemma InsertKeeps(s: State)
    requires Good(s) && Enabled(s, Insert)
    ensures Good(AfterInsert(s))
  {
    var s', i := AfterInsert(s), s.slab.free[0];
    InsertStored(s);
    InsertBorrow(s, s', i);
    RecordedIsPending(s);
    InsertRest(s, s', i);
    StorageIsThere(s, Owner);
    InsertItems(s.slab, s.inserted, s.destroyed);
    InsertPend(s);
    assert ItemsOk(s'.slab.items, s'.inserted, s'.destroyed, s'.storageDropped);
  }

  // Marking.

  lemma MarkGuarded(m: Memory, m': Memory, s: Slab<nat>, i: nat, pend: seq<seq<nat>>, u: View, g: nat)
    requires WellFormed(s) && Mirrors(m, s) && Extends(m, m', i, false)
    requires StoresInRange(m') && InRange(m, u) && InRange(m', u) && m'.slots == m.slots
    requires Guarded(m, s, pend, u, g)
    ensures Guarded(m', Marked(s, i), pend, u, g)
  {
    forall j: nat | j < |m'.slots|
      ensures Sound(m', u, j)
      ensures Covered(m, u, j) ==> Covered(m', u, j)
    {
      assert Sound(m, u, j);
      SoundThrough(m, m', i, false, u, j);
      if Covered(m, u, j) {
        CoveredThrough(m, m', i, false, u, j);
      }
    }
    forall j: nat | j < |m'.slots| && j !in s.items
      ensures Covered(m', u, j)
    {
      assert Covered(m, u, j);
    }
    forall g': nat, j: nat | g' < g && j < |m'.slots| && RecordedIn(pend, g', j)
      ensures Covered(m', u, j)
    {
      assert Covered(m, u, j);
    }
  }

  lemma MarkPend(s: State, s': State, h: Holder, i: nat)
    requires WellFormed(s.slab) && i in s.slab.present && s'.slab == Marked(s.slab, i) && s'.pend == s.pend
    requires PendOk(s.slab, s.chain.gens, s.pend, s.ownerMark, s.entries)
    requires forall h', j: nat :: Flying(s'.ownerMark, s'.entries, h', j) <==>
               Flying(s.ownerMark, s.entries, h', j) || (h' == h && j == i)
    ensures PendOk(s'.slab, s.chain.gens, s'.pend, s'.ownerMark, s'.entries)
  {
    assert Pending(s'.slab) == Pending(s.slab) + {i};
    assert Flying(s'.ownerMark, s'.entries, h, i);
    forall j: nat | j in Pending(s'.slab)
      ensures (exists g: nat :: RecordedIn(s'.pend, g, j)) || (exists h' :: Flying(s'.ownerMark, s'.entries, h', j))
    {
      if j != i && !exists g: nat :: RecordedIn(s.pend, g, j) {
        var h' :| Flying(s.ownerMark, s.entries, h', j);
        assert Flying(s'.ownerMark, s'.entries, h', j);
      }
    }
  }

  /** How a mark changes who has a removal in flight. */
  ghost predicate MarkedBy(s: State, s': State, h: Holder, i: nat) {
    match h
    case Owner => OwnerFree(s) && s'.ownerMark == Some(i) && s'.entries == s.entries
    case Proxy(p) =>
      && p in s.entries && s.entries[p].stage == Untouched && s.entries[p].idx == i
      && s'.ownerMark == s.ownerMark && s'.entries == s.entries[p := s.entries[p].(stage := InFlight)]
    case _ => false
  }

  /** A mark of slot `i` through `h`: memory extended by its store, everything else alone. */
  ghost predicate Marks(s: State, s': State, h: Holder, i: nat) {
    && WellFormed(s.slab) && h in s.views && i < |s.mem.slots| && i in s.slab.present && MarkedBy(s, s', h, i)
    && Extends(s.mem, s'.mem, i, false) && Grows(s.mem, s'.mem)
    && s'.mem.slots == s.mem.slots && s'.mem.fronts == s.mem.fronts
    && s' == s.(slab := Marked(s.slab, i), mem := s'.mem, lock := s'.lock, views := s.views[h := Top(s'.mem)],
                ownerMark := s'.ownerMark, entries := s'.entries)
  }

  lemma MarkBorrow(s: State, s': State, h: Holder, i: nat)
    requires BorrowOk(s) && Marks(s, s', h, i)
    ensures BorrowOk(s')
  {
    MarkEntries(s, s', h, i);
    assert Borrowing(s'.chain.holders, s'.mode, s'.ownerMark, s'.entries);
  }

  lemma MarkEntries(s: State, s': State, h: Holder, i: nat)
    requires EntriesOk(s.entries, s.mode, s.slab.present, s.slab.capacity) && MarkedBy(s, s', h, i)
    ensures EntriesOk(s'.entries, s.mode, s.slab.present - {i}, s.slab.capacity) && s'.entries.Keys == s.entries.Keys
  {
  }

  lemma MarkFlying(s: State, s': State, h: Holder, i: nat)
    requires MarkedBy(s, s', h, i)
    ensures forall h', j: nat :: Flying(s'.ownerMark, s'.entries, h', j) <==>
              Flying(s.ownerMark, s.entries, h', j) || (h' == h && j == i)
  {
  }

  lemma MarkOwner(s: State, s': State, h: Holder, i: nat)
    requires BorrowOk(s) && OwnerOk(s) && Mirrors(s.mem, s.slab) && Marks(s, s', h, i)
    ensures OwnerOk(s')
  {
    if Owner in s'.chain.holders {
      forall w: nat
        ensures SeenByWriter(s', w)
      {
        assert SeenByWriter(s, w);
        MarkSeen(s, s', h, i, w);
      }
      if s'.mode.Iterating? {
        MarkCounts(s, s', h, i);
        MarkAhead(s, s', h, i);
      }
    }
  }

  lemma MarkAhead(s: State, s': State, h: Holder, i: nat)
    requires OwnerOk(s) && Owner in s.chain.holders && Mirrors(s.mem, s.slab) && Marks(s, s', h, i)
    requires s.mode.Iterating? && s.views[Owner] == s'.views[Owner] && !(s.mode.head <= i < s.mode.tail)
    ensures forall j: nat :: s'.mode.head <= j < s'.mode.tail ==>
              Exact(s'.mem, s'.views[Owner], s'.slab.present, j) && Sound(s'.mem, s'.views[Owner], j)
  {
    forall j: nat | s.mode.head <= j < s.mode.tail
      ensures Exact(s'.mem, s'.views[Owner], s'.slab.present, j) && Sound(s'.mem, s'.views[Owner], j)
    {
      MarkExact(s.mem, s'.mem, i, s.slab, s.views[Owner], j);
    }
  }

  /** While the iterator lives only its proxies mark, and their slots are behind it. */
  lemma MarkCounts(s: State, s': State, h: Holder, i: nat)
    requires Borrowing(s.chain.holders, s.mode, s.ownerMark, s.entries)
    requires EntriesOk(s.entries, s.mode, s.slab.present, s.slab.capacity)
    requires Owner in s.views && Marks(s, s', h, i) && s.mode.Iterating?
    ensures s'.views[Owner] == s.views[Owner] && !(s.mode.head <= i < s.mode.tail)
    ensures Ahead(s'.slab.present, s.mode.head, s.mode.tail) == Ahead(s.slab.present, s.mode.head, s.mode.tail)
  {
  }

  lemma MarkSeen(s: State, s': State, h: Holder, i: nat, w: nat)
    requires SeenByWriter(s, w) && Marks(s, s', h, i)
    ensures SeenByWriter(s', w)
  {
    if w == WordOf(i) {
      assert Knows(s', h, w);
    } else {
      forall k | Knows(s, k, w)
        ensures Knows(s', k, w)
      {
      }
      StillSeen(s, s', w);
    }
  }

  lemma MarkExact(m: Memory, m': Memory, i: nat, slab: Slab<nat>, v: View, j: nat)
    requires Extends(m, m', i, false) && Mirrors(m, slab) && m'.slots == m.slots && StoresInRange(m')
    requires InRange(m, v) && InRange(m', v) && j < |m.slots| && j != i
    requires Exact(m, v, slab.present, j) && Sound(m, v, j)
    ensures Exact(m', v, slab.present - {i}, j) && Sound(m', v, j)
  {
    SoundThrough(m, m', i, false, v, j);
    assert SetNow(m, j) <==> j in slab.present;
    forall k: nat | v.word[WordOf(j)] <= k < |m'.words[WordOf(j)]|
      ensures Shows(m', k, j) <==> j in slab.present - {i}
    {
      ShowsAfter(m, m', i, false, j, k);
    }
  }

  lemma MarkReaders(s: State, s': State, h: Holder, i: nat)
    requires ReadersOk(s) && Mirrors(s.mem, s.slab) && Marks(s, s', h, i)
    ensures ReadersOk(s')
  {
    forall r | Reader(r) in s'.chain.holders
      ensures ReaderGuarded(s', r)
    {
      assert ReaderGuarded(s, r);
      MarkGuarded(s.mem, s'.mem, s.slab, i, s.pend, s.views[Reader(r)], s.chain.holders[Reader(r)]);
    }
  }

  lemma MarkReferences(s: State, s': State, h: Holder, i: nat)
    requires ReferencesOk(s) && Marks(s, s', h, i)
    ensures ReferencesOk(s')
  {
    forall t, j | t in s'.observers && j in s'.observers[t].seen
      ensures ObserverHolds(s', t, j)
    {
      assert ObserverHolds(s, t, j);
    }
    forall p | p in s'.entries
      ensures EntryHolds(s', p)
    {
      assert EntryHolds(s, p);
    }
  }

  lemma MarkFound(s: State, s': State, h: Holder, i: nat)
    requires FoundOk(s) && Marks(s, s', h, i)
    ensures FoundOk(s')
  {
    forall r, j: nat | r in s'.found && j in s'.found[r]
      ensures ReaderKeeps(s', r, j)
    {
      assert ReaderKeeps(s, r, j);
    }
  }

  lemma MarkMemory(s: State, s': State, h: Holder, i: nat)
    requires Typed(s) && WellFormed(s.slab) && Mirrors(s.mem, s.slab) && h in s.views && i < |s.mem.slots|
    requires MarkedBy(s, s', h, i)
    requires Join(s.views[h], s.lock) == Top(s.mem) && Able(Acting(s.mem, Top(s.mem)))
    requires var a := MarkStores(Acting(s.mem, Top(s.mem)), i);
             s' == s.(slab := Marked(s.slab, i), mem := a.m, lock := a.v, views := s.views[h := a.v],
                      ownerMark := s'.ownerMark, entries := s'.entries)
    ensures Typed(s') && Mirrors(s'.mem, s'.slab) && s'.lock == Top(s'.mem) && Grows(s.mem, s'.mem)
    ensures Extends(s.mem, s'.mem, i, false) && s'.mem.slots == s.mem.slots && s'.mem.fronts == s.mem.fronts
  {
    var act := Acting(s.mem, Top(s.mem));
    MarkShape(act, i);
    MarkExtends(act, s.slab, i);
    MarkMirrors(act, s.slab, i);
    StoresStayInRange(s.mem, s'.mem, i, false);
    assert s'.entries.Keys == s.entries.Keys;
    TypedThrough(s, s', h);
  }

  /** A proxy's item is still there to be marked: the source's assertion never fires. */
  lemma UntouchedIsPresent(s: State, p: nat)
    requires Good(s) && p in s.entries && s.entries[p].stage == Untouched
    ensures s.entries[p].idx in s.slab.present && s.entries[p].idx < |s.mem.slots|
  {
  }

  lemma MarkStored(s: State, h: Holder, i: nat)
    requires Typed(s) && WellFormed(s.slab) && Mirrors(s.mem, s.slab) && MarkEnabled(s, h, i)
    requires i < |s.mem.slots| && i in s.slab.present
    ensures var s' := AfterMark(s, h, i);
            Typed(s') && Mirrors(s'.mem, s'.slab) && Marks(s, s', h, i)
  {
    LockedSeesAll(s, h);
    MarkMemory(s, AfterMark(s, h, i), h, i);
  }

  lemma MarkRecord(s: State, s': State, h: Holder, i: nat)
    requires Marks(s, s', h, i) && PendOk(s.slab, s.chain.gens, s.pend, s.ownerMark, s.entries)
    ensures PendOk(s'.slab, s.chain.gens, s'.pend, s'.ownerMark, s'.entries)
  {
    MarkFlying(s, s', h, i);
    MarkPend(s, s', h, i);
  }

  lemma MarkRest(s: State, s': State, h: Holder, i: nat)
    requires BorrowOk(s) && OwnerOk(s) && ReadersOk(s) && ReferencesOk(s) && FoundOk(s)
    requires Mirrors(s.mem, s.slab) && Marks(s, s', h, i)
    ensures BorrowOk(s') && OwnerOk(s') && ReadersOk(s') && ReferencesOk(s') && FoundOk(s')
  {
    MarkBorrow(s, s', h, i);
    MarkOwner(s, s', h, i);
    MarkReaders(s, s', h, i);
    MarkReferences(s, s', h, i);
    MarkFound(s, s', h, i);
  }

  lemma MarkKeeps(s: State, h: Holder, i: nat)
    requires Good(s) && MarkEnabled(s, h, i)
    ensures i < |s.mem.slots| && Good(AfterMark(s, h, i)) && Marks(s, AfterMark(s, h, i), h, i)
  {
    if h != Owner {
      UntouchedIsPresent(s, h.id);
    }
    MarkStored(s, h, i);
    MarkRest(s, AfterMark(s, h, i), h, i);
    MarkRecord(s, AfterMark(s, h, i), h, i);
  }

  // Finalizing.

  lemma FinalizeGuarded(
    m: Memory, m': Memory, s: Slab<nat>, pend: seq<seq<nat>>, g0: nat, u: View, g: nat)
    requires g0 < |pend| && g0 < g && WellFormed(s) && Mirrors(m, s)
    requires NoDuplicates(pend[g0]) && forall j: nat :: j in pend[g0] ==> j in Pending(s)
    requires SlotsGrow(m, m') && StoresInRange(m') && InRange(m, u) && InRange(m', u)
    requires forall j: nat :: j < |m.slots| && j !in pend[g0] ==> m'.slots[j] == m.slots[j]
    requires Guarded(m, s, pend, u, g)
    ensures Guarded(m', FinalizedAll(s, pend[g0]), pend[g0 := []], u, g)
  {
    var s' := FinalizedAll(s, pend[g0]);
    forall j: nat | j < |m'.slots|
      ensures Sound(m', u, j)
      ensures j !in s'.items ==> Covered(m', u, j)
    {
      GrowingForReader(m, m', u, j);
      assert Sound(m, u, j) && (j !in s.items ==> Covered(m, u, j));
      if j in pend[g0] {
        assert RecordedIn(pend, g0, j) && Covered(m, u, j);
      }
    }
    var pend' := pend[g0 := []];
    forall g': nat, j: nat | g' < g && j < |m'.slots| && RecordedIn(pend', g', j)
      ensures Covered(m', u, j)
    {
      assert RecordedIn(pend, g', j) && Covered(m, u, j);
      GrowingForReader(m, m', u, j);
    }
  }

  lemma FinalizePend<T>(slab: Slab<T>, gens: seq<Gen>, pend: seq<seq<nat>>, ownerMark: Option<nat>,
                     entries: map<nat, Entry>, g: nat)
    requires PendOk(slab, gens, pend, ownerMark, entries) && g < |pend| == |gens| && Clean(slab, pend[g])
    ensures PendOk(FinalizedAll(slab, pend[g]), gens[g := gens[g].(phase := Finalized)], pend[g := []],
                   ownerMark, entries)
  {
    var slab', pend' := FinalizedAll(slab, pend[g]), pend[g := []];
    assert Pending(slab') == Pending(slab) - Elements(pend[g]);
    forall g': nat, i: nat | RecordedIn(pend', g', i)
      ensures RecordedIn(pend, g', i) && i !in pend[g]
    {
      NotInTwoLists(pend, g, g', i);
    }
    forall i: nat | i in Pending(slab')
      ensures (exists g': nat :: RecordedIn(pend', g', i)) || (exists h :: Flying(ownerMark, entries, h, i))
    {
      assert i !in pend[g];
      if g': nat :| RecordedIn(pend, g', i) {
        assert RecordedIn(pend', g', i);
      }
    }
    forall h, i: nat | Flying(ownerMark, entries, h, i)
      ensures i in Pending(slab')
    {
      assert !RecordedIn(pend, g, i);
    }
  }

  lemma NotInTwoLists(pend: seq<seq<nat>>, g: nat, g': nat, i: nat)
    requires NoRepeats(pend) && g < |pend| && g' < |pend| && g != g' && i in pend[g']
    ensures i !in pend[g]
  {
    var k' :| 0 <= k' < |pend[g']| && pend[g'][k'] == i;
    assert forall k :: 0 <= k < |pend[g]| ==> pend[g][k] != pend[g'][k'];
  }

  /** Generation `g`'s list is finalized: its slots are written, everything else alone. */
  ghost predicate Finalizes(s: State, s': State, g: nat) {
    && g < |s.pend| && g < |s.chain.gens| && Clean(s.slab, s.pend[g]) && s.slab.capacity == |s.mem.slots|
    && SlotsGrow(s.mem, s'.mem) && Grows(s.mem, s'.mem) && s'.lock == Top(s'.mem)
    && (forall j: nat :: j < |s.mem.slots| && j !in s.pend[g] ==> s'.mem.slots[j] == s.mem.slots[j])
    && s' == s.(chain := FinalizedGen(s.chain, g), slab := FinalizedAll(s.slab, s.pend[g]),
                destroyed := s'.destroyed, pend := s.pend[g := []], mem := s'.mem, lock := s'.lock)
  }

  lemma FinalizeTyped(s: State, s': State, g: nat)
    requires Typed(s) && Finalizes(s, s', g) && s.chain.gens[g].phase == Dying
    ensures Typed(s')
  {
    FinalizeKeeps(s.chain, g);
    GrowingStaysInRange(s.mem, s'.mem);
    forall t | t in s'.observers
      ensures Observing(s', s'.observers[t])
    {
      assert Observing(s, s.observers[t]);
    }
  }

  lemma FinalizeBorrow(s: State, s': State, g: nat)
    requires BorrowOk(s) && Finalizes(s, s', g)
    ensures BorrowOk(s')
  {
  }

  lemma FinalizeOwner(s: State, s': State, g: nat)
    requires OwnerOk(s) && Mirrors(s.mem, s.slab) && Finalizes(s, s', g)
    ensures OwnerOk(s')
  {
    if Owner in s'.chain.holders {
      forall w: nat
        ensures SeenByWriter(s', w)
      {
        assert SeenByWriter(s, w);
        StillSeen(s, s', w);
      }
      if s'.mode.Iterating? {
        forall j: nat | s.mode.head <= j < s.mode.tail
          ensures Exact(s'.mem, s'.views[Owner], s'.slab.present, j) && Sound(s'.mem, s'.views[Owner], j)
        {
          FinalizeExact(s.mem, s'.mem, s.slab, s.pend[g], s.views[Owner], j);
        }
      }
    }
  }

  lemma FinalizeExact(m: Memory, m': Memory, slab: Slab<nat>, list: seq<nat>, v: View, j: nat)
    requires SlotsGrow(m, m') && StoresInRange(m) && StoresInRange(m') && InRange(m, v) && InRange(m', v)
    requires j < |m.slots| && Exact(m, v, slab.present, j) && Sound(m, v, j)
    requires j !in list ==> m'.slots[j] == m.slots[j]
    requires forall i: nat :: i in list ==> i in Pending(slab)
    ensures Exact(m', v, slab.present, j) && Sound(m', v, j)
  {
    assert forall k: nat :: Shows(m', k, j) == Shows(m, k, j);
    if j in list {
      assert Covered(m, v, j);
    }
    GrowingForReader(m, m', v, j);
  }

  lemma FinalizeReaders(s: State, s': State, g: nat)
    requires ReadersOk(s) && Mirrors(s.mem, s.slab) && Finalizes(s, s', g)
    requires forall h :: h in s.chain.holders ==> s.chain.holders[h] > g
    ensures ReadersOk(s')
  {
    forall r | Reader(r) in s'.chain.holders
      ensures ReaderGuarded(s', r)
    {
      assert ReaderGuarded(s, r);
      FinalizeGuarded(s.mem, s'.mem, s.slab, s.pend, g, s.views[Reader(r)], s.chain.holders[Reader(r)]);
    }
  }

  lemma FinalizeReferences(s: State, s': State, g: nat)
    requires ReferencesOk(s) && Finalizes(s, s', g)
    requires forall h :: h in s.chain.holders ==> s.chain.holders[h] > g
    ensures ReferencesOk(s')
  {
    forall t, j | t in s'.observers && j in s'.observers[t].seen
      ensures ObserverHolds(s', t, j)
    {
      var o := s.observers[t];
      assert ObserverHolds(s, t, j);
      FinalizeKept(s, s', g, s.chain.holders[Reader(o.reader)], j, Found(o.seen[j], o.view.slot[j]));
    }
    forall p | p in s'.entries
      ensures EntryHolds(s', p)
    {
      var e := s.entries[p];
      assert EntryHolds(s, p);
      FinalizeKept(s, s', g, s.chain.holders[Proxy(p)], e.idx, Found(e.value, s.views[Proxy(p)].slot[e.idx]));
    }
  }

  lemma FinalizeFound(s: State, s': State, g: nat)
    requires FoundOk(s) && Finalizes(s, s', g) && forall h :: h in s.chain.holders ==> s.chain.holders[h] > g
    ensures FoundOk(s')
  {
    forall r, j: nat | r in s'.found && j in s'.found[r]
      ensures ReaderKeeps(s', r, j)
    {
      assert ReaderKeeps(s, r, j);
      FinalizeKept(s, s', g, s.chain.holders[Reader(r)], j, s.found[r][j]);
    }
  }

  /** What a later generation keeps is not touched. */
  lemma FinalizeKept(s: State, s': State, g: nat, held: nat, i: nat, f: Found)
    requires Finalizes(s, s', g) && held > g && Kept(s.mem, s.slab, s.pend, held, i, f)
    ensures Kept(s'.mem, s'.slab, s'.pend, held, i, f)
  {
    assert !RecordedIn(s.pend, g, i);
    forall g': nat | g' < held
      ensures !RecordedIn(s'.pend, g', i)
    {
      assert !RecordedIn(s.pend, g', i);
    }
  }

  /** Destroying a list of allocated slots' items, in order. */
  lemma FinalizeItems(slab: Slab<nat>, inserted: nat, destroyed: seq<nat>, list: seq<nat>)
    requires Clean(slab, list) && ItemsOk(slab.items, inserted, destroyed, false)
    ensures ItemsOk(FinalizedAll(slab, list).items, inserted,
                    destroyed + ItemsAt(slab.items, list), false)
  {
    var items' := FinalizedAll(slab, list).items;
    var more := ItemsAt(slab.items, list);
    TakenOnce(slab.items, inserted, destroyed, list);
    forall x: nat | x < inserted
      ensures x in destroyed + more <==> !Stored(items', x)
    {
      FinalizedOrStored(slab.items, list, x);
    }
  }

  lemma TakenOnce(items: map<nat, nat>, inserted: nat, destroyed: seq<nat>, list: seq<nat>)
    requires ItemsOk(items, inserted, destroyed, false) && NoDuplicates(list)
    requires forall n :: 0 <= n < |list| ==> list[n] in items
    ensures NoDuplicates(destroyed + ItemsAt(items, list))
    ensures forall x: nat :: x in destroyed + ItemsAt(items, list) ==> x < inserted
  {
    var more := ItemsAt(items, list);
    assert forall n :: 0 <= n < |list| ==> Stored(items, more[n]);
    assert forall k :: 0 <= k < |destroyed| ==> destroyed[k] in destroyed;
  }

  lemma FinalizedOrStored(items: map<nat, nat>, list: seq<nat>, x: nat)
    requires Injective(items) && forall n :: 0 <= n < |list| ==> list[n] in items
    ensures Stored(items, x) <==> x in ItemsAt(items, list) || Stored(items - Elements(list), x)
    ensures !(x in ItemsAt(items, list) && Stored(items - Elements(list), x))
  {
    var more := ItemsAt(items, list);
    assert forall n :: 0 <= n < |list| ==> list[n] in list && more[n] == items[list[n]];
    if Stored(items, x) {
      var i :| i in items && items[i] == x;
      if i in list {
        var n :| 0 <= n < |list| && list[n] == i;
        assert more[n] == x;
      } else {
        assert i in items - Elements(list) && (items - Elements(list))[i] == x;
      }
    }
  }

  lemma FinalizeStored(s: State, g: nat)
    requires Typed(s) && Mirrors(s.mem, s.slab) && g < |s.chain.gens| && Clean(s.slab, s.pend[g])
    ensures var s' := AfterFinalize(s, g);
            Mirrors(s'.mem, s'.slab) && Finalizes(s, s', g)
  {
    CleanIsInRange(s, g);
    FreeKeeps(Acting(s.mem, s.lock), s.slab, s.pend[g]);
    FreeShape(Acting(s.mem, s.lock), s.pend[g]);
    GrowingStaysInRange(s.mem, AfterFinalize(s, g).mem);
  }

  lemma FinalizeRest(s: State, s': State, g: nat)
    requires Typed(s) && OwnerOk(s) && ReadersOk(s) && ReferencesOk(s) && FoundOk(s) && Mirrors(s.mem, s.slab)
    requires Finalizes(s, s', g) && s.chain.gens[g].phase == Dying
    ensures Typed(s') && OwnerOk(s') && ReadersOk(s') && ReferencesOk(s') && FoundOk(s')
  {
    FinalizeTyped(s, s', g);
    FinalizeOwner(s, s', g);
    FinalizedInOrder(s.chain, g);
    FinalizeReaders(s, s', g);
    FinalizeReferences(s, s', g);
    FinalizeFound(s, s', g);
  }

  lemma FinalizeGenerationKeeps(s: State, g: nat)
    requires Good(s) && Enabled(s, FinalizeGeneration(g))
    ensures Clean(s.slab, s.pend[g]) && Good(AfterFinalize(s, g))
  {
    PendingListIsClean(s.slab, s.chain.gens, s.pend, s.ownerMark, s.entries, g);
    FinalizeStored(s, g);
    FinalizeRest(s, AfterFinalize(s, g), g);
    FinalizeBorrow(s, AfterFinalize(s, g), g);
    FinalizePend(s.slab, s.chain.gens, s.pend, s.ownerMark, s.entries, g);
    StorageStands(s, g);
    FinalizeItems(s.slab, s.inserted, s.destroyed, s.pend[g]);
  }

  lemma StorageStands(s: State, g: nat)
    requires Typed(s) && g < |s.chain.gens| && s.chain.gens[g].phase != Gone
    ensures s.storageDropped == false
  {
  }

  // Dropping the storage.

  /** A marked slot is waiting on something that is still there. */
  lemma PendingIsAwaited(s: State, i: nat)
    requires PendOk(s.slab, s.chain.gens, s.pend, s.ownerMark, s.entries) && i in Pending(s.slab)
    requires |s.pend| == |s.chain.gens| && (forall p :: p in s.entries ==> Proxy(p) in s.chain.holders)
    requires s.ownerMark.Some? ==> Owner in s.chain.holders
    ensures !AllGone(s.chain)
  {
    if g: nat :| RecordedIn(s.pend, g, i) {
      assert s.chain.gens[g].phase != Gone;
    } else {
      var h :| Flying(s.ownerMark, s.entries, h, i);
      assert h in s.chain.holders;
    }
  }

  /** With every generation gone, nothing is left marked but not finalized. */
  lemma NothingPending(s: State)
    requires Good(s) && AllGone(s.chain)
    ensures s.slab.items.Keys == s.slab.present
  {
    forall i | i in s.slab.items
      ensures i in s.slab.present
    {
      if i in Pending(s.slab) {
        PendingIsAwaited(s, i);
      }
    }
  }

  ghost predicate Injective(items: map<nat, nat>) {
    forall i, j :: i in items && j in items && items[i] == items[j] ==> i == j
  }

  lemma {:induction false} PresentItemsList(slab: Slab<nat>, lo: nat)
    requires WellFormed(slab) && Injective(slab.items)
    ensures forall x: nat {:trigger x in PresentItems(slab, lo)} ::
              x in PresentItems(slab, lo) <==> exists i :: i in slab.present && i >= lo && slab.items[i] == x
    ensures NoDuplicates(PresentItems(slab, lo))
    decreases slab.capacity - lo
  {
    if lo < slab.capacity {
      PresentItemsList(slab, lo + 1);
      var rest := PresentItems(slab, lo + 1);
      if lo in slab.present {
        assert slab.items[lo] !in rest;
        assert forall b :: 0 <= b < |rest| ==> rest[b] in rest;
      }
    }
  }

  lemma DropStorageItems(slab: Slab<nat>, inserted: nat, destroyed: seq<nat>)
    requires WellFormed(slab) && slab.items.Keys == slab.present
    requires ItemsOk(slab.items, inserted, destroyed, false)
    ensures ItemsOk(slab.items, inserted, destroyed + PresentItems(slab, 0), true)
  {
    PresentItemsList(slab, 0);
    var last := PresentItems(slab, 0);
    forall x: nat | x in last
      ensures x < inserted && x !in destroyed
    {
      var i :| i in slab.present && slab.items[i] == x;
      assert Stored(slab.items, x);
    }
    assert forall a :: 0 <= a < |destroyed| ==> destroyed[a] in destroyed;
    assert forall b :: 0 <= b < |last| ==> last[b] in last;
    forall x: nat | x < inserted
      ensures x in destroyed + last
    {
      if x !in destroyed {
        var i :| i in slab.items && slab.items[i] == x;
        assert x in last;
      }
    }
  }

  lemma DropStorageRest(s: State)
    requires Typed(s) && AllGone(s.chain) && WellFormed(s.slab)
    ensures var s' := AfterDropStorage(s);
            Typed(s') && OwnerOk(s') && ReadersOk(s') && ReferencesOk(s') && FoundOk(s')
  {
    if s.observers != map[] {
      var t :| t in s.observers;
      ObserverHasReader(s, t);
    }
    assert forall r :: r !in s.found;
  }

  lemma ObserverHasReader(s: State, t: nat)
    requires Typed(s) && t in s.observers
    ensures s.chain.holders != map[]
  {
    assert Observing(s, s.observers[t]);
  }

  lemma DropStorageKeeps(s: State)
    requires Good(s) && Enabled(s, DropStorage)
    ensures Good(AfterDropStorage(s))
  {
    NothingPending(s);
    DropStorageItems(s.slab, s.inserted, s.destroyed);
    DropStorageRest(s);
  }

  /** Every step of this kind keeps the invariant. */
  lemma StoreStepKeeps(s: State, step: Step)
    requires Good(s) && Enabled(s, step) && !HandleStep(step) && !AccessStep(step)
    ensures MarksInRange(s) && ListsAreClean(s) && Good(StoreNext(s, step))
  {
    StoresAreReady(s);
    match step
    case Insert => InsertKeeps(s);
    case Mark(h, i) => MarkKeeps(s, h, i);
    case Push(h) => PushKeeps(s, h);
    case FinalizeGeneration(g) => FinalizeGenerationKeeps(s, g);
    case DropStorage => DropStorageKeeps(s);
  }
}
