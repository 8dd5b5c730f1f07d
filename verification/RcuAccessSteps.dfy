/** Loads, the reader handles the writer creates, and recording a removal. */
module RcuAccessSteps {
  import opened Options
  import opened Words
  import opened SlabSpec
  import opened GenerationChain
  import opened StoreHistory
  import opened RcuMachine
  import opened RcuHandleSteps

  // The writer's own view.

  /** With nothing borrowed, the writer has seen every flag store. */
  lemma WriterHasSeenAll(s: State)
    requires Typed(s) && OwnerOk(s) && Owner in s.chain.holders && s.entries == map[]
    ensures forall w :: 0 <= w < |s.mem.words| ==> s.views[Owner].word[w] == |s.mem.words[w]| - 1
  {
    forall w: nat | w < |s.mem.words|
      ensures s.views[Owner].word[w] == |s.mem.words[w]| - 1
    {
      assert SeenByWriter(s, w);
    }
  }

  lemma UpToDateIsExact(mem: Memory, slab: Slab<nat>, v: View, i: nat)
    requires Mirrors(mem, slab) && InRange(mem, v) && i < |mem.slots|
    requires v.word[WordOf(i)] == |mem.words[WordOf(i)]| - 1
    ensures Exact(mem, v, slab.present, i) && Sound(mem, v, i)
    ensures i !in slab.present ==> Covered(mem, v, i)
  {
    assert SetNow(mem, i) <==> i in slab.present;
  }

  /** So a reader it creates is guarded. */
  lemma WriterIsGuarded(s: State)
    requires Typed(s) && OwnerOk(s) && Owner in s.chain.holders && s.entries == map[]
    requires WellFormed(s.slab) && Mirrors(s.mem, s.slab)
    requires PendOk(s.slab, s.chain.gens, s.pend, s.ownerMark, s.entries)
    ensures Guarded(s.mem, s.slab, s.pend, s.views[Owner], s.chain.holders[Owner])
  {
    WriterHasSeenAll(s);
    forall i: nat | i < |s.mem.slots|
      ensures Sound(s.mem, s.views[Owner], i)
      ensures i !in s.slab.present ==> Covered(s.mem, s.views[Owner], i)
    {
      UpToDateIsExact(s.mem, s.slab, s.views[Owner], i);
    }
    forall g: nat, i: nat | i < |s.mem.slots| && RecordedIn(s.pend, g, i)
      ensures Covered(s.mem, s.views[Owner], i)
    {
      assert i in Pending(s.slab);
    }
  }

  lemma NewReaderKeeps(s: State, id: nat)
    requires Good(s) && Enabled(s, NewReader(id))
    ensures Good(AfterNewReader(s, id, Owner))
  {
    WriterIsGuarded(s);
    NewReaderTyped(s, id, Owner);
    NewReaderBorrow(s, AfterNewReader(s, id, Owner), id, s.chain.holders[Owner]);
    NewReaderRest(s, id, Owner);
    NewReaderPend(s, id, Owner);
  }

  // Loads.

  /** A guarded reader's load of a set flag finds the slot's current item, and that item
      was not removed in any older generation. */
  lemma GuardedLoad(mem: Memory, slab: Slab<nat>, pend: seq<seq<nat>>, handle: View, v: View, g: nat, i: nat, k: nat)
    requires Mirrors(mem, slab) && InRange(mem, handle) && InRange(mem, v) && Below(handle, v)
    requires Guarded(mem, slab, pend, handle, g)
    requires i < |mem.slots| && v.word[WordOf(i)] <= k && Shows(mem, k, i)
    ensures var v' := Acquire(mem, v, WordOf(i), k);
            && InRange(mem, v') && Below(v, v')
            && Held(mem, slab, pend, v', g, i, ReadSlot(mem, v', i))
            && forall t :: v'.front <= t < |mem.fronts| ==> i < mem.fronts[t]
  {
    assert !Covered(mem, handle, i);
    assert Sound(mem, handle, i);
    assert Sound(mem, v, i);
    LoadIsSound(mem, slab, v, i, k);
    AcquireKeepsRange(mem, v, WordOf(i), k);
    assert forall g': nat :: g' < g ==> !RecordedIn(pend, g', i);
  }

  /** What a load does to the observer and to what its reader has found. */
  ghost predicate LoadedBy(s: State, s': State, t: nat, i: nat, shown: bool)
    requires Typed(s) && t in s.observers
  {
    var o := s.observers[t];
    && s' == s.(observers := s'.observers, found := s'.found)
    && t in s'.observers && s'.observers == s.observers[t := s'.observers[t]]
    && s'.observers[t].reader == o.reader && Reader(o.reader) in s.chain.holders
    && InRange(s.mem, s'.observers[t].view) && Below(o.view, s'.observers[t].view)
    && if shown then
         && i < |s.mem.slots| && i in s'.observers[t].seen && o.reader in s'.found
         && s'.observers[t].seen == o.seen[i := s'.observers[t].seen[i]]
         && Held(s.mem, s.slab, s.pend, s'.observers[t].view, s.chain.holders[Reader(o.reader)], i,
                 s'.observers[t].seen[i])
         && s'.found == s.found[o.reader := s'.found[o.reader]]
         && s'.found[o.reader]
            == s.found[o.reader][i := Found(s'.observers[t].seen[i], s'.observers[t].view.slot[i])]
       else s'.observers[t].seen == o.seen && s'.found == s.found
  }

  lemma LoadIsHeld(s: State, t: nat, i: nat, k: nat)
    requires Typed(s) && Mirrors(s.mem, s.slab) && ReadersOk(s) && LoadEnabled(s, t, i, k)
    ensures LoadedBy(s, AfterLoad(s, t, i, k), t, i, Shows(s.mem, k, i))
  {
    var o := s.observers[t];
    assert Observing(s, o);
    AcquireKeepsRange(s.mem, o.view, WordOf(i), k);
    var r := Reader(o.reader);
    if Shows(s.mem, k, i) {
      GuardedLoad(s.mem, s.slab, s.pend, s.views[r], o.view, s.chain.holders[r], i, k);
    }
  }

  lemma LoadTyped(s: State, s': State, t: nat, i: nat, shown: bool)
    requires Typed(s) && t in s.observers && LoadedBy(s, s', t, i, shown)
    ensures Typed(s')
  {
    assert s'.chain == s.chain && s'.mem == s.mem;
    forall u | u in s'.observers
      ensures Observing(s', s'.observers[u])
    {
      assert Observing(s, s.observers[u]);
    }
  }

  lemma LoadReferences(s: State, s': State, t: nat, i: nat, shown: bool)
    requires Typed(s) && ReferencesOk(s) && t in s.observers && LoadedBy(s, s', t, i, shown)
    ensures ReferencesOk(s')
  {
    forall u, j | u in s'.observers && j in s'.observers[u].seen
      ensures ObserverHolds(s', u, j)
    {
      if u != t || j != i || !shown {
        assert ObserverHolds(s, u, j);
      }
    }
    forall p | p in s'.entries
      ensures EntryHolds(s', p)
    {
      assert EntryHolds(s, p);
    }
  }

  lemma LoadFound(s: State, s': State, t: nat, i: nat, shown: bool)
    requires Typed(s) && FoundOk(s) && t in s.observers && LoadedBy(s, s', t, i, shown)
    ensures FoundOk(s')
  {
    var r0 := s.observers[t].reader;
    forall r, j: nat | r in s'.found && j in s'.found[r]
      ensures ReaderKeeps(s', r, j)
    {
      if r != r0 || j != i || !shown {
        assert ReaderKeeps(s, r, j);
      }
    }
  }

  lemma LoadRest(s: State, s': State)
    requires s' == s.(observers := s'.observers, found := s'.found)
    requires BorrowOk(s) && OwnerOk(s) && ReadersOk(s)
    ensures BorrowOk(s') && OwnerOk(s') && ReadersOk(s')
  {
    if Owner in s.chain.holders {
      forall w: nat
        ensures SeenByWriter(s', w)
      {
        assert SeenByWriter(s, w);
        StillSeen(s, s', w);
      }
    }
    forall r | Reader(r) in s'.chain.holders
      ensures ReaderGuarded(s', r)
    {
      assert ReaderGuarded(s, r);
    }
  }

  lemma LoadKeeps(s: State, t: nat, i: nat, k: nat)
    requires Good(s) && LoadEnabled(s, t, i, k)
    ensures Good(AfterLoad(s, t, i, k))
  {
    var s', shown := AfterLoad(s, t, i, k), Shows(s.mem, k, i);
    LoadIsHeld(s, t, i, k);
    LoadTyped(s, s', t, i, shown);
    LoadReferences(s, s', t, i, shown);
    LoadFound(s, s', t, i, shown);
    LoadRest(s, s');
  }

  // Recording a removal.

  /** Where `h`'s removals are recorded, no reader or proxy belongs to a newer generation. */
  lemma NobodyIsNewer(s: State, h: Holder)
    requires BorrowOk(s) && h in s.chain.holders
    requires (h == Owner && s.ownerMark.Some?) || (h.Proxy? && h.id in s.entries)
    ensures forall r :: Reader(r) in s.chain.holders ==> s.chain.holders[Reader(r)] <= s.chain.holders[h]
    ensures forall p :: p in s.entries ==> s.chain.holders[Proxy(p)] <= s.chain.holders[h]
  {
  }

  lemma PushPend(s: State, s': State, h: Holder, i: nat)
    requires Typed(s) && Pushes(s, s', h, i)
    requires PendOk(s.slab, s.chain.gens, s.pend, s.ownerMark, s.entries)
    ensures PendOk(s.slab, s.chain.gens, s'.pend, s'.ownerMark, s'.entries)
  {
    var g0 := s.chain.holders[h];
    HeldIsLive(s.chain, h);
    PushFlying(s, s', h, i);
    PushRecords(s, s', h, i);
    PushNoRepeats(s.pend, g0, i);
    forall j: nat | j in Pending(s.slab)
      ensures (exists g: nat :: RecordedIn(s'.pend, g, j)) || (exists h' :: Flying(s'.ownerMark, s'.entries, h', j))
    {
      if g: nat :| RecordedIn(s.pend, g, j) {
        assert RecordedIn(s'.pend, g, j);
      } else {
        var h' :| Flying(s.ownerMark, s.entries, h', j);
        if h' == h {
          assert RecordedIn(s'.pend, g0, j);
        } else {
          assert Flying(s'.ownerMark, s'.entries, h', j);
        }
      }
    }
  }

  lemma PushNoRepeats(pend: seq<seq<nat>>, g: nat, i: nat)
    requires NoRepeats(pend) && g < |pend| && forall g': nat :: !RecordedIn(pend, g', i)
    ensures NoRepeats(RecordedAlso(pend, g, i))
  {
    var pend' := RecordedAlso(pend, g, i);
    forall g1, k1, g2, k2 | 0 <= g1 < |pend'| && 0 <= k1 < |pend'[g1]| && 0 <= g2 < |pend'| && 0 <= k2 < |pend'[g2]|
                            && pend'[g1][k1] == pend'[g2][k2]
      ensures g1 == g2 && k1 == k2
    {
      assert forall g', k :: 0 <= g' < |pend| && 0 <= k < |pend[g']| ==> RecordedIn(pend, g', pend[g'][k]);
    }
  }

  /** How a push changes who has a removal in flight. */
  ghost predicate PushedBy(s: State, s': State, h: Holder) {
    match h
    case Owner => s'.ownerMark == None && s'.entries == s.entries
    case Proxy(p) =>
      && p in s.entries && s'.ownerMark == s.ownerMark
      && s'.entries == s.entries[p := s.entries[p].(stage := Recorded)]
    case _ => false
  }

  /** `h` moves slot `i` from flight to its generation's list, and nothing else changes. */
  ghost predicate Pushes(s: State, s': State, h: Holder, i: nat) {
    && h in s.chain.holders && s.chain.holders[h] < |s.pend| && Flying(s.ownerMark, s.entries, h, i)
    && PushedBy(s, s', h)
    && s' == s.(pend := RecordedAlso(s.pend, s.chain.holders[h], i), ownerMark := s'.ownerMark, entries := s'.entries)
  }

  lemma PushShape(s: State, h: Holder)
    requires Typed(s) && PushEnabled(s, h)
    ensures Pushes(s, AfterPush(s, h), h, FlyingSlot(s, h))
  {
  }

  lemma PushTyped(s: State, s': State, h: Holder, i: nat)
    requires Typed(s) && Pushes(s, s', h, i)
    ensures Typed(s')
  {
    ReadersOfObservers(s);
    ObserversStay(s, s');
    assert s'.entries.Keys == s.entries.Keys;
  }

  lemma PushBorrow(s: State, s': State, h: Holder, i: nat)
    requires BorrowOk(s) && Pushes(s, s', h, i)
    ensures BorrowOk(s')
  {
    assert s'.entries.Keys == s.entries.Keys;
  }

  lemma PushOwner(s: State, s': State, h: Holder, i: nat)
    requires OwnerOk(s) && Pushes(s, s', h, i)
    ensures OwnerOk(s')
  {
    assert s'.entries.Keys == s.entries.Keys;
    if Owner in s.chain.holders {
      forall w: nat
        ensures SeenByWriter(s', w)
      {
        assert SeenByWriter(s, w);
        StillSeen(s, s', w);
      }
    }
  }

  lemma PushFlying(s: State, s': State, h: Holder, i: nat)
    requires Pushes(s, s', h, i)
    ensures forall h', j: nat :: Flying(s'.ownerMark, s'.entries, h', j) <==>
              Flying(s.ownerMark, s.entries, h', j) && h' != h
  {
  }

  lemma PushRecords(s: State, s': State, h: Holder, i: nat)
    requires Pushes(s, s', h, i)
    ensures forall g: nat, j: nat :: RecordedIn(s'.pend, g, j) <==>
              RecordedIn(s.pend, g, j) || (g == s.chain.holders[h] && j == i)
  {
  }

  lemma PushReaders(s: State, s': State, h: Holder, i: nat)
    requires ReadersOk(s) && Pushes(s, s', h, i)
    requires forall r :: Reader(r) in s.chain.holders ==> s.chain.holders[Reader(r)] <= s.chain.holders[h]
    ensures ReadersOk(s')
  {
    PushRecords(s, s', h, i);
    forall r | Reader(r) in s'.chain.holders
      ensures ReaderGuarded(s', r)
    {
      assert ReaderGuarded(s, r);
    }
  }

  lemma PushReferences(s: State, s': State, h: Holder, i: nat)
    requires ReferencesOk(s) && Pushes(s, s', h, i)
    requires forall r :: Reader(r) in s.chain.holders ==> s.chain.holders[Reader(r)] <= s.chain.holders[h]
    requires forall p :: p in s.entries ==> s.chain.holders[Proxy(p)] <= s.chain.holders[h]
    ensures ReferencesOk(s')
  {
    PushRecords(s, s', h, i);
    forall t, j | t in s'.observers && j in s'.observers[t].seen
      ensures ObserverHolds(s', t, j)
    {
      assert ObserverHolds(s, t, j);
    }
    forall p | p in s'.entries
      ensures EntryHolds(s', p)
    {
      assert EntryHolds(s, p);
    }
  }

  lemma PushFound(s: State, s': State, h: Holder, i: nat)
    requires FoundOk(s) && Pushes(s, s', h, i)
    requires forall r :: Reader(r) in s.chain.holders ==> s.chain.holders[Reader(r)] <= s.chain.holders[h]
    ensures FoundOk(s')
  {
    PushRecords(s, s', h, i);
    forall r, j: nat | r in s'.found && j in s'.found[r]
      ensures ReaderKeeps(s', r, j)
    {
      assert ReaderKeeps(s, r, j);
    }
  }

  lemma PushRest(s: State, s': State, h: Holder, i: nat)
    requires BorrowOk(s) && ReadersOk(s) && ReferencesOk(s) && FoundOk(s)
    requires (forall p :: p in s.entries ==> Proxy(p) in s.chain.holders)
    requires Pushes(s, s', h, i)
    ensures ReadersOk(s') && ReferencesOk(s') && FoundOk(s')
  {
    NobodyIsNewer(s, h);
    PushReaders(s, s', h, i);
    PushReferences(s, s', h, i);
    PushFound(s, s', h, i);
  }

  lemma PushKeeps(s: State, h: Holder)
    requires Good(s) && PushEnabled(s, h)
    ensures Good(AfterPush(s, h))
  {
    var s', i := AfterPush(s, h), FlyingSlot(s, h);
    PushShape(s, h);
    PushTyped(s, s', h, i);
    PushBorrow(s, s', h, i);
    PushOwner(s, s', h, i);
    PushPend(s, s', h, i);
    PushRest(s, s', h, i);
  }
}
