/** What holds in every run of the slab, from zeroed memory to the storage's destructor. */
module RcuTheorems {
  import opened Options
  import opened Paths
  import opened Words
  import opened SlabSpec
  import opened GenerationChain
  import opened StoreHistory
  import opened RcuMachine
  import opened RcuFrames
  import opened RcuHandleSteps
  import opened RcuAccessSteps
  import opened RcuIterationSteps
  import opened RcuStoreSteps

  // Runs.

  ghost predicate Takes(s: State, step: Step, s': State) {
    Good(s) && Enabled(s, step) && s' == Next(s, step)
  }

  ghost predicate Runs(s: State, steps: seq<Step>, s': State) {
    Path(Takes, s, steps, s')
  }

  lemma StartIsGood(capacity: nat)
    requires capacity > 0
    ensures Good(Start(capacity))
  {
    var s := Start(capacity);
    StartIsTyped(capacity);
    assert forall w: nat :: SeenByWriter(s, w);
    assert forall g: nat, i: nat :: !RecordedIn(s.pend, g, i);
  }

  lemma StartIsTyped(capacity: nat)
    requires capacity > 0
    ensures var s := Start(capacity); Typed(s) && Mirrors(s.mem, s.slab)
  {
    GenerationChain.StartIsGood();
    assert Top(Start(capacity).mem) == Start(capacity).lock;
  }

  lemma AccessStepKeeps(s: State, step: Step)
    requires Good(s) && Enabled(s, step) && AccessStep(step)
    ensures Good(AccessNext(s, step))
  {
    match step
    case StartIterMut => StartIterMutKeeps(s);
    case Yield(end, found, p, k) => YieldKeeps(s, end, found, p, k);
    case EndEntry(p) => EndEntryKeeps(s, p);
    case Load(t, i, k) => LoadKeeps(s, t, i, k);
  }

  lemma HandleStepKeeps(s: State, step: Step)
    requires Good(s) && Enabled(s, step) && HandleStep(step)
    ensures Good(HandleNext(s, step))
  {
    if step.NewReader? {
      NewReaderKeeps(s, step.id);
    } else if step.CloneReader? {
      CloneKeeps(s, step.source, step.id);
    } else if step.Attach? || step.Detach? {
      ObserverStepKeeps(s, step);
    } else if step.DropReader? || step.DropProxy? || step.DropOwner? {
      DropStepKeeps(s, step);
    } else {
      ChainStepKeeps(s, step);
    }
  }

  /** Every step keeps the invariant. */
  lemma StepKeeps(s: State, step: Step)
    requires Good(s) && Enabled(s, step)
    ensures Good(Next(s, step))
  {
    if HandleStep(step) {
      HandleStepKeeps(s, step);
    } else if AccessStep(step) {
      AccessStepKeeps(s, step);
    } else {
      StoreStepKeeps(s, step);
    }
  }

  /** So every state of every run from zeroed memory satisfies it. */
  lemma RunKeeps(s: State, steps: seq<Step>, s': State)
    requires Good(s) && Runs(s, steps, s')
    ensures Good(s')
  {
    forall a, step, b | Takes(a, step, b)
      ensures Good(b)
    {
      StepKeeps(a, step);
    }
    PathKeeps(Takes, _ => true, Good, s, steps, s');
  }

  lemma ReachableIsGood(capacity: nat, steps: seq<Step>, s: State)
    requires capacity > 0 && Runs(Start(capacity), steps, s)
    ensures Good(s)
  {
    StartIsGood(capacity);
    RunKeeps(Start(capacity), steps, s);
  }

  // Readers.

  /** A reader's load that finds a flag set, even through a stale store and even when the
      word was overwritten since for another index: the flag belongs to an item not yet
      finalized, the item load sees exactly what the insertion stored, that store is the
      slot's last, the removal is not on any older generation's list, and every frontier
      load that follows covers the slot. The reader's generation keeps it from now on. */
  lemma LoadsAreSound(s: State, t: nat, i: nat, k: nat)
    requires Good(s) && LoadEnabled(s, t, i, k) && Shows(s.mem, k, i)
    ensures var s' := AfterLoad(s, t, i, k);
            var o := s'.observers[t];
            && i in s.slab.items && i in o.seen && o.seen[i] == Put(s.slab.items[i])
            && InRange(s.mem, o.view) && o.view.slot[i] == |s.mem.slots[i]| - 1
            && (forall g: nat :: g < s.chain.holders[Reader(o.reader)] ==> !RecordedIn(s.pend, g, i))
            && (forall f :: o.view.front <= f < |s.mem.fronts| ==> i < s.mem.fronts[f])
            && o.reader in s'.found && i in s'.found[o.reader]
            && s'.found[o.reader][i] == Found(Put(s.slab.items[i]), |s.mem.slots[i]| - 1)
  {
    ObserverLoad(s, t, i, k);
  }

  lemma ObserverLoad(s: State, t: nat, i: nat, k: nat)
    requires Typed(s) && Mirrors(s.mem, s.slab) && ReadersOk(s) && t in s.observers && i < |s.mem.slots|
    requires s.observers[t].view.word[WordOf(i)] <= k && Shows(s.mem, k, i)
    ensures
      var o := s.observers[t];
      var v := Acquire(s.mem, o.view, WordOf(i), k);
      && InRange(s.mem, v) && Reader(o.reader) in s.chain.holders
      && Held(s.mem, s.slab, s.pend, v, s.chain.holders[Reader(o.reader)], i, ReadSlot(s.mem, v, i))
      && forall f :: v.front <= f < |s.mem.fronts| ==> i < s.mem.fronts[f]
  {
    var o := s.observers[t];
    assert Observing(s, o);
    var r := Reader(o.reader);
    GuardedLoad(s.mem, s.slab, s.pend, s.views[r], o.view, s.chain.holders[r], i, k);
  }

  /** A removal recorded in an older generation is never seen as still present. */
  lemma OldRemovalsAreInvisible(s: State, t: nat, g: nat, i: nat, k: nat)
    requires Good(s) && LoadEnabled(s, t, i, k)
    requires g < s.chain.holders[Reader(s.observers[t].reader)] && RecordedIn(s.pend, g, i)
    ensures !Shows(s.mem, k, i)
  {
    var o := s.observers[t];
    assert Observing(s, o) && ReaderGuarded(s, o.reader);
    assert Covered(s.mem, s.views[Reader(o.reader)], i);
  }

  /** The writer, while nothing borrows it, loads exactly what is present, and reads the
      item of what it finds. */
  lemma WriterReadsExactly(s: State, i: nat, k: nat)
    requires Good(s) && OwnerFree(s) && i < |s.mem.slots|
    requires s.views[Owner].word[WordOf(i)] <= k < |s.mem.words[WordOf(i)]|
    ensures Shows(s.mem, k, i) <==> i in s.slab.present
    ensures i in s.slab.present ==>
              var v := Acquire(s.mem, s.views[Owner], WordOf(i), k);
              InRange(s.mem, v) && ReadSlot(s.mem, v, i) == Put(s.slab.items[i])
  {
    WriterHasSeenAll(s);
    UpToDateIsExact(s.mem, s.slab, s.views[Owner], i);
    if i in s.slab.present {
      LoadIsSound(s.mem, s.slab, s.views[Owner], i, k);
    }
  }

  // Pinning.

  lemma FoundSame(s: State, s': State, step: Step, r: nat, i: nat)
    requires FoundOk(s) && FoundOk(s') && Bystanders(s, s', step) && step != DropReader(r)
    requires r in s.found && i in s.found[r]
    ensures r in s'.found && i in s'.found[r] && s'.found[r][i] == s.found[r][i]
  {
    assert ReaderKeeps(s, r, i);
    assert ReaderKeeps(s', r, i);
  }

  /** Slot `i`, found through reader `r`, is as it was found. */
  ghost predicate AsFound(s: State, r: nat, i: nat, f: Found, capacity: nat) {
    && r in s.found && i in s.found[r] && s.found[r][i] == f && ReaderKeeps(s, r, i)
    && |s.mem.slots| == capacity
  }

  lemma FoundThroughStep(s: State, step: Step, r: nat, i: nat, f: Found, capacity: nat)
    requires Good(s) && Enabled(s, step) && step != DropReader(r) && AsFound(s, r, i, f, capacity)
    ensures Good(Next(s, step)) && AsFound(Next(s, step), r, i, f, capacity)
  {
    StepKeeps(s, step);
    StepFrame(s, step);
    FoundSame(s, Next(s, step), step, r, i);
  }

  /** Reader pinning, over every run: once any thread has found slot `i` present through
      reader `r`, and until that reader is dropped, the slot keeps that same item and is
      not written, whatever inserts, marks, advances, clones, drops and finalizations
      happen in between, and whoever stops using the reader. */
  lemma ReadersPin(s: State, steps: seq<Step>, s': State, r: nat, i: nat)
    requires Good(s) && Runs(s, steps, s') && DropReader(r) !in steps
    requires r in s.found && i in s.found[r]
    ensures r in s'.found && i in s'.found[r] && s'.found[r][i] == s.found[r][i]
    ensures i in s.slab.items && i in s'.slab.items && s'.slab.items[i] == s.slab.items[i]
    ensures s.found[r][i].value == Put(s.slab.items[i])
    ensures i < |s.mem.slots| == |s'.mem.slots| && |s'.mem.slots[i]| == |s.mem.slots[i]|
  {
    var f, capacity := s.found[r][i], |s.mem.slots|;
    assert ReaderKeeps(s, r, i);
    forall a, step, b | Takes(a, step, b) && step != DropReader(r) && Good(a) && AsFound(a, r, i, f, capacity)
      ensures Good(b) && AsFound(b, r, i, f, capacity)
    {
      FoundThroughStep(a, step, r, i, f, capacity);
    }
    assert forall k :: 0 <= k < |steps| ==> steps[k] in steps;
    PathKeeps(Takes, step => step != DropReader(r), x => Good(x) && AsFound(x, r, i, f, capacity), s, steps, s');
  }

  /** What `get_unchecked` relies on: any thread that has seen at least what the finding
      thread read, by whatever synchronization, reads that same item. */
  lemma FoundIsReadable(s: State, r: nat, i: nat, v: View)
    requires Good(s) && r in s.found && i in s.found[r]
    requires InRange(s.mem, v) && i < |v.slot| && v.slot[i] >= s.found[r][i].store
    ensures ReadSlot(s.mem, v, i) == s.found[r][i].value
    ensures i in s.slab.items && s.found[r][i].value == Put(s.slab.items[i])
  {
    FoundIsLast(s, r, i);
    LastIsRead(s.mem, v, i, s.found[r][i].store);
  }

  lemma LastIsRead(m: Memory, v: View, i: nat, k: nat)
    requires InRange(m, v) && i < |m.slots| && v.slot[i] >= k == |m.slots[i]| - 1
    ensures ReadSlot(m, v, i) == m.slots[i][k]
  {
  }

  lemma FoundIsLast(s: State, r: nat, i: nat)
    requires FoundOk(s) && Mirrors(s.mem, s.slab) && r in s.found && i in s.found[r]
    ensures i < |s.mem.slots| && s.found[r][i].store == |s.mem.slots[i]| - 1
    ensures i in s.slab.items && s.found[r][i].value == Put(s.slab.items[i])
    ensures s.mem.slots[i][s.found[r][i].store] == s.found[r][i].value
  {
    assert ReaderKeeps(s, r, i);
    LastSlotStore(s.mem, s.slab, i);
  }

  lemma LastSlotStore(m: Memory, slab: Slab<nat>, i: nat)
    requires Shape(m) && SlotsMatch(m, slab) && i < |m.slots| && i in slab.items
    ensures m.slots[i][|m.slots[i]| - 1] == Put(slab.items[i])
  {
    assert LastOf(m.slots[i]) == Put(slab.items[i]);
  }

  /** A thread's own references are pinned likewise, until it lets go of the reader. */
  lemma ReferencesThroughStep(s: State, step: Step, t: nat, i: nat)
    requires Good(s) && Enabled(s, step) && step != Detach(t)
    requires t in s.observers && i in s.observers[t].seen
    ensures var s' := Next(s, step);
            && Good(s') && t in s'.observers && s'.observers[t].reader == s.observers[t].reader
            && i in s'.observers[t].seen && s'.observers[t].seen[i] == s.observers[t].seen[i]
            && i in s'.slab.items && i in s.slab.items && s'.slab.items[i] == s.slab.items[i]
  {
    StepKeeps(s, step);
    StepFrame(s, step);
    ReferenceSame(s, Next(s, step), step, t, i);
  }

  lemma ReferenceSame(s: State, s': State, step: Step, t: nat, i: nat)
    requires ReferencesOk(s) && ReferencesOk(s') && Bystanders(s, s', step) && step != Detach(t)
    requires t in s.observers && i in s.observers[t].seen
    ensures t in s'.observers && s'.observers[t].reader == s.observers[t].reader
    ensures i in s'.observers[t].seen && s'.observers[t].seen[i] == s.observers[t].seen[i]
    ensures i in s'.slab.items && i in s.slab.items && s'.slab.items[i] == s.slab.items[i]
  {
    assert ObserverHolds(s, t, i);
    assert ObserverHolds(s', t, i);
  }

  // The generations of readers.

  /** A clone belongs to the generation of the reader it was made from, which counts one
      more; nobody else's generation changes, and the clone may rely on whatever was found
      through the other. */
  lemma CloneSharesGeneration(s: State, source: nat, id: nat)
    requires Good(s) && Reader(source) in s.chain.holders && Reader(id) !in s.chain.holders
    ensures Enabled(s, CloneReader(source, id))
    ensures
      var s' := Next(s, CloneReader(source, id));
      var g := s.chain.holders[Reader(source)];
      && s'.chain.holders == s.chain.holders[Reader(id) := g]
      && g < |s.chain.gens| == |s'.chain.gens|
      && s'.chain.gens[g] == s.chain.gens[g].(strong := s.chain.gens[g].strong + 1)
      && (forall k :: 0 <= k < |s.chain.gens| && k != g ==> s'.chain.gens[k] == s.chain.gens[k])
      && id in s'.found && source in s.found && s'.found[id] == s.found[source]
      && Reader(source) in s.views && s'.views == s.views[Reader(id) := s.views[Reader(source)]]
  {
    HeldIsLive(s.chain, Reader(source));
  }

  ghost predicate Belongs(s: State, r: nat, g: nat) {
    Reader(r) in s.chain.holders && s.chain.holders[Reader(r)] == g
  }

  lemma BelongsThroughStep(s: State, step: Step, r: nat, g: nat)
    requires Good(s) && Enabled(s, step) && step != DropReader(r) && Belongs(s, r, g)
    ensures Belongs(Next(s, step), r, g)
  {
    StepFrame(s, step);
  }

  /** Over every run, a reader stays in its generation until it is dropped. */
  lemma ReadersStayInTheirGeneration(s: State, steps: seq<Step>, s': State, r: nat, g: nat)
    requires Good(s) && Runs(s, steps, s') && DropReader(r) !in steps && Belongs(s, r, g)
    ensures Belongs(s', r, g)
  {
    forall a, step, b | Takes(a, step, b) && step != DropReader(r) && Belongs(a, r, g)
      ensures Belongs(b, r, g)
    {
      BelongsThroughStep(a, step, r, g);
    }
    assert forall k :: 0 <= k < |steps| ==> steps[k] in steps;
    PathKeeps(Takes, step => step != DropReader(r), x => Belongs(x, r, g), s, steps, s');
  }

  lemma CloneBelongs(s: State, source: nat, id: nat, s': State, g: nat)
    requires Takes(s, CloneReader(source, id), s') && Belongs(s, source, g)
    ensures Good(s') && Belongs(s', source, g) && Belongs(s', id, g)
  {
    StepKeeps(s, CloneReader(source, id));
    BelongsThroughStep(s, CloneReader(source, id), source, g);
    CloneInGeneration(s, source, id, g);
  }

  lemma CloneInGeneration(s: State, source: nat, id: nat, g: nat)
    requires Good(s) && Enabled(s, CloneReader(source, id)) && Belongs(s, source, g)
    ensures Belongs(Next(s, CloneReader(source, id)), id, g)
  {
  }

  /** A clone and the reader it was made from pin the same generation, over every run in
      which both live. */
  lemma ClonesPinTheSame(s: State, source: nat, id: nat, s1: State, steps: seq<Step>, s': State, g: nat)
    requires Takes(s, CloneReader(source, id), s1) && Belongs(s, source, g) && Runs(s1, steps, s')
    requires DropReader(source) !in steps && DropReader(id) !in steps
    ensures Good(s') && Belongs(s', source, g) && Belongs(s', id, g)
  {
    CloneBelongs(s, source, id, s1, g);
    RunKeeps(s1, steps, s');
    ReadersStayInTheirGeneration(s1, steps, s', source, g);
    ReadersStayInTheirGeneration(s1, steps, s', id, g);
  }

  /** So a clone keeps nothing from being finalized that the other does not: a generation is
      gone if and only if no handle but the clone is in it or an older one. */
  lemma ClonesPinNothingMore(s: State, source: nat, id: nat, own: nat, g: nat)
    requires Good(s) && Quiescent(s.chain) && g < |s.chain.gens| && source != id
    requires Belongs(s, id, own) && Belongs(s, source, own)
    ensures s.chain.gens[g].phase == Gone <==>
            forall h :: h in s.chain.holders && h != Reader(id) ==> g < s.chain.holders[h]
  {
    FinalizedExactlyWhenUnpinned(s, g);
    OneOfTwo(s.chain.holders, Reader(source), Reader(id), g);
  }

  lemma OneOfTwo(holders: map<Holder, nat>, h: Holder, other: Holder, g: nat)
    requires h != other && h in holders && other in holders && holders[h] == holders[other]
    ensures (exists k :: k in holders && holders[k] <= g)
            <==> !forall k :: k in holders && k != other ==> g < holders[k]
  {
    if k :| k in holders && holders[k] <= g {
      assert k != other || holders[h] <= g;
    }
  }

  // Proxies and the borrow.

  /** In every run: while a proxy can still be used, whether or not its iterator lives, the
      writer can create no reader, and no reader belongs to a generation newer than the
      one the proxy's removal would be recorded in. */
  lemma LateRemovalsAreSafe(capacity: nat, steps: seq<Step>, s: State, p: nat)
    requires capacity > 0 && Runs(Start(capacity), steps, s) && p in s.entries
    ensures !OwnerFree(s) && Proxy(p) in s.chain.holders && Owner in s.chain.holders
    ensures forall r :: Reader(r) in s.chain.holders ==> s.chain.holders[Reader(r)] <= s.chain.holders[Proxy(p)]
    ensures s.chain.holders[Owner] == s.chain.holders[Proxy(p)] + if s.mode == Idle then 1 else 0
  {
    ReachableIsGood(capacity, steps, s);
    LentIsNewest(s, p);
  }

  lemma LentIsNewest(s: State, p: nat)
    requires BorrowOk(s) && p in s.entries
    ensures Proxy(p) in s.chain.holders && Owner in s.chain.holders
    ensures forall r :: Reader(r) in s.chain.holders ==> s.chain.holders[Reader(r)] <= s.chain.holders[Proxy(p)]
    ensures s.chain.holders[Owner] == s.chain.holders[Proxy(p)] + if s.mode == Idle then 1 else 0
  {
  }

  /** In every run, a proxy dereferences to the item its iterator found as long as it can be
      used, and until it is used to remove it that item is present: the assertion in
      `mark_removed` never fires. */
  lemma ProxiesDereference(capacity: nat, steps: seq<Step>, s: State, p: nat)
    requires capacity > 0 && Runs(Start(capacity), steps, s) && p in s.entries
    ensures Proxy(p) in s.views && InRange(s.mem, s.views[Proxy(p)])
    ensures var e := s.entries[p];
            && e.idx < |s.mem.slots| && ReadSlot(s.mem, s.views[Proxy(p)], e.idx) == e.value
            && e.idx in s.slab.items && e.value == Put(s.slab.items[e.idx])
            && (e.stage == Untouched ==> e.idx in s.slab.present)
  {
    ReachableIsGood(capacity, steps, s);
    ProxyReads(s, p);
  }

  lemma ProxyReads(s: State, p: nat)
    requires ReferencesOk(s) && BorrowOk(s) && Mirrors(s.mem, s.slab) && p in s.entries
    ensures Proxy(p) in s.views && InRange(s.mem, s.views[Proxy(p)])
    ensures var e := s.entries[p];
            && e.idx < |s.mem.slots| && ReadSlot(s.mem, s.views[Proxy(p)], e.idx) == e.value
            && e.idx in s.slab.items && e.value == Put(s.slab.items[e.idx])
            && (e.stage == Untouched ==> e.idx in s.slab.present)
  {
    assert EntryHolds(s, p);
    LastSlotStore(s.mem, s.slab, s.entries[p].idx);
  }

  /** `remaining` is exactly the number of entries still to come: never negative, and
      positive whenever something is yielded. */
  lemma RemainingIsExact(s: State)
    requires Typed(s) && OwnerOk(s) && s.mode.Iterating?
    ensures s.mode.remaining == |Ahead(s.slab.present, s.mode.head, s.mode.tail)| >= 0
    ensures forall end, found, p, k :: YieldEnabled(s, end, found, p, k) ==> (found.Some? <==> s.mode.remaining > 0)
  {
    forall end, found, p, k | YieldEnabled(s, end, found, p, k)
      ensures found.Some? <==> s.mode.remaining > 0
    {
      YieldIsRight(s, end, found, p, k);
      var mode := YieldedMode(s.mode, end, found);
      if found == None {
        assert Ahead(s.slab.present, mode.head, mode.tail) == {};
      }
    }
  }

  // Conservation.

  /** When the storage goes, every item ever inserted has been destroyed exactly once. */
  lemma EveryItemDestroyedOnce(s: State)
    requires Good(s) && s.storageDropped
    ensures NoDuplicates(s.destroyed) && Elements(s.destroyed) == Elements(Range(0, s.inserted))
    ensures |s.destroyed| == s.inserted
  {
    assert Elements(s.destroyed) == Elements(Range(0, s.inserted));
    CountNoDuplicates(s.destroyed);
    CountNoDuplicates(Range(0, s.inserted));
  }

  /** In every run, until then, each is in exactly one slot or has been destroyed once. */
  lemma EveryItemSomewhere(capacity: nat, steps: seq<Step>, s: State, x: nat)
    requires capacity > 0 && Runs(Start(capacity), steps, s) && !s.storageDropped && x < s.inserted
    ensures x in s.destroyed <==> !Stored(s.slab.items, x)
    ensures NoDuplicates(s.destroyed)
    ensures forall i, j :: i in s.slab.items && j in s.slab.items && s.slab.items[i] == x == s.slab.items[j] ==> i == j
  {
    ReachableIsGood(capacity, steps, s);
  }

  ghost function Recorded(pend: seq<seq<nat>>): seq<nat> {
    if pend == [] then [] else Recorded(pend[..|pend| - 1]) + pend[|pend| - 1]
  }

  ghost function InFlightSlots(s: State): set<nat> {
    (if s.ownerMark.Some? then {s.ownerMark.value} else {})
    + (set p | p in s.entries && s.entries[p].stage == InFlight :: s.entries[p].idx)
  }

  lemma {:induction false} RecordedMembers(pend: seq<seq<nat>>, i: nat)
    ensures i in Recorded(pend) <==> exists g: nat :: RecordedIn(pend, g, i)
  {
    if pend != [] {
      var n := |pend| - 1;
      var init := pend[..n];
      RecordedMembers(init, i);
      assert forall g: nat :: RecordedIn(pend, g, i) <==> RecordedIn(init, g, i) || (g == n && i in pend[n]);
      if i in pend[n] {
        assert RecordedIn(pend, n, i);
      } else if i in Recorded(init) {
        var g: nat :| RecordedIn(init, g, i);
        assert RecordedIn(pend, g, i);
      }
    }
  }

  lemma {:induction false} RecordedOnce(pend: seq<seq<nat>>)
    requires NoRepeats(pend)
    ensures NoDuplicates(Recorded(pend))
  {
    if pend != [] {
      var n := |pend| - 1;
      var init, last := pend[..n], pend[n];
      assert NoRepeats(init);
      RecordedOnce(init);
      forall a | 0 <= a < |Recorded(init)|
        ensures Recorded(init)[a] !in last
      {
        RecordedMembers(init, Recorded(init)[a]);
        var g: nat :| RecordedIn(init, g, Recorded(init)[a]);
        NotInTwoLists(pend, n, g, Recorded(init)[a]);
      }
    }
  }

  /** The removals not yet finalized are the ones recorded, each once, and the ones in
      flight; and they are exactly the allocated slots that are not present. */
  lemma AccountingIsExact(s: State)
    requires Good(s)
    ensures NoDuplicates(Recorded(s.pend)) && Elements(Recorded(s.pend)) !! InFlightSlots(s)
    ensures Elements(Recorded(s.pend)) + InFlightSlots(s) == Pending(s.slab)
    ensures |s.slab.items| - |s.slab.present| == |Recorded(s.pend)| + |InFlightSlots(s)|
  {
    var listed, flying := Elements(Recorded(s.pend)), InFlightSlots(s);
    RecordedOnce(s.pend);
    CountNoDuplicates(Recorded(s.pend));
    PendingSplits(s);
    DisjointUnion(listed, flying, Pending(s.slab));
    SlotsAddUp(s.slab);
  }

  lemma PendingSplits(s: State)
    requires PendOk(s.slab, s.chain.gens, s.pend, s.ownerMark, s.entries)
    ensures Elements(Recorded(s.pend)) !! InFlightSlots(s)
    ensures Elements(Recorded(s.pend)) + InFlightSlots(s) == Pending(s.slab)
  {
    forall i: nat
      ensures i in InFlightSlots(s) ==> i !in Recorded(s.pend)
      ensures i in Recorded(s.pend) || i in InFlightSlots(s) <==> i in Pending(s.slab)
    {
      FlyingIsInFlight(s, i);
      RecordedMembers(s.pend, i);
    }
  }

  lemma FlyingIsInFlight(s: State, i: nat)
    ensures i in InFlightSlots(s) <==> exists h :: Flying(s.ownerMark, s.entries, h, i)
  {
    if i in InFlightSlots(s) {
      if s.ownerMark == Some(i) {
        assert Flying(s.ownerMark, s.entries, Owner, i);
      } else {
        var p :| p in s.entries && s.entries[p].stage == InFlight && s.entries[p].idx == i;
        assert Flying(s.ownerMark, s.entries, Proxy(p), i);
      }
    }
  }

  /** With no destructor running, a generation is gone exactly when no handle, of any
      kind, belongs to it or to an older one. */
  lemma FinalizedExactlyWhenUnpinned(s: State, g: nat)
    requires Good(s) && Quiescent(s.chain) && g < |s.chain.gens|
    ensures s.chain.gens[g].phase == Gone <==> !exists h :: h in s.chain.holders && s.chain.holders[h] <= g
  {
    GoneExactlyWhenUnpinned(s.chain, g);
    assert Pinned(s.chain, g) <==> exists h :: h in s.chain.holders && s.chain.holders[h] <= g;
  }
}
