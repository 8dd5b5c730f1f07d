/** Nobody waits for readers: what the writer can do in every state in which its handle is
    free, what new readers then find, and how the last destructors come to run. */
module RcuProgress {
  import opened Options
  import opened Paths
  import opened Words
  import opened ScanRuns
  import opened SlabSpec
  import opened GenerationChain
  import opened StoreHistory
  import opened RcuMachine
  import opened RcuAccessSteps
  import opened RcuStoreSteps
  import opened RcuTheorems

  lemma Take(s: State, step: Step) returns (s': State)
    requires Good(s) && Enabled(s, step)
    ensures Takes(s, step, s') && Good(s') && s' == Next(s, step)
  {
    StepKeeps(s, step);
    s' := Next(s, step);
  }

  lemma StoreStepIsNext(s: State, step: Step)
    requires Good(s) && Enabled(s, step) && !HandleStep(step) && !AccessStep(step)
    ensures WellFormed(s.slab) && s.slab.capacity == |s.mem.slots| && MarksInRange(s) && ListsAreClean(s)
    ensures Next(s, step) == StoreNext(s, step)
  {
    StoresAreReady(s);
  }

  lemma MarkNow(s: State, h: Holder, i: nat) returns (s': State)
    requires Good(s) && MarkEnabled(s, h, i)
    ensures Takes(s, Mark(h, i), s') && Good(s') && Marks(s, s', h, i)
  {
    MarkKeeps(s, h, i);
    MarkMoves(s, h, i);
    s' := AfterMark(s, h, i);
  }

  lemma MarkMoves(s: State, h: Holder, i: nat)
    requires Good(s) && MarkEnabled(s, h, i) && i < |s.mem.slots|
    ensures Takes(s, Mark(h, i), AfterMark(s, h, i))
  {
    StoreStepIsNext(s, Mark(h, i));
  }

  /** `h` records its removal of slot `i`. */
  ghost predicate Pushes(s: State, s': State, h: Holder, i: nat) {
    && h in s.chain.holders && s.chain.holders[h] < |s.pend|
    && s' == s.(pend := RecordedAlso(s.pend, s.chain.holders[h], i), ownerMark := None, entries := s'.entries)
    && RecordedIn(s'.pend, s.chain.holders[h], i)
    && match h
       case Proxy(p) => p in s'.entries && s'.entries[p].stage == Recorded
       case _ => s'.entries == s.entries
  }

  lemma PushNow(s: State, h: Holder) returns (s': State)
    requires Good(s) && PushEnabled(s, h)
    ensures Takes(s, Push(h), s') && Good(s') && s' == AfterPush(s, h)
  {
    s' := Take(s, Push(h));
  }

  lemma PushParts(s: State, h: Holder)
    requires Typed(s) && PushEnabled(s, h) && (h.Proxy? ==> s.ownerMark == None)
    ensures Pushes(s, AfterPush(s, h), h, FlyingSlot(s, h))
  {
    HeldIsLive(s.chain, h);
  }

  /** A removal: mark the slot and record it. */
  lemma RemovalNeverWaits(s: State, i: nat) returns (s': State)
    requires Good(s) && OwnerFree(s) && i in s.slab.present
    ensures Runs(s, [Mark(Owner, i), Push(Owner)], s') && Good(s')
    ensures s' == s.(slab := Marked(s.slab, i), pend := s'.pend, mem := s'.mem, lock := s'.lock, views := s'.views)
    ensures s.chain.holders[Owner] < |s.pend| && s'.pend == RecordedAlso(s.pend, s.chain.holders[Owner], i)
    ensures RecordedIn(s'.pend, s.chain.holders[Owner], i)
  {
    var s1 := MarkNow(s, Owner, i);
    PushParts(s1, Owner);
    s' := PushNow(s1, Owner);
    PathTwo(Takes, s, Mark(Owner, i), s1, Push(Owner), s');
  }

  /** A removal through a proxy: mark its slot, and record it in the proxy's own generation,
      whichever is current by then. */
  lemma ProxiesCanRemove(s: State, p: nat) returns (s': State)
    requires Good(s) && p in s.entries && s.entries[p].stage == Untouched
    ensures var i := s.entries[p].idx;
            && Runs(s, [Mark(Proxy(p), i), Push(Proxy(p))], s') && Good(s')
            && i in s.slab.present && s'.slab == s.slab.(present := s.slab.present - {i})
    ensures Proxy(p) in s.chain.holders && s.chain.holders[Proxy(p)] < |s.pend| && s'.chain == s.chain
    ensures var g := s.chain.holders[Proxy(p)];
            s'.pend == s.pend[g := s.pend[g] + [s.entries[p].idx]]
    ensures p in s'.entries && s'.entries[p].stage == Recorded
  {
    var i := s.entries[p].idx;
    LentIsNotMarking(s, p);
    var s1 := MarkNow(s, Proxy(p), i);
    PushParts(s1, Proxy(p));
    s' := PushNow(s1, Proxy(p));
    PathTwo(Takes, s, Mark(Proxy(p), i), s1, Push(Proxy(p)), s');
  }

  lemma LentIsNotMarking(s: State, p: nat)
    requires BorrowOk(s) && p in s.entries
    ensures s.ownerMark == None
  {
  }

  /** A proxy can be put away whenever it is not in the middle of a removal. Its borrow ends,
      and its reference can be dropped then or later. */
  lemma BorrowsEnd(s: State, p: nat) returns (s': State)
    requires Good(s) && p in s.entries && s.entries[p].stage != InFlight
    ensures Runs(s, [EndEntry(p)], s') && Good(s') && EndedBorrow(s, s', p) && Enabled(s', DropProxy(p))
  {
    EndEntryEnds(s, p);
    s' := Take(s, EndEntry(p));
    PathOne(Takes, s, EndEntry(p), s');
  }

  ghost predicate EndedBorrow(s: State, s': State, p: nat) {
    && s' == s.(entries := s.entries - {p}, views := s'.views)
    && Proxy(p) in s.chain.holders
  }

  lemma EndEntryEnds(s: State, p: nat)
    requires Good(s) && Enabled(s, EndEntry(p))
    ensures EndedBorrow(s, Next(s, EndEntry(p)), p)
  {
  }

  ghost predicate Drops(step: Step, h: Holder) {
    || (step.DropReader? && h == Reader(step.id)) || (step.DropProxy? && h == Proxy(step.p))
    || (step.DropOwner? && h == Owner)
  }

  /** A drop gives up one reference, to the generation its holder belonged to, and no other. */
  lemma DropsGiveUpOne(s: State, step: Step, h: Holder)
    requires Typed(s) && HandleStep(step) && Enabled(s, step) && Drops(step, h)
    ensures
      var c := HandleNext(s, step).chain;
      && h in s.chain.holders && c.holders == s.chain.holders - {h} && |c.gens| == |s.chain.gens|
      && forall g: nat :: g < |c.gens| ==>
           c.gens[g].strong == s.chain.gens[g].strong - (if g == s.chain.holders[h] then 1 else 0)
  {
    HeldIsLive(s.chain, h);
  }

  /** An advance: link the next generation and make it current. */
  lemma AdvanceNeverWaits(s: State) returns (s': State)
    requires Good(s) && Enabled(s, LinkGeneration)
    ensures Runs(s, [LinkGeneration, SwapGeneration], s') && Good(s') && Owner in s.chain.holders
    ensures s' == s.(chain := s'.chain, mode := Idle, pend := s.pend + [[]])
    ensures s'.chain.holders == s.chain.holders[Owner := s.chain.holders[Owner] + 1]
  {
    var s1 := LinkNow(s);
    s' := SwapNow(s1);
    Advances(s, s1, s');
  }

  lemma Advances(s: State, s1: State, s': State)
    requires Runs(s, [LinkGeneration], s1) && Runs(s1, [SwapGeneration], s')
    requires Owner in s.chain.holders && Local !in s.chain.holders && Local in s1.chain.holders
    requires s1 == s.(chain := s1.chain, mode := Advancing, pend := s.pend + [[]])
    requires s' == s1.(chain := s'.chain, mode := Idle)
    requires s1.chain.holders == s.chain.holders[Local := s.chain.holders[Owner] + 1]
    requires s'.chain.holders == (s1.chain.holders - {Local})[Owner := s1.chain.holders[Local]]
    ensures Runs(s, [LinkGeneration, SwapGeneration], s')
    ensures s' == s.(chain := s'.chain, mode := Idle, pend := s.pend + [[]])
    ensures s'.chain.holders == s.chain.holders[Owner := s.chain.holders[Owner] + 1]
  {
    PathThenPath(Takes, s, [LinkGeneration], s1, [SwapGeneration], s');
    assert [LinkGeneration] + [SwapGeneration] == [LinkGeneration, SwapGeneration];
    LocalMoves(s.chain.holders, s1.chain.holders, s'.chain.holders);
  }

  lemma LinkNow(s: State) returns (s': State)
    requires Good(s) && Enabled(s, LinkGeneration)
    ensures Runs(s, [LinkGeneration], s') && Good(s')
    ensures s' == s.(chain := s'.chain, mode := Advancing, pend := s.pend + [[]])
    ensures Owner in s.chain.holders && Local !in s.chain.holders
    ensures s'.chain.holders == s.chain.holders[Local := s.chain.holders[Owner] + 1]
  {
    s' := Take(s, LinkGeneration);
    LinkFacts(s);
    PathOne(Takes, s, LinkGeneration, s');
  }

  lemma SwapNow(s: State) returns (s': State)
    requires Good(s) && s.mode == Advancing
    ensures Runs(s, [SwapGeneration], s') && Good(s') && s' == s.(chain := s'.chain, mode := Idle)
    ensures Local in s.chain.holders
    ensures s'.chain.holders == (s.chain.holders - {Local})[Owner := s.chain.holders[Local]]
  {
    s' := Take(s, SwapGeneration);
    SwapFacts(s);
    PathOne(Takes, s, SwapGeneration, s');
  }

  lemma LinkFacts(s: State)
    requires Good(s) && Enabled(s, LinkGeneration)
    ensures var s' := Next(s, LinkGeneration);
            && s' == s.(chain := s'.chain, mode := Advancing, pend := s.pend + [[]])
            && Owner in s.chain.holders && Local !in s.chain.holders
            && s'.chain.holders == s.chain.holders[Local := s.chain.holders[Owner] + 1]
  {
  }

  lemma SwapFacts(s: State)
    requires Good(s) && s.mode == Advancing
    ensures var s' := Next(s, SwapGeneration);
            && s' == s.(chain := s'.chain, mode := Idle) && Local in s.chain.holders
            && s'.chain.holders == (s.chain.holders - {Local})[Owner := s.chain.holders[Local]]
  {
  }

  lemma LocalMoves(before: map<Holder, nat>, linked: map<Holder, nat>, after: map<Holder, nat>)
    requires Owner in before && Local !in before && Local in linked
    requires linked == before[Local := before[Owner] + 1]
    requires after == (linked - {Local})[Owner := linked[Local]]
    ensures after == before[Owner := before[Owner] + 1]
  {
  }

  lemma ReaderFacts(s: State, r: nat)
    requires Good(s) && OwnerFree(s) && Reader(r) !in s.chain.holders
    ensures var s' := Next(s, NewReader(r));
            && s' == s.(chain := s'.chain, views := s.views[Reader(r) := s.views[Owner]], found := s'.found)
            && s'.chain.holders == s.chain.holders[Reader(r) := s.chain.holders[Owner]]
  {
  }

  lemma AttachFacts(s: State, t: nat, r: nat)
    requires Good(s) && t !in s.observers && Reader(r) in s.views && Reader(r) in s.chain.holders
    ensures Next(s, Attach(t, r)) == s.(observers := s.observers[t := Observer(r, s.views[Reader(r)], map[])])
  {
  }

  lemma LoadFacts(s: State, t: nat, i: nat, k: nat)
    requires Good(s) && LoadEnabled(s, t, i, k) && s.observers[t].seen == map[]
    ensures var s' := Next(s, Load(t, i, k));
            && s' == s.(observers := s'.observers, found := s'.found)
            && t in s'.observers && s'.observers[t].reader == s.observers[t].reader
            && (Shows(s.mem, k, i) <==> i in s'.observers[t].seen)
            && (Shows(s.mem, k, i) ==>
                  && i in s.slab.items && s'.observers[t].seen[i] == Put(s.slab.items[i])
                  && s.observers[t].reader in s'.found && i in s'.found[s.observers[t].reader])
  {
    assert Next(s, Load(t, i, k)) == AfterLoad(s, t, i, k);
    if Shows(s.mem, k, i) {
      LoadsAreSound(s, t, i, k);
    }
  }

  /** A thread that looks at slot `i` through a reader just created finds the item if and
      only if it is present, whichever store to its word the load happens to read. */
  lemma NewReadersSeeWhatIsThere(s: State, r: nat, t: nat, i: nat, k: nat) returns (s': State)
    requires Good(s) && OwnerFree(s) && Reader(r) !in s.chain.holders && t !in s.observers && i < |s.mem.slots|
    requires s.views[Owner].word[WordOf(i)] <= k < |s.mem.words[WordOf(i)]|
    ensures Runs(s, [NewReader(r), Attach(t, r)] + [Load(t, i, k)], s') && Good(s') && OwnerFree(s')
    ensures t in s'.observers && s'.observers[t].reader == r
    ensures i in s.slab.present <==> i in s'.observers[t].seen
    ensures i in s.slab.present ==>
              && i in s.slab.items && s'.observers[t].seen[i] == Put(s.slab.items[i])
              && r in s'.found && i in s'.found[r]
    ensures s'.slab == s.slab && s'.chain.holders == s.chain.holders[Reader(r) := s.chain.holders[Owner]]
  {
    var s2 := ReaderInUse(s, r, t);
    WriterReadsExactly(s, i, k);
    s' := Take(s2, Load(t, i, k));
    LoadFacts(s2, t, i, k);
    PathThenOne(Takes, s, [NewReader(r), Attach(t, r)], s2, Load(t, i, k), s');
  }

  lemma ReaderInUse(s: State, r: nat, t: nat) returns (s': State)
    requires Good(s) && OwnerFree(s) && Reader(r) !in s.chain.holders && t !in s.observers
    ensures Runs(s, [NewReader(r), Attach(t, r)], s') && Good(s')
    ensures s' == s.(chain := s'.chain, views := s'.views, found := s'.found,
                     observers := s.observers[t := Observer(r, s.views[Owner], map[])])
    ensures s'.chain.holders == s.chain.holders[Reader(r) := s.chain.holders[Owner]]
    ensures s'.views == s.views[Reader(r) := s.views[Owner]]
  {
    var s1 := Take(s, NewReader(r));
    ReaderFacts(s, r);
    s' := Take(s1, Attach(t, r));
    AttachFacts(s1, t, r);
    PathTwo(Takes, s, NewReader(r), s1, Attach(t, r), s');
  }

  /** A removal does not reach older readers at once: a thread that looks through one of
      them afterwards may still find the item, whenever that reader was made. */
  lemma RemovedCanStillBeFound(s: State, i: nat, r: nat, t: nat) returns (k: nat, s': State)
    requires Good(s) && OwnerFree(s) && i in s.slab.present && Reader(r) in s.chain.holders && t !in s.observers
    ensures Runs(s, [Mark(Owner, i), Push(Owner)] + [Attach(t, r), Load(t, i, k)], s') && Good(s')
    ensures i !in s'.slab.present && i in s'.slab.items && i in s.slab.items && s'.slab.items[i] == s.slab.items[i]
    ensures t in s'.observers && s'.observers[t].reader == r
    ensures i in s'.observers[t].seen && s'.observers[t].seen[i] == Put(s.slab.items[i])
  {
    var s2 := RemoveAndLookBack(s, i);
    k := ReaderCanFind(s, r, i);
    s' := FindNow(s2, t, r, i, k);
    PathThenPath(Takes, s, [Mark(Owner, i), Push(Owner)], s2, [Attach(t, r), Load(t, i, k)], s');
  }

  lemma RemoveAndLookBack(s: State, i: nat) returns (s': State)
    requires Good(s) && OwnerFree(s) && i in s.slab.present
    ensures Runs(s, [Mark(Owner, i), Push(Owner)], s') && Good(s')
    ensures s' == s.(slab := Marked(s.slab, i), pend := s'.pend, mem := s'.mem, lock := s'.lock, views := s'.views)
    ensures forall k :: Shows(s.mem, k, i) ==> Shows(s'.mem, k, i)
    ensures forall r :: Reader(r) in s.views ==> Reader(r) in s'.views && s'.views[Reader(r)] == s.views[Reader(r)]
  {
    var s1 := MarkNow(s, Owner, i);
    StoresStay(s, s1, i);
    PushParts(s1, Owner);
    s' := PushNow(s1, Owner);
    PathTwo(Takes, s, Mark(Owner, i), s1, Push(Owner), s');
  }

  lemma StoresStay(s: State, s': State, i: nat)
    requires Marks(s, s', Owner, i)
    ensures forall k :: Shows(s.mem, k, i) ==> Shows(s'.mem, k, i)
    ensures forall r :: Reader(r) in s.views ==> Reader(r) in s'.views && s'.views[Reader(r)] == s.views[Reader(r)]
  {
  }

  lemma ReaderCanFind(s: State, r: nat, i: nat) returns (k: nat)
    requires Good(s) && Reader(r) in s.chain.holders && i in s.slab.present
    ensures i < |s.mem.slots| && Reader(r) in s.views && Shows(s.mem, k, i)
    ensures InRange(s.mem, s.views[Reader(r)]) && s.views[Reader(r)].word[WordOf(i)] <= k
  {
    k := Latest(s.mem, i);
    assert SetNow(s.mem, i);
    assert ReaderGuarded(s, r);
  }

  lemma FindNow(s: State, t: nat, r: nat, i: nat, k: nat) returns (s': State)
    requires Good(s) && t !in s.observers && Reader(r) in s.chain.holders && Reader(r) in s.views
    requires i < |s.mem.slots| && InRange(s.mem, s.views[Reader(r)])
    requires s.views[Reader(r)].word[WordOf(i)] <= k && Shows(s.mem, k, i)
    ensures Runs(s, [Attach(t, r), Load(t, i, k)], s') && Good(s') && s'.slab == s.slab
    ensures t in s'.observers && s'.observers[t].reader == r
    ensures i in s.slab.items && i in s'.observers[t].seen && s'.observers[t].seen[i] == Put(s.slab.items[i])
  {
    var s1 := Take(s, Attach(t, r));
    AttachFacts(s, t, r);
    s' := Take(s1, Load(t, i, k));
    LoadFacts(s1, t, i, k);
    PathTwo(Takes, s, Attach(t, r), s1, Load(t, i, k), s');
  }

  // Destructors.

  ghost function Rank(phase: Phase): nat {
    match phase
    case Live => 3
    case Dying => 2
    case Finalized => 1
    case Gone => 0
  }

  ghost function Work(gens: seq<Gen>): nat {
    if gens == [] then 0 else Rank(gens[0].phase) + Work(gens[1..])
  }

  lemma {:induction false} WorkAfter(gens: seq<Gen>, g: nat, gen: Gen)
    requires g < |gens|
    ensures Work(gens[g := gen]) == Work(gens) - Rank(gens[g].phase) + Rank(gen.phase)
  {
    if g == 0 {
      assert gens[g := gen][1..] == gens[1..];
    } else {
      WorkAfter(gens[1..], g - 1, gen);
      assert gens[g := gen][1..] == gens[1..][g - 1 := gen];
    }
  }

  lemma FinalizeFacts(s: State, g: nat)
    requires Good(s) && g < |s.chain.gens| && s.chain.gens[g].phase == Dying
    ensures var s' := Next(s, FinalizeGeneration(g));
            && s'.chain == FinalizedGen(s.chain, g)
            && s'.inserted == s.inserted && s'.storageDropped == s.storageDropped
            && Work(s'.chain.gens) < Work(s.chain.gens)
  {
    WorkAfter(s.chain.gens, g, FinalizedGen(s.chain, g).gens[g]);
  }

  lemma ReleaseFacts(s: State, g: nat)
    requires Good(s) && g < |s.chain.gens| && s.chain.gens[g].phase == Finalized
    ensures var s' := Next(s, ReleaseGeneration(g));
            && s'.chain.holders == s.chain.holders
            && s'.inserted == s.inserted && s'.storageDropped == s.storageDropped
            && Work(s'.chain.gens) < Work(s.chain.gens)
  {
    ReleaseIsWork(s.chain, g);
    assert Next(s, ReleaseGeneration(g)) == AfterRelease(s, g);
  }

  lemma ReleaseIsWork(c: Chain, g: nat)
    requires Inv(c) && g < |c.gens| && c.gens[g].phase == Finalized
    ensures Work(Released(c, g).gens) < Work(c.gens)
  {
    var gone := c.gens[g].(phase := Gone, next := None);
    WorkAfter(c.gens, g, gone);
    if c.gens[g].next.Some? {
      LinkIsCounted(c, g);
      SuccessorOfLivingIsLive(c, g);
      var gens := c.gens[g := gone];
      WorkAfter(gens, g + 1, Decremented(gens, g + 1)[g + 1]);
    }
  }

  ghost predicate OnlyDestructors(steps: seq<Step>) {
    forall k :: 0 <= k < |steps| ==> steps[k].FinalizeGeneration? || steps[k].ReleaseGeneration?
  }

  lemma OneMoreDestructor(step: Step, steps: seq<Step>)
    requires OnlyDestructors(steps) && (step.FinalizeGeneration? || step.ReleaseGeneration?)
    ensures OnlyDestructors([step] + steps)
  {
  }

  /** One of the destructors that are due. */
  lemma OneDestructor(s: State) returns (step: Step, s': State)
    requires Good(s) && !Quiescent(s.chain)
    ensures Takes(s, step, s') && Good(s') && (step.FinalizeGeneration? || step.ReleaseGeneration?)
    ensures s'.chain.holders == s.chain.holders && s'.inserted == s.inserted && s'.storageDropped == s.storageDropped
    ensures Work(s'.chain.gens) < Work(s.chain.gens)
  {
    var g: nat :| g < |s.chain.gens| && s.chain.gens[g].phase != Live && s.chain.gens[g].phase != Gone;
    if s.chain.gens[g].phase == Dying {
      step := FinalizeGeneration(g);
      FinalizeFacts(s, g);
    } else {
      step := ReleaseGeneration(g);
      ReleaseFacts(s, g);
    }
    s' := Take(s, step);
  }

  /** Destructors that are due can always run to the end. */
  lemma {:induction false} DestructorsEnd(s: State) returns (steps: seq<Step>, s': State)
    requires Good(s)
    ensures Runs(s, steps, s') && Good(s') && Quiescent(s'.chain) && OnlyDestructors(steps)
    ensures s'.chain.holders == s.chain.holders && s'.inserted == s.inserted && s'.storageDropped == s.storageDropped
    decreases Work(s.chain.gens)
  {
    if Quiescent(s.chain) {
      steps, s' := [], s;
      PathNone(Takes, s);
    } else {
      var step, m := OneDestructor(s);
      steps, s' := DestructorsEnd(m);
      PathFirst(Takes, s, step, m, steps, s');
      OneMoreDestructor(step, steps);
      steps := [step] + steps;
    }
  }

  /** Once no handle is left, the destructors can run to the end, and then the storage can
      be dropped. */
  lemma StorageCanGo(s: State) returns (steps: seq<Step>, s': State)
    requires Good(s) && s.chain.holders == map[] && !s.storageDropped
    ensures Runs(s, steps, s') && Good(s') && Enabled(s', DropStorage) && s'.inserted == s.inserted
  {
    steps, s' := DestructorsEnd(s);
    forall g: nat | g < |s'.chain.gens|
      ensures s'.chain.gens[g].phase == Gone
    {
      GoneExactlyWhenUnpinned(s'.chain, g);
    }
  }

  // All of it does happen.

  lemma FirstInsert(capacity: nat) returns (s: State)
    requires capacity > 0
    ensures Runs(Start(capacity), [Insert], s) && Good(s) && OwnerFree(s)
    ensures s.chain == START && s.observers == map[] && s.inserted == 1 && !s.storageDropped
    ensures FirstItem(s.slab)
  {
    RcuTheorems.StartIsGood(capacity);
    s := Take(Start(capacity), Insert);
    InsertFacts(Start(capacity));
    PathOne(Takes, Start(capacity), Insert, s);
  }

  lemma InsertFacts(s: State)
    requires Good(s) && OwnerFree(s) && s.slab.free != []
    ensures var s' := Next(s, Insert);
            s' == s.(slab := Inserted(s.slab, s.inserted), inserted := s.inserted + 1,
                     mem := s'.mem, lock := s'.lock, views := s'.views)
  {
  }

  ghost predicate FirstItem(slab: Slab<nat>) {
    0 in slab.present && 0 in slab.items && slab.items[0] == 0
  }

  /** Thread 0 has found item 0 in slot 0 through reader 0. */
  ghost predicate Reading(observers: map<nat, Observer>, found: map<nat, map<nat, Found>>) {
    && 0 in observers && observers[0].reader == 0 && 0 in observers[0].seen && observers[0].seen[0] == Put(0)
    && 0 in found && 0 in found[0]
  }

  /** The writer and `h` hold generations `owner` and `other`. */
  ghost predicate HeldBy(holders: map<Holder, nat>, owner: nat, h: Holder, other: nat) {
    Owner in holders && holders[Owner] == owner && h in holders && holders[h] == other
  }

  lemma FirstUse(capacity: nat) returns (steps: seq<Step>, s: State)
    requires capacity > 0
    ensures Runs(Start(capacity), steps, s) && Good(s) && OwnerFree(s)
    ensures HeldBy(s.chain.holders, 0, Reader(0), 0) && FirstItem(s.slab)
    ensures 0 in s.observers && s.observers[0] == Observer(0, s.views[Owner], map[])
  {
    var s0 := FirstInsert(capacity);
    s := ReaderInUse(s0, 0, 0);
    PathThenPath(Takes, Start(capacity), [Insert], s0, [NewReader(0), Attach(0, 0)], s);
    steps := [Insert] + [NewReader(0), Attach(0, 0)];
  }

  lemma FirstRead(capacity: nat) returns (steps: seq<Step>, s: State)
    requires capacity > 0
    ensures Runs(Start(capacity), steps, s) && Good(s) && OwnerFree(s)
    ensures HeldBy(s.chain.holders, 0, Reader(0), 0) && 0 in s.slab.present
    ensures Reading(s.observers, s.found)
  {
    var before, s0 := FirstUse(capacity);
    var k := FirstStore(s0);
    s := Take(s0, Load(0, 0, k));
    LoadFacts(s0, 0, 0, k);
    PathThenOne(Takes, Start(capacity), before, s0, Load(0, 0, k), s);
    steps := before + [Load(0, 0, k)];
  }

  lemma FirstStore(s: State) returns (k: nat)
    requires Good(s) && OwnerFree(s) && 0 in s.slab.present
    ensures 0 < |s.mem.slots| && 0 < |s.mem.words| && k == Latest(s.mem, 0) && Shows(s.mem, k, 0)
    ensures s.views[Owner].word[0] == |s.mem.words[0]| - 1
  {
    WriterHasSeenAll(s);
    k := Latest(s.mem, 0);
    assert SetNow(s.mem, 0);
  }

  lemma FirstRemoval(capacity: nat) returns (steps: seq<Step>, s: State)
    requires capacity > 0
    ensures Runs(Start(capacity), steps, s) && Good(s) && OwnerFree(s) && RecordedIn(s.pend, 0, 0)
    ensures HeldBy(s.chain.holders, 0, Reader(0), 0)
    ensures Reading(s.observers, s.found)
  {
    var before, s0 := FirstRead(capacity);
    s := RemovalNeverWaits(s0, 0);
    PathThenPath(Takes, Start(capacity), before, s0, [Mark(Owner, 0), Push(Owner)], s);
    steps := before + [Mark(Owner, 0), Push(Owner)];
  }

  lemma OwnerMoves(holders: map<Holder, nat>, h: Holder)
    requires h != Owner && HeldBy(holders, 0, h, 0)
    ensures HeldBy(holders[Owner := holders[Owner] + 1], 1, h, 0)
  {
  }

  lemma RecordedStays(pend: seq<seq<nat>>, g: nat, i: nat)
    requires RecordedIn(pend, g, i)
    ensures RecordedIn(pend + [[]], g, i)
  {
  }

  /** A reader holds an item that the writer has since removed, and the writer has moved on
      to the next generation. */
  lemma RemovedWhileRead(capacity: nat) returns (steps: seq<Step>, s: State)
    requires capacity > 0
    ensures Runs(Start(capacity), steps, s) && Good(s) && OwnerFree(s) && RecordedIn(s.pend, 0, 0)
    ensures HeldBy(s.chain.holders, 1, Reader(0), 0)
    ensures Reading(s.observers, s.found)
  {
    var before, s0 := FirstRemoval(capacity);
    s := AdvanceNeverWaits(s0);
    OwnerMoves(s0.chain.holders, Reader(0));
    RecordedStays(s0.pend, 0, 0);
    PathThenPath(Takes, Start(capacity), before, s0, [LinkGeneration, SwapGeneration], s);
    steps := before + [LinkGeneration, SwapGeneration];
  }

  lemma FirstIter(capacity: nat) returns (steps: seq<Step>, s: State)
    requires capacity > 0
    ensures Runs(Start(capacity), steps, s) && Good(s) && 0 in s.slab.present
    ensures s.mode.Iterating? && s.mode.head == 0 < s.mode.tail
    ensures s.chain == START && s.entries == map[] && s.ownerMark == None
    ensures 0 < |s.mem.words| && s.views[Owner].word[0] == |s.mem.words[0]| - 1
  {
    var s0 := FirstInsert(capacity);
    var k := FirstStore(s0);
    s := Take(s0, StartIterMut);
    IterFacts(s0);
    PathThenOne(Takes, Start(capacity), [Insert], s0, StartIterMut, s);
    steps := [Insert] + [StartIterMut];
  }

  lemma IterFacts(s: State)
    requires Good(s) && OwnerFree(s) && 0 in s.slab.present
    ensures var s' := Next(s, StartIterMut);
            && s' == s.(mode := s'.mode) && s'.mode.Iterating? && s'.mode.head == 0 < s'.mode.tail
  {
  }

  lemma FirstYield(capacity: nat) returns (steps: seq<Step>, s: State)
    requires capacity > 0
    ensures Runs(Start(capacity), steps, s) && Good(s) && s.mode.Iterating?
    ensures 0 in s.entries && s.entries[0].idx == 0 && s.entries[0].stage == Untouched
    ensures HeldBy(s.chain.holders, 0, Proxy(0), 0)
  {
    var before, s0 := FirstIter(capacity);
    var step := Yield(Front, Some(0), 0, Latest(s0.mem, 0));
    YieldFacts(s0);
    s := Take(s0, step);
    PathThenOne(Takes, Start(capacity), before, s0, step, s);
    steps := before + [step];
  }

  lemma YieldFacts(s: State)
    requires Good(s) && s.mode.Iterating? && s.mode.head == 0 < s.mode.tail && 0 in s.slab.present
    requires s.chain == START && s.entries == map[]
    requires 0 < |s.mem.words| && s.views[Owner].word[0] == |s.mem.words[0]| - 1
    ensures Enabled(s, Yield(Front, Some(0), 0, Latest(s.mem, 0)))
    ensures var s' := Next(s, Yield(Front, Some(0), 0, Latest(s.mem, 0)));
            && s'.mode.Iterating? && 0 in s'.entries && s'.entries[0].idx == 0 && s'.entries[0].stage == Untouched
            && s'.chain.holders == s.chain.holders[Proxy(0) := s.chain.holders[Owner]]
  {
    assert SetNow(s.mem, 0);
  }

  /** A proxy outlives its iterator, and can still be used to remove its item. */
  lemma LateProxy(capacity: nat) returns (steps: seq<Step>, s: State)
    requires capacity > 0
    ensures Runs(Start(capacity), steps, s) && Good(s) && s.mode == Idle
    ensures HeldBy(s.chain.holders, 1, Proxy(0), 0) && Enabled(s, Mark(Proxy(0), 0))
  {
    var before, s0 := FirstYield(capacity);
    s := AdvanceNeverWaits(s0);
    OwnerMoves(s0.chain.holders, Proxy(0));
    PathThenPath(Takes, Start(capacity), before, s0, [LinkGeneration, SwapGeneration], s);
    steps := before + [LinkGeneration, SwapGeneration];
  }

  lemma FirstDrop(capacity: nat) returns (steps: seq<Step>, s: State)
    requires capacity > 0
    ensures Runs(Start(capacity), steps, s) && Good(s)
    ensures s.chain.holders == map[] && s.inserted == 1 && !s.storageDropped
  {
    var s0 := FirstInsert(capacity);
    s := Take(s0, DropOwner);
    DropFacts(s0);
    OnlyOwner();
    PathThenOne(Takes, Start(capacity), [Insert], s0, DropOwner, s);
    steps := [Insert] + [DropOwner];
  }

  lemma DropFacts(s: State)
    requires Good(s) && OwnerFree(s)
    ensures var s' := Next(s, DropOwner);
            && s'.chain.holders == s.chain.holders - {Owner}
            && s'.inserted == s.inserted && s'.storageDropped == s.storageDropped
  {
  }

  lemma OnlyOwner()
    ensures START.holders - {Owner} == map[]
  {
  }

  lemma FirstEnd(capacity: nat) returns (steps: seq<Step>, s: State)
    requires capacity > 0
    ensures Runs(Start(capacity), steps, s) && Good(s) && Enabled(s, DropStorage) && s.inserted == 1
  {
    var before, s0 := FirstDrop(capacity);
    var last, s1 := StorageCanGo(s0);
    s := s1;
    PathThenPath(Takes, Start(capacity), before, s0, last, s);
    steps := before + last;
  }

  /** A slab that has held an item is dropped, with its storage, and the item destroyed. */
  lemma StorageGoes(capacity: nat) returns (steps: seq<Step>, s: State)
    requires capacity > 0
    ensures Runs(Start(capacity), steps, s) && Good(s) && s.storageDropped && s.destroyed == [0]
  {
    var before, s0 := FirstEnd(capacity);
    s := Take(s0, DropStorage);
    OnlyItem(s);
    PathThenOne(Takes, Start(capacity), before, s0, DropStorage, s);
    steps := before + [DropStorage];
  }

  lemma OnlyItem(s: State)
    requires Good(s) && s.storageDropped && s.inserted == 1
    ensures s.destroyed == [0]
  {
    EveryItemDestroyedOnce(s);
    assert s.destroyed[0] in s.destroyed;
  }
}
