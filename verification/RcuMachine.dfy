/** The slab with generations, readers, removable-entry proxies and one writer, as a
    transition system. Each step is one critical section of the writer lock, one
    atomic access, or one reference-count change; any order of enabled steps is a run. */
module RcuMachine {
  import opened Options
  import opened Words
  import opened ScanRuns
  import opened SlabSpec
  import opened GenerationChain
  import opened StoreHistory

  /** What the writer's handle is doing. While `Iterating` it is borrowed by an
      `iter_mut`; in `Advancing` the next generation is linked but not yet current. */
  datatype Mode = Idle | Iterating(head: nat, tail: nat, remaining: int) | Advancing

  datatype Stage = Untouched | InFlight | Recorded

  /** A proxy: its index, the item it dereferences to, and how far its `remove` got. */
  datatype Entry = Entry(idx: nat, value: SlotStore, stage: Stage)

  /** What was read from a slot through a reader, and which store of the slot it was. */
  datatype Found = Found(value: SlotStore, store: nat)

  /** A thread using a reader: its own view, and the items it has references to. */
  datatype Observer = Observer(reader: nat, view: View, seen: map<nat, SlotStore>)

  datatype State = State(
    chain: Chain,
    mode: Mode,
    slab: Slab<nat>,
    inserted: nat,
    destroyed: seq<nat>,
    storageDropped: bool,
    pend: seq<seq<nat>>,        // pending_removes of each generation
    ownerMark: Option<nat>,     // marked by the writer, not yet pushed
    entries: map<nat, Entry>,   // proxies that can still be used
    mem: Memory,
    lock: View,                 // released by the last unlock of the writer lock
    views: map<Holder, View>,   // what whoever holds a handle has seen at least
    observers: map<nat, Observer>,
    found: map<nat, map<nat, Found>>) // the slots ever found present through each reader

  datatype Step =
    | Insert
    | Mark(h: Holder, i: nat)
    | Push(h: Holder)
    | LinkGeneration
    | SwapGeneration
    | NewReader(id: nat)
    | CloneReader(source: nat, id: nat)
    | DropReader(id: nat)
    | StartIterMut
    | Yield(end: End, found: Option<nat>, p: nat, k: nat)
    | EndEntry(p: nat)
    | DropProxy(p: nat)
    | DropOwner
    | FinalizeGeneration(g: nat)
    | ReleaseGeneration(g: nat)
    | Attach(t: nat, r: nat)
    | Load(t: nat, i: nat, k: nat)
    | Detach(t: nat)
    | DropStorage

  ghost function Start(capacity: nat): State {
    var zero := View(seq(WordCount(capacity), _ => 0), seq(capacity, _ => 0), 0);
    State(START, Idle, Fresh(capacity), 0, [], false, [[]], None, map[],
          Memory(seq(WordCount(capacity), _ => [WordStore(ZERO, zero)]), seq(capacity, _ => [Freed]), [0]),
          zero, map[Owner := zero], map[], map[])
  }

  // The invariant, by component.

  /** Handles, views and observers refer to things that exist. */
  ghost predicate Typed(s: State) {
    && Inv(s.chain)
    && s.views.Keys == s.chain.holders.Keys - {Local}
    && |s.pend| == |s.chain.gens|
    && Shape(s.mem) && StoresInRange(s.mem) && s.lock == Top(s.mem)
    && (forall h :: h in s.views ==> InRange(s.mem, s.views[h]))
    && (forall t :: t in s.observers ==> Observing(s, s.observers[t]))
    && (forall p :: p in s.entries ==> Proxy(p) in s.chain.holders)
    && (forall r :: r in s.found <==> Reader(r) in s.chain.holders)
    && (Local in s.chain.holders <==> s.mode == Advancing)
    && (s.mode != Idle || s.ownerMark.Some? || s.entries != map[] ==> Owner in s.chain.holders)
    && (s.mode.Iterating? ==> s.mode.head <= s.mode.tail <= |s.mem.slots|)
    && (s.storageDropped ==> AllGone(s.chain))
  }

  /** No handle is left, and every generation's destructor has finished. */
  ghost predicate AllGone(chain: Chain) {
    chain.holders == map[] && forall g: nat :: g < |chain.gens| ==> chain.gens[g].phase == Gone
  }

  ghost predicate Observing(s: State, o: Observer) {
    && InRange(s.mem, o.view)
    && Reader(o.reader) in s.chain.holders && Reader(o.reader) in s.views
    && Below(s.views[Reader(o.reader)], o.view)
  }

  /** `h` has marked slot `i` and not yet recorded it. */
  ghost predicate Flying(ownerMark: Option<nat>, entries: map<nat, Entry>, h: Holder, i: nat) {
    match h
    case Owner => ownerMark == Some(i)
    case Proxy(p) => p in entries && entries[p].stage == InFlight && entries[p].idx == i
    case _ => false
  }

  ghost predicate RecordedIn(pend: seq<seq<nat>>, g: nat, i: nat) {
    g < |pend| && i in pend[g]
  }

  ghost predicate NoRepeats(pend: seq<seq<nat>>) {
    forall g1, k1, g2, k2 {:trigger pend[g1][k1], pend[g2][k2]} ::
      (0 <= g1 < |pend| && 0 <= k1 < |pend[g1]| && 0 <= g2 < |pend| && 0 <= k2 < |pend[g2]|
       && pend[g1][k1] == pend[g2][k2]) ==> g1 == g2 && k1 == k2
  }

  /** Every marked slot that is still allocated is waiting in exactly one place: in one
      generation's list, once, or in flight to one. */
  ghost predicate PendOk<T>(
    slab: Slab<T>, gens: seq<Gen>, pend: seq<seq<nat>>, ownerMark: Option<nat>, entries: map<nat, Entry>)
  {
    && NoRepeats(pend)
    && (forall g: nat, i: nat :: RecordedIn(pend, g, i) ==> i in Pending(slab))
    && (forall h, i: nat :: Flying(ownerMark, entries, h, i) ==>
          i in Pending(slab) && forall g: nat :: !RecordedIn(pend, g, i))
    && (forall h, h', i: nat :: Flying(ownerMark, entries, h, i) && Flying(ownerMark, entries, h', i) ==> h == h')
    && (forall i: nat :: i in Pending(slab) ==>
          (exists g: nat :: RecordedIn(pend, g, i)) || (exists h :: Flying(ownerMark, entries, h, i)))
    && (forall g: nat :: g < |pend| && g < |gens| && (gens[g].phase == Finalized || gens[g].phase == Gone) ==>
          pend[g] == [])
  }

  /** The `'a` borrow: while an iterator lives or any proxy can still be used, the writer
      creates no reader, so no reader belongs to a generation newer than the proxies'. */
  ghost predicate BorrowOk(s: State) {
    && Borrowing(s.chain.holders, s.mode, s.ownerMark, s.entries)
    && EntriesOk(s.entries, s.mode, s.slab.present, s.slab.capacity)
  }

  ghost predicate Borrowing(holders: map<Holder, nat>, mode: Mode, ownerMark: Option<nat>, entries: map<nat, Entry>) {
    && (ownerMark.Some? ==> mode == Idle && entries == map[])
    && (forall p :: p in entries ==>
          && Owner in holders && Proxy(p) in holders
          && holders[Owner] == holders[Proxy(p)] + if mode == Idle then 1 else 0)
    && (forall r :: Reader(r) in holders && Owner in holders ==> holders[Reader(r)] <= holders[Owner])
    && (forall r, p :: Reader(r) in holders && p in entries && Proxy(p) in holders ==>
          holders[Reader(r)] <= holders[Proxy(p)])
  }

  /** Proxies are for distinct slots the iterator has passed; an untouched one's item is
      still present. */
  ghost predicate EntriesOk(entries: map<nat, Entry>, mode: Mode, present: set<nat>, capacity: nat) {
    && (forall p, q :: p in entries && q in entries && entries[p].idx == entries[q].idx ==> p == q)
    && (forall p :: p in entries ==> entries[p].idx < capacity)
    && (forall p :: p in entries && entries[p].stage == Untouched ==> entries[p].idx in present)
    && (mode.Iterating? ==> forall p :: p in entries ==> !(mode.head <= entries[p].idx < mode.tail))
  }

  ghost predicate UpToDate(mem: Memory, v: View, w: nat)
    requires InRange(mem, v)
  {
    w < |mem.words| ==> v.word[w] == |mem.words[w]| - 1
  }

  /** Every store to slot `i`'s word that the view may still load is right about `i`. */
  ghost predicate Exact(mem: Memory, v: View, present: set<nat>, i: nat)
    requires InRange(mem, v) && WordOf(i) < |mem.words|
  {
    forall k: nat :: v.word[WordOf(i)] <= k < |mem.words[WordOf(i)]| ==> (Shows(mem, k, i) <==> i in present)
  }

  ghost function Ahead(present: set<nat>, head: nat, tail: nat): set<nat> {
    set i | i in present && head <= i < tail
  }

  /** `h` has seen the last store to word `w`. */
  ghost predicate Knows(s: State, h: Holder, w: nat) {
    h in s.views && InRange(s.mem, s.views[h]) && UpToDate(s.mem, s.views[h], w)
  }

  ghost predicate SeenByWriter(s: State, w: nat) {
    Knows(s, Owner, w) || exists p :: p in s.entries && Knows(s, Proxy(p), w)
  }

  /** The writer and the proxies it lent itself to have between them seen every flag
      store; and what the iterator has not reached yet, it will read correctly. */
  ghost predicate OwnerOk(s: State) {
    Owner in s.chain.holders ==>
      && Shape(s.mem) && StoresInRange(s.mem) && Owner in s.views && InRange(s.mem, s.views[Owner])
      && s.views[Owner].front == |s.mem.fronts| - 1
      && (forall w: nat :: SeenByWriter(s, w))
      && (s.mode.Iterating? ==>
            && s.mode.remaining == |Ahead(s.slab.present, s.mode.head, s.mode.tail)|
            && s.mode.tail <= |s.mem.slots|
            && forall i: nat :: s.mode.head <= i < s.mode.tail ==>
                 Exact(s.mem, s.views[Owner], s.slab.present, i) && Sound(s.mem, s.views[Owner], i))
  }

  /** A reader of generation `g` with view `v`: a flag it may still load set belongs to
      the slot's current item, and removals recorded before `g` are invisible to it. */
  ghost predicate Guarded(mem: Memory, slab: Slab<nat>, pend: seq<seq<nat>>, v: View, g: nat)
    requires Shape(mem) && StoresInRange(mem) && InRange(mem, v)
  {
    && (forall i: nat {:trigger Sound(mem, v, i)} :: i < |mem.slots| ==> Sound(mem, v, i))
    && (forall i: nat {:trigger Covered(mem, v, i)} :: i < |mem.slots| && i !in slab.items ==> Covered(mem, v, i))
    && (forall g': nat, i: nat :: g' < g && i < |mem.slots| && RecordedIn(pend, g', i) ==> Covered(mem, v, i))
  }

  ghost predicate ReadersOk(s: State) {
    && Shape(s.mem) && StoresInRange(s.mem)
    && forall r :: Reader(r) in s.chain.holders ==> ReaderGuarded(s, r)
  }

  ghost predicate ReaderGuarded(s: State, r: nat)
    requires Shape(s.mem) && StoresInRange(s.mem)
  {
    && Reader(r) in s.views && Reader(r) in s.chain.holders && InRange(s.mem, s.views[Reader(r)])
    && Guarded(s.mem, s.slab, s.pend, s.views[Reader(r)], s.chain.holders[Reader(r)])
  }

  /** What generation `g` keeps of slot `i`: it still holds the item that was found, has
      not been written since, and no older generation is about to finalize it. */
  ghost predicate Kept(mem: Memory, slab: Slab<nat>, pend: seq<seq<nat>>, g: nat, i: nat, f: Found) {
    && i < |mem.slots| && i in slab.items
    && f.value == Put(slab.items[i]) && f.store == |mem.slots[i]| - 1
    && forall g': nat :: g' < g ==> !RecordedIn(pend, g', i)
  }

  /** A reference held through generation `g`, which a thread with view `v` reads. */
  ghost predicate Held(mem: Memory, slab: Slab<nat>, pend: seq<seq<nat>>, v: View, g: nat, i: nat, value: SlotStore)
    requires InRange(mem, v)
  {
    i < |mem.slots| && Kept(mem, slab, pend, g, i, Found(value, v.slot[i]))
  }

  /** Whatever was ever found through a reader is kept for as long as the reader lives. */
  ghost predicate FoundOk(s: State) {
    forall r, i: nat :: r in s.found && i in s.found[r] ==> ReaderKeeps(s, r, i)
  }

  ghost predicate ReaderKeeps(s: State, r: nat, i: nat) {
    && r in s.found && i in s.found[r] && Reader(r) in s.chain.holders
    && Kept(s.mem, s.slab, s.pend, s.chain.holders[Reader(r)], i, s.found[r][i])
  }

  ghost predicate ReferencesOk(s: State) {
    && (forall t, i: nat :: t in s.observers && i in s.observers[t].seen ==> ObserverHolds(s, t, i))
    && (forall p :: p in s.entries ==> EntryHolds(s, p))
  }

  ghost predicate ObserverHolds(s: State, t: nat, i: nat) {
    && t in s.observers && i in s.observers[t].seen
    && InRange(s.mem, s.observers[t].view) && Reader(s.observers[t].reader) in s.chain.holders
    && Held(s.mem, s.slab, s.pend, s.observers[t].view, s.chain.holders[Reader(s.observers[t].reader)], i,
            s.observers[t].seen[i])
  }

  ghost predicate EntryHolds(s: State, p: nat) {
    && p in s.entries && Proxy(p) in s.views && Proxy(p) in s.chain.holders && InRange(s.mem, s.views[Proxy(p)])
    && Held(s.mem, s.slab, s.pend, s.views[Proxy(p)], s.chain.holders[Proxy(p)], s.entries[p].idx, s.entries[p].value)
  }

  ghost predicate Stored(items: map<nat, nat>, x: nat) {
    exists i :: i in items && items[i] == x
  }

  /** Every inserted item is in one slot or has been destroyed once. */
  ghost predicate ItemsOk(items: map<nat, nat>, inserted: nat, destroyed: seq<nat>, storageDropped: bool) {
    && (forall i, j :: i in items && j in items && items[i] == items[j] ==> i == j)
    && (forall i :: i in items ==> items[i] < inserted)
    && NoDuplicates(destroyed) && (forall x: nat :: x in destroyed ==> x < inserted)
    && (!storageDropped ==> forall x: nat :: x < inserted ==> (x in destroyed <==> !Stored(items, x)))
    && (storageDropped ==> forall x: nat :: x < inserted ==> x in destroyed)
  }

  ghost predicate Good(s: State) {
    && Typed(s)
    && WellFormed(s.slab) && Mirrors(s.mem, s.slab)
    && PendOk(s.slab, s.chain.gens, s.pend, s.ownerMark, s.entries)
    && BorrowOk(s) && OwnerOk(s) && ReadersOk(s) && ReferencesOk(s) && FoundOk(s)
    && ItemsOk(s.slab.items, s.inserted, s.destroyed, s.storageDropped)
  }

  // Steps.

  /** The writer's handle is free to be used: nothing borrows it, no call is unfinished. */
  ghost predicate OwnerFree(s: State) {
    Owner in s.chain.holders && s.mode == Idle && s.ownerMark == None && s.entries == map[]
  }

  /** The iterator may find slot `j` clear: some store its view allows shows it so. */
  ghost predicate MaySkip(s: State, j: nat)
    requires Owner in s.views && InRange(s.mem, s.views[Owner]) && WordOf(j) < |s.mem.words|
  {
    exists k: nat :: s.views[Owner].word[WordOf(j)] <= k < |s.mem.words[WordOf(j)]| && !Shows(s.mem, k, j)
  }

  ghost predicate YieldEnabled(s: State, end: End, found: Option<nat>, p: nat, k: nat)
    requires Typed(s)
  {
    && s.mode.Iterating?
    && match found
       case None => forall j: nat :: s.mode.head <= j < s.mode.tail ==> MaySkip(s, j)
       case Some(i) =>
         && s.mode.head <= i < s.mode.tail && Proxy(p) !in s.chain.holders
         && s.views[Owner].word[WordOf(i)] <= k && Shows(s.mem, k, i)
         && forall j: nat :: (if end == Front then s.mode.head <= j < i else i < j < s.mode.tail) ==> MaySkip(s, j)
  }

  /** The caller may mark slot `i` through `h`; for the writer the slot must be present,
      or the call panics. */
  ghost predicate MarkEnabled(s: State, h: Holder, i: nat) {
    match h
    case Owner => OwnerFree(s) && i in s.slab.present
    case Proxy(p) => p in s.entries && s.entries[p].stage == Untouched && s.entries[p].idx == i
    case _ => false
  }

  /** `h` has a removal to record. */
  ghost predicate PushEnabled(s: State, h: Holder) {
    match h
    case Owner => s.ownerMark.Some?
    case Proxy(p) => p in s.entries && s.entries[p].stage == InFlight
    case _ => false
  }

  ghost predicate Enabled(s: State, step: Step)
    requires Typed(s)
  {
    match step
    case Insert => OwnerFree(s) && s.slab.free != []
    case Mark(h, i) => MarkEnabled(s, h, i)
    case Push(h) => PushEnabled(s, h)
    case LinkGeneration => OwnerFree(s) || s.mode.Iterating?
    case SwapGeneration => s.mode == Advancing
    case NewReader(id) => OwnerFree(s) && Reader(id) !in s.chain.holders
    case CloneReader(source, id) => Reader(source) in s.chain.holders && Reader(id) !in s.chain.holders
    case DropReader(id) =>
      Reader(id) in s.chain.holders && forall t :: t in s.observers ==> s.observers[t].reader != id
    case StartIterMut => OwnerFree(s)
    case Yield(end, found, p, k) => YieldEnabled(s, end, found, p, k)
    case EndEntry(p) => p in s.entries && s.entries[p].stage != InFlight
    case DropProxy(p) => Proxy(p) in s.chain.holders && p !in s.entries
    case DropOwner => OwnerFree(s)
    case FinalizeGeneration(g) => g < |s.chain.gens| && s.chain.gens[g].phase == Dying
    case ReleaseGeneration(g) => g < |s.chain.gens| && s.chain.gens[g].phase == Finalized
    case Attach(t, r) => t !in s.observers && Reader(r) in s.chain.holders
    case Load(t, i, k) => LoadEnabled(s, t, i, k)
    case Detach(t) => t in s.observers
    case DropStorage =>
      AllGone(s.chain) && !s.storageDropped
  }

  /** Taking the writer lock: the holder's view joins what the last unlock released. */
  ghost function Locked(s: State, h: Holder): Acting
    requires Typed(s) && h in s.views
  {
    Acting(s.mem, Join(s.views[h], s.lock))
  }

  ghost function AfterInsert(s: State): State
    requires Typed(s) && WellFormed(s.slab) && s.slab.capacity == |s.mem.slots| && OwnerFree(s) && s.slab.free != []
  {
    assert s.slab.free[0] in s.slab.free;
    JoinIsUpper(s.mem, s.views[Owner], s.lock);
    var a := InsertStores(Locked(s, Owner), s.slab.free[0], s.inserted);
    s.(slab := Inserted(s.slab, s.inserted), inserted := s.inserted + 1,
       mem := a.m, lock := a.v, views := s.views[Owner := a.v])
  }

  ghost function AfterMark(s: State, h: Holder, i: nat): State
    requires Typed(s) && WellFormed(s.slab) && MarkEnabled(s, h, i) && i < |s.mem.slots|
  {
    JoinIsUpper(s.mem, s.views[h], s.lock);
    var a := MarkStores(Locked(s, h), i);
    var s' := s.(slab := Marked(s.slab, i), mem := a.m, lock := a.v, views := s.views[h := a.v]);
    match h
    case Owner => s'.(ownerMark := Some(i))
    case Proxy(p) => s'.(entries := s.entries[p := s.entries[p].(stage := InFlight)])
  }

  ghost function FlyingSlot(s: State, h: Holder): nat
    requires PushEnabled(s, h)
  {
    match h
    case Owner => s.ownerMark.value
    case Proxy(p) => s.entries[p].idx
  }

  ghost function RecordedAlso(pend: seq<seq<nat>>, g: nat, i: nat): seq<seq<nat>>
    requires g < |pend|
  {
    pend[g := pend[g] + [i]]
  }

  ghost function AfterPush(s: State, h: Holder): State
    requires Typed(s) && PushEnabled(s, h)
  {
    var s' := s.(pend := RecordedAlso(s.pend, s.chain.holders[h], FlyingSlot(s, h)));
    match h
    case Owner => s'.(ownerMark := None)
    case Proxy(p) => s'.(entries := s.entries[p := s.entries[p].(stage := Recorded)])
  }

  /** The iterator's range and count after it yields `found`, or nothing. */
  ghost function YieldedMode(mode: Mode, end: End, found: Option<nat>): Mode
    requires mode.Iterating?
  {
    match found
    case None =>
      (match end
       case Front => mode.(head := mode.tail)
       case Back => mode.(tail := mode.head))
    case Some(i) =>
      (match end
       case Front => mode.(head := i + 1, remaining := mode.remaining - 1)
       case Back => mode.(tail := i, remaining := mode.remaining - 1))
  }

  ghost function AfterYield(s: State, end: End, found: Option<nat>, p: nat, k: nat): (s': State)
    requires Typed(s) && YieldEnabled(s, end, found, p, k)
    ensures s'.observers == s.observers
  {
    var mode := YieldedMode(s.mode, end, found);
    match found
    case None => s.(mode := mode)
    case Some(i) =>
      AcquireKeepsRange(s.mem, s.views[Owner], WordOf(i), k);
      var v := Acquire(s.mem, s.views[Owner], WordOf(i), k);
      s.(mode := mode,
         entries := s.entries[p := Entry(i, ReadSlot(s.mem, v, i), Untouched)],
         chain := Acquired(s.chain, Proxy(p), s.chain.holders[Owner]),
         views := s.views[Owner := v][Proxy(p) := v])
  }

  ghost function AfterFinalize(s: State, g: nat): (s': State)
    requires Typed(s) && g < |s.chain.gens| && Clean(s.slab, s.pend[g]) && s.slab.capacity == |s.mem.slots|
    ensures s'.observers == s.observers && s'.slab.capacity == s.slab.capacity
  {
    CleanIsInRange(s, g);
    var a := FreeStores(Acting(s.mem, s.lock), s.pend[g]);
    s.(chain := FinalizedGen(s.chain, g),
       slab := FinalizedAll(s.slab, s.pend[g]),
       destroyed := s.destroyed + ItemsAt(s.slab.items, s.pend[g]),
       pend := s.pend[g := []],
       mem := a.m, lock := a.v)
  }

  lemma CleanIsInRange(s: State, g: nat)
    requires Typed(s) && g < |s.pend| && Clean(s.slab, s.pend[g]) && s.slab.capacity == |s.mem.slots|
    ensures Able(Acting(s.mem, s.lock)) && forall i: nat :: i in s.pend[g] ==> i < |s.mem.slots|
  {
  }

  /** A generation's list can be finalized: no repeats, all marked, all allocated. */
  lemma PendingListIsClean<T>(slab: Slab<T>, gens: seq<Gen>, pend: seq<seq<nat>>, ownerMark: Option<nat>,
                           entries: map<nat, Entry>, g: nat)
    requires WellFormed(slab) && PendOk(slab, gens, pend, ownerMark, entries) && g < |pend|
    ensures Clean(slab, pend[g])
  {
    forall i: nat | i in pend[g]
      ensures i in Pending(slab)
    {
      assert RecordedIn(pend, g, i);
    }
    assert forall n :: 0 <= n < |pend[g]| ==> pend[g][n] in pend[g];
  }

  ghost predicate LoadEnabled(s: State, t: nat, i: nat, k: nat)
    requires Typed(s)
  {
    && t in s.observers && i < |s.mem.slots|
    && s.observers[t].view.word[WordOf(i)] <= k < |s.mem.words[WordOf(i)]|
  }

  ghost function AfterLoad(s: State, t: nat, i: nat, k: nat): (s': State)
    requires Typed(s) && LoadEnabled(s, t, i, k)
    ensures s' == s.(observers := s'.observers, found := s'.found)
  {
    assert Observing(s, s.observers[t]);
    AcquireKeepsRange(s.mem, s.observers[t].view, WordOf(i), k);
    AfterLooking(s, t, i, Acquire(s.mem, s.observers[t].view, WordOf(i), k), Shows(s.mem, k, i))
  }

  /** Thread `t` now has view `v`, and has found slot `i` present or not. */
  ghost function AfterLooking(s: State, t: nat, i: nat, v: View, shown: bool): (s': State)
    requires t in s.observers && s.observers[t].reader in s.found && InRange(s.mem, v) && i < |s.mem.slots|
    ensures s' == s.(observers := s'.observers, found := s'.found)
  {
    var o := s.observers[t];
    if shown then
      var kept: map<nat, Found> := s.found[o.reader][i := Found(ReadSlot(s.mem, v, i), v.slot[i])];
      s.(observers := s.observers[t := o.(view := v, seen := o.seen[i := ReadSlot(s.mem, v, i)])],
         found := s.found[o.reader := kept])
    else
      s.(observers := s.observers[t := o.(view := v)])
  }

  /** A reader made from another handle, with its generation and what it has seen. */
  ghost function AfterNewReader(s: State, id: nat, source: Holder): (s': State)
    requires Typed(s) && source in s.views && Reader(id) !in s.chain.holders
    ensures s'.observers == s.observers
  {
    HeldIsLive(s.chain, source);
    s.(chain := Acquired(s.chain, Reader(id), s.chain.holders[source]),
       views := s.views[Reader(id) := s.views[source]],
       found := s.found[id := if source.Reader? then s.found[source.id] else map[]])
  }

  ghost function AfterDrop(s: State, h: Holder): (s': State)
    requires Typed(s) && h in s.views
    ensures s'.observers == s.observers
  {
    s.(chain := Dropped(s.chain, h), views := s.views - {h},
       found := if h.Reader? then s.found - {h.id} else s.found)
  }

  /** The proxy's last use: the borrow hands what its holder has seen back to the writer.
      Its reference to the generation may be dropped later. */
  ghost function AfterEndEntry(s: State, p: nat): (s': State)
    requires Typed(s) && p in s.entries
    ensures s'.observers == s.observers
  {
    s.(entries := s.entries - {p}, views := s.views[Owner := Join(s.views[Owner], s.views[Proxy(p)])])
  }

  ghost function AfterLink(s: State): State
    requires Typed(s) && Owner in s.chain.holders && s.mode != Advancing
  {
    s.(chain := LinkedNext(s.chain), mode := Advancing, pend := s.pend + [[]])
  }

  ghost function AfterSwap(s: State): State
    requires Typed(s) && s.mode == Advancing
  {
    s.(chain := Swapped(s.chain), mode := Idle)
  }

  ghost function AfterStartIterMut(s: State): State
    requires Typed(s) && Owner in s.views
  {
    s.(mode := Iterating(0, s.mem.fronts[s.views[Owner].front], |s.slab.present|))
  }

  ghost function AfterRelease(s: State, g: nat): State
    requires Typed(s) && g < |s.chain.gens| && s.chain.gens[g].phase == Finalized
  {
    s.(chain := Released(s.chain, g))
  }

  ghost function AfterAttach(s: State, t: nat, r: nat): State
    requires Typed(s) && Reader(r) in s.views
  {
    s.(observers := s.observers[t := Observer(r, s.views[Reader(r)], map[])])
  }

  ghost function AfterDetach(s: State, t: nat): State {
    s.(observers := s.observers - {t})
  }

  ghost function AfterDropStorage(s: State): State
    requires WellFormed(s.slab)
  {
    s.(storageDropped := true, destroyed := s.destroyed + PresentItems(s.slab, 0))
  }

  /** Steps that create, link, hand over or drop handles, or say who uses a reader. */
  predicate HandleStep(step: Step) {
    step.LinkGeneration? || step.SwapGeneration? || step.NewReader? || step.CloneReader? || step.DropReader?
    || step.DropProxy? || step.DropOwner? || step.ReleaseGeneration? || step.Attach? || step.Detach?
  }

  ghost function HandleNext(s: State, step: Step): State
    requires Typed(s) && HandleStep(step) && Enabled(s, step)
  {
    match step
    case LinkGeneration => AfterLink(s)
    case SwapGeneration => AfterSwap(s)
    case NewReader(id) => AfterNewReader(s, id, Owner)
    case CloneReader(source, id) => AfterNewReader(s, id, Reader(source))
    case DropReader(id) => AfterDrop(s, Reader(id))
    case DropProxy(p) => AfterDrop(s, Proxy(p))
    case DropOwner => AfterDrop(s, Owner)
    case ReleaseGeneration(g) => AfterRelease(s, g)
    case Attach(t, r) => AfterAttach(s, t, r)
    case Detach(t) => AfterDetach(s, t)
  }

  /** Removable iteration, and loads by readers. */
  predicate AccessStep(step: Step) { step.StartIterMut? || step.Yield? || step.EndEntry? || step.Load? }

  ghost function AccessNext(s: State, step: Step): State
    requires Typed(s) && AccessStep(step) && Enabled(s, step)
  {
    match step
    case StartIterMut => AfterStartIterMut(s)
    case Yield(end, found, p, k) => AfterYield(s, end, found, p, k)
    case EndEntry(p) => AfterEndEntry(s, p)
    case Load(t, i, k) => AfterLoad(s, t, i, k)
  }

  /** The rest change the slab, or what is waiting to be finalized. */
  ghost function StoreNext(s: State, step: Step): State
    requires Typed(s) && !HandleStep(step) && !AccessStep(step) && Enabled(s, step)
    requires WellFormed(s.slab) && s.slab.capacity == |s.mem.slots| && MarksInRange(s) && ListsAreClean(s)
  {
    match step
    case Insert => AfterInsert(s)
    case Mark(h, i) => AfterMark(s, h, i)
    case Push(h) => AfterPush(s, h)
    case FinalizeGeneration(g) => AfterFinalize(s, g)
    case DropStorage => AfterDropStorage(s)
  }

  ghost predicate MarksInRange(s: State) {
    && (forall i :: i in s.slab.present ==> i < |s.mem.slots|)
    && (forall p :: p in s.entries ==> s.entries[p].idx < |s.mem.slots|)
  }

  ghost predicate ListsAreClean(s: State) {
    forall g: nat :: g < |s.pend| ==> Clean(s.slab, s.pend[g])
  }

  lemma StoresAreReady(s: State)
    requires Good(s)
    ensures MarksInRange(s) && ListsAreClean(s)
  {
    forall g: nat | g < |s.pend|
      ensures Clean(s.slab, s.pend[g])
    {
      PendingListIsClean(s.slab, s.chain.gens, s.pend, s.ownerMark, s.entries, g);
    }
  }

  ghost function Next(s: State, step: Step): State
    requires Good(s) && Enabled(s, step)
  {
    if HandleStep(step) then HandleNext(s, step)
    else if AccessStep(step) then AccessNext(s, step)
    else
      StoresAreReady(s);
      StoreNext(s, step)
  }

  /** The items of the present slots from `lo` up, in slot order: the destructor's scan. */
  ghost function PresentItems(slab: Slab<nat>, lo: nat): seq<nat>
    requires WellFormed(slab)
    decreases slab.capacity - lo
  {
    if lo >= slab.capacity then []
    else (if lo in slab.present then [slab.items[lo]] else []) + PresentItems(slab, lo + 1)
  }
}
