/** The slab with generations, method by method, for one thread at a time. */
module ManagedSlab {
  import opened Options
  import opened Words
  import opened BitmapScan
  import opened ScanRuns
  import opened SlabSpec
  import opened Freelist
  import opened ConcurrentSlab
  import opened GenerationChain
  import opened RcuMachine
  import opened Reclamation

  class RcuCslab<T> {
    const writer: Cslab<T>
    /** every generation ever created, oldest first: its reference count, its successor,
        and how far its destructor got */
    var gens: seq<Gen>
    var pendingRemoves: seq<seq<nat>>
    var curGen: nat
    /** who holds the references that the counts count */
    ghost var holders: map<Holder, nat>
    ghost var destroyed: seq<T>

    ghost function Abs(): Managed<T>
      requires writer.storage.Shaped()
      reads this, writer, writer.storage, writer.storage.table, writer.storage.bitmap
    {
      Managed(writer.Abs(), Chain(gens, holders), pendingRemoves, destroyed)
    }

    /** Holds inside calls too. */
    ghost predicate Sound()
      reads this, writer, writer.storage, writer.storage.table, writer.storage.bitmap
    {
      writer.Valid() && Coherent(Abs())
    }

    ghost predicate Valid()
      reads this, writer, writer.storage, writer.storage.table, writer.storage.bitmap
    {
      && Sound() && Quiescent(Abs().chain)
      && Owner in holders && Local !in holders && holders[Owner] == curGen
    }

    constructor (capacity: usize)
      requires 0 < capacity <= ISIZE_MAX
      ensures Valid() && Abs() == Initial(capacity)
      ensures fresh(writer) && fresh(writer.storage) && fresh(writer.storage.table) && fresh(writer.storage.bitmap)
    {
      writer := new Cslab(capacity);
      gens, pendingRemoves, curGen := [Gen(1, None, Live)], [[]], 0;
      holders, destroyed := map[Owner := 0], [];
      new;
      InitialIsCoherent<T>(capacity);
    }

    method Insert(item: T) returns (idx: Option<usize>)
      requires Valid()
      modifies writer, writer.storage`frontier, writer.storage.table, writer.storage.bitmap
      ensures Valid()
      ensures idx.Some? <==> old(|Abs().slab.items|) < writer.storage.size
      ensures idx.Some? ==> old(Abs()).slab.free != [] && idx.value == old(Abs()).slab.free[0]
                            && Abs() == old(Abs()).(slab := Inserted(old(Abs()).slab, item))
      ensures idx == None ==> Abs() == old(Abs())
    {
      idx := writer.Insert(item);
      if idx.Some? {
        InsertIsCoherent(old(Abs()), item);
      }
    }

    /** A generation's `mark_removed`: mark the slot, then record it. */
    method MarkIn(g: nat, idx: usize)
      requires Sound() && g < |gens| && gens[g].phase == Live && idx in Abs().slab.present
      modifies this`pendingRemoves, writer, writer.storage.bitmap
      ensures Sound() && Abs() == Removed(old(Abs()), g, idx)
    {
      RemovedIsCoherent(Abs(), g, idx);
      writer.MarkRemoved(idx);
      pendingRemoves := pendingRemoves[g := pendingRemoves[g] + [idx]];
    }

    /** The source panics unless the item is present. */
    method MarkRemoved(idx: usize)
      requires Valid() && idx in Abs().slab.present
      modifies this`pendingRemoves, writer, writer.storage.bitmap
      ensures Valid() && Abs() == Removed(old(Abs()), old(curGen), idx)
    {
      HeldIsLive(Abs().chain, Owner);
      MarkIn(curGen, idx);
    }

    /** The body of a generation's destructor, under the writer's lock. */
    method FinalizeList(list: seq<nat>) returns (items: seq<T>)
      requires writer.Valid() && Clean(writer.Abs(), list)
      modifies writer, writer.storage.table
      ensures writer.Valid() && writer.Abs() == FinalizedAll(old(writer.Abs()), list)
      ensures items == ItemsAt(old(writer.Abs()).items, list)
    {
      ghost var before := writer.Abs();
      var rest := list;
      items := [];
      while rest != []
        invariant writer.Valid() && Finalizing(before, list, writer.Abs(), rest, items)
        decreases |rest|
      {
        FinalizingNext(before, list, writer.Abs(), rest, items);
        var item := writer.FinalizeRemove(rest[0]);
        items, rest := items + [item], rest[1..];
      }
    }

    /** Giving up one counted reference to `g`. */
    method Unref(g: nat) returns (last: bool)
      requires g < |gens| && gens[g].strong > 0
      modifies this`gens
      ensures gens == Decremented(old(gens), g) && last == (old(gens[g].strong) == 1)
    {
      var left := gens[g].strong - 1;
      last := left == 0;
      gens := gens[g := gens[g].(strong := left, phase := if last then Dying else gens[g].phase)];
    }

    /** After its destructor's body, a generation's fields are dropped: the link keeps the
        successor alive no longer. */
    method DropFields(g: nat) returns (last: bool)
      requires Inv(Chain(gens, holders)) && g < |gens| && gens[g].phase == Dying
      modifies this`gens
      ensures Inv(FinalizedGen(Chain(old(gens), holders), g))
      ensures Chain(gens, holders) == Released(FinalizedGen(Chain(old(gens), holders), g), g)
      ensures last <==> g + 1 < |gens| && gens[g + 1].phase == Dying
    {
      ghost var finalized := FinalizedGen(Chain(gens, holders), g);
      GenerationChain.FinalizeKeeps(Chain(gens, holders), g);
      ReleaseKeeps(finalized, g);
      var next := gens[g].next;
      gens := gens[g := gens[g].(phase := Gone, next := None)];
      match next
      case None => last := false;
      case Some(n) =>
        LinkIsCounted(finalized, g);
        SuccessorOfLivingIsLive(finalized, g);
        last := Unref(n);
    }

    /** One destructor; reports whether its successor's is due now. */
    method DestroyOne(g: nat) returns (next: bool)
      requires Sound() && g < |gens| && gens[g].phase == Dying
      modifies this`destroyed, this`pendingRemoves, this`gens, writer, writer.storage.table
      ensures Sound() && Abs() == OneReclaimed(old(Abs()), g)
      ensures next <==> g + 1 < |gens| && gens[g + 1].phase == Dying
    {
      ghost var before := Abs();
      ListIsClean(before, g);
      var items := FinalizeList(pendingRemoves[g]);
      ghost var slab := writer.Abs();
      destroyed := destroyed + items;
      pendingRemoves := pendingRemoves[g := []];
      next := DropFields(g);
      OneReclaimedParts(before, g, slab, Chain(gens, holders), items);
      assert writer.Abs() == slab && writer.Valid();
    }

    /** The last reference to `g` is gone: run its destructor, and those of its successors
        that it was the last to keep alive. */
    method Destroy(g: nat)
      requires Sound() && g < |gens| && gens[g].phase == Dying
      modifies this`destroyed, this`pendingRemoves, this`gens, writer, writer.storage.table
      ensures Sound() && Abs() == Reclaimed(old(Abs()), g)
    {
      var n, due := g, true;
      while due
        invariant Sound() && |gens| == old(|gens|) && n <= |gens|
        invariant due <==> n < |gens| && gens[n].phase == Dying
        invariant Reclaimed(Abs(), n) == Reclaimed(old(Abs()), g)
        decreases |gens| - n
      {
        due := DestroyOne(n);
        n := n + 1;
      }
    }

    // Handles.

    /** A new reader of the current generation. */
    method NewReader(ghost id: nat) returns (g: nat)
      requires Valid() && Reader(id) !in holders
      modifies this`gens, this`holders
      ensures Valid() && g == curGen && Reader(id) in holders
      ensures Abs() == old(Abs()).(chain := Acquired(old(Abs()).chain, Reader(id), curGen))
    {
      HeldIsLive(Abs().chain, Owner);
      g := curGen;
      TakeRef(Reader(id), g);
    }

    /** A clone of reader `source`, which belongs to generation `g`: it belongs there too,
        current or not. */
    method CloneReader(g: nat, ghost source: nat, ghost id: nat)
      requires Valid() && Reader(source) in holders && holders[Reader(source)] == g && Reader(id) !in holders
      modifies this`gens, this`holders
      ensures Valid() && holders == old(holders)[Reader(id) := g]
      ensures g < |old(gens)| && gens == old(gens)[g := old(gens)[g].(strong := old(gens)[g].strong + 1)]
      ensures Abs() == old(Abs()).(chain := Chain(gens, holders))
    {
      HeldIsLive(Abs().chain, Reader(source));
      TakeRef(Reader(id), g);
    }

    method TakeRef(ghost h: Holder, g: nat)
      requires Sound() && h !in holders && !h.Owner? && !h.Local? && g < |gens| && gens[g].phase == Live
      modifies this`gens, this`holders
      ensures Sound() && Abs() == old(Abs()).(chain := Acquired(old(Abs()).chain, h, g))
    {
      AcquireKeeps(Abs().chain, h, g);
      AcquireIsCoherent(Abs(), h, g);
      gens := gens[g := gens[g].(strong := gens[g].strong + 1)];
      holders := holders[h := g];
    }

    /** Dropping a reader or a proxy, with everything that sets off. */
    method DropHandle(ghost h: Holder, g: nat)
      requires Valid() && h in holders && holders[h] == g && !h.Owner? && !h.Local?
      modifies this, writer, writer.storage.table
      ensures Valid() && curGen == old(curGen)
      ensures Coherent(Unheld(old(Abs()), h)) && Abs() == Reclaimed(Unheld(old(Abs()), h), g)
    {
      ghost var before := Abs();
      ghost var after := UnheldIsReady(before, h);
      holders := holders - {h};
      var last := Unref(g);
      assert Abs() == after;
      Settle(g, last);
    }

    /** The drop of a reference to `g` has been counted; if it was the last, destructors
        follow. */
    method Settle(g: nat, last: bool)
      requires Sound() && g < |gens| && QuiescentBut(Abs().chain, g) && gens[g].phase != Finalized
      requires Owner in holders && Local !in holders && holders[Owner] == curGen
      requires last <==> gens[g].phase == Dying
      modifies this`destroyed, this`pendingRemoves, this`gens, writer, writer.storage.table
      ensures Valid() && Abs() == Reclaimed(old(Abs()), g)
    {
      CascadeSettles(Abs().chain, g);
      if last {
        Destroy(g);
      }
    }

    /** Create the next generation, link it, make it current, drop the old one. */
    method AdvanceGeneration()
      requires Valid()
      modifies this, writer, writer.storage.table
      ensures Valid() && curGen == old(|gens|)
      ensures Coherent(Advanced(old(Abs()))) && Abs() == Reclaimed(Advanced(old(Abs())), old(curGen))
    {
      var g := curGen;
      ghost var after := AdvanceIsReady(Abs(), g);
      var last := LinkAndSwap();
      assert Abs() == after;
      Settle(g, last);
    }

    /** The fields after an advance, before any destructor it causes. */
    method LinkAndSwap() returns (last: bool)
      requires curGen == |gens| - 1 && gens[curGen].strong > 0
      modifies this`gens, this`pendingRemoves, this`curGen, this`holders
      ensures curGen == old(curGen) + 1 && pendingRemoves == old(pendingRemoves) + [[]]
      ensures holders == old(holders)[Owner := curGen]
      ensures var linked := old(gens)[old(curGen) := old(gens[curGen]).(next := Some(curGen))] + [Gen(2, None, Live)];
              gens == Decremented(linked, old(curGen))
      ensures last <==> old(gens[curGen].strong) == 1
    {
      var g, next := curGen, curGen + 1;
      gens := gens[g := gens[g].(next := Some(next))] + [Gen(2, None, Live)];
      pendingRemoves := pendingRemoves + [[]];
      curGen := next;
      holders := holders[Owner := next];
      last := Unref(g);
    }

    method ScheduleFinalization(ghost id: nat) returns (g: nat)
      requires Valid() && Reader(id) !in holders
      modifies this, writer, writer.storage.table
      ensures Valid() && g == curGen == old(|gens|)
      ensures Coherent(Advanced(old(Abs())))
      ensures var v := Reclaimed(Advanced(old(Abs())), old(curGen));
              Reader(id) !in v.chain.holders && g < |v.chain.gens|
              && Abs() == v.(chain := Acquired(v.chain, Reader(id), g))
    {
      AdvanceGeneration();
      g := NewReader(id);
    }

    method Remove(idx: usize, ghost id: nat) returns (g: nat)
      requires Valid() && Reader(id) !in holders && idx in Abs().slab.present
      modifies this, writer, writer.storage.table, writer.storage.bitmap
      ensures Valid() && g == curGen == old(|gens|)
      ensures old(curGen) < |old(Abs()).pend| && Coherent(Removed(old(Abs()), old(curGen), idx))
      ensures Coherent(Advanced(Removed(old(Abs()), old(curGen), idx)))
      ensures var v := Reclaimed(Advanced(Removed(old(Abs()), old(curGen), idx)), old(curGen));
              Reader(id) !in v.chain.holders && g < |v.chain.gens|
              && Abs() == v.(chain := Acquired(v.chain, Reader(id), g))
    {
      MarkRemoved(idx);
      g := ScheduleFinalization(id);
    }

    /** A proxy's `remove`, which consumes it. */
    method RemoveEntry(ghost p: nat, g: nat, idx: usize)
      requires Valid() && Proxy(p) in holders && holders[Proxy(p)] == g && idx in Abs().slab.present
      modifies this, writer, writer.storage.table, writer.storage.bitmap
      ensures Valid() && curGen == old(curGen)
      ensures g < |old(Abs()).pend| && Coherent(Removed(old(Abs()), g, idx))
      ensures Coherent(Unheld(Removed(old(Abs()), g, idx), Proxy(p)))
      ensures Abs() == Reclaimed(Unheld(Removed(old(Abs()), g, idx), Proxy(p)), g)
    {
      HeldIsLive(Abs().chain, Proxy(p));
      MarkIn(g, idx);
      DropHandle(Proxy(p), g);
    }

    /** Removal through a proxy just taken: after it only the removal remains. */
    method RemoveYielded(ghost before: Managed<T>, ghost list: seq<nat>, ghost p: nat, i: nat)
      requires Valid() && Coherent(before) && Proxy(p) !in before.chain.holders
      requires curGen < |before.pend| && before.chain.gens[curGen].phase == Live
      requires Coherent(AllRemoved(before, curGen, list)) && i in before.slab.present && i !in list
      requires Abs() == AllRemoved(before, curGen, list).(chain := Acquired(before.chain, Proxy(p), curGen))
      modifies this, writer, writer.storage.table, writer.storage.bitmap
      ensures Valid() && curGen == old(curGen)
      ensures Coherent(AllRemoved(before, curGen, list + [i])) && Abs() == AllRemoved(before, curGen, list + [i])
    {
      EntryRemoved(before, curGen, list, p, i);
      RemoveEntry(p, curGen, i);
    }

    /** Marks every present item once, in slot order, advances one generation, and returns
        a reader of the new one, which sees nothing. */
    method Clear(ghost id: nat, ghost p: nat) returns (g: nat, ghost list: seq<nat>)
      requires Valid() && Reader(id) !in holders && Proxy(p) !in holders
      modifies this, writer, writer.storage.table, writer.storage.bitmap
      ensures Valid() && g == curGen == old(|gens|)
      ensures Ascending(list) && Elements(list) == old(Abs().slab.present) && Abs().slab.present == {}
      ensures old(curGen) < |old(Abs()).pend| && Coherent(AllRemoved(old(Abs()), old(curGen), list))
      ensures Coherent(Advanced(AllRemoved(old(Abs()), old(curGen), list)))
      ensures var v := Reclaimed(Advanced(AllRemoved(old(Abs()), old(curGen), list)), old(curGen));
              Reader(id) !in v.chain.holders && g < |v.chain.gens|
              && Abs() == v.(chain := Acquired(v.chain, Reader(id), g))
    {
      list := MarkAll(p);
      g := ScheduleFinalization(id);
    }

    /** The loop of `clear`: every entry yielded is removed. */
    method MarkAll(ghost p: nat) returns (ghost list: seq<nat>)
      requires Valid() && Proxy(p) !in holders
      modifies this, writer, writer.storage.table, writer.storage.bitmap
      ensures Valid() && curGen == old(curGen) && gens == old(gens) && holders == old(holders)
      ensures Ascending(list) && Elements(list) == old(Abs().slab.present) && Abs().slab.present == {}
      ensures curGen < |old(Abs()).pend| && Abs() == AllRemoved(old(Abs()), curGen, list)
    {
      ghost var before := Abs();
      HeldIsLive(before.chain, Owner);
      NoneRemoved(before, curGen);
      list := [];
      var entries := new RcuIterMut(this);
      var more := true;
      while more
        invariant fresh(entries) && fresh(entries.iter) && entries.slab == this && entries.Valid()
        invariant curGen == old(curGen) && Coherent(AllRemoved(before, curGen, list))
        invariant Abs() == AllRemoved(before, curGen, list)
        invariant UpTo(list, before.slab.present, entries.iter.head, entries.iter.tail)
        invariant !more ==> entries.remaining == 0
        decreases more, entries.remaining
      {
        more, list := entries.RemoveNext(before, list, p);
      }
      NothingAhead(list, before.slab.present, entries.iter.head, entries.iter.tail);
    }
  }

  /** `list` is, in order, what `present` has before `head`, with nothing from `tail` on. */
  ghost predicate UpTo(list: seq<nat>, present: set<nat>, head: nat, tail: nat) {
    && Ascending(list) && (forall i: nat :: i in list ==> i < head)
    && Elements(list) + Ahead(present, head, tail) == present
  }

  lemma NothingAhead(list: seq<nat>, present: set<nat>, head: nat, tail: nat)
    requires UpTo(list, present, head, tail) && |Ahead(present - Elements(list), head, tail)| == 0
    ensures Elements(list) == present && present - Elements(list) == {}
  {
    var left := present - Elements(list);
    assert Ahead(left, head, tail) == {};
    forall i | i in Ahead(present, head, tail)
      ensures i in Elements(list)
    {
      assert i in left ==> i in Ahead(left, head, tail);
    }
  }

  lemma OneMore(list: seq<nat>, present: set<nat>, head: nat, tail: nat, i: nat, head': nat)
    requires UpTo(list, present, head, tail) && head <= i < head'
    requires Ahead(present - Elements(list), head', tail) == Ahead(present - Elements(list), head, tail) - {i}
    requires i in present && i < tail
    ensures UpTo(list + [i], present, head', tail) && i !in list
    ensures present - Elements(list + [i]) == (present - Elements(list)) - {i}
  {
    var left := present - Elements(list);
    assert Ahead(left, head, tail) == Ahead(present, head, tail);
    assert Ahead(left, head', tail) == Ahead(present, head', tail);
    assert Elements(list + [i]) == Elements(list) + {i};
    forall a | 0 <= a < |list|
      ensures list[a] < i
    {
      assert list[a] in list;
    }
  }

  lemma SeenIsNow(memory: BitmapScan.Memory, bitmap: seq<Word>, size: nat, t0: nat, t1: nat)
    requires Unchanging(memory, bitmap) && size <= |bitmap| * BITS
    ensures forall i: nat, t: nat :: i < size ==> (Present(memory, t, i) <==> i in PresentIn(bitmap, size))
    ensures forall i: nat :: i < size && SeenClear(memory, i, t0, t1) ==> i !in PresentIn(bitmap, size)
  {
  }

  /** An unchanged bitmap's scanner yields the first slot ahead, if there is one. */
  lemma ForwardAhead(memory: BitmapScan.Memory, bitmap: seq<Word>, size: nat, c: Cursor, c': Cursor, r: Option<nat>)
    requires Unchanging(memory, bitmap) && c.tail <= size <= |bitmap| * BITS && Forward(memory, c, c', r)
    ensures var ahead := Ahead(PresentIn(bitmap, size), c.head, c.tail);
            match r
            case None => ahead == {}
            case Some(i) => i in ahead && Ahead(PresentIn(bitmap, size), c'.head, c'.tail) == ahead - {i}
  {
    SeenIsNow(memory, bitmap, size, c.now, c'.now);
  }

  lemma BackwardAhead(memory: BitmapScan.Memory, bitmap: seq<Word>, size: nat, c: Cursor, c': Cursor, r: Option<nat>)
    requires Unchanging(memory, bitmap) && c.tail <= size <= |bitmap| * BITS && Backward(memory, c, c', r)
    ensures var ahead := Ahead(PresentIn(bitmap, size), c.head, c.tail);
            match r
            case None => ahead == {}
            case Some(i) => i in ahead && Ahead(PresentIn(bitmap, size), c'.head, c'.tail) == ahead - {i}
  {
    SeenIsNow(memory, bitmap, size, c.now, c'.now);
  }

  /** Removable iteration, by the thread that borrows the slab. */
  class RcuIterMut<T> {
    const slab: RcuCslab<T>
    const iter: Iter
    var remaining: usize

    ghost predicate Scanning()
      reads iter, slab.writer, slab.writer.storage
    {
      iter.Valid() && iter.words == slab.writer.storage.bitmap.Length && iter.tail <= slab.writer.storage.size
    }

    ghost predicate Valid()
      reads this, iter, slab, slab.writer, slab.writer.storage, slab.writer.storage.table, slab.writer.storage.bitmap
    {
      && slab.Valid() && Scanning()
      && remaining == |Ahead(slab.Abs().slab.present, iter.head, iter.tail)|
    }

    constructor (slab: RcuCslab<T>)
      requires slab.Valid()
      ensures Valid() && this.slab == slab && fresh(iter)
      ensures remaining == |slab.Abs().slab.present|
      ensures Ahead(slab.Abs().slab.present, iter.head, iter.tail) == slab.Abs().slab.present
    {
      var scanner := slab.writer.storage.Scan();
      this.slab, iter := slab, scanner;
      remaining := slab.writer.inUse;
      new;
      assert Ahead(slab.Abs().slab.present, iter.head, iter.tail) == slab.Abs().slab.present;
    }

    method Next(ghost p: nat) returns (idx: Option<nat>)
      requires Valid() && Proxy(p) !in slab.holders
      modifies this`remaining, iter, slab`gens, slab`holders
      ensures Valid() && iter.tail == old(iter.tail)
      ensures idx.Some? <==> old(remaining) > 0
      ensures idx == None ==>
                && slab.Abs() == old(slab.Abs()) && remaining == 0
                && old(Ahead(slab.Abs().slab.present, iter.head, iter.tail)) == {}
                && old(iter.head) <= iter.head == iter.tail
      ensures idx.Some? ==>
                && old(iter.head) <= idx.value < iter.head && idx.value in slab.Abs().slab.present
                && remaining == old(remaining) - 1
                && Ahead(slab.Abs().slab.present, iter.head, iter.tail)
                   == old(Ahead(slab.Abs().slab.present, iter.head, iter.tail)) - {idx.value}
                && slab.Abs() == old(slab.Abs()).(chain := Acquired(old(slab.Abs()).chain, Proxy(p), slab.curGen))
    {
      ghost var bits, c := slab.writer.storage.bitmap[..], iter.At();
      iter.Follow(slab.writer.storage.bitmap[..]);
      idx := iter.Next();
      ForwardAhead(iter.memory, bits, slab.writer.storage.size, c, iter.At(), idx);
      if idx.Some? {
        Lend(p);
      }
    }

    /** A proxy for the entry just found. */
    method Lend(ghost p: nat)
      requires slab.Valid() && Scanning() && Proxy(p) !in slab.holders
      requires remaining == |Ahead(slab.Abs().slab.present, iter.head, iter.tail)| + 1
      modifies this`remaining, slab`gens, slab`holders
      ensures Valid() && remaining == old(remaining) - 1
      ensures slab.Abs() == old(slab.Abs()).(chain := Acquired(old(slab.Abs()).chain, Proxy(p), slab.curGen))
    {
      remaining := remaining - 1;
      HeldIsLive(slab.Abs().chain, Owner);
      slab.TakeRef(Proxy(p), slab.curGen);
    }

    method NextBack(ghost p: nat) returns (idx: Option<nat>)
      requires Valid() && Proxy(p) !in slab.holders
      modifies this`remaining, iter, slab`gens, slab`holders
      ensures Valid() && iter.head == old(iter.head)
      ensures idx.Some? <==> old(remaining) > 0
      ensures idx == None ==>
                && slab.Abs() == old(slab.Abs()) && remaining == 0
                && old(Ahead(slab.Abs().slab.present, iter.head, iter.tail)) == {}
                && iter.head == iter.tail <= old(iter.tail)
      ensures idx.Some? ==>
                && iter.tail <= idx.value < old(iter.tail) && idx.value in slab.Abs().slab.present
                && remaining == old(remaining) - 1
                && Ahead(slab.Abs().slab.present, iter.head, iter.tail)
                   == old(Ahead(slab.Abs().slab.present, iter.head, iter.tail)) - {idx.value}
                && slab.Abs() == old(slab.Abs()).(chain := Acquired(old(slab.Abs()).chain, Proxy(p), slab.curGen))
    {
      ghost var bits, c := slab.writer.storage.bitmap[..], iter.At();
      iter.Follow(slab.writer.storage.bitmap[..]);
      idx := iter.NextBack();
      BackwardAhead(iter.memory, bits, slab.writer.storage.size, c, iter.At(), idx);
      if idx.Some? {
        Lend(p);
      }
    }

    /** One turn of `clear`'s loop: `list` has been removed from `before` so far. */
    method RemoveNext(ghost before: Managed<T>, ghost list: seq<nat>, ghost p: nat)
      returns (more: bool, ghost list': seq<nat>)
      requires Valid() && Proxy(p) !in slab.holders
      requires Coherent(before) && slab.curGen < |before.pend| && before.chain.gens[slab.curGen].phase == Live
      requires Coherent(AllRemoved(before, slab.curGen, list)) && slab.Abs() == AllRemoved(before, slab.curGen, list)
      requires UpTo(list, before.slab.present, iter.head, iter.tail)
      modifies this`remaining, iter, slab, slab.writer, slab.writer.storage.table, slab.writer.storage.bitmap
      ensures Valid() && slab.curGen == old(slab.curGen)
      ensures Coherent(AllRemoved(before, slab.curGen, list')) && slab.Abs() == AllRemoved(before, slab.curGen, list')
      ensures UpTo(list', before.slab.present, iter.head, iter.tail)
      ensures if more then remaining == old(remaining) - 1 else remaining == 0
    {
      ghost var head := iter.head;
      var entry := Next(p);
      more, list' := entry.Some?, list;
      if more {
        OneMore(list, before.slab.present, head, iter.tail, entry.value, iter.head);
        list' := list + [entry.value];
        ghost var at, left := iter.At(), remaining;
        assert UpTo(list', before.slab.present, at.head, at.tail);
        RemoveFound(before, list, p, entry.value);
        assert iter.head == at.head && iter.tail == at.tail && remaining == left;
      } else {
        NoMore(list, before.slab.present, head, iter.head, iter.tail);
      }
    }

    method RemoveFound(ghost before: Managed<T>, ghost list: seq<nat>, ghost p: nat, i: nat)
      requires Valid() && Coherent(before) && Proxy(p) !in before.chain.holders
      requires slab.curGen < |before.pend| && before.chain.gens[slab.curGen].phase == Live
      requires Coherent(AllRemoved(before, slab.curGen, list)) && i in before.slab.present && i !in list
      requires slab.Abs()
               == AllRemoved(before, slab.curGen, list).(chain := Acquired(before.chain, Proxy(p), slab.curGen))
      requires i < iter.head
      requires before.slab.present - Elements(list + [i]) == (before.slab.present - Elements(list)) - {i}
      modifies slab, slab.writer, slab.writer.storage.table, slab.writer.storage.bitmap
      ensures Valid() && slab.curGen == old(slab.curGen)
      ensures iter.head == old(iter.head) && iter.tail == old(iter.tail) && remaining == old(remaining)
      ensures Coherent(AllRemoved(before, slab.curGen, list + [i]))
      ensures slab.Abs() == AllRemoved(before, slab.curGen, list + [i])
    {
      ghost var present, at, left := slab.Abs().slab.present, iter.At(), remaining;
      AheadWithout(present, i, at.head, at.tail);
      slab.RemoveYielded(before, list, p, i);
      assert slab.Abs().slab.present == present - {i};
      assert iter.At() == at && remaining == left && iter.Valid();
    }
  }

  lemma NoMore(list: seq<nat>, present: set<nat>, head: nat, head': nat, tail: nat)
    requires UpTo(list, present, head, tail) && Ahead(present - Elements(list), head, tail) == {}
    requires head <= head' == tail
    ensures UpTo(list, present, head', tail)
  {
    assert Ahead(present - Elements(list), head, tail) == Ahead(present, head, tail);
  }

  lemma AheadWithout(present: set<nat>, i: nat, head: nat, tail: nat)
    requires !(head <= i < tail)
    ensures Ahead(present - {i}, head, tail) == Ahead(present, head, tail)
  {
  }
}
