/** What the writer's critical sections do to the histories, and to what a reader
    with an older view can still load. */
module StoreEffects {
  import opened Words
  import opened SlabSpec
  import opened StoreHistory

  /** A thread that has seen everything still has after it stores. */
  lemma StoringKeepsTop(a: Acting, i: nat, s: SlotStore, f: nat, w: nat, val: Word)
    requires Able(a) && a.v == Top(a.m)
    ensures i < |a.m.slots| ==> Able(StoreSlot(a, i, s)) && StoreSlot(a, i, s).v == Top(StoreSlot(a, i, s).m)
    ensures Able(StoreFront(a, f)) && StoreFront(a, f).v == Top(StoreFront(a, f).m)
    ensures w < |a.m.words| ==> Able(StoreWord(a, w, val)) && StoreWord(a, w, val).v == Top(StoreWord(a, w, val).m)
  {
  }

  /** The histories after one more word store that releases view `v`. */
  ghost predicate WordAppended(m: Memory, m': Memory, i: nat, value: bool, v: View)
    requires Shape(m) && i < |m.slots|
  {
    && |m'.words| == |m.words|
    && m'.words == m.words[WordOf(i) := m.words[WordOf(i)]
                     + [WordStore(LastOf(m.words[WordOf(i)]).val[BitOf(i) := value], v)]]
  }

  /** Insertion by a thread that holds the lock, hence has seen everything. */
  lemma InsertShape(a: Acting, i: nat, item: nat)
    requires Able(a) && a.v == Top(a.m) && i < |a.m.slots|
    ensures var a' := InsertStores(a, i, item);
            && Able(a') && a'.v == Top(a'.m)
            && WordAppended(a.m, a'.m, i, true, a'.v)
            && a'.m.slots == a.m.slots[i := a.m.slots[i] + [Put(item)]]
            && a'.m.fronts == a.m.fronts + if i >= LastOf(a.m.fronts) then [i + 1] else []
  {
    var a1 := StoreSlot(a, i, Put(item));
    StoringKeepsTop(a, i, Put(item), 0, 0, ZERO);
    StoringKeepsTop(a1, i, Freed, i + 1, 0, ZERO);
    var a2 := if i >= a1.m.fronts[a1.v.front] then StoreFront(a1, i + 1) else a1;
    StoringKeepsTop(a2, i, Freed, 0, WordOf(i), Mask(a2, i)[BitOf(i) := true]);
  }

  lemma MarkShape(a: Acting, i: nat)
    requires Able(a) && a.v == Top(a.m) && i < |a.m.slots|
    ensures var a' := MarkStores(a, i);
            && Able(a') && a'.v == Top(a'.m)
            && WordAppended(a.m, a'.m, i, false, a'.v)
            && a'.m.slots == a.m.slots && a'.m.fronts == a.m.fronts
  {
    StoringKeepsTop(a, i, Freed, 0, WordOf(i), Mask(a, i)[BitOf(i) := false]);
  }

  lemma {:induction false} FreeShape(a: Acting, list: seq<nat>)
    requires Able(a) && a.v == Top(a.m) && NoDuplicates(list)
    requires forall i: nat :: i in list ==> i < |a.m.slots|
    ensures var a' := FreeStores(a, list);
            && a'.v == Top(a'.m)
            && forall i: nat :: i < |a.m.slots| ==>
                 a'.m.slots[i] == a.m.slots[i] + if i in list then [Freed] else []
    decreases |list|
  {
    if list != [] {
      assert list[0] in list && forall i: nat :: i in list[1..] ==> i in list;
      var a1 := StoreSlot(a, list[0], Freed);
      StoringKeepsTop(a, list[0], Freed, 0, 0, ZERO);
      FreeShape(a1, list[1..]);
      assert forall i: nat :: i in list <==> i == list[0] || i in list[1..];
      assert list[0] !in list[1..];
    }
  }

  /** One critical section that ended in a release store to slot `i`'s word. */
  ghost predicate Extends(m: Memory, m': Memory, i: nat, value: bool) {
    && Shape(m) && StoresInRange(m) && i < |m.slots|
    && Shape(m') && WordAppended(m, m', i, value, Top(m'))
    && |m'.slots| == |m.slots| && |m.fronts| <= |m'.fronts|
    && forall j :: 0 <= j < |m.slots| ==> |m.slots[j]| <= |m'.slots[j]|
  }

  /** The new store shows what the last one did, except for slot `i`. */
  lemma ShowsAfter(m: Memory, m': Memory, i: nat, value: bool, j: nat, k: nat)
    requires Extends(m, m', i, value) && WordOf(j) < |m.words| && k < |m'.words[WordOf(j)]|
    ensures Shows(m', k, j) ==
            if WordOf(j) != WordOf(i) || k < |m.words[WordOf(i)]| then Shows(m, k, j)
            else if j == i then value else Shows(m, Latest(m, j), j)
  {
    if WordOf(j) == WordOf(i) && j != i {
      assert BitOf(j) != BitOf(i);
    }
  }

  lemma StoresStayInRange(m: Memory, m': Memory, i: nat, value: bool)
    requires Extends(m, m', i, value)
    ensures StoresInRange(m') && forall u :: InRange(m, u) ==> InRange(m', u)
  {
    forall w, k | 0 <= w < |m'.words| && 0 <= k < |m'.words[w]|
      ensures InRange(m', m'.words[w][k].view)
    {
      if k < |m.words[w]| {
        assert InRange(m, m.words[w][k].view);
      }
    }
  }

  /** What a reader could not load set, it still cannot, unless that bit was just set. */
  lemma CoveredThrough(m: Memory, m': Memory, i: nat, value: bool, u: View, j: nat)
    requires Extends(m, m', i, value) && InRange(m, u) && InRange(m', u)
    requires WordOf(j) < |m.words| && Covered(m, u, j) && (j == i ==> !value)
    ensures Covered(m', u, j)
  {
    assert !Shows(m, Latest(m, j), j);
    forall k: nat | u.word[WordOf(j)] <= k < |m'.words[WordOf(j)]|
      ensures !Shows(m', k, j)
    {
      ShowsAfter(m, m', i, value, j, k);
    }
  }

  /** Soundness survives where the slot was not written, and holds anew where the
      reader could not have loaded the bit set before. */
  lemma SoundThrough(m: Memory, m': Memory, i: nat, value: bool, u: View, j: nat)
    requires Extends(m, m', i, value) && StoresInRange(m') && InRange(m, u) && InRange(m', u) && j < |m.slots|
    requires (|m'.slots[j]| == |m.slots[j]| && Sound(m, u, j)) || Covered(m, u, j)
    ensures Sound(m', u, j)
  {
    forall k: nat | u.word[WordOf(j)] <= k < |m'.words[WordOf(j)]| && Shows(m', k, j)
      ensures Published(m', k, j) == |m'.slots[j]| - 1
    {
      ShowsAfter(m, m', i, value, j, k);
    }
  }

  lemma InsertExtends(a: Acting, s: Slab<nat>, i: nat, item: nat)
    requires Able(a) && a.v == Top(a.m) && Mirrors(a.m, s) && i < |a.m.slots|
    ensures Extends(a.m, InsertStores(a, i, item).m, i, true)
  {
    InsertShape(a, i, item);
  }

  lemma MarkExtends(a: Acting, s: Slab<nat>, i: nat)
    requires Able(a) && a.v == Top(a.m) && Mirrors(a.m, s) && i < |a.m.slots|
    ensures Extends(a.m, MarkStores(a, i).m, i, false)
  {
    MarkShape(a, i);
  }

  lemma FlagsThrough(m: Memory, m': Memory, i: nat, value: bool, s: Slab<nat>, s': Slab<nat>)
    requires Extends(m, m', i, value) && FlagsMatch(m, s)
    requires s'.present == if value then s.present + {i} else s.present - {i}
    ensures FlagsMatch(m', s')
  {
    forall j: nat | j < |m'.slots|
      ensures SetNow(m', j) <==> j in s'.present
    {
      ShowsAfter(m, m', i, value, j, Latest(m', j));
      assert SetNow(m, j) <==> j in s.present;
    }
  }

  lemma PublishThrough(m: Memory, m': Memory, i: nat, value: bool)
    requires Extends(m, m', i, value) && StoresInRange(m') && FlagsPublish(m)
    requires forall j :: 0 <= j < |m.slots| && j != i ==> m'.slots[j] == m.slots[j]
    ensures FlagsPublish(m')
  {
    forall j: nat | j < |m'.slots| && SetNow(m', j)
      ensures Published(m', Latest(m', j), j) == |m'.slots[j]| - 1
    {
      ShowsAfter(m, m', i, value, j, Latest(m', j));
      if WordOf(j) != WordOf(i) {
        assert SetNow(m, j);
      }
    }
  }

  lemma FrontThrough(m: Memory, m': Memory, i: nat, value: bool)
    requires Extends(m, m', i, value) && StoresInRange(m') && FlagsBelowFront(m)
    requires m.fronts <= m'.fronts && NeverFalls(m'.fronts) && (value ==> i < LastOf(m'.fronts))
    ensures FlagsBelowFront(m')
  {
    forall j: nat, k: nat | j < |m'.slots| && Shows(m', k, j)
      ensures j < m'.fronts[m'.words[WordOf(j)][k].view.front]
    {
      ShowsAfter(m, m', i, value, j, k);
      if WordOf(j) == WordOf(i) && k == |m.words[WordOf(i)]| && j != i {
        assert Shows(m, Latest(m, j), j);
        var seen := m.words[WordOf(j)][Latest(m, j)].view.front;
        assert m.fronts[seen] == m'.fronts[seen] <= LastOf(m'.fronts);
      }
    }
  }

  /** Insertion keeps the histories in step with the slab. */
  lemma InsertMirrors(a: Acting, s: Slab<nat>, item: nat)
    requires Able(a) && a.v == Top(a.m) && Mirrors(a.m, s) && WellFormed(s) && s.free != []
    ensures s.free[0] < |a.m.slots|
    ensures Mirrors(InsertStores(a, s.free[0], item).m, Inserted(s, item))
  {
    var i := s.free[0];
    assert i in s.free;
    InsertShape(a, i, item);
    InsertExtends(a, s, i, item);
    var m, m', s' := a.m, InsertStores(a, i, item).m, Inserted(s, item);
    StoresStayInRange(m, m', i, true);
    FlagsThrough(m, m', i, true, s, s');
    PublishThrough(m, m', i, true);
    FrontThrough(m, m', i, true);
    InsertedSlotsMatch(m, m', s, item);
  }

  lemma InsertedSlotsMatch(m: Memory, m': Memory, s: Slab<nat>, item: nat)
    requires Shape(m) && Shape(m') && WellFormed(s) && s.free != [] && s.free[0] < |m.slots| && SlotsMatch(m, s)
    requires m'.slots == m.slots[s.free[0] := m.slots[s.free[0]] + [Put(item)]]
    ensures SlotsMatch(m', Inserted(s, item))
  {
  }

  lemma MarkMirrors(a: Acting, s: Slab<nat>, i: nat)
    requires Able(a) && a.v == Top(a.m) && Mirrors(a.m, s) && WellFormed(s) && i < |a.m.slots|
    ensures Mirrors(MarkStores(a, i).m, Marked(s, i))
  {
    MarkShape(a, i);
    MarkExtends(a, s, i);
    var m, m', s' := a.m, MarkStores(a, i).m, Marked(s, i);
    StoresStayInRange(m, m', i, false);
    FlagsThrough(m, m', i, false, s, s');
    PublishThrough(m, m', i, false);
    FrontThrough(m, m', i, false);
  }

  /** Only slots change between `m` and `m'`, each by growing. */
  ghost predicate SlotsGrow(m: Memory, m': Memory) {
    && Shape(m) && Shape(m') && m'.words == m.words && m'.fronts == m.fronts && |m'.slots| == |m.slots|
    && forall i :: 0 <= i < |m.slots| ==> |m.slots[i]| <= |m'.slots[i]|
  }

  lemma GrowingStaysInRange(m: Memory, m': Memory)
    requires SlotsGrow(m, m') && StoresInRange(m)
    ensures StoresInRange(m') && forall u :: InRange(m, u) ==> InRange(m', u)
  {
    forall w, k | 0 <= w < |m'.words| && 0 <= k < |m'.words[w]|
      ensures InRange(m', m'.words[w][k].view)
    {
      assert InRange(m, m.words[w][k].view);
    }
  }

  lemma GrowingKeepsFlags(m: Memory, m': Memory, s: Slab<nat>, s': Slab<nat>)
    requires SlotsGrow(m, m') && StoresInRange(m) && StoresInRange(m')
    requires FlagsMatch(m, s) && FlagsPublish(m) && FlagsBelowFront(m) && s'.present == s.present
    requires forall i: nat :: i < |m.slots| && i in s.present ==> m'.slots[i] == m.slots[i]
    ensures FlagsMatch(m', s') && FlagsPublish(m') && FlagsBelowFront(m')
  {
    forall i: nat | i < |m'.slots|
      ensures SetNow(m', i) <==> i in s'.present
      ensures SetNow(m', i) ==> Published(m', Latest(m', i), i) == |m'.slots[i]| - 1
    {
      assert SetNow(m', i) == SetNow(m, i);
    }
    forall j: nat, k: nat | j < |m'.slots| && Shows(m', k, j)
      ensures j < m'.fronts[m'.words[WordOf(j)][k].view.front]
    {
      assert Shows(m, k, j);
    }
  }

  /** Finalizing writes slots only. */
  lemma FreeKeeps(a: Acting, s: Slab<nat>, list: seq<nat>)
    requires Able(a) && a.v == Top(a.m) && Mirrors(a.m, s) && WellFormed(s)
    requires NoDuplicates(list) && forall i: nat :: i in list ==> i in Pending(s)
    ensures forall i: nat :: i in list ==> i < |a.m.slots|
    ensures var a' := FreeStores(a, list);
            && a'.v == Top(a'.m) && Mirrors(a'.m, FinalizedAll(s, list))
            && SlotsGrow(a.m, a'.m)
  {
    FreeShape(a, list);
    var m, m', s' := a.m, FreeStores(a, list).m, FinalizedAll(s, list);
    GrowingStaysInRange(m, m');
    GrowingKeepsFlags(m, m', s, s');
    SlotsAfterFree(m, m', s, s', list);
  }

  lemma SlotsAfterFree(m: Memory, m': Memory, s: Slab<nat>, s': Slab<nat>, list: seq<nat>)
    requires Shape(m) && Shape(m') && SlotsMatch(m, s) && |m'.slots| == |m.slots|
    requires s'.items == s.items - Elements(list)
    requires forall i: nat :: i < |m.slots| ==> m'.slots[i] == m.slots[i] + if i in list then [Freed] else []
    ensures SlotsMatch(m', s')
  {
    forall i: nat | i < |m'.slots|
      ensures LastOf(m'.slots[i]) == if i in s'.items then Put(s'.items[i]) else Freed
    {
      assert i in Elements(list) <==> i in list;
      assert LastOf(m.slots[i]) == if i in s.items then Put(s.items[i]) else Freed;
    }
  }

  /** A reader that could not load the freed slots set stays sound everywhere. */
  lemma GrowingForReader(m: Memory, m': Memory, u: View, j: nat)
    requires SlotsGrow(m, m') && StoresInRange(m) && StoresInRange(m')
    requires InRange(m, u) && InRange(m', u) && j < |m.slots|
    ensures Covered(m, u, j) ==> Covered(m', u, j)
    ensures (Sound(m, u, j) && m'.slots[j] == m.slots[j]) || Covered(m, u, j) ==> Sound(m', u, j)
  {
    assert forall k: nat :: Shows(m', k, j) == Shows(m, k, j);
  }

  // Why clearing a flag must be a release store.

  /** Slot `j`'s flag is cleared while slot `i`, in the same word, holds an item. A
      reader that loads the clearing store still sees `i` set. If the store was a
      release, the reader now sees the item; if it was relaxed, the load has taught it
      nothing about the slot. */
  lemma ClearingMustRelease(a: Acting, s: Slab<nat>, u: View, i: nat, j: nat)
    requires Able(a) && a.v == Top(a.m) && Mirrors(a.m, s) && WellFormed(s) && InRange(a.m, u)
    requires i in s.present && j < |a.m.slots| && i != j && WordOf(i) == WordOf(j)
    ensures i < |a.m.slots|
    ensures
      var w, k := WordOf(j), |a.m.words[WordOf(j)]|;
      var cleared := Mask(a, j)[BitOf(j) := false];
      var released, relaxed := StoreWord(a, w, cleared).m, StoreWordRelaxed(a, w, cleared).m;
      && Shape(released) && InRange(released, u) && StoresInRange(released)
      && Shape(relaxed) && InRange(relaxed, u) && StoresInRange(relaxed)
      && Shows(released, k, i) && Shows(relaxed, k, i)
      && ReadSlot(released, Acquire(released, u, w, k), i) == Put(s.items[i])
      && ReadSlot(relaxed, Acquire(relaxed, u, w, k), i) == ReadSlot(a.m, u, i)
  {
    var cleared := Mask(a, j)[BitOf(j) := false];
    MarkExtends(a, s, j);
    StoresStayInRange(a.m, MarkStores(a, j).m, j, false);
    assert SetNow(a.m, i) && BitOf(i) != BitOf(j);
    RelaxedStaysInRange(a, WordOf(j), cleared);
  }

  lemma RelaxedStaysInRange(a: Acting, w: nat, val: Word)
    requires Able(a) && StoresInRange(a.m) && w < |a.m.words|
    ensures var m' := StoreWordRelaxed(a, w, val).m;
            Shape(m') && StoresInRange(m') && forall u :: InRange(a.m, u) ==> InRange(m', u)
  {
    var m' := StoreWordRelaxed(a, w, val).m;
    forall x, k | 0 <= x < |m'.words| && 0 <= k < |m'.words[x]|
      ensures InRange(m', m'.words[x][k].view)
    {
      if k < |a.m.words[x]| {
        assert InRange(a.m, a.m.words[x][k].view);
      }
    }
  }
}
