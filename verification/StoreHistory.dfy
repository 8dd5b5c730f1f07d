/** Weak memory for one slab: every location has a history of stores, a view says how
    far into each history a thread has seen, a release store carries its thread's
    view, and an acquire load joins the view it finds. */
module StoreHistory {
  import opened Words
  import opened SlabSpec

  /** For each location, the index of the latest store known about. */
  datatype View = View(word: seq<nat>, slot: seq<nat>, front: nat)

  /** A store to a bitmap word, and the view it releases. */
  datatype WordStore = WordStore(val: Word, view: View)

  /** A write to a slot: an item (named by its insertion number), or a free-list link. */
  datatype SlotStore = Freed | Put(item: nat)

  datatype Memory = Memory(words: seq<seq<WordStore>>, slots: seq<seq<SlotStore>>, fronts: seq<nat>)

  ghost predicate Shape(m: Memory) {
    && |m.words| == WordCount(|m.slots|)
    && (forall w :: 0 <= w < |m.words| ==> m.words[w] != [])
    && (forall i :: 0 <= i < |m.slots| ==> m.slots[i] != [])
    && m.fronts != []
  }

  ghost predicate InRange(m: Memory, v: View) {
    && |v.word| == |m.words| && |v.slot| == |m.slots| && v.front < |m.fronts|
    && (forall w :: 0 <= w < |v.word| ==> v.word[w] < |m.words[w]|)
    && (forall i :: 0 <= i < |v.slot| ==> v.slot[i] < |m.slots[i]|)
  }

  /** The view of a thread that has seen everything. */
  ghost function Top(m: Memory): View
    requires Shape(m)
  {
    View(seq(|m.words|, w requires 0 <= w < |m.words| => |m.words[w]| - 1),
         seq(|m.slots|, i requires 0 <= i < |m.slots| => |m.slots[i]| - 1),
         |m.fronts| - 1)
  }

  function Max(a: nat, b: nat): nat { if a < b then b else a }

  ghost function Join(a: View, b: View): View
    requires |a.word| == |b.word| && |a.slot| == |b.slot|
  {
    View(seq(|a.word|, w requires 0 <= w < |a.word| => Max(a.word[w], b.word[w])),
         seq(|a.slot|, i requires 0 <= i < |a.slot| => Max(a.slot[i], b.slot[i])),
         Max(a.front, b.front))
  }

  ghost predicate Below(a: View, b: View) {
    && |a.word| == |b.word| && |a.slot| == |b.slot| && a.front <= b.front
    && (forall w :: 0 <= w < |a.word| ==> a.word[w] <= b.word[w])
    && (forall i :: 0 <= i < |a.slot| ==> a.slot[i] <= b.slot[i])
  }

  // Loads.

  /** An acquire load of word `w` that reads its k-th store. */
  ghost function Acquire(m: Memory, v: View, w: nat, k: nat): View
    requires InRange(m, v) && w < |m.words| && k < |m.words[w]| && InRange(m, m.words[w][k].view)
  {
    Join(v.(word := v.word[w := Max(v.word[w], k)]), m.words[w][k].view)
  }

  /** What a plain load of slot `i` returns to a thread with view `v`. */
  ghost function ReadSlot(m: Memory, v: View, i: nat): SlotStore
    requires InRange(m, v) && i < |m.slots|
  {
    m.slots[i][v.slot[i]]
  }

  // Stores, by a thread with view `v`.

  datatype Acting = Acting(m: Memory, v: View)

  ghost predicate Able(a: Acting) { Shape(a.m) && InRange(a.m, a.v) }

  ghost function StoreSlot(a: Acting, i: nat, s: SlotStore): Acting
    requires Able(a) && i < |a.m.slots|
  {
    Acting(a.m.(slots := a.m.slots[i := a.m.slots[i] + [s]]), a.v.(slot := a.v.slot[i := |a.m.slots[i]|]))
  }

  ghost function StoreFront(a: Acting, f: nat): Acting
    requires Able(a)
  {
    Acting(a.m.(fronts := a.m.fronts + [f]), a.v.(front := |a.m.fronts|))
  }

  /** A release store: it carries the storing thread's view, itself included. */
  ghost function StoreWord(a: Acting, w: nat, val: Word): Acting
    requires Able(a) && w < |a.m.words|
  {
    var v := a.v.(word := a.v.word[w := |a.m.words[w]|]);
    Acting(a.m.(words := a.m.words[w := a.m.words[w] + [WordStore(val, v)]]), v)
  }

  /** A relaxed store would carry only itself. */
  ghost function StoreWordRelaxed(a: Acting, w: nat, val: Word): Acting
    requires Able(a) && w < |a.m.words|
  {
    var alone := View(seq(|a.m.words|, _ => 0), seq(|a.m.slots|, _ => 0), 0);
    var v := a.v.(word := a.v.word[w := |a.m.words[w]|]);
    Acting(a.m.(words := a.m.words[w := a.m.words[w]
                          + [WordStore(val, alone.(word := alone.word[w := |a.m.words[w]|]))]]), v)
  }

  /** The value of slot `i`'s word that the thread reads back. */
  ghost function Mask(a: Acting, i: nat): Word
    requires Able(a) && WordOf(i) < |a.m.words|
  {
    a.m.words[WordOf(i)][a.v.word[WordOf(i)]].val
  }

  /** Insertion: the item, then the frontier, then the flag. */
  ghost function InsertStores(a: Acting, i: nat, item: nat): Acting
    requires Able(a) && i < |a.m.slots|
  {
    var a1 := StoreSlot(a, i, Put(item));
    var a2 := if i >= a1.m.fronts[a1.v.front] then StoreFront(a1, i + 1) else a1;
    StoreWord(a2, WordOf(i), Mask(a2, i)[BitOf(i) := true])
  }

  /** Marking: the flag alone. */
  ghost function MarkStores(a: Acting, i: nat): Acting
    requires Able(a) && i < |a.m.slots|
  {
    StoreWord(a, WordOf(i), Mask(a, i)[BitOf(i) := false])
  }

  /** Finalizing a list of slots: a free-list link into each. */
  ghost function FreeStores(a: Acting, list: seq<nat>): (a': Acting)
    requires Able(a) && forall i: nat :: i in list ==> i < |a.m.slots|
    ensures Able(a') && a'.m.words == a.m.words && a'.m.fronts == a.m.fronts && |a'.m.slots| == |a.m.slots|
    decreases |list|
  {
    if list == [] then a
    else
      assert list[0] in list && forall i: nat :: i in list[1..] ==> i in list;
      FreeStores(StoreSlot(a, list[0], Freed), list[1..])
  }

  // What bitmap histories show.

  /** The k-th store to slot `i`'s word has its bit set. */
  ghost predicate Shows(m: Memory, k: nat, i: nat) {
    WordOf(i) < |m.words| && k < |m.words[WordOf(i)]| && m.words[WordOf(i)][k].val[BitOf(i)]
  }

  ghost function Latest(m: Memory, i: nat): nat
    requires Shape(m) && WordOf(i) < |m.words|
  {
    |m.words[WordOf(i)]| - 1
  }

  /** Which store to slot `i` the k-th store to its word makes visible. */
  ghost function Published(m: Memory, k: nat, i: nat): nat
    requires Shape(m) && i < |m.slots| && k < |m.words[WordOf(i)]|
    requires InRange(m, m.words[WordOf(i)][k].view)
  {
    m.words[WordOf(i)][k].view.slot[i]
  }

  /** A thread with view `v` can no longer load slot `i`'s bit set. */
  ghost predicate Covered(m: Memory, v: View, i: nat)
    requires InRange(m, v) && WordOf(i) < |m.words|
  {
    forall k: nat :: v.word[WordOf(i)] <= k < |m.words[WordOf(i)]| ==> !Shows(m, k, i)
  }

  ghost predicate StoresInRange(m: Memory) {
    forall w, k :: 0 <= w < |m.words| && 0 <= k < |m.words[w]| ==> InRange(m, m.words[w][k].view)
  }

  /** If such a thread loads the bit set, the load brings it up to date on the slot. */
  ghost predicate Sound(m: Memory, v: View, i: nat)
    requires Shape(m) && StoresInRange(m) && InRange(m, v) && i < |m.slots|
  {
    forall k: nat :: v.word[WordOf(i)] <= k < |m.words[WordOf(i)]| && Shows(m, k, i) ==>
      Published(m, k, i) == |m.slots[i]| - 1
  }

  ghost function LastOf<A>(s: seq<A>): A
    requires s != []
  {
    s[|s| - 1]
  }

  /** Slot `i`'s bit is set in the last store to its word. */
  ghost predicate SetNow(m: Memory, i: nat)
    requires Shape(m) && WordOf(i) < |m.words|
  {
    Shows(m, Latest(m, i), i)
  }

  ghost predicate FlagsMatch(m: Memory, s: Slab<nat>)
    requires Shape(m)
  {
    forall i: nat :: i < |m.slots| ==> (SetNow(m, i) <==> i in s.present)
  }

  ghost predicate SlotsMatch(m: Memory, s: Slab<nat>)
    requires Shape(m)
  {
    forall i: nat {:trigger m.slots[i]} :: i < |m.slots| ==>
      LastOf(m.slots[i]) == if i in s.items then Put(s.items[i]) else Freed
  }

  ghost predicate NeverFalls(fronts: seq<nat>) {
    forall a, b :: 0 <= a <= b < |fronts| ==> fronts[a] <= fronts[b]
  }

  /** A flag set now releases the slot's last store. */
  ghost predicate FlagsPublish(m: Memory)
    requires Shape(m) && StoresInRange(m)
  {
    forall i: nat :: i < |m.slots| && SetNow(m, i) ==> Published(m, Latest(m, i), i) == |m.slots[i]| - 1
  }

  /** A flag ever set releases a frontier beyond its slot. */
  ghost predicate FlagsBelowFront(m: Memory)
    requires Shape(m) && StoresInRange(m)
  {
    forall i: nat, k: nat {:trigger Shows(m, k, i)} :: i < |m.slots| && Shows(m, k, i) ==>
      i < m.fronts[m.words[WordOf(i)][k].view.front]
  }

  /** The histories end in what the slab holds, and every store kept its promises. */
  ghost predicate Mirrors(m: Memory, s: Slab<nat>) {
    && Shape(m) && StoresInRange(m) && s.capacity == |m.slots|
    && FlagsMatch(m, s) && SlotsMatch(m, s)
    && LastOf(m.fronts) == s.frontier && NeverFalls(m.fronts)
    && FlagsPublish(m) && FlagsBelowFront(m)
  }

  // Views.

  lemma JoinIsUpper(m: Memory, a: View, b: View)
    requires InRange(m, a) && InRange(m, b)
    ensures InRange(m, Join(a, b)) && Below(a, Join(a, b)) && Below(b, Join(a, b))
  {
  }

  lemma JoinWithTop(m: Memory, v: View)
    requires Shape(m) && InRange(m, v)
    ensures InRange(m, Top(m)) && Join(v, Top(m)) == Top(m) && Join(Top(m), v) == Top(m)
    ensures Below(v, Top(m))
  {
  }

  lemma AcquireKeepsRange(m: Memory, v: View, w: nat, k: nat)
    requires InRange(m, v) && w < |m.words| && k < |m.words[w]| && InRange(m, m.words[w][k].view)
    ensures InRange(m, Acquire(m, v, w, k)) && Below(v, Acquire(m, v, w, k))
    ensures Below(m.words[w][k].view, Acquire(m, v, w, k))
  {
  }

  /** What an acquire load of a set bit gives a thread whose view is sound: the very
      store the slot holds now, and a frontier beyond the slot from then on. */
  lemma LoadIsSound(m: Memory, s: Slab<nat>, v: View, i: nat, k: nat)
    requires Mirrors(m, s) && InRange(m, v) && i < |m.slots|
    requires v.word[WordOf(i)] <= k && Shows(m, k, i)
    requires Sound(m, v, i) && i in s.items
    ensures var v' := Acquire(m, v, WordOf(i), k);
            && InRange(m, v') && v'.slot[i] == |m.slots[i]| - 1 && ReadSlot(m, v', i) == Put(s.items[i])
            && forall t :: v'.front <= t < |m.fronts| ==> i < m.fronts[t]
  {
    AcquireKeepsRange(m, v, WordOf(i), k);
    var v' := Acquire(m, v, WordOf(i), k);
    assert m.words[WordOf(i)][k].view.slot[i] <= v'.slot[i];
    assert i < m.fronts[m.words[WordOf(i)][k].view.front];
  }
}
