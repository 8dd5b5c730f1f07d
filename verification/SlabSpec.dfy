/** A slab as a value: which slots hold items, which of those are still present
    (the others are marked for removal), and the free slots in the order they will
    be handed out. */
module SlabSpec {
  datatype Slab<T> = Slab(
    capacity: nat,
    items: map<nat, T>,
    present: set<nat>,
    free: seq<nat>,
    frontier: nat)

  ghost predicate NoDuplicates<A>(s: seq<A>) {
    forall a, b :: 0 <= a < b < |s| ==> s[a] != s[b]
  }

  ghost predicate WellFormed<T>(s: Slab<T>) {
    && s.present <= s.items.Keys
    && (forall i: nat :: i in s.items ==> i < s.capacity)
    && (forall i: nat :: i in s.present ==> i < s.frontier)
    && s.frontier <= s.capacity
    && NoDuplicates(s.free)
    && (forall i: nat :: i in s.free <==> i < s.capacity && i !in s.items)
  }

  ghost function Pending<T>(s: Slab<T>): set<nat> { s.items.Keys - s.present }

  ghost function Range(lo: nat, hi: nat): (r: seq<nat>)
    ensures lo <= hi ==> |r| == hi - lo
    ensures forall k :: 0 <= k < |r| ==> r[k] == lo + k
    ensures forall i: nat :: i in r <==> lo <= i < hi
    decreases hi - lo
  {
    if lo >= hi then [] else [lo] + Range(lo + 1, hi)
  }

  ghost function Fresh<T>(capacity: nat): (s: Slab<T>)
    ensures WellFormed(s)
  {
    Slab(capacity, map[], {}, Range(0, capacity), 0)
  }

  ghost function Inserted<T>(s: Slab<T>, x: T): (s': Slab<T>)
    requires WellFormed(s) && s.free != []
    ensures WellFormed(s')
  {
    var i := s.free[0];
    assert i in s.free;
    assert forall j: nat :: j in s.free <==> j == i || j in s.free[1..];
    s.(items := s.items[i := x], present := s.present + {i}, free := s.free[1..],
       frontier := if i >= s.frontier then i + 1 else s.frontier)
  }

  ghost function Marked<T>(s: Slab<T>, i: nat): (s': Slab<T>)
    requires WellFormed(s)
    ensures WellFormed(s')
  {
    s.(present := s.present - {i})
  }

  ghost function Finalized<T>(s: Slab<T>, i: nat): (s': Slab<T>)
    requires WellFormed(s) && i in Pending(s)
    ensures WellFormed(s')
  {
    s.(items := s.items - {i}, free := [i] + s.free)
  }

  lemma RestIsPending<T>(s: Slab<T>, list: seq<nat>)
    requires WellFormed(s) && NoDuplicates(list) && list != []
    requires forall i: nat :: i in list ==> i in Pending(s)
    ensures forall i: nat :: i in list[1..] ==> i in Pending(Finalized(s, list[0]))
  {
    forall i: nat | i in list[1..]
      ensures i in Pending(Finalized(s, list[0]))
    {
      var k :| 0 <= k < |list[1..]| && list[1..][k] == i;
      assert list[k + 1] in list && list[0] in list;
      assert list[0] != list[k + 1];
      assert i in Pending(s);
    }
  }

  /** Finalize a list of slots in order. */
  ghost function FinalizedAll<T>(s: Slab<T>, list: seq<nat>): (s': Slab<T>)
    requires WellFormed(s) && NoDuplicates(list) && forall i: nat :: i in list ==> i in Pending(s)
    ensures WellFormed(s')
    ensures s'.capacity == s.capacity && s'.present == s.present && s'.frontier == s.frontier
    ensures s'.items == s.items - Elements(list)
    decreases |list|
  {
    if list == [] then s
    else
      RestIsPending(s, list);
      assert Elements(list) == {list[0]} + Elements(list[1..]);
      FinalizedAll(Finalized(s, list[0]), list[1..])
  }

  /** A list of slots that can be finalized in order. */
  ghost predicate Clean<T>(slab: Slab<T>, list: seq<nat>) {
    && WellFormed(slab) && NoDuplicates(list)
    && (forall i: nat :: i in list ==> i in Pending(slab))
    && (forall n :: 0 <= n < |list| ==> list[n] in slab.items)
  }

  /** The items in a list of slots, in order. */
  ghost function ItemsAt<T>(items: map<nat, T>, list: seq<nat>): seq<T>
    requires forall n :: 0 <= n < |list| ==> list[n] in items
  {
    seq(|list|, n requires 0 <= n < |list| => items[list[n]])
  }

  lemma FinalizeFirst<T>(slab: Slab<T>, list: seq<nat>)
    requires Clean(slab, list) && list != []
    ensures list[0] in Pending(slab) && Clean(Finalized(slab, list[0]), list[1..])
    ensures FinalizedAll(slab, list) == FinalizedAll(Finalized(slab, list[0]), list[1..])
    ensures ItemsAt(slab.items, list)
            == [slab.items[list[0]]] + ItemsAt(Finalized(slab, list[0]).items, list[1..])
  {
    RestIsPending(slab, list);
    var rest := Finalized(slab, list[0]);
    forall n | 0 <= n < |list[1..]|
      ensures list[1..][n] in rest.items && rest.items[list[1..][n]] == slab.items[list[n + 1]]
    {
      assert list[1..][n] in list[1..];
    }
  }

  lemma DisjointUnion<A>(a: set<A>, b: set<A>, c: set<A>)
    requires a !! b && c == a + b
    ensures |c| == |a| + |b|
  {
  }

  lemma AllocatedOrFree<T>(s: Slab<T>)
    requires WellFormed(s)
    ensures s.items.Keys !! Elements(s.free)
    ensures Elements(Range(0, s.capacity)) == s.items.Keys + Elements(s.free)
  {
  }

  /** Allocated and free slots always add up to the capacity, so there is a free slot
      exactly when not every slot is allocated. */
  lemma SlotsAddUp<T>(s: Slab<T>)
    requires WellFormed(s)
    ensures |s.items| + |s.free| == s.capacity
    ensures s.free == [] <==> |s.items| == s.capacity
    ensures |s.items| - |s.present| == |Pending(s)|
  {
    AllocatedAndFree(s);
    DisjointUnion(s.present, Pending(s), s.items.Keys);
  }

  lemma AllocatedAndFree<T>(s: Slab<T>)
    requires WellFormed(s)
    ensures |s.items| + |s.free| == s.capacity
  {
    AllocatedOrFree(s);
    CountNoDuplicates(Range(0, s.capacity));
    CountNoDuplicates(s.free);
    DisjointUnion(s.items.Keys, Elements(s.free), Elements(Range(0, s.capacity)));
  }

  ghost function Elements<A>(s: seq<A>): set<A> { set x | x in s }

  lemma {:induction false} CountNoDuplicates<A>(s: seq<A>)
    requires NoDuplicates(s)
    ensures |Elements(s)| == |s|
  {
    if s != [] {
      CountNoDuplicates(s[1..]);
      assert Elements(s) == {s[0]} + Elements(s[1..]);
    }
  }

  ghost function Reversed<A>(s: seq<A>): seq<A> {
    if s == [] then [] else Reversed(s[1..]) + [s[0]]
  }

  /** Freed slots come back last-in first-out, ahead of everything free before. */
  lemma {:induction false} LastFreedFirstReused<T>(s: Slab<T>, list: seq<nat>)
    requires WellFormed(s) && NoDuplicates(list) && forall i: nat :: i in list ==> i in Pending(s)
    ensures FinalizedAll(s, list).free == Reversed(list) + s.free
    decreases |list|
  {
    if list != [] {
      RestIsPending(s, list);
      LastFreedFirstReused(Finalized(s, list[0]), list[1..]);
      assert Reversed(list[1..]) + ([list[0]] + s.free) == Reversed(list) + s.free;
    }
  }

  /** Insert, mark and finalize in a row give the slab back, up to the frontier. */
  lemma InsertRemoveIsIdentity<T>(s: Slab<T>, x: T)
    requires WellFormed(s) && s.free != []
    ensures var i := s.free[0];
            i in Pending(Marked(Inserted(s, x), i))
            && Finalized(Marked(Inserted(s, x), i), i)
               == s.(frontier := if i >= s.frontier then i + 1 else s.frontier)
  {
    var i := s.free[0];
    assert i !in s.items;
    assert s.items[i := x] - {i} == s.items;
  }
}
