/** Slots, and the free list threaded through them by relative offsets. */
module Freelist {
  import opened SlabSpec

  const ISIZE_MAX: int := 0x7fff_ffff_ffff_ffff

  type usize = x: int | 0 <= x < 0x1_0000_0000_0000_0000
  type isize = x: int | -0x8000_0000_0000_0000 <= x <= 0x7fff_ffff_ffff_ffff

  /** A slot holds an item, or the offset from its right neighbour to the next free
      slot. Zeroed memory reads as `NextFree(0)`. */
  datatype Entry<T> = NextFree(offset: isize) | Item(item: T)

  /** Following `idx + 1 + next_free` from `first` visits exactly `free`, in order, and
      then arrives at the table's length. */
  ghost predicate Links<T>(table: seq<Entry<T>>, first: int, free: seq<nat>)
    decreases |free|
  {
    if free == [] then first == |table|
    else
      && 0 <= first == free[0] < |table| && table[first].NextFree?
      && Links(table, first + 1 + table[first].offset, free[1..])
  }

  lemma {:induction false} LinksStayInside<T>(table: seq<Entry<T>>, first: int, free: seq<nat>)
    requires Links(table, first, free)
    ensures 0 <= first <= |table|
    ensures forall i: nat :: i in free ==> i < |table| && table[i].NextFree?
    decreases |free|
  {
    if free != [] {
      LinksStayInside(table, first + 1 + table[first].offset, free[1..]);
      assert free == [first] + free[1..];
    }
  }

  /** The free list does not notice writes to slots that are not on it. */
  lemma {:induction false} LinksFrame<T>(table: seq<Entry<T>>, first: int, free: seq<nat>, i: nat, entry: Entry<T>)
    requires Links(table, first, free) && i < |table| && i !in free
    ensures Links(table[i := entry], first, free)
    decreases |free|
  {
    if free != [] {
      assert free == [first] + free[1..];
      LinksFrame(table, first + 1 + table[first].offset, free[1..], i, entry);
    }
  }

  /** Zeroed memory already is the list 0, 1, ... up to the capacity. */
  lemma {:induction false} ZeroedIsLinked<T>(table: seq<Entry<T>>, k: nat)
    requires k <= |table| && forall i :: 0 <= i < |table| ==> table[i] == NextFree(0)
    ensures Links(table, k, Range(k, |table|))
    decreases |table| - k
  {
    if k < |table| {
      ZeroedIsLinked(table, k + 1);
      assert Range(k, |table|)[1..] == Range(k + 1, |table|);
    }
  }

  /** Pushing a freed slot: the offset stored decodes to the old head. */
  lemma PushFree<T>(table: seq<Entry<T>>, first: int, free: seq<nat>, i: nat)
    requires Links(table, first, free) && i < |table| && i !in free
    requires |table| <= ISIZE_MAX
    ensures -ISIZE_MAX <= first - i - 1 <= ISIZE_MAX
    ensures Links(table[i := NextFree(first - i - 1)], i, [i] + free)
  {
    LinksStayInside(table, first, free);
    LinksFrame(table, first, free, i, NextFree(first - i - 1));
    assert ([i] + free)[1..] == free;
  }

  /** The list from a given head is unique, so the slots determine it. */
  lemma {:induction false} LinksAreUnique<T>(table: seq<Entry<T>>, first: int, free1: seq<nat>, free2: seq<nat>)
    requires Links(table, first, free1) && Links(table, first, free2)
    ensures free1 == free2
    decreases |free1|
  {
    if free1 != [] && free2 != [] {
      LinksAreUnique(table, first + 1 + table[first].offset, free1[1..], free2[1..]);
      assert free1 == [first] + free1[1..] && free2 == [first] + free2[1..];
    }
  }
}
