/** The slab itself: storage shared with readers, and the single writer's handle. */
module ConcurrentSlab {
  import opened Options
  import opened Words
  import opened BitmapScan
  import opened ScanRuns
  import opened SlabSpec
  import opened Freelist

  ghost function ItemsOf<T>(table: seq<Entry<T>>): map<nat, T> {
    map i: nat | 0 <= i < |table| && table[i].Item? :: table[i].item
  }

  ghost function PresentIn(bitmap: seq<Word>, size: nat): set<nat>
    requires size <= |bitmap| * BITS
  {
    set i: nat | 0 <= i < size && Bit(bitmap, i)
  }

  /** Everything stored for one slab, as a value. */
  datatype Image<T> = Image(table: seq<Entry<T>>, bitmap: seq<Word>, frontier: nat, first: int, free: seq<nat>)

  /** The slab an image stands for. */
  ghost function AbsOf<T>(m: Image<T>): Slab<T>
    requires |m.table| <= |m.bitmap| * BITS
  {
    Slab(|m.table|, ItemsOf(m.table), PresentIn(m.bitmap, |m.table|), m.free, m.frontier)
  }

  /** What a reader can find: a set bit names a slot below the frontier that holds an
      item, and bits past the end of the table are clear. */
  ghost predicate Readable<T>(table: seq<Entry<T>>, bitmap: seq<Word>, frontier: nat) {
    && |bitmap| == WordCount(|table|) && frontier <= |table|
    && forall i: nat :: i < |bitmap| * BITS && Bit(bitmap, i) ==> i < frontier && table[i].Item?
  }

  /** What the writer keeps as well: the list threaded through the free slots. */
  ghost predicate Consistent<T>(m: Image<T>) {
    && Readable(m.table, m.bitmap, m.frontier)
    && WellFormed(AbsOf(m))
    && Links(m.table, m.first, m.free)
  }

  /** And the two counts. */
  ghost predicate Tallied<T>(m: Image<T>, inUse: int, allocatedSlots: int) {
    Consistent(m) && inUse == |AbsOf(m).present| && allocatedSlots == |AbsOf(m).items|
  }

  function WithBit(bitmap: seq<Word>, i: nat, value: bool): seq<Word>
    requires WordOf(i) < |bitmap|
  {
    bitmap[WordOf(i) := bitmap[WordOf(i)][BitOf(i) := value]]
  }

  class CslabStorage<T> {
    /** how many slots there are */
    const size: usize
    /** one past the highest slot ever used */
    var frontier: usize
    const table: array<Entry<T>>
    const bitmap: array<Word>

    ghost predicate Shaped()
      reads this
    {
      0 < size <= ISIZE_MAX && table.Length == size && bitmap.Length == WordCount(size) && frontier <= size
    }

    constructor (size: usize)
      requires 0 < size <= ISIZE_MAX
      ensures Shaped() && this.size == size && frontier == 0
      ensures fresh(table) && fresh(bitmap)
      ensures forall i :: 0 <= i < size ==> table[i] == NextFree(0)
      ensures forall w :: 0 <= w < bitmap.Length ==> bitmap[w] == ZERO
    {
      this.size := size;
      frontier := 0;
      table := new Entry<T>[size](_ => NextFree(0));
      bitmap := new Word[WordCount(size)](_ => ZERO);
    }

    method ContainsKey(idx: usize) returns (found: bool)
      requires Shaped()
      ensures found <==> idx in PresentIn(bitmap[..], size)
    {
      if idx >= size { return false; }
      TestBit(bitmap[idx / BITS], idx % BITS);
      found := And(Shr(bitmap[idx / BITS], idx % BITS), ONE) != ZERO;
    }

    method Get(idx: usize) returns (item: Option<T>)
      requires Shaped() && Readable(table[..], bitmap[..], frontier)
      ensures item == if idx in PresentIn(bitmap[..], size) then Some(ItemsOf(table[..])[idx]) else None
    {
      var found := ContainsKey(idx);
      item := if found then Some(table[idx].item) else None;
    }

    /** A scanner over a bitmap nobody is changing. */
    method Scan() returns (iter: Iter)
      requires Shaped()
      ensures fresh(iter) && iter.Valid() && iter.At() == Cursor(0, frontier, 0)
      ensures iter.words == bitmap.Length && Unchanging(iter.memory, bitmap[..])
    {
      var words := bitmap[..];
      iter := new Iter(_ => words, bitmap.Length, frontier);
    }

    /** One step of a scan that has yielded `done` of `all` so far. */
    method NextSetBit(iter: Iter, ghost bits: seq<Word>, ghost all: seq<nat>, ghost done: seq<nat>)
      returns (next: Option<nat>)
      requires iter.Valid() && Unchanging(iter.memory, bits) && iter.words == |bits|
      requires all == done + SetBits(bits, iter.head, iter.tail)
      modifies iter`head, iter`now
      ensures iter.Valid() && iter.head >= old(iter.head)
      ensures match next
              case None => iter.head == iter.tail && all == done + SetBits(bits, iter.head, iter.tail)
              case Some(i) =>
                iter.head > old(iter.head) && i in all && all == done + [i] + SetBits(bits, iter.head, iter.tail)
    {
      ghost var c := iter.At();
      next := iter.Next();
      ForwardIsNaive(iter.memory, bits, c, iter.At(), next);
      NextInScan(all, done, next, SetBits(bits, iter.head, iter.tail));
    }

    /** The storage's destructor: a scan that destroys every item whose bit is set. */
    method Drop() returns (destroyed: seq<T>)
      requires Shaped() && Readable(table[..], bitmap[..], frontier)
      ensures var present := SetBits(bitmap[..], 0, size);
              && (forall k :: 0 <= k < |present| ==> present[k] in ItemsOf(table[..]))
              && destroyed == ItemsAt(ItemsOf(table[..]), present)
    {
      ghost var bits, items := bitmap[..], ItemsOf(table[..]);
      ScanReachesAll(table[..], bits, frontier);
      var iter := Scan();
      destroyed := [];
      ghost var done := [];
      var more := true;
      while more
        invariant fresh(iter) && iter.Valid() && Unchanging(iter.memory, bits) && iter.words == |bits|
        invariant SetBits(bits, 0, size) == done + SetBits(bits, iter.head, iter.tail)
        invariant !more ==> iter.head == iter.tail
        invariant (forall k :: 0 <= k < |done| ==> done[k] in items) && destroyed == ItemsAt(items, done)
        decreases more, iter.tail - iter.head
      {
        var next := NextSetBit(iter, bits, SetBits(bits, 0, size), done);
        if next.Some? {
          ItemsOneMore(items, done, next.value);
          destroyed := destroyed + [table[next.value].item];
          done := done + [next.value];
        } else {
          more := false;
        }
      }
    }
  }

  lemma ItemsOneMore<T>(items: map<nat, T>, list: seq<nat>, i: nat)
    requires i in items && forall k :: 0 <= k < |list| ==> list[k] in items
    ensures ItemsAt(items, list + [i]) == ItemsAt(items, list) + [items[i]]
  {
  }

  lemma NextInScan(all: seq<nat>, done: seq<nat>, next: Option<nat>, rest: seq<nat>)
    requires all == done + (Listed(next) + rest)
    ensures next.Some? ==> next.value in all && all == done + [next.value] + rest
    ensures next == None ==> all == done + rest
  {
    if next.Some? {
      assert all[|done|] == next.value;
    }
  }

  /** Scanning to the frontier finds every set bit, and each names a slot with an item. */
  lemma ScanReachesAll<T>(table: seq<Entry<T>>, bitmap: seq<Word>, frontier: nat)
    requires Readable(table, bitmap, frontier)
    ensures SetBits(bitmap, 0, |table|) == SetBits(bitmap, 0, frontier)
    ensures forall i: nat :: i in SetBits(bitmap, 0, |table|) ==> i < |table| && table[i].Item?
  {
    SetBitsSplit(bitmap, 0, frontier, |table|);
    SetBitsOfClear(bitmap, frontier, |table|);
    SetBitsMembers(bitmap, 0, frontier);
  }

  class Cslab<T> {
    /** the head of the free list; `size` or more when no slot is free */
    var firstFree: usize
    var inUse: usize
    var allocatedSlots: usize
    const storage: CslabStorage<T>
    /** the free slots, in the order the list visits them */
    ghost var free: seq<nat>

    ghost function Stored(): Image<T>
      reads this, storage, storage.table, storage.bitmap
    {
      Image(storage.table[..], storage.bitmap[..], storage.frontier, firstFree, free)
    }

    ghost function Abs(): Slab<T>
      requires storage.Shaped()
      reads this, storage, storage.table, storage.bitmap
    {
      AbsOf(Stored())
    }

    ghost predicate Valid()
      reads this, storage, storage.table, storage.bitmap
    {
      storage.Shaped() && Tallied(Stored(), inUse, allocatedSlots)
    }

    constructor (capacity: usize)
      requires 0 < capacity <= ISIZE_MAX
      ensures Valid() && Abs() == Fresh(capacity)
      ensures fresh(storage) && fresh(storage.table) && fresh(storage.bitmap)
    {
      firstFree, inUse, allocatedSlots := 0, 0, 0;
      storage := new CslabStorage(capacity);
      free := Range(0, capacity);
      new;
      ZeroedIsLinked(storage.table[..], 0);
      assert ItemsOf(storage.table[..]) == map[];
      assert PresentIn(storage.bitmap[..], capacity) == {};
    }

    method Get(idx: usize) returns (item: Option<T>)
      requires Valid()
      ensures item == if idx in Abs().present then Some(Abs().items[idx]) else None
    {
      item := storage.Get(idx);
    }

    /** The exclusive iterator: a scanner, and the count it reports while fresh. */
    method Iterate() returns (iter: Iter, count: usize)
      requires Valid()
      ensures fresh(iter) && iter.Valid() && Unchanging(iter.memory, storage.bitmap[..])
      ensures iter.At() == Cursor(0, storage.frontier, 0) && storage.frontier <= |storage.bitmap[..]| * BITS
      ensures count == |SetBits(storage.bitmap[..], iter.head, iter.tail)| == |Abs().present|
    {
      iter := storage.Scan();
      count := inUse;
      ScanListsPresent(Stored());
    }

    method VacantKey() returns (idx: Option<usize>)
      requires Valid()
      ensures idx.Some? <==> allocatedSlots < storage.size
      ensures idx.Some? ==> free != [] && idx.value == free[0]
    {
      FullExactlyWhenUnlinked(Stored());
      if firstFree >= storage.table.Length { return None; }
      idx := Some(firstFree);
    }

    method Insert(item: T) returns (idx: Option<usize>)
      requires Valid()
      modifies this, storage`frontier, storage.table, storage.bitmap
      ensures Valid()
      ensures idx.Some? <==> old(allocatedSlots) < storage.size
      ensures idx.Some? ==> old(free) != [] && idx.value == old(free)[0] && Abs() == Inserted(old(Abs()), item)
      ensures idx == None ==> Abs() == old(Abs())
    {
      FullExactlyWhenUnlinked(Stored());
      var i := firstFree;
      if i >= storage.table.Length { return None; }
      InsertFree(item);
      idx := Some(i);
    }

    method InsertFree(item: T)
      requires Valid() && free != [] && firstFree < storage.size
      modifies this, storage`frontier, storage.table, storage.bitmap
      ensures Valid() && Abs() == Inserted(old(Abs()), item)
    {
      ghost var after := AfterInsert(Stored(), item);
      InsertKeeps(Stored(), item);
      InsertAtHead(item);
      inUse := inUse + 1;
      allocatedSlots := allocatedSlots + 1;
      assert Stored() == after && Tallied(after, inUse, allocatedSlots);
    }

    method InsertAtHead(item: T)
      requires storage.Shaped() && CanInsert(Stored())
      requires 0 <= AfterInsert(Stored(), item).first <= storage.size
      modifies this`firstFree, this`free, storage`frontier, storage.table, storage.bitmap
      ensures storage.Shaped() && Stored() == AfterInsert(old(Stored()), item)
    {
      var i := firstFree;

      // unlink the head
      var beyond: isize := i + 1;
      var next: isize := beyond + storage.table[i].offset;
      firstFree := next;
      free := free[1..];

      storage.table[i] := Item(item);
      if i >= storage.frontier {
        storage.frontier := i + 1;
      }

      // the flag comes last: a reader that finds it finds the rest
      var mask := storage.bitmap[i / BITS];
      SetBit(mask, i % BITS);
      storage.bitmap[i / BITS] := Or(mask, Shl(ONE, i % BITS));
    }

    /** The source panics unless the item is present. */
    method MarkRemoved(idx: usize)
      requires Valid() && idx in Abs().present
      modifies this, storage.bitmap
      ensures Valid() && Abs() == Marked(old(Abs()), idx)
    {
      ghost var before := Stored();
      MarkKeeps(before, idx);
      var mask := storage.bitmap[idx / BITS];
      ClearBit(mask, idx % BITS);
      storage.bitmap[idx / BITS] := And(mask, Not(Shl(ONE, idx % BITS)));
      inUse := inUse - 1;
      assert Stored() == AfterMark(before, idx);
    }

    /** The source relies on its caller to have marked the item. */
    method FinalizeRemove(idx: usize) returns (item: T)
      requires Valid() && idx in Pending(Abs())
      modifies this, storage.table
      ensures Valid() && Abs() == Finalized(old(Abs()), idx) && item == old(Abs()).items[idx]
    {
      FinalizeKeeps(Stored(), idx);
      item := TakeAndPush(idx);
      allocatedSlots := allocatedSlots - 1;
    }

    method TakeAndPush(idx: usize) returns (item: T)
      requires storage.Shaped() && idx < storage.size && storage.table[idx].Item? && firstFree <= storage.size
      modifies this`firstFree, this`free, storage.table
      ensures Stored() == AfterFinalize(old(Stored()), idx) && old(storage.table[idx]) == Item(item)
    {
      item := storage.table[idx].item;
      var above: isize := firstFree - idx;
      var offset: isize := above - 1;
      storage.table[idx] := NextFree(offset);
      firstFree := idx;
      free := [idx] + free;
      assert storage.table[..] == old(storage.table[..])[idx := NextFree(offset)];
    }
  }

  /** The list is at its end exactly when every slot is allocated. */
  lemma FullExactlyWhenUnlinked<T>(m: Image<T>)
    requires Consistent(m)
    ensures 0 <= m.first && (m.first >= |m.table| <==> m.free == [])
    ensures m.free == [] <==> |ItemsOf(m.table)| == |m.table|
    ensures |ItemsOf(m.table)| <= |m.table| && |PresentIn(m.bitmap, |m.table|)| <= |m.table|
  {
    LinksStayInside(m.table, m.first, m.free);
    SlotsAddUp(AbsOf(m));
  }

  ghost predicate CanInsert<T>(m: Image<T>) {
    && m.free != [] && m.first == m.free[0] && 0 <= m.first < |m.table| && m.table[m.first].NextFree?
    && WordOf(m.first) < |m.bitmap|
  }

  ghost function AfterInsert<T>(m: Image<T>, item: T): Image<T>
    requires CanInsert(m)
  {
    Image(m.table[m.first := Item(item)], WithBit(m.bitmap, m.first, true),
          if m.first >= m.frontier then m.first + 1 else m.frontier,
          m.first + 1 + m.table[m.first].offset, m.free[1..])
  }

  ghost function AfterMark<T>(m: Image<T>, i: nat): Image<T>
    requires WordOf(i) < |m.bitmap|
  {
    m.(bitmap := WithBit(m.bitmap, i, false))
  }

  ghost function AfterFinalize<T>(m: Image<T>, i: nat): Image<T>
    requires i < |m.table| <= ISIZE_MAX && 0 <= m.first <= |m.table|
  {
    m.(table := m.table[i := NextFree(m.first - i - 1)], first := i, free := [i] + m.free)
  }

  lemma InsertReadable<T>(table: seq<Entry<T>>, bitmap: seq<Word>, frontier: nat, i: nat, item: T)
    requires Readable(table, bitmap, frontier) && i < |table| && table[i].NextFree?
    ensures WordOf(i) < |bitmap|
    ensures var table', bitmap' := table[i := Item(item)], WithBit(bitmap, i, true);
            && Readable(table', bitmap', if i >= frontier then i + 1 else frontier)
            && i !in ItemsOf(table) && ItemsOf(table') == ItemsOf(table)[i := item]
            && i !in PresentIn(bitmap, |table|)
            && PresentIn(bitmap', |table'|) == PresentIn(bitmap, |table|) + {i}
  {
    BitSet(bitmap, |table|, i, true);
    assert ItemsOf(table[i := Item(item)]) == ItemsOf(table)[i := item];
  }

  /** Insertion keeps the storage consistent and is insertion into the abstract slab. */
  lemma InsertKeeps<T>(m: Image<T>, item: T)
    requires Consistent(m) && 0 <= m.first < |m.table| && m.free != []
    ensures CanInsert(m)
    ensures var m' := AfterInsert(m, item);
            && 0 <= m'.first <= |m.table|
            && Consistent(m') && AbsOf(m') == Inserted(AbsOf(m), item)
            && |AbsOf(m').items| == |AbsOf(m).items| + 1 <= |m.table|
            && |AbsOf(m').present| == |AbsOf(m).present| + 1 <= |m.table|
  {
    var next := m.first + 1 + m.table[m.first].offset;
    assert m.free[0] == m.first && m.first !in m.free[1..];
    LinksStayInside(m.table, next, m.free[1..]);
    LinksFrame(m.table, next, m.free[1..], m.first, Item(item));
    InsertReadable(m.table, m.bitmap, m.frontier, m.first, item);
    assert AbsOf(AfterInsert(m, item)) == Inserted(AbsOf(m), item);
    FullExactlyWhenUnlinked(AfterInsert(m, item));
  }

  lemma MarkKeeps<T>(m: Image<T>, i: nat)
    requires Consistent(m) && i in AbsOf(m).present
    ensures WordOf(i) < |m.bitmap|
    ensures var m' := AfterMark(m, i);
            && Consistent(m') && AbsOf(m') == Marked(AbsOf(m), i)
            && |AbsOf(m').present| == |AbsOf(m).present| - 1
  {
    BitSet(m.bitmap, |m.table|, i, false);
  }

  lemma FinalizeKeeps<T>(m: Image<T>, i: nat)
    requires Consistent(m) && |m.table| <= ISIZE_MAX && i in Pending(AbsOf(m))
    ensures 0 <= m.first <= |m.table| && i < |m.table|
    ensures var m' := AfterFinalize(m, i);
            && Consistent(m') && AbsOf(m') == Finalized(AbsOf(m), i)
            && |AbsOf(m').items| == |AbsOf(m).items| - 1
  {
    LinksStayInside(m.table, m.first, m.free);
    PushFree(m.table, m.first, m.free, i);
    StillReadable(m.table, m.bitmap, m.frontier, i, m.first - i - 1);
    FinalizeIsAbstract(m, i);
  }

  lemma FinalizeIsAbstract<T>(m: Image<T>, i: nat)
    requires |m.table| <= |m.bitmap| * BITS && WellFormed(AbsOf(m)) && i in Pending(AbsOf(m))
    requires 0 <= m.first <= |m.table| <= ISIZE_MAX
    ensures AbsOf(AfterFinalize(m, i)) == Finalized(AbsOf(m), i)
    ensures |AbsOf(AfterFinalize(m, i)).items| == |AbsOf(m).items| - 1
  {
    ItemTaken(m.table, i, m.first - i - 1);
  }

  lemma StillReadable<T>(table: seq<Entry<T>>, bitmap: seq<Word>, frontier: nat, i: nat, offset: isize)
    requires Readable(table, bitmap, frontier) && i < |table| && i !in PresentIn(bitmap, |table|)
    ensures Readable(table[i := NextFree(offset)], bitmap, frontier)
  {
  }

  lemma ItemTaken<T>(table: seq<Entry<T>>, i: nat, offset: isize)
    requires i < |table| && table[i].Item?
    ensures ItemsOf(table[i := NextFree(offset)]) == ItemsOf(table) - {i}
    ensures |ItemsOf(table[i := NextFree(offset)])| == |ItemsOf(table)| - 1
  {
    var table' := table[i := NextFree(offset)];
    assert ItemsOf(table') == ItemsOf(table) - {i};
    assert ItemsOf(table').Keys == ItemsOf(table).Keys - {i};
  }

  /** The scan up to the frontier lists every present slot once. */
  lemma ScanListsPresent<T>(m: Image<T>)
    requires Consistent(m)
    ensures m.frontier <= |m.bitmap| * BITS
    ensures var list := SetBits(m.bitmap, 0, m.frontier);
            NoDuplicates(list) && Elements(list) == AbsOf(m).present && |list| == |AbsOf(m).present|
  {
    var list := SetBits(m.bitmap, 0, m.frontier);
    SetBitsAscend(m.bitmap, 0, m.frontier);
    SetBitsMembers(m.bitmap, 0, m.frontier);
    assert Elements(list) == AbsOf(m).present;
    CountNoDuplicates(list);
  }

  lemma BitSet(bitmap: seq<Word>, size: nat, i: nat, value: bool)
    requires i < size <= |bitmap| * BITS
    ensures var bitmap' := WithBit(bitmap, i, value);
            && (forall j: nat :: WordOf(j) < |bitmap| ==> Bit(bitmap', j) == if j == i then value else Bit(bitmap, j))
            && PresentIn(bitmap', size)
               == if value then PresentIn(bitmap, size) + {i} else PresentIn(bitmap, size) - {i}
  {
  }
}
