/** The double-ended bitmap scanner. `memory(t)` is the bitmap as the scanner's t-th
    word load finds it, so an arbitrary `memory` is an environment that changes
    words between loads, and a constant one is a bitmap nobody else touches. */
module BitmapScan {
  import opened Options
  import opened Words

  type Memory = nat -> seq<Word>

  /** What a scanner is about to do: the range left, and the next load's time. */
  datatype Cursor = Cursor(head: nat, tail: nat, now: nat)

  ghost predicate Sized(memory: Memory, words: nat) {
    forall t :: |memory(t)| == words
  }

  ghost predicate Present(memory: Memory, t: nat, i: nat) {
    WordOf(i) < |memory(t)| && Bit(memory(t), i)
  }

  /** Some load in [t0, t1) found slot `i` clear. */
  ghost predicate SeenClear(memory: Memory, i: nat, t0: nat, t1: nat) {
    exists t :: t0 <= t < t1 && !Present(memory, t, i)
  }

  /** One `next`: the slots it passes over were seen clear, the slot it yields was
      set when its word was loaded, and the end is reached only past all of them. */
  ghost predicate Forward(memory: Memory, c: Cursor, c': Cursor, r: Option<nat>) {
    && c'.tail == c.tail && c.now <= c'.now
    && match r
       case None =>
         && c'.head == c.tail
         && forall i :: c.head <= i < c.tail ==> SeenClear(memory, i, c.now, c'.now)
       case Some(found) =>
         && c.head <= found < c.tail && c'.head == found + 1
         && c.now < c'.now && Present(memory, c'.now - 1, found)
         && forall i :: c.head <= i < found ==> SeenClear(memory, i, c.now, c'.now)
  }

  /** One `next_back`, the mirror image. */
  ghost predicate Backward(memory: Memory, c: Cursor, c': Cursor, r: Option<nat>) {
    && c'.head == c.head && c.now <= c'.now
    && match r
       case None =>
         && c'.tail == c.head
         && forall i :: c.head <= i < c.tail ==> SeenClear(memory, i, c.now, c'.now)
       case Some(found) =>
         && c.head <= found < c.tail && c'.tail == found
         && c.now < c'.now && Present(memory, c'.now - 1, found)
         && forall i :: found < i < c.tail ==> SeenClear(memory, i, c.now, c'.now)
  }

  class Iter {
    var memory: Memory
    const words: nat
    var head: nat // inclusive
    var tail: nat // exclusive
    var now: nat

    ghost predicate Valid()
      reads this
    {
      head <= tail <= words * BITS && Sized(memory, words)
    }

    ghost function At(): Cursor
      reads this
    {
      Cursor(head, tail, now)
    }

    constructor (memory: Memory, words: nat, frontier: nat)
      requires Sized(memory, words) && frontier <= words * BITS
      ensures Valid() && At() == Cursor(0, frontier, 0)
      ensures this.memory == memory && this.words == words
    {
      this.memory, this.words := memory, words;
      head, tail, now := 0, frontier, 0;
    }

    method Load(w: nat) returns (word: Word)
      requires Valid() && w < words
      modifies this`now
      ensures Valid() && now == old(now) + 1 && word == memory(old(now))[w]
    {
      word := memory(now)[w];
      now := now + 1;
    }

    /** Load the word `head` is in: the distance to its next set bit, or past its end. */
    method Distance(ghost start: Cursor) returns (d: nat, found: bool)
      requires Valid() && head < tail && start.now <= now && ClearTo(memory, start, head, now)
      modifies this`now
      ensures Valid() && now > old(now) && ClearTo(memory, start, head + d, now)
      ensures if found then Present(memory, now - 1, head + d) else d > 0
    {
      var word := Load(head / BITS);
      var bme := Shr(word, head % BITS);
      d := if bme == ZERO then BITS - head % BITS else TrailingZeros(bme);
      found := bme != ZERO;
      PassForward(memory, word, start, head, now - 1, now, d);
    }

    method Next() returns (r: Option<nat>)
      requires Valid()
      modifies this`head, this`now
      ensures Valid() && Forward(memory, old(At()), At(), r)
    {
      if head >= tail { return None; }
      ghost var start := At();
      while true
        invariant Valid() && tail == start.tail && head < tail && start.now <= now
        invariant ClearTo(memory, start, head, now)
        decreases tail - head
      {
        var d, found := Distance(start);
        if d >= tail - head {
          EndsForward(memory, start, head, d, Cursor(tail, tail, now));
          head := tail;
          return None;
        }
        head := head + d;
        if found {
          head := head + 1;
          FindsForward(memory, start, At());
          return Some(head - 1);
        }
      }
    }

    method NextBack() returns (r: Option<nat>)
      requires Valid()
      modifies this`tail, this`now
      ensures Valid() && Backward(memory, old(At()), At(), r)
    {
      if tail <= head { return None; }
      ghost var start, read := At(), memory;
      while true
        invariant Valid() && memory == read && head == start.head && head < tail <= start.tail && start.now <= now
        invariant forall i :: tail <= i < start.tail ==> SeenClear(read, i, start.now, now)
        decreases tail - head
      {
        ghost var before := now;
        var last := tail - 1;
        var word := Load(last / BITS);
        var bme := Shl(word, BITS - (last % BITS + 1));
        var d := if bme == ZERO then last % BITS + 1 else LeadingZeros(bme);
        PassBackward(read, word, start, last, before, now, d);
        if d >= tail - head {
          tail := head;
          return None;
        }
        tail := tail - d;
        if bme != ZERO {
          tail := tail - 1;
          return Some(tail);
        }
      }
    }

    // The environment's side, which the source has nothing of.

    /** From here on the words read as in `bitmap`. */
    method Follow(bitmap: seq<Word>)
      requires Valid() && |bitmap| == words
      modifies this`memory
      ensures Valid() && forall t :: memory(t) == bitmap
    {
      memory := _ => bitmap;
    }
  }

  /** The distance to skip forward from `h`, given the word `h` is in. */
  lemma SkipForward(word: Word, h: nat, d: nat)
    requires var bme := Shr(word, h % BITS);
             d == if bme == ZERO then BITS - h % BITS else TrailingZeros(bme)
    ensures forall i :: h <= i < h + d ==> WordOf(i) == WordOf(h) && !word[BitOf(i)]
    ensures if Shr(word, h % BITS) == ZERO then d > 0
            else WordOf(h + d) == WordOf(h) && word[BitOf(h + d)]
  {
    var bme := Shr(word, h % BITS);
    forall i | h <= i < h + d
      ensures WordOf(i) == WordOf(h) && !word[BitOf(i)]
    {
      SameWord(h, i);
      assert bme[i - h] == word[BitOf(i)];
    }
    if bme != ZERO {
      SameWord(h, h + d);
      assert bme[d] == word[BitOf(h + d)];
    }
  }

  /** The distance to skip backward from `last`, inclusive. */
  lemma SkipBackward(word: Word, last: nat, d: nat)
    requires var bme := Shl(word, BITS - (last % BITS + 1));
             d == if bme == ZERO then last % BITS + 1 else LeadingZeros(bme)
    ensures d <= last + 1
    ensures forall i :: last + 1 - d <= i <= last ==> WordOf(i) == WordOf(last) && !word[BitOf(i)]
    ensures if Shl(word, BITS - (last % BITS + 1)) == ZERO then d > 0
            else d <= last && WordOf(last - d) == WordOf(last) && word[BitOf(last - d)]
  {
    var bme := Shl(word, BITS - (last % BITS + 1));
    if bme != ZERO {
      assert bme[BITS - 1 - d];
      SameWord(last - d, last);
      assert bme[BITS - 1 - d] == word[BitOf(last - d)];
    }
    forall i | last + 1 - d <= i <= last
      ensures WordOf(i) == WordOf(last) && !word[BitOf(i)]
    {
      SameWord(i, last);
      assert bme[BITS - 1 - (last - i)] == word[BitOf(i)];
    }
  }

  /** Everything from where the call started up to `h` has been seen clear by time `t`. */
  ghost predicate ClearTo(read: Memory, start: Cursor, h: nat, t: nat) {
    start.head <= h && forall i :: start.head <= i < h ==> SeenClear(read, i, start.now, t)
  }

  lemma EndsForward(read: Memory, start: Cursor, h: nat, d: nat, end: Cursor)
    requires h + d >= start.tail && ClearTo(read, start, h + d, end.now)
    requires end.head == end.tail == start.tail && start.now <= end.now
    ensures Forward(read, start, end, None)
  {
  }

  lemma FindsForward(read: Memory, start: Cursor, end: Cursor)
    requires 0 < end.head <= start.tail == end.tail && start.now < end.now
    requires Present(read, end.now - 1, end.head - 1) && ClearTo(read, start, end.head - 1, end.now)
    ensures Forward(read, start, end, Some(end.head - 1))
  {
  }

  /** The load at time `t` extends that to the next set bit of the word, or past its end. */
  lemma PassForward(read: Memory, word: Word, start: Cursor, h: nat, t: nat, t1: nat, d: nat)
    requires WordOf(h) < |read(t)| && word == read(t)[WordOf(h)] && start.now <= t < t1
    requires ClearTo(read, start, h, t)
    requires var bme := Shr(word, h % BITS);
             d == if bme == ZERO then BITS - h % BITS else TrailingZeros(bme)
    ensures ClearTo(read, start, h + d, t1)
    ensures if Shr(word, h % BITS) == ZERO then d > 0 else Present(read, t, h + d)
  {
    SkipForward(word, h, d);
    ClearRun(read, word, t, start.now, t1, h, h + d);
    StillSeenAll(read, start.head, h, start.now, t, t1);
  }

  lemma PassBackward(read: Memory, word: Word, start: Cursor, last: nat, t: nat, t1: nat, d: nat)
    requires WordOf(last) < |read(t)| && word == read(t)[WordOf(last)] && start.now <= t < t1 && last < start.tail
    requires forall i :: last < i < start.tail ==> SeenClear(read, i, start.now, t)
    requires var bme := Shl(word, BITS - (last % BITS + 1));
             d == if bme == ZERO then last % BITS + 1 else LeadingZeros(bme)
    ensures d <= last + 1
    ensures forall i :: last + 1 - d <= i < start.tail ==> SeenClear(read, i, start.now, t1)
    ensures if Shl(word, BITS - (last % BITS + 1)) == ZERO then d > 0
            else d <= last && Present(read, t, last - d)
  {
    SkipBackward(word, last, d);
    ClearRun(read, word, t, start.now, t1, last + 1 - d, last + 1);
    StillSeenAll(read, last + 1, start.tail, start.now, t, t1);
  }

  /** The load at time `t` saw all of [lo, hi) clear. */
  lemma ClearRun(memory: Memory, word: Word, t: nat, t0: nat, t1: nat, lo: nat, hi: nat)
    requires t0 <= t < t1
    requires forall i :: lo <= i < hi ==>
               !word[BitOf(i)] && (WordOf(i) < |memory(t)| ==> memory(t)[WordOf(i)] == word)
    ensures forall i :: lo <= i < hi ==> SeenClear(memory, i, t0, t1)
  {
    forall i | lo <= i < hi
      ensures SeenClear(memory, i, t0, t1)
    {
      assert !Present(memory, t, i);
    }
  }

  lemma StillSeenAll(memory: Memory, lo: nat, hi: nat, t0: nat, t1: nat, t2: nat)
    requires t1 <= t2 && forall i :: lo <= i < hi ==> SeenClear(memory, i, t0, t1)
    ensures forall i :: lo <= i < hi ==> SeenClear(memory, i, t0, t2)
  {
    forall i | lo <= i < hi
      ensures SeenClear(memory, i, t0, t2)
    {
      StillSeen(memory, i, t0, t1, t2);
    }
  }

  lemma StillSeen(memory: Memory, i: nat, t0: nat, t1: nat, t2: nat)
    requires SeenClear(memory, i, t0, t1) && t1 <= t2
    ensures SeenClear(memory, i, t0, t2)
  {
    var t :| t0 <= t < t1 && !Present(memory, t, i);
    assert t0 <= t < t2;
  }

  /** Slots closer than the word's end share its word. */
  lemma SameWord(i: nat, j: nat)
    requires i <= j < i + (BITS - i % BITS)
    ensures WordOf(i) == WordOf(j) && BitOf(j) == BitOf(i) + (j - i)
  {
  }
}
