/** Whole scans: any interleaving of `next` and `next_back` calls. */
module ScanRuns {
  import opened Options
  import opened Words
  import opened BitmapScan
  import opened SlabSpec

  datatype End = Front | Back

  /** One finished call, and where it left the scanner. */
  datatype Call = Call(end: End, result: Option<nat>, after: Cursor)

  ghost function After(c: Cursor, calls: seq<Call>): Cursor {
    if calls == [] then c else calls[|calls| - 1].after
  }

  ghost predicate Run(memory: Memory, c: Cursor, calls: seq<Call>) {
    calls != [] ==>
      var sofar, call := calls[..|calls| - 1], calls[|calls| - 1];
      && Run(memory, c, sofar)
      && match call.end
         case Front => Forward(memory, After(c, sofar), call.after, call.result)
         case Back => Backward(memory, After(c, sofar), call.after, call.result)
  }

  /** What the calls at one end have yielded, in order. */
  ghost function Yields(end: End, calls: seq<Call>): seq<nat> {
    if calls == [] then []
    else
      var call := calls[|calls| - 1];
      Yields(end, calls[..|calls| - 1])
        + if call.end == end && call.result.Some? then [call.result.value] else []
  }

  ghost predicate Ascending(s: seq<nat>) { forall a, b :: 0 <= a < b < |s| ==> s[a] < s[b] }
  ghost predicate Descending(s: seq<nat>) { forall a, b :: 0 <= a < b < |s| ==> s[a] > s[b] }

  ghost predicate SeenSet(memory: Memory, i: nat, t0: nat, t1: nat) {
    exists t :: t0 <= t < t1 && Present(memory, t, i)
  }

  /** Where the scan stands after some calls: the front and back yields are in order
      and on their own sides, were set when loaded, and nothing passed over was set
      all along. */
  ghost predicate Progress(memory: Memory, c: Cursor, c': Cursor, f: seq<nat>, b: seq<nat>) {
    && c.head <= c'.head <= c'.tail <= c.tail && c.now <= c'.now
    && Ascending(f) && Descending(b)
    && (forall i :: i in f ==> c.head <= i < c'.head && SeenSet(memory, i, c.now, c'.now))
    && (forall i :: i in b ==> c'.tail <= i < c.tail && SeenSet(memory, i, c.now, c'.now))
    && (forall i :: c.head <= i < c'.head ==> i in f || i in b || SeenClear(memory, i, c.now, c'.now))
    && (forall i :: c'.tail <= i < c.tail ==> i in f || i in b || SeenClear(memory, i, c.now, c'.now))
  }

  lemma ProgressWidens(memory: Memory, c: Cursor, c1: Cursor, now: nat, f: seq<nat>, b: seq<nat>)
    requires Progress(memory, c, c1, f, b) && c1.now <= now
    ensures Progress(memory, c, c1.(now := now), f, b)
  {
    forall i | SeenClear(memory, i, c.now, c1.now)
      ensures SeenClear(memory, i, c.now, now)
    {
      StillSeen(memory, i, c.now, c1.now, now);
    }
    forall i | SeenSet(memory, i, c.now, c1.now)
      ensures SeenSet(memory, i, c.now, now)
    {
      var t :| c.now <= t < c1.now && Present(memory, t, i);
      assert c.now <= t < now;
    }
  }

  lemma ForwardProgress(memory: Memory, c: Cursor, c1: Cursor, c2: Cursor, r: Option<nat>, f: seq<nat>, b: seq<nat>)
    requires Progress(memory, c, c1, f, b) && Forward(memory, c1, c2, r)
    ensures Progress(memory, c, c2, f + if r.Some? then [r.value] else [], b)
  {
    ProgressWidens(memory, c, c1, c2.now, f, b);
    forall i | SeenClear(memory, i, c1.now, c2.now)
      ensures SeenClear(memory, i, c.now, c2.now)
    {
      var t :| c1.now <= t < c2.now && !Present(memory, t, i);
      assert c.now <= t < c2.now;
    }
    var f' := f + if r.Some? then [r.value] else [];
    if r.Some? {
      assert SeenSet(memory, r.value, c.now, c2.now) by {
        assert c.now <= c2.now - 1 < c2.now && Present(memory, c2.now - 1, r.value);
      }
      forall a | 0 <= a < |f| ensures f[a] < r.value {
        assert f[a] in f;
      }
      assert r.value in f';
    }
    assert forall i :: i in f ==> i in f';
  }

  lemma BackwardProgress(memory: Memory, c: Cursor, c1: Cursor, c2: Cursor, r: Option<nat>, f: seq<nat>, b: seq<nat>)
    requires Progress(memory, c, c1, f, b) && Backward(memory, c1, c2, r)
    ensures Progress(memory, c, c2, f, b + if r.Some? then [r.value] else [])
  {
    ProgressWidens(memory, c, c1, c2.now, f, b);
    forall i | SeenClear(memory, i, c1.now, c2.now)
      ensures SeenClear(memory, i, c.now, c2.now)
    {
      var t :| c1.now <= t < c2.now && !Present(memory, t, i);
      assert c.now <= t < c2.now;
    }
    var b' := b + if r.Some? then [r.value] else [];
    if r.Some? {
      assert SeenSet(memory, r.value, c.now, c2.now) by {
        assert c.now <= c2.now - 1 < c2.now && Present(memory, c2.now - 1, r.value);
      }
      forall a | 0 <= a < |b| ensures b[a] > r.value {
        assert b[a] in b;
      }
      assert r.value in b';
    }
    assert forall i :: i in b ==> i in b';
  }

  lemma {:induction false} RunProgress(memory: Memory, c: Cursor, calls: seq<Call>)
    requires Run(memory, c, calls) && c.head <= c.tail
    ensures Progress(memory, c, After(c, calls), Yields(Front, calls), Yields(Back, calls))
  {
    if calls != [] {
      var sofar, call := calls[..|calls| - 1], calls[|calls| - 1];
      RunProgress(memory, c, sofar);
      var f, b := Yields(Front, sofar), Yields(Back, sofar);
      match call.end
      case Front =>
        ForwardProgress(memory, c, After(c, sofar), call.after, call.result, f, b);
        assert Yields(Back, calls) == b;
      case Back =>
        BackwardProgress(memory, c, After(c, sofar), call.after, call.result, f, b);
        assert Yields(Front, calls) == f;
    }
  }

  /** A reader's scan with the environment writing between its loads: each index is
      yielded at most once, only if it was present when its word was loaded, and an
      index present throughout is yielded exactly once unless it is still ahead. */
  lemma ConcurrentScan(memory: Memory, c: Cursor, calls: seq<Call>, i: nat)
    requires Run(memory, c, calls) && c.head <= c.tail
    ensures
      var c' := After(c, calls);
      var f, b := Yields(Front, calls), Yields(Back, calls);
      && Ascending(f) && Descending(b)
      && multiset(f + b)[i] <= 1
      && (i in f + b ==> c.head <= i < c.tail && SeenSet(memory, i, c.now, c'.now))
      && (c.head <= i < c.tail && !SeenClear(memory, i, c.now, c'.now) ==>
            (multiset(f + b)[i] == 1 <==> !(c'.head <= i < c'.tail)))
  {
    RunProgress(memory, c, calls);
    var f, b := Yields(Front, calls), Yields(Back, calls);
    OnceWhenAscending(f, i);
    OnceWhenDescending(b, i);
    var mf: multiset<nat>, mb: multiset<nat> := multiset(f), multiset(b);
    assert multiset(f + b) == mf + mb;
  }

  lemma {:induction false} OnceWhenAscending(s: seq<nat>, i: nat)
    requires Ascending(s)
    ensures multiset(s)[i] == if i in s then 1 else 0
  {
    if s != [] {
      OnceWhenAscending(s[1..], i);
      assert s == [s[0]] + s[1..];
      if i == s[0] {
        assert i !in s[1..];
      }
    }
  }

  lemma {:induction false} OnceWhenDescending(s: seq<nat>, i: nat)
    requires Descending(s)
    ensures multiset(s)[i] == if i in s then 1 else 0
  {
    if s != [] {
      OnceWhenDescending(s[1..], i);
      assert s == [s[0]] + s[1..];
      if i == s[0] {
        assert i !in s[1..];
      }
    }
  }

  // A bitmap nobody changes.

  ghost predicate Unchanging(memory: Memory, bitmap: seq<Word>) {
    forall t :: memory(t) == bitmap
  }

  lemma {:induction false} ReversedAppend(s: seq<nat>, x: nat)
    ensures Reversed(s + [x]) == [x] + Reversed(s)
  {
    if s != [] {
      assert (s + [x])[1..] == s[1..] + [x];
      ReversedAppend(s[1..], x);
    }
  }

  lemma UnchangingReads(memory: Memory, bitmap: seq<Word>, i: nat, t: nat)
    requires Unchanging(memory, bitmap) && WordOf(i) < |bitmap|
    ensures Present(memory, t, i) == Bit(bitmap, i)
  {
    assert memory(t) == bitmap;
  }

  lemma NothingIn(memory: Memory, bitmap: seq<Word>, lo: nat, hi: nat, t0: nat, t1: nat)
    requires Unchanging(memory, bitmap) && lo <= hi <= |bitmap| * BITS
    requires forall i :: lo <= i < hi ==> SeenClear(memory, i, t0, t1)
    ensures SetBits(bitmap, lo, hi) == []
  {
    forall i | lo <= i < hi
      ensures !Bit(bitmap, i)
    {
      assert SeenClear(memory, i, t0, t1);
      var t :| t0 <= t < t1 && !Present(memory, t, i);
      UnchangingReads(memory, bitmap, i, t);
    }
    SetBitsOfClear(bitmap, lo, hi);
  }

  function Listed(r: Option<nat>): seq<nat> { if r.Some? then [r.value] else [] }

  /** `next` takes the first of the set bits left. */
  lemma ForwardIsNaive(memory: Memory, bitmap: seq<Word>, c: Cursor, c': Cursor, r: Option<nat>)
    requires Unchanging(memory, bitmap) && c.head <= c.tail <= |bitmap| * BITS
    requires Forward(memory, c, c', r)
    ensures c'.head <= c'.tail
    ensures SetBits(bitmap, c.head, c.tail) == Listed(r) + SetBits(bitmap, c'.head, c'.tail)
  {
    if r.Some? {
      NothingIn(memory, bitmap, c.head, r.value, c.now, c'.now);
      SetBitsSplit(bitmap, c.head, r.value, c.tail);
      UnchangingReads(memory, bitmap, r.value, c'.now - 1);
      assert SetBits(bitmap, r.value, c.tail) == [r.value] + SetBits(bitmap, r.value + 1, c.tail);
    } else {
      NothingIn(memory, bitmap, c.head, c.tail, c.now, c'.now);
    }
  }

  lemma LastSetBit(bitmap: seq<Word>, lo: nat, i: nat, hi: nat)
    requires lo <= i < hi <= |bitmap| * BITS && Bit(bitmap, i) && SetBits(bitmap, i + 1, hi) == []
    ensures SetBits(bitmap, lo, hi) == SetBits(bitmap, lo, i) + [i]
  {
    SetBitsSplit(bitmap, lo, i, hi);
    assert SetBits(bitmap, i, hi) == [i] + SetBits(bitmap, i + 1, hi);
  }

  /** `next_back` takes the last of them. */
  lemma BackwardIsNaive(memory: Memory, bitmap: seq<Word>, c: Cursor, c': Cursor, r: Option<nat>)
    requires Unchanging(memory, bitmap) && c.head <= c.tail <= |bitmap| * BITS
    requires Backward(memory, c, c', r)
    ensures c'.head <= c'.tail
    ensures SetBits(bitmap, c.head, c.tail) == SetBits(bitmap, c'.head, c'.tail) + Listed(r)
  {
    if r.Some? {
      NothingIn(memory, bitmap, r.value + 1, c.tail, c.now, c'.now);
      UnchangingReads(memory, bitmap, r.value, c'.now - 1);
      LastSetBit(bitmap, c.head, r.value, c.tail);
    } else {
      NothingIn(memory, bitmap, c.head, c.tail, c.now, c'.now);
    }
  }

  /** The naive scan from `c`, given what the ends have yielded and what is left. */
  ghost predicate Assembled(bitmap: seq<Word>, c: Cursor, c': Cursor, f: seq<nat>, b: seq<nat>) {
    && c.head <= c.tail <= |bitmap| * BITS && c'.head <= c'.tail <= |bitmap| * BITS
    && SetBits(bitmap, c.head, c.tail) == f + SetBits(bitmap, c'.head, c'.tail) + Reversed(b)
  }

  /** Front yields, what is left, and the back yields reversed make up the naive
      bit-by-bit scan, whatever the interleaving. */
  lemma {:induction false} ScanIsNaive(memory: Memory, bitmap: seq<Word>, c: Cursor, calls: seq<Call>)
    requires Unchanging(memory, bitmap) && c.head <= c.tail <= |bitmap| * BITS
    requires Run(memory, c, calls)
    ensures Assembled(bitmap, c, After(c, calls), Yields(Front, calls), Yields(Back, calls))
  {
    if calls != [] {
      var sofar, call := calls[..|calls| - 1], calls[|calls| - 1];
      ScanIsNaive(memory, bitmap, c, sofar);
      var c1, f, b := After(c, sofar), Yields(Front, sofar), Yields(Back, sofar);
      match call.end
      case Front =>
        ForwardIsNaive(memory, bitmap, c1, call.after, call.result);
        assert Yields(Back, calls) == b && Yields(Front, calls) == f + Listed(call.result);
        AssembleForward(bitmap, c, c1, call.after, call.result, f, b);
      case Back =>
        BackwardIsNaive(memory, bitmap, c1, call.after, call.result);
        assert Yields(Front, calls) == f && Yields(Back, calls) == b + Listed(call.result);
        AssembleBackward(bitmap, c, c1, call.after, call.result, f, b);
    }
  }

  lemma AssembleForward(
    bitmap: seq<Word>, c: Cursor, c1: Cursor, c2: Cursor, r: Option<nat>, f: seq<nat>, b: seq<nat>)
    requires Assembled(bitmap, c, c1, f, b) && c2.head <= c2.tail <= |bitmap| * BITS
    requires SetBits(bitmap, c1.head, c1.tail) == Listed(r) + SetBits(bitmap, c2.head, c2.tail)
    ensures Assembled(bitmap, c, c2, f + Listed(r), b)
  {
  }

  lemma AssembleBackward(
    bitmap: seq<Word>, c: Cursor, c1: Cursor, c2: Cursor, r: Option<nat>, f: seq<nat>, b: seq<nat>)
    requires Assembled(bitmap, c, c1, f, b) && c2.head <= c2.tail <= |bitmap| * BITS
    requires SetBits(bitmap, c1.head, c1.tail) == SetBits(bitmap, c2.head, c2.tail) + Listed(r)
    ensures Assembled(bitmap, c, c2, f, b + Listed(r))
  {
    Regroup(f, SetBits(bitmap, c2.head, c2.tail), Listed(r), Reversed(b));
    if r.Some? {
      ReversedAppend(b, r.value);
    } else {
      assert b + Listed(r) == b && Listed(r) + Reversed(b) == Reversed(b);
    }
  }

  lemma Regroup(f: seq<nat>, mid: seq<nat>, last: seq<nat>, b: seq<nat>)
    ensures f + (mid + last) + b == f + mid + (last + b)
  {
  }

  /** Once a call has returned `None`, every later call does. */
  lemma {:induction false} Fused(memory: Memory, c: Cursor, calls: seq<Call>, more: seq<Call>)
    requires c.head <= c.tail && Run(memory, c, calls + more)
    requires calls != [] && calls[|calls| - 1].result == None
    ensures forall k :: 0 <= k < |more| ==> more[k].result == None
    ensures var end := After(c, calls + more); end.head == end.tail
  {
    var all := calls + more;
    if more == [] {
      assert all == calls;
      RunProgress(memory, c, calls[..|calls| - 1]);
    } else {
      assert all[..|all| - 1] == calls + more[..|more| - 1];
      Fused(memory, c, calls, more[..|more| - 1]);
      forall k | 0 <= k < |more|
        ensures more[k].result == None
      {
        if k < |more| - 1 {
          assert more[..|more| - 1][k] == more[k];
        } else {
          assert all[|all| - 1] == more[k];
        }
      }
    }
  }

  // The exclusive iterator reports the count it started with.

  lemma {:induction false} NothingYielded(calls: seq<Call>)
    ensures Yields(Front, calls) == [] && Yields(Back, calls) == []
            <==> forall k :: 0 <= k < |calls| ==> calls[k].result == None
  {
    if calls != [] {
      var sofar, last := calls[..|calls| - 1], |calls| - 1;
      NothingYielded(sofar);
      assert forall k :: 0 <= k < last ==> sofar[k] == calls[k];
    }
  }

  /** On an unchanged bitmap the count a scan starts with is the number of slots still to
      come exactly as long as nothing has been yielded. */
  lemma CountIsExactWhileFresh(memory: Memory, bitmap: seq<Word>, c: Cursor, calls: seq<Call>)
    requires Unchanging(memory, bitmap) && c.head <= c.tail <= |bitmap| * BITS && Run(memory, c, calls)
    ensures After(c, calls).head <= After(c, calls).tail <= |bitmap| * BITS
    ensures |SetBits(bitmap, c.head, c.tail)| == |SetBits(bitmap, After(c, calls).head, After(c, calls).tail)|
            <==> forall k :: 0 <= k < |calls| ==> calls[k].result == None
  {
    ScanIsNaive(memory, bitmap, c, calls);
    ReversedLength(Yields(Back, calls));
    NothingYielded(calls);
  }

  lemma {:induction false} ReversedLength(s: seq<nat>)
    ensures |Reversed(s)| == |s|
  {
    if s != [] {
      ReversedLength(s[1..]);
    }
  }

  /** One item, one call: the count is off by one. */
  lemma CountGoesStale()
    ensures var bitmap := [ZERO[0 := true]];
            var c, call := Cursor(0, 1, 0), Call(Front, Some(0), Cursor(1, 1, 1));
            && Run(_ => bitmap, c, [call])
            && |SetBits(bitmap, 0, 1)| == 1 && |SetBits(bitmap, 1, 1)| == 0
  {
    var bitmap := [ZERO[0 := true]];
    var memory: Memory := _ => bitmap;
    assert Present(memory, 0, 0);
    assert [Call(Front, Some(0), Cursor(1, 1, 1))][..0] == [];
    assert SetBits(bitmap, 1, 1) == [];
  }
}
