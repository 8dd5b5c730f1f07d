/** Removable iteration from its start to its end, whatever readers and destructors do in
    the meantime: every present item is yielded once, from the end that was asked. */
module RcuIteration {
  import opened Options
  import opened Paths
  import opened ScanRuns
  import opened SlabSpec
  import opened RcuMachine
  import opened RcuIterationSteps
  import opened RcuTheorems

  /** The iterator has slot `i` still to yield. */
  ghost predicate Awaits(s: State, i: nat) {
    s.mode.Iterating? && s.mode.head <= i < s.mode.tail && i in s.slab.present
  }

  ghost predicate Yields(step: Step, i: nat) {
    step.Yield? && step.found == Some(i)
  }

  /** The iterator begins with every present item ahead of it. */
  lemma StartsWithEverything(s: State)
    requires Good(s) && OwnerFree(s)
    ensures Enabled(s, StartIterMut) && Good(Next(s, StartIterMut))
    ensures Next(s, StartIterMut).mode.Iterating? && Next(s, StartIterMut).mode.remaining == |s.slab.present|
    ensures forall i :: i in s.slab.present ==> Awaits(Next(s, StartIterMut), i)
  {
    StepKeeps(s, StartIterMut);
  }

  /** What is yielded is present, and the first from the end that was asked. */
  lemma YieldsTheNearest(s: State, end: End, i: nat, p: nat, k: nat)
    requires Typed(s) && OwnerOk(s) && YieldEnabled(s, end, Some(i), p, k)
    ensures Awaits(s, i)
    ensures forall j: nat :: Awaits(s, j) ==> if end == Front then i <= j else j <= i
  {
    YieldIsRight(s, end, Some(i), p, k);
    forall j: nat | Awaits(s, j)
      ensures if end == Front then i <= j else j <= i
    {
      var mode := YieldedMode(s.mode, end, Some(i));
      assert j in Ahead(s.slab.present, s.mode.head, s.mode.tail);
      assert j == i || j in Ahead(s.slab.present, mode.head, mode.tail);
    }
  }

  /** Nothing is yielded only when nothing is left. */
  lemma NoneMeansDone(s: State, end: End, p: nat, k: nat)
    requires Typed(s) && OwnerOk(s) && YieldEnabled(s, end, None, p, k)
    ensures forall i: nat :: !Awaits(s, i)
  {
    YieldIsRight(s, end, None, p, k);
    var mode := YieldedMode(s.mode, end, None);
    assert Ahead(s.slab.present, mode.head, mode.tail) == {};
    assert forall i: nat :: Awaits(s, i) ==> i in Ahead(s.slab.present, s.mode.head, s.mode.tail);
  }

  lemma AwaitsHandleStep(s: State, step: Step, i: nat)
    requires Typed(s) && HandleStep(step) && Enabled(s, step) && step != LinkGeneration && Awaits(s, i)
    ensures Awaits(HandleNext(s, step), i)
  {
  }

  lemma AwaitsYield(s: State, end: End, found: Option<nat>, p: nat, k: nat, i: nat)
    requires Typed(s) && OwnerOk(s) && YieldEnabled(s, end, found, p, k) && found != Some(i) && Awaits(s, i)
    ensures Awaits(AfterYield(s, end, found, p, k), i)
  {
    YieldIsRight(s, end, found, p, k);
    var mode := YieldedMode(s.mode, end, found);
    assert i in Ahead(s.slab.present, s.mode.head, s.mode.tail);
    assert i in Ahead(s.slab.present, mode.head, mode.tail);
  }

  lemma AwaitsAccessStep(s: State, step: Step, i: nat)
    requires Typed(s) && OwnerOk(s) && AccessStep(step) && Enabled(s, step) && !Yields(step, i) && Awaits(s, i)
    ensures Awaits(AccessNext(s, step), i)
  {
    if step.Yield? {
      AwaitsYield(s, step.end, step.found, step.p, step.k, i);
    }
  }

  lemma AwaitsStoreStep(s: State, step: Step, i: nat)
    requires Typed(s) && BorrowOk(s) && !HandleStep(step) && !AccessStep(step) && Enabled(s, step) && Awaits(s, i)
    requires WellFormed(s.slab) && s.slab.capacity == |s.mem.slots| && MarksInRange(s) && ListsAreClean(s)
    ensures Awaits(StoreNext(s, step), i)
  {
  }

  lemma AwaitsThrough(s: State, step: Step, i: nat)
    requires Good(s) && Enabled(s, step) && step != LinkGeneration && !Yields(step, i) && Awaits(s, i)
    ensures Awaits(Next(s, step), i)
  {
    if HandleStep(step) {
      AwaitsHandleStep(s, step, i);
    } else if AccessStep(step) {
      AwaitsAccessStep(s, step, i);
    } else {
      StoresAreReady(s);
      AwaitsStoreStep(s, step, i);
    }
  }

  lemma AwaitsOverRuns(s: State, steps: seq<Step>, s': State, i: nat)
    requires Awaits(s, i) && Runs(s, steps, s')
    requires forall k :: 0 <= k < |steps| ==> steps[k] != LinkGeneration && !Yields(steps[k], i)
    ensures Awaits(s', i)
  {
    forall a, step, b | Takes(a, step, b) && step != LinkGeneration && !Yields(step, i) && Awaits(a, i)
      ensures Awaits(b, i)
    {
      AwaitsThrough(a, step, i);
    }
    PathKeeps(Takes, step => step != LinkGeneration && !Yields(step, i), x => Awaits(x, i), s, steps, s');
  }

  /** Nothing is skipped: over every run in which the iterator lives, an item that was
      present when it was made is yielded or still to come. */
  lemma NothingIsSkipped(s: State, s1: State, steps: seq<Step>, s': State, i: nat)
    requires Takes(s, StartIterMut, s1) && i in s.slab.present && Runs(s1, steps, s')
    requires forall k :: 0 <= k < |steps| ==> steps[k] != LinkGeneration && !Yields(steps[k], i)
    ensures Awaits(s', i)
  {
    StartsWithEverything(s);
    AwaitsOverRuns(s1, steps, s', i);
  }

  /** The iterator, if there is one, has passed slot `i`. */
  ghost predicate Passed(s: State, i: nat) {
    s.mode.Iterating? ==> !(s.mode.head <= i < s.mode.tail)
  }

  lemma PassedYield(s: State, end: End, found: Option<nat>, p: nat, k: nat, i: nat)
    requires Typed(s) && OwnerOk(s) && YieldEnabled(s, end, found, p, k) && (Passed(s, i) || found == Some(i))
    ensures Passed(AfterYield(s, end, found, p, k), i)
  {
    YieldIsRight(s, end, found, p, k);
  }

  lemma PassedAccessStep(s: State, step: Step, i: nat)
    requires Typed(s) && OwnerOk(s) && AccessStep(step) && Enabled(s, step) && step != StartIterMut
    requires Passed(s, i) || Yields(step, i)
    ensures Passed(AccessNext(s, step), i)
  {
    if step.Yield? {
      PassedYield(s, step.end, step.found, step.p, step.k, i);
    }
  }

  lemma PassedHandleStep(s: State, step: Step, i: nat)
    requires Typed(s) && HandleStep(step) && Enabled(s, step) && Passed(s, i)
    ensures Passed(HandleNext(s, step), i)
  {
  }

  lemma PassedStoreStep(s: State, step: Step, i: nat)
    requires Typed(s) && !HandleStep(step) && !AccessStep(step) && Enabled(s, step) && Passed(s, i)
    requires WellFormed(s.slab) && s.slab.capacity == |s.mem.slots| && MarksInRange(s) && ListsAreClean(s)
    ensures Passed(StoreNext(s, step), i)
  {
  }

  lemma PassedThrough(s: State, step: Step, i: nat)
    requires Good(s) && Enabled(s, step) && step != StartIterMut && (Passed(s, i) || Yields(step, i))
    ensures Passed(Next(s, step), i)
  {
    if HandleStep(step) {
      PassedHandleStep(s, step, i);
    } else if AccessStep(step) {
      PassedAccessStep(s, step, i);
    } else {
      StoresAreReady(s);
      PassedStoreStep(s, step, i);
    }
  }

  lemma PassedIsNotYielded(s: State, step: Step, i: nat)
    requires Typed(s) && Passed(s, i) && Yields(step, i)
    ensures !Enabled(s, step)
  {
  }

  lemma PassedOverRuns(s: State, steps: seq<Step>, s': State, i: nat)
    requires Passed(s, i) && Runs(s, steps, s') && forall k :: 0 <= k < |steps| ==> steps[k] != StartIterMut
    ensures Passed(s', i)
  {
    forall a, step, b | Takes(a, step, b) && step != StartIterMut && Passed(a, i)
      ensures Passed(b, i)
    {
      PassedThrough(a, step, i);
    }
    PathKeeps(Takes, step => step != StartIterMut, x => Passed(x, i), s, steps, s');
  }

  /** Nothing is yielded twice by one iterator, from either end. */
  lemma NothingIsYieldedTwice(s: State, step: Step, s1: State, i: nat, steps: seq<Step>, s': State, again: Step)
    requires Takes(s, step, s1) && Yields(step, i) && Runs(s1, steps, s')
    requires forall k :: 0 <= k < |steps| ==> steps[k] != StartIterMut
    requires Typed(s') && Yields(again, i)
    ensures !Enabled(s', again)
  {
    PassedOverYield(s, step, s1, i);
    PassedOverRuns(s1, steps, s', i);
    PassedIsNotYielded(s', again, i);
  }

  lemma PassedOverYield(s: State, step: Step, s1: State, i: nat)
    requires Takes(s, step, s1) && Yields(step, i)
    ensures Passed(s1, i)
  {
    PassedThrough(s, step, i);
  }
}
