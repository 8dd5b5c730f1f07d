/** What a step leaves alone: other readers, other threads' views, and whatever was found
    through a reader. */
module RcuFrames {
  import opened Words
  import opened SlabSpec
  import opened GenerationChain
  import opened StoreHistory
  import opened RcuMachine

  /** Other readers stay, in their generations; observers change only by their own steps; what was found through
      a reader is forgotten only with the reader, and only loads add to it. */
  ghost predicate Bystanders(s: State, s': State, step: Step) {
    && (forall r :: Reader(r) in s.chain.holders && step != DropReader(r) ==>
          Reader(r) in s'.chain.holders && s'.chain.holders[Reader(r)] == s.chain.holders[Reader(r)])
    && (forall t :: t in s'.observers ==>
          (t in s.observers && s'.observers[t].reader == s.observers[t].reader)
          || (step.Attach? && step.t == t && s'.observers[t].reader == step.r))
    && (forall t :: t in s.observers && step != Detach(t) ==>
          && t in s'.observers && s'.observers[t].reader == s.observers[t].reader
          && s.observers[t].seen.Keys <= s'.observers[t].seen.Keys
          && (!step.Load? ==> s'.observers[t] == s.observers[t]))
    && (step.Attach? ==> step.t in s'.observers && s'.observers[step.t].reader == step.r)
    && (step.Detach? ==> step.t !in s'.observers)
    && (forall r :: r in s.found && step != DropReader(r) ==>
          && r in s'.found && s.found[r].Keys <= s'.found[r].Keys
          && (!step.Load? ==> s'.found[r] == s.found[r]))
    && (step.Load? ==> s'.mem == s.mem && s'.slab == s.slab)
    && s'.slab.capacity == s.slab.capacity
  }

  /** Most steps touch no observer and nothing found. */
  lemma StandBy(s: State, s': State, step: Step)
    requires s'.observers == s.observers && s'.found == s.found && s'.slab.capacity == s.slab.capacity
    requires !step.Attach? && !step.Detach? && !step.Load?
    requires forall r :: Reader(r) in s.chain.holders ==>
               Reader(r) in s'.chain.holders && s'.chain.holders[Reader(r)] == s.chain.holders[Reader(r)]
    ensures Bystanders(s, s', step)
  {
  }

  lemma ChainFrame(s: State, step: Step)
    requires Typed(s) && Enabled(s, step) && (step.LinkGeneration? || step.SwapGeneration? || step.ReleaseGeneration?)
    ensures Bystanders(s, HandleNext(s, step), step)
  {
    StandBy(s, HandleNext(s, step), step);
  }

  lemma DropReaderFrame(s: State, id: nat)
    requires Typed(s) && Enabled(s, DropReader(id))
    ensures Bystanders(s, AfterDrop(s, Reader(id)), DropReader(id))
  {
  }

  lemma DropFrame(s: State, step: Step)
    requires Typed(s) && Enabled(s, step) && (step.DropReader? || step.DropProxy? || step.DropOwner?)
    ensures Bystanders(s, HandleNext(s, step), step)
  {
    if step.DropReader? {
      DropReaderFrame(s, step.id);
    } else {
      StandBy(s, HandleNext(s, step), step);
    }
  }

  lemma NewReaderFrame(s: State, step: Step, id: nat, source: Holder)
    requires Typed(s) && source in s.views && Reader(id) !in s.chain.holders
    requires step == NewReader(id) || (source.Reader? && step == CloneReader(source.id, id))
    ensures Bystanders(s, AfterNewReader(s, id, source), step)
  {
  }

  lemma AttachFrame(s: State, t: nat, r: nat)
    requires Typed(s) && Enabled(s, Attach(t, r))
    ensures Bystanders(s, AfterAttach(s, t, r), Attach(t, r))
  {
  }

  lemma DetachFrame(s: State, t: nat)
    requires t in s.observers
    ensures Bystanders(s, AfterDetach(s, t), Detach(t))
  {
  }

  lemma HandleFrame(s: State, step: Step)
    requires Typed(s) && HandleStep(step) && Enabled(s, step)
    ensures Bystanders(s, HandleNext(s, step), step)
  {
    if step.DropReader? || step.DropProxy? || step.DropOwner? {
      DropFrame(s, step);
    } else if step.NewReader? {
      NewReaderFrame(s, step, step.id, Owner);
    } else if step.CloneReader? {
      NewReaderFrame(s, step, step.id, Reader(step.source));
    } else if step.Attach? {
      AttachFrame(s, step.t, step.r);
    } else if step.Detach? {
      DetachFrame(s, step.t);
    } else {
      ChainFrame(s, step);
    }
  }

  lemma LookingFrame(s: State, t: nat, i: nat, k: nat, v: View, shown: bool)
    requires t in s.observers && s.observers[t].reader in s.found && InRange(s.mem, v) && i < |s.mem.slots|
    ensures Bystanders(s, AfterLooking(s, t, i, v, shown), Load(t, i, k))
  {
  }

  lemma LoadFrame(s: State, t: nat, i: nat, k: nat)
    requires Typed(s) && LoadEnabled(s, t, i, k)
    ensures Bystanders(s, AfterLoad(s, t, i, k), Load(t, i, k))
  {
    assert Observing(s, s.observers[t]);
    AcquireKeepsRange(s.mem, s.observers[t].view, WordOf(i), k);
    LookingFrame(s, t, i, k, Acquire(s.mem, s.observers[t].view, WordOf(i), k), Shows(s.mem, k, i));
  }

  lemma IterationFrame(s: State, step: Step)
    requires Typed(s) && Enabled(s, step) && (step.StartIterMut? || step.Yield? || step.EndEntry?)
    ensures Bystanders(s, AccessNext(s, step), step)
  {
    StandBy(s, AccessNext(s, step), step);
  }

  lemma RecordFrame(s: State, step: Step)
    requires Typed(s) && Enabled(s, step) && (step.Push? || step.FinalizeGeneration? || step.DropStorage?)
    requires ListsAreClean(s) && s.slab.capacity == |s.mem.slots|
    requires WellFormed(s.slab) && MarksInRange(s)
    ensures Bystanders(s, StoreNext(s, step), step)
  {
    StandBy(s, StoreNext(s, step), step);
  }

  lemma StoreFrame(s: State, step: Step)
    requires Typed(s) && !HandleStep(step) && !AccessStep(step) && Enabled(s, step)
    requires WellFormed(s.slab) && s.slab.capacity == |s.mem.slots| && MarksInRange(s) && ListsAreClean(s)
    ensures Bystanders(s, StoreNext(s, step), step)
  {
    if step.Insert? {
      StandBy(s, AfterInsert(s), step);
    } else if step.Mark? {
      StandBy(s, AfterMark(s, step.h, step.i), step);
    } else {
      RecordFrame(s, step);
    }
  }

  lemma StepFrame(s: State, step: Step)
    requires Good(s) && Enabled(s, step)
    ensures Bystanders(s, Next(s, step), step)
  {
    if HandleStep(step) {
      HandleFrame(s, step);
    } else if AccessStep(step) {
      if step.Load? {
        LoadFrame(s, step.t, step.i, step.k);
      } else {
        IterationFrame(s, step);
      }
    } else {
      StoresAreReady(s);
      StoreFrame(s, step);
    }
  }
}
