/** The slab's reader in an `RcuBox`, mutex-and-`Arc` form: the box and every guard count
    a reference to a cell; a cell's last reference drops the reader stored in it. */
module BoxedReader {
  import opened Options
  import opened Paths
  import opened GenerationChain
  import opened StoreHistory
  import opened RcuMachine
  import opened RcuFrames
  import opened RcuTheorems

  /** Who counts a cell: the box, a guard, or a `write` about to drop what it replaced. */
  datatype Ref = InBox | Guard(id: nat) | Replaced(id: nat)

  /** An `Arc` allocation: the reader in it, its count, and whether the reader is gone. */
  datatype Cell = Cell(reader: nat, strong: nat, dropped: bool)

  /** `found`: the key a guard was returned for. A guard's thread is the observer with
      the guard's number. `updating`: the thread whose `update` closure is using the boxed
      reader under the lock, which counts no reference. */
  datatype Boxed =
    Boxed(base: State, cells: seq<Cell>, refs: map<Ref, nat>, found: map<nat, nat>, updating: Option<nat>)

  /** `Elsewhere` is any step of the slab's writer, of other readers, or of destructors. */
  datatype BoxStep =
    | Elsewhere(step: Step)
    | Get(g: nat)
    | Look(t: nat, i: nat, k: nat)
    | Return(g: nat, key: nat)
    | Write(w: nat, r: nat)
    | BeginUpdate(u: nat)
    | EndUpdate(u: nat, w: nat, result: Option<nat>)
    | DropGuard(g: nat)
    | DropReplaced(w: nat)
    | DropValue(c: nat)
    | DropBox

  /** Reader `r` lives in a cell. */
  ghost predicate Owned(cells: seq<Cell>, r: nat) {
    exists c :: 0 <= c < |cells| && !cells[c].dropped && cells[c].reader == r
  }

  ghost predicate CellsOk(cells: seq<Cell>, refs: map<Ref, nat>) {
    && (forall h :: h in refs ==> refs[h] < |cells|)
    && (forall c: nat :: c < |cells| ==> cells[c].strong == |Holding(refs, c)|)
    && (forall c: nat :: c < |cells| && cells[c].dropped ==> cells[c].strong == 0)
    && (forall c: nat, d: nat :: c < d < |cells| && !cells[c].dropped && !cells[d].dropped ==>
          cells[c].reader != cells[d].reader)
  }

  /** Thread `t` uses, through `h`, the reader in the cell that `h` counts. */
  ghost predicate Uses(b: Boxed, t: nat, h: Ref) {
    && h in b.refs && b.refs[h] < |b.cells| && t in b.base.observers
    && b.base.observers[t].reader == b.cells[b.refs[h]].reader
  }

  /** Cells hold live readers, and whoever uses one does so through a guard, or under the
      box's lock. */
  ghost predicate UsersOk(b: Boxed) {
    && (forall r :: Owned(b.cells, r) ==> Reader(r) in b.base.chain.holders)
    && (forall g :: Guard(g) in b.refs ==> Uses(b, g, Guard(g)))
    && (b.updating.Some? ==> Uses(b, b.updating.value, InBox) && Guard(b.updating.value) !in b.refs)
    && (forall t :: t in b.base.observers && Owned(b.cells, b.base.observers[t].reader) ==>
          Guard(t) in b.refs || b.updating == Some(t))
    && (forall g :: g in b.found ==>
          Guard(g) in b.refs && g in b.base.observers && b.found[g] in b.base.observers[g].seen)
  }

  ghost predicate BoxOk(b: Boxed) {
    CellsOk(b.cells, b.refs) && UsersOk(b)
  }

  ghost predicate BoxGood(b: Boxed) {
    Good(b.base) && BoxOk(b)
  }

  /** A new box around a reader nobody is using. */
  ghost function NewBox(s: State, r: nat): Boxed {
    Boxed(s, [Cell(r, 1, false)], map[InBox := 0], map[], None)
  }

  ghost predicate Unused(s: State, r: nat) {
    Reader(r) in s.chain.holders && forall t :: t in s.observers ==> s.observers[t].reader != r
  }

  /** The box's lock is free. */
  ghost predicate Unlocked(b: Boxed) {
    InBox in b.refs && b.updating == None
  }

  /** Reader `r` can be moved into the box by call `w`. */
  ghost predicate Storable(b: Boxed, w: nat, r: nat) {
    Replaced(w) !in b.refs && Unused(b.base, r) && !Owned(b.cells, r)
  }

  /** What ownership and the lock allow: readers in cells, and the threads that use them,
      move by the box's own steps only. */
  ghost predicate Permitted(b: Boxed, step: BoxStep)
    requires BoxOk(b)
  {
    match step
    case Elsewhere(st) =>
      (match st
       case DropReader(id) => !Owned(b.cells, id)
       case Attach(t, r) => !Owned(b.cells, r)
       case Load(t, i, k) => Guard(t) !in b.refs && b.updating != Some(t)
       case Detach(t) => Guard(t) !in b.refs && b.updating != Some(t)
       case _ => true)
    case Get(g) => Unlocked(b) && g !in b.base.observers
    case Look(t, i, k) => Guard(t) in b.refs || b.updating == Some(t)
    case Return(g, key) => Guard(g) in b.refs && g !in b.found && key in b.base.observers[g].seen
    case Write(w, r) => Unlocked(b) && Storable(b, w, r)
    case BeginUpdate(u) => Unlocked(b) && u !in b.base.observers
    case EndUpdate(u, w, result) => b.updating == Some(u) && (result.Some? ==> Storable(b, w, result.value))
    case DropGuard(g) => Guard(g) in b.refs
    case DropReplaced(w) => Replaced(w) in b.refs
    case DropValue(c) => c < |b.cells| && b.cells[c].strong == 0 && !b.cells[c].dropped
    case DropBox => b.refs.Keys == {InBox} && b.updating == None // guards and calls borrow the box
  }

  ghost predicate BoxEnabled(b: Boxed, step: BoxStep)
    requires BoxGood(b)
  {
    && Permitted(b, step)
    && (step.Elsewhere? ==> Enabled(b.base, step.step))
    && (step.Look? ==> Enabled(b.base, Load(step.t, step.i, step.k)))
  }

  /** What the step does to the slab and its handles, if anything. */
  ghost function Underlying(b: Boxed, step: BoxStep): Option<Step>
    requires BoxOk(b) && Permitted(b, step)
  {
    match step
    case Elsewhere(st) => Some(st)
    case Get(g) => Some(Attach(g, b.cells[b.refs[InBox]].reader))
    case Look(t, i, k) => Some(Load(t, i, k))
    case BeginUpdate(u) => Some(Attach(u, b.cells[b.refs[InBox]].reader))
    case EndUpdate(u, w, result) => Some(Detach(u))
    case DropGuard(g) => Some(Detach(g))
    case DropValue(c) => Some(DropReader(b.cells[c].reader))
    case _ => None
  }

  ghost function Counted(cells: seq<Cell>, c: nat, change: int): seq<Cell>
    requires c < |cells| && cells[c].strong + change >= 0
  {
    cells[c := cells[c].(strong := cells[c].strong + change)]
  }

  /** The cells after `h` gives up its reference. */
  ghost function Uncounted(cells: seq<Cell>, refs: map<Ref, nat>, h: Ref): seq<Cell>
    requires CellsOk(cells, refs) && h in refs
  {
    RefIsCounted(cells, refs, h);
    Counted(cells, refs[h], -1)
  }

  ghost function CellsAfter(b: Boxed, step: BoxStep): seq<Cell>
    requires BoxOk(b) && Permitted(b, step)
  {
    match step
    case Get(g) => Counted(b.cells, b.refs[InBox], 1)
    case Write(w, r) => b.cells + [Cell(r, 1, false)]
    case EndUpdate(u, w, Some(r)) => b.cells + [Cell(r, 1, false)]
    case DropGuard(g) => Uncounted(b.cells, b.refs, Guard(g))
    case DropReplaced(w) => Uncounted(b.cells, b.refs, Replaced(w))
    case DropValue(c) => b.cells[c := b.cells[c].(dropped := true)]
    case DropBox => Uncounted(b.cells, b.refs, InBox)
    case _ => b.cells
  }

  ghost function RefsAfter(b: Boxed, step: BoxStep): map<Ref, nat>
    requires BoxOk(b) && Permitted(b, step)
  {
    match step
    case Get(g) => b.refs[Guard(g) := b.refs[InBox]]
    case Write(w, r) => b.refs[Replaced(w) := b.refs[InBox]][InBox := |b.cells|]
    case EndUpdate(u, w, Some(r)) => b.refs[Replaced(w) := b.refs[InBox]][InBox := |b.cells|]
    case DropGuard(g) => b.refs - {Guard(g)}
    case DropReplaced(w) => b.refs - {Replaced(w)}
    case DropBox => b.refs - {InBox}
    case _ => b.refs
  }

  ghost function FoundAfter(b: Boxed, step: BoxStep): map<nat, nat> {
    match step
    case Return(g, key) => b.found[g := key]
    case DropGuard(g) => b.found - {g}
    case _ => b.found
  }

  ghost function UpdatingAfter(b: Boxed, step: BoxStep): Option<nat> {
    match step
    case BeginUpdate(u) => Some(u)
    case EndUpdate(u, w, result) => None
    case _ => b.updating
  }

  /** The box after the step, given what it does underneath. */
  ghost function Around(b: Boxed, step: BoxStep, base: State): Boxed
    requires BoxOk(b) && Permitted(b, step)
  {
    Boxed(base, CellsAfter(b, step), RefsAfter(b, step), FoundAfter(b, step), UpdatingAfter(b, step))
  }

  ghost function BaseAfter(b: Boxed, step: BoxStep): State
    requires BoxGood(b) && BoxEnabled(b, step)
  {
    UnderlyingIsEnabled(b, step);
    match Underlying(b, step)
    case Some(u) => Next(b.base, u)
    case None => b.base
  }

  ghost function BoxNext(b: Boxed, step: BoxStep): Boxed
    requires BoxGood(b) && BoxEnabled(b, step)
  {
    Around(b, step, BaseAfter(b, step))
  }

  lemma RefIsCounted(cells: seq<Cell>, refs: map<Ref, nat>, h: Ref)
    requires CellsOk(cells, refs) && h in refs
    ensures refs[h] < |cells| && cells[refs[h]].strong > 0 && !cells[refs[h]].dropped
  {
    assert h in Holding(refs, refs[h]);
  }

  lemma NoRefToEmpty(cells: seq<Cell>, refs: map<Ref, nat>, c: nat)
    requires CellsOk(cells, refs) && c < |cells| && cells[c].strong == 0
    ensures forall h :: h in refs ==> refs[h] != c
  {
    forall h | h in refs
      ensures refs[h] != c
    {
      RefIsCounted(cells, refs, h);
    }
  }

  /** In particular a cell whose count reached zero can always drop its reader: nobody is
      using it. */
  lemma UnderlyingIsEnabled(b: Boxed, step: BoxStep)
    requires BoxGood(b) && BoxEnabled(b, step)
    ensures Underlying(b, step).Some? ==> Enabled(b.base, Underlying(b, step).value)
  {
    match step
    case Get(g) => CurrentIsLive(b);
    case BeginUpdate(u) => CurrentIsLive(b);
    case DropValue(c) => EmptyCellIsUnused(b, c);
    case _ =>
  }

  lemma CurrentIsLive(b: Boxed)
    requires BoxOk(b) && InBox in b.refs
    ensures Reader(b.cells[b.refs[InBox]].reader) in b.base.chain.holders
  {
    RefIsCounted(b.cells, b.refs, InBox);
    assert Owned(b.cells, b.cells[b.refs[InBox]].reader);
  }

  lemma EmptyCellIsUnused(b: Boxed, c: nat)
    requires BoxOk(b) && c < |b.cells| && b.cells[c].strong == 0 && !b.cells[c].dropped
    ensures Unused(b.base, b.cells[c].reader)
  {
    assert Owned(b.cells, b.cells[c].reader);
    forall t | t in b.base.observers
      ensures b.base.observers[t].reader != b.cells[c].reader
    {
      if b.base.observers[t].reader == b.cells[c].reader {
        RefIsCounted(b.cells, b.refs, if b.updating == Some(t) then InBox else Guard(t));
      }
    }
  }

  // Every step keeps the invariant.

  lemma CellsAfterAdd(cells: seq<Cell>, refs: map<Ref, nat>, h: Ref, c: nat)
    requires CellsOk(cells, refs) && h !in refs && c < |cells| && !cells[c].dropped
    ensures CellsOk(Counted(cells, c, 1), refs[h := c])
  {
    HoldingAfterAdd(refs, h, c);
  }

  lemma CellsAfterRemove(cells: seq<Cell>, refs: map<Ref, nat>, h: Ref)
    requires CellsOk(cells, refs) && h in refs
    ensures CellsOk(Uncounted(cells, refs, h), refs - {h})
  {
    RefIsCounted(cells, refs, h);
    HoldingAfterRemove(refs, h);
  }

  lemma CellsAfterWrite(cells: seq<Cell>, refs: map<Ref, nat>, w: nat, r: nat)
    requires CellsOk(cells, refs) && InBox in refs && Replaced(w) !in refs && !Owned(cells, r)
    ensures CellsOk(cells + [Cell(r, 1, false)], refs[Replaced(w) := refs[InBox]][InBox := |cells|])
  {
    var bare, was := refs - {InBox}, refs[InBox];
    HoldingAfterRemove(refs, InBox);
    HoldingAfterAdd(bare, Replaced(w), was);
    HoldingAfterAdd(bare[Replaced(w) := was], InBox, |cells|);
    assert refs[Replaced(w) := was][InBox := |cells|] == bare[Replaced(w) := was][InBox := |cells|];
    assert Holding(refs, |cells|) == {};
  }

  lemma CellsAfterDropValue(cells: seq<Cell>, refs: map<Ref, nat>, c: nat)
    requires CellsOk(cells, refs) && c < |cells| && cells[c].strong == 0
    ensures CellsOk(cells[c := cells[c].(dropped := true)], refs)
  {
  }

  lemma BoxCellsKept(b: Boxed, step: BoxStep)
    requires BoxOk(b) && Permitted(b, step)
    ensures CellsOk(CellsAfter(b, step), RefsAfter(b, step))
  {
    match step
    case Get(g) =>
      RefIsCounted(b.cells, b.refs, InBox);
      CellsAfterAdd(b.cells, b.refs, Guard(g), b.refs[InBox]);
    case Write(w, r) => CellsAfterWrite(b.cells, b.refs, w, r);
    case EndUpdate(u, w, Some(r)) => CellsAfterWrite(b.cells, b.refs, w, r);
    case DropGuard(g) => CellsAfterRemove(b.cells, b.refs, Guard(g));
    case DropReplaced(w) => CellsAfterRemove(b.cells, b.refs, Replaced(w));
    case DropValue(c) => CellsAfterDropValue(b.cells, b.refs, c);
    case DropBox => CellsAfterRemove(b.cells, b.refs, InBox);
    case _ =>
  }

  lemma OwnedAfterWrite(cells: seq<Cell>, n: nat, r: nat)
    ensures Owned(cells + [Cell(n, 1, false)], r) <==> Owned(cells, r) || r == n
  {
    var more := cells + [Cell(n, 1, false)];
    assert more[|cells|].reader == n;
    if Owned(cells, r) {
      var c :| 0 <= c < |cells| && !cells[c].dropped && cells[c].reader == r;
      assert more[c] == cells[c];
    }
  }

  lemma OwnedCounted(cells: seq<Cell>, c: nat, change: int)
    requires c < |cells| && cells[c].strong + change >= 0
    ensures forall r :: Owned(Counted(cells, c, change), r) <==> Owned(cells, r)
  {
    var cells' := Counted(cells, c, change);
    assert forall d :: 0 <= d < |cells| ==>
      cells'[d].dropped == cells[d].dropped && cells'[d].reader == cells[d].reader;
  }

  /** Slab steps of threads that use no boxed reader, and loads of those that do. */
  lemma UsersThrough(b: Boxed, base': State, step: Step)
    requires UsersOk(b) && Bystanders(b.base, base', step)
    requires step.DropReader? ==> !Owned(b.cells, step.id)
    requires step.Attach? ==> !Owned(b.cells, step.r)
    requires step.Detach? ==> Guard(step.t) !in b.refs && b.updating != Some(step.t)
    ensures UsersOk(b.(base := base'))
  {
    OthersThrough(b, base', step);
    UsesThrough(b, base', step);
    FindingsThrough(b, base', step);
  }

  lemma FindingsThrough(b: Boxed, base': State, step: Step)
    requires Bystanders(b.base, base', step)
    requires step.Detach? ==> Guard(step.t) !in b.refs
    requires forall g :: g in b.found ==>
               Guard(g) in b.refs && g in b.base.observers && b.found[g] in b.base.observers[g].seen
    ensures forall g :: g in b.found ==>
              Guard(g) in b.refs && g in base'.observers && b.found[g] in base'.observers[g].seen
  {
  }

  lemma OthersThrough(b: Boxed, base': State, step: Step)
    requires Bystanders(b.base, base', step) && (step.Attach? ==> !Owned(b.cells, step.r))
    requires forall t :: t in b.base.observers && Owned(b.cells, b.base.observers[t].reader) ==>
               Guard(t) in b.refs || b.updating == Some(t)
    ensures forall t :: t in base'.observers && Owned(b.cells, base'.observers[t].reader) ==>
              Guard(t) in b.refs || b.updating == Some(t)
  {
  }

  lemma UsesThrough(b: Boxed, base': State, step: Step)
    requires Bystanders(b.base, base', step)
    requires step.Detach? ==> Guard(step.t) !in b.refs && b.updating != Some(step.t)
    ensures forall g :: Guard(g) in b.refs && Uses(b, g, Guard(g)) ==> Uses(b.(base := base'), g, Guard(g))
    ensures b.updating.Some? && Uses(b, b.updating.value, InBox) ==> Uses(b.(base := base'), b.updating.value, InBox)
  {
  }

  lemma UsersAfterGet(b: Boxed, base': State, g: nat)
    requires BoxOk(b) && Permitted(b, Get(g))
    requires Bystanders(b.base, base', Attach(g, b.cells[b.refs[InBox]].reader))
    ensures UsersOk(Around(b, Get(g), base'))
  {
    RefIsCounted(b.cells, b.refs, InBox);
    OwnedCounted(b.cells, b.refs[InBox], 1);
  }

  lemma UsersAfterBegin(b: Boxed, base': State, u: nat)
    requires BoxOk(b) && Permitted(b, BeginUpdate(u))
    requires Bystanders(b.base, base', Attach(u, b.cells[b.refs[InBox]].reader))
    ensures UsersOk(Around(b, BeginUpdate(u), base'))
  {
  }

  lemma UsersAfterWrite(b: Boxed, w: nat, r: nat)
    requires BoxOk(b) && Unlocked(b) && Storable(b, w, r)
    ensures UsersOk(b.(cells := b.cells + [Cell(r, 1, false)],
                       refs := b.refs[Replaced(w) := b.refs[InBox]][InBox := |b.cells|]))
  {
    forall q
      ensures Owned(b.cells + [Cell(r, 1, false)], q) <==> Owned(b.cells, q) || q == r
    {
      OwnedAfterWrite(b.cells, r, q);
    }
  }

  /** The closure has finished with the boxed reader. */
  lemma UsersAfterEnd(b: Boxed, base': State, u: nat)
    requires BoxOk(b) && b.updating == Some(u) && Bystanders(b.base, base', Detach(u))
    ensures UsersOk(b.(base := base', updating := None))
  {
  }

  lemma StorableAfterEnd(b: Boxed, base': State, u: nat, w: nat, r: nat)
    requires Storable(b, w, r) && Bystanders(b.base, base', Detach(u))
    ensures Storable(b.(base := base', updating := None), w, r)
  {
  }

  lemma UsersAfterUpdate(b: Boxed, base': State, u: nat, w: nat, result: Option<nat>)
    requires BoxOk(b) && Permitted(b, EndUpdate(u, w, result)) && Bystanders(b.base, base', Detach(u))
    ensures UsersOk(Around(b, EndUpdate(u, w, result), base'))
  {
    UsersAfterEnd(b, base', u);
    if result.Some? {
      StorableAfterEnd(b, base', u, w, result.value);
      UsersAfterWrite(b.(base := base', updating := None), w, result.value);
    }
  }

  /** Giving up a reference that is not a guard's. */
  lemma UsersAfterRelease(b: Boxed, h: Ref)
    requires BoxOk(b) && h in b.refs && !h.Guard? && (h == InBox ==> b.updating == None)
    ensures UsersOk(b.(cells := Uncounted(b.cells, b.refs, h), refs := b.refs - {h}))
  {
    RefIsCounted(b.cells, b.refs, h);
    OwnedCounted(b.cells, b.refs[h], -1);
  }

  lemma UsersAfterDropGuard(b: Boxed, base': State, g: nat)
    requires BoxOk(b) && Guard(g) in b.refs && Bystanders(b.base, base', Detach(g))
    ensures UsersOk(Around(b, DropGuard(g), base'))
  {
    RefIsCounted(b.cells, b.refs, Guard(g));
    OwnedCounted(b.cells, b.refs[Guard(g)], -1);
  }

  lemma UsersAfterDropValue(b: Boxed, base': State, c: nat)
    requires BoxOk(b) && Permitted(b, DropValue(c))
    requires Bystanders(b.base, base', DropReader(b.cells[c].reader))
    ensures UsersOk(Around(b, DropValue(c), base'))
  {
    var cells' := b.cells[c := b.cells[c].(dropped := true)];
    forall r | Owned(cells', r)
      ensures Owned(b.cells, r) && r != b.cells[c].reader
    {
      var d :| 0 <= d < |b.cells| && d != c && !b.cells[d].dropped && b.cells[d].reader == r;
      assert b.cells[d].reader != b.cells[c].reader;
    }
    NoRefToEmpty(b.cells, b.refs, c);
  }

  lemma UsersKept(b: Boxed, step: BoxStep, base': State)
    requires BoxOk(b) && Permitted(b, step)
    requires match Underlying(b, step)
             case Some(u) => Bystanders(b.base, base', u)
             case None => base' == b.base
    ensures UsersOk(Around(b, step, base'))
  {
    match step
    case Elsewhere(st) => UsersThrough(b, base', st);
    case Get(g) => UsersAfterGet(b, base', g);
    case Look(t, i, k) => UsersThrough(b, base', Load(t, i, k));
    case Return(g, key) =>
    case Write(w, r) => UsersAfterWrite(b, w, r);
    case BeginUpdate(u) => UsersAfterBegin(b, base', u);
    case EndUpdate(u, w, result) => UsersAfterUpdate(b, base', u, w, result);
    case DropGuard(g) => UsersAfterDropGuard(b, base', g);
    case DropReplaced(w) => UsersAfterRelease(b, Replaced(w));
    case DropValue(c) => UsersAfterDropValue(b, base', c);
    case DropBox => UsersAfterRelease(b, InBox);
  }

  lemma BaseKept(b: Boxed, step: BoxStep)
    requires BoxGood(b) && BoxEnabled(b, step)
    ensures Good(BaseAfter(b, step))
    ensures match Underlying(b, step)
            case Some(u) => Bystanders(b.base, BaseAfter(b, step), u)
            case None => BaseAfter(b, step) == b.base
  {
    UnderlyingIsEnabled(b, step);
    if Underlying(b, step).Some? {
      StepKeeps(b.base, Underlying(b, step).value);
      StepFrame(b.base, Underlying(b, step).value);
    }
  }

  /** Every step of the box, or of anything around it, keeps the invariant. */
  lemma BoxStepKeeps(b: Boxed, step: BoxStep)
    requires BoxGood(b) && BoxEnabled(b, step)
    ensures BoxGood(BoxNext(b, step))
  {
    BaseKept(b, step);
    BoxCellsKept(b, step);
    UsersKept(b, step, BaseAfter(b, step));
  }

  // Runs.

  ghost predicate BoxTakes(b: Boxed, step: BoxStep, b': Boxed) {
    BoxGood(b) && BoxEnabled(b, step) && b' == BoxNext(b, step)
  }

  ghost predicate BoxRuns(b: Boxed, steps: seq<BoxStep>, b': Boxed) {
    Path(BoxTakes, b, steps, b')
  }

  lemma NewBoxIsGood(s: State, r: nat)
    requires Good(s) && Unused(s, r)
    ensures BoxGood(NewBox(s, r))
  {
    NewBoxIsOk(s, r);
  }

  lemma NewBoxIsOk(s: State, r: nat)
    requires Unused(s, r)
    ensures BoxOk(NewBox(s, r))
  {
    assert Holding(NewBox(s, r).refs, 0) == {InBox};
  }

  /** A reader just created can be put in a box. */
  lemma ReaderCanBeBoxed(s: State, r: nat)
    requires Good(s) && Enabled(s, NewReader(r))
    ensures BoxGood(NewBox(Next(s, NewReader(r)), r))
  {
    StepKeeps(s, NewReader(r));
    NewReaderIsUnused(s, r);
    NewBoxIsGood(Next(s, NewReader(r)), r);
  }

  lemma NewReaderIsUnused(s: State, r: nat)
    requires Typed(s) && Enabled(s, NewReader(r))
    ensures Unused(AfterNewReader(s, r, Owner), r)
  {
    forall t | t in s.observers
      ensures s.observers[t].reader != r
    {
      assert Observing(s, s.observers[t]);
    }
  }

  /** What a guard returned by a lookup dereferences to. */
  ghost predicate Dereferences(b: Boxed, g: nat, key: nat, item: nat) {
    && Guard(g) in b.refs && g in b.found && b.found[g] == key && Reads(b.base, g, key, item)
  }

  ghost predicate Reads(s: State, t: nat, key: nat, item: nat) {
    && t in s.observers && InRange(s.mem, s.observers[t].view) && key < |s.mem.slots|
    && ReadSlot(s.mem, s.observers[t].view, key) == Put(item)
    && key in s.slab.items && s.slab.items[key] == item
    && key in s.observers[t].seen && s.observers[t].seen[key] == Put(item)
  }

  lemma SeenIsRead(s: State, t: nat, i: nat)
    requires ReferencesOk(s) && Mirrors(s.mem, s.slab) && t in s.observers && i in s.observers[t].seen
    ensures i in s.slab.items && Reads(s, t, i, s.slab.items[i])
  {
    assert ObserverHolds(s, t, i);
    LastSlotStore(s.mem, s.slab, i);
  }

  /** A guard returned for a key dereferences to the item its lookup found. */
  lemma LookupDereferences(b: Boxed, g: nat, key: nat)
    requires BoxGood(b) && BoxEnabled(b, Return(g, key))
    ensures BoxGood(BoxNext(b, Return(g, key)))
    ensures exists item :: b.base.observers[g].seen[key] == Put(item)
                           && Dereferences(BoxNext(b, Return(g, key)), g, key, item)
  {
    BoxStepKeeps(b, Return(g, key));
    SeenIsRead(b.base, g, key);
    assert Dereferences(BoxNext(b, Return(g, key)), g, key, b.base.slab.items[key]);
  }

  lemma GuardStays(b: Boxed, step: BoxStep, g: nat)
    requires BoxOk(b) && Permitted(b, step) && step != DropGuard(g) && Guard(g) in b.refs && g in b.found
    ensures Underlying(b, step) != Some(Detach(g))
    ensures Guard(g) in RefsAfter(b, step) && g in FoundAfter(b, step) && FoundAfter(b, step)[g] == b.found[g]
  {
  }

  lemma ReadsThroughStep(s: State, step: Step, t: nat, key: nat, item: nat)
    requires Good(s) && Enabled(s, step) && step != Detach(t) && Reads(s, t, key, item)
    ensures Reads(Next(s, step), t, key, item)
  {
    ReferencesThroughStep(s, step, t, key);
    SeenIsRead(Next(s, step), t, key);
  }

  lemma DereferencesThrough(b: Boxed, step: BoxStep, g: nat, key: nat, item: nat)
    requires BoxGood(b) && BoxEnabled(b, step) && step != DropGuard(g) && Dereferences(b, g, key, item)
    ensures BoxGood(BoxNext(b, step)) && Dereferences(BoxNext(b, step), g, key, item)
  {
    BoxStepKeeps(b, step);
    UnderlyingIsEnabled(b, step);
    GuardStays(b, step, g);
    if Underlying(b, step).Some? {
      ReadsThroughStep(b.base, Underlying(b, step).value, g, key, item);
    }
  }

  /** For its whole life a guard dereferences to the item its lookup found, whatever is
      written to the box or updated in it, marked, advanced, finalized, inserted, cloned or
      dropped in the meantime, by whatever threads. */
  lemma GuardsDereference(b: Boxed, steps: seq<BoxStep>, b': Boxed, g: nat, key: nat, item: nat)
    requires BoxGood(b) && BoxRuns(b, steps, b') && DropGuard(g) !in steps && Dereferences(b, g, key, item)
    ensures Dereferences(b', g, key, item)
  {
    forall a, step, c | BoxTakes(a, step, c) && step != DropGuard(g) && Dereferences(a, g, key, item)
      ensures Dereferences(c, g, key, item)
    {
      DereferencesThrough(a, step, g, key, item);
    }
    assert forall k :: 0 <= k < |steps| ==> steps[k] in steps;
    PathKeeps(BoxTakes, step => step != DropGuard(g), x => Dereferences(x, g, key, item), b, steps, b');
  }

  /** While an `update` runs its closure, the box keeps the very reader the closure sees,
      which is then the one replaced. */
  ghost predicate Updating(b: Boxed, u: nat, c: nat, r: nat) {
    && b.updating == Some(u) && InBox in b.refs && b.refs[InBox] == c < |b.cells| && b.cells[c].reader == r
    && u in b.base.observers && b.base.observers[u].reader == r
  }

  ghost predicate EndsUpdate(step: BoxStep) { step.EndUpdate? }

  lemma UpdatingThrough(b: Boxed, step: BoxStep, u: nat, c: nat, r: nat)
    requires BoxGood(b) && BoxEnabled(b, step) && !EndsUpdate(step) && Updating(b, u, c, r)
    ensures Updating(BoxNext(b, step), u, c, r)
  {
    BaseKept(b, step);
    BoxStepKeeps(b, step);
    UpdateStays(b, step, u);
  }

  lemma UpdateStays(b: Boxed, step: BoxStep, u: nat)
    requires BoxOk(b) && Permitted(b, step) && !EndsUpdate(step) && b.updating == Some(u)
    ensures UpdatingAfter(b, step) == Some(u) && Underlying(b, step) != Some(Detach(u))
    ensures InBox in RefsAfter(b, step) && RefsAfter(b, step)[InBox] == b.refs[InBox]
    ensures b.refs[InBox] < |CellsAfter(b, step)|
    ensures CellsAfter(b, step)[b.refs[InBox]].reader == b.cells[b.refs[InBox]].reader
  {
  }

  lemma UpdatesAreAtomic(b: Boxed, steps: seq<BoxStep>, b': Boxed, u: nat, c: nat, r: nat)
    requires BoxGood(b) && BoxRuns(b, steps, b') && Updating(b, u, c, r)
    requires forall k :: 0 <= k < |steps| ==> !EndsUpdate(steps[k])
    ensures Updating(b', u, c, r)
  {
    forall a, step, d | BoxTakes(a, step, d) && !EndsUpdate(step) && Updating(a, u, c, r)
      ensures Updating(d, u, c, r)
    {
      UpdatingThrough(a, step, u, c, r);
    }
    PathKeeps(BoxTakes, step => !EndsUpdate(step), x => Updating(x, u, c, r), b, steps, b');
  }

  // What the box holds.

  /** The box holds reader `r`, and `r` is alive. */
  ghost predicate Holds(b: Boxed, r: nat) {
    && InBox in b.refs && b.refs[InBox] < |b.cells| && b.cells[b.refs[InBox]].reader == r
    && !b.cells[b.refs[InBox]].dropped && Reader(r) in b.base.chain.holders
  }

  /** A `write` of `r`, or an `update` whose closure returns it. */
  ghost predicate Installs(step: BoxStep, r: nat) {
    (step.Write? && step.r == r) || (step.EndUpdate? && step.result == Some(r))
  }

  ghost predicate Replaces(step: BoxStep) {
    step.Write? || (step.EndUpdate? && step.result.Some?) || step.DropBox?
  }

  lemma CurrentIsHeld(b: Boxed)
    requires BoxOk(b) && InBox in b.refs
    ensures b.refs[InBox] < |b.cells| && Holds(b, b.cells[b.refs[InBox]].reader)
  {
    RefIsCounted(b.cells, b.refs, InBox);
    CurrentIsLive(b);
  }

  lemma InstalledCell(b: Boxed, step: BoxStep, r: nat)
    requires BoxOk(b) && Permitted(b, step) && Installs(step, r)
    ensures InBox in b.refs && InBox in RefsAfter(b, step)
    ensures RefsAfter(b, step)[InBox] < |CellsAfter(b, step)|
    ensures CellsAfter(b, step)[RefsAfter(b, step)[InBox]].reader == r
    ensures b.refs[InBox] < |b.cells| <= |CellsAfter(b, step)|
    ensures CellsAfter(b, step)[b.refs[InBox]] == b.cells[b.refs[InBox]]
    ensures Replaced(step.w) !in b.refs && Replaced(step.w) in RefsAfter(b, step)
    ensures RefsAfter(b, step)[Replaced(step.w)] == b.refs[InBox]
  {
    RefIsCounted(b.cells, b.refs, InBox);
  }

  /** A `write` or a successful `update` puts its reader in the box; the one before stays as
      it was until the call drops it. */
  lemma InstallsItsReader(b: Boxed, step: BoxStep, r: nat)
    requires BoxGood(b) && BoxEnabled(b, step) && Installs(step, r)
    ensures BoxGood(BoxNext(b, step)) && Holds(BoxNext(b, step), r)
    ensures var b' := BoxNext(b, step);
            InBox in b.refs && Replaced(step.w) in b'.refs && b'.refs[Replaced(step.w)] == b.refs[InBox]
  {
    BoxStepKeeps(b, step);
    InstalledCell(b, step, r);
    CurrentIsHeld(BoxNext(b, step));
  }

  lemma SameCell(b: Boxed, step: BoxStep)
    requires BoxOk(b) && Permitted(b, step) && !Replaces(step) && InBox in b.refs && b.refs[InBox] < |b.cells|
    ensures InBox in RefsAfter(b, step) && RefsAfter(b, step)[InBox] == b.refs[InBox]
    ensures b.refs[InBox] < |CellsAfter(b, step)|
    ensures CellsAfter(b, step)[b.refs[InBox]].reader == b.cells[b.refs[InBox]].reader
  {
  }

  /** Nothing else changes what the box holds, a declined `update` included. */
  lemma HoldsThrough(b: Boxed, step: BoxStep, r: nat)
    requires BoxGood(b) && BoxEnabled(b, step) && !Replaces(step) && Holds(b, r)
    ensures BoxGood(BoxNext(b, step)) && Holds(BoxNext(b, step), r)
    ensures BoxNext(b, step).refs[InBox] == b.refs[InBox]
  {
    BoxStepKeeps(b, step);
    SameCell(b, step);
    CurrentIsHeld(BoxNext(b, step));
  }

  lemma DeclinedLeavesTheBox(b: Boxed, u: nat, w: nat)
    requires BoxGood(b) && BoxEnabled(b, EndUpdate(u, w, None))
    ensures var b' := BoxNext(b, EndUpdate(u, w, None)); b'.cells == b.cells && b'.refs == b.refs
  {
  }

  lemma HeldUntilReplaced(b: Boxed, steps: seq<BoxStep>, b': Boxed, r: nat)
    requires BoxGood(b) && BoxRuns(b, steps, b') && Holds(b, r)
    requires forall k :: 0 <= k < |steps| ==> !Replaces(steps[k])
    ensures BoxGood(b') && Holds(b', r)
  {
    forall a, step, d | BoxTakes(a, step, d) && !Replaces(step) && BoxGood(a) && Holds(a, r)
      ensures BoxGood(d) && Holds(d, r)
    {
      HoldsThrough(a, step, r);
    }
    PathKeeps(BoxTakes, step => !Replaces(step), x => BoxGood(x) && Holds(x, r), b, steps, b');
  }

  /** The reader a step looks up in the box. */
  lemma LooksThroughHeld(b: Boxed, step: BoxStep, t: nat, r: nat)
    requires BoxGood(b) && BoxEnabled(b, step) && Holds(b, r) && (step == Get(t) || step == BeginUpdate(t))
    ensures var b' := BoxNext(b, step);
            && t in b'.base.observers && b'.base.observers[t].reader == r
            && (step == Get(t) ==> Guard(t) in b'.refs && b'.refs[Guard(t)] == b.refs[InBox])
  {
    UnderlyingIsEnabled(b, step);
  }

  /** What was written last is what is read: after a `write` of reader `r`, or an `update`
      whose closure returned it, and over every run without another, each `get` gives its
      thread reader `r`, and so does each `update` its closure. */
  lemma GetsSeeTheLastWrite(b: Boxed, step: BoxStep, r: nat, steps: seq<BoxStep>, b': Boxed, look: BoxStep, t: nat)
    requires BoxGood(b) && BoxEnabled(b, step) && Installs(step, r) && BoxRuns(BoxNext(b, step), steps, b')
    requires forall k :: 0 <= k < |steps| ==> !Replaces(steps[k])
    requires BoxGood(b') && BoxEnabled(b', look) && (look == Get(t) || look == BeginUpdate(t))
    ensures Holds(b', r)
    ensures t in BoxNext(b', look).base.observers && BoxNext(b', look).base.observers[t].reader == r
  {
    InstallsItsReader(b, step, r);
    HeldUntilReplaced(BoxNext(b, step), steps, b', r);
    LooksThroughHeld(b', look, t, r);
  }

  /** Thread `t` has found the item slot `i` held. */
  ghost predicate Finds(s: State, s': State, t: nat, i: nat) {
    && i in s.slab.items && t in s'.observers && i in s'.observers[t].seen
    && s'.observers[t].seen[i] == Put(s.slab.items[i])
  }

  lemma LoadsFind(s: State, t: nat, i: nat, k: nat)
    requires Good(s) && Enabled(s, Load(t, i, k)) && Shows(s.mem, k, i)
    ensures Finds(s, Next(s, Load(t, i, k)), t, i)
  {
    LoadsAreSound(s, t, i, k);
    assert Next(s, Load(t, i, k)) == AfterLoad(s, t, i, k);
  }

  lemma LookIsLoad(b: Boxed, step: BoxStep)
    requires BoxGood(b) && step.Look? && BoxEnabled(b, step)
    ensures BaseAfter(b, step) == Next(b.base, Load(step.t, step.i, step.k))
  {
  }

  /** A lookup through a guard, or by an `update`'s closure, that loads a flag set finds the
      item the slot holds. */
  lemma LookupsFind(b: Boxed, step: BoxStep)
    requires BoxGood(b) && step.Look? && BoxEnabled(b, step) && Shows(b.base.mem, step.k, step.i)
    ensures Finds(b.base, BoxNext(b, step).base, step.t, step.i)
  {
    LookIsLoad(b, step);
    LoadsFind(b.base, step.t, step.i, step.k);
  }

  // What becomes of readers no longer held.

  /** The drop of a cell's last reference drops the reader in it. */
  lemma ReaderGoesWithItsCell(b: Boxed, c: nat)
    requires BoxGood(b) && BoxEnabled(b, DropValue(c))
    ensures var b' := BoxNext(b, DropValue(c));
            && Reader(b.cells[c].reader) in b.base.chain.holders
            && b'.base.chain.holders == b.base.chain.holders - {Reader(b.cells[c].reader)}
            && b'.cells == b.cells[c := b.cells[c].(dropped := true)] && b'.refs == b.refs
  {
    UnderlyingIsEnabled(b, DropValue(c));
    assert BaseAfter(b, DropValue(c)) == AfterDrop(b.base, Reader(b.cells[c].reader));
  }

  /** A cell nobody counts any more has lost its reader or can drop it now. */
  lemma NothingLeaks(b: Boxed, c: nat)
    requires BoxGood(b) && c < |b.cells| && forall h :: h in b.refs ==> b.refs[h] != c
    ensures b.cells[c].dropped || BoxEnabled(b, DropValue(c))
  {
    assert Holding(b.refs, c) == {};
  }
}
