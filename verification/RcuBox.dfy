/** The box itself: a shared cell replaced under a lock, and reference-counted guards.
    Each method is one critical section, with the drop that follows it. */
module RcuBoxes {
  import opened Options
  import opened BoxUpdates

  class Arc<T> {
    const value: T
    var strong: nat

    constructor (value: T)
      ensures this.value == value && strong == 1
    {
      this.value := value;
      strong := 1;
    }
  }

  class RcuBox<T(!new)> {
    var cell: Arc<T>
    /** the cells of the guards not yet dropped, one entry for each guard */
    ghost var guards: multiset<Arc<T>>

    /** Every counted reference is the box's or a guard's. */
    ghost predicate Valid()
      reads this, cell, set arc | arc in guards
    {
      && (forall arc :: arc in guards ==> arc.strong == guards[arc] + if arc == cell then 1 else 0)
      && cell.strong == guards[cell] + 1
    }

    constructor (value: T)
      ensures Valid() && cell.value == value && guards == multiset{} && fresh(cell)
    {
      cell := new Arc(value);
      guards := multiset{};
    }

    method Get() returns (guard: Arc<T>)
      requires Valid()
      modifies this`guards, cell
      ensures Valid() && guard == old(cell) == cell && guards == old(guards) + multiset{guard}
    {
      guard := cell;
      cell.strong := cell.strong + 1;
      guards := guards + multiset{guard};
    }

    /** A guard's end: the last reference to its cell drops the value. */
    method Release(guard: Arc<T>) returns (dropped: Option<T>)
      requires Valid() && guard in guards
      modifies this`guards, guard
      ensures Valid() && cell == old(cell) && guards == old(guards) - multiset{guard}
      ensures dropped == if guard != cell && guard !in guards then Some(guard.value) else None
    {
      guard.strong := guard.strong - 1;
      guards := guards - multiset{guard};
      dropped := if guard.strong == 0 then Some(guard.value) else None;
    }

    method Inspect<U>(f: T -> U) returns (result: U)
      requires Valid()
      modifies this`guards, cell
      ensures Valid() && cell == old(cell) && guards == old(guards) && result == f(cell.value)
    {
      var arc := Get();
      result := f(arc.value);
      var dropped := Release(arc);
    }

    /** What it replaces outlives the call exactly when some guard still counts it. */
    method Write(value: T) returns (dropped: Option<T>)
      requires Valid()
      modifies this`cell, cell
      ensures Valid() && fresh(cell) && cell.value == value && guards == old(guards)
      ensures dropped == if old(cell) in guards then None else Some(old(cell).value)
    {
      var was := cell;
      cell := new Arc(value);
      was.strong := was.strong - 1;
      dropped := if was.strong == 0 then Some(was.value) else None;
    }

    /** The closure sees the value it replaces; if it declines, nothing changes. */
    method Update(f: T -> Option<T>) returns (ok: bool, dropped: Option<T>)
      requires Valid()
      modifies this`cell, cell
      ensures Valid() && guards == old(guards)
      ensures ok == Reports(Change(f), old(cell.value)).ok && cell.value == Effect(Change(f), old(cell.value))
      ensures ok ==> fresh(cell)
      ensures !ok ==> cell == old(cell) && cell.strong == old(cell.strong)
      ensures dropped == if ok && old(cell) !in guards then Some(old(cell).value) else None
    {
      match f(cell.value)
      case None => return false, None;
      case Some(value) =>
        dropped := Write(value);
        ok := true;
    }
  }
}
