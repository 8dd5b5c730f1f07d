/** Concurrent `write`, `update`, `get` and `inspect` calls on one `RcuBox`, mutex-and-`Arc`
    form, one step per lock operation, evaluation of the closure, or replacement. */
module BoxUpdates {
  import opened Options
  import opened Paths
  import opened SlabSpec

  datatype Call<!T> = Store(value: T) | Change(f: T -> Option<T>) | Fetch

  /** What a call reports: success, and for a fetch the value. */
  datatype Answer<T> = Answer(ok: bool, got: Option<T>)

  /** Where a thread's call is. `Computed`: the closure has run, still under the lock.
      `Done`: the call has taken effect, still under the lock. */
  datatype Phase<T> =
    | Waiting
    | Locked
    | Computed(next: Option<T>)
    | Done(answer: Answer<T>)
    | Returned(answer: Answer<T>)

  /** `after`: the threads whose calls had returned when this one began. */
  datatype Thread<!T> = Thread(call: Call<T>, phase: Phase<T>, after: set<nat>)

  /** `log`: the calls that have taken effect, by thread number, in the order in which they
      held the lock. */
  datatype Box<!T> = Box(value: T, lock: Option<nat>, threads: map<nat, Thread<T>>, log: seq<nat>)

  datatype Move<!T> =
    | Begin(t: nat, call: Call<T>)
    | Acquire(t: nat)
    | Compute(t: nat)
    | Replace(t: nat)
    | Release(t: nat)

  ghost function Opened<T(!new)>(value: T): Box<T> { Box(value, None, map[], []) }

  ghost function HaveReturned<T(!new)>(threads: map<nat, Thread<T>>): set<nat> {
    set t | t in threads && threads[t].phase.Returned?
  }

  ghost predicate CanMove<T(!new)>(b: Box<T>, m: Move<T>) {
    match m
    case Begin(t, call) => t !in b.threads
    case Acquire(t) => t in b.threads && b.threads[t].phase == Waiting && b.lock == None
    case Compute(t) => t in b.threads && b.threads[t].phase == Locked
    case Replace(t) => t in b.threads && b.threads[t].phase.Computed?
    case Release(t) => t in b.threads && b.threads[t].phase.Done?
  }

  ghost function Moved<T(!new)>(b: Box<T>, m: Move<T>): Box<T>
    requires CanMove(b, m)
  {
    match m
    case Begin(t, call) => b.(threads := b.threads[t := Thread(call, Waiting, HaveReturned(b.threads))])
    case Acquire(t) => At(b, t, Locked).(lock := Some(t))
    case Compute(t) =>
      (match b.threads[t].call
       case Store(v) => At(b, t, Computed(Some(v)))
       case Change(f) => At(b, t, Computed(f(b.value)))
       case Fetch => At(b, t, Done(Answer(true, Some(b.value)))).(log := b.log + [t]))
    case Replace(t) =>
      (match b.threads[t].phase.next
       case Some(v) => At(b, t, Done(Answer(true, None))).(value := v, log := b.log + [t])
       case None => At(b, t, Done(Answer(false, None))).(log := b.log + [t]))
    case Release(t) => At(b, t, Returned(b.threads[t].phase.answer)).(lock := None)
  }

  ghost function At<T(!new)>(b: Box<T>, t: nat, phase: Phase<T>): Box<T>
    requires t in b.threads
  {
    b.(threads := b.threads[t := b.threads[t].(phase := phase)])
  }

  // One call after the other.

  /** What a call makes of the value it finds. */
  ghost function Effect<T(!new)>(call: Call<T>, value: T): T {
    match call
    case Store(v) => v
    case Change(f) => (match f(value) case Some(v) => v case None => value)
    case Fetch => value
  }

  /** What it then reports. */
  ghost function Reports<T(!new)>(call: Call<T>, value: T): Answer<T> {
    match call
    case Store(v) => Answer(true, None)
    case Change(f) => Answer(f(value).Some?, None)
    case Fetch => Answer(true, Some(value))
  }

  /** The value after the logged calls, made one after the other on `init`. */
  ghost function Replayed<T(!new)>(init: T, threads: map<nat, Thread<T>>, log: seq<nat>): T
    requires forall k :: 0 <= k < |log| ==> log[k] in threads
  {
    if log == [] then init
    else Effect(threads[log[|log| - 1]].call, Replayed(init, threads, log[..|log| - 1]))
  }

  // The invariant.

  ghost predicate Finished<T(!new)>(phase: Phase<T>) { phase.Done? || phase.Returned? }

  ghost predicate Inside<T(!new)>(phase: Phase<T>) { phase.Locked? || phase.Computed? || phase.Done? }

  /** The log lists, once each, the calls that have taken effect. */
  ghost predicate Logged<T(!new)>(threads: map<nat, Thread<T>>, log: seq<nat>) {
    && NoDuplicates(log) && (forall k :: 0 <= k < |log| ==> log[k] in threads)
    && (forall t :: t in threads ==> (Finished(threads[t].phase) <==> t in log))
  }

  ghost predicate Exclusive<T(!new)>(b: Box<T>) {
    && (b.lock.Some? ==> b.lock.value in b.threads)
    && (forall t :: t in b.threads ==> (Inside(b.threads[t].phase) <==> b.lock == Some(t)))
  }

  /** A closure evaluated under the lock has seen the value it is about to replace. */
  ghost predicate Fresh<T(!new)>(th: Thread<T>, value: T) {
    th.phase.Computed? ==>
      match th.call
      case Store(v) => th.phase.next == Some(v)
      case Change(f) => th.phase.next == f(value)
      case Fetch => false
  }

  /** The k-th logged call reported what it would have, made after those before it. */
  ghost predicate Faithful<T(!new)>(init: T, threads: map<nat, Thread<T>>, log: seq<nat>, k: nat)
    requires forall j :: 0 <= j < |log| ==> log[j] in threads
  {
    k < |log| && Finished(threads[log[k]].phase)
    && threads[log[k]].phase.answer == Reports(threads[log[k]].call, Replayed(init, threads, log[..k]))
  }

  /** A call that had returned when another began is before it in the log. */
  ghost predicate RealTime<T(!new)>(threads: map<nat, Thread<T>>, log: seq<nat>) {
    && (forall t, u :: t in threads && u in threads[t].after ==> u in threads && threads[u].phase.Returned?)
    && forall j, k ::
         0 <= j < |log| && 0 <= k < |log| && log[k] in threads && log[j] in threads[log[k]].after ==> j < k
  }

  ghost predicate Linear<T(!new)>(init: T, b: Box<T>) {
    && Logged(b.threads, b.log) && Exclusive(b) && RealTime(b.threads, b.log)
    && (forall t :: t in b.threads ==> Fresh(b.threads[t], b.value))
    && b.value == Replayed(init, b.threads, b.log)
    && forall k: nat :: k < |b.log| ==> Faithful(init, b.threads, b.log, k)
  }

  // Replaying depends on the logged calls only.

  ghost predicate SameCalls<T(!new)>(threads: map<nat, Thread<T>>, threads': map<nat, Thread<T>>) {
    forall t :: t in threads ==> t in threads' && threads'[t].call == threads[t].call
  }

  lemma {:induction false} ReplayFrame<T(!new)>(
    init: T, threads: map<nat, Thread<T>>, threads': map<nat, Thread<T>>, log: seq<nat>)
    requires SameCalls(threads, threads') && forall k :: 0 <= k < |log| ==> log[k] in threads
    ensures Replayed(init, threads', log) == Replayed(init, threads, log)
  {
    if log != [] {
      ReplayFrame(init, threads, threads', log[..|log| - 1]);
    }
  }

  // Steps that log nothing.

  /** Only thread `t` moves, without taking effect, or begins. */
  ghost predicate Quiet<T(!new)>(b: Box<T>, b': Box<T>, t: nat) {
    && b'.log == b.log && b'.value == b.value && SameCalls(b.threads, b'.threads)
    && b'.threads.Keys == b.threads.Keys + {t}
    && (forall u :: u in b.threads && u != t ==> b'.threads[u] == b.threads[u])
    && (t in b.threads ==> b'.threads[t].after == b.threads[t].after)
    && (t in b.threads && Finished(b.threads[t].phase) ==>
          b'.threads[t].phase == Returned(b.threads[t].phase.answer))
    && (t !in b.threads || !Finished(b.threads[t].phase) ==> !Finished(b'.threads[t].phase))
    && (t !in b.threads ==> b'.threads[t].after == HaveReturned(b.threads))
  }

  lemma QuietLogged<T(!new)>(b: Box<T>, b': Box<T>, t: nat)
    requires Logged(b.threads, b.log) && Quiet(b, b', t)
    ensures Logged(b'.threads, b'.log)
  {
    assert forall k :: 0 <= k < |b.log| ==> b.log[k] in b.log;
  }

  lemma QuietRealTime<T(!new)>(b: Box<T>, b': Box<T>, t: nat)
    requires Logged(b.threads, b.log) && RealTime(b.threads, b.log) && Quiet(b, b', t)
    ensures RealTime(b'.threads, b'.log)
  {
    assert forall k :: 0 <= k < |b.log| ==> b.log[k] in b.log && b.log[k] in b.threads;
  }

  lemma QuietFaithful<T(!new)>(init: T, b: Box<T>, b': Box<T>, t: nat, k: nat)
    requires Logged(b.threads, b.log) && Logged(b'.threads, b'.log) && Quiet(b, b', t)
    requires k < |b.log| && Faithful(init, b.threads, b.log, k)
    ensures Faithful(init, b'.threads, b'.log, k)
  {
    ReplayFrame(init, b.threads, b'.threads, b.log[..k]);
  }

  lemma QuietKeeps<T(!new)>(init: T, b: Box<T>, b': Box<T>, t: nat)
    requires Linear(init, b) && Quiet(b, b', t)
    requires Exclusive(b') && forall u :: u in b'.threads ==> Fresh(b'.threads[u], b'.value)
    ensures Linear(init, b')
  {
    QuietLogged(b, b', t);
    QuietRealTime(b, b', t);
    ReplayFrame(init, b.threads, b'.threads, b.log);
    forall k: nat | k < |b.log|
      ensures Faithful(init, b'.threads, b'.log, k)
    {
      QuietFaithful(init, b, b', t, k);
    }
  }

  // Steps in which a call takes effect.

  /** Thread `t`'s call, holding the lock, takes effect and will report it. */
  ghost predicate TakesEffect<T(!new)>(b: Box<T>, b': Box<T>, t: nat) {
    && t in b.threads && b.lock == Some(t) && !Finished(b.threads[t].phase)
    && b' == Box(Effect(b.threads[t].call, b.value), b.lock,
                 b.threads[t := b.threads[t].(phase := Done(Reports(b.threads[t].call, b.value)))], b.log + [t])
  }

  lemma EffectLogged<T(!new)>(b: Box<T>, b': Box<T>, t: nat)
    requires Logged(b.threads, b.log) && TakesEffect(b, b', t)
    ensures Logged(b'.threads, b'.log)
  {
    assert forall k :: 0 <= k < |b.log| ==> b.log[k] in b.log;
  }

  lemma EffectRealTime<T(!new)>(b: Box<T>, b': Box<T>, t: nat)
    requires Logged(b.threads, b.log) && RealTime(b.threads, b.log) && TakesEffect(b, b', t)
    ensures RealTime(b'.threads, b'.log)
  {
    assert forall k :: 0 <= k < |b.log| ==> b.log[k] in b.log && b.log[k] in b.threads;
  }

  lemma EffectFaithful<T(!new)>(init: T, b: Box<T>, b': Box<T>, t: nat, k: nat)
    requires Linear(init, b) && TakesEffect(b, b', t) && Logged(b'.threads, b'.log) && k < |b'.log|
    ensures Faithful(init, b'.threads, b'.log, k)
  {
    assert b'.log[..k] == b.log[..k];
    ReplayFrame(init, b.threads, b'.threads, b.log[..k]);
    if k < |b.log| {
      assert Faithful(init, b.threads, b.log, k) && b.log[k] in b.log;
    } else {
      assert b.log[..k] == b.log;
    }
  }

  lemma EffectKeeps<T(!new)>(init: T, b: Box<T>, b': Box<T>, t: nat)
    requires Linear(init, b) && TakesEffect(b, b', t)
    ensures Linear(init, b')
  {
    EffectLogged(b, b', t);
    EffectRealTime(b, b', t);
    ReplayFrame(init, b.threads, b'.threads, b.log);
    assert b'.log[..|b'.log| - 1] == b.log;
    forall k: nat | k < |b'.log|
      ensures Faithful(init, b'.threads, b'.log, k)
    {
      EffectFaithful(init, b, b', t, k);
    }
  }

  ghost predicate Decides<T(!new)>(b: Box<T>, m: Move<T>)
    requires CanMove(b, m)
  {
    m.Replace? || (m.Compute? && b.threads[m.t].call.Fetch?)
  }

  lemma MoveTakesEffect<T(!new)>(b: Box<T>, m: Move<T>)
    requires Exclusive(b) && CanMove(b, m) && Decides(b, m) && Fresh(b.threads[m.t], b.value)
    ensures TakesEffect(b, Moved(b, m), m.t)
  {
  }

  lemma MoveIsQuiet<T(!new)>(b: Box<T>, m: Move<T>)
    requires Exclusive(b) && CanMove(b, m) && !Decides(b, m)
    requires forall t :: t in b.threads ==> Fresh(b.threads[t], b.value)
    ensures var b' := Moved(b, m);
            Quiet(b, b', m.t) && Exclusive(b') && forall t :: t in b'.threads ==> Fresh(b'.threads[t], b'.value)
  {
  }

  lemma MoveKeeps<T(!new)>(init: T, b: Box<T>, m: Move<T>)
    requires Linear(init, b) && CanMove(b, m)
    ensures Linear(init, Moved(b, m))
  {
    if Decides(b, m) {
      MoveTakesEffect(b, m);
      EffectKeeps(init, b, Moved(b, m), m.t);
    } else {
      MoveIsQuiet(b, m);
      QuietKeeps(init, b, Moved(b, m), m.t);
    }
  }

  // Runs.

  ghost predicate Steps<T(!new)>(b: Box<T>, m: Move<T>, b': Box<T>) {
    CanMove(b, m) && b' == Moved(b, m)
  }

  ghost predicate Reached<T(!new)>(init: T, b: Box<T>) {
    exists moves :: Path(Steps<T>, Opened(init), moves, b)
  }

  lemma ReachedIsLinear<T(!new)>(init: T, b: Box<T>)
    requires Reached(init, b)
    ensures Linear(init, b)
  {
    var moves :| Path(Steps<T>, Opened(init), moves, b);
    forall a, m, c | Steps(a, m, c) && Linear(init, a)
      ensures Linear(init, c)
    {
      MoveKeeps(init, a, m);
    }
    PathKeeps(Steps<T>, _ => true, x => Linear(init, x), Opened(init), moves, b);
  }

  /** The values the box has had: `values[k]` before the k-th logged call, which made
      `values[k + 1]` of it. A `write` leaves what it was given, an `update` what its closure
      makes of the value or, declined, the value, and a `get` changes nothing and reports the
      value. */
  ghost predicate Chronicle<T(!new)>(init: T, b: Box<T>, values: seq<T>) {
    && |values| == |b.log| + 1 && values[0] == init && values[|b.log|] == b.value
    && forall k: nat {:trigger Chapter(b, values, k)} :: k < |b.log| ==> Chapter(b, values, k)
  }

  ghost predicate Chapter<T(!new)>(b: Box<T>, values: seq<T>, k: nat) {
    && k < |b.log| && k + 1 < |values| && b.log[k] in b.threads && Finished(b.threads[b.log[k]].phase)
    && var answer := b.threads[b.log[k]].phase.answer;
       match b.threads[b.log[k]].call
       case Store(v) => values[k + 1] == v && answer == Answer(true, None)
       case Change(f) =>
         (match f(values[k])
          case Some(v) => values[k + 1] == v && answer == Answer(true, None)
          case None => values[k + 1] == values[k] && answer == Answer(false, None))
       case Fetch => values[k + 1] == values[k] && answer == Answer(true, Some(values[k]))
  }

  /** No call is lost, in any interleaving. The calls that have returned, and perhaps one
      more that has taken effect, have an order, the log, with these properties: each is in
      it once; the box had a value before each, from the initial one to the present one, of
      which the call made the next and on which it reported; and a call that returned before
      another began comes before it. */
  lemma UpdatesAreNeverLost<T(!new)>(init: T, b: Box<T>) returns (values: seq<T>)
    requires Reached(init, b)
    ensures NoDuplicates(b.log) && forall k :: 0 <= k < |b.log| ==> b.log[k] in b.threads
    ensures forall t :: t in b.threads && b.threads[t].phase.Returned? ==> t in b.log
    ensures Chronicle(init, b, values)
    ensures b.value == Replayed(init, b.threads, b.log)
    ensures forall k :: 0 <= k < |b.log| ==>
              var th := b.threads[b.log[k]];
              Finished(th.phase) && th.phase.answer == Reports(th.call, Replayed(init, b.threads, b.log[..k]))
    ensures forall j, k :: 0 <= j < |b.log| && 0 <= k < |b.log| && b.log[j] in b.threads[b.log[k]].after ==> j < k
  {
    ReachedIsLinear(init, b);
    forall k | 0 <= k < |b.log|
      ensures var th := b.threads[b.log[k]];
              Finished(th.phase) && th.phase.answer == Reports(th.call, Replayed(init, b.threads, b.log[..k]))
    {
      assert Faithful(init, b.threads, b.log, k);
    }
    values := ChronicleOf(init, b);
  }

  lemma ChronicleOf<T(!new)>(init: T, b: Box<T>) returns (values: seq<T>)
    requires Linear(init, b)
    ensures Chronicle(init, b, values)
    ensures forall k :: 0 <= k < |b.log| ==> values[k] == Replayed(init, b.threads, b.log[..k])
  {
    var log := b.log;
    values := seq(|log| + 1, k requires 0 <= k <= |log| => Replayed(init, b.threads, log[..k]));
    assert log[..|log|] == log;
    forall k: nat | k < |log|
      ensures Chapter(b, values, k)
    {
      assert Faithful(init, b.threads, log, k);
      assert log[..k + 1][..k] == log[..k];
    }
  }

  /** A `write` that has returned took effect: it reported success, and the box held its
      value before the next logged call, or still does. */
  lemma WritesTakeEffect<T(!new)>(init: T, b: Box<T>, t: nat) returns (values: seq<T>, k: nat)
    requires Reached(init, b) && t in b.threads && b.threads[t].call.Store? && b.threads[t].phase.Returned?
    ensures t in b.log && b.threads[t].phase.answer == Answer(true, None)
    ensures Chronicle(init, b, values) && k < |b.log| && b.log[k] == t && values[k + 1] == b.threads[t].call.value
  {
    values := UpdatesAreNeverLost(init, b);
    k :| 0 <= k < |b.log| && b.log[k] == t;
    assert Chapter(b, values, k);
  }

  /** The calls logged from the j-th on, before the k-th, are all fetches. */
  ghost predicate OnlyFetches<T(!new)>(b: Box<T>, j: nat, k: nat) {
    forall i :: j <= i < k <= |b.log| && b.log[i] in b.threads ==> b.threads[b.log[i]].call.Fetch?
  }

  lemma {:induction false} FetchesKeep<T(!new)>(init: T, b: Box<T>, values: seq<T>, j: nat, k: nat)
    requires Chronicle(init, b, values) && j <= k <= |b.log| && OnlyFetches(b, j, k)
    ensures values[k] == values[j]
    decreases k
  {
    if j < k {
      FetchesKeep(init, b, values, j, k - 1);
      assert Chapter(b, values, k - 1);
    }
  }

  /** When the last logged call that is no `get` is a `write`, the box holds its value. */
  lemma LastWriteStands<T(!new)>(init: T, b: Box<T>, j: nat)
    requires Reached(init, b) && j < |b.log| && b.log[j] in b.threads && b.threads[b.log[j]].call.Store?
    requires OnlyFetches(b, j + 1, |b.log|)
    ensures b.value == b.threads[b.log[j]].call.value
  {
    var values := UpdatesAreNeverLost(init, b);
    assert Chapter(b, values, j);
    FetchesKeep(init, b, values, j + 1, |b.log|);
  }

  /** A `get` logged after a `write`, with only others of its kind between, reported the
      value written. */
  lemma GetsReadWrites<T(!new)>(init: T, b: Box<T>, j: nat, k: nat)
    requires Reached(init, b) && j < k < |b.log| && b.log[j] in b.threads && b.log[k] in b.threads
    requires b.threads[b.log[j]].call.Store? && b.threads[b.log[k]].call.Fetch? && OnlyFetches(b, j + 1, k)
    ensures Finished(b.threads[b.log[k]].phase)
    ensures b.threads[b.log[k]].phase.answer == Answer(true, Some(b.threads[b.log[j]].call.value))
  {
    var values := UpdatesAreNeverLost(init, b);
    assert Chapter(b, values, j) && Chapter(b, values, k);
    FetchesKeep(init, b, values, j + 1, k);
  }

  /** An `update` logged last, after a `write` with only `get`s between, leaves what its
      closure makes of the value written, or that value if it declined. */
  lemma UpdatesSeeWrites<T(!new)>(init: T, b: Box<T>, j: nat)
    requires Reached(init, b) && j + 1 < |b.log|
    requires var k := |b.log| - 1;
             && b.log[j] in b.threads && b.log[k] in b.threads
             && b.threads[b.log[j]].call.Store? && b.threads[b.log[k]].call.Change? && OnlyFetches(b, j + 1, k)
    ensures var written, made := b.threads[b.log[j]].call.value,
                                 b.threads[b.log[|b.log| - 1]].call.f(b.threads[b.log[j]].call.value);
            b.value == if made.Some? then made.value else written
  {
    var values := UpdatesAreNeverLost(init, b);
    var k := |b.log| - 1;
    assert Chapter(b, values, j) && Chapter(b, values, k);
    FetchesKeep(init, b, values, j + 1, k);
  }

  /** An `update` that has returned failed if and only if its closure declined the value it
      was given, which is what the calls before it had made. */
  lemma UpdatesFailOnlyIfDeclined<T(!new)>(init: T, b: Box<T>, t: nat) returns (values: seq<T>, k: nat)
    requires Reached(init, b) && t in b.threads && b.threads[t].call.Change? && b.threads[t].phase.Returned?
    ensures Chronicle(init, b, values) && k < |b.log| && b.log[k] == t
    ensures forall j :: 0 <= j < |b.log| ==> b.log[j] in b.threads
    ensures values[k] == Replayed(init, b.threads, b.log[..k])
    ensures b.threads[t].phase.answer.ok <==> b.threads[t].call.f(values[k]).Some?
  {
    ReachedIsLinear(init, b);
    values := ChronicleOf(init, b);
    k :| 0 <= k < |b.log| && b.log[k] == t;
    assert Chapter(b, values, k);
  }

  /** When all calls have returned and each was an `update` that adds one, the value has
      grown by their number. */
  lemma CounterCountsCalls(init: int, b: Box<int>)
    requires Reached(init, b)
    requires forall t :: t in b.threads ==>
               && b.threads[t].phase.Returned? && b.threads[t].call.Change?
               && forall v :: b.threads[t].call.f(v) == Some(v + 1)
    ensures b.value == init + |b.threads|
  {
    var values := UpdatesAreNeverLost(init, b);
    CountedByLog(init, b.threads, b.log);
    CountNoDuplicates(b.log);
    assert Elements(b.log) == b.threads.Keys;
  }

  lemma {:induction false} CountedByLog(init: int, threads: map<nat, Thread<int>>, log: seq<nat>)
    requires forall k :: 0 <= k < |log| ==> log[k] in threads
    requires forall t :: t in threads ==> threads[t].call.Change? && forall v :: threads[t].call.f(v) == Some(v + 1)
    ensures Replayed(init, threads, log) == init + |log|
  {
    if log != [] {
      CountedByLog(init, threads, log[..|log| - 1]);
    }
  }
}
