/** Runs of any machine given by the steps it can take. */
module Paths {
  /** The k-th step leads from the k-th state to the next. */
  ghost predicate Moves<S(!new), L(!new)>(takes: (S, L, S) -> bool, states: seq<S>, steps: seq<L>, k: nat) {
    k < |steps| && k + 1 < |states| && takes(states[k], steps[k], states[k + 1])
  }

  ghost predicate Trace<S(!new), L(!new)>(takes: (S, L, S) -> bool, states: seq<S>, steps: seq<L>) {
    && |states| == |steps| + 1
    && forall k: nat {:trigger Moves(takes, states, steps, k)} :: k < |steps| ==> Moves(takes, states, steps, k)
  }

  /** Taking `steps` in order can lead from `s` to `s'`. */
  ghost predicate Path<S(!new), L(!new)>(takes: (S, L, S) -> bool, s: S, steps: seq<L>, s': S) {
    exists states :: Trace(takes, states, steps) && states[0] == s && states[|steps|] == s'
  }

  lemma PathNone<S(!new), L(!new)>(takes: (S, L, S) -> bool, s: S)
    ensures Path(takes, s, [], s)
  {
    assert Trace<S, L>(takes, [s], []);
  }

  lemma PathOne<S(!new), L(!new)>(takes: (S, L, S) -> bool, s: S, step: L, s': S)
    requires takes(s, step, s')
    ensures Path(takes, s, [step], s')
  {
    assert Trace(takes, [s, s'], [step]);
  }

  lemma PathThenPath<S(!new), L(!new)>(
    takes: (S, L, S) -> bool, s: S, steps: seq<L>, m: S, more: seq<L>, s': S)
    requires Path(takes, s, steps, m) && Path(takes, m, more, s')
    ensures Path(takes, s, steps + more, s')
  {
    var a :| Trace(takes, a, steps) && a[0] == s && a[|steps|] == m;
    var b :| Trace(takes, b, more) && b[0] == m && b[|more|] == s';
    var states, all := a + b[1..], steps + more;
    forall k: nat | k < |all|
      ensures Moves(takes, states, all, k)
    {
      assert if k < |steps| then Moves(takes, a, steps, k) else Moves(takes, b, more, k - |steps|);
    }
    assert Trace(takes, states, all);
  }

  lemma PathTwo<S(!new), L(!new)>(takes: (S, L, S) -> bool, s: S, a: L, m: S, b: L, s': S)
    requires takes(s, a, m) && takes(m, b, s')
    ensures Path(takes, s, [a, b], s')
  {
    PathOne(takes, s, a, m);
    PathOne(takes, m, b, s');
    PathThenPath(takes, s, [a], m, [b], s');
    assert [a] + [b] == [a, b];
  }

  /** A step at the start. */
  lemma PathFirst<S(!new), L(!new)>(takes: (S, L, S) -> bool, s: S, step: L, m: S, more: seq<L>, s': S)
    requires takes(s, step, m) && Path(takes, m, more, s')
    ensures Path(takes, s, [step] + more, s')
  {
    PathOne(takes, s, step, m);
    PathThenPath(takes, s, [step], m, more, s');
  }

  /** A step at the end. */
  lemma PathThenOne<S(!new), L(!new)>(takes: (S, L, S) -> bool, s: S, steps: seq<L>, m: S, step: L, s': S)
    requires Path(takes, s, steps, m) && takes(m, step, s')
    ensures Path(takes, s, steps + [step], s')
  {
    PathOne(takes, m, step, s');
    PathThenPath(takes, s, steps, m, [step], s');
  }

  /** What every allowed step keeps. */
  ghost predicate Keeps<S(!new), L(!new)>(takes: (S, L, S) -> bool, allowed: L -> bool, holds: S -> bool) {
    forall s, step, s' :: takes(s, step, s') && allowed(step) && holds(s) ==> holds(s')
  }

  /** Every run of allowed steps keeps it too. */
  lemma PathKeeps<S(!new), L(!new)>(
    takes: (S, L, S) -> bool, allowed: L -> bool, holds: S -> bool, s: S, steps: seq<L>, s': S)
    requires Keeps(takes, allowed, holds) && holds(s) && Path(takes, s, steps, s')
    requires forall k :: 0 <= k < |steps| ==> allowed(steps[k])
    ensures holds(s')
  {
    var states :| Trace(takes, states, steps) && states[0] == s && states[|steps|] == s';
    TraceKeeps(takes, allowed, holds, states, steps, |steps|);
  }

  lemma {:induction false} TraceKeeps<S(!new), L(!new)>(
    takes: (S, L, S) -> bool, allowed: L -> bool, holds: S -> bool, states: seq<S>, steps: seq<L>, k: nat)
    requires Keeps(takes, allowed, holds) && Trace(takes, states, steps) && holds(states[0]) && k <= |steps|
    requires forall j :: 0 <= j < |steps| ==> allowed(steps[j])
    ensures holds(states[k])
  {
    if k > 0 {
      TraceKeeps(takes, allowed, holds, states, steps, k - 1);
      assert Moves(takes, states, steps, k - 1);
    }
  }
}
