/** State machines and their runs: what some list of steps leads to. */
module Runs {

  /** Where a machine starts, which steps it can take, and where they lead. */
  datatype Machine<!S, !T> = Machine(start: S -> bool, can: (S, T) -> bool, next: (S, T) -> S)

  /** The steps can happen one after the other from s. */
  ghost predicate Can<S(!new), T(!new)>(m: Machine<S, T>, s: S, steps: seq<T>)
    decreases |steps|
  {
    steps == [] || (m.can(s, steps[0]) && Can(m, m.next(s, steps[0]), steps[1..]))
  }

  ghost function Play<S(!new), T(!new)>(m: Machine<S, T>, s: S, steps: seq<T>): S
    requires Can(m, s, steps)
    decreases |steps|
  {
    if steps == [] then s else Play(m, m.next(s, steps[0]), steps[1..])
  }

  ghost predicate Reachable<S(!new), T(!new)>(m: Machine<S, T>, s: S) {
    exists init, steps :: m.start(init) && Can(m, init, steps) && Play(m, init, steps) == s
  }

  /** Every step keeps the property. */
  ghost predicate Inductive<S(!new), T(!new)>(m: Machine<S, T>, inv: S -> bool) {
    forall s, t :: inv(s) && m.can(s, t) ==> inv(m.next(s, t))
  }

  /** What every step keeps, every run keeps. */
  lemma {:induction false} RunKeeps<S(!new), T(!new)>(m: Machine<S, T>, inv: S -> bool, s: S, steps: seq<T>)
    requires Inductive(m, inv) && inv(s) && Can(m, s, steps)
    ensures inv(Play(m, s, steps))
    decreases |steps|
  {
    if steps != [] {
      RunKeeps(m, inv, m.next(s, steps[0]), steps[1..]);
    }
  }

  /** What holds at the start and is kept by every step holds wherever a run can lead. */
  lemma ReachableKeeps<S(!new), T(!new)>(m: Machine<S, T>, inv: S -> bool, s: S)
    requires Inductive(m, inv) && Reachable(m, s)
    requires forall init :: m.start(init) ==> inv(init)
    ensures inv(s)
  {
    var init, steps :| m.start(init) && Can(m, init, steps) && Play(m, init, steps) == s;
    RunKeeps(m, inv, init, steps);
  }

  lemma {:induction false} PlayOn<S(!new), T(!new)>(m: Machine<S, T>, s: S, a: seq<T>, b: seq<T>)
    requires Can(m, s, a) && Can(m, Play(m, s, a), b)
    ensures Can(m, s, a + b) && Play(m, s, a + b) == Play(m, Play(m, s, a), b)
    decreases |a|
  {
    if a == [] {
      assert a + b == b;
    } else {
      assert (a + b)[0] == a[0] && (a + b)[1..] == a[1..] + b;
      PlayOn(m, m.next(s, a[0]), a[1..], b);
    }
  }

  /** The start is reachable, and so is what one more step leads to. */
  lemma StartReached<S(!new), T(!new)>(m: Machine<S, T>, s: S)
    requires m.start(s)
    ensures Reachable(m, s)
  {
    assert Can(m, s, []) && Play(m, s, []) == s;
  }

  lemma StepReached<S(!new), T(!new)>(m: Machine<S, T>, s: S, t: T)
    requires Reachable(m, s) && m.can(s, t)
    ensures Reachable(m, m.next(s, t))
  {
    var init, steps :| m.start(init) && Can(m, init, steps) && Play(m, init, steps) == s;
    var n := m.next(s, t);
    assert [t][1..] == [] && Can(m, n, []) && Play(m, n, []) == n;
    assert Can(m, s, [t]);
    assert Play(m, s, [t]) == Play(m, n, [t][1..]);
    PlayOn(m, init, steps, [t]);
  }

  /** Some list of steps leads from s to t. */
  ghost predicate Leads<S(!new), T(!new)>(m: Machine<S, T>, s: S, t: S) {
    exists steps :: Can(m, s, steps) && Play(m, s, steps) == t
  }

  lemma LeadsHere<S(!new), T(!new)>(m: Machine<S, T>, s: S)
    ensures Leads(m, s, s)
  {
    assert Can(m, s, []) && Play(m, s, []) == s;
  }

  lemma LeadsOn<S(!new), T(!new)>(m: Machine<S, T>, s: S, step: T, t: S)
    requires m.can(s, step) && Leads(m, m.next(s, step), t)
    ensures Leads(m, s, t)
  {
    var rest :| Can(m, m.next(s, step), rest) && Play(m, m.next(s, step), rest) == t;
    var steps := [step] + rest;
    assert steps[0] == step && steps[1..] == rest;
    assert Can(m, s, steps);
    assert Play(m, s, steps) == Play(m, m.next(s, step), rest);
  }
}
