/** The cron engine of cron/engine: any number of engines, each with its overlap guard, its
    count of active runs and its shutdown latch, share one lock with a time to live. A run
    moves through the middleware chain one atomic step at a time, and the steps of all runs
    of all engines interleave freely. */
module CronEngine {
  import opened Wrappers
  import opened Runs
  import opened Counting

  type Job = string
  type EngineId = nat
  type RunId = nat
  type GrantId = nat

  /** FixedLockTTLBuffer, in seconds. */
  const BUFFER: int := 15

  // ---------------------------------------------------------------- state

  /** Where a run is: the chain is overlap guard, toggler, locker, handler, and on the way
      out the deferred unlock, the deferred guard removal and the deferred Done. */
  datatype Phase =
    | Counted // admitted and counted, its context is not made yet
    | Admitted // on its way to the guard
    | Guarded // its name is in the in-flight set
    | Locking // the toggler let it pass
    | Locked(grant: GrantId) // the lock is held, the handler has not started
    | Handling(held: Option<GrantId>) // the handler executes
    | Unlocking(token: GrantId) // the handler is over, however it ended
    | Unguarding // only the guard and the count are left to undo
    | Leaving // only the count is left to undo
    | Finished

  /** `deadline` is that of the run's context, once it is made: at most `timeout` after that
      moment. Until then it says nothing. */
  datatype Run = Run(engine: EngineId, job: Job, timeout: int, deadline: int, phase: Phase)

  datatype Stopper = NotStopped | Waiting | StoppedNil | StoppedLate

  datatype Eng = Eng(stopping: bool, active: int, inFlight: set<Job>, locker: bool, stopper: Stopper)

  /** A granted lock. `unlocks` counts the calls of Unlock on its token. */
  datatype Grant = Grant(key: Job, owner: RunId, expires: int, released: bool, unlocks: nat)

  datatype State = State(
    engines: map<EngineId, Eng>,
    runs: map<RunId, Run>,
    grants: map<GrantId, Grant>,
    now: int)

  predicate Live(g: Grant, now: int) { !g.released && now < g.expires }

  // ---------------------------------------------------------------- steps

  datatype Step =
    | Tick(to: int)
    | Admit(engine: EngineId, run: RunId, job: Job, timeout: int)
    | MakeContext(run: RunId, deadline: int)
    | GiveUp(run: RunId) // a panic before the guard, in the tracer or the logger
    | PassGuard(run: RunId)
    | FailGuard(run: RunId)
    | ToggledOn(run: RunId)
    | ToggledOff(run: RunId) // disabled, or the toggler panicked
    | Grants(run: RunId, grant: GrantId)
    | Refuses(run: RunId) // held, failed, no token, or the locker panicked
    | Begin(run: RunId)
    | Abort(run: RunId) // a panic between the lock and the handler
    | End(run: RunId) // the handler returned, or its panic was recovered
    | Unlock(run: RunId, ok: bool) // Unlock was called; it may fail or panic
    | Unguard(run: RunId)
    | Leave(run: RunId)
    | Stop(engine: EngineId)
    | StopNil(engine: EngineId)
    | StopLate(engine: EngineId)
    | StopAgain(engine: EngineId) // a further call, which returns nil at once

  predicate InPhase(s: State, r: RunId, p: Phase) { r in s.runs && s.runs[r].phase == p }

  /** When a step may happen. `Tick` and `Begin` carry the assumption on handlers: none
      executes at or after its context deadline plus the buffer. `Grants` carries the
      assumption on the lock: it grants a key only when no unexpired, unreleased grant of
      that key exists. */
  ghost predicate Enabled(s: State, step: Step) {
    match step
    case Tick(to) =>
      s.now <= to && forall r :: r in s.runs && s.runs[r].phase.Handling? ==> to < s.runs[r].deadline + BUFFER
    case Admit(e, r, _, _) => e in s.engines && !s.engines[e].stopping && r !in s.runs
    case MakeContext(r, deadline) => InPhase(s, r, Counted) && deadline <= s.now + s.runs[r].timeout
    case GiveUp(r) => InPhase(s, r, Admitted)
    case PassGuard(r) =>
      InPhase(s, r, Admitted) && s.runs[r].engine in s.engines && s.runs[r].job !in s.engines[s.runs[r].engine].inFlight
    case FailGuard(r) =>
      InPhase(s, r, Admitted) && s.runs[r].engine in s.engines && s.runs[r].job in s.engines[s.runs[r].engine].inFlight
    case ToggledOn(r) =>
      InPhase(s, r, Guarded) && s.runs[r].engine in s.engines
      && (!s.engines[s.runs[r].engine].locker ==> s.now < s.runs[r].deadline + BUFFER)
    case ToggledOff(r) => InPhase(s, r, Guarded)
    case Grants(r, g) =>
      InPhase(s, r, Locking) && g !in s.grants
      && forall h :: h in s.grants && s.grants[h].key == s.runs[r].job ==> !Live(s.grants[h], s.now)
    case Refuses(r) => InPhase(s, r, Locking)
    case Begin(r) => r in s.runs && s.runs[r].phase.Locked? && s.now < s.runs[r].deadline + BUFFER
    case Abort(r) => r in s.runs && s.runs[r].phase.Locked?
    case End(r) => r in s.runs && s.runs[r].phase.Handling?
    case Unlock(r, _) => r in s.runs && s.runs[r].phase.Unlocking? && s.runs[r].phase.token in s.grants
    case Unguard(r) => InPhase(s, r, Unguarding) && s.runs[r].engine in s.engines
    case Leave(r) => InPhase(s, r, Leaving) && s.runs[r].engine in s.engines
    case Stop(e) => e in s.engines && !s.engines[e].stopping
    case StopNil(e) => e in s.engines && s.engines[e].stopper == Waiting && s.engines[e].active == 0
    case StopLate(e) => e in s.engines && s.engines[e].stopper == Waiting
    case StopAgain(e) => e in s.engines && s.engines[e].stopping
  }

  function At(s: State, r: RunId, p: Phase): State
    requires r in s.runs
  {
    s.(runs := s.runs[r := s.runs[r].(phase := p)])
  }

  function Set(s: State, e: EngineId, eng: Eng): State {
    s.(engines := s.engines[e := eng])
  }

  // The atomic changes to an engine.

  function Enter(e: Eng): Eng { e.(active := e.active + 1) }

  function Depart(e: Eng): Eng { e.(active := e.active - 1) }

  function Store(e: Eng, job: Job): Eng { e.(inFlight := e.inFlight + {job}) }

  function Delete(e: Eng, job: Job): Eng { e.(inFlight := e.inFlight - {job}) }

  function Latch(e: Eng): Eng { e.(stopping := true, stopper := Waiting) }

  function Apply(s: State, step: Step): State
    requires Enabled(s, step)
  {
    match step
    case Tick(to) => s.(now := to)
    case Admit(e, r, job, timeout) =>
      Set(s.(runs := s.runs[r := Run(e, job, timeout, s.now, Counted)]), e, Enter(s.engines[e]))
    case MakeContext(r, deadline) =>
      s.(runs := s.runs[r := s.runs[r].(deadline := deadline, phase := Admitted)])
    case GiveUp(r) => At(s, r, Leaving)
    case PassGuard(r) =>
      Set(At(s, r, Guarded), s.runs[r].engine, Store(s.engines[s.runs[r].engine], s.runs[r].job))
    case FailGuard(r) => At(s, r, Leaving)
    case ToggledOn(r) => At(s, r, if s.engines[s.runs[r].engine].locker then Locking else Handling(None))
    case ToggledOff(r) => At(s, r, Unguarding)
    case Grants(r, g) =>
      var grant := Grant(s.runs[r].job, r, s.now + s.runs[r].timeout + BUFFER, false, 0);
      At(s, r, Locked(g)).(grants := s.grants[g := grant])
    case Refuses(r) => At(s, r, Unguarding)
    case Begin(r) => At(s, r, Handling(Some(s.runs[r].phase.grant)))
    case Abort(r) => At(s, r, Unlocking(s.runs[r].phase.grant))
    case End(r) =>
      var held := s.runs[r].phase.held;
      At(s, r, if held.Some? then Unlocking(held.value) else Unguarding)
    case Unlock(r, ok) =>
      var g := s.runs[r].phase.token;
      var was := s.grants[g];
      At(s, r, Unguarding).(grants := s.grants[g := was.(unlocks := was.unlocks + 1, released := was.released || ok)])
    case Unguard(r) =>
      Set(At(s, r, Leaving), s.runs[r].engine, Delete(s.engines[s.runs[r].engine], s.runs[r].job))
    case Leave(r) => Set(At(s, r, Finished), s.runs[r].engine, Depart(s.engines[s.runs[r].engine]))
    case Stop(e) => Set(s, e, Latch(s.engines[e]))
    case StopNil(e) => Set(s, e, s.engines[e].(stopper := StoppedNil))
    case StopLate(e) => Set(s, e, s.engines[e].(stopper := StoppedLate))
    case StopAgain(_) => s
  }

  // ---------------------------------------------------------------- invariant

  predicate PastGuard(p: Phase) { !p.Counted? && !p.Admitted? && !p.Leaving? && !p.Finished? }

  predicate SameJob(a: Run, b: Run) { a.engine == b.engine && a.job == b.job }

  /** The grant a run holds. */
  function HeldBy(p: Phase): Option<GrantId> {
    match p
    case Locked(g) => Some(g)
    case Handling(h) => h
    case Unlocking(g) => Some(g)
    case _ => None
  }

  function Unfinished(e: EngineId): Run -> bool {
    (r: Run) => r.engine == e && !r.phase.Finished?
  }

  /** The count of an engine is the number of its runs that have not left. */
  ghost predicate CountsOk(s: State) {
    && (forall r :: r in s.runs ==> s.runs[r].engine in s.engines)
    && (forall e :: e in s.engines ==> s.engines[e].active == Tally(s.runs, Unfinished(e)))
    && (forall e :: e in s.engines ==> (s.engines[e].stopping <==> !s.engines[e].stopper.NotStopped?))
    && (forall e :: e in s.engines && s.engines[e].stopper == StoppedNil ==> s.engines[e].active == 0)
  }

  /** A job is in the in-flight set of an engine iff exactly one run is past the guard. */
  ghost predicate GuardOk(s: State) {
    && (forall r :: r in s.runs ==> s.runs[r].engine in s.engines)
    && (forall r :: r in s.runs && PastGuard(s.runs[r].phase) ==> s.runs[r].job in s.engines[s.runs[r].engine].inFlight)
    && (forall r, q :: r in s.runs && q in s.runs && r != q && SameJob(s.runs[r], s.runs[q]) ==>
          !(PastGuard(s.runs[r].phase) && PastGuard(s.runs[q].phase)))
    && (forall e, j :: e in s.engines && j in s.engines[e].inFlight ==>
          exists r :: r in s.runs && s.runs[r].engine == e && s.runs[r].job == j && PastGuard(s.runs[r].phase))
  }

  /** A run's context ends within its timeout from now. */
  predicate DeadlineOk(r: Run, now: int) { !r.phase.Counted? ==> r.deadline <= now + r.timeout }

  /** A run that holds a grant owns it, for its job, unreleased and for longer than it lives. */
  predicate HolderOk(s: State, r: RunId)
    requires r in s.runs
  {
    var held := HeldBy(s.runs[r].phase);
    held.Some? ==>
      && held.value in s.grants
      && var g := s.grants[held.value];
      g.owner == r && g.key == s.runs[r].job && !g.released && g.expires >= s.runs[r].deadline + BUFFER
  }

  /** A grant has been unlocked once, unless its owner still holds it. */
  predicate UnlockOk(s: State, g: GrantId)
    requires g in s.grants
  {
    && s.grants[g].owner in s.runs
    && s.grants[g].unlocks == (if HeldBy(s.runs[s.grants[g].owner].phase) == Some(g) then 0 else 1)
  }

  /** A grant belongs to one run, which holds it until it calls Unlock, once. */
  ghost predicate GrantsOk(s: State) {
    && (forall r :: r in s.runs ==> DeadlineOk(s.runs[r], s.now))
    && (forall r :: r in s.runs ==> HolderOk(s, r))
    && (forall g :: g in s.grants ==> UnlockOk(s, g))
  }

  /** At most one live grant per key. */
  ghost predicate LockOk(s: State) {
    forall g, h :: g in s.grants && h in s.grants && g != h && s.grants[g].key == s.grants[h].key
      ==> !(Live(s.grants[g], s.now) && Live(s.grants[h], s.now))
  }

  /** No handler outlives its context by the buffer or more. */
  ghost predicate Timely(s: State) {
    forall r :: r in s.runs && s.runs[r].phase.Handling? ==> s.now < s.runs[r].deadline + BUFFER
  }

  /** On an engine with a locker every handler executes under a grant. */
  ghost predicate LockerUsed(s: State) {
    forall r :: r in s.runs && s.runs[r].phase.Handling? && s.runs[r].engine in s.engines ==>
      (s.engines[s.runs[r].engine].locker ==> s.runs[r].phase.held.Some?)
  }

  ghost predicate Inv(s: State) {
    CountsOk(s) && GuardOk(s) && GrantsOk(s) && LockOk(s) && Timely(s) && LockerUsed(s)
  }

  /** Engines that have run nothing. */
  predicate Init(s: State) {
    s.runs == map[] && s.grants == map[]
    && forall e :: e in s.engines ==>
         var g := s.engines[e];
         !g.stopping && g.active == 0 && g.inFlight == {} && g.stopper == NotStopped
  }

  lemma InitInv(s: State)
    requires Init(s)
    ensures Inv(s)
  {
    forall e | e in s.engines ensures s.engines[e].active == Tally(s.runs, Unfinished(e)) {
      TallyNone(s.runs, Unfinished(e));
    }
  }

  // ---------------------------------------------------------------- every step keeps it

  /** The run a step moves, if any. */
  function Mover(step: Step): Option<RunId> {
    match step
    case Tick(_) => None
    case Stop(_) => None
    case StopNil(_) => None
    case StopLate(_) => None
    case StopAgain(_) => None
    case Admit(_, r, _, _) => Some(r)
    case MakeContext(r, _) => Some(r)
    case GiveUp(r) => Some(r)
    case PassGuard(r) => Some(r)
    case FailGuard(r) => Some(r)
    case ToggledOn(r) => Some(r)
    case ToggledOff(r) => Some(r)
    case Grants(r, _) => Some(r)
    case Refuses(r) => Some(r)
    case Begin(r) => Some(r)
    case Abort(r) => Some(r)
    case End(r) => Some(r)
    case Unlock(r, _) => Some(r)
    case Unguard(r) => Some(r)
    case Leave(r) => Some(r)
  }

  /** What a step of run r does to the counts. */
  ghost predicate CountMove(s: State, t: State, r: RunId) {
    && r in t.runs && t.runs == s.runs[r := t.runs[r]]
    && (r in s.runs ==> t.runs[r].engine == s.runs[r].engine)
    && var e := t.runs[r].engine;
    && e in s.engines && e in t.engines && t.engines == s.engines[e := t.engines[e]]
    && (r in s.runs ==> !s.runs[r].phase.Finished?)
    && t.engines[e].active == s.engines[e].active - One(r in s.runs) + One(!t.runs[r].phase.Finished?)
    && t.engines[e].stopping == s.engines[e].stopping
    && t.engines[e].stopper == s.engines[e].stopper
    && (r !in s.runs ==> !s.engines[e].stopping)
  }

  lemma StepMovesCount(s: State, step: Step)
    requires Enabled(s, step) && Mover(step).Some?
    requires forall r :: r in s.runs ==> s.runs[r].engine in s.engines
    ensures CountMove(s, Apply(s, step), Mover(step).value)
  {
    var t, r := Apply(s, step), Mover(step).value;
    var e := t.runs[r].engine;
    assert t.runs == s.runs[r := t.runs[r]];
    assert e in s.engines;
    assert t.engines == s.engines[e := t.engines[e]];
  }

  lemma CountMoved(s: State, t: State, r: RunId, e: EngineId)
    requires CountsOk(s) && CountMove(s, t, r) && e in s.engines
    ensures e in t.engines && t.engines[e].active == Tally(t.runs, Unfinished(e))
    ensures t.engines[e].stopper == StoppedNil ==> t.engines[e].active == 0
  {
    TallyUpdate(s.runs, r, t.runs[r], Unfinished(e));
    if s.engines[e].stopper == StoppedNil && r in s.runs {
      TallyZero(s.runs, Unfinished(e), r);
    }
  }

  lemma CountsMoved(s: State, t: State, r: RunId)
    requires CountsOk(s) && CountMove(s, t, r)
    ensures CountsOk(t)
  {
    forall e | e in t.engines
      ensures t.engines[e].active == Tally(t.runs, Unfinished(e))
      ensures t.engines[e].stopper == StoppedNil ==> t.engines[e].active == 0
    {
      CountMoved(s, t, r, e);
    }
  }

  lemma CountsKept(s: State, step: Step)
    requires CountsOk(s) && Enabled(s, step)
    ensures CountsOk(Apply(s, step))
  {
    if Mover(step).Some? {
      StepMovesCount(s, step);
      hide Apply, Enabled;
      CountsMoved(s, Apply(s, step), Mover(step).value);
    }
  }

  /** What a step of run r does to the guard. */
  ghost predicate GuardMove(s: State, t: State, r: RunId) {
    && r in t.runs && t.runs == s.runs[r := t.runs[r]]
    && (r in s.runs ==> SameJob(t.runs[r], s.runs[r]))
    && var e, j := t.runs[r].engine, t.runs[r].job;
    && e in s.engines && e in t.engines && t.engines == s.engines[e := t.engines[e]]
    && var was, next := r in s.runs && PastGuard(s.runs[r].phase), PastGuard(t.runs[r].phase);
    && (!was && next ==> j !in s.engines[e].inFlight)
    && t.engines[e].inFlight ==
         if was == next then s.engines[e].inFlight
         else if next then s.engines[e].inFlight + {j} else s.engines[e].inFlight - {j}
  }

  lemma StepMovesGuard(s: State, step: Step)
    requires Enabled(s, step) && Mover(step).Some?
    requires forall r :: r in s.runs ==> s.runs[r].engine in s.engines
    ensures GuardMove(s, Apply(s, step), Mover(step).value)
  {
    var t, r := Apply(s, step), Mover(step).value;
    var e := t.runs[r].engine;
    assert t.runs == s.runs[r := t.runs[r]];
    assert e in s.engines;
    assert t.engines == s.engines[e := t.engines[e]];
  }

  lemma GuardWitness(s: State, t: State, r: RunId, e: EngineId, j: Job)
    requires GuardOk(s) && GuardMove(s, t, r)
    requires e in t.engines && j in t.engines[e].inFlight
    ensures exists q :: q in t.runs && t.runs[q].engine == e && t.runs[q].job == j && PastGuard(t.runs[q].phase)
  {
    if t.runs[r].engine == e && t.runs[r].job == j && PastGuard(t.runs[r].phase) {
    } else {
      var q :| q in s.runs && s.runs[q].engine == e && s.runs[q].job == j && PastGuard(s.runs[q].phase);
      assert q != r;
      assert q in t.runs && t.runs[q] == s.runs[q];
    }
  }

  lemma GuardIn(s: State, t: State, r: RunId, q: RunId)
    requires GuardOk(s) && GuardMove(s, t, r) && q in t.runs
    ensures t.runs[q].engine in t.engines
    ensures PastGuard(t.runs[q].phase) ==> t.runs[q].job in t.engines[t.runs[q].engine].inFlight
  {
    if q != r {
      assert q in s.runs && t.runs[q] == s.runs[q];
      assert r in s.runs && SameJob(s.runs[r], s.runs[q]) ==>
        !(PastGuard(s.runs[r].phase) && PastGuard(s.runs[q].phase));
    }
    hide PastGuard;
  }

  lemma GuardAlone(s: State, t: State, p: RunId, q: RunId, r: RunId)
    requires GuardOk(s) && GuardMove(s, t, r) && p in t.runs && q in t.runs && p != q
    requires SameJob(t.runs[p], t.runs[q])
    ensures !(PastGuard(t.runs[p].phase) && PastGuard(t.runs[q].phase))
  {
    assert p != r ==> p in s.runs && t.runs[p] == s.runs[p];
    assert q != r ==> q in s.runs && t.runs[q] == s.runs[q];
    hide PastGuard;
  }

  lemma GuardMoved(s: State, t: State, r: RunId)
    requires GuardOk(s) && GuardMove(s, t, r)
    ensures GuardOk(t)
  {
    hide GuardMove, PastGuard, SameJob;
    forall q | q in t.runs
      ensures t.runs[q].engine in t.engines
      ensures PastGuard(t.runs[q].phase) ==> t.runs[q].job in t.engines[t.runs[q].engine].inFlight
    {
      GuardIn(s, t, r, q);
    }
    forall p, q | p in t.runs && q in t.runs && p != q && SameJob(t.runs[p], t.runs[q])
      ensures !(PastGuard(t.runs[p].phase) && PastGuard(t.runs[q].phase))
    {
      GuardAlone(s, t, p, q, r);
    }
    forall e, j | e in t.engines && j in t.engines[e].inFlight
      ensures exists q :: q in t.runs && t.runs[q].engine == e && t.runs[q].job == j && PastGuard(t.runs[q].phase)
    {
      GuardWitness(s, t, r, e, j);
    }
  }

  lemma GuardKept(s: State, step: Step)
    requires GuardOk(s) && Enabled(s, step)
    ensures GuardOk(Apply(s, step))
  {
    if Mover(step).Some? {
      StepMovesGuard(s, step);
      hide Apply, Enabled;
      GuardMoved(s, Apply(s, step), Mover(step).value);
    } else {
      var t := Apply(s, step);
      assert t.runs == s.runs;
      assert forall e :: e in t.engines ==> e in s.engines && t.engines[e].inFlight == s.engines[e].inFlight;
      hide Apply, Enabled;
    }
  }

  /** The grant a step touches, if any. */
  function Touched(s: State, step: Step): Option<GrantId> {
    match step
    case Grants(_, g) => Some(g)
    case Unlock(r, _) => if r in s.runs then HeldBy(s.runs[r].phase) else None
    case _ => None
  }

  /** What a step of run r does to the grants: it takes a new one, it unlocks the one it
      holds, or it keeps what it has. */
  ghost predicate GrantMove(s: State, t: State, r: RunId) {
    && s.now == t.now
    && r in t.runs && t.runs == s.runs[r := t.runs[r]]
    && (r in s.runs ==> t.runs[r].(phase := Counted, deadline := 0) == s.runs[r].(phase := Counted, deadline := 0))
    && (r in s.runs && !s.runs[r].phase.Counted? ==> t.runs[r].deadline == s.runs[r].deadline)
    && (r !in s.runs || s.runs[r].phase.Counted? ==> DeadlineOk(t.runs[r], s.now) && HeldBy(t.runs[r].phase).None?)
    && (r in s.runs && !s.runs[r].phase.Counted? ==> !t.runs[r].phase.Counted?)
    && var was, next := (if r in s.runs then HeldBy(s.runs[r].phase) else None), HeldBy(t.runs[r].phase);
    if was == next then
      t.grants == s.grants
    else if was == None then
      && next.value !in s.grants && next.value in t.grants && t.grants == s.grants[next.value := t.grants[next.value]]
      && t.grants[next.value] == Grant(t.runs[r].job, r, s.now + t.runs[r].timeout + BUFFER, false, 0)
    else
      && next == None
      && was.value in s.grants && was.value in t.grants && t.grants == s.grants[was.value := t.grants[was.value]]
      && t.grants[was.value].owner == s.grants[was.value].owner
      && t.grants[was.value].unlocks == s.grants[was.value].unlocks + 1
  }

  lemma StepMovesGrant(s: State, step: Step)
    requires Enabled(s, step) && Mover(step).Some?
    ensures GrantMove(s, Apply(s, step), Mover(step).value)
  {
    var t, r := Apply(s, step), Mover(step).value;
    assert t.runs == s.runs[r := t.runs[r]];
    if Touched(s, step).Some? {
      var g := Touched(s, step).value;
      assert t.grants == s.grants[g := t.grants[g]];
    }
  }

  lemma HolderMoved(s: State, t: State, r: RunId, q: RunId)
    requires GrantMove(s, t, r) && q in t.runs
    requires q in s.runs ==> DeadlineOk(s.runs[q], s.now) && HolderOk(s, q)
    requires r in s.runs ==> HolderOk(s, r)
    ensures DeadlineOk(t.runs[q], t.now) && HolderOk(t, q)
  {
    assert q != r ==> q in s.runs && t.runs[q] == s.runs[q];
  }

  lemma UnlockMoved(s: State, t: State, r: RunId, g: GrantId)
    requires GrantMove(s, t, r) && g in t.grants
    requires g in s.grants ==> UnlockOk(s, g)
    requires r in s.runs ==> HolderOk(s, r)
    ensures UnlockOk(t, g)
  {
  }

  lemma GrantsMoved(s: State, t: State, r: RunId)
    requires GrantsOk(s) && GrantMove(s, t, r)
    ensures GrantsOk(t)
  {
    hide GrantMove, HolderOk, UnlockOk, DeadlineOk;
    forall q | q in t.runs ensures DeadlineOk(t.runs[q], t.now) && HolderOk(t, q) {
      HolderMoved(s, t, r, q);
    }
    forall g | g in t.grants ensures UnlockOk(t, g) {
      UnlockMoved(s, t, r, g);
    }
  }

  lemma GrantsKept(s: State, step: Step)
    requires GrantsOk(s) && Enabled(s, step)
    ensures GrantsOk(Apply(s, step))
  {
    if Mover(step).Some? {
      StepMovesGrant(s, step);
      hide Apply, Enabled;
      GrantsMoved(s, Apply(s, step), Mover(step).value);
    } else {
      var t := Apply(s, step);
      assert t.runs == s.runs && t.grants == s.grants && s.now <= t.now;
      hide Apply, Enabled;
    }
  }

  lemma LockKept(s: State, step: Step)
    requires LockOk(s) && Enabled(s, step)
    ensures LockOk(Apply(s, step))
  {
    var s' := Apply(s, step);
    assert s.now <= s'.now;
  }

  lemma TimelyKept(s: State, step: Step)
    requires Timely(s) && Enabled(s, step)
    ensures Timely(Apply(s, step))
  {
  }

  lemma LockerStaysUsed(s: State, step: Step)
    requires LockerUsed(s) && Enabled(s, step)
    requires forall r :: r in s.runs ==> s.runs[r].engine in s.engines
    ensures LockerUsed(Apply(s, step))
  {
    var t := Apply(s, step);
    assert forall e :: e in t.engines ==> e in s.engines && t.engines[e].locker == s.engines[e].locker;
  }

  lemma StepKeepsInv(s: State, step: Step)
    requires Inv(s) && Enabled(s, step)
    ensures Inv(Apply(s, step))
  {
    CountsKept(s, step);
    GuardKept(s, step);
    GrantsKept(s, step);
    LockKept(s, step);
    TimelyKept(s, step);
    LockerStaysUsed(s, step);
  }

  // ---------------------------------------------------------------- whole runs

  /** The engines and their lock as a machine. */
  ghost function M(): Machine<State, Step> {
    Machine(s => Init(s), (s, step) => Enabled(s, step), (s, step) => if Enabled(s, step) then Apply(s, step) else s)
  }

  lemma InvIsInductive()
    ensures Inductive(M(), s => Inv(s))
  {
    hide Inv, Apply, Enabled;
    forall s, step | Inv(s) && M().can(s, step) ensures Inv(M().next(s, step)) {
      StepKeepsInv(s, step);
    }
  }

  /** Every interleaving of every number of engines keeps the invariant. */
  lemma ReachableInv(s: State)
    requires Reachable(M(), s)
    ensures Inv(s)
  {
    hide Apply, Enabled;
    forall x | M().start(x) ensures Inv(x) {
      InitInv(x);
    }
    InvIsInductive();
    hide Inv;
    ReachableKeeps(M(), x => Inv(x), s);
  }

  /** No two replicas with a locker, and no two runs of one engine, execute the handler of
      the same job at once. */
  lemma MutualExclusion(s: State, r: RunId, q: RunId)
    requires Reachable(M(), s)
    requires r in s.runs && q in s.runs && s.runs[r].phase.Handling? && s.runs[q].phase.Handling?
    requires s.runs[r].engine in s.engines && s.runs[q].engine in s.engines
    requires s.runs[r].job == s.runs[q].job
    requires
      || s.runs[r].engine == s.runs[q].engine
      || (s.engines[s.runs[r].engine].locker && s.engines[s.runs[q].engine].locker)
    ensures r == q
  {
    ReachableInv(s);
    hide Reachable, CountsOk;
    if s.runs[r].engine == s.runs[q].engine {
      assert SameJob(s.runs[r], s.runs[q]) && PastGuard(s.runs[r].phase) && PastGuard(s.runs[q].phase);
    } else {
      HolderIsLive(s, r);
      HolderIsLive(s, q);
    }
  }

  /** While a handler executes under a grant, the grant is its own, live, and of its job. */
  lemma HolderIsLive(s: State, r: RunId)
    requires Reachable(M(), s)
    requires r in s.runs && s.runs[r].phase.Handling? && s.runs[r].phase.held.Some?
    ensures
      var g := s.runs[r].phase.held.value;
      && g in s.grants && s.grants[g].owner == r && s.grants[g].key == s.runs[r].job
      && !s.grants[g].released && s.now < s.grants[g].expires
      && s.now < s.runs[r].deadline + 15 <= s.grants[g].expires
  {
    ReachableInv(s);
    hide Reachable, CountsOk, GuardOk, LockOk, LockerUsed;
    assert HolderOk(s, r);
  }

  ghost predicate UnlocksOk(s: State, g: GrantId) {
    && g in s.grants
    && var owner := s.grants[g].owner;
    && owner in s.runs
    && s.grants[g].unlocks <= 1
    && var p := s.runs[owner].phase;
    && (s.grants[g].unlocks == 0 <==> p == Locked(g) || p == Handling(Some(g)) || p == Unlocking(g))
    && (p.Finished? ==> s.grants[g].unlocks == 1)
  }

  lemma GrantUnlocks(s: State, g: GrantId)
    requires GrantsOk(s) && g in s.grants
    ensures UnlocksOk(s, g)
  {
  }

  /** Unlock is called exactly once on every grant: never before its owner is done with the
      handler, and once by the time the owner has left, however it left. */
  lemma UnlockedOnce(s: State, g: GrantId)
    requires Reachable(M(), s) && g in s.grants
    ensures UnlocksOk(s, g)
  {
    hide Reachable, CountsOk, GuardOk, GrantsOk, LockOk, Timely, LockerUsed, UnlocksOk;
    ReachableInv(s);
    GrantUnlocks(s, g);
  }

  /** A job is in flight on an engine iff exactly one of its runs there is past the guard. */
  lemma InFlightIffOneRun(s: State, e: EngineId, j: Job)
    requires Reachable(M(), s) && e in s.engines
    ensures j in s.engines[e].inFlight <==> exists r :: Occupies(s, e, j, r)
    ensures forall r, q :: Occupies(s, e, j, r) && Occupies(s, e, j, q) ==> r == q
  {
    ReachableInv(s);
    hide Reachable, CountsOk, GuardOk, GrantsOk, LockOk, Timely, LockerUsed, Occupies;
    InFlightFromGuard(s, e, j);
  }

  lemma InFlightFromGuard(s: State, e: EngineId, j: Job)
    requires GuardOk(s) && e in s.engines
    ensures j in s.engines[e].inFlight <==> exists r :: Occupies(s, e, j, r)
    ensures forall r, q :: Occupies(s, e, j, r) && Occupies(s, e, j, q) ==> r == q
  {
    if j in s.engines[e].inFlight {
      var r :| r in s.runs && s.runs[r].engine == e && s.runs[r].job == j && PastGuard(s.runs[r].phase);
      assert Occupies(s, e, j, r);
    }
    forall r, q | Occupies(s, e, j, r) && Occupies(s, e, j, q) ensures r == q {
      assert SameJob(s.runs[r], s.runs[q]);
    }
  }

  ghost predicate Occupies(s: State, e: EngineId, j: Job, r: RunId) {
    && r in s.runs && s.runs[r].engine == e && s.runs[r].job == j
    && var p := s.runs[r].phase;
    p.Guarded? || p.Locking? || p.Locked? || p.Handling? || p.Unlocking? || p.Unguarding?
  }

  // ---------------------------------------------------------------- shutdown

  /** From s to t the engine e stays latched, admits nothing, and its count does not grow;
      a run that left stays gone, and a nil answer of the first Stop stays given. */
  ghost predicate Draining(s: State, t: State, e: EngineId) {
    && e in s.engines && e in t.engines
    && t.engines[e].stopping
    && t.engines[e].active <= s.engines[e].active
    && (s.engines[e].stopper == StoppedNil ==> t.engines[e].stopper == StoppedNil)
    && (forall r :: r in t.runs && t.runs[r].engine == e ==> r in s.runs && s.runs[r].engine == e)
    && (forall r :: r in s.runs && s.runs[r].phase.Finished? ==> r in t.runs && t.runs[r] == s.runs[r])
  }

  lemma StepDrains(s: State, step: Step, e: EngineId)
    requires Enabled(s, step) && e in s.engines && s.engines[e].stopping
    ensures Draining(s, Apply(s, step), e)
  {
  }

  lemma {:induction false} StoppingDrains(s: State, steps: seq<Step>, e: EngineId)
    requires Can(M(), s, steps) && e in s.engines && s.engines[e].stopping
    ensures Draining(s, Play(M(), s, steps), e)
    decreases |steps|
  {
    hide Apply, Enabled;
    if steps != [] {
      StepDrains(s, steps[0], e);
      StoppingDrains(Apply(s, steps[0]), steps[1..], e);
    }
  }

  /** No run that the engine admitted is unfinished. */
  ghost predicate NothingRuns(s: State, e: EngineId) {
    forall r :: r in s.runs && s.runs[r].engine == e ==> s.runs[r].phase.Finished?
  }

  /** Once the first Stop of an engine has answered nil, no run it admitted is unfinished,
      and whatever happens later it never admits or runs anything again. */
  lemma StopIsFinal(s: State, e: EngineId, steps: seq<Step>)
    requires Reachable(M(), s) && e in s.engines && s.engines[e].stopper == StoppedNil && Can(M(), s, steps)
    ensures
      var t := Play(M(), s, steps);
      && NothingRuns(s, e)
      && (forall r :: r in t.runs && t.runs[r].engine == e ==> r in s.runs && t.runs[r] == s.runs[r])
      && e in t.engines && t.engines[e].active == 0 && t.engines[e].inFlight == {}
  {
    ReachableInv(s);
    InvIsInductive();
    RunKeeps(M(), x => Inv(x), s, steps);
    var t := Play(M(), s, steps);
    assert s.engines[e].stopping;
    StoppingDrains(s, steps, e);
    hide Reachable, Play, Can;
    StoppedIsEmpty(s, e);
    assert t.engines[e].stopper == StoppedNil;
    StoppedIsEmpty(t, e);
  }

  lemma StoppedIsEmpty(s: State, e: EngineId)
    requires CountsOk(s) && GuardOk(s) && e in s.engines && s.engines[e].stopper == StoppedNil
    ensures NothingRuns(s, e)
    ensures s.engines[e].active == 0 && s.engines[e].inFlight == {}
  {
    forall r | r in s.runs && s.runs[r].engine == e ensures s.runs[r].phase.Finished? {
      TallyZero(s.runs, Unfinished(e), r);
    }
  }

  // ---------------------------------------------------------------- the second Stop

  /** One engine without a locker and one run, in the phase p. */
  predicate Lone(s: State, job: Job, timeout: int, inFlight: set<Job>, p: Phase) {
    && s.engines == map[0 := Eng(false, 1, inFlight, false, NotStopped)]
    && s.runs == map[0 := Run(0, job, timeout, timeout, p)]
    && s.now == 0
  }

  lemma LoneCounted(job: Job, timeout: int) returns (s: State)
    ensures Reachable(M(), s)
    ensures s.engines == map[0 := Eng(false, 1, {}, false, NotStopped)]
    ensures s.runs == map[0 := Run(0, job, timeout, 0, Counted)] && s.now == 0
  {
    var a := State(map[0 := Eng(false, 0, {}, false, NotStopped)], map[], map[], 0);
    StartReached(M(), a);
    hide Reachable, Init, Can, Play;
    StepReached(M(), a, Admit(0, 0, job, timeout));
    s := Apply(a, Admit(0, 0, job, timeout));
  }

  lemma LoneAdmitted(job: Job, timeout: int) returns (s: State)
    ensures Reachable(M(), s) && Lone(s, job, timeout, {}, Admitted)
  {
    hide Reachable;
    var a := LoneCounted(job, timeout);
    StepReached(M(), a, MakeContext(0, timeout));
    s := Apply(a, MakeContext(0, timeout));
  }

  lemma LoneGuarded(job: Job, timeout: int) returns (s: State)
    ensures Reachable(M(), s) && Lone(s, job, timeout, {job}, Guarded)
  {
    hide Reachable;
    var a := LoneAdmitted(job, timeout);
    StepReached(M(), a, PassGuard(0));
    s := Apply(a, PassGuard(0));
    assert {} + {job} == {job};
    assert s.engines[0] == Eng(false, 1, {job}, false, NotStopped);
  }

  lemma LoneHandling(job: Job, timeout: int) returns (s: State)
    requires timeout >= 0
    ensures Reachable(M(), s) && Lone(s, job, timeout, {job}, Handling(None))
  {
    hide Reachable;
    var a := LoneGuarded(job, timeout);
    StepReached(M(), a, ToggledOn(0));
    s := Apply(a, ToggledOn(0));
  }

  /** The guarantee is the first call's only: a further Stop answers nil while a handler
      executes, and while the first is still waiting. */
  lemma LatchIsNoGuarantee(job: Job, timeout: int) returns (s: State)
    requires timeout >= 0
    ensures Reachable(M(), s) && Enabled(s, StopAgain(0)) && s.engines[0].stopper == Waiting
    ensures 0 in s.runs && s.runs[0].engine == 0 && s.runs[0].phase.Handling? && !NothingRuns(s, 0)
  {
    hide Reachable;
    var a := LoneHandling(job, timeout);
    StepReached(M(), a, Stop(0));
    s := Apply(a, Stop(0));
  }

  lemma NothingRunsIff(s: State, e: EngineId)
    requires CountsOk(s) && e in s.engines
    ensures NothingRuns(s, e) <==> s.engines[e].active == 0
  {
    if NothingRuns(s, e) {
      TallyNone(s.runs, Unfinished(e));
    }
    if s.engines[e].active == 0 {
      forall r | r in s.runs && s.runs[r].engine == e ensures s.runs[r].phase.Finished? {
        TallyZero(s.runs, Unfinished(e), r);
      }
    }
  }

  /** When a further Stop answers nil, nothing runs if and only if the active count is zero
      at that moment; and that is sure once the first Stop has answered nil. */
  lemma SecondStopHolds(s: State, e: EngineId)
    requires Reachable(M(), s) && Enabled(s, StopAgain(e))
    ensures NothingRuns(Apply(s, StopAgain(e)), e) <==> s.engines[e].active == 0
    ensures s.engines[e].stopper == StoppedNil ==> NothingRuns(Apply(s, StopAgain(e)), e)
  {
    ReachableInv(s);
    hide Reachable, GuardOk, GrantsOk, LockOk, Timely, LockerUsed, NothingRuns;
    NothingRunsIff(s, e);
  }

  // ---------------------------------------------------------------- locks and time

  /** A grant lives for the timeout of its run and 15 seconds more, and a successful Unlock
      ends it at once, whatever the time; a failed one changes only the count of calls. */
  lemma GrantsLiveAndEnd(s: State, r: RunId, g: GrantId, ok: bool, now: int)
    ensures Enabled(s, Grants(r, g)) ==>
              Apply(s, Grants(r, g)).grants ==
              s.grants[g := Grant(s.runs[r].job, r, s.now + s.runs[r].timeout + 15, false, 0)]
    ensures Enabled(s, Unlock(r, ok)) && s.runs[r].phase.token == g ==>
              && Apply(s, Unlock(r, ok)).grants.Keys == s.grants.Keys
              && var was, is' := s.grants[g], Apply(s, Unlock(r, ok)).grants[g];
              && is' == was.(unlocks := was.unlocks + 1, released := is'.released)
              && (ok ==> !Live(is', now))
              && (!ok ==> (Live(is', now) <==> Live(was, now)))
  {
  }

  /** Time ends a grant too: once its expiry has come it is dead, released or not. */
  lemma GrantsExpire(s: State, g: GrantId, to: int)
    requires Enabled(s, Tick(to)) && g in s.grants && s.grants[g].expires <= to
    ensures var t := Apply(s, Tick(to)); g in t.grants && t.grants[g] == s.grants[g] && !Live(t.grants[g], t.now)
  {
  }

  /** No handler executes 15 seconds after its context's deadline or later. */
  lemma HandlersAreTimely(s: State, r: RunId)
    requires Reachable(M(), s) && r in s.runs && s.runs[r].phase.Handling?
    ensures s.now < s.runs[r].deadline + 15
  {
    ReachableInv(s);
    hide Reachable, CountsOk, GuardOk, GrantsOk, LockOk, LockerUsed;
  }

  // ---------------------------------------------------------------- no run is stuck

  /** How far a run is from its end. */
  function Rank(p: Phase): nat {
    match p
    case Counted => 8
    case Admitted => 7
    case Guarded => 6
    case Locking => 5
    case Locked(_) => 4
    case Handling(_) => 4
    case Unlocking(_) => 3
    case Unguarding => 2
    case Leaving => 1
    case Finished => 0
  }

  /** The next step of a run on its shortest way out. */
  function Onward(s: State, r: RunId): Step
    requires r in s.runs && !s.runs[r].phase.Finished?
  {
    match s.runs[r].phase
    case Counted => MakeContext(r, s.now + s.runs[r].timeout)
    case Admitted => GiveUp(r)
    case Guarded => ToggledOff(r)
    case Locking => Refuses(r)
    case Locked(_) => Abort(r)
    case Handling(_) => End(r)
    case Unlocking(_) => Unlock(r, true)
    case Unguarding => Unguard(r)
    case Leaving => Leave(r)
  }

  lemma OnwardEnabled(s: State, r: RunId)
    requires r in s.runs && !s.runs[r].phase.Finished? && s.runs[r].engine in s.engines && HolderOk(s, r)
    ensures Enabled(s, Onward(s, r))
  {
  }

  lemma OnwardLowers(s: State, r: RunId)
    requires r in s.runs && !s.runs[r].phase.Finished? && Enabled(s, Onward(s, r))
    ensures r in Apply(s, Onward(s, r)).runs
    ensures Rank(Apply(s, Onward(s, r)).runs[r].phase) < Rank(s.runs[r].phase)
  {
  }

  lemma RunHolds(s: State, r: RunId)
    requires Reachable(M(), s) && r in s.runs
    ensures s.runs[r].engine in s.engines && HolderOk(s, r)
  {
    ReachableInv(s);
    hide Reachable, HolderOk;
  }

  /** From wherever a run can be, steps of its own lead it to its end: no state of the engines,
      their guards and their lock leaves it stuck. */
  lemma {:induction false} RunCanFinish(s: State, r: RunId) returns (t: State)
    requires Reachable(M(), s) && r in s.runs
    ensures Leads(M(), s, t) && r in t.runs && t.runs[r].phase.Finished?
    decreases Rank(s.runs[r].phase)
  {
    hide Reachable, Leads, Apply, Enabled, Onward, HolderOk, Rank;
    if s.runs[r].phase.Finished? {
      t := s;
      LeadsHere(M(), s);
    } else {
      var step := Onward(s, r);
      RunHolds(s, r);
      OnwardEnabled(s, r);
      OnwardLowers(s, r);
      StepReached(M(), s, step);
      t := RunCanFinish(Apply(s, step), r);
      LeadsOn(M(), s, step, t);
    }
  }

  /** With a lock that grants its key, a run gets to its handler, under a grant of its job. */
  lemma LockedRunHandles(s: State, r: RunId, g: GrantId)
    requires Reachable(M(), s) && r in s.runs && s.runs[r].phase == Guarded && s.runs[r].engine in s.engines
    requires s.engines[s.runs[r].engine].locker && s.now < s.runs[r].deadline + BUFFER && g !in s.grants
    requires forall h :: h in s.grants && s.grants[h].key == s.runs[r].job ==> !Live(s.grants[h], s.now)
    ensures exists t :: Leads(M(), s, t) && r in t.runs && t.runs[r].phase == Handling(Some(g)) && g in t.grants
  {
    hide Reachable, Leads;
    var a := Apply(s, ToggledOn(r));
    var b := Apply(a, Grants(r, g));
    var c := Apply(b, Begin(r));
    LeadsHere(M(), c);
    LeadsOn(M(), b, Begin(r), c);
    LeadsOn(M(), a, Grants(r, g), c);
    LeadsOn(M(), s, ToggledOn(r), c);
  }

  /** The first Stop latches the engine; then it can answer nil exactly when no run of the
      engine is unfinished, and the answer is kept. */
  lemma StopAnswers(s: State, e: EngineId)
    requires Reachable(M(), s) && e in s.engines
    ensures s.engines[e].stopper == Waiting ==> (Enabled(s, StopNil(e)) <==> NothingRuns(s, e))
    ensures Enabled(s, StopNil(e)) ==>
              Apply(s, StopNil(e)).engines == s.engines[e := s.engines[e].(stopper := StoppedNil)]
    ensures !s.engines[e].stopping ==>
              Apply(s, Stop(e)).engines == s.engines[e := s.engines[e].(stopping := true, stopper := Waiting)]
  {
    ReachableInv(s);
    hide Reachable, GuardOk, GrantsOk, LockOk, Timely, LockerUsed, NothingRuns, CountsOk;
    NothingRunsIff(s, e);
  }
}
