/** Asynchronous publishing of nats/producer: cycles of Start and Shutdown, each with its own
    count of pending publishes, and the steps of any number of publishes interleaved with
    them. */
module NatsProducer {
  import opened Wrappers
  import opened Runs
  import opened Counting

  type Topic = string
  type SendId = nat
  type CycleId = nat

  /** How the Shutdown that ended a cycle fares. */
  datatype Stopper = Open | Waiting | Passed | TimedOut

  /** One run of the producer, from Start to Shutdown. */
  datatype Cycle = Cycle(topics: set<Topic>, pending: int, stopper: Stopper)

  /** Where a publish is. All but the first and the last two hold a place in the pending
      count of their cycle. */
  datatype Phase =
    | Opened // the span is open, no producer resolved yet
    | Acquired // counted in its cycle
    | Refused // the transport refused the message
    | Flying // the transport accepted it, the ack is awaited
    | Spanned // the ack or its error arrived and the span is finished
    | Calling // the callback executes
    | Returned // the callback returned
    | Unsent // nothing pending: no producer, or the refused publish was discounted
    | Failed // the error was returned to the caller
    | Closed // called back and discounted

  datatype Send = Send(topic: Topic, cycle: Option<CycleId>, phase: Phase, finishes: nat, callbacks: nat)

  datatype State = State(cycles: seq<Cycle>, current: Option<CycleId>, sends: map<SendId, Send>)

  datatype Step =
    | Start(topics: set<Topic>)
    | Shutdown // clears the run
    | WaitPasses(cycle: CycleId)
    | WaitEnds(cycle: CycleId) // the context ended first
    | Open(send: SendId, topic: Topic)
    | Acquire(send: SendId)
    | Miss(send: SendId) // no started producer for the topic
    | Accept(send: SendId)
    | Refuse(send: SendId)
    | Discount(send: SendId)
    | Report(send: SendId)
    | Ack(send: SendId)
    | CallBack(send: SendId)
    | Return(send: SendId)
    | Done(send: SendId)

  predicate In(s: State, i: SendId, p: Phase) { i in s.sends && s.sends[i].phase == p }

  /** The cycle that can take a publish on the topic. */
  predicate Serves(s: State, topic: Topic) {
    s.current.Some? && s.current.value < |s.cycles| && topic in s.cycles[s.current.value].topics
  }

  /** The publish belongs to a cycle that exists. */
  predicate Homed(s: State, i: SendId) {
    i in s.sends && s.sends[i].cycle.Some? && s.sends[i].cycle.value < |s.cycles|
  }

  predicate Enabled(s: State, step: Step) {
    match step
    case Start(_) => s.current.None?
    case Shutdown => s.current.Some? && s.current.value < |s.cycles|
    case WaitPasses(k) => k < |s.cycles| && s.cycles[k].stopper == Waiting && s.cycles[k].pending == 0
    case WaitEnds(k) => k < |s.cycles| && s.cycles[k].stopper == Waiting
    case Open(i, _) => i !in s.sends
    case Acquire(i) => In(s, i, Opened) && Serves(s, s.sends[i].topic)
    case Miss(i) => In(s, i, Opened) && !Serves(s, s.sends[i].topic)
    case Accept(i) => In(s, i, Acquired)
    case Refuse(i) => In(s, i, Acquired)
    case Discount(i) => In(s, i, Refused) && Homed(s, i)
    case Report(i) => In(s, i, Unsent)
    case Ack(i) => In(s, i, Flying)
    case CallBack(i) => In(s, i, Spanned)
    case Return(i) => In(s, i, Calling)
    case Done(i) => In(s, i, Returned) && Homed(s, i)
  }

  function At(s: State, i: SendId, p: Phase): State
    requires i in s.sends
  {
    s.(sends := s.sends[i := s.sends[i].(phase := p)])
  }

  function Add(s: State, k: CycleId, n: int): State
    requires k < |s.cycles|
  {
    s.(cycles := s.cycles[k := s.cycles[k].(pending := s.cycles[k].pending + n)])
  }

  function Stops(s: State, k: CycleId, w: Stopper): State
    requires k < |s.cycles|
  {
    s.(cycles := s.cycles[k := s.cycles[k].(stopper := w)])
  }

  function Finish(s: State, i: SendId): State
    requires i in s.sends
  {
    s.(sends := s.sends[i := s.sends[i].(finishes := s.sends[i].finishes + 1)])
  }

  function Next(s: State, step: Step): State
    requires Enabled(s, step)
  {
    match step
    case Start(topics) => s.(cycles := s.cycles + [Cycle(topics, 0, Stopper.Open)], current := Some(|s.cycles|))
    case Shutdown => Stops(s, s.current.value, Waiting).(current := None)
    case WaitPasses(k) => Stops(s, k, Passed)
    case WaitEnds(k) => Stops(s, k, TimedOut)
    case Open(i, topic) => s.(sends := s.sends[i := Send(topic, None, Opened, 0, 0)])
    case Acquire(i) =>
      var k := s.current.value;
      Add(s.(sends := s.sends[i := s.sends[i].(phase := Acquired, cycle := Some(k))]), k, 1)
    case Miss(i) => At(s, i, Unsent)
    case Accept(i) => At(s, i, Flying)
    case Refuse(i) => At(s, i, Refused)
    case Discount(i) => Add(At(s, i, Unsent), s.sends[i].cycle.value, -1)
    case Report(i) => At(Finish(s, i), i, Failed)
    case Ack(i) => At(Finish(s, i), i, Spanned)
    case CallBack(i) => s.(sends := s.sends[i := s.sends[i].(phase := Calling, callbacks := s.sends[i].callbacks + 1)])
    case Return(i) => At(s, i, Returned)
    case Done(i) => Add(At(s, i, Closed), s.sends[i].cycle.value, -1)
  }

  // ---------------------------------------------------------------- invariant

  predicate Held(p: Phase) {
    p == Acquired || p == Refused || p == Flying || p == Spanned || p == Calling || p == Returned
  }

  /** The transport accepted the message. */
  predicate Accepted(p: Phase) { p == Flying || p == Spanned || p == Calling || p == Returned || p == Closed }

  function HeldIn(k: CycleId): Send -> bool {
    (x: Send) => x.cycle == Some(k) && Held(x.phase)
  }

  /** The span and the callback of a publish, by where it is. */
  predicate Once(x: Send) {
    && x.finishes == (if x.phase in {Spanned, Calling, Returned, Closed, Failed} then 1 else 0)
    && x.callbacks == (if x.phase == Calling || x.phase == Returned || x.phase == Closed then 1 else 0)
    && (Held(x.phase) || x.phase == Closed ==> x.cycle.Some?)
    && (x.phase == Opened ==> x.cycle.None?)
  }

  ghost predicate SendsOk(s: State) {
    forall i :: i in s.sends ==> Once(s.sends[i]) && (s.sends[i].cycle.Some? ==> s.sends[i].cycle.value < |s.cycles|)
  }

  /** The pending count of a cycle is the number of publishes that hold a place in it. */
  ghost predicate CountsOk(s: State) {
    forall k :: 0 <= k < |s.cycles| ==> s.cycles[k].pending == Tally(s.sends, HeldIn(k))
  }

  /** Exactly the current cycle is open, and a passed wait has nothing pending. */
  ghost predicate CyclesOk(s: State) {
    && (s.current.Some? ==> s.current.value < |s.cycles|)
    && (forall k :: 0 <= k < |s.cycles| ==> (s.cycles[k].stopper == Stopper.Open <==> s.current == Some(k)))
    && (forall k :: 0 <= k < |s.cycles| && s.cycles[k].stopper == Passed ==> s.cycles[k].pending == 0)
  }

  ghost predicate Inv(s: State) { SendsOk(s) && CountsOk(s) && CyclesOk(s) }

  predicate Init(s: State) { s == State([], None, map[]) }

  /** The publish a step moves, if any. */
  function Mover(step: Step): Option<SendId> {
    if step.Start? || step.Shutdown? || step.WaitPasses? || step.WaitEnds? then None else Some(step.send)
  }

  /** What a step of publish i does: it changes that publish, and the count of its cycle by
      the change in what it holds. It joins only the current cycle. */
  ghost predicate Moves(s: State, t: State, i: SendId) {
    && i in t.sends && t.sends == s.sends[i := t.sends[i]]
    && t.current == s.current
    && var x := t.sends[i];
    && Once(x)
    && (x.cycle.Some? ==> x.cycle.value < |s.cycles|)
    && (i in s.sends && s.sends[i].cycle.Some? ==> x.cycle == s.sends[i].cycle)
    && var d := One(Held(x.phase)) - One(i in s.sends && Held(s.sends[i].phase));
    && (d > 0 ==> x.cycle == s.current)
    && if d == 0 then t.cycles == s.cycles
       else x.cycle.Some? && t.cycles == Add(s, x.cycle.value, d).cycles
  }

  lemma StepOnce(s: State, step: Step, i: SendId)
    requires Enabled(s, step) && Mover(step) == Some(i)
    requires i in s.sends ==> Once(s.sends[i])
    ensures i in Next(s, step).sends && Once(Next(s, step).sends[i])
  {
  }

  /** The steps that change a pending count. */
  predicate Counts(step: Step) { step.Acquire? || step.Discount? || step.Done? }

  lemma CountingStep(s: State, step: Step, i: SendId)
    requires Enabled(s, step) && Mover(step) == Some(i) && Counts(step)
    requires s.current.Some? ==> s.current.value < |s.cycles|
    requires i in s.sends && s.sends[i].phase == Opened ==> s.sends[i].cycle.None?
    requires i in Next(s, step).sends && Once(Next(s, step).sends[i])
    ensures Moves(s, Next(s, step), i)
  {
    hide Once;
    var t := Next(s, step);
    assert t.sends == s.sends[i := t.sends[i]];
  }

  lemma PlainStep(s: State, step: Step, i: SendId)
    requires Enabled(s, step) && Mover(step) == Some(i) && !Counts(step)
    requires i in s.sends && s.sends[i].cycle.Some? ==> s.sends[i].cycle.value < |s.cycles|
    requires i in Next(s, step).sends && Once(Next(s, step).sends[i])
    ensures Moves(s, Next(s, step), i)
  {
    hide Once;
    var t := Next(s, step);
    assert t.sends == s.sends[i := t.sends[i]];
  }

  lemma StepMoves(s: State, step: Step)
    requires SendsOk(s) && CyclesOk(s) && Enabled(s, step) && Mover(step).Some?
    ensures Moves(s, Next(s, step), Mover(step).value)
  {
    var i := Mover(step).value;
    assert i in s.sends ==> Once(s.sends[i]) && (s.sends[i].cycle.Some? ==> s.sends[i].cycle.value < |s.cycles|);
    assert i in s.sends && s.sends[i].phase == Opened ==> s.sends[i].cycle.None?;
    assert s.current.Some? ==> s.current.value < |s.cycles|;
    hide *;
    StepOnce(s, step, i);
    if Counts(step) { CountingStep(s, step, i); } else { PlainStep(s, step, i); }
  }

  lemma SendsMoved(s: State, t: State, i: SendId)
    requires SendsOk(s) && Moves(s, t, i)
    ensures SendsOk(t)
  {
    hide Once;
  }

  lemma CountsMoved(s: State, t: State, i: SendId)
    requires SendsOk(s) && CountsOk(s) && CyclesOk(s) && Moves(s, t, i)
    ensures CountsOk(t) && CyclesOk(t)
  {
    forall k | 0 <= k < |t.cycles|
      ensures t.cycles[k].pending == Tally(t.sends, HeldIn(k))
      ensures t.cycles[k].stopper == Passed ==> t.cycles[k].pending == 0
    {
      CountMoved(s, t, i, k);
    }
  }

  lemma CountMoved(s: State, t: State, i: SendId, k: CycleId)
    requires SendsOk(s) && CountsOk(s) && CyclesOk(s) && Moves(s, t, i) && k < |s.cycles|
    ensures |t.cycles| == |s.cycles|
    ensures t.cycles[k].pending == Tally(t.sends, HeldIn(k))
    ensures t.cycles[k].stopper == Passed ==> t.cycles[k].pending == 0
  {
    TallyUpdate(s.sends, i, t.sends[i], HeldIn(k));
    assert i in s.sends ==> Once(s.sends[i]);
    if i in s.sends && s.cycles[k].stopper == Passed {
      TallyZero(s.sends, HeldIn(k), i);
    }
  }

  lemma LifecycleKeeps(s: State, step: Step)
    requires Inv(s) && Enabled(s, step) && Mover(step).None?
    ensures Inv(Next(s, step))
  {
    if step.Start? {
      TallyNone(s.sends, HeldIn(|s.cycles|));
    }
  }

  lemma StepKeepsInv(s: State, step: Step)
    requires Inv(s) && Enabled(s, step)
    ensures Inv(Next(s, step))
  {
    if Mover(step).Some? {
      StepMoves(s, step);
      hide SendsOk, CountsOk, CyclesOk, Moves, Next, Enabled;
      SendsMoved(s, Next(s, step), Mover(step).value);
      CountsMoved(s, Next(s, step), Mover(step).value);
    } else {
      LifecycleKeeps(s, step);
    }
  }

  // ---------------------------------------------------------------- whole runs

  /** The cycles and their publishes as a machine. */
  ghost function M(): Machine<State, Step> {
    Machine(s => Init(s), (s, step) => Enabled(s, step), (s, step) => if Enabled(s, step) then Next(s, step) else s)
  }

  lemma InvIsInductive()
    ensures Inductive(M(), s => Inv(s))
  {
    hide Inv, Next, Enabled;
    forall s, step | Inv(s) && M().can(s, step) ensures Inv(M().next(s, step)) {
      StepKeepsInv(s, step);
    }
  }

  lemma ReachableInv(s: State)
    requires Reachable(M(), s)
    ensures Inv(s)
  {
    hide Next, Enabled;
    forall x | M().start(x) ensures Inv(x) {
      assert Init(x);
    }
    InvIsInductive();
    hide Inv;
    ReachableKeeps(M(), x => Inv(x), s);
  }

  /** An accepted publish of cycle k whose callback has not returned. */
  function AwaitedIn(k: CycleId): Send -> bool {
    (x: Send) => x.cycle == Some(k) && (x.phase == Flying || x.phase == Spanned || x.phase == Calling)
  }

  /** A publish of cycle k between its Add and the answer of the transport, or between the
      return of its callback, or the refusal, and its Done. */
  function BrieflyIn(k: CycleId): Send -> bool {
    (x: Send) => x.cycle == Some(k) && (x.phase == Acquired || x.phase == Refused || x.phase == Returned)
  }

  /** In every interleaving the pending count of each cycle is the number of its accepted
      publishes whose callbacks have not returned, and of those about to be accepted,
      refused or discounted: with none of these, the two numbers are the same. */
  lemma PendingCounts(s: State, k: CycleId)
    requires Reachable(M(), s) && k < |s.cycles|
    ensures s.cycles[k].pending == Tally(s.sends, AwaitedIn(k)) + Tally(s.sends, BrieflyIn(k))
    ensures forall i :: i in s.sends && Held(s.sends[i].phase) ==> Homed(s, i)
  {
    ReachableInv(s);
    hide Reachable;
    TallySplit(s.sends, HeldIn(k), AwaitedIn(k), BrieflyIn(k));
    forall i | i in s.sends && Held(s.sends[i].phase) ensures Homed(s, i) {
      assert Once(s.sends[i]);
    }
  }

  /** Each publish finishes its span at most once and calls back at most once; an accepted
      one has done both exactly once when it closes, a failed one finished its span exactly
      once and never calls back. */
  lemma PublishedOnce(s: State, i: SendId)
    requires Reachable(M(), s) && i in s.sends
    ensures
      var x := s.sends[i];
      && x.finishes <= 1 && x.callbacks <= 1
      && (x.phase == Closed ==> x.finishes == 1 && x.callbacks == 1)
      && (x.phase == Failed ==> x.finishes == 1 && x.callbacks == 0)
      && (x.callbacks == 1 ==> Accepted(x.phase) && x.finishes == 1)
  {
    ReachableInv(s);
    hide Reachable;
    assert Once(s.sends[i]);
  }

  // ---------------------------------------------------------------- shutdown

  /** From s to t no publish joined cycle k and its stopper is not reopened. */
  ghost predicate Draining(s: State, t: State, k: CycleId) {
    && k < |s.cycles| <= |t.cycles|
    && t.cycles[k].stopper != Stopper.Open
    && t.cycles[k].pending <= s.cycles[k].pending
    && (s.cycles[k].stopper == Passed ==> t.cycles[k].stopper == Passed)
    && (forall i :: i in t.sends && t.sends[i].cycle == Some(k) ==> i in s.sends && s.sends[i].cycle == Some(k))
    && (forall i :: i in s.sends && s.sends[i].phase == Closed ==> i in t.sends && t.sends[i] == s.sends[i])
  }

  lemma StepDrains(s: State, step: Step, k: CycleId)
    requires Inv(s) && Enabled(s, step) && k < |s.cycles| && s.cycles[k].stopper != Stopper.Open
    ensures Draining(s, Next(s, step), k)
  {
    hide CountsOk, SendsOk;
  }

  lemma {:induction false} ClosedDrains(s: State, steps: seq<Step>, k: CycleId)
    requires Inv(s) && Can(M(), s, steps) && k < |s.cycles| && s.cycles[k].stopper != Stopper.Open
    ensures Draining(s, Play(M(), s, steps), k)
    decreases |steps|
  {
    hide Inv, Next, Enabled;
    if steps != [] {
      StepKeepsInv(s, steps[0]);
      StepDrains(s, steps[0], k);
      ClosedDrains(Next(s, steps[0]), steps[1..], k);
    }
  }

  /** The callback of the publish has returned, or it was never accepted. */
  predicate Over(x: Send) { x.phase == Closed || x.phase == Unsent || x.phase == Failed }

  /** A Shutdown that passed the wait has seen every publish of its cycle out: none of them
      is still to call back, then or after anything that happens later, and none joins. */
  lemma ShutdownSeesAll(s: State, k: CycleId, steps: seq<Step>)
    requires Reachable(M(), s) && k < |s.cycles| && s.cycles[k].stopper == Passed && Can(M(), s, steps)
    ensures
      var t := Play(M(), s, steps);
      && (forall i :: i in s.sends && s.sends[i].cycle == Some(k) ==> Over(s.sends[i]))
      && (forall i :: i in t.sends && t.sends[i].cycle == Some(k) ==>
            i in s.sends && s.sends[i].cycle == Some(k) && Over(t.sends[i]))
      && k < |t.cycles| && t.cycles[k].pending == 0
  {
    ReachableInv(s);
    hide Reachable;
    InvIsInductive();
    RunKeeps(M(), x => Inv(x), s, steps);
    ClosedDrains(s, steps, k);
    var t := Play(M(), s, steps);
    hide Play, Can;
    PassedIsOver(s, k);
    PassedIsOver(t, k);
  }

  lemma PassedIsOver(s: State, k: CycleId)
    requires Inv(s) && k < |s.cycles| && s.cycles[k].stopper == Passed
    ensures forall i :: i in s.sends && s.sends[i].cycle == Some(k) ==> Over(s.sends[i])
    ensures s.cycles[k].pending == 0
  {
    forall i | i in s.sends && s.sends[i].cycle == Some(k) ensures Over(s.sends[i]) {
      TallyZero(s.sends, HeldIn(k), i);
      assert Once(s.sends[i]);
    }
  }

  /** A publish that outlives its cycle touches no other: a step of a publish of cycle k
      leaves every other cycle, which one is current and every other publish as they were. */
  lemma LeftoversStayHome(s: State, step: Step, i: SendId, k: CycleId)
    requires Reachable(M(), s) && Enabled(s, step) && Mover(step) == Some(i)
    requires i in s.sends && s.sends[i].cycle == Some(k)
    ensures
      var t := Next(s, step);
      && |t.cycles| == |s.cycles| && t.current == s.current
      && (forall j :: 0 <= j < |s.cycles| && j != k ==> t.cycles[j] == s.cycles[j])
      && (forall q :: q in s.sends && q != i ==> q in t.sends && t.sends[q] == s.sends[q])
  {
    ReachableInv(s);
    hide Reachable;
    StepMoves(s, step);
    hide SendsOk, CyclesOk, CountsOk, Next, Enabled;
  }

  // ---------------------------------------------------------------- no publish is stuck

  /** How far a publish is from its end. */
  function Rank(p: Phase): nat {
    match p
    case Opened => 7
    case Acquired => 6
    case Flying => 5
    case Spanned => 4
    case Calling => 3
    case Returned => 2
    case Refused => 2
    case Unsent => 1
    case Failed => 0
    case Closed => 0
  }

  predicate Ended(x: Send) { x.phase == Failed || x.phase == Closed }

  function Onward(s: State, i: SendId): Step
    requires i in s.sends && !Ended(s.sends[i])
  {
    match s.sends[i].phase
    case Opened => if Serves(s, s.sends[i].topic) then Acquire(i) else Miss(i)
    case Acquired => Accept(i)
    case Flying => Ack(i)
    case Spanned => CallBack(i)
    case Calling => Return(i)
    case Returned => Done(i)
    case Refused => Discount(i)
    case Unsent => Report(i)
  }

  lemma OnwardEnabled(s: State, i: SendId)
    requires Reachable(M(), s) && i in s.sends && !Ended(s.sends[i])
    ensures Enabled(s, Onward(s, i))
  {
    PendingCountsHome(s, i);
    hide Reachable;
  }

  lemma PendingCountsHome(s: State, i: SendId)
    requires Reachable(M(), s) && i in s.sends
    ensures Held(s.sends[i].phase) ==> Homed(s, i)
  {
    ReachableInv(s);
    hide Reachable;
    assert Once(s.sends[i]);
  }

  lemma OnwardLowers(s: State, i: SendId)
    requires i in s.sends && !Ended(s.sends[i]) && Enabled(s, Onward(s, i))
    ensures i in Next(s, Onward(s, i)).sends
    ensures Rank(Next(s, Onward(s, i)).sends[i].phase) < Rank(s.sends[i].phase)
    ensures Accepted(s.sends[i].phase) ==> Accepted(Next(s, Onward(s, i)).sends[i].phase)
  {
  }

  /** From wherever a publish can be, steps of its own lead it to its end, in whatever cycle the
      producer is by then; an accepted one is called back on the way. */
  lemma {:induction false} PublishCanEnd(s: State, i: SendId) returns (t: State)
    requires Reachable(M(), s) && i in s.sends
    ensures Leads(M(), s, t) && Reachable(M(), t) && i in t.sends && Ended(t.sends[i])
    ensures Accepted(s.sends[i].phase) ==> t.sends[i].phase == Closed && t.sends[i].callbacks == 1
    decreases Rank(s.sends[i].phase)
  {
    hide Reachable, Leads, Next, Enabled, Onward, Rank;
    if Ended(s.sends[i]) {
      t := s;
      LeadsHere(M(), s);
      PublishedOnce(s, i);
    } else {
      var step := Onward(s, i);
      OnwardEnabled(s, i);
      OnwardLowers(s, i);
      StepReached(M(), s, step);
      t := PublishCanEnd(Next(s, step), i);
      LeadsOn(M(), s, step, t);
    }
  }

  /** The life of a cycle: Start opens it with its topics, Shutdown clears the run and waits, and
      the wait can pass exactly when every publish of the cycle is over. */
  lemma CyclesEnd(s: State, k: CycleId, topics: set<Topic>)
    requires Reachable(M(), s)
    ensures s.current.None? ==>
              Next(s, Start(topics)) ==
              s.(cycles := s.cycles + [Cycle(topics, 0, Stopper.Open)], current := Some(|s.cycles|))
    ensures s.current == Some(k) ==>
              && k < |s.cycles|
              && Next(s, Shutdown) == s.(cycles := s.cycles[k := s.cycles[k].(stopper := Waiting)], current := None)
    ensures k < |s.cycles| && s.cycles[k].stopper == Waiting ==>
              (Enabled(s, WaitPasses(k)) <==>
               forall i :: i in s.sends && s.sends[i].cycle == Some(k) ==> Over(s.sends[i]))
    ensures Enabled(s, WaitPasses(k)) ==>
              Next(s, WaitPasses(k)).cycles == s.cycles[k := s.cycles[k].(stopper := Passed)]
  {
    ReachableInv(s);
    hide Reachable;
    if k < |s.cycles| && s.cycles[k].stopper == Waiting {
      if s.cycles[k].pending == 0 {
        forall i | i in s.sends && s.sends[i].cycle == Some(k) ensures Over(s.sends[i]) {
          TallyZero(s.sends, HeldIn(k), i);
          assert Once(s.sends[i]);
        }
      }
      if forall i :: i in s.sends && s.sends[i].cycle == Some(k) ==> Over(s.sends[i]) {
        TallyNone(s.sends, HeldIn(k));
      }
    }
  }

  /** A producer before its first cycle can be reached. */
  lemma StartIsReachable()
    ensures Reachable(M(), State([], None, map[]))
  {
    StartReached(M(), State([], None, map[]));
  }

  /** A publish is taken by the cycle that is current, and only for a topic of that cycle. */
  lemma AcquireIff(s: State, i: SendId)
    requires Reachable(M(), s) && i in s.sends && s.sends[i].phase == Opened
    ensures Enabled(s, Acquire(i)) <==>
            exists k: nat :: s.current == Some(k) && k < |s.cycles| && s.sends[i].topic in s.cycles[k].topics
    ensures Enabled(s, Miss(i)) <==> !Enabled(s, Acquire(i))
    ensures Enabled(s, Acquire(i)) ==>
              && Next(s, Acquire(i)).sends[i].cycle == s.current
              && Next(s, Acquire(i)).cycles[s.current.value].pending == s.cycles[s.current.value].pending + 1
  {
    if Serves(s, s.sends[i].topic) {
      var k := s.current.value;
      assert s.current == Some(k) && k < |s.cycles| && s.sends[i].topic in s.cycles[k].topics;
    }
  }
}
