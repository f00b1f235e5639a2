/** Delivery in nats/consumer: one stream consumer with its semaphore, its wait group and its
    intake, and any number of deliveries, each with a handler and a heartbeat that run
    concurrently. */
module NatsConsumer {
  import opened Wrappers
  import opened Runs
  import opened Counting

  type MsgId = nat

  datatype Result = Succeeds | NoRetry | Fails | Panics

  /** What is sent to the server about a delivery. `backoff` is the delay of a nak, 0 for
      none. */
  datatype Signal = InProgress | Ack | Term | Nak(backoff: nat)

  /** settleOutcome, on what panic recovery makes of a panic: an error that never matches
      ErrNoRetry. */
  function Verdict(r: Result, backoff: nat): Signal {
    match r
    case Succeeds => Ack
    case NoRetry => Term
    case _ => Nak(backoff)
  }

  /** Where a delivery is. */
  datatype Phase =
    | Queued // the callback waits for a slot
    | Slotted // it has a slot and is not yet in the wait group
    | Spawned // its goroutine starts HandleMsg
    | Cleared // it has metadata and the run context was not cancelled when looked at
    | Handling // the handler executes
    | Stopping // the handler is over, the heartbeat is told to stop
    | Deciding // the heartbeat has ended
    | Settled // the terminal signal was sent
    | Freed // its slot is free again
    | Gone // it left the wait group

  /** `beating`: the heartbeat goroutine lives. `result`: how the handler ended, if called. */
  datatype Delivery = Delivery(
    hasMeta: bool,
    phase: Phase,
    beating: bool,
    calls: nat,
    result: Option<Result>,
    log: seq<Signal>)

  datatype Intake = Open | Draining | Closed

  datatype State = State(
    slots: nat, // MaxConcurrent
    backoff: nat, // RetryBackoff
    sem: int,
    wg: int,
    intake: Intake,
    cancelled: bool, // the run context
    quiesced: bool, // quiesce returned nil
    msgs: map<MsgId, Delivery>)

  datatype Step =
    | Deliver(msg: MsgId, hasMeta: bool)
    | TakeSlot(msg: MsgId)
    | Join(msg: MsgId)
    | Skip(msg: MsgId) // no metadata, or the run context is cancelled
    | Clear(msg: MsgId)
    | Handle(msg: MsgId, beats: bool)
    | Beat(msg: MsgId)
    | BeatEnds(msg: MsgId) // told to stop, or the handler's deadline passed
    | HandlerEnds(msg: MsgId, result: Result)
    | BeatJoined(msg: MsgId)
    | Decide(msg: MsgId)
    | FreeSlot(msg: MsgId)
    | Part(msg: MsgId)
    | Cancel
    | Drain
    | Close
    | Quiesce

  /** The callback has not handed the delivery to its goroutine. */
  predicate Waits(p: Phase) { p.Queued? || p.Slotted? }

  predicate In(s: State, i: MsgId, p: Phase) { i in s.msgs && s.msgs[i].phase == p }

  /** When a step may happen. `Close` carries the assumption on the NATS client: the consume
      context is closed only when no callback is executing, and none comes after. */
  ghost predicate Enabled(s: State, step: Step) {
    match step
    case Deliver(i, _) => i !in s.msgs && s.intake != Closed
    case TakeSlot(i) => In(s, i, Queued) && s.sem < s.slots
    case Join(i) => In(s, i, Slotted)
    case Skip(i) => In(s, i, Spawned) && (!s.msgs[i].hasMeta || s.cancelled)
    case Clear(i) => In(s, i, Spawned) && s.msgs[i].hasMeta && !s.cancelled
    case Handle(i, _) => In(s, i, Cleared)
    case Beat(i) => i in s.msgs && s.msgs[i].beating
    case BeatEnds(i) => i in s.msgs && s.msgs[i].beating
    case HandlerEnds(i, _) => In(s, i, Handling)
    case BeatJoined(i) => In(s, i, Stopping) && !s.msgs[i].beating
    case Decide(i) => In(s, i, Deciding) && s.msgs[i].result.Some?
    case FreeSlot(i) => In(s, i, Settled)
    case Part(i) => In(s, i, Freed)
    case Cancel => true
    case Drain => s.intake == Open
    case Close => s.intake == Draining && forall i :: i in s.msgs ==> !Waits(s.msgs[i].phase)
    case Quiesce => s.intake == Closed && s.wg == 0
  }

  function Put(s: State, i: MsgId, d: Delivery): State { s.(msgs := s.msgs[i := d]) }

  function Next(s: State, step: Step): State
    requires Enabled(s, step)
  {
    match step
    case Deliver(i, hasMeta) => Put(s, i, Delivery(hasMeta, Queued, false, 0, None, []))
    case TakeSlot(i) => Put(s, i, s.msgs[i].(phase := Slotted)).(sem := s.sem + 1)
    case Join(i) => Put(s, i, s.msgs[i].(phase := Spawned)).(wg := s.wg + 1)
    case Skip(i) => Put(s, i, s.msgs[i].(phase := Settled, log := s.msgs[i].log + [Nak(0)]))
    case Clear(i) => Put(s, i, s.msgs[i].(phase := Cleared))
    case Handle(i, beats) => Put(s, i, s.msgs[i].(phase := Handling, beating := beats, calls := s.msgs[i].calls + 1))
    case Beat(i) => Put(s, i, s.msgs[i].(log := s.msgs[i].log + [InProgress]))
    case BeatEnds(i) => Put(s, i, s.msgs[i].(beating := false))
    case HandlerEnds(i, r) => Put(s, i, s.msgs[i].(phase := Stopping, result := Some(r)))
    case BeatJoined(i) => Put(s, i, s.msgs[i].(phase := Deciding))
    case Decide(i) =>
      Put(s, i, s.msgs[i].(phase := Settled, log := s.msgs[i].log + [Verdict(s.msgs[i].result.value, s.backoff)]))
    case FreeSlot(i) => Put(s, i, s.msgs[i].(phase := Freed)).(sem := s.sem - 1)
    case Part(i) => Put(s, i, s.msgs[i].(phase := Gone)).(wg := s.wg - 1)
    case Cancel => s.(cancelled := true)
    case Drain => s.(intake := Draining)
    case Close => s.(intake := Closed)
    case Quiesce => s.(quiesced := true)
  }

  // ---------------------------------------------------------------- invariant

  predicate Slot(p: Phase) { !p.Queued? && !p.Freed? && !p.Gone? }

  predicate Member(p: Phase) { !p.Queued? && !p.Slotted? && !p.Gone? }

  predicate IsSettled(p: Phase) { p.Settled? || p.Freed? || p.Gone? }

  /** HandleMsg has not yet looked at the metadata and the run context. */
  predicate Unlooked(p: Phase) { p.Queued? || p.Slotted? || p.Spawned? }

  function HasSlot(): Delivery -> bool { (d: Delivery) => Slot(d.phase) }

  function InGroup(): Delivery -> bool { (d: Delivery) => Member(d.phase) }

  function Executing(): Delivery -> bool { (d: Delivery) => d.phase.Handling? }

  predicate Quiet(log: seq<Signal>) { forall k :: 0 <= k < |log| ==> log[k].InProgress? }

  /** The log of a settled delivery: heartbeats, then its one terminal signal. */
  predicate EndsWith(log: seq<Signal>, g: Signal) {
    |log| > 0 && log[|log| - 1] == g && Quiet(log[..|log| - 1])
  }

  /** The one terminal signal: by the handler's result, or a plain nak if it was not called. */
  function Due(d: Delivery, backoff: nat): Signal {
    if d.result.Some? then Verdict(d.result.value, backoff) else Nak(0)
  }

  predicate DeliveryOk(d: Delivery, backoff: nat, cancelled: bool) {
    && (if IsSettled(d.phase) then EndsWith(d.log, Due(d, backoff)) else Quiet(d.log))
    && (d.beating ==> d.phase.Handling? || d.phase.Stopping?)
    && (d.result.Some? <==> d.phase.Stopping? || d.phase.Deciding? || (IsSettled(d.phase) && d.calls == 1))
    && d.calls <= 1
    && (d.phase.Cleared? ==> d.hasMeta)
    && (d.calls == 1 ==> d.hasMeta && !Unlooked(d.phase) && !d.phase.Cleared?)
    && (d.calls == 0 ==> Unlooked(d.phase) || d.phase.Cleared? || (IsSettled(d.phase) && (!d.hasMeta || cancelled)))
  }

  ghost predicate MsgsOk(s: State) {
    forall i :: i in s.msgs ==> DeliveryOk(s.msgs[i], s.backoff, s.cancelled)
  }

  ghost predicate CountsOk(s: State) {
    && s.sem == Tally(s.msgs, HasSlot()) <= s.slots
    && s.wg == Tally(s.msgs, InGroup())
  }

  ghost predicate IntakeOk(s: State) {
    && (s.intake == Closed ==> forall i :: i in s.msgs ==> !Waits(s.msgs[i].phase))
    && (s.quiesced ==> s.intake == Closed && s.wg == 0)
  }

  ghost predicate Inv(s: State) { MsgsOk(s) && CountsOk(s) && IntakeOk(s) }

  predicate Init(s: State) { s == State(s.slots, s.backoff, 0, 0, Open, false, false, map[]) }

  lemma InitInv(s: State)
    requires Init(s)
    ensures Inv(s)
  {
    TallyNone(s.msgs, HasSlot());
    TallyNone(s.msgs, InGroup());
  }

  function Mover(step: Step): Option<MsgId> {
    if step.Cancel? || step.Drain? || step.Close? || step.Quiesce? then None else Some(step.msg)
  }

  /** What a step of delivery i does to the counts, and to nothing else but i. */
  ghost predicate Counts(s: State, t: State, i: MsgId) {
    && i in t.msgs && t == s.(msgs := s.msgs[i := t.msgs[i]], sem := t.sem, wg := t.wg)
    && t.sem == s.sem - One(i in s.msgs && Slot(s.msgs[i].phase)) + One(Slot(t.msgs[i].phase))
    && t.wg == s.wg - One(i in s.msgs && Member(s.msgs[i].phase)) + One(Member(t.msgs[i].phase))
  }

  ghost predicate Moves(s: State, t: State, i: MsgId) {
    && Counts(s, t, i)
    && (t.sem > s.sem ==> s.sem < s.slots)
    && (i !in s.msgs ==> s.intake != Closed)
    && (Waits(t.msgs[i].phase) ==> i !in s.msgs || Waits(s.msgs[i].phase))
    && (i in s.msgs && s.msgs[i].phase.Gone? ==> t.msgs[i].phase.Gone?)
  }

  lemma StepCounts(s: State, step: Step, i: MsgId)
    requires Enabled(s, step) && Mover(step) == Some(i)
    ensures Counts(s, Next(s, step), i)
  {
    hide Verdict;
    var t := Next(s, step);
    assert t.msgs == s.msgs[i := t.msgs[i]];
  }

  /** A delivery that has its goroutine does not wait again, and one that left stays away. */
  lemma StepGoesOn(s: State, step: Step, i: MsgId)
    requires i in s.msgs ==> DeliveryOk(s.msgs[i], s.backoff, s.cancelled)
    requires Enabled(s, step) && Mover(step) == Some(i)
    ensures i in Next(s, step).msgs
    ensures Waits(Next(s, step).msgs[i].phase) ==> i !in s.msgs || Waits(s.msgs[i].phase)
    ensures i in s.msgs && s.msgs[i].phase.Gone? ==> Next(s, step).msgs[i].phase.Gone?
  {
    assert i in s.msgs && s.msgs[i].beating ==> s.msgs[i].phase.Handling? || s.msgs[i].phase.Stopping?;
    hide DeliveryOk, Verdict;
  }

  lemma StepMoves(s: State, step: Step)
    requires MsgsOk(s) && Enabled(s, step) && Mover(step).Some?
    ensures Moves(s, Next(s, step), Mover(step).value)
  {
    var i := Mover(step).value;
    assert i in s.msgs ==> DeliveryOk(s.msgs[i], s.backoff, s.cancelled);
    hide MsgsOk, DeliveryOk, Verdict, Counts, Waits;
    StepCounts(s, step, i);
    StepGoesOn(s, step, i);
  }

  lemma QuietGrows(log: seq<Signal>, g: Signal)
    requires Quiet(log)
    ensures EndsWith(log + [g], g)
    ensures g.InProgress? ==> Quiet(log + [g])
  {
    assert (log + [g])[..|log|] == log;
  }

  predicate Signals(step: Step) { step.Skip? || step.Beat? || step.Decide? }

  lemma SignalOk(s: State, step: Step, i: MsgId)
    requires i in s.msgs && DeliveryOk(s.msgs[i], s.backoff, s.cancelled)
    requires Enabled(s, step) && Signals(step) && Mover(step) == Some(i)
    ensures i in Next(s, step).msgs && DeliveryOk(Next(s, step).msgs[i], s.backoff, s.cancelled)
  {
    hide EndsWith, Quiet, Verdict;
    var log := s.msgs[i].log;
    if step.Skip? {
      QuietGrows(log, Nak(0));
    } else if step.Beat? {
      QuietGrows(log, InProgress);
    } else {
      QuietGrows(log, Verdict(s.msgs[i].result.value, s.backoff));
    }
  }

  lemma SilentOk(s: State, step: Step, i: MsgId)
    requires i in s.msgs ==> DeliveryOk(s.msgs[i], s.backoff, s.cancelled)
    requires Enabled(s, step) && !Signals(step) && Mover(step) == Some(i)
    ensures i in Next(s, step).msgs && DeliveryOk(Next(s, step).msgs[i], s.backoff, s.cancelled)
  {
    hide EndsWith, Verdict;
  }

  lemma MoverOk(s: State, step: Step)
    requires MsgsOk(s) && Enabled(s, step) && Mover(step).Some?
    ensures Mover(step).value in Next(s, step).msgs
    ensures DeliveryOk(Next(s, step).msgs[Mover(step).value], s.backoff, s.cancelled)
  {
    hide DeliveryOk, Next;
    if Signals(step) {
      SignalOk(s, step, Mover(step).value);
    } else {
      SilentOk(s, step, Mover(step).value);
    }
  }

  lemma Moved(s: State, t: State, i: MsgId)
    requires Inv(s) && Moves(s, t, i) && DeliveryOk(t.msgs[i], s.backoff, s.cancelled)
    ensures Inv(t)
  {
    hide DeliveryOk;
    TallyUpdate(s.msgs, i, t.msgs[i], HasSlot());
    TallyUpdate(s.msgs, i, t.msgs[i], InGroup());
    if s.quiesced && i in s.msgs {
      TallyZero(s.msgs, InGroup(), i);
    }
  }

  lemma StepKeepsInv(s: State, step: Step)
    requires Inv(s) && Enabled(s, step)
    ensures Inv(Next(s, step))
  {
    if Mover(step).Some? {
      StepMoves(s, step);
      MoverOk(s, step);
      hide *;
      Moved(s, Next(s, step), Mover(step).value);
    } else {
      hide EndsWith, Quiet, Due;
    }
  }

  // ---------------------------------------------------------------- whole runs

  /** The consumer and its deliveries as a machine. */
  ghost function M(): Machine<State, Step> {
    Machine(s => Init(s), (s, step) => Enabled(s, step), (s, step) => if Enabled(s, step) then Next(s, step) else s)
  }

  lemma InvIsInductive()
    ensures Inductive(M(), s => Inv(s))
  {
    hide Inv, Next, Enabled;
    forall s, step | Inv(s) && M().can(s, step) ensures Inv(M().next(s, step)) {
      StepKeepsInv(s, step);
    }
  }

  lemma ReachableInv(s: State)
    requires Reachable(M(), s)
    ensures Inv(s)
  {
    hide Next, Enabled;
    forall x | M().start(x) ensures Inv(x) {
      InitInv(x);
    }
    InvIsInductive();
    hide Inv;
    ReachableKeeps(M(), x => Inv(x), s);
  }

  /** The signal that the result of a handler calls for: ack for success, term for a result
      that must not be retried, and a nak with the backoff for a failure or a panic. */
  predicate Fits(g: Signal, r: Result, backoff: nat) {
    && (r == Succeeds ==> g == Ack)
    && (r == NoRetry ==> g == Term)
    && (r == Fails || r == Panics ==> g == Nak(backoff))
  }

  /** Every delivery that left HandleMsg got exactly one terminal signal, after all its
      heartbeats, and the one its handler's result calls for; the handler was called at most
      once, and not called only for a message without metadata or after the cancellation. A
      delivery still on its way has got heartbeats only. */
  lemma SettledOnce(s: State, i: MsgId)
    requires Reachable(M(), s) && i in s.msgs
    ensures
      var d := s.msgs[i];
      && (IsSettled(d.phase) ==> EndsWith(d.log, Due(d, s.backoff)) && !d.beating)
      && (!IsSettled(d.phase) ==> Quiet(d.log))
      && d.calls <= 1
      && (IsSettled(d.phase) && d.calls == 0 ==>
            d.result.None? && (!d.hasMeta || s.cancelled) && d.log[|d.log| - 1] == Nak(0))
      && (IsSettled(d.phase) && d.calls == 1 ==>
            d.result.Some? && d.hasMeta && Fits(d.log[|d.log| - 1], d.result.value, s.backoff))
  {
    ReachableInv(s);
    hide Reachable;
    assert DeliveryOk(s.msgs[i], s.backoff, s.cancelled);
    hide Quiet, MsgsOk, CountsOk, IntakeOk;
  }

  /** At most MaxConcurrent handlers execute at once. */
  lemma AtMostMaxConcurrent(s: State)
    requires Reachable(M(), s)
    ensures Tally(s.msgs, Executing()) <= s.slots
    ensures |set i | i in s.msgs && s.msgs[i].phase.Handling?| <= s.slots
  {
    ReachableInv(s);
    assert Where(s.msgs, Executing()) == set i | i in s.msgs && s.msgs[i].phase.Handling?;
    hide Reachable;
    assert Where(s.msgs, Executing()) <= Where(s.msgs, HasSlot());
    TallyWithin(s.msgs, Executing(), HasSlot());
  }

  /** A step leaves the log and the settled phase of a settled delivery, and no heartbeat of
      it is left that could tick. */
  lemma StepKeepsSettled(s: State, step: Step, i: MsgId)
    requires Inv(s) && Enabled(s, step) && i in s.msgs && IsSettled(s.msgs[i].phase)
    ensures
      var t := Next(s, step);
      i in t.msgs && IsSettled(t.msgs[i].phase) && t.msgs[i].log == s.msgs[i].log
  {
    assert DeliveryOk(s.msgs[i], s.backoff, s.cancelled);
    assert !s.msgs[i].beating;
    hide MsgsOk, CountsOk, IntakeOk, DeliveryOk;
    if Mover(step) == Some(i) {
      OwnStepKeeps(s, step, i);
    } else if Mover(step).Some? {
      StepCounts(s, step, Mover(step).value);
      hide Next, Enabled;
    }
  }

  lemma OwnStepKeeps(s: State, step: Step, i: MsgId)
    requires Enabled(s, step) && Mover(step) == Some(i)
    requires i in s.msgs && IsSettled(s.msgs[i].phase) && !s.msgs[i].beating
    ensures i in Next(s, step).msgs && IsSettled(Next(s, step).msgs[i].phase)
    ensures Next(s, step).msgs[i].log == s.msgs[i].log
  {
    assert step.FreeSlot? || step.Part? by {
      hide Next;
    }
  }

  /** Nothing is sent about a delivery after its terminal signal, whatever happens later. */
  lemma {:induction false} NothingAfterSettling(s: State, steps: seq<Step>, i: MsgId)
    requires Reachable(M(), s) && Can(M(), s, steps) && i in s.msgs && IsSettled(s.msgs[i].phase)
    ensures
      var t := Play(M(), s, steps);
      i in t.msgs && IsSettled(t.msgs[i].phase) && t.msgs[i].log == s.msgs[i].log
    decreases |steps|
  {
    hide Inv, Next, Enabled;
    ReachableInv(s);
    if steps != [] {
      StepReached(M(), s, steps[0]);
      StepKeepsSettled(s, steps[0], i);
      NothingAfterSettling(Next(s, steps[0]), steps[1..], i);
    }
  }

  lemma QuietIsGone(s: State, i: MsgId)
    requires Inv(s) && s.quiesced && i in s.msgs
    ensures s.msgs[i].phase.Gone?
  {
    TallyZero(s.msgs, InGroup(), i);
  }

  lemma StepStaysQuiet(s: State, step: Step)
    requires Inv(s) && Enabled(s, step) && s.quiesced
    ensures Next(s, step).quiesced && forall i :: i in Next(s, step).msgs ==> i in s.msgs
  {
    hide MsgsOk, CountsOk;
  }

  /** After a quiesce that returned nil every delivery ever made is gone, settled and its
      handler over, and no delivery follows, whatever happens later. */
  lemma {:induction false} QuiesceIsFinal(s: State, steps: seq<Step>)
    requires Reachable(M(), s) && s.quiesced && Can(M(), s, steps)
    ensures
      var t := Play(M(), s, steps);
      forall i :: i in t.msgs ==> i in s.msgs && s.msgs[i].phase.Gone? && t.msgs[i].phase.Gone?
    decreases |steps|
  {
    hide Inv, Next, Enabled;
    ReachableInv(s);
    forall i | i in s.msgs ensures s.msgs[i].phase.Gone? {
      QuietIsGone(s, i);
    }
    if steps != [] {
      StepReached(M(), s, steps[0]);
      StepStaysQuiet(s, steps[0]);
      QuiesceIsFinal(Next(s, steps[0]), steps[1..]);
    }
  }

  lemma StepCallsNoMore(s: State, step: Step, i: MsgId)
    requires Inv(s) && Enabled(s, step) && s.cancelled
    requires i in s.msgs ==> s.msgs[i].calls == 0 && !s.msgs[i].phase.Cleared?
    ensures Next(s, step).cancelled
    ensures i in Next(s, step).msgs ==> Next(s, step).msgs[i].calls == 0 && !Next(s, step).msgs[i].phase.Cleared?
  {
    hide MsgsOk, CountsOk, IntakeOk;
  }

  /** Once the run context is cancelled, a delivery that HandleMsg has not yet cleared, and
      every later one, never has its handler called, whatever happens. */
  lemma {:induction false} CancelledMeansSkipped(s: State, steps: seq<Step>, i: MsgId)
    requires Reachable(M(), s) && Can(M(), s, steps) && s.cancelled
    requires i in s.msgs ==> s.msgs[i].calls == 0 && !s.msgs[i].phase.Cleared?
    ensures
      var t := Play(M(), s, steps);
      i in t.msgs ==> t.msgs[i].calls == 0 && (IsSettled(t.msgs[i].phase) ==> EndsWith(t.msgs[i].log, Nak(0)))
    decreases |steps|
  {
    hide Inv, Next, Enabled;
    ReachableInv(s);
    if steps != [] {
      StepReached(M(), s, steps[0]);
      StepCallsNoMore(s, steps[0], i);
      CancelledMeansSkipped(Next(s, steps[0]), steps[1..], i);
    } else if i in s.msgs && IsSettled(s.msgs[i].phase) {
      UncalledIsNaked(s, i);
    }
  }

  lemma UncalledIsNaked(s: State, i: MsgId)
    requires Inv(s) && i in s.msgs && s.msgs[i].calls == 0 && IsSettled(s.msgs[i].phase)
    ensures EndsWith(s.msgs[i].log, Nak(0))
  {
    assert DeliveryOk(s.msgs[i], s.backoff, s.cancelled);
  }

  // ---------------------------------------------------------------- no delivery is stuck

  /** How far a delivery with a slot is from its end. */
  function Rank(d: Delivery): nat {
    (if d.beating then 1 else 0) +
    match d.phase
    case Queued => 10
    case Slotted => 9
    case Spawned => 8
    case Cleared => 7
    case Handling => 5
    case Stopping => 4
    case Deciding => 3
    case Settled => 2
    case Freed => 1
    case Gone => 0
  }

  function Onward(s: State, i: MsgId): Step
    requires i in s.msgs && !s.msgs[i].phase.Gone?
  {
    var d := s.msgs[i];
    match d.phase
    case Queued => TakeSlot(i)
    case Slotted => Join(i)
    case Spawned => if d.hasMeta && !s.cancelled then Clear(i) else Skip(i)
    case Cleared => Handle(i, true)
    case Handling => HandlerEnds(i, Succeeds)
    case Stopping => if d.beating then BeatEnds(i) else BeatJoined(i)
    case Deciding => Decide(i)
    case Settled => FreeSlot(i)
    case Freed => Part(i)
  }

  lemma OnwardEnabled(s: State, i: MsgId)
    requires Reachable(M(), s) && i in s.msgs && !s.msgs[i].phase.Gone?
    requires s.msgs[i].phase.Queued? ==> s.sem < s.slots
    ensures Enabled(s, Onward(s, i))
  {
    ReachableInv(s);
    assert DeliveryOk(s.msgs[i], s.backoff, s.cancelled);
    hide Reachable, MsgsOk, CountsOk, IntakeOk, EndsWith, Quiet, Due;
  }

  lemma OnwardLowers(s: State, i: MsgId)
    requires i in s.msgs && !s.msgs[i].phase.Gone? && Enabled(s, Onward(s, i))
    ensures i in Next(s, Onward(s, i)).msgs && !Next(s, Onward(s, i)).msgs[i].phase.Queued?
    ensures Rank(Next(s, Onward(s, i)).msgs[i]) < Rank(s.msgs[i])
  {
    hide Verdict;
  }

  /** From wherever a delivery with a slot can be, steps of its own settle it and give the slot
      and its place in the wait group back; one that waits needs only a free slot. */
  lemma {:induction false} DeliveryCanEnd(s: State, i: MsgId) returns (t: State)
    requires Reachable(M(), s) && i in s.msgs
    requires s.msgs[i].phase.Queued? ==> s.sem < s.slots
    ensures Leads(M(), s, t) && i in t.msgs && t.msgs[i].phase.Gone?
    decreases Rank(s.msgs[i])
  {
    hide Reachable, Leads, Next, Enabled, Onward, Rank;
    if s.msgs[i].phase.Gone? {
      t := s;
      LeadsHere(M(), s);
    } else {
      var step := Onward(s, i);
      OnwardEnabled(s, i);
      OnwardLowers(s, i);
      StepReached(M(), s, step);
      t := DeliveryCanEnd(Next(s, step), i);
      LeadsOn(M(), s, step, t);
    }
  }

  lemma GroupIsEmptyIff(s: State)
    requires CountsOk(s) && forall i :: i in s.msgs ==> !Waits(s.msgs[i].phase)
    ensures s.wg == 0 <==> forall i :: i in s.msgs ==> s.msgs[i].phase.Gone?
  {
    if s.wg == 0 {
      forall i | i in s.msgs ensures s.msgs[i].phase.Gone? {
        TallyZero(s.msgs, InGroup(), i);
      }
    }
    if forall i :: i in s.msgs ==> s.msgs[i].phase.Gone? {
      TallyNone(s.msgs, InGroup());
    }
  }

  /** A quiesce can answer nil exactly when the intake is closed and every delivery is gone. */
  lemma QuiesceIff(s: State)
    requires Reachable(M(), s)
    ensures Enabled(s, Quiesce) <==> s.intake == Closed && forall i :: i in s.msgs ==> s.msgs[i].phase.Gone?
  {
    ReachableInv(s);
    hide Reachable, MsgsOk, CountsOk;
    if s.intake == Closed { GroupIsEmptyIff(s); }
  }

  /** What the steps of the intake do. */
  lemma IntakeMoves(s: State)
    ensures Enabled(s, Quiesce) ==> Next(s, Quiesce) == s.(quiesced := true)
    ensures Enabled(s, Drain) ==> Next(s, Drain) == s.(intake := Draining)
    ensures Enabled(s, Close) ==> Next(s, Close) == s.(intake := Closed)
    ensures Next(s, Cancel) == s.(cancelled := true)
  {
  }

  /** A consumer that has been given nothing yet can be reached, whatever its settings. */
  lemma StartIsReachable(slots: nat, backoff: nat)
    ensures Reachable(M(), State(slots, backoff, 0, 0, Open, false, false, map[]))
  {
    StartReached(M(), State(slots, backoff, 0, 0, Open, false, false, map[]));
  }
}
