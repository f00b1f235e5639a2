/** One cache entry of confloader/confloader.go, shared by any number of readers and pollers.
    Two locks guard it: `fetchMu` around a backend fetch, and the data lock, under which every
    change of the fields is one atomic step. A panicking poll marks the entry from outside
    `fetchMu`. */
module ConfCache {
  import opened Wrappers
  import opened Runs

  /** NotFound is the definitive absence; every other error is transient. */
  datatype Error = NotFound | Other(text: string)

  datatype Answer = Value(value: string) | Fails(error: Error)

  /** What is applied to the entry under the data lock. */
  datatype Outcome = Fetched(value: string, revision: string) | Failed(error: Error) | Marked(text: string)

  datatype Entry = Entry(
    value: string, revision: string, hasValue: bool, fetchErr: Option<Error>, fetched: bool, stale: bool)

  const COLD: Entry := Entry("", "", false, None, false, false)

  /** The tail of refreshOne, and the body of markAllStale. */
  function Settle(e: Entry, o: Outcome): Entry {
    match o
    case Fetched(v, rev) => Entry(v, rev, true, None, true, false)
    case Failed(err) => e.(fetchErr := Some(err), stale := err != NotFound && e.hasValue, fetched := true)
    case Marked(text) => e.(fetchErr := Some(Other(text)), stale := e.hasValue, fetched := true)
  }

  predicate NeedsRefresh(e: Entry) { !e.fetched || e.stale }

  /** What getterCore.get answers from the fields. */
  function Answers(e: Entry): Answer {
    if !e.hasValue then Fails(if e.fetchErr.Some? then e.fetchErr.value else NotFound)
    else if e.fetchErr.Some? then Fails(e.fetchErr.value)
    else Value(e.value)
  }

  // ---------------------------------------------------------------- the simple specification

  /** What an outcome means to a reader. */
  function Means(o: Outcome): Answer {
    match o
    case Fetched(v, _) => Value(v)
    case Failed(err) => Fails(err)
    case Marked(text) => Fails(Other(text))
  }

  predicate Transient(o: Outcome) { Means(o).Fails? && Means(o).error != NotFound }

  predicate Ever(hist: seq<Outcome>) { exists i :: 0 <= i < |hist| && hist[i].Fetched? }

  /** The last outcome was transient and a value had been fetched before. */
  predicate Drifted(hist: seq<Outcome>) { hist != [] && Transient(hist[|hist| - 1]) && Ever(hist) }

  /** The entry is what the history of applied outcomes says, and nothing else of it. */
  ghost predicate Reflects(e: Entry, hist: seq<Outcome>) {
    && (e.fetched <==> hist != [])
    && (e.hasValue <==> Ever(hist))
    && (e.stale <==> Drifted(hist))
    && (hist == [] ==> e == COLD)
    && (hist != [] ==> e.fetchErr == var m := Means(hist[|hist| - 1]); if m.Fails? then Some(m.error) else None)
    && (forall i :: LastFetch(hist, i) ==> e.value == hist[i].value && e.revision == hist[i].revision)
  }

  /** i is the place of the last success. */
  predicate LastFetch(hist: seq<Outcome>, i: int) {
    0 <= i < |hist| && hist[i].Fetched? && forall j :: i < j < |hist| ==> !hist[j].Fetched?
  }

  lemma EverGrows(hist: seq<Outcome>, o: Outcome)
    ensures Ever(hist + [o]) <==> Ever(hist) || o.Fetched?
  {
    var more := hist + [o];
    if o.Fetched? {
      assert more[|hist|].Fetched?;
    }
    if Ever(hist) {
      var i :| 0 <= i < |hist| && hist[i].Fetched?;
      assert more[i].Fetched?;
    }
  }

  lemma LastFetchGrows(hist: seq<Outcome>, o: Outcome, i: int)
    requires LastFetch(hist + [o], i)
    ensures if o.Fetched? then i == |hist| else LastFetch(hist, i)
  {
    var more := hist + [o];
    assert more[|hist|] == o;
    assert forall j :: 0 <= j < |hist| ==> more[j] == hist[j];
  }

  /** Applying one more outcome keeps the entry at what its history says. */
  lemma SettleReflects(e: Entry, hist: seq<Outcome>, o: Outcome)
    requires Reflects(e, hist)
    ensures Reflects(Settle(e, o), hist + [o])
  {
    var more := hist + [o];
    EverGrows(hist, o);
    forall i | LastFetch(more, i)
      ensures Settle(e, o).value == more[i].value && Settle(e, o).revision == more[i].revision
    {
      LastFetchGrows(hist, o, i);
    }
  }

  lemma AnswersMean(e: Entry, hist: seq<Outcome>)
    requires Reflects(e, hist)
    ensures hist != [] ==> Answers(e) == Means(hist[|hist| - 1])
    ensures NeedsRefresh(e) <==> hist == [] || Drifted(hist)
  {
    if hist != [] && hist[|hist| - 1].Fetched? {
      assert Ever(hist) && LastFetch(hist, |hist| - 1);
    }
  }

  /** Once anything was applied, a read answers with the last outcome: its value, or exactly
      its error. Stale means a value is kept and an error is known. */
  lemma AnswerIsLastOutcome(e: Entry, hist: seq<Outcome>)
    requires Reflects(e, hist)
    ensures hist != [] ==>
              match hist[|hist| - 1]
              case Fetched(v, _) => Answers(e) == Value(v)
              case Failed(err) => Answers(e) == Fails(err)
              case Marked(text) => Answers(e) == Fails(Other(text))
    ensures hist != [] && hist[|hist| - 1].Fetched? ==>
              e.hasValue && e.value == hist[|hist| - 1].value && e.revision == hist[|hist| - 1].revision
    ensures e.stale ==> e.hasValue && e.fetchErr.Some?
    ensures e.stale <==>
            && hist != [] && !hist[|hist| - 1].Fetched? && hist[|hist| - 1] != Failed(NotFound)
            && exists i :: 0 <= i < |hist| && hist[i].Fetched?
    ensures NeedsRefresh(e) <==> hist == [] || e.stale
  {
    AnswersMean(e, hist);
  }

  /** How many outcomes of the history were transient after a success. */
  function Drifts(hist: seq<Outcome>): nat {
    if hist == [] then 0 else Drifts(hist[..|hist| - 1]) + if Drifted(hist) then 1 else 0
  }

  /** One more drift is counted for an outcome that is no success and no absence, behind some
      success. */
  lemma DriftsCount(hist: seq<Outcome>, o: Outcome)
    ensures Drifts([]) == 0
    ensures var drift := !o.Fetched? && o != Failed(NotFound) && exists i :: 0 <= i < |hist| && hist[i].Fetched?;
            Drifts(hist + [o]) == Drifts(hist) + if drift then 1 else 0
  {
    var more := hist + [o];
    assert more[..|more| - 1] == hist && more[|more| - 1] == o;
    EverGrows(hist, o);
  }

  // ---------------------------------------------------------------- the protocol

  type Thread = nat

  /** Where a thread is. `seen` is the length of the history when the reader looked at the
      entry first, and `at` when it read its answer. */
  datatype Phase =
    | Waiting(seen: nat) // a reader that found the entry cold or stale
    | Polling // a forced refresh that waits for fetchMu
    | Checking(seen: nat) // a reader that holds fetchMu, before its second look
    | Fetching(reader: Option<nat>) // holds fetchMu, calls the backend
    | Applied(reader: Option<nat>) // holds fetchMu, outcome applied or found fresh
    | Reading(seen: nat, found: bool) // about to read; found: the first look found it fresh
    | Answered(seen: nat, found: bool, at: nat, answer: Answer)
    | Gone // a poll that ended, or a panic that left

  predicate Holds(p: Phase) { p.Checking? || p.Fetching? || p.Applied? }

  predicate ReadFetch(p: Phase) { p.Fetching? && p.reader.Some? }

  datatype State = State(
    entry: Entry,
    fetchMu: Option<Thread>,
    threads: map<Thread, Phase>,
    hist: seq<Outcome>, // the outcomes applied so far
    fetches: nat, // on-read refreshes that reached the backend
    drifts: nat, // applied outcomes that left the entry stale
    panics: nat) // on-read refreshes whose backend call panicked

  datatype Step =
    | Get(t: Thread) // a reader arrives and looks
    | Poll(t: Thread) // a forced refresh arrives
    | Lock(t: Thread)
    | Recheck(t: Thread)
    | Apply(t: Thread, outcome: Outcome)
    | Panic(t: Thread)
    | Release(t: Thread)
    | Mark(text: string) // markAllStale after a poll panicked, on any entry
    | Read(t: Thread)

  predicate Enabled(s: State, step: Step) {
    match step
    case Get(t) => t !in s.threads
    case Poll(t) => t !in s.threads
    case Lock(t) => t in s.threads && (s.threads[t].Waiting? || s.threads[t].Polling?) && s.fetchMu.None?
    case Recheck(t) => t in s.threads && s.threads[t].Checking?
    case Apply(t, o) => t in s.threads && s.threads[t].Fetching? && !o.Marked?
    case Panic(t) => t in s.threads && s.threads[t].Fetching?
    case Release(t) => t in s.threads && s.threads[t].Applied?
    case Mark(_) => true
    case Read(t) => t in s.threads && s.threads[t].Reading?
  }

  function At(s: State, t: Thread, p: Phase): State { s.(threads := s.threads[t := p]) }

  function Record(s: State, o: Outcome): State {
    var e := Settle(s.entry, o);
    s.(entry := e, hist := s.hist + [o], drifts := s.drifts + if e.stale then 1 else 0)
  }

  function Next(s: State, step: Step): State
    requires Enabled(s, step)
  {
    match step
    case Get(t) => At(s, t, if NeedsRefresh(s.entry) then Waiting(|s.hist|) else Reading(|s.hist|, true))
    case Poll(t) => At(s, t, Polling)
    case Lock(t) =>
      At(s, t, if s.threads[t].Waiting? then Checking(s.threads[t].seen) else Fetching(None)).(fetchMu := Some(t))
    case Recheck(t) =>
      var seen := s.threads[t].seen;
      if NeedsRefresh(s.entry) then At(s, t, Fetching(Some(seen))).(fetches := s.fetches + 1)
      else At(s, t, Applied(Some(seen)))
    case Apply(t, o) => At(Record(s, o), t, Applied(s.threads[t].reader))
    case Panic(t) =>
      At(s, t, Gone).(fetchMu := None, panics := s.panics + if s.threads[t].reader.Some? then 1 else 0)
    case Release(t) =>
      At(s, t, if s.threads[t].reader.Some? then Reading(s.threads[t].reader.value, false) else Gone).(fetchMu := None)
    case Mark(text) => Record(s, Marked(text))
    case Read(t) =>
      At(s, t, Answered(s.threads[t].seen, s.threads[t].found, |s.hist|, Answers(s.entry)))
  }

  // ---------------------------------------------------------------- invariant

  /** fetchMu is held by the one thread that is between its Lock and its Unlock. */
  ghost predicate LockOk(s: State) {
    forall t :: t in s.threads ==> (Holds(s.threads[t]) <==> s.fetchMu == Some(t))
  }

  /** What a thread knows of the history. */
  predicate Knows(p: Phase, e: Entry, hist: seq<Outcome>) {
    match p
    case Waiting(seen) => seen <= |hist| && (seen == |hist| ==> NeedsRefresh(e))
    case Checking(seen) => seen <= |hist| && (seen == |hist| ==> NeedsRefresh(e))
    case Fetching(reader) => reader.Some? ==> reader.value <= |hist|
    case Applied(reader) => reader.Some? ==> reader.value < |hist|
    case Reading(seen, found) => seen <= |hist| && hist != [] && (!found ==> seen < |hist|)
    case Answered(seen, found, at, answer) =>
      seen <= at <= |hist| && 1 <= at && (!found ==> seen < at) && answer == Means(hist[at - 1])
    case _ => true
  }

  ghost predicate ThreadsOk(s: State) {
    forall t :: t in s.threads ==> Knows(s.threads[t], s.entry, s.hist)
  }

  predicate Busy(s: State) {
    s.fetchMu.Some? && s.fetchMu.value in s.threads && ReadFetch(s.threads[s.fetchMu.value])
  }

  /** Each on-read fetch is paid for: by the cold start, by an outcome that left the entry
      stale, or by a panic; and if a fetch could start now, one more is paid for. */
  ghost predicate Paid(s: State) {
    s.drifts == Drifts(s.hist) &&
    s.fetches + (if NeedsRefresh(s.entry) && !Busy(s) then 1 else 0) <= 1 + s.drifts + s.panics
  }

  ghost predicate Inv(s: State) {
    && Reflects(s.entry, s.hist)
    && LockOk(s)
    && ThreadsOk(s)
    && Paid(s)
    && (s.fetchMu.Some? ==> s.fetchMu.value in s.threads)
  }

  predicate Init(s: State) { s == State(COLD, None, map[], [], 0, 0, 0) }

  /** One more outcome takes nothing from what a thread knows, except that a thread waiting
      for a refresh may now find one. */
  lemma KnowsMore(p: Phase, e: Entry, hist: seq<Outcome>, o: Outcome)
    requires Knows(p, e, hist)
    ensures Knows(p, Settle(e, o), hist + [o])
  {
    var more := hist + [o];
    if p.Answered? {
      assert more[p.at - 1] == hist[p.at - 1];
    }
  }

  lemma StepReflects(s: State, step: Step)
    requires Reflects(s.entry, s.hist) && Enabled(s, step)
    ensures Reflects(Next(s, step).entry, Next(s, step).hist)
  {
    hide Reflects, Settle;
    if step.Apply? {
      SettleReflects(s.entry, s.hist, step.outcome);
    }
    if step.Mark? {
      SettleReflects(s.entry, s.hist, Marked(step.text));
    }
  }

  lemma StepLocks(s: State, step: Step)
    requires LockOk(s) && Enabled(s, step) && (s.fetchMu.Some? ==> s.fetchMu.value in s.threads)
    ensures var n := Next(s, step); LockOk(n) && (n.fetchMu.Some? ==> n.fetchMu.value in n.threads)
  {
    hide Settle;
  }

  lemma RecordKnows(s: State, o: Outcome)
    requires ThreadsOk(s)
    ensures ThreadsOk(Record(s, o))
  {
    hide Knows, Settle;
    forall t | t in s.threads ensures Knows(s.threads[t], Settle(s.entry, o), s.hist + [o]) {
      KnowsMore(s.threads[t], s.entry, s.hist, o);
    }
  }

  lemma StepKnows(s: State, step: Step)
    requires Reflects(s.entry, s.hist) && ThreadsOk(s) && Enabled(s, step)
    ensures ThreadsOk(Next(s, step))
  {
    AnswersMean(s.entry, s.hist);
    hide Reflects, Settle, Answers, Means, Drifted, NeedsRefresh;
    if step.Apply? {
      assert Knows(s.threads[step.t], s.entry, s.hist);
      RecordKnows(s, step.outcome);
    } else if step.Mark? {
      RecordKnows(s, Marked(step.text));
    }
  }

  /** The counted drifts are those of the history. */
  lemma RecordDrifts(s: State, o: Outcome)
    requires Reflects(s.entry, s.hist) && s.drifts == Drifts(s.hist)
    ensures Record(s, o).drifts == Drifts(Record(s, o).hist)
  {
    var more := s.hist + [o];
    SettleReflects(s.entry, s.hist, o);
    assert more[..|more| - 1] == s.hist;
    hide Drifted, Settle;
  }

  lemma StepPays(s: State, step: Step)
    requires Inv(s) && Enabled(s, step)
    ensures Paid(Next(s, step))
  {
    if step.Apply? {
      RecordDrifts(s, step.outcome);
    } else if step.Mark? {
      RecordDrifts(s, Marked(step.text));
    }
    hide Reflects, ThreadsOk, Drifts;
  }

  lemma StepKeepsInv(s: State, step: Step)
    requires Inv(s) && Enabled(s, step)
    ensures Inv(Next(s, step))
  {
    StepReflects(s, step);
    StepLocks(s, step);
    StepKnows(s, step);
    StepPays(s, step);
    hide Next, Enabled, Reflects, LockOk, ThreadsOk, Paid;
  }

  // ---------------------------------------------------------------- whole runs

  /** The entry and its threads as a machine. */
  ghost function M(): Machine<State, Step> {
    Machine(s => Init(s), (s, step) => Enabled(s, step), (s, step) => if Enabled(s, step) then Next(s, step) else s)
  }

  lemma InvIsInductive()
    ensures Inductive(M(), s => Inv(s))
  {
    hide Inv, Next, Enabled;
    forall s, step | Inv(s) && M().can(s, step) ensures Inv(M().next(s, step)) {
      StepKeepsInv(s, step);
    }
  }

  lemma ReachableInv(s: State)
    requires Reachable(M(), s)
    ensures Inv(s)
  {
    hide Next, Enabled;
    forall x | M().start(x) ensures Inv(x) {
      assert Init(x);
    }
    InvIsInductive();
    hide Inv;
    ReachableKeeps(M(), x => Inv(x), s);
  }

  /** In every interleaving the entry is what the applied outcomes say, and every answer
      given is exactly the meaning of an outcome that was the last one when it was read. A
      reader that found the entry cold or stale answers with a newer outcome than it found. */
  lemma AnswersReflectOutcomes(s: State, t: Thread)
    requires Reachable(M(), s) && t in s.threads && s.threads[t].Answered?
    ensures
      var a := s.threads[t];
      && a.seen <= a.at && 1 <= a.at <= |s.hist|
      && (!a.found ==> a.seen < a.at)
      && match s.hist[a.at - 1]
         case Fetched(v, _) => a.answer == Value(v)
         case Failed(err) => a.answer == Fails(err)
         case Marked(text) => a.answer == Fails(Other(text))
  {
    ReachableInv(s);
    hide Reachable, Reflects, LockOk, Paid;
    assert Knows(s.threads[t], s.entry, s.hist);
  }

  /** In every reachable state: the fields are the summary of the history, the next read
      answers with its last outcome, and a stale entry holds a value and an error. */
  lemma EntryReflectsHistory(s: State)
    requires Reachable(M(), s)
    ensures Reflects(s.entry, s.hist)
    ensures s.hist != [] ==>
              match s.hist[|s.hist| - 1]
              case Fetched(v, _) => Answers(s.entry) == Value(v)
              case Failed(err) => Answers(s.entry) == Fails(err)
              case Marked(text) => Answers(s.entry) == Fails(Other(text))
    ensures s.entry.stale ==> s.entry.hasValue && s.entry.fetchErr.Some?
    ensures s.entry.stale <==>
            && s.hist != [] && !s.hist[|s.hist| - 1].Fetched? && s.hist[|s.hist| - 1] != Failed(NotFound)
            && exists i :: 0 <= i < |s.hist| && s.hist[i].Fetched?
    ensures !s.entry.fetched || s.entry.stale <==> s.hist == [] || s.entry.stale
  {
    ReachableInv(s);
    hide Reachable, Reflects, LockOk, ThreadsOk, Paid;
    AnswerIsLastOutcome(s.entry, s.hist);
  }

  /** Read coalescing, in every interleaving and whatever marks bypass fetchMu: beyond the
      first, each on-read fetch needs an outcome that left the entry stale or an on-read
      fetch that panicked. */
  lemma ReadsCoalesce(s: State)
    requires Reachable(M(), s)
    ensures s.fetches <= 1 + Drifts(s.hist) + s.panics
    ensures s.panics == 0 ==> s.fetches <= 1 + Drifts(s.hist)
  {
    ReachableInv(s);
  }

  // ---------------------------------------------------------------- the panics do count

  /** The bound without the panics is false: for every k a run exists in which k readers of
      a cold entry panic in the backend, nothing is ever left stale, and a further reader
      fetches, so that the full bound is met with equality. */
  lemma {:induction false} PanicsCount(k: nat) returns (s: State)
    ensures Reachable(M(), s) && s.panics == k && Drifts(s.hist) == 0 && s.fetches == 1 + k
  {
    var t: State := ColdPanics(k);
    s := Fetches(t, k);
  }

  /** A reader of a cold entry gets as far as the backend. */
  lemma Fetches(s: State, t: Thread) returns (n: State)
    requires Reachable(M(), s) && s.fetchMu.None? && t !in s.threads && s.entry == COLD
    ensures Reachable(M(), n)
    ensures n == s.(threads := n.threads, fetchMu := Some(t), fetches := s.fetches + 1)
    ensures n.threads == s.threads[t := Fetching(Some(|s.hist|))]
  {
    hide Reachable;
    StepReached(M(), s, Get(t));
    var a := Next(s, Get(t));
    StepReached(M(), a, Lock(t));
    var b := Next(a, Lock(t));
    StepReached(M(), b, Recheck(t));
    n := Next(b, Recheck(t));
  }

  lemma {:induction false} ColdPanics(k: nat) returns (s: State)
    ensures Reachable(M(), s) && s.fetchMu.None? && s.entry == COLD
    ensures s.panics == k && Drifts(s.hist) == 0 && s.fetches == k
    ensures forall t :: t in s.threads ==> t < k
  {
    if k == 0 {
      s := State(COLD, None, map[], [], 0, 0, 0);
      StartReached(M(), s);
    } else {
      var t: State := ColdPanics(k - 1);
      var n: State := Fetches(t, k - 1);
      StepReached(M(), n, Panic(k - 1));
      s := Next(n, Panic(k - 1));
    }
  }

  // ---------------------------------------------------------------- no reader is stuck

  /** How far a thread is from its end. */
  function Rank(p: Phase): nat {
    match p
    case Waiting(_) => 6
    case Polling => 6
    case Checking(_) => 5
    case Fetching(_) => 4
    case Applied(_) => 3
    case Reading(_, _) => 2
    case Answered(_, _, _, _) => 1
    case Gone => 0
  }

  predicate Ended(p: Phase) { p.Answered? || p.Gone? }

  function Onward(s: State, t: Thread): Step
    requires t in s.threads && !Ended(s.threads[t])
  {
    match s.threads[t]
    case Waiting(_) => Lock(t)
    case Polling => Lock(t)
    case Checking(_) => Recheck(t)
    case Fetching(_) => Apply(t, Failed(NotFound))
    case Applied(_) => Release(t)
    case Reading(_, _) => Read(t)
  }

  lemma OnwardEnabled(s: State, t: Thread)
    requires t in s.threads && !Ended(s.threads[t])
    requires (s.threads[t].Waiting? || s.threads[t].Polling?) ==> s.fetchMu.None?
    ensures Enabled(s, Onward(s, t))
  {
  }

  lemma OnwardLowers(s: State, t: Thread)
    requires t in s.threads && !Ended(s.threads[t]) && Enabled(s, Onward(s, t))
    ensures var n := Next(s, Onward(s, t));
            && t in n.threads && Rank(n.threads[t]) < Rank(s.threads[t])
            && !n.threads[t].Waiting? && !n.threads[t].Polling?
            && (!PollersOwn(s.threads[t]) ==> !n.threads[t].Gone? && !PollersOwn(n.threads[t]))
  {
    hide Settle, Answers;
  }

  /** A forced refresh, which gives no answer. */
  predicate PollersOwn(p: Phase) {
    p.Polling? || (p.Fetching? && p.reader.None?) || (p.Applied? && p.reader.None?)
  }

  /** A thread that does not wait for fetchMu gets to its end by steps of its own, and then
      does not hold it; a reader ends with an answer. */
  lemma {:induction false} ThreadCanEnd(s: State, t: Thread) returns (n: State)
    requires Reachable(M(), s) && t in s.threads
    requires (s.threads[t].Waiting? || s.threads[t].Polling?) ==> s.fetchMu.None?
    ensures Leads(M(), s, n) && Reachable(M(), n) && t in n.threads && Ended(n.threads[t])
    ensures !PollersOwn(s.threads[t]) && !s.threads[t].Gone? ==> n.threads[t].Answered?
    decreases Rank(s.threads[t])
  {
    hide Reachable, Leads, Next, Enabled, Onward, Rank;
    if Ended(s.threads[t]) {
      n := s;
      LeadsHere(M(), s);
    } else {
      var step := Onward(s, t);
      OnwardEnabled(s, t);
      OnwardLowers(s, t);
      StepReached(M(), s, step);
      n := ThreadCanEnd(Next(s, step), t);
      LeadsOn(M(), s, step, n);
    }
  }

  /** Whoever holds fetchMu can be led to give it back, so no reader waits for it for ever. */
  lemma LockCanBeFreed(s: State) returns (n: State)
    requires Reachable(M(), s) && s.fetchMu.Some?
    ensures s.fetchMu.value in s.threads && Leads(M(), s, n) && Reachable(M(), n)
    ensures s.fetchMu.value in n.threads && n.fetchMu != s.fetchMu
  {
    ReachableInv(s);
    var t := s.fetchMu.value;
    assert Holds(s.threads[t]);
    hide Reachable, Reflects, ThreadsOk, Paid;
    n := ThreadCanEnd(s, t);
    ReachableInv(n);
  }
}
