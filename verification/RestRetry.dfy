/** The call pipeline of rest/client/middleware.go: `logging` fixes the deadline of a call,
    `retry` sends the request again while that is safe, and `deadline` bounds each attempt.

    Time is a number that advances only inside attempts and waits. What the call meets is an
    arbitrary `World`: `net(k)` is what the vendor does with request number k of the call,
    so a property proved here holds for every sequence of replies and every jitter. */
module RestRetry {
  import opened Wrappers
  import opened RestDelay

  // ---------------------------------------------------------------- contexts

  /** A context with a deadline, which is cancelled at `cancelAt` if that comes first. */
  datatype Ctx = Ctx(deadline: int, cancelAt: Option<int>)

  function DoneAt(ctx: Ctx): int {
    if ctx.cancelAt.Some? then Min(ctx.deadline, ctx.cancelAt.value) else ctx.deadline
  }

  /** ctx.Err() != nil. */
  predicate Done(ctx: Ctx, now: int) { now >= DoneAt(ctx) }

  // ---------------------------------------------------------------- requests and replies

  datatype Verb = GET | HEAD | OPTIONS | PUT | DELETE | TRACE | POST | PATCH | OTHER

  class Request {
    const verb: Verb
    const idempotencyKey: bool // the Idempotency-Key header is not empty
    const oneShotBody: bool // a stream body, or a multipart part backed by a reader
    const urlOk: bool // http or https, with a host
    var timeout: int // the Hertz request timeout

    constructor (verb: Verb, idempotencyKey: bool, oneShotBody: bool, urlOk: bool, timeout: int)
      ensures this.verb == verb && this.idempotencyKey == idempotencyKey
      ensures this.oneShotBody == oneShotBody && this.urlOk == urlOk && this.timeout == timeout
    {
      this.verb, this.idempotencyKey, this.oneShotBody := verb, idempotencyKey, oneShotBody;
      this.urlOk, this.timeout := urlOk, timeout;
    }

    /** retryable. */
    predicate Retryable() {
      !oneShotBody && (verb !in {POST, PATCH, OTHER} || idempotencyKey)
    }
  }

  class Response {
    var status: int
    var retryAfter: RetryAfter
    var skipBody: bool

    constructor (skipBody: bool)
      ensures this.skipBody == skipBody && status == 0 && retryAfter == Absent
    {
      this.skipBody, status, retryAfter := skipBody, 0, Absent;
    }

    method Reset()
      modifies this
      ensures status == 0 && retryAfter == Absent && !skipBody
    {
      status, retryAfter, skipBody := 0, Absent, false;
    }
  }

  /** What the vendor does with one request, and after how long. */
  datatype Reply =
    | Answer(status: int, retryAfter: RetryAfter, elapsed: nat)
    | Silence(elapsed: nat) // the Hertz timeout, or a connection deadline
    | Broken(fatal: bool, elapsed: nat) // a transport error, fatal when it cannot succeed on a retry

  /** Everything the call does not decide itself: the replies, the random jitter before
      retry n, and which of a timer and a context that fire at once is seen first. */
  datatype World = World(net: nat -> Reply, jitter: nat -> nat, timerFirst: nat -> bool)

  datatype Failure =
    | CtxEnded // the error of the context
    | AttemptTimeout
    | Transport(fatal: bool)
    | Informational
    | BadUrl

  datatype Outcome = Success(status: int, retryAfter: RetryAfter) | Failed(why: Failure)

  // ---------------------------------------------------------------- configuration

  datatype Config = Config(timeout: int, attemptTimeout: int, maxAttempts: int, backoff: Backoff, maxRetryAfter: int)

  /** What Validate accepts once SetDefaults has replaced zeros. */
  predicate ConfigOk(cfg: Config) {
    Validated(cfg.backoff) && cfg.maxAttempts >= 1 && cfg.timeout > 0 && cfg.attemptTimeout > 0 && cfg.maxRetryAfter > 0
  }

  // ---------------------------------------------------------------- one attempt

  /** The transport honours the request timeout: a reply that takes longer is a silence. */
  function Within(reply: Reply, limit: int): Reply {
    if reply.elapsed > limit then Silence(reply.elapsed) else reply
  }

  /** What the deadline step makes of a reply that ended at `now`. */
  function Judge(ctx: Ctx, reply: Reply, now: int): Outcome {
    match reply
    case Answer(status, ra, _) =>
      if 100 < status < 200 then Failed(Informational)
      else if Done(ctx, now) then Failed(CtxEnded)
      else Success(status, ra)
    case Silence(_) => Failed(if Done(ctx, now) then CtxEnded else AttemptTimeout)
    case Broken(fatal, _) => Failed(if Done(ctx, now) then CtxEnded else Transport(fatal))
  }

  /** A wait that was planned for `planned` and ended at `end`. */
  datatype Pause = Pause(planned: int, end: int)

  /** One round of a call: a request that was sent, the time limit it was given, its
      outcome, and the wait after it if there was one. */
  datatype Round = Round(start: int, end: int, limit: int, outcome: Outcome, pause: Option<Pause>)

  /** deadline: stop without sending when no time is left, otherwise send with the shorter of
      the attempt timeout and the time left, and put the caller's timeout back. */
  method Deadline(cfg: Config, ctx: Ctx, req: Request, resp: Response, reply: Reply, now: int)
    returns (outcome: Outcome, end: int, sent: Option<Round>)
    requires ConfigOk(cfg)
    modifies req, resp
    ensures req.timeout == old(req.timeout) && resp.skipBody == old(resp.skipBody)
    ensures sent.None? ==> outcome == Failed(CtxEnded) && end == now && Done(ctx, now)
    ensures sent.Some? ==> AttemptOk(cfg, ctx, reply, sent.value) && sent.value.start == now && sent.value.end == end
                           && sent.value.outcome == outcome && sent.value.pause.None?
    ensures outcome.Success? ==> resp.status == outcome.status && resp.retryAfter == outcome.retryAfter
  {
    var d := Min(cfg.attemptTimeout, ctx.deadline - now);
    if Done(ctx, now) || d <= 0 {
      return Failed(CtxEnded), now, None;
    }
    var caller := req.timeout;
    req.timeout := d;
    end := now + Min(reply.elapsed, req.timeout);
    if reply.Answer? && reply.elapsed <= d {
      resp.status, resp.retryAfter := reply.status, reply.retryAfter;
    }
    req.timeout := caller;
    outcome := Judge(ctx, Within(reply, d), end);
    sent := Some(Round(now, end, d, outcome, None));
  }

  // ---------------------------------------------------------------- when to retry

  predicate RetryableFailure(f: Failure) {
    match f
    case Transport(fatal) => !fatal
    case Informational => false
    case BadUrl => false
    case _ => true
  }

  predicate RetryableStatus(status: int) { status == 429 || status == 502 || status == 503 || status == 504 }

  predicate RetryableOutcome(o: Outcome) {
    match o
    case Failed(why) => RetryableFailure(why)
    case Success(status, _) => RetryableStatus(status)
  }

  /** The delay that Retry-After asks for, if the outcome carries one that counts. */
  function AskedDelay(o: Outcome, now: int): Delay {
    if o.Success? && (o.status == 429 || o.status == 503) then ParseRetryAfter(o.retryAfter, now) else NoDelay
  }

  /** The jitter drawn for retry `n`: `j` brought below the bound. */
  function Jittered(c: Backoff, n: nat, j: nat): int
    requires Validated(c) && n >= 1
  {
    CapIsMin(c, n);
    j % Cap(c, n)
  }

  lemma JitterIsBelow(c: Backoff, n: nat, j: nat)
    requires Validated(c) && n >= 1
    ensures 0 <= Jittered(c, n, j) < Cap(c, n)
  {
    CapIsMin(c, n);
  }

  /** retryDelay: how long to wait before the next attempt, or not to retry. */
  function RetryDelay(ctx: Ctx, cfg: Config, attempt: nat, o: Outcome, now: int, jitter: nat): Option<int>
    requires ConfigOk(cfg) && attempt >= 1
  {
    var asked := AskedDelay(o, now);
    if !RetryableOutcome(o) then None
    else if asked.Delay? && asked.nanos > cfg.maxRetryAfter then None
    else
      var delay := if asked.Delay? then asked.nanos else Jittered(cfg.backoff, attempt, jitter);
      if now + delay > ctx.deadline then None else Some(delay)
  }

  // ---------------------------------------------------------------- what a run may look like

  /** An attempt: sent while the context lives, with the shorter of the attempt timeout and
      the time left, over within it, and judged by the reply. */
  predicate AttemptOk(cfg: Config, ctx: Ctx, reply: Reply, a: Round) {
    && !Done(ctx, a.start)
    && a.limit == Min(cfg.attemptTimeout, ctx.deadline - a.start) && a.limit > 0
    && a.end == a.start + Min(reply.elapsed, a.limit)
    && a.outcome == Judge(ctx, Within(reply, a.limit), a.end)
  }

  /** A wait after attempt `n`: only while attempts are left and the context lives, and for
      the delay that the outcome calls for. */
  predicate PauseOk(cfg: Config, ctx: Ctx, n: nat, jitter: nat, a: Round)
    requires ConfigOk(cfg) && n >= 1 && a.pause.Some?
  {
    var w := a.pause.value;
    && n < cfg.maxAttempts && !Done(ctx, a.end)
    && RetryDelay(ctx, cfg, n, a.outcome, a.end, jitter) == Some(w.planned)
    && w.end == Min(a.end + w.planned, DoneAt(ctx))
  }

  /** The next round starts where a wait that ran its full course ended. */
  predicate Resumes(a: Round, start: int) {
    a.pause.Some? && start == a.pause.value.end == a.end + a.pause.value.planned
  }

  ghost predicate RunOk(cfg: Config, ctx: Ctx, world: World, run: seq<Round>)
    requires ConfigOk(cfg)
  {
    && (forall i :: 0 <= i < |run| ==> AttemptOk(cfg, ctx, world.net(i), run[i]))
    && (forall i :: 0 <= i < |run| && run[i].pause.Some? ==> PauseOk(cfg, ctx, i + 1, world.jitter(i + 1), run[i]))
    && (forall i :: 0 <= i < |run| - 1 ==> Resumes(run[i], run[i + 1].start))
  }

  /** How a run may end. With the outcome of its last attempt, and then only because the
      request may not be sent again, the attempts are used up, the context has ended, or
      that outcome calls for no retry. Or with the context's error, when the context ended
      in a wait or before anything else was sent. */
  predicate EndsWith(cfg: Config, ctx: Ctx, world: World, again: bool, run: seq<Round>, o: Outcome, from: int)
    requires ConfigOk(cfg)
  {
    if run == [] then o == Failed(CtxEnded) && Done(ctx, from)
    else
      var last := run[|run| - 1];
      if last.pause.Some? then o == Failed(CtxEnded) && Done(ctx, last.pause.value.end)
      else
        && o == last.outcome
        && (|| !again
            || |run| >= cfg.maxAttempts
            || Done(ctx, last.end)
            || RetryDelay(ctx, cfg, |run|, o, last.end, world.jitter(|run|)).None?)
  }

  // ---------------------------------------------------------------- the retry loop

  /** wait: the timer or the context, whichever comes first; `timerFirst` breaks a tie. */
  method WaitFor(ctx: Ctx, delay: int, timerFirst: bool, now: int) returns (end: int, over: bool)
    ensures end == Min(now + delay, DoneAt(ctx))
    ensures over ==> end == now + delay
    ensures !over ==> Done(ctx, end)
  {
    var due := now + delay;
    over := due < DoneAt(ctx) || (due == DoneAt(ctx) && timerFirst);
    end := Min(due, DoneAt(ctx));
  }

  method Retry(cfg: Config, ctx: Ctx, req: Request, resp: Response, world: World, now: int)
    returns (outcome: Outcome, run: seq<Round>)
    requires ConfigOk(cfg)
    modifies req, resp
    ensures req.timeout == old(req.timeout) && resp.skipBody == old(resp.skipBody)
    ensures RunOk(cfg, ctx, world, run) && EndsWith(cfg, ctx, world, req.Retryable(), run, outcome, now)
    ensures run != [] ==> run[0].start == now
    ensures req.oneShotBody ==> |run| <= 1
    ensures req.verb in {POST, PATCH, OTHER} && !req.idempotencyKey ==> |run| <= 1
    ensures !req.oneShotBody && (req.verb in {GET, HEAD, OPTIONS, PUT, DELETE, TRACE} || req.idempotencyKey) ==>
              EndsWith(cfg, ctx, world, true, run, outcome, now)
    ensures outcome.Success? ==> resp.status == outcome.status && resp.retryAfter == outcome.retryAfter
  {
    hide AttemptOk, RetryDelay, RunOk;
    run := [];
    var clock := now;
    NothingRan(cfg, ctx, world);
    if !req.Retryable() {
      var end, sent;
      outcome, end, sent := Deadline(cfg, ctx, req, resp, world.net(0), clock);
      if sent.Some? {
        RunExtends(cfg, ctx, world, [], sent.value);
        run := [sent.value];
      }
      return;
    }
    var attempt := 1;
    while true
      invariant 1 <= attempt <= cfg.maxAttempts && |run| == attempt - 1
      invariant RunOk(cfg, ctx, world, run)
      invariant run == [] ==> clock == now
      invariant run != [] ==> run[0].start == now && Resumes(run[|run| - 1], clock)
      invariant req.timeout == old(req.timeout) && resp.skipBody == old(resp.skipBody)
      decreases cfg.maxAttempts - attempt
    {
      var end, sent;
      outcome, end, sent := Deadline(cfg, ctx, req, resp, world.net(attempt - 1), clock);
      clock := end;
      if attempt >= cfg.maxAttempts || Done(ctx, clock) {
        if sent.Some? {
          RunExtends(cfg, ctx, world, run, sent.value);
          run := run + [sent.value];
        }
        return;
      }
      var delay := RetryDelay(ctx, cfg, attempt, outcome, clock, world.jitter(attempt));
      if delay.None? {
        RunExtends(cfg, ctx, world, run, sent.value);
        run := run + [sent.value];
        return;
      }
      var over;
      clock, over := WaitFor(ctx, delay.value, world.timerFirst(attempt), clock);
      PauseHolds(cfg, ctx, world.net(attempt - 1), sent.value, Pause(delay.value, clock));
      var paused := sent.value.(pause := Some(Pause(delay.value, clock)));
      RunExtends(cfg, ctx, world, run, paused);
      run := run + [paused];
      if !over {
        return Failed(CtxEnded), run;
      }
      var skipBody := resp.skipBody;
      resp.Reset();
      resp.skipBody := skipBody;
      attempt := attempt + 1;
    }
  }

  lemma NothingRan(cfg: Config, ctx: Ctx, world: World)
    requires ConfigOk(cfg)
    ensures RunOk(cfg, ctx, world, [])
  {
  }

  /** One more round that is as it should be and starts where the last one let it. */
  lemma RunExtends(cfg: Config, ctx: Ctx, world: World, run: seq<Round>, a: Round)
    requires ConfigOk(cfg) && RunOk(cfg, ctx, world, run) && AttemptOk(cfg, ctx, world.net(|run|), a)
    requires a.pause.Some? ==> PauseOk(cfg, ctx, |run| + 1, world.jitter(|run| + 1), a)
    requires run != [] ==> Resumes(run[|run| - 1], a.start)
    ensures RunOk(cfg, ctx, world, run + [a])
    ensures run == [] ==> run + [a] == [a]
  {
    hide AttemptOk, PauseOk, Resumes;
  }

  lemma PauseHolds(cfg: Config, ctx: Ctx, reply: Reply, a: Round, w: Pause)
    requires AttemptOk(cfg, ctx, reply, a)
    ensures AttemptOk(cfg, ctx, reply, a.(pause := Some(w)))
  {
  }

  // ---------------------------------------------------------------- the whole call

  /** The deadline that logging fixes: the caller's request timeout when there is one, and
      otherwise the client's timeout unless the context brings its own deadline. */
  function CallDeadline(cfg: Config, requestTimeout: int, parent: Option<int>, now: int): int {
    if requestTimeout > 0 then
      if parent.Some? then Min(parent.value, now + requestTimeout) else now + requestTimeout
    else if parent.Some? then parent.value
    else now + cfg.timeout
  }

  method Call(cfg: Config, parent: Option<int>, cancelAt: Option<int>, req: Request, resp: Response,
              world: World, now: int)
    returns (outcome: Outcome, run: seq<Round>, ghost ctx: Ctx)
    requires ConfigOk(cfg)
    modifies req, resp
    ensures ctx == Ctx(CallDeadline(cfg, old(req.timeout), parent, now), cancelAt)
    ensures old(req.timeout) > 0 && parent.None? ==> ctx.deadline == now + old(req.timeout)
    ensures old(req.timeout) > 0 && parent.Some? ==>
              ctx.deadline == if parent.value < now + old(req.timeout) then parent.value else now + old(req.timeout)
    ensures old(req.timeout) <= 0 && parent.Some? ==> ctx.deadline == parent.value
    ensures old(req.timeout) <= 0 && parent.None? ==> ctx.deadline == now + cfg.timeout
    ensures req.timeout == old(req.timeout) && resp.skipBody == old(resp.skipBody)
    ensures !req.urlOk ==> run == [] && outcome == Failed(BadUrl)
    ensures req.urlOk ==> RunOk(cfg, ctx, world, run) && EndsWith(cfg, ctx, world, req.Retryable(), run, outcome, now)
    ensures req.oneShotBody ==> |run| <= 1
    ensures req.verb in {POST, PATCH, OTHER} && !req.idempotencyKey ==> |run| <= 1
    ensures req.urlOk && !req.oneShotBody
            && (req.verb in {GET, HEAD, OPTIONS, PUT, DELETE, TRACE} || req.idempotencyKey) ==>
              EndsWith(cfg, ctx, world, true, run, outcome, now)
    ensures outcome.Success? ==> resp.status == outcome.status && resp.retryAfter == outcome.retryAfter
  {
    var deadline := CallDeadline(cfg, req.timeout, parent, now);
    ctx := Ctx(deadline, cancelAt);
    if !req.urlOk {
      return Failed(BadUrl), [], ctx;
    }
    outcome, run := Retry(cfg, Ctx(deadline, cancelAt), req, resp, world, now);
  }

  // ---------------------------------------------------------------- what the outcomes mean

  /** The context is alive: neither its deadline nor its cancellation has come. */
  predicate Alive(ctx: Ctx, now: int) {
    now < ctx.deadline && (ctx.cancelAt.Some? ==> now < ctx.cancelAt.value)
  }

  /** What an attempt comes to. The limit is the attempt timeout or the time left, if that is
      shorter. A reply within the limit counts as it is, a 1xx status other than 100 fails it,
      a later reply is a timeout, and whatever else came, the context's error wins. */
  lemma AttemptMeans(cfg: Config, ctx: Ctx, reply: Reply, a: Round)
    requires AttemptOk(cfg, ctx, reply, a)
    ensures var left := ctx.deadline - a.start;
            a.limit == if cfg.attemptTimeout < left then cfg.attemptTimeout else left
    ensures a.limit > 0 && Alive(ctx, a.start)
    ensures a.end == a.start + if reply.elapsed < a.limit then reply.elapsed else a.limit
    ensures reply.Answer? && reply.elapsed <= a.limit && 100 < reply.status < 200 ==> a.outcome == Failed(Informational)
    ensures !(reply.Answer? && reply.elapsed <= a.limit && 100 < reply.status < 200) && !Alive(ctx, a.end) ==>
              a.outcome == Failed(CtxEnded)
    ensures Alive(ctx, a.end) ==>
              && (reply.Answer? && reply.elapsed <= a.limit && !(100 < reply.status < 200) ==>
                    a.outcome == Success(reply.status, reply.retryAfter))
              && (reply.Broken? && reply.elapsed <= a.limit ==> a.outcome == Failed(Transport(reply.fatal)))
              && (reply.Silence? || reply.elapsed > a.limit ==> a.outcome == Failed(AttemptTimeout))
  {
  }

  /** The outcomes after which a request may be sent again: a timeout of the attempt, a
      transport error that is not fatal, and four statuses. */
  predicate MayRepeat(o: Outcome) {
    || o == Failed(AttemptTimeout)
    || o == Failed(Transport(false))
    || (o.Success? && (o.status == 429 || o.status == 502 || o.status == 503 || o.status == 504))
  }

  /** What the outcome asks for by Retry-After, which counts with status 429 and 503 only. */
  predicate Asks(o: Outcome, now: int, nanos: int) {
    && o.Success? && (o.status == 429 || o.status == 503)
    && match o.retryAfter
       case Absent => false
       case Seconds(v) => v >= 0 && nanos == (if v < 9_223_372_036 then v else 9_223_372_036) * 1_000_000_000
       case Date(at) => nanos == if at > now then at - now else 0
  }

  lemma AskedIs(o: Outcome, now: int)
    ensures match AskedDelay(o, now)
            case Delay(n) => Asks(o, now, n)
            case NoDelay => forall n :: !Asks(o, now, n)
    ensures forall n, m :: Asks(o, now, n) && Asks(o, now, m) ==> n == m
  {
    if o.Success? && o.retryAfter.Seconds? { SecondsConvert(o.retryAfter.value, now); }
    if o.Success? && o.retryAfter.Date? { DatesConvert(o.retryAfter.at, now); }
    hide ParseRetryAfter;
  }

  /** When an outcome calls for no retry while the context is alive: it is not one of the
      repeatable ones, it asks for more than is allowed, or the wait it calls for would pass
      the deadline. */
  lemma NoRetryIff(ctx: Ctx, cfg: Config, n: nat, o: Outcome, now: int, jitter: nat)
    requires ConfigOk(cfg) && n >= 1 && Alive(ctx, now) && o != Failed(CtxEnded)
    ensures RetryDelay(ctx, cfg, n, o, now, jitter).None? <==>
            || !MayRepeat(o)
            || (exists a :: Asks(o, now, a) && (a > cfg.maxRetryAfter || now + a > ctx.deadline))
            || ((forall a :: !Asks(o, now, a)) && now + Jittered(cfg.backoff, n, jitter) > ctx.deadline)
  {
    AskedIs(o, now);
    hide Cap, Pow2, Asks, AskedDelay, Jittered;
  }

  /** Why the run of a repeatable request ended with the outcome of its last attempt. */
  lemma EndIsJustified(cfg: Config, ctx: Ctx, world: World, run: seq<Round>, o: Outcome, from: int)
    requires ConfigOk(cfg) && RunOk(cfg, ctx, world, run) && EndsWith(cfg, ctx, world, true, run, o, from)
    requires run != [] && run[|run| - 1].pause.None?
    ensures var now := run[|run| - 1].end;
            && o == run[|run| - 1].outcome
            && (|| |run| == cfg.maxAttempts
                || !Alive(ctx, now)
                || !MayRepeat(o)
                || (exists a :: Asks(o, now, a) && (a > cfg.maxRetryAfter || now + a > ctx.deadline))
                || now + Jittered(cfg.backoff, |run|, world.jitter(|run|)) > ctx.deadline)
  {
    RunIsSafe(cfg, ctx, world, run, 0);
    var last := run[|run| - 1];
    assert AttemptOk(cfg, ctx, world.net(|run| - 1), last);
    AttemptMeans(cfg, ctx, world.net(|run| - 1), last);
    if Alive(ctx, last.end) && |run| < cfg.maxAttempts {
      assert last.outcome != Failed(CtxEnded);
      NoRetryIff(ctx, cfg, |run|, o, last.end, world.jitter(|run|));
    }
    hide RetryDelay, Cap, Jittered, AttemptOk, RunOk, MayRepeat, Asks;
  }

  // ---------------------------------------------------------------- safety of every run

  /** A wait is as long as Retry-After asks and then within the configured limit, or else
      shorter than the jitter bound of that retry; it comes after a retryable outcome; and
      it is over by the deadline. */
  lemma PauseBounds(cfg: Config, ctx: Ctx, n: nat, jitter: nat, a: Round)
    requires ConfigOk(cfg) && n >= 1 && a.pause.Some? && PauseOk(cfg, ctx, n, jitter, a)
    ensures RetryableOutcome(a.outcome)
    ensures n < cfg.maxAttempts && Alive(ctx, a.end)
    ensures forall d :: Asks(a.outcome, a.end, d) ==> a.pause.value.planned == d <= cfg.maxRetryAfter
    ensures var asked := AskedDelay(a.outcome, a.end);
            if asked.Delay? then a.pause.value.planned == asked.nanos <= cfg.maxRetryAfter
            else a.pause.value.planned < Min(cfg.backoff.max, cfg.backoff.base * Pow2(n - 1))
    ensures 0 <= a.pause.value.planned
    ensures a.end <= a.pause.value.end <= ctx.deadline
  {
    var o := a.outcome;
    AskedIs(o, a.end);
    JitterIsBelow(cfg.backoff, n, jitter);
    CapIsMin(cfg.backoff, n);
    hide Cap;
    hide Pow2;
    if o.Success? && o.retryAfter.Seconds? { SecondsConvert(o.retryAfter.value, a.end); }
  }

  lemma RoundInBudget(cfg: Config, ctx: Ctx, world: World, run: seq<Round>, i: nat)
    requires ConfigOk(cfg) && RunOk(cfg, ctx, world, run) && i < |run|
    ensures run[i].start < DoneAt(ctx) && run[i].start <= run[i].end <= ctx.deadline
    ensures run[i].pause.Some? ==> run[i].end <= run[i].pause.value.end <= ctx.deadline
    ensures i + 1 < |run| ==> run[i].end <= run[i + 1].start
  {
    assert AttemptOk(cfg, ctx, world.net(i), run[i]);
    if run[i].pause.Some? { PauseBounds(cfg, ctx, i + 1, world.jitter(i + 1), run[i]); }
    if i + 1 < |run| { assert Resumes(run[i], run[i + 1].start); }
  }

  /** Time budget: in every run the rounds follow one another, no attempt and no wait ends
      after the deadline, and nothing is sent once the context has ended. */
  lemma {:induction false} RunInBudget(cfg: Config, ctx: Ctx, world: World, run: seq<Round>, i: nat, j: nat)
    requires ConfigOk(cfg) && RunOk(cfg, ctx, world, run) && i <= j < |run|
    ensures i < j ==> run[i].end <= run[j].start
    ensures run[j].end <= ctx.deadline && Alive(ctx, run[j].start)
    ensures run[j].pause.Some? ==> run[j].pause.value.end <= ctx.deadline
    decreases j - i
  {
    hide RunOk;
    RoundInBudget(cfg, ctx, world, run, i);
    RoundInBudget(cfg, ctx, world, run, j);
    if i < j {
      RoundInBudget(cfg, ctx, world, run, i + 1);
      RunInBudget(cfg, ctx, world, run, i + 1, j);
    }
  }

  /** Retry safety: no run has more attempts than allowed, and every attempt that another
      one follows ended in a retryable outcome while the context was alive. */
  lemma RunIsSafe(cfg: Config, ctx: Ctx, world: World, run: seq<Round>, i: nat)
    requires ConfigOk(cfg) && RunOk(cfg, ctx, world, run)
    ensures |run| <= cfg.maxAttempts
    ensures i + 1 < |run| ==> Alive(ctx, run[i].end) && MayRepeat(run[i].outcome)
  {
    if |run| > 1 {
      var k := |run| - 2;
      assert Resumes(run[k], run[k + 1].start);
      assert PauseOk(cfg, ctx, k + 1, world.jitter(k + 1), run[k]);
    } else {
      assert cfg.maxAttempts >= 1;
    }
    if i + 1 < |run| {
      assert Resumes(run[i], run[i + 1].start);
      PauseBounds(cfg, ctx, i + 1, world.jitter(i + 1), run[i]);
    }
  }
}
