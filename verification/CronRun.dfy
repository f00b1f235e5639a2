/** The engine object of cron/engine/engine.go and one run of a job through the middleware
    chain of cron/engine/middleware.go. Each method is one critical section, or a sequence
    of them with the deferred calls written out; `View` ties the fields to the engine of
    the state machine. */
module CronRun {
  import opened Wrappers
  import opened CronEngine

  datatype Error =
    | EngineAlreadyStarted
    | EmptyJobName
    | NilHandler
    | InvalidSchedule
    | JobAlreadyExists
    | JobNotFound
    | EngineStopped
    | JobRunning
    | JobDisabled
    | LockHeld
    | LockFailed
    | NoToken
    | HandlerFailed
    | Panicked

  /** How a call ended: `err` is None for a nil error. */
  datatype Reply = Returns(err: Option<Error>) | Panics

  /** What the code that a run calls into will do. */
  datatype Toggle = NoToggler | Enabled | Disabled | ToggleError | TogglePanics
  datatype LockReply =
    | NoLocker
    | Token(fencePanics: bool, unlockPanics: bool)
    | Held
    | LockError
    | NilToken
    | LockPanics

  /** A job as registered: what matters of it is its name, whether its handler is nil and
      whether its schedule parses. */
  datatype JobSpec = JobSpec(name: Job, hasHandler: bool, parses: bool)

  /** The calls a run makes to the world, in order. */
  datatype Call = AskToggler | AskLock | Handle | Release

  /** What a token from Lock obliges the run to: the calls from Lock on. */
  predicate Bracketed(calls: seq<Call>, lock: LockReply) {
    && (lock.Token? ==> calls == [AskLock, Handle, Release] || calls == [AskLock, Release])
    && (lock.NoLocker? ==> calls == [Handle])
    && (!lock.Token? && !lock.NoLocker? ==> calls == [AskLock])
  }

  /** The calls from Lock on. */
  function LockCalls(lock: LockReply): seq<Call> {
    match lock
    case NoLocker => [Handle]
    case Token(fencePanics, _) => if fencePanics then [AskLock, Release] else [AskLock, Handle, Release]
    case _ => [AskLock]
  }

  /** The error of a lock call that gave no token. */
  function Refusal(lock: LockReply): Error {
    if lock.Held? then LockHeld else if lock.NilToken? then NoToken else LockFailed
  }

  /** The handler is reached: the engine admits the run, the guard and the toggler let it
      pass, and the lock, if there is one, is granted. */
  predicate Reaches(admitted: bool, toggle: Toggle, lock: LockReply) {
    && admitted && !toggle.Disabled? && !toggle.TogglePanics?
    && (lock.NoLocker? || (lock.Token? && !lock.fencePanics))
  }

  class Engine {
    var jobs: map<Job, JobSpec>
    var running: bool
    var stopping: bool
    var active: int
    var inFlight: set<Job>
    var stopper: Stopper
    const locker: bool

    function View(): Eng
      reads this
    {
      Eng(stopping, active, inFlight, locker, stopper)
    }

    constructor (locker: bool)
      ensures View() == Eng(false, 0, {}, locker, NotStopped) && jobs == map[] && !running
    {
      jobs := map[];
      running := false;
      stopping := false;
      active := 0;
      inFlight := {};
      stopper := NotStopped;
      this.locker := locker;
    }

    /** A job is stored iff the engine has neither started nor stopped and the job is new
        and well formed; an error leaves the engine as it was. */
    method Register(job: JobSpec) returns (err: Option<Error>)
      modifies this`jobs
      ensures err.None? <==>
                !running && !stopping && job.name != "" && job.hasHandler && job.parses && job.name !in old(jobs)
      ensures err.None? ==> jobs == old(jobs)[job.name := job]
      ensures err.Some? ==> jobs == old(jobs)
      ensures running || stopping <==> err == Some(EngineAlreadyStarted)
      ensures !running && !stopping && job.name == "" ==> err == Some(EmptyJobName)
      ensures !running && !stopping && job.name != "" && !job.hasHandler ==> err == Some(NilHandler)
      ensures !running && !stopping && job.name != "" && job.hasHandler && !job.parses ==> err == Some(InvalidSchedule)
      ensures !running && !stopping && job.name != "" && job.hasHandler && job.parses && job.name in old(jobs) ==>
                err == Some(JobAlreadyExists)
    {
      if running || stopping {
        return Some(EngineAlreadyStarted);
      }
      if job.name == "" {
        return Some(EmptyJobName);
      }
      if !job.hasHandler {
        return Some(NilHandler);
      }
      if !job.parses {
        return Some(InvalidSchedule);
      }
      if job.name in jobs {
        return Some(JobAlreadyExists);
      }
      jobs := jobs[job.name := job];
      return None;
    }

    method Start()
      modifies this`running
      ensures running == (old(running) || !stopping)
    {
      if stopping || running {
        return;
      }
      running := true;
    }

    /** The latch of Stop: only the first call goes on to wait. `first` is false exactly
        where the state machine allows StopAgain, and then nothing changes. */
    method BeginStop() returns (first: bool)
      modifies this`stopping, this`running, this`stopper
      ensures first == !old(View()).stopping
      ensures stopping && stopper == if first then Waiting else old(stopper)
      ensures View() == if first then Latch(old(View())) else old(View())
      ensures first ==> !running
    {
      if stopping {
        return false;
      }
      stopping := true;
      running := false;
      stopper := Waiting;
      return true;
    }

    /** The admission section of runJob: the check of `stopping` and the Add are one step. */
    method Admit() returns (ok: bool)
      modifies this`active
      ensures ok == !stopping && active == old(active) + if ok then 1 else 0
      ensures View() == if ok then Enter(old(View())) else old(View())
    {
      if stopping {
        return false;
      }
      active := active + 1;
      return true;
    }

    method Done()
      modifies this`active
      ensures View() == Depart(old(View())) && active == old(active) - 1
    {
      active := active - 1;
    }

    method LoadOrStore(name: Job) returns (loaded: bool)
      modifies this`inFlight
      ensures loaded == (name in old(inFlight)) && inFlight == old(inFlight) + {name}
      ensures View() == if loaded then old(View()) else Store(old(View()), name)
    {
      loaded := name in inFlight;
      inFlight := inFlight + {name};
    }

    method Remove(name: Job)
      modifies this`inFlight
      ensures View() == Delete(old(View()), name) && inFlight == old(inFlight) - {name}
    {
      inFlight := inFlight - {name};
    }

    /** Panic recovery is innermost: the chain above never sees the handler panic. */
    static method RecoveredHandler(handler: Reply) returns (reply: Reply, calls: seq<Call>)
      ensures reply == Returns(if handler.Panics? then Some(Panicked) else handler.err)
      ensures calls == [Handle]
    {
      calls := [Handle];
      match handler {
        case Panics => reply := Returns(Some(Panicked));
        case Returns(err) => reply := handler;
      }
    }

    /** The locker: every token is unlocked once, after the handler, also when the handler
        or the code before it panics. */
    static method LockerStage(lock: LockReply, handler: Reply) returns (reply: Reply, calls: seq<Call>)
      ensures Bracketed(calls, lock)
      ensures match lock
              case NoLocker => calls == [Handle]
              case Token(true, _) => calls == [AskLock, Release]
              case Token(false, _) => calls == [AskLock, Handle, Release]
              case _ => calls == [AskLock]
      ensures match lock
              case Held => reply == Returns(Some(LockHeld))
              case LockError => reply == Returns(Some(LockFailed))
              case NilToken => reply == Returns(Some(NoToken))
              case _ => true
      ensures Handle in calls <==> lock.NoLocker? || (lock.Token? && !lock.fencePanics)
      ensures reply.Panics? <==> lock.LockPanics? || (lock.Token? && (lock.fencePanics || lock.unlockPanics))
      ensures Handle in calls && reply.Returns? ==> reply.err == if handler.Panics? then Some(Panicked) else handler.err
      ensures Handle !in calls && reply.Returns? ==> reply.err == Some(Refusal(lock))
    {
      if lock.NoLocker? {
        reply, calls := RecoveredHandler(handler);
        return;
      }
      calls := [AskLock];
      match lock {
        case LockPanics => reply := Panics;
        case Held => reply := Returns(Some(LockHeld));
        case LockError => reply := Returns(Some(LockFailed));
        case NilToken => reply := Returns(Some(NoToken));
        case Token(fencePanics, unlockPanics) =>
          if fencePanics {
            reply := Panics;
          } else {
            var inner;
            reply, inner := RecoveredHandler(handler);
            calls := calls + inner;
          }
          calls := calls + [Release];
          reply := if unlockPanics then Panics else reply;
      }
    }

    /** The toggler fails open: only a clean "disabled", or its own panic, stops the run. */
    static method TogglerStage(toggle: Toggle, lock: LockReply, handler: Reply) returns (reply: Reply, calls: seq<Call>)
      ensures toggle.Disabled? ==> reply == Returns(Some(JobDisabled)) && calls == [AskToggler]
      ensures toggle.TogglePanics? ==> reply == Panics && calls == [AskToggler]
      ensures !toggle.Disabled? && !toggle.TogglePanics? ==>
                && calls == (if toggle.NoToggler? then [] else [AskToggler]) + Tail(calls)
                && Bracketed(Tail(calls), lock)
                && Tail(calls) == LockCalls(lock)
                && (Handle in calls <==> lock.NoLocker? || (lock.Token? && !lock.fencePanics))
                && (reply.Panics? <==> lock.LockPanics? || (lock.Token? && (lock.fencePanics || lock.unlockPanics)))
                && (Handle !in calls && reply.Returns? ==> reply.err == Some(Refusal(lock)))
                && (Handle in calls && reply.Returns? ==>
                      reply.err == if handler.Panics? then Some(Panicked) else handler.err)
    {
      calls := [];
      if !toggle.NoToggler? {
        calls := [AskToggler];
        if toggle.TogglePanics? {
          return Panics, calls;
        }
        if toggle.Disabled? {
          return Returns(Some(JobDisabled)), calls;
        }
      }
      var inner;
      reply, inner := LockerStage(lock, handler);
      calls := calls + inner;
    }

    static function Tail(calls: seq<Call>): seq<Call> {
      if calls != [] && calls[0] == AskToggler then calls[1..] else calls
    }

    /** The overlap guard: a name that is in flight is skipped, and a name that was stored is
        removed again however the rest ends. */
    method GuardStage(name: Job, toggle: Toggle, lock: LockReply, handler: Reply)
        returns (reply: Reply, calls: seq<Call>)
      modifies this`inFlight
      ensures View() == old(View())
      ensures name in old(inFlight) ==> reply == Returns(Some(JobRunning)) && calls == []
      ensures Handle in calls <==> Reaches(name !in old(inFlight), toggle, lock)
      ensures Handle in calls || AskLock in calls ==> Bracketed(Tail(calls), lock)
      ensures name !in old(inFlight) && (toggle.Disabled? || toggle.TogglePanics?) ==> calls == [AskToggler]
      ensures name !in old(inFlight) && !toggle.Disabled? && !toggle.TogglePanics? ==>
                calls == (if toggle.NoToggler? then [] else [AskToggler]) + LockCalls(lock)
      ensures Handle in calls && !(lock.Token? && lock.unlockPanics) ==>
                reply == Returns(if handler.Panics? then Some(Panicked) else handler.err)
      ensures Handle in calls && lock.Token? && lock.unlockPanics ==> reply == Panics
      ensures name !in old(inFlight) && Handle !in calls ==>
                reply == if toggle.Disabled? then Returns(Some(JobDisabled))
                         else if toggle.TogglePanics? || lock.LockPanics? || lock.Token? then Panics
                         else Returns(Some(Refusal(lock)))
    {
      reply, calls := Returns(Some(JobRunning)), [];
      var loaded := LoadOrStore(name);
      if !loaded {
        reply, calls := TogglerStage(toggle, lock, handler);
        Remove(name);
      }
    }

    /** One run, from admission to its last deferred call; `early` says that the tracer or the
        logger panics before the guard. It leaves the engine's count and in-flight set as it
        found them on every path, an outermost panic included. */
    method RunJob(name: Job, early: bool, toggle: Toggle, lock: LockReply, handler: Reply)
        returns (err: Option<Error>, calls: seq<Call>)
      modifies this`active, this`inFlight
      ensures View() == old(View())
      ensures stopping ==> err == Some(EngineStopped) && calls == []
      ensures !stopping && early ==> err == Some(Panicked) && calls == []
      ensures !stopping && !early && name in old(inFlight) ==> err == Some(JobRunning) && calls == []
      ensures Handle in calls || AskLock in calls ==> Bracketed(Tail(calls), lock)
      ensures !stopping && !early && name !in old(inFlight) && toggle.Disabled? ==>
                calls == [AskToggler] && err == Some(JobDisabled)
      ensures !stopping && !early && name !in old(inFlight) && toggle.TogglePanics? ==>
                calls == [AskToggler] && err == Some(Panicked)
      ensures !stopping && !early && name !in old(inFlight) && !toggle.Disabled? && !toggle.TogglePanics? ==>
                var ask := if toggle.NoToggler? then [] else [AskToggler];
                var result := if handler.Panics? then Some(Panicked) else handler.err;
                match lock
                case NoLocker => calls == ask + [Handle] && err == result
                case Token(true, _) => calls == ask + [AskLock, Release] && err == Some(Panicked)
                case Token(false, true) => calls == ask + [AskLock, Handle, Release] && err == Some(Panicked)
                case Token(false, false) => calls == ask + [AskLock, Handle, Release] && err == result
                case Held => calls == ask + [AskLock] && err == Some(LockHeld)
                case LockError => calls == ask + [AskLock] && err == Some(LockFailed)
                case NilToken => calls == ask + [AskLock] && err == Some(NoToken)
                case LockPanics => calls == ask + [AskLock] && err == Some(Panicked)
    {
      var ok := Admit();
      if !ok {
        return Some(EngineStopped), [];
      }
      var reply := Panics;
      calls := [];
      if !early {
        reply, calls := GuardStage(name, toggle, lock, handler);
      }
      Done();
      err := if reply.Panics? then Some(Panicked) else reply.err;
    }

    method Trigger(name: Job, early: bool, toggle: Toggle, lock: LockReply, handler: Reply)
        returns (err: Option<Error>, calls: seq<Call>)
      modifies this`active, this`inFlight
      ensures View() == old(View())
      ensures name !in jobs ==> err == Some(JobNotFound) && calls == []
      ensures stopping ==> err.Some? && calls == []
      ensures Handle in calls <==>
                && name in jobs && !stopping && !early && name !in old(inFlight)
                && !toggle.Disabled? && !toggle.TogglePanics?
                && (lock.NoLocker? || (lock.Token? && !lock.fencePanics))
      ensures err.None? <==> Handle in calls && handler == Returns(None) && !(lock.Token? && lock.unlockPanics)
    {
      if name !in jobs {
        return Some(JobNotFound), [];
      }
      err, calls := RunJob(name, early, toggle, lock, handler);
    }
  }
}
