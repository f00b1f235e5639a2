/** One delivery through nats/consumer/handler.go, written with its calls in order, and the
    consumer object of nats/consumer/consumer.go that starts and shuts down the stream
    consumers. */
module NatsHandler {
  import opened Wrappers
  import opened NatsConsumer

  datatype Error = NoMetadata | ContextDone | HandlerFailed(result: Result)

  /** What a delivery meets: whether it carries metadata, how the handler will end, and after
      how long; and when the run context is cancelled, if it is, counted from the arrival. */
  datatype World = World(hasMeta: bool, handler: Result, lasts: nat, cancelAt: Option<int>)

  /** The run context is already cancelled on arrival. */
  predicate Cancelled(w: World) { w.cancelAt.Some? && w.cancelAt.value <= 0 }

  class Message {
    var log: seq<Signal>

    constructor ()
      ensures log == []
    {
      log := [];
    }

    method Send(g: Signal)
      modifies this
      ensures log == old(log) + [g]
    {
      log := log + [g];
    }
  }

  /** The deliveries of one registration: RetryBackoff, the heartbeat interval, both of which
      may be zero or less, and HandlerTimeout. */
  class Adapter {
    const backoff: int
    const heartbeatEvery: int
    const handlerTimeout: int

    constructor (backoff: int, heartbeatEvery: int, handlerTimeout: int)
      ensures this.backoff == backoff && this.heartbeatEvery == heartbeatEvery && this.handlerTimeout == handlerTimeout
    {
      this.backoff := backoff;
      this.heartbeatEvery := heartbeatEvery;
      this.handlerTimeout := handlerTimeout;
    }

    /** When the heartbeat stops: the handler is over, its deadline has passed, or the run
        context is cancelled. */
    function BeatsUntil(w: World): int {
      var end := Min(w.lasts, handlerTimeout);
      if w.cancelAt.Some? then Min(end, w.cancelAt.value) else end
    }

    /** n ticks come before the heartbeat stops, and no more. */
    predicate Beats(n: nat, w: World) {
      var end := BeatsUntil(w);
      if heartbeatEvery > 0 then (n > 0 ==> n * heartbeatEvery < end) && end <= (n + 1) * heartbeatEvery else n == 0
    }

    function Delay(): nat { if backoff > 0 then backoff else 0 }

    method SettleOutcome(msg: Message, err: Option<Error>)
      requires err.Some? ==> err.value.HandlerFailed? && !err.value.result.Succeeds?
      modifies msg
      ensures |msg.log| == |old(msg.log)| + 1 && msg.log[..|old(msg.log)|] == old(msg.log)
      ensures var result := if err.None? then Succeeds else err.value.result;
              Fits(msg.log[|old(msg.log)|], result, if backoff > 0 then backoff else 0)
      ensures msg.log == old(msg.log) + [if err.None? then Ack else Verdict(err.value.result, Delay())]
    {
      if err.None? {
        msg.Send(Ack);
      } else if err.value.result.NoRetry? {
        msg.Send(Term);
      } else if backoff > 0 {
        msg.Send(Nak(backoff));
      } else {
        msg.Send(Nak(0));
      }
    }

    /** The handler with its heartbeat; a panic comes back as an error like any other. The
        heartbeat has ended when call returns, and it ends at the handler's deadline or with
        the run context even if the handler does not. */
    method CallHandler(msg: Message, w: World) returns (err: Option<Error>)
      modifies msg
      ensures err == if w.handler.Succeeds? then None else Some(HandlerFailed(w.handler))
      ensures |old(msg.log)| <= |msg.log| && msg.log[..|old(msg.log)|] == old(msg.log)
      ensures Quiet(msg.log[|old(msg.log)|..])
      ensures Beats(|msg.log| - |old(msg.log)|, w)
      ensures heartbeatEvery <= 0 ==> msg.log == old(msg.log)
      ensures heartbeatEvery > 0 ==>
                var n := |msg.log| - |old(msg.log)|;
                && (n > 0 ==> n * heartbeatEvery < w.lasts && n * heartbeatEvery < handlerTimeout)
                && (n > 0 && w.cancelAt.Some? ==> n * heartbeatEvery < w.cancelAt.value)
                && (|| (n + 1) * heartbeatEvery >= w.lasts
                    || (n + 1) * heartbeatEvery >= handlerTimeout
                    || (w.cancelAt.Some? && (n + 1) * heartbeatEvery >= w.cancelAt.value))
    {
      if heartbeatEvery > 0 {
        ghost var was := msg.log;
        ghost var n: nat := 0;
        var end := BeatsUntil(w);
        var tick := heartbeatEvery;
        while tick < end
          invariant |msg.log| == |was| + n && tick == (n + 1) * heartbeatEvery
          invariant n > 0 ==> n * heartbeatEvery < end
          invariant msg.log[..|was|] == was
          invariant forall k :: |was| <= k < |msg.log| ==> msg.log[k].InProgress?
          decreases end - tick
        {
          msg.Send(InProgress);
          n := n + 1;
          tick := tick + heartbeatEvery;
        }
      }
      err := if w.handler.Succeeds? then None else Some(HandlerFailed(w.handler));
    }

    /** Heartbeats, then one terminal signal, decided by the result of the handler; or one
        plain nak, at once and without the handler. */
    method HandleMsg(msg: Message, w: World) returns (called: bool, err: Option<Error>)
      modifies msg
      ensures called <==> w.hasMeta && !(w.cancelAt.Some? && w.cancelAt.value <= 0)
      ensures |old(msg.log)| <= |msg.log| && msg.log[..|old(msg.log)|] == old(msg.log)
      ensures called ==> |msg.log| > |old(msg.log)| && Beats(|msg.log| - |old(msg.log)| - 1, w)
      ensures EndsWith(msg.log[|old(msg.log)|..], if called then Verdict(w.handler, Delay()) else Nak(0))
      ensures !called ==> msg.log == old(msg.log) + [Nak(0)]
      ensures called ==> Fits(msg.log[|msg.log| - 1], w.handler, if backoff > 0 then backoff else 0)
      ensures called ==> forall k :: |old(msg.log)| <= k < |msg.log| - 1 ==> msg.log[k] == InProgress
      ensures err.None? <==> called && w.handler.Succeeds?
    {
      if !w.hasMeta {
        msg.Send(Nak(0));
        return false, Some(NoMetadata);
      }
      if Cancelled(w) {
        msg.Send(Nak(0));
        return false, Some(ContextDone);
      }
      hide Beats, Verdict, EndsWith, Quiet;
      called := true;
      ghost var was := msg.log;
      err := CallHandler(msg, w);
      ghost var beats := msg.log[|was|..];
      SettleOutcome(msg, err);
      QuietGrows(beats, Verdict(w.handler, Delay()));
      assert msg.log[|was|..] == beats + [Verdict(w.handler, Delay())];
    }
  }

  // ---------------------------------------------------------------- start and shutdown

  /** A stream consumer on its own connection. */
  class StreamConsumer {
    const name: string
    var open: bool

    constructor (name: string)
      ensures this.name == name && open
    {
      this.name := name;
      open := true;
    }
  }

  predicate AllOpen(cns: seq<StreamConsumer>)
    reads set i | 0 <= i < |cns| :: cns[i]
  {
    forall i :: 0 <= i < |cns| ==> cns[i].open
  }

  predicate AllClosed(cns: seq<StreamConsumer>)
    reads set i | 0 <= i < |cns| :: cns[i]
  {
    forall i :: 0 <= i < |cns| ==> !cns[i].open
  }

  /** One registered consumer: whether it can be created, and then subscribed. */
  datatype Registration = Registration(dials: bool, subscribes: bool)

  predicate Starts(r: Registration) { r.dials && r.subscribes }

  /** The order of strings: byte by byte, a prefix first. */
  predicate Before(a: string, b: string) {
    b != [] && (a == [] || a[0] < b[0] || (a[0] == b[0] && Before(a[1..], b[1..])))
  }

  predicate Sorted(names: seq<string>) { forall i, j :: 0 <= i < j < |names| ==> Before(names[i], names[j]) }

  /** One string comes before another when it is a proper prefix of it, or has the smaller byte
      where they first differ. */
  lemma {:induction false} BeforeIff(a: string, b: string)
    ensures Before(a, b) <==>
            exists k :: 0 <= k <= |a| && k < |b| && a[..k] == b[..k] && (k == |a| || a[k] < b[k])
  {
    if b != [] && (a == [] || a[0] < b[0]) {
      assert a[..0] == b[..0];
    } else if b != [] && a[0] == b[0] {
      BeforeIff(a[1..], b[1..]);
      var a', b' := a[1..], b[1..];
      if k :| 0 <= k <= |a'| && k < |b'| && a'[..k] == b'[..k] && (k == |a'| || a'[k] < b'[k]) {
        assert a[..k + 1] == [a[0]] + a[1..][..k] && b[..k + 1] == [b[0]] + b[1..][..k];
        assert k + 1 == |a| || a[k + 1] < b[k + 1];
      }
      if k :| 0 <= k <= |a| && k < |b| && a[..k] == b[..k] && (k == |a| || a[k] < b[k]) {
        assert k > 0;
        assert a[1..][..k - 1] == a[..k][1..] && b[1..][..k - 1] == b[..k][1..];
        assert k - 1 == |a[1..]| || a[1..][k - 1] < b[1..][k - 1];
      }
    } else {
      forall k | 0 < k <= |a| && k < |b| ensures a[..k] != b[..k] {
        assert a[..k][0] == a[0] && b[..k][0] == b[0];
      }
    }
  }

  lemma {:induction false} BeforeTrans(a: string, b: string, c: string)
    requires Before(a, b) && Before(b, c)
    ensures Before(a, c)
  {
    if a != [] && a[0] == b[0] == c[0] { BeforeTrans(a[1..], b[1..], c[1..]); }
  }

  lemma {:induction false} BeforeTotal(a: string, b: string)
    ensures a == b || Before(a, b) || Before(b, a)
  {
    if a != [] && b != [] && a[0] == b[0] {
      BeforeTotal(a[1..], b[1..]);
      assert a == [a[0]] + a[1..] && b == [b[0]] + b[1..];
    }
  }

  /** The names with one more in its place. */
  method Insert(names: seq<string>, name: string) returns (r: seq<string>)
    requires Sorted(names) && name !in names
    ensures Sorted(r) && forall x :: x in r <==> x in names || x == name
  {
    var i := 0;
    while i < |names| && Before(names[i], name)
      invariant i <= |names| && forall k :: 0 <= k < i ==> Before(names[k], name)
    {
      i := i + 1;
    }
    forall k | i <= k < |names| ensures Before(name, names[k]) {
      BeforeTotal(names[i], name);
      assert names[i] in names;
      if i < k { BeforeTrans(name, names[i], names[k]); }
    }
    r := names[..i] + [name] + names[i..];
    assert forall x :: x in names <==> x in names[..i] || x in names[i..];
  }

  method SortedNames(keys: set<string>) returns (names: seq<string>)
    ensures Sorted(names) && forall x :: x in names <==> x in keys
  {
    names := [];
    var rest := keys;
    while rest != {}
      invariant Sorted(names) && rest <= keys && forall x :: x in names <==> x in keys && x !in rest
      decreases |rest|
    {
      var name :| name in rest;
      names := Insert(names, name);
      rest := rest - {name};
    }
  }

  class Consumer {
    var regs: map<string, Registration>
    var running: seq<StreamConsumer>
    var started: bool

    constructor ()
      ensures regs == map[] && running == [] && !started
    {
      regs, running, started := map[], [], false;
    }

    /** A registration is stored iff the consumer has not started and the name is new. */
    method Register(name: string, reg: Registration, valid: bool) returns (ok: bool)
      modifies this`regs
      ensures ok <==> !started && valid && name !in old(regs)
      ensures regs == if ok then old(regs)[name := reg] else old(regs)
    {
      if started || !valid || name in regs {
        return false;
      }
      regs := regs[name := reg];
      return true;
    }

    /** All or nothing: either every registered consumer runs, in name order, or every
        connection that was made is closed again and nothing changes. */
    method Start() returns (ok: bool, made: seq<StreamConsumer>)
      modifies this`running, this`started
      ensures old(started) ==> ok && made == [] && running == old(running)
      ensures !old(started) ==> (ok <==> forall name :: name in regs ==> regs[name].dials && regs[name].subscribes)
      ensures forall i :: 0 <= i < |made| ==> fresh(made[i])
      ensures forall i, j :: 0 <= i < j < |made| ==> Before(made[i].name, made[j].name)
      ensures !old(started) && ok ==>
                && running == made && AllOpen(made)
                && forall name :: name in regs <==> exists i :: 0 <= i < |made| && made[i].name == name
      ensures !ok ==> AllClosed(made) && running == old(running)
      ensures started == (old(started) || ok)
    {
      made := [];
      if started {
        return true, made;
      }
      var names := SortedNames(regs.Keys);
      var k := 0;
      while k < |names|
        invariant 0 <= k <= |names| && |made| == k
        invariant forall i :: 0 <= i < k ==> Starts(regs[names[i]])
        invariant forall i :: 0 <= i < k ==> fresh(made[i]) && made[i].open && made[i].name == names[i]
        invariant running == old(running) && started == old(started) && regs == old(regs)
      {
        assert names[k] in names;
        var reg := regs[names[k]];
        if !Starts(reg) {
          if reg.dials {
            var half := new StreamConsumer(names[k]);
            made := made + [half];
          }
          ShutdownAll(made);
          return false, made;
        }
        var cn := new StreamConsumer(names[k]);
        made := made + [cn];
        k := k + 1;
      }
      assert forall name :: name in regs ==> exists i :: 0 <= i < |names| && names[i] == name && made[i].name == name;
      running := made;
      started := true;
      return true, made;
    }

    /** Shutdown takes the running consumers once: a second call finds none. */
    method Shutdown() returns (closed: seq<StreamConsumer>)
      modifies this`running, this`started, set i | 0 <= i < |running| :: running[i]
      ensures closed == if old(started) then old(running) else []
      ensures AllClosed(closed)
      ensures !started && (old(started) ==> running == [])
    {
      if !started {
        return [];
      }
      closed := running;
      running := [];
      started := false;
      ShutdownAll(closed);
    }
  }

  /** Every consumer of the list is closed, also when some fail to drain. */
  method ShutdownAll(cns: seq<StreamConsumer>)
    modifies set i | 0 <= i < |cns| :: cns[i]
    ensures AllClosed(cns)
  {
    for k := 0 to |cns|
      invariant forall i :: 0 <= i < k ==> !cns[i].open
    {
      cns[k].open := false;
    }
  }
}
