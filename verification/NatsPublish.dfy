/** The producer object of nats/producer/producer.go and the asynchronous send of
    nats/producer/telemetry.go. A cycle is an object of its own: a publish keeps the one it
    was counted in, so that its Done can only reach that one. */
module NatsPublish {
  import opened Wrappers

  datatype Error =
    | AlreadyStarted
    | InvalidConfig
    | ProducerExists
    | DialFailed
    | InvalidTag
    | ProducerNotFound
    | SendFailed

  class Cycle {
    const topics: set<string>
    var pending: int

    constructor (topics: set<string>)
      ensures this.topics == topics && pending == 0
    {
      this.topics := topics;
      pending := 0;
    }
  }

  /** A span counts the calls of finish on it, and the callback those of the callback. */
  class Span {
    var finishes: nat
    var callbacks: nat

    constructor ()
      ensures finishes == 0 && callbacks == 0
    {
      finishes, callbacks := 0, 0;
    }
  }

  class Producer {
    var configs: set<string>
    var run: Cycle?

    constructor ()
      ensures configs == {} && run == null
    {
      configs, run := {}, null;
    }

    method Register(topic: string, valid: bool) returns (err: Option<Error>)
      modifies this`configs
      ensures err.None? <==> run == null && valid && topic !in old(configs)
      ensures configs == if err.None? then old(configs) + {topic} else old(configs)
    {
      if run != null {
        return Some(AlreadyStarted);
      }
      if !valid {
        return Some(InvalidConfig);
      }
      if topic in configs {
        return Some(ProducerExists);
      }
      configs := configs + {topic};
      return None;
    }

    /** Start makes a new cycle for all registered topics or none at all; `fails` are the
        topics that cannot be dialled. */
    method Start(fails: set<string>) returns (err: Option<Error>)
      modifies this`run
      ensures old(run) != null ==> err.None? && run == old(run)
      ensures old(run) == null && configs !! fails ==>
                err.None? && run != null && fresh(run) && run.topics == configs && run.pending == 0
      ensures old(run) == null && !(configs !! fails) ==> err.Some? && run == null
    {
      if run != null {
        return None;
      }
      if !(configs !! fails) {
        return Some(DialFailed);
      }
      run := new Cycle(configs);
      return None;
    }

    /** The first part of Shutdown: whoever clears the run waits for it, once. */
    method BeginShutdown() returns (r: Cycle?)
      modifies this`run
      ensures run == null && r == old(run)
    {
      r := run;
      run := null;
    }

    method Acquire(topic: string) returns (r: Option<Cycle>)
      modifies run
      ensures r.Some? <==> run != null && topic in run.topics
      ensures r.Some? ==> r.value == run && run.pending == old(run.pending) + 1
      ensures r.None? && run != null ==> run.pending == old(run.pending)
    {
      if run != null {
        if topic in run.topics {
          run.pending := run.pending + 1;
          return Some(run);
        }
      }
      return None;
    }

    /** PublishAsync up to its return. An accepted publish is counted in the current cycle
        and has its span open; on every error nothing is counted and no callback will come,
        and the span, if one was opened, is finished once. */
    method PublishAsync(topic: string, tag: string, accepts: bool)
        returns (err: Option<Error>, cycle: Option<Cycle>, span: Option<Span>)
      modifies run
      ensures err.None? <==> '.' !in tag && run != null && topic in run.topics && accepts
      ensures err.None? ==> cycle.Some? && cycle.value == run && run.pending == old(run.pending) + 1
      ensures err.Some? && run != null ==> run.pending == old(run.pending)
      ensures span.None? <==> '.' in tag
      ensures span.Some? ==>
                && fresh(span.value) && span.value.callbacks == 0
                && span.value.finishes == if err.None? then 0 else 1
    {
      cycle := None;
      if '.' in tag {
        return Some(InvalidTag), None, None;
      }
      var s := new Span();
      err, cycle := Send(topic, accepts);
      if err.Some? {
        s.finishes := s.finishes + 1;
      }
      span := Some(s);
    }

    method Send(topic: string, accepts: bool) returns (err: Option<Error>, cycle: Option<Cycle>)
      modifies run
      ensures err.None? <==> run != null && topic in run.topics && accepts
      ensures err.None? ==> cycle.Some? && cycle.value == run && run.pending == old(run.pending) + 1
      ensures err.Some? ==> cycle.None? && (run != null ==> run.pending == old(run.pending))
    {
      cycle := Acquire(topic);
      if cycle.None? {
        return Some(ProducerNotFound), None;
      }
      if !accepts {
        cycle.value.pending := cycle.value.pending - 1;
        return Some(SendFailed), None;
      }
      return None, cycle;
    }
  }

  /** The ack or its error arrives, in whatever cycle the producer is by then: the span is
      finished, then the callback executes, then the publish leaves the cycle it came from. */
  method Settle(cycle: Cycle, span: Span)
    modifies cycle, span
    ensures cycle.pending == old(cycle.pending) - 1
    ensures span.finishes == old(span.finishes) + 1 && span.callbacks == old(span.callbacks) + 1
  {
    span.finishes := span.finishes + 1;
    span.callbacks := span.callbacks + 1;
    cycle.pending := cycle.pending - 1;
  }

  /** A publish that outlives its cycle: a Shutdown, a new Start and the late ack leave the
      new cycle at zero, and the publish with one finish and one callback. */
  method LateAck(p: Producer, topic: string, tag: string) returns (span: Span)
    requires p.run != null && topic in p.run.topics && '.' !in tag
    modifies p, p.run
    ensures p.run != null && p.run != old(p.run) && p.run.pending == 0
    ensures old(p.run).pending == old(p.run.pending)
    ensures p.configs == old(p.configs)
    ensures span.finishes == 1 && span.callbacks == 1
  {
    var err, cycle, made := p.PublishAsync(topic, tag, true);
    span := made.value;
    var left := p.BeginShutdown();
    var again := p.Start({});
    Settle(cycle.value, span);
  }
}
