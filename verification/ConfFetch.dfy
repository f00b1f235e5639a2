/** The cache entry object of confloader/confloader.go and the loops around it: the fetch
    with its retries and its fallback folder, the refresh, the panic mark and the health
    signal. Each state change is tied to `ConfCache.Settle`. */
module ConfFetch {
  import opened Wrappers
  import opened ConfCache

  /** A backend reply. Parsing is part of the caller's type, so a served value comes with
      what parsing it gives: None when it does not parse. */
  datatype Reply = Served(parsed: Option<string>, revision: string) | Absent | Broken(text: string)

  /** What the i-th call would get, and whether the context ends in the wait before it. */
  datatype Backend = Backend(reply: nat -> Reply, cancelled: nat -> bool)

  const PARSE_ERROR: Error := Other("parse")
  const CONTEXT_ERROR: Error := Other("context")

  /** What a served or absent reply means, at once and without a retry. */
  function Definite(r: Reply): Outcome
    requires !r.Broken?
  {
    match r
    case Served(Some(v), rev) => Fetched(v, rev)
    case Served(None, _) => Failed(PARSE_ERROR)
    case Absent => Failed(NotFound)
  }

  /** `calls` calls were made and gave o: all but the last were broken and none of their
      waits was cancelled; the last one was definite, or the retries or the context ran out. */
  ghost predicate EndsAfter(b: Backend, retries: nat, calls: nat, o: Outcome) {
    && 1 <= calls <= retries + 1
    && (forall i :: 0 <= i < calls - 1 ==> b.reply(i).Broken?)
    && (forall i :: 1 <= i < calls ==> !b.cancelled(i))
    && if !b.reply(calls - 1).Broken? then o == Definite(b.reply(calls - 1))
       else if calls == retries + 1 then o == Failed(Other(b.reply(calls - 1).text))
       else b.cancelled(calls) && o == Failed(CONTEXT_ERROR)
  }

  /** The backend and the number of retries leave one possible end. */
  lemma EndIsUnique(b: Backend, retries: nat, m: nat, o: Outcome, n: nat, p: Outcome)
    requires EndsAfter(b, retries, m, o) && EndsAfter(b, retries, n, p)
    ensures m == n && o == p
  {
    hide Definite;
  }

  /** fetchRetried: only a transient failure is retried. A value that does not parse and an
      absent key are final. */
  method FetchRetried(b: Backend, retries: nat) returns (o: Outcome, calls: nat)
    ensures EndsAfter(b, retries, calls, o)
    ensures !o.Marked?
    ensures 1 <= calls <= retries + 1 && (forall i :: 0 <= i < calls - 1 ==> b.reply(i).Broken?)
    ensures o.Fetched? ==> b.reply(calls - 1) == Served(Some(o.value), o.revision)
    ensures match b.reply(calls - 1)
            case Served(Some(v), rev) => o == Fetched(v, rev)
            case Served(None, _) => o.Failed? && o.error != NotFound
            case _ => o.Failed?
    ensures o == Failed(NotFound) <==> b.reply(calls - 1).Absent?
    ensures b.reply(calls - 1).Broken? && calls == retries + 1 ==> o == Failed(Other(b.reply(calls - 1).text))
    ensures b.reply(calls - 1).Broken? && calls <= retries ==> b.cancelled(calls)
  {
    var last := Failed(NotFound);
    var attempt := 0;
    while attempt <= retries
      invariant 0 <= attempt <= retries + 1
      invariant forall i :: 0 <= i < attempt ==> b.reply(i).Broken?
      invariant forall i :: 1 <= i < attempt ==> !b.cancelled(i)
      invariant attempt > 0 ==> b.reply(attempt - 1).Broken? && last == Failed(Other(b.reply(attempt - 1).text))
    {
      if attempt > 0 && b.cancelled(attempt) {
        return Failed(CONTEXT_ERROR), attempt;
      }
      var r := b.reply(attempt);
      if !r.Broken? {
        return Definite(r), attempt + 1;
      }
      last := Failed(Other(r.text));
      attempt := attempt + 1;
    }
    return last, attempt;
  }

  /** fetchWithFallback: the default folder is asked iff the key is absent from another
      folder, and then its end is the outcome, whatever it is. */
  method FetchWithFallback(own: Backend, fallback: Backend, inDefault: bool, retries: nat)
    returns (o: Outcome, ownCalls: nat, fallbackCalls: nat)
    ensures !o.Marked?
    ensures ownCalls >= 1 && ownCalls + fallbackCalls <= 2 * (retries + 1)
    ensures fallbackCalls > 0 <==> !inDefault && own.reply(ownCalls - 1).Absent?
    ensures match (if fallbackCalls == 0 then own.reply(ownCalls - 1) else fallback.reply(fallbackCalls - 1))
            case Served(Some(v), rev) => o == Fetched(v, rev)
            case Served(None, _) => o.Failed? && o.error != NotFound
            case _ => o.Failed?
    ensures o == Failed(NotFound) <==>
            own.reply(ownCalls - 1).Absent? && (inDefault || fallback.reply(fallbackCalls - 1).Absent?)
    ensures fallbackCalls == 0 ==> EndsAfter(own, retries, ownCalls, o) && (inDefault || o != Failed(NotFound))
    ensures fallbackCalls > 0 ==>
              && !inDefault
              && EndsAfter(own, retries, ownCalls, Failed(NotFound))
              && EndsAfter(fallback, retries, fallbackCalls, o)
  {
    o, ownCalls := FetchRetried(own, retries);
    fallbackCalls := 0;
    if o == Failed(NotFound) && !inDefault {
      o, fallbackCalls := FetchRetried(fallback, retries);
    }
  }

  class CacheEntry {
    var value: string
    var revision: string
    var hasValue: bool
    var fetchErr: Option<Error>
    var fetched: bool
    var stale: bool

    function View(): Entry
      reads this
    {
      Entry(value, revision, hasValue, fetchErr, fetched, stale)
    }

    constructor ()
      ensures View() == COLD
    {
      value, revision, hasValue := "", "", false;
      fetchErr, fetched, stale := None, false, false;
    }

    /** refreshOne, with what the backend gives if it is asked. */
    method RefreshOne(force: bool, o: Outcome) returns (asked: bool)
      requires !o.Marked?
      modifies this
      ensures asked == (force || !old(fetched) || old(stale))
      ensures View() == if asked then Settle(old(View()), o) else old(View())
    {
      if !force {
        if fetched && !stale {
          return false;
        }
      }
      asked := true;
      match o {
        case Failed(err) =>
          fetchErr := Some(err);
          stale := if err == NotFound then false else hasValue;
          fetched := true;
        case Fetched(v, rev) =>
          fetchErr := None;
          value := v;
          revision := rev;
          hasValue := true;
          stale := false;
          fetched := true;
      }
    }

    method Mark(text: string)
      modifies this
      ensures View() == Settle(old(View()), Marked(text))
    {
      fetchErr := Some(Other(text));
      stale := hasValue;
      fetched := true;
    }

    /** Get with nobody else about: a cold or stale entry answers with what the source says
        now, any other with what the entry held. */
    method Get(o: Outcome) returns (answer: Answer)
      requires !o.Marked?
      modifies this
      ensures !old(fetched) || old(stale) ==>
                && View() == Settle(old(View()), o)
                && match o
                   case Fetched(v, _) => answer == Value(v)
                   case Failed(err) => answer == Fails(err)
                   case Marked(_) => true
      ensures old(fetched) && !old(stale) ==> answer == Answers(old(View())) && View() == old(View())
    {
      if !fetched || stale {
        var _ := RefreshOne(false, o);
      }
      if !hasValue {
        return Fails(if fetchErr.Some? then fetchErr.value else NotFound);
      }
      if fetchErr.Some? {
        return Fails(fetchErr.value);
      }
      return Value(value);
    }
  }

  /** markAllStale: every entry is marked, each once. */
  method MarkAllStale(entries: seq<CacheEntry>, text: string)
    requires forall i, j :: 0 <= i < j < |entries| ==> entries[i] != entries[j]
    modifies set i | 0 <= i < |entries| :: entries[i]
    ensures forall i :: 0 <= i < |entries| ==> entries[i].View() == Settle(old(entries[i].View()), Marked(text))
    ensures forall i :: 0 <= i < |entries| ==>
              entries[i].fetchErr == Some(Other(text)) && entries[i].stale == entries[i].hasValue && entries[i].fetched
  {
    for k := 0 to |entries|
      invariant forall i :: 0 <= i < k ==> entries[i].View() == Settle(old(entries[i].View()), Marked(text))
      invariant forall i :: k <= i < |entries| ==> entries[i].View() == old(entries[i].View())
    {
      entries[k].Mark(text);
    }
  }

  /** IsStale: some entry keeps a value it could not refresh. */
  method IsStale(entries: seq<CacheEntry>) returns (r: bool)
    ensures r <==> exists i :: 0 <= i < |entries| && entries[i].stale
  {
    for k := 0 to |entries|
      invariant forall i :: 0 <= i < k ==> !entries[i].stale
    {
      if entries[k].stale {
        return true;
      }
    }
    return false;
  }

  /** A first fetch that fails on a cold entry is not repeated on read: the entry counts as
      fetched and not as stale, and the error is what every read answers until a poll. */
  lemma ColdFailureSticks(hist: seq<Outcome>, e: Entry)
    requires Reflects(e, hist) && hist != [] && forall i :: 0 <= i < |hist| ==> !hist[i].Fetched?
    ensures e.fetched && !e.stale
    ensures match hist[|hist| - 1]
            case Failed(err) => Answers(e) == Fails(err)
            case Marked(text) => Answers(e) == Fails(Other(text))
  {
    AnswerIsLastOutcome(e, hist);
  }
}
