/** The refresh endpoint of the API server and the cache it fills. The server
    keeps two attributes, the lock and the cache, which do not exist until the
    first refresh request creates them. A refresh request with the right
    challenge code takes the lock and schedules one background job; the job
    stores what the pipeline returned and releases the lock. Routing, JSON
    encoding and the background-task runner are replaced by explicit calls. */
module RefreshCache {
  import opened Wrappers
  import opened Pipeline

  /** How a background job ended: the pipeline returned a value, or raised. */
  datatype Outcome = Returned(value: Cached) | Raised

  /** The server's attributes; None stands for an attribute not yet created.
      `pending` counts the jobs scheduled and not yet run. */
  datatype State = State(lock: Option<bool>, cache: Option<Cached>, pending: nat)

  const FORBIDDEN := 403
  const CONFLICT := 409
  const ACCEPTED := 202

  /** A freshly started server. */
  const Start := State(None, None, 0)

  /** A missing lock is created as False, together with an empty cache. */
  function Init(s: State): (r: State)
    ensures r.lock.Some? && r.pending == s.pending
    ensures s.lock.Some? ==> r == s
    ensures s.lock.None? ==> r == State(Some(false), Some(Entries([])), s.pending)
  {
    if s.lock.None? then s.(lock := Some(false), cache := Some(Entries([]))) else s
  }

  /** One refresh request: the state is initialised first; then a wrong code
      is refused (403), a held lock is reported (409), and otherwise the lock
      is taken and one job scheduled (202). */
  function Trigger(s: State, code: string, secret: string): (r: (State, int))
    ensures r.1 == FORBIDDEN <==> code != secret
    ensures r.1 == CONFLICT <==> code == secret && Init(s).lock == Some(true)
    ensures r.1 == ACCEPTED <==> code == secret && Init(s).lock == Some(false)
    ensures r.1 != ACCEPTED ==> r.0 == Init(s)
    ensures r.1 == ACCEPTED ==>
      r.0 == State(Some(true), Init(s).cache, s.pending + 1)
  {
    var t := Init(s);
    if code != secret then (t, FORBIDDEN)
    else if t.lock == Some(true) then (t, CONFLICT)
    else
      assert !t.lock.value;
      (t.(lock := Some(true), pending := t.pending + 1), ACCEPTED)
  }

  /** One background job runs: the cache takes the returned value and the
      lock is released. A job that raises changes neither. */
  function Complete(s: State, outcome: Outcome): (r: State)
    requires s.pending > 0
    ensures r.pending == s.pending - 1
    ensures outcome.Returned? ==> r.cache == Some(outcome.value) && r.lock == Some(false)
    ensures outcome.Raised? ==> r.cache == s.cache && r.lock == s.lock
  {
    match outcome
    case Returned(v) => State(Some(false), Some(v), s.pending - 1)
    case Raised => s.(pending := s.pending - 1)
  }

  /** What the read endpoint answers: `[]` before the cache exists, else the cache. */
  function Served(s: State): (r: Cached)
    ensures s.cache.None? ==> r == Entries([])
    ensures s.cache.Some? ==> r == s.cache.value
  {
    if s.cache.None? then Entries([]) else s.cache.value
  }

  /** The states a server can reach: the lock and the cache are created
      together, at most one job is pending, and a pending job holds the lock. */
  ghost predicate Valid(s: State) {
    && (s.lock.None? <==> s.cache.None?)
    && s.pending <= 1
    && (s.pending == 1 ==> s.lock == Some(true))
  }

  lemma {:induction false} StartValid()
    ensures Valid(Start)
    ensures Served(Start) == Entries([])
  {
  }

  lemma {:induction false} TriggerValid(s: State, code: string, secret: string)
    requires Valid(s)
    ensures Valid(Trigger(s, code, secret).0)
  {
  }

  lemma {:induction false} CompleteValid(s: State, outcome: Outcome)
    requires Valid(s) && s.pending > 0
    ensures Valid(Complete(s, outcome))
  {
  }

  /** A wrong code is refused even while a job runs, and leaves an
      initialised server as it was. */
  lemma {:induction false} WrongCodeChangesNothing(s: State, code: string, secret: string)
    requires Valid(s) && s.lock.Some? && code != secret
    ensures Trigger(s, code, secret) == (s, FORBIDDEN)
  {
  }

  /** Two accepted-looking requests with no job finishing in between: the
      first is accepted and the second conflicts. */
  lemma {:induction false} SecondTriggerConflicts(s: State, secret: string)
    requires Valid(s) && s.lock != Some(true)
    ensures Trigger(s, secret, secret).1 == ACCEPTED
    ensures Trigger(Trigger(s, secret, secret).0, secret, secret).1 == CONFLICT
  {
  }

  /** Once a job has raised, the lock is never released: no later request is
      accepted and the cache keeps whatever it held. */
  lemma {:induction false} StuckAfterRaised(s: State, code: string, secret: string)
    requires Valid(s) && s.pending == 1
    ensures var t := Complete(s, Raised);
      && t.lock == Some(true) && t.pending == 0
      && Trigger(t, code, secret).1 != ACCEPTED
      && Trigger(t, code, secret).0 == t
  {
  }

  /** What the job was meant to store: the timeframe the pipeline builds. */
  function JobValueIntended(env: Env, today: int): Cached {
    Entries(Timeframe(env, today, DAYS))
  }

  /** The pipeline hands back `None` (`UpdateTimeframeData`'s `result`), so
      after a successful refresh the read endpoint serves `null`, not the
      thirty entries the pipeline built. */
  lemma {:induction false} RefreshServesNull(s: State, env: Env, today: int)
    requires Valid(s) && s.pending == 1
    ensures Served(Complete(s, Returned(Null))) == Null
    ensures |Timeframe(env, today, DAYS)| == DAYS
    ensures Served(Complete(s, Returned(Null))) != JobValueIntended(env, today)
  {
  }

  /** Returning the timeframe: the read endpoint serves exactly the entries
      the pipeline built, and the next refresh can be accepted. */
  lemma {:induction false} RefreshServesTimeframe(s: State, env: Env, today: int, secret: string)
    requires Valid(s) && s.pending == 1
    ensures var t := Complete(s, Returned(JobValueIntended(env, today)));
      && Served(t) == Entries(Timeframe(env, today, DAYS))
      && |Served(t).entries| == DAYS
      && Trigger(t, secret, secret).1 == ACCEPTED
  {
  }

  /** The server with its two attributes and its queue of scheduled jobs. */
  class App {
    /** The challenge code the server was started with. */
    const challengeCode: string
    var timeframeLock: Option<bool>
    var timeframeCache: Option<Cached>
    var pendingJobs: nat

    function Current(): State
      reads this
    {
      State(timeframeLock, timeframeCache, pendingJobs)
    }

    constructor (challengeCode: string)
      ensures this.challengeCode == challengeCode && Current() == Start
    {
      this.challengeCode := challengeCode;
      timeframeLock := None;
      timeframeCache := None;
      pendingJobs := 0;
    }

    /** The read endpoint. */
    method GetTimeframe() returns (r: Cached)
      ensures r == Served(Current())
    {
      if timeframeCache.None? {
        return Entries([]);
      }
      return timeframeCache.value;
    }

    /** The refresh endpoint. */
    method UpdateTimeframe(code: string) returns (status: int)
      modifies this`timeframeLock, this`timeframeCache, this`pendingJobs
      ensures (Current(), status) == Trigger(old(Current()), code, challengeCode)
    {
      if timeframeLock.None? {
        timeframeLock := Some(false);
        timeframeCache := Some(Entries([]));
      }
      if code != challengeCode {
        return FORBIDDEN;
      }
      if timeframeLock == Some(true) {
        return CONFLICT;
      }
      timeframeLock := Some(true);
      pendingJobs := pendingJobs + 1;
      return ACCEPTED;
    }

    /** The background job, run once for a scheduled request, in a run where
        no call of the pipeline raises: the cache takes what the pipeline
        hands back, and the lock is released. */
    method StartUpdateTimeframeJob(env: Env, today: int)
      requires pendingJobs > 0
      modifies this`timeframeLock, this`timeframeCache, this`pendingJobs
      ensures Current() == Complete(old(Current()), Returned(Null))
      ensures Served(Current()) == Null
    {
      pendingJobs := pendingJobs - 1;
      var value, printed, log := UpdateTimeframeData(env, today);
      timeframeCache := Some(value);
      timeframeLock := Some(false);
    }

    /** The background job in a run where a call of the pipeline raises: the
        exception ends the job before it touches the cache or the lock. */
    method AbortUpdateTimeframeJob()
      requires pendingJobs > 0
      modifies this`pendingJobs
      ensures Current() == Complete(old(Current()), Raised)
    {
      pendingJobs := pendingJobs - 1;
    }
  }
}
