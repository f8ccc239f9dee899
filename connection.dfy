/**
 * The memoised database connection of backend/src/lib/mongoose.js. The
 * process-wide `globalForMongoose.mongoose` slot is a field of a class; the
 * outcome of `mongoose.connect` is supplied by the caller.
 */
module Connection {
  import opened Outcomes

  /** An open connection, known only by an identity. */
  datatype Conn = Conn(handle: nat)

  /** What `connectDB` throws when `DATABASE_URL` is not set. */
  const MissingUri := "MONGODB_URI is undefined. Please check your .env file."

  /**
   * One step of the cache as a value: the slot after the call, the call's
   * result, and whether `mongoose.connect` was called.
   */
  datatype Step = Step(cached: Option<Conn>, result: Result<Conn>, connected: bool)

  /** The specification of `connectDB` from slot `cached`, URI `uri`, with `attempt` as the outcome of a connect. */
  function ConnectStep(cached: Option<Conn>, uri: string, attempt: Result<Conn>): (s: Step)
    ensures cached.Some? ==> s == Step(cached, Ok(cached.value), false)
    ensures cached.None? && uri == "" ==> s == Step(None, Err(MissingUri), false)
    ensures cached.None? && uri != "" ==> s.connected && s.result == attempt
    ensures s.result.Ok? ==> s.cached == Some(s.result.value)
    ensures s.result.Err? ==> s.cached == None
  {
    if cached.Some? then Step(cached, Ok(cached.value), false)
    else if uri == "" then Step(None, Err(MissingUri), false)
    else if attempt.Ok? then Step(Some(attempt.value), attempt, true)
    else Step(None, attempt, true)
  }

  /** Once a connect has succeeded, every later call returns that connection without connecting, whatever happens. */
  lemma ConnectOnce(uri: string, c: Conn, uri2: string, attempt2: Result<Conn>)
    requires uri != ""
    ensures var first := ConnectStep(None, uri, Ok(c));
            var second := ConnectStep(first.cached, uri2, attempt2);
            second == Step(Some(c), Ok(c), false)
  {
  }

  /** A failed call leaves the slot empty, so the next call tries again. */
  lemma FailureRetries(uri: string, e: string, attempt2: Result<Conn>)
    requires uri != ""
    ensures var first := ConnectStep(None, uri, Err(e));
            first.cached == None && ConnectStep(first.cached, uri, attempt2).connected
  {
  }

  /** The process-wide connection slot, and how many times `mongoose.connect` was called. */
  class ConnectionCache {
    var cached: Option<Conn>
    var connectCalls: nat

    constructor ()
      ensures cached == None && connectCalls == 0
    {
      cached, connectCalls := None, 0;
    }

    /**
     * `connectDB()`: the cached connection if there is one; otherwise an
     * error for a missing URI, or the outcome of one `mongoose.connect`,
     * cached on success and rethrown on failure.
     */
    method ConnectDB(uri: string, attempt: Result<Conn>) returns (r: Result<Conn>)
      modifies this
      ensures var s := ConnectStep(old(cached), uri, attempt);
              r == s.result && cached == s.cached
              && connectCalls == old(connectCalls) + (if s.connected then 1 else 0)
    {
      if cached.Some? {
        return Ok(cached.value);
      }
      if uri == "" {
        return Err(MissingUri);
      }
      connectCalls := connectCalls + 1;
      if attempt.Ok? {
        cached := Some(attempt.value);
      }
      r := attempt;
    }
  }
}
