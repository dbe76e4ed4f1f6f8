/** What one Gemini poll does, phase by phase, and what holds over whole runs of polls, for
    arbitrary answers of the environment (internal/agent/gemini_agent.go). The class in
    gemini_agent.dfy does it in place. Times are in nanoseconds. */
module GeminiPoll {
  import opened Options
  import Backoff

  const MAX_AUTH_FAILURES: nat := 3

  /** The agent's fields; a time of zero is the zero time. */
  datatype Agent = Agent(
    token: string, lastToken: string,
    authFails: nat, authPaused: bool, lastFailedToken: string, failedRefresh: string,
    retryCount: nat, retryAt: nat, tierFetched: bool)

  datatype Creds = Creds(access: string, refresh: string, expiringSoon: bool)

  datatype Fetched = Quotas | Unauthorized | FetchFailed

  datatype TierAnswer = TierKnown | TierUnsupported | TierFailed

  /** The answers of the environment in one poll. `configured` says whether the agent can read
      and refresh credentials; a refresh answers with an access token or fails. */
  datatype Env = Env(
    now: nat, cancelledAtStart: bool, enabled: bool,
    creds: Option<Creds>, proactive: Option<string>,
    tier: TierAnswer, cancelledAtTier: bool,
    fetch: Fetched, cancelledAtFetch: bool,
    credsForRetry: Option<Creds>, refreshed: Option<string>, cancelledAtRefresh: bool,
    retryFetch: Fetched, cancelledAtRetry: bool,
    nowAtPause: nat, random: real,
    stored: bool)

  datatype Outcome = Success | Failure(category: string) | Skipped

  datatype Effect =
    | Refresh(refreshToken: string) | FetchTier | Fetch(token: string)
    | Paused(count: nat, at: nat, until: nat) | Reset
    | Reported(o: Outcome)

  /** A poll in progress. */
  datatype Turn = Turn(a: Agent, log: seq<Effect>, done: bool)

  function Log(t: Turn, e: Effect): Turn {
    t.(log := t.log + [e])
  }

  function Finish(t: Turn, o: Outcome): Turn {
    Log(t, Reported(o)).(done := true)
  }

  function Pause(t: Turn, access: string, refresh: string, env: Env): Turn {
    var n := t.a.retryCount + 1;
    var until := env.nowAtPause + Backoff.RetryDelay(n, env.random);
    Log(t.(a := t.a.(authPaused := true, lastFailedToken := access, failedRefresh := refresh,
                     retryCount := n, retryAt := until)),
        Paused(n, env.nowAtPause, until))
  }

  function ResetFailures(t: Turn): Turn {
    Log(t.(a := t.a.(authFails := 0, authPaused := false, lastFailedToken := "", failedRefresh := "",
                     retryCount := 0, retryAt := 0)),
        Reset)
  }

  /** Does the environment offer another refresh token than the one that failed? */
  predicate NewLineage(a: Agent, env: Env) {
    env.creds.Some? && env.creds.value.refresh != "" && env.creds.value.refresh != a.failedRefresh
  }

  function Gate(t: Turn, env: Env): Turn {
    if env.cancelledAtStart || !env.enabled then Finish(t, Skipped) else t
  }

  function LiftPause(t: Turn, env: Env): Turn {
    if t.done || !t.a.authPaused then t
    else if NewLineage(t.a, env) then ResetFailures(t)
    else if env.now < t.a.retryAt then t.(done := true)
    else t.(a := t.a.(authPaused := false))
  }

  function TakeToken(t: Turn, env: Env): Turn {
    if t.done || env.creds.None? then t
    else
      var creds := env.creds.value;
      if creds.expiringSoon && creds.refresh != "" then
        var t := Log(t, Refresh(creds.refresh));
        UseToken(t, if env.proactive.Some? then env.proactive.value else creds.access, env.proactive.Some?)
      else UseToken(t, creds.access, false)
  }

  function UseToken(t: Turn, access: string, always: bool): Turn {
    if always || (access != "" && access != t.a.lastToken)
    then t.(a := t.a.(token := access, lastToken := access))
    else t
  }

  /** A paused agent goes no further, and says nothing. */
  function CheckPause(t: Turn): Turn {
    if t.a.authPaused then t.(done := true) else t
  }

  function EnsureTier(t: Turn, env: Env): Turn {
    if t.done || t.a.tierFetched then t
    else
      var t := Log(t, FetchTier);
      if env.tier == TierKnown then t.(a := t.a.(tierFetched := true))
      else if env.cancelledAtTier then Finish(t, Skipped)
      else if env.tier == TierUnsupported then Finish(t, Failure("provider_request"))
      else t
  }

  /** One more authentication failure; the third and every later one pauses polling. */
  function CountFailure(t: Turn, access: string, refresh: string, env: Env): Turn {
    var t := t.(a := t.a.(authFails := t.a.authFails + 1));
    if t.a.authFails >= MAX_AUTH_FAILURES then Pause(t, access, refresh, env) else t
  }

  /** A refused fetch: refresh the token and try once more. */
  function RetryAuth(t: Turn, env: Env): Turn {
    if env.credsForRetry.None? || env.credsForRetry.value.refresh == "" then Finish(t, Failure("missing_credentials"))
    else
      var refresh := env.credsForRetry.value.refresh;
      var t := Log(t, Refresh(refresh));
      if env.refreshed.None? then
        if env.cancelledAtRefresh then Finish(t, Skipped)
        else Finish(CountFailure(t, t.a.lastToken, refresh, env), Failure("authentication"))
      else RetryFetch(t, env.refreshed.value, refresh, env)
  }

  function RetryFetch(t: Turn, access: string, refresh: string, env: Env): Turn {
    var t := Log(t.(a := t.a.(token := access, lastToken := access)), Fetch(access));
    if env.retryFetch == Quotas then t.(a := t.a.(authFails := 0))
    else if env.cancelledAtRetry then Finish(t, Skipped)
    else if env.retryFetch == Unauthorized then Finish(CountFailure(t, access, refresh, env), Failure("authentication"))
    else Finish(t, Failure("provider_request"))
  }

  function FetchQuotas(configured: bool, t: Turn, env: Env): Turn {
    if t.done then t
    else
      var t := Log(t, Fetch(t.a.token));
      if env.fetch == Quotas then ResetFailures(t)
      else if env.cancelledAtFetch then Finish(t, Skipped)
      else if env.fetch == Unauthorized && configured then RetryAuth(t, env)
      else Finish(t, Failure(if env.fetch == Unauthorized then "authentication" else "provider_request"))
  }

  function Save(t: Turn, env: Env): Turn {
    if t.done then t
    else if !env.stored then Finish(t, Failure("storage"))
    else ResetFailures(Finish(t, Success))
  }

  function Prepare(configured: bool, a: Agent, env: Env): Turn {
    var t := Gate(Turn(a, [], false), env);
    CheckPause(if configured then TakeToken(LiftPause(t, env), env) else t)
  }

  function Poll(configured: bool, a: Agent, env: Env): Turn {
    Save(FetchQuotas(configured, EnsureTier(Prepare(configured, a, env), env), env), env)
  }
}
