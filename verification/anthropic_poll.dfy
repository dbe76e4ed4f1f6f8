/** What one Anthropic poll does, phase by phase, for arbitrary answers of its environment
    (internal/agent/anthropic_agent.go). The class in anthropic_agent.dfy does it in place. */
module AnthropicPoll {
  import opened Options
  import Backoff

  const MAX_AUTH_FAILURES: nat := 3
  const MAX_RATE_LIMIT_FAILURES: nat := 5
  const MAX_OWNER_FAILURES: nat := 3
  const OWNER_RETRY_INTERVAL: nat := 30 * 60

  /** Which collaborators the agent was given. */
  datatype Config = Config(tokenRefresh: bool, credsRefresh: bool, owner: bool, fallback: bool, statusline: bool, apiEvery: nat)

  /** The agent's fields. A time of zero is the zero time. */
  datatype Agent = Agent(
    token: string, lastToken: string, usingFallback: bool,
    ownerRetryAt: nat, ownerFails: nat,
    authFails: nat, authPaused: bool, lastFailedToken: string,
    limitFails: nat, limitPaused: bool, limitResumeAt: nat,
    cycles: nat)

  datatype Creds = Creds(access: string, refresh: string, expired: bool, expiringSoon: bool)

  datatype Fetched = Quotas | RateLimited | Unauthorized | FetchFailed

  datatype OAuthAnswer = Tokens(access: string) | Throttled(retryAfter: int) | InvalidGrant | RefreshFailed

  datatype Statusline = Absent | Unusable | Fresh

  /** The answers of the environment in one poll; `cancelledAt…` says whether the context was
      cancelled when that point was reached. */
  datatype Env = Env(
    now: nat, cancelledAtStart: bool, enabled: bool, statusline: Statusline, statuslineStored: bool,
    creds: Option<Creds>, ownerSucceeds: bool, cancelledAtOwner: bool, tokenAfterOwner: string, fallback: string,
    claudeRunning: bool, proactive: OAuthAnswer, proactiveSaved: bool,
    detected: string,
    fetch: Fetched, cancelledAtFetch: bool,
    claudeRunningAtBypass: bool, credsForBypass: Option<Creds>, bypass: OAuthAnswer,
    bypassFetch: Fetched, cancelledAtBypass: bool,
    redetected: string, retryFetch: Fetched, cancelledAtRetry: bool,
    stored: bool)

  datatype Outcome = Success | Failure(category: string) | Skipped

  /** What the poll does to the outside: quota fetches (with the token used and whether the
      agent was paused), direct OAuth refreshes, calls of the credential owner, stored
      snapshots and reported outcomes. */
  datatype Effect = Fetch(token: string, paused: bool) | OAuth | AskOwner | Stored | Reported(o: Outcome)

  /** A poll in progress. */
  datatype Turn = Turn(a: Agent, log: seq<Effect>, reported: bool, usable: bool, done: bool)

  function Start(a: Agent): Turn {
    Turn(a, [], false, false, false)
  }

  function Report(t: Turn, o: Outcome): Turn {
    if t.reported then t
    else t.(log := t.log + [Reported(if t.usable then Success else o)], reported := true)
  }

  function Finish(t: Turn, o: Outcome): Turn {
    Report(t, o).(done := true)
  }

  function Log(t: Turn, e: Effect): Turn {
    t.(log := t.log + [e])
  }

  function Answer(x: OAuthAnswer): OAuthAnswer {
    if x == Tokens("") then RefreshFailed else x
  }

  function Unpaused(a: Agent): Agent {
    a.(authPaused := false, authFails := 0, lastFailedToken := "")
  }

  function InvalidGrantPause(a: Agent): Agent {
    a.(authPaused := true, authFails := MAX_AUTH_FAILURES, lastFailedToken := a.lastToken)
  }

  function LimitsCleared(a: Agent): Agent {
    a.(limitFails := 0, limitPaused := false, limitResumeAt := 0)
  }

  function BackedOff(a: Agent, now: nat, retryAfter: int): Agent {
    var fails := a.limitFails + 1;
    a.(limitFails := fails, limitPaused := true,
       limitResumeAt := now + if retryAfter > 0 then retryAfter else Backoff.RateLimitBackoff(fails))
  }

  function Gate(t: Turn, env: Env): Turn {
    if env.cancelledAtStart || !env.enabled then Finish(t, Skipped) else t
  }

  function ReadStatusline(cfg: Config, t: Turn, env: Env): Turn {
    if t.done || !cfg.statusline || env.statusline != Fresh then t
    else if !env.statuslineStored then Finish(t, Failure("storage"))
    else
      var t := Log(t.(a := t.a.(cycles := t.a.cycles + 1), usable := true), Stored);
      if cfg.apiEvery > 0 && t.a.cycles % cfg.apiEvery == 0 then t else Finish(t, Success)
  }

  /** Asks the credential owner, unless its retry window is open; false when it did not help. */
  function RefreshViaOwner(cfg: Config, t: Turn, env: Env): (Turn, bool) {
    if env.now < t.a.ownerRetryAt then (t, false)
    else
      var t := Log(t, AskOwner);
      if env.cancelledAtOwner then (t, false)
      else if !env.ownerSucceeds || !cfg.tokenRefresh || env.tokenAfterOwner == "" then
        var fails := t.a.ownerFails + 1;
        (t.(a := t.a.(ownerFails := fails,
                      ownerRetryAt := if fails >= MAX_OWNER_FAILURES then env.now + OWNER_RETRY_INTERVAL else t.a.ownerRetryAt)),
         false)
      else
        var a := t.a.(ownerRetryAt := 0, ownerFails := 0, usingFallback := false);
        (t.(a := if a.authPaused then Unpaused(a) else a), true)
  }

  function ProactiveRefresh(t: Turn, env: Env): Turn {
    if env.claudeRunning || (t.a.limitPaused && env.now < t.a.limitResumeAt) then t
    else
      var t := Log(t, OAuth);
      match Answer(env.proactive)
      case Throttled(retryAfter) => t.(a := BackedOff(t.a, env.now, retryAfter))
      case InvalidGrant => t.(a := InvalidGrantPause(t.a))
      case RefreshFailed => t
      case Tokens(access) => t.(a := WithRefreshed(LimitsCleared(t.a), access, env.proactiveSaved))
  }

  /** A refreshed token is used once it is saved. */
  function WithRefreshed(a: Agent, access: string, saved: bool): Agent {
    if !saved then a
    else
      var a := a.(token := access, lastToken := access);
      if a.authPaused then Unpaused(a) else a
  }

  /** The owner did not help: poll with another profile's token, or not at all. */
  function WithoutOwner(cfg: Config, t: Turn, env: Env): Turn {
    if env.cancelledAtOwner then Finish(t, Skipped)
    else if !cfg.fallback || env.fallback == "" then
      Finish(t.(a := t.a.(token := "", lastToken := "", usingFallback := false,
                          lastFailedToken := if env.creds.Some? then env.creds.value.access else "")),
             Failure("credential_owner"))
    else t.(a := t.a.(token := env.fallback, authPaused := false, authFails := 0, usingFallback := true))
  }

  function Credentials(cfg: Config, t: Turn, env: Env): Turn {
    if t.done || !cfg.credsRefresh then t
    else if cfg.owner && (env.creds.None? || env.creds.value.expired) then
      var (t, helped) := RefreshViaOwner(cfg, t, env);
      if helped then t else WithoutOwner(cfg, t, env)
    else if env.creds.Some? && !cfg.owner && env.creds.value.expiringSoon && env.creds.value.refresh != "" then
      ProactiveRefresh(t, env)
    else t
  }

  /** Another token than before lifts the pauses it allows. */
  function WithNewToken(a: Agent, detected: string): Agent {
    var a := a.(token := detected, lastToken := detected, usingFallback := false);
    var a := if a.authPaused && detected != a.lastFailedToken then Unpaused(a) else a;
    if a.limitPaused then LimitsCleared(a) else a
  }

  function TakeToken(cfg: Config, t: Turn, env: Env): Turn {
    if t.done || !cfg.tokenRefresh then t
    else if env.detected == "" then
      if !t.a.usingFallback && t.a.token != "" then t.(a := t.a.(token := "", lastToken := "")) else t
    else if env.detected == t.a.lastToken && !t.a.usingFallback then t
    else t.(a := WithNewToken(t.a, env.detected))
  }

  function CheckReady(t: Turn, wasPaused: bool): Turn {
    if t.done then t
    else if t.a.authPaused then
      if wasPaused then t.(done := true) else Finish(t, Failure("authentication"))
    else if t.a.token == "" then Finish(t, Failure("missing_credentials"))
    else t
  }

  function CategoryOf(f: Fetched): string {
    match f
    case RateLimited => "rate_limit"
    case Unauthorized => "authentication"
    case _ => "provider_request"
  }

  function FetchWith(t: Turn): Turn {
    Log(t, Fetch(t.a.token, t.a.authPaused))
  }

  /** A rate-limited fetch: refresh the token directly and try once more. */
  function Bypass(cfg: Config, t: Turn, env: Env): Turn {
    if cfg.owner then Finish(t, Failure("rate_limit"))
    else if t.a.limitPaused && env.now < t.a.limitResumeAt then Finish(t, Failure("rate_limit"))
    else
      var t := t.(a := t.a.(limitPaused := false));
      if env.claudeRunningAtBypass || !cfg.credsRefresh || env.credsForBypass.None?
         || env.credsForBypass.value.refresh == ""
      then Finish(t, Failure("rate_limit"))
      else if Answer(env.bypass).Tokens? then RetryRefreshed(Log(t, OAuth), Answer(env.bypass).access, env)
      else RefuseRefresh(Log(t, OAuth), env)
  }

  function RefuseRefresh(t: Turn, env: Env): Turn
    requires !Answer(env.bypass).Tokens?
  {
    match Answer(env.bypass)
    case Throttled(retryAfter) => Finish(t.(a := BackedOff(t.a, env.now, retryAfter)), Failure("rate_limit"))
    case InvalidGrant => Finish(t.(a := InvalidGrantPause(t.a)), Failure("authentication"))
    case RefreshFailed =>
      var fails := t.a.limitFails + 1;
      Finish(t.(a := if fails >= MAX_RATE_LIMIT_FAILURES then BackedOff(t.a, env.now, 0)
                     else t.a.(limitFails := fails)),
             Failure("rate_limit"))
  }

  function RetryRefreshed(t: Turn, access: string, env: Env): Turn {
    var t := FetchWith(t.(a := LimitsCleared(t.a).(token := access, lastToken := access)));
    if env.bypassFetch == Quotas then t
    else Finish(t, if env.cancelledAtBypass then Skipped else Failure(CategoryOf(env.bypassFetch)))
  }

  /** A refused fetch: read the token again and try once more. */
  function RetryAuth(t: Turn, env: Env): Turn {
    var t := t.(a := t.a.(lastToken := ""));
    if env.redetected == "" then Finish(t, Failure("missing_credentials"))
    else
      var t := FetchWith(t.(a := t.a.(token := env.redetected, lastToken := env.redetected)));
      if env.retryFetch == Quotas then t.(a := t.a.(authFails := 0)) else RefuseRetry(t, env)
  }

  function RefuseRetry(t: Turn, env: Env): Turn {
    if env.cancelledAtRetry then Finish(t, Skipped)
    else if env.retryFetch != Unauthorized then Finish(t, Failure("provider_request"))
    else
      var fails := t.a.authFails + 1;
      var a := t.a.(authFails := fails);
      Finish(t.(a := if fails >= MAX_AUTH_FAILURES then a.(authPaused := true, lastFailedToken := env.redetected) else a),
             Failure("authentication"))
  }

  function FetchQuotas(cfg: Config, t: Turn, env: Env): Turn {
    if t.done then t
    else
      var t := FetchWith(t);
      if env.fetch == Quotas then t.(a := t.a.(authFails := 0))
      else if env.cancelledAtFetch then Finish(t, Skipped)
      else if env.fetch == RateLimited then Bypass(cfg, t, env)
      else if env.fetch == Unauthorized && cfg.tokenRefresh then RetryAuth(t, env)
      else Finish(t, Failure(CategoryOf(env.fetch)))
  }

  function Save(t: Turn, env: Env): Turn {
    if t.done then t
    else if !env.stored then Finish(t, Failure("storage"))
    else Finish(Log(t.(usable := true), Stored), Success)
  }

  /** Up to the check that decides whether quotas are fetched. */
  function Prepare(cfg: Config, a: Agent, env: Env): Turn {
    var t := ReadStatusline(cfg, Gate(Start(a), env), env);
    CheckReady(TakeToken(cfg, Credentials(cfg, t, env), env), a.authPaused)
  }

  function Poll(cfg: Config, a: Agent, env: Env): Turn {
    Save(FetchQuotas(cfg, Prepare(cfg, a, env), env), env)
  }
}
