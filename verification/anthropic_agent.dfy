/** The Anthropic agent, which polls by updating its fields (internal/agent/anthropic_agent.go);
    each method does what the phase of the same name in anthropic_poll.dfy says. */
module AnthropicAgents {
  import opened Options
  import opened AnthropicPoll
  import opened AnthropicSafety
  import Backoff

  class AnthropicAgent {
    const cfg: Config

    var token: string
    var lastToken: string
    var usingFallback: bool
    var ownerRetryAt: nat
    var ownerFails: nat
    var authFails: nat
    var authPaused: bool
    var lastFailedToken: string
    var limitFails: nat
    var limitPaused: bool
    var limitResumeAt: nat
    var cycles: nat

    // Of the poll in progress.
    var log: seq<Effect>
    var outcomeReported: bool
    var usableSnapshot: bool

    constructor (cfg: Config, token: string)
      ensures this.cfg == cfg && Inv(State())
      ensures State() == Agent(token, "", false, 0, 0, 0, false, "", 0, false, 0, 0)
    {
      this.cfg := cfg;
      this.token, lastToken, usingFallback, lastFailedToken := token, "", false, "";
      ownerRetryAt, ownerFails, authFails, authPaused := 0, 0, 0, false;
      limitFails, limitPaused, limitResumeAt, cycles := 0, false, 0, 0;
      log, outcomeReported, usableSnapshot := [], false, false;
    }

    ghost function State(): Agent
      reads this
    {
      Agent(token, lastToken, usingFallback, ownerRetryAt, ownerFails, authFails, authPaused, lastFailedToken,
            limitFails, limitPaused, limitResumeAt, cycles)
    }

    ghost function Progress(done: bool): Turn
      reads this
    {
      Turn(State(), log, outcomeReported, usableSnapshot, done)
    }

    method ReportOutcome(o: Outcome)
      modifies this`log, this`outcomeReported
      ensures Progress(true) == Finish(old(Progress(false)), o)
    {
      if !outcomeReported {
        log := log + [Reported(if usableSnapshot then Success else o)];
        outcomeReported := true;
      }
    }

    method ResumeAuth()
      modifies this`authPaused, this`authFails, this`lastFailedToken
      ensures State() == old(if authPaused then Unpaused(State()) else State())
    {
      if authPaused {
        authPaused := false;
        authFails := 0;
        lastFailedToken := "";
      }
    }

    method ResetLimits()
      modifies this`limitFails, this`limitPaused, this`limitResumeAt
      ensures State() == LimitsCleared(old(State()))
    {
      limitFails := 0;
      limitPaused := false;
      limitResumeAt := 0;
    }

    method PauseForInvalidGrant()
      modifies this`authPaused, this`authFails, this`lastFailedToken
      ensures State() == InvalidGrantPause(old(State()))
    {
      authPaused := true;
      authFails := MAX_AUTH_FAILURES;
      lastFailedToken := lastToken;
    }

    method BackOff(now: nat, retryAfter: int)
      modifies this`limitFails, this`limitPaused, this`limitResumeAt
      ensures State() == BackedOff(old(State()), now, retryAfter)
    {
      limitFails := limitFails + 1;
      var backoff := retryAfter;
      if backoff <= 0 {
        backoff := Backoff.RateLimitBackoff(limitFails);
      }
      limitPaused := true;
      limitResumeAt := now + backoff;
    }

    method RefreshViaCredentialOwner(env: Env) returns (helped: bool)
      modifies this
      ensures (Progress(false), helped) == RefreshViaOwner(cfg, old(Progress(false)), env)
    {
      if env.now < ownerRetryAt {
        return false;
      }
      log := log + [AskOwner];
      if env.cancelledAtOwner {
        return false;
      }
      if !env.ownerSucceeds || !cfg.tokenRefresh || env.tokenAfterOwner == "" {
        ownerFails := ownerFails + 1;
        if ownerFails >= MAX_OWNER_FAILURES {
          ownerRetryAt := env.now + OWNER_RETRY_INTERVAL;
        }
        return false;
      }
      ownerRetryAt := 0;
      ownerFails := 0;
      usingFallback := false;
      ResumeAuth();
      return true;
    }

    method RefreshProactively(env: Env)
      modifies this
      ensures Progress(false) == ProactiveRefresh(old(Progress(false)), env)
    {
      hide BackedOff, InvalidGrantPause, LimitsCleared, WithRefreshed;
      NotSaved(LimitsCleared(State()), Answer(env.proactive));
      if env.claudeRunning || (limitPaused && env.now < limitResumeAt) {
        return;
      }
      log := log + [OAuth];
      match Answer(env.proactive)
      case Throttled(retryAfter) => BackOff(env.now, retryAfter);
      case InvalidGrant => PauseForInvalidGrant();
      case RefreshFailed =>
      case Tokens(access) =>
        ResetLimits();
        if env.proactiveSaved {
          UseRefreshedToken(access);
        }
    }

    method UseRefreshedToken(access: string)
      modifies `token, `lastToken, `authPaused, `authFails, `lastFailedToken
      ensures State() == WithRefreshed(old(State()), access, true)
    {
      token := access;
      lastToken := access;
      ResumeAuth();
    }

    method PollStatusline(env: Env) returns (done: bool)
      modifies this
      ensures Progress(done) == ReadStatusline(cfg, Gate(old(Progress(false)), env), env)
    {
      if env.cancelledAtStart || !env.enabled {
        ReportOutcome(Skipped);
        return true;
      }
      if cfg.statusline && env.statusline == Fresh {
        if !env.statuslineStored {
          ReportOutcome(Failure("storage"));
          return true;
        }
        usableSnapshot := true;
        log := log + [Stored];
        cycles := cycles + 1;
        if cfg.apiEvery == 0 || cycles % cfg.apiEvery != 0 {
          ReportOutcome(Success);
          return true;
        }
      }
      return false;
    }

    method PrepareCredentials(env: Env) returns (done: bool)
      modifies this
      ensures Progress(done) == Credentials(cfg, old(Progress(false)), env)
    {
      hide Finish, RefreshViaOwner, ProactiveRefresh, WithoutOwner;
      if cfg.credsRefresh {
        if cfg.owner && (env.creds.None? || env.creds.value.expired) {
          var helped := RefreshViaCredentialOwner(env);
          if !helped {
            done := FallBack(env);
            return;
          }
        } else if env.creds.Some? && !cfg.owner && env.creds.value.expiringSoon && env.creds.value.refresh != "" {
          RefreshProactively(env);
        }
      }
      return false;
    }

    /** The owner did not help: poll with another profile's token, or not at all. */
    method FallBack(env: Env) returns (done: bool)
      modifies this
      ensures Progress(done) == WithoutOwner(cfg, old(Progress(false)), env)
    {
      hide Finish;
      if env.cancelledAtOwner {
        ReportOutcome(Skipped);
        return true;
      }
      if !cfg.fallback || env.fallback == "" {
        token, lastToken, usingFallback := "", "", false;
        lastFailedToken := if env.creds.Some? then env.creds.value.access else "";
        ReportOutcome(Failure("credential_owner"));
        return true;
      }
      token := env.fallback;
      authPaused := false;
      authFails := 0;
      usingFallback := true;
      return false;
    }

    method RefreshToken(env: Env)
      modifies this
      ensures Progress(false) == TakeToken(cfg, old(Progress(false)), env)
    {
      hide WithNewToken;
      if cfg.tokenRefresh {
        if env.detected == "" && !usingFallback && token != "" {
          token, lastToken := "", "";
        } else if env.detected != "" && (env.detected != lastToken || usingFallback) {
          UseNewToken(env.detected);
        }
      }
    }

    method UseNewToken(detected: string)
      modifies `token, `lastToken, `usingFallback, `authPaused, `authFails, `lastFailedToken
      modifies `limitFails, `limitPaused, `limitResumeAt
      ensures State() == WithNewToken(old(State()), detected)
    {
      token, lastToken := detected, detected;
      usingFallback := false;
      if authPaused && detected != lastFailedToken {
        ResumeAuth();
      }
      if limitPaused {
        ResetLimits();
      }
    }

    method BypassRateLimit(env: Env) returns (done: bool)
      modifies this
      ensures Progress(done) == Bypass(cfg, old(Progress(false)), env)
    {
      hide Finish, RefuseRefresh, RetryRefreshed;
      if cfg.owner || (limitPaused && env.now < limitResumeAt) {
        ReportOutcome(Failure("rate_limit"));
        return true;
      }
      limitPaused := false;
      if env.claudeRunningAtBypass || !cfg.credsRefresh || env.credsForBypass.None?
         || env.credsForBypass.value.refresh == "" {
        ReportOutcome(Failure("rate_limit"));
        return true;
      }
      log := log + [OAuth];
      if Answer(env.bypass).Tokens? {
        done := RetryWithRefreshedToken(Answer(env.bypass).access, env);
      } else {
        HandleRefusedRefresh(env);
        done := true;
      }
    }

    method HandleRefusedRefresh(env: Env)
      requires !Answer(env.bypass).Tokens?
      modifies this
      ensures Progress(true) == RefuseRefresh(old(Progress(false)), env)
    {
      hide Finish, BackedOff, InvalidGrantPause;
      match Answer(env.bypass)
      case Throttled(retryAfter) =>
        BackOff(env.now, retryAfter);
        ReportOutcome(Failure("rate_limit"));
      case InvalidGrant =>
        PauseForInvalidGrant();
        ReportOutcome(Failure("authentication"));
      case RefreshFailed =>
        if limitFails + 1 >= MAX_RATE_LIMIT_FAILURES {
          BackOff(env.now, 0);
        } else {
          limitFails := limitFails + 1;
        }
        ReportOutcome(Failure("rate_limit"));
    }

    method RetryWithRefreshedToken(access: string, env: Env) returns (done: bool)
      modifies this
      ensures Progress(done) == RetryRefreshed(old(Progress(false)), access, env)
    {
      hide Finish;
      ResetLimits();
      token, lastToken := access, access;
      log := log + [Fetch(token, authPaused)];
      done := env.bypassFetch != Quotas;
      if done {
        ReportOutcome(if env.cancelledAtBypass then Skipped else Failure(CategoryOf(env.bypassFetch)));
      }
    }

    method RetryWithRereadToken(env: Env) returns (done: bool)
      modifies this
      ensures Progress(done) == RetryAuth(old(Progress(false)), env)
    {
      hide Finish, RefuseRetry;
      lastToken := "";
      if env.redetected == "" {
        ReportOutcome(Failure("missing_credentials"));
        return true;
      }
      token, lastToken := env.redetected, env.redetected;
      log := log + [Fetch(token, authPaused)];
      done := env.retryFetch != Quotas;
      if done {
        HandleRefusedRetry(env);
      } else {
        authFails := 0;
      }
    }

    method HandleRefusedRetry(env: Env)
      modifies this
      ensures Progress(true) == RefuseRetry(old(Progress(false)), env)
    {
      hide Finish;
      if env.cancelledAtRetry {
        ReportOutcome(Skipped);
      } else if env.retryFetch == Unauthorized {
        authFails := authFails + 1;
        if authFails >= MAX_AUTH_FAILURES {
          authPaused := true;
          lastFailedToken := env.redetected;
        }
        ReportOutcome(Failure("authentication"));
      } else {
        ReportOutcome(Failure("provider_request"));
      }
    }

    method RequestQuotas(env: Env) returns (done: bool)
      modifies this
      ensures Progress(done) == FetchQuotas(cfg, old(Progress(false)), env)
    {
      log := log + [Fetch(token, authPaused)];
      if env.fetch == Quotas {
        authFails := 0;
        return false;
      }
      if env.cancelledAtFetch {
        ReportOutcome(Skipped);
        return true;
      }
      if env.fetch == RateLimited {
        done := BypassRateLimit(env);
      } else if env.fetch == Unauthorized && cfg.tokenRefresh {
        done := RetryWithRereadToken(env);
      } else {
        ReportOutcome(Failure(CategoryOf(env.fetch)));
        done := true;
      }
    }

    method PrepareToFetch(env: Env) returns (done: bool)
      requires Progress(false) == Start(State())
      modifies this
      ensures Progress(done) == Prepare(cfg, old(State()), env)
    {
      hide Gate, ReadStatusline, Credentials, TakeToken, CheckReady, Start;
      ghost var a := State();
      done := PollStatusline(env);
      WasPaused(cfg, a, env);
      var wasPaused := authPaused;
      if done {
        DoneAtStatusline(cfg, Progress(true), env, wasPaused);
        return;
      }
      done := PrepareCredentials(env);
      if done {
        DoneAtCredentials(cfg, Progress(true), env, wasPaused);
        return;
      }
      RefreshToken(env);
      done := Check(wasPaused);
    }

    method SaveSnapshot(env: Env)
      modifies this
      ensures Progress(true) == Save(old(Progress(false)), env)
    {
      hide Finish;
      if !env.stored {
        ReportOutcome(Failure("storage"));
        return;
      }
      usableSnapshot := true;
      log := log + [Stored];
      ReportOutcome(Success);
    }

    method PollOnce(env: Env)
      requires Inv(State())
      modifies this
      ensures Inv(State())
      ensures State() == Poll(cfg, old(State()), env).a
      ensures log == Poll(cfg, old(State()), env).log
      ensures forall e | e in log :: Allowed(cfg, e)
      ensures Fetches(log) <= 2
      ensures |Outcomes(log)| == if old(authPaused) && PausedAtCheck(cfg, old(State()), env) then 0 else 1
      ensures Stored in log ==> forall o | o in Outcomes(log) :: o == Success
    {
      hide Prepare, FetchQuotas, Save, Inv, Allowed, Fetches, Outcomes, AtCheck;
      ghost var a := State();
      PollIsSafe(cfg, a, env);
      log, outcomeReported, usableSnapshot := [], false, false;
      var done := PrepareToFetch(env);
      if !done {
        done := RequestQuotas(env);
        if !done {
          SaveSnapshot(env);
          return;
        }
        DoneAtFetch(Progress(true), env);
      } else {
        DoneAtCheck(cfg, Progress(true), env);
      }
    }

    /** May the poll fetch quotas? */
    method Check(wasPaused: bool) returns (done: bool)
      modifies this
      ensures Progress(done) == CheckReady(old(Progress(false)), wasPaused)
    {
      if authPaused {
        if !wasPaused {
          ReportOutcome(Failure("authentication"));
        }
        return true;
      }
      if token == "" {
        ReportOutcome(Failure("missing_credentials"));
        return true;
      }
      return false;
    }
  }

  lemma NotSaved(a: Agent, answer: OAuthAnswer)
    ensures answer.Tokens? ==> WithRefreshed(a, answer.access, false) == a
  {}

  lemma WasPaused(cfg: Config, a: Agent, env: Env)
    ensures ReadStatusline(cfg, Gate(Start(a), env), env).a.authPaused == a.authPaused
  {}

  lemma DoneAtFetch(t: Turn, env: Env)
    requires t.done
    ensures Save(t, env) == t
  {}

  lemma DoneAtCheck(cfg: Config, t: Turn, env: Env)
    requires t.done
    ensures Save(FetchQuotas(cfg, t, env), env) == t
  {}

  lemma DoneAtCredentials(cfg: Config, t: Turn, env: Env, wasPaused: bool)
    requires t.done
    ensures CheckReady(TakeToken(cfg, t, env), wasPaused) == t
  {}

  lemma DoneAtStatusline(cfg: Config, t: Turn, env: Env, wasPaused: bool)
    requires t.done
    ensures CheckReady(TakeToken(cfg, Credentials(cfg, t, env), env), wasPaused) == t
  {}
}
