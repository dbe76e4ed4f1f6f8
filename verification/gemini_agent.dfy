/** The Gemini agent, which polls by updating its fields (internal/agent/gemini_agent.go); each
    method does what the phase of the same name in gemini_poll.dfy says. */
module GeminiAgents {
  import opened Options
  import opened GeminiPoll
  import opened GeminiSafety
  import Backoff

  class GeminiAgent {
    const configured: bool

    var token: string
    var lastToken: string
    var authFailCount: nat
    var authPaused: bool
    var lastFailedToken: string
    var failedRefresh: string
    var authRetryCount: nat
    var authRetryAt: nat
    var tierFetched: bool

    /** What the poll in progress has done. */
    var log: seq<Effect>

    constructor (configured: bool, token: string)
      ensures this.configured == configured && Inv(State())
      ensures State() == Agent(token, "", 0, false, "", "", 0, 0, false)
    {
      this.configured, this.token, lastToken := configured, token, "";
      authFailCount, authPaused, lastFailedToken, failedRefresh := 0, false, "", "";
      authRetryCount, authRetryAt, tierFetched, log := 0, 0, false, [];
    }

    ghost function State(): Agent
      reads this
    {
      Agent(token, lastToken, authFailCount, authPaused, lastFailedToken, failedRefresh,
            authRetryCount, authRetryAt, tierFetched)
    }

    ghost function Progress(done: bool): Turn
      reads this
    {
      Turn(State(), log, done)
    }

    method Report(o: Outcome)
      modifies this`log
      ensures Progress(true) == Finish(old(Progress(false)), o)
    {
      log := log + [Reported(o)];
    }

    method PauseAuthentication(access: string, refresh: string, env: Env)
      modifies this
      ensures Progress(false) == Pause(old(Progress(false)), access, refresh, env)
    {
      authPaused := true;
      lastFailedToken := access;
      failedRefresh := refresh;
      authRetryCount := authRetryCount + 1;
      var delay := Backoff.GeminiAuthRetryDelay(authRetryCount, env.random);
      authRetryAt := env.nowAtPause + delay;
      log := log + [Paused(authRetryCount, env.nowAtPause, authRetryAt)];
    }

    method ResetAuthenticationFailures()
      modifies this
      ensures Progress(false) == ResetFailures(old(Progress(false)))
    {
      authFailCount := 0;
      authPaused := false;
      lastFailedToken, failedRefresh := "", "";
      authRetryCount := 0;
      authRetryAt := 0;
      log := log + [Reset];
    }

    /** Lifts a pause whose deadline has passed or whose credentials were replaced. */
    method LiftExpiredPause(env: Env) returns (done: bool)
      modifies this
      ensures Progress(done) == LiftPause(old(Progress(false)), env)
    {
      hide ResetFailures;
      done := false;
      if authPaused {
        var changed := env.creds.Some? && env.creds.value.refresh != "" && env.creds.value.refresh != failedRefresh;
        if !changed && env.now < authRetryAt {
          done := true;
        } else if changed {
          ResetAuthenticationFailures();
        } else {
          authPaused := false;
        }
      }
    }

    method RefreshToken(env: Env)
      modifies this
      ensures Progress(false) == TakeToken(old(Progress(false)), env)
    {
      if env.creds.Some? {
        var creds := env.creds.value;
        var access := creds.access;
        if creds.expiringSoon && creds.refresh != "" {
          log := log + [Refresh(creds.refresh)];
          if env.proactive.Some? {
            access := env.proactive.value;
            token, lastToken := access, access;
          }
        }
        if access != "" && access != lastToken {
          token, lastToken := access, access;
        }
      }
    }

    method PrepareToFetch(env: Env) returns (done: bool)
      requires log == []
      modifies this
      ensures Progress(done) == Prepare(configured, old(State()), env)
    {
      hide LiftPause, TakeToken;
      if env.cancelledAtStart || !env.enabled {
        Report(Skipped);
        DoneBeforeTokens(Progress(true), env);
        PausedOrDone(Progress(true));
        return true;
      }
      if configured {
        done := LiftExpiredPause(env);
        if done {
          DoneBeforeTokens(Progress(true), env);
          return;
        }
        RefreshToken(env);
      }
      done := authPaused;
    }

    method FetchTierOnce(env: Env) returns (done: bool)
      modifies this
      ensures Progress(done) == EnsureTier(old(Progress(false)), env)
    {
      hide Finish;
      if !tierFetched {
        log := log + [FetchTier];
        if env.tier == TierKnown {
          tierFetched := true;
        } else if env.cancelledAtTier {
          Report(Skipped);
          return true;
        } else if env.tier == TierUnsupported {
          Report(Failure("provider_request"));
          return true;
        }
      }
      return false;
    }

    method CountAuthFailure(access: string, refresh: string, env: Env)
      modifies this
      ensures Progress(false) == CountFailure(old(Progress(false)), access, refresh, env)
    {
      hide Pause;
      authFailCount := authFailCount + 1;
      if authFailCount >= MAX_AUTH_FAILURES {
        PauseAuthentication(access, refresh, env);
      }
    }

    method RetryWithRefresh(env: Env) returns (done: bool)
      modifies this
      ensures Progress(done) == RetryAuth(old(Progress(false)), env)
    {
      hide Finish, CountFailure, RetryFetch;
      if env.credsForRetry.None? || env.credsForRetry.value.refresh == "" {
        Report(Failure("missing_credentials"));
        return true;
      }
      var refresh := env.credsForRetry.value.refresh;
      log := log + [Refresh(refresh)];
      if env.refreshed.Some? {
        done := RetryWithToken(env.refreshed.value, refresh, env);
        return;
      }
      if env.cancelledAtRefresh {
        Report(Skipped);
      } else {
        CountAuthFailure(lastToken, refresh, env);
        Report(Failure("authentication"));
      }
      return true;
    }

    method RetryWithToken(access: string, refresh: string, env: Env) returns (done: bool)
      modifies this
      ensures Progress(done) == RetryFetch(old(Progress(false)), access, refresh, env)
    {
      hide Finish, CountFailure;
      token, lastToken := access, access;
      log := log + [Fetch(access)];
      if env.retryFetch == Quotas {
        authFailCount := 0;
        return false;
      }
      if env.cancelledAtRetry {
        Report(Skipped);
      } else if env.retryFetch == Unauthorized {
        CountAuthFailure(access, refresh, env);
        Report(Failure("authentication"));
      } else {
        Report(Failure("provider_request"));
      }
      return true;
    }

    method RequestQuotas(env: Env) returns (done: bool)
      modifies this
      ensures Progress(done) == FetchQuotas(configured, old(Progress(false)), env)
    {
      hide Finish, RetryAuth, ResetFailures;
      log := log + [Fetch(token)];
      if env.fetch == Quotas {
        ResetAuthenticationFailures();
        return false;
      }
      if env.cancelledAtFetch {
        Report(Skipped);
      } else if env.fetch == Unauthorized && configured {
        done := RetryWithRefresh(env);
        return;
      } else {
        Report(Failure(if env.fetch == Unauthorized then "authentication" else "provider_request"));
      }
      return true;
    }

    method SaveSnapshot(env: Env)
      modifies this
      ensures Progress(true) == Save(old(Progress(false)), env)
    {
      if !env.stored {
        Report(Failure("storage"));
        return;
      }
      Report(Success);
      ResetAuthenticationFailures();
    }

    method PollOnce(env: Env)
      requires Inv(State())
      modifies this
      ensures Inv(State())
      ensures State() == Poll(configured, old(State()), env).a
      ensures log == Poll(configured, old(State()), env).log
      ensures authRetryCount == PausesSinceReset(old(authRetryCount), log)
      ensures forall e | e in log :: Timely(e)
      ensures Reports(log) == if Waits(configured, old(State()), env) then 0 else 1
    {
      hide Prepare, EnsureTier, FetchQuotas, Save, Inv, Timely, Waits, PausesSinceReset, Reports;
      PollIsSafe(configured, State(), env);
      log := [];
      var done := PrepareToFetch(env);
      if !done {
        done := FetchTierOnce(env);
        if !done {
          done := RequestQuotas(env);
          if !done {
            SaveSnapshot(env);
            return;
          }
        }
      }
      DoneStays(configured, Progress(true), env);
      DoneAtFetch(configured, Progress(true), env);
    }
  }

  lemma DoneBeforeTokens(t: Turn, env: Env)
    requires t.done
    ensures LiftPause(t, env) == t && TakeToken(t, env) == t
  {}

  lemma PausedOrDone(t: Turn)
    requires t.done
    ensures CheckPause(t) == t
  {}

  lemma DoneAtFetch(configured: bool, t: Turn, env: Env)
    requires t.done
    ensures FetchQuotas(configured, t, env) == t && Save(t, env) == t
  {}
}
