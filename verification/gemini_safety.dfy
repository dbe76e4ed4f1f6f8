/** What every Gemini poll keeps, and what holds over whole runs (internal/agent/gemini_agent.go). */
module GeminiSafety {
  import opened Options
  import opened GeminiPoll
  import Backoff

  /** The pauses since the last reset, if there were `count` before the log. */
  function PausesSinceReset(count: nat, log: seq<Effect>): nat {
    if log == [] then count
    else
      var before, last := PausesSinceReset(count, log[..|log| - 1]), log[|log| - 1];
      if last.Paused? then before + 1 else if last == Reset then 0 else before
  }

  function Reports(log: seq<Effect>): nat {
    if log == [] then 0
    else Reports(log[..|log| - 1]) + if log[|log| - 1].Reported? then 1 else 0
  }

  /** A pause waits 2^(n-1) hours after the nth failure, a fifth more or less, at most a day. */
  predicate Timely(e: Effect) {
    e.Paused? ==>
      && e.count >= 1 && e.at <= e.until
      && 5 * (e.until - e.at) >= 4 * Backoff.RetryHours(e.count) - 5
      && e.until - e.at <= Backoff.AUTH_RETRY_MAX
      && 5 * (e.until - e.at) <= 6 * Backoff.RetryHours(e.count)
  }

  predicate Network(e: Effect) {
    e.Refresh? || e.FetchTier? || e.Fetch?
  }

  predicate Inv(a: Agent) {
    a.authPaused ==> a.authFails >= MAX_AUTH_FAILURES && a.retryCount >= 1
  }

  predicate TurnOk(count: nat, t: Turn) {
    && Inv(t.a)
    && t.a.retryCount == PausesSinceReset(count, t.log)
    && (forall e | e in t.log :: Timely(e))
  }

  lemma Snoc(count: nat, log: seq<Effect>, e: Effect)
    ensures PausesSinceReset(count, log + [e]) ==
            var before := PausesSinceReset(count, log);
            if e.Paused? then before + 1 else if e == Reset then 0 else before
    ensures Reports(log + [e]) == Reports(log) + if e.Reported? then 1 else 0
  {
    assert (log + [e])[..|log|] == log;
  }

  lemma LogKeeps(count: nat, t: Turn, e: Effect)
    requires TurnOk(count, t) && !e.Paused? && e != Reset
    ensures TurnOk(count, Log(t, e))
    ensures Reports(Log(t, e).log) == Reports(t.log) + if e.Reported? then 1 else 0
  {
    Snoc(count, t.log, e);
  }

  lemma FinishKeeps(count: nat, t: Turn)
    requires TurnOk(count, t)
    ensures forall o :: TurnOk(count, Finish(t, o)) && Reports(Finish(t, o).log) == Reports(t.log) + 1
  {
    hide TurnOk;
    forall o ensures TurnOk(count, Finish(t, o)) && Reports(Finish(t, o).log) == Reports(t.log) + 1 {
      LogKeeps(count, t, Reported(o));
      SameState(count, Log(t, Reported(o)));
    }
  }

  lemma SameState(count: nat, t: Turn)
    ensures TurnOk(count, t) <==> TurnOk(count, t.(done := true))
  {}

  lemma ResetKeeps(count: nat, t: Turn)
    requires TurnOk(count, t)
    ensures TurnOk(count, ResetFailures(t)) && Reports(ResetFailures(t).log) == Reports(t.log)
  {
    Snoc(count, t.log, Reset);
  }

  lemma PauseKeeps(count: nat, t: Turn, access: string, refresh: string, env: Env)
    requires TurnOk(count, t) && t.a.authFails >= MAX_AUTH_FAILURES
    ensures TurnOk(count, Pause(t, access, refresh, env))
    ensures Reports(Pause(t, access, refresh, env).log) == Reports(t.log)
  {
    var n := t.a.retryCount + 1;
    var until := env.nowAtPause + Backoff.RetryDelay(n, env.random);
    Snoc(count, t.log, Paused(n, env.nowAtPause, until));
    Backoff.JitterIsBounded(n, env.random);
    hide Backoff.RetryDelay, Backoff.RetryHours;
    assert Timely(Paused(n, env.nowAtPause, until));
  }

  lemma FailureCounted(count: nat, t: Turn)
    requires TurnOk(count, t)
    ensures TurnOk(count, t.(a := t.a.(authFails := t.a.authFails + 1)))
  {
    hide Timely, PausesSinceReset;
  }

  lemma CountKeeps(count: nat, t: Turn, access: string, refresh: string, env: Env)
    requires TurnOk(count, t)
    ensures TurnOk(count, CountFailure(t, access, refresh, env))
    ensures Reports(CountFailure(t, access, refresh, env).log) == Reports(t.log)
  {
    hide TurnOk, Pause;
    var u := t.(a := t.a.(authFails := t.a.authFails + 1));
    FailureCounted(count, t);
    if u.a.authFails >= MAX_AUTH_FAILURES {
      PauseKeeps(count, u, access, refresh, env);
    }
  }

  /** Only the token fields differ. */
  lemma TokensDoNotMatter(count: nat, t: Turn)
    requires TurnOk(count, t)
    ensures forall token, lastToken :: TurnOk(count, t.(a := t.a.(token := token, lastToken := lastToken)))
    ensures TurnOk(count, t.(a := t.a.(tierFetched := true))) && TurnOk(count, t.(done := true))
    ensures TurnOk(count, t.(a := t.a.(authPaused := false)))
  {}

  /** What holds before the outcome of a poll is known. */
  predicate Open(count: nat, t: Turn) {
    TurnOk(count, t) && Reports(t.log) == 0 && !t.a.authPaused
  }

  /** What holds once it is. */
  predicate Closed(count: nat, t: Turn) {
    TurnOk(count, t) && Reports(t.log) == 1 && t.done
  }

  lemma PrepareKeeps(configured: bool, a: Agent, env: Env)
    requires Inv(a)
    ensures var p := Prepare(configured, a, env);
            && TurnOk(a.retryCount, p)
            && Reports(p.log) == (if env.cancelledAtStart || !env.enabled then 1 else 0)
  {
    hide TurnOk, Inv, Finish, ResetFailures;
    var t0 := Turn(a, [], false);
    assert TurnOk(a.retryCount, t0) by {
      Fresh(a);
    }
    assert Reports(t0.log) == 0;
    FinishKeeps(a.retryCount, t0);
    var g := Gate(t0, env);
    ResetKeeps(a.retryCount, g);
    TokensDoNotMatter(a.retryCount, g);
    var l := LiftPause(g, env);
    assert TurnOk(a.retryCount, l) && Reports(l.log) == Reports(g.log);
    TakeTokenKeeps(a.retryCount, l, env);
    hide LiftPause, TakeToken;
    var k := TakeToken(l, env);
    TokensDoNotMatter(a.retryCount, k);
    TokensDoNotMatter(a.retryCount, g);
  }

  lemma Fresh(a: Agent)
    requires Inv(a)
    ensures TurnOk(a.retryCount, Turn(a, [], false))
  {}

  lemma TakeTokenKeeps(count: nat, t: Turn, env: Env)
    requires TurnOk(count, t)
    ensures TurnOk(count, TakeToken(t, env)) && Reports(TakeToken(t, env).log) == Reports(t.log)
  {
    hide TurnOk;
    TokensDoNotMatter(count, t);
    if env.creds.Some? {
      var u := Log(t, Refresh(env.creds.value.refresh));
      LogKeeps(count, t, Refresh(env.creds.value.refresh));
      TokensDoNotMatter(count, u);
    }
  }

  lemma TierKeeps(count: nat, t: Turn, env: Env)
    requires Open(count, t) && !t.done
    ensures var u := EnsureTier(t, env);
            if u.done then Closed(count, u) else Open(count, u)
  {
    hide TurnOk, Finish;
    LogKeeps(count, t, FetchTier);
    var u := Log(t, FetchTier);
    TokensDoNotMatter(count, u);
    FinishKeeps(count, u);
    FinishDone(u);
  }

  lemma FinishDone(t: Turn)
    ensures forall o :: Finish(t, o).done
  {}

  lemma RetryFetchKeeps(count: nat, t: Turn, access: string, refresh: string, env: Env)
    requires Open(count, t) && !t.done
    ensures var u := RetryFetch(t, access, refresh, env);
            if u.done then Closed(count, u) else Open(count, u)
  {
    hide TurnOk, Finish, CountFailure;
    TokensDoNotMatter(count, t);
    var u := t.(a := t.a.(token := access, lastToken := access));
    LogKeeps(count, u, Fetch(access));
    var v := Log(u, Fetch(access));
    FinishKeeps(count, v);
    FinishDone(v);
    CountKeeps(count, v, access, refresh, env);
    FinishKeeps(count, CountFailure(v, access, refresh, env));
    FinishDone(CountFailure(v, access, refresh, env));
    FailuresCleared(count, v);
  }

  lemma FailuresCleared(count: nat, t: Turn)
    requires TurnOk(count, t)
    ensures !t.a.authPaused ==> TurnOk(count, t.(a := t.a.(authFails := 0)))
  {}

  lemma RetryAuthKeeps(count: nat, t: Turn, env: Env)
    requires Open(count, t) && !t.done
    ensures var u := RetryAuth(t, env);
            if u.done then Closed(count, u) else Open(count, u)
  {
    hide TurnOk, Finish, CountFailure, RetryFetch;
    FinishKeeps(count, t);
    FinishDone(t);
    if env.credsForRetry.Some? {
      var refresh := env.credsForRetry.value.refresh;
      LogKeeps(count, t, Refresh(refresh));
      var u := Log(t, Refresh(refresh));
      FinishKeeps(count, u);
      FinishDone(u);
      CountKeeps(count, u, u.a.lastToken, refresh, env);
      var v := CountFailure(u, u.a.lastToken, refresh, env);
      FinishKeeps(count, v);
      FinishDone(v);
      if env.refreshed.Some? {
        RetryFetchKeeps(count, u, env.refreshed.value, refresh, env);
      }
    }
  }

  lemma FetchKeeps(configured: bool, count: nat, t: Turn, env: Env)
    requires if t.done then Closed(count, t) else Open(count, t)
    ensures var u := FetchQuotas(configured, t, env);
            if u.done then Closed(count, u) else Open(count, u)
  {
    hide TurnOk, Finish, RetryAuth;
    if !t.done {
      LogKeeps(count, t, Fetch(t.a.token));
      var u := Log(t, Fetch(t.a.token));
      ResetKeeps(count, u);
      FinishKeeps(count, u);
      FinishDone(u);
      RetryAuthKeeps(count, u, env);
    }
  }

  lemma SaveKeeps(count: nat, t: Turn, env: Env)
    requires if t.done then Closed(count, t) else Open(count, t)
    ensures Closed(count, Save(t, env))
  {
    hide TurnOk, Finish;
    if !t.done {
      FinishKeeps(count, t);
      FinishDone(t);
      ResetKeeps(count, Finish(t, Success));
    }
  }

  /** Does the poll stop before the network, without an outcome, because polling is paused? */
  predicate Waits(configured: bool, a: Agent, env: Env) {
    && !env.cancelledAtStart && env.enabled && a.authPaused
    && (configured ==> !NewLineage(a, env) && env.now < a.retryAt)
  }

  /** For every agent and answers of the environment: the retry counter counts the pauses since
      the last reset, every pause is timely, and the poll reports exactly one outcome, or none
      when it waits. */
  lemma PollIsSafe(configured: bool, a: Agent, env: Env)
    requires Inv(a)
    ensures var p := Poll(configured, a, env);
            && Inv(p.a)
            && p.a.retryCount == PausesSinceReset(a.retryCount, p.log)
            && (forall e | e in p.log :: Timely(e))
            && Reports(p.log) == (if Waits(configured, a, env) then 0 else 1)
  {
    PrepareKeeps(configured, a, env);
    PrepareWaits(configured, a, env);
    var p := Prepare(configured, a, env);
    hide Prepare, EnsureTier, FetchQuotas, Save, Waits;
    if p.done {
      DoneStays(configured, p, env);
    } else {
      TierKeeps(a.retryCount, p, env);
      FetchKeeps(configured, a.retryCount, EnsureTier(p, env), env);
      SaveKeeps(a.retryCount, FetchQuotas(configured, EnsureTier(p, env), env), env);
    }
  }

  lemma DoneStays(configured: bool, t: Turn, env: Env)
    requires t.done
    ensures Save(FetchQuotas(configured, EnsureTier(t, env), env), env) == t
  {}

  /** The preparation ends a poll that is cancelled, disabled or waiting, and no other. */
  lemma PrepareWaits(configured: bool, a: Agent, env: Env)
    requires Inv(a)
    ensures var p := Prepare(configured, a, env);
            && (p.done <==> (env.cancelledAtStart || !env.enabled || Waits(configured, a, env)))
            && (!p.done ==> !p.a.authPaused && forall e | e in p.log :: e.Refresh? || e == Reset)
            && (Waits(configured, a, env) ==> p == Turn(a, [], true))
  {
    hide Inv;
  }

  lemma FetchesFirst(configured: bool, t: Turn, env: Env)
    requires !t.done
    ensures exists e | e in Save(FetchQuotas(configured, EnsureTier(t, env), env), env).log :: Network(e)
  {
    hide RetryAuth, Finish, ResetFailures;
    var u := EnsureTier(t, env);
    var v := Log(u, Fetch(u.a.token));
    FinishExtends(Log(t, FetchTier));
    if !u.done {
      assert Fetch(u.a.token) in v.log;
      FinishExtends(v);
      ResetExtends(v);
      RetryExtends(v, env);
      assert Fetch(u.a.token) in FetchQuotas(configured, u, env).log;
      SaveExtends(FetchQuotas(configured, u, env), env);
    } else {
      assert FetchTier in Log(t, FetchTier).log;
      assert Save(FetchQuotas(configured, u, env), env) == u;
      assert FetchTier in u.log && Network(FetchTier);
    }
  }

  predicate Extends(s: Turn, t: Turn) {
    forall e | e in s.log :: e in t.log
  }

  lemma FinishExtends(t: Turn)
    ensures forall o :: Extends(t, Finish(t, o))
  {}

  lemma ResetExtends(t: Turn)
    ensures Extends(t, ResetFailures(t))
  {}

  lemma RetryExtends(t: Turn, env: Env)
    ensures Extends(t, RetryAuth(t, env))
  {}

  lemma SaveExtends(t: Turn, env: Env)
    ensures Extends(t, Save(t, env))
  {}

  /** A paused agent that is polled uses the network exactly when its deadline has passed or its
      credentials offer another refresh token; otherwise the poll leaves it as it was. */
  lemma PausedWaitsExactly(a: Agent, env: Env)
    requires Inv(a) && a.authPaused && !env.cancelledAtStart && env.enabled
    ensures (exists e | e in Poll(true, a, env).log :: Network(e)) <==> (env.now >= a.retryAt || NewLineage(a, env))
    ensures env.now < a.retryAt && !NewLineage(a, env) ==> Poll(true, a, env) == Turn(a, [], true)
  {
    hide Inv, NewLineage;
    PrepareWaits(true, a, env);
    var p := Prepare(true, a, env);
    hide Prepare, EnsureTier, FetchQuotas, Save;
    if p.done {
      DoneStays(true, p, env);
    } else {
      FetchesFirst(true, p, env);
    }
  }

  // ---------- whole runs ----------

  /** The agent after the polls, the latest last. */
  function After(configured: bool, a: Agent, envs: seq<Env>): Agent {
    if envs == [] then a
    else Poll(configured, After(configured, a, envs[..|envs| - 1]), envs[|envs| - 1]).a
  }

  /** Everything those polls did. */
  function Trace(configured: bool, a: Agent, envs: seq<Env>): seq<Effect> {
    if envs == [] then []
    else
      var before := envs[..|envs| - 1];
      Trace(configured, a, before) + Poll(configured, After(configured, a, before), envs[|envs| - 1]).log
  }

  lemma {:induction false} PausesAdd(count: nat, s: seq<Effect>, t: seq<Effect>)
    ensures PausesSinceReset(count, s + t) == PausesSinceReset(PausesSinceReset(count, s), t)
    ensures Reports(s + t) == Reports(s) + Reports(t)
  {
    if t == [] {
      assert s + t == s;
    } else {
      var u, e := t[..|t| - 1], t[|t| - 1];
      assert t == u + [e] && s + t == (s + u) + [e];
      PausesAdd(count, s, u);
      Snoc(PausesSinceReset(count, s), u, e);
      Snoc(count, s + u, e);
    }
  }

  /** Over every run the retry counter is the number of pauses since the last reset, each pause
      waits as that count demands, and no poll reports twice. */
  lemma {:induction false} RunIsSafe(configured: bool, a: Agent, envs: seq<Env>)
    requires Inv(a)
    ensures Inv(After(configured, a, envs))
    ensures After(configured, a, envs).retryCount == PausesSinceReset(a.retryCount, Trace(configured, a, envs))
    ensures forall e | e in Trace(configured, a, envs) :: Timely(e)
    ensures Reports(Trace(configured, a, envs)) <= |envs|
  {
    hide Poll, Inv, Timely, Waits;
    if envs != [] {
      var before, env := envs[..|envs| - 1], envs[|envs| - 1];
      RunIsSafe(configured, a, before);
      var b := After(configured, a, before);
      PollIsSafe(configured, b, env);
      PausesAdd(a.retryCount, Trace(configured, a, before), Poll(configured, b, env).log);
    }
  }

  /** Until its deadline, and as long as no other refresh token appears, a paused agent does
      nothing at all, however often it is polled. */
  lemma {:induction false} PausedStaysQuiet(a: Agent, envs: seq<Env>)
    requires Inv(a) && a.authPaused
    requires forall env | env in envs ::
               !env.cancelledAtStart && env.enabled && env.now < a.retryAt && !NewLineage(a, env)
    ensures Trace(true, a, envs) == [] && After(true, a, envs) == a
  {
    hide Poll, Inv, NewLineage;
    if envs != [] {
      var before, env := envs[..|envs| - 1], envs[|envs| - 1];
      PausedStaysQuiet(a, before);
      assert env in envs;
      PausedWaitsExactly(a, env);
    }
  }
}
