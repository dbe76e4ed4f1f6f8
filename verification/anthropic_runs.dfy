/** Whole runs of Anthropic polls: one agent, any sequence of environment answers
    (internal/agent/anthropic_agent.go). */
module AnthropicRuns {
  import opened Options
  import opened AnthropicPoll
  import opened AnthropicSafety
  import Backoff

  /** The agent after the polls, the latest last. */
  function After(cfg: Config, a: Agent, envs: seq<Env>): Agent {
    if envs == [] then a
    else Poll(cfg, After(cfg, a, envs[..|envs| - 1]), envs[|envs| - 1]).a
  }

  /** Everything those polls did. */
  function Trace(cfg: Config, a: Agent, envs: seq<Env>): seq<Effect> {
    if envs == [] then []
    else
      var before := envs[..|envs| - 1];
      Trace(cfg, a, before) + Poll(cfg, After(cfg, a, before), envs[|envs| - 1]).log
  }

  lemma {:induction false} CountsAdd(s: seq<Effect>, t: seq<Effect>)
    ensures Fetches(s + t) == Fetches(s) + Fetches(t)
    ensures Outcomes(s + t) == Outcomes(s) + Outcomes(t)
  {
    if t == [] {
      assert s + t == s;
    } else {
      var u, e := t[..|t| - 1], t[|t| - 1];
      assert t == u + [e] && s + t == (s + u) + [e];
      CountsAdd(s, u);
      Snoc(u, e);
      Snoc(s + u, e);
    }
  }

  /** Over every run: the pause is exact, no fetch is made while paused or without a token, at
      most two per poll, at most one outcome per poll, and with a credential owner the OAuth
      endpoint is never called. */
  lemma {:induction false} RunIsSafe(cfg: Config, a: Agent, envs: seq<Env>)
    requires Inv(a)
    ensures Inv(After(cfg, a, envs))
    ensures forall e | e in Trace(cfg, a, envs) :: Allowed(cfg, e)
    ensures Fetches(Trace(cfg, a, envs)) <= 2 * |envs|
    ensures |Outcomes(Trace(cfg, a, envs))| <= |envs|
    ensures cfg.owner ==> OAuth !in Trace(cfg, a, envs)
  {
    hide Poll, Inv, Allowed, AtCheck;
    if envs != [] {
      var before := envs[..|envs| - 1];
      RunIsSafe(cfg, a, before);
      var b := After(cfg, a, before);
      PollIsSafe(cfg, b, envs[|envs| - 1]);
      CountsAdd(Trace(cfg, a, before), Poll(cfg, b, envs[|envs| - 1]).log);
    }
    assert cfg.owner ==> !Allowed(cfg, OAuth) by {
      OwnerForbidsOAuth(cfg);
    }
  }

  lemma OwnerForbidsOAuth(cfg: Config)
    ensures Allowed(cfg, OAuth) <==> !cfg.owner
  {}

  // ---------- read-only mode ----------

  /** Does the poll get past its gate and its statusline data? */
  predicate Proceeds(cfg: Config, a: Agent, env: Env) {
    !ReadStatusline(cfg, Gate(Start(a), env), env).done
  }

  /** Does the poll find a token that is not the one that failed? */
  predicate NewToken(cfg: Config, a: Agent, env: Env) {
    && cfg.tokenRefresh && env.detected != "" && env.detected != a.lastFailedToken
    && (env.detected != a.lastToken || a.usingFallback)
  }

  /** Without stored credentials to refresh, a paused agent fetches again exactly when its token
      source offers another token than the failed one, and then it uses that token. */
  lemma PausedResumesExactly(cfg: Config, a: Agent, env: Env)
    requires Inv(a) && a.authPaused && !cfg.credsRefresh
    ensures (exists e | e in Poll(cfg, a, env).log :: e.Fetch?)
            <==> (Proceeds(cfg, a, env) && NewToken(cfg, a, env))
    ensures Proceeds(cfg, a, env) && NewToken(cfg, a, env) ==> Fetch(env.detected, false) in Poll(cfg, a, env).log
    ensures !NewToken(cfg, a, env) ==>
              var b := Poll(cfg, a, env).a;
              b.authPaused && b.lastFailedToken == a.lastFailedToken
  {
    hide FetchQuotas, Save, Inv, Finish;
    var g := ReadStatusline(cfg, Gate(Start(a), env), env);
    StatuslineLeaves(cfg, a, env);
    var p := Prepare(cfg, a, env);
    CheckLog(TakeToken(cfg, g, env), a.authPaused);
    if p.done {
      DoneStays(cfg, p, env);
    } else {
      FetchesFirst(cfg, p, env);
    }
  }

  lemma StatuslineLeaves(cfg: Config, a: Agent, env: Env)
    ensures var g := ReadStatusline(cfg, Gate(Start(a), env), env);
            g.a == a.(cycles := g.a.cycles) && forall e | e in g.log :: !e.Fetch? && e != AskOwner && e != OAuth
  {}

  lemma FinishLog(t: Turn, o: Outcome)
    ensures Finish(t, o).a == t.a && Finish(t, o).done
    ensures forall e | e in Finish(t, o).log :: e in t.log || e.Reported?
    ensures forall e | e in t.log :: e in Finish(t, o).log
  {}

  lemma CheckLog(t: Turn, wasPaused: bool)
    ensures var c := CheckReady(t, wasPaused);
            c.a == t.a && (forall e | e in c.log :: e in t.log || e.Reported?)
            && (c.done <==> (t.done || t.a.authPaused || t.a.token == ""))
            && (!c.done ==> c == t)
  {
    FinishLog(t, Failure("authentication"));
    FinishLog(t, Failure("missing_credentials"));
  }

  lemma DoneStays(cfg: Config, t: Turn, env: Env)
    requires t.done
    ensures Save(FetchQuotas(cfg, t, env), env) == t
  {}

  predicate Extends(s: Turn, t: Turn) {
    forall e | e in s.log :: e in t.log
  }

  lemma FinishExtends(t: Turn)
    ensures forall o :: Extends(t, Finish(t, o))
  {}

  lemma LogExtends(t: Turn)
    ensures forall e :: Extends(t, Log(t, e)) && e in Log(t, e).log
  {}

  lemma BypassExtends(cfg: Config, t: Turn, env: Env)
    ensures Extends(t, Bypass(cfg, t, env))
  {}

  lemma RetryExtends(t: Turn, env: Env)
    ensures Extends(t, RetryAuth(t, env))
  {}

  /** Past the check, the first thing a poll does is fetch with the token it holds. */
  lemma FetchesFirst(cfg: Config, t: Turn, env: Env)
    requires !t.done
    ensures Fetch(t.a.token, t.a.authPaused) in Save(FetchQuotas(cfg, t, env), env).log
  {
    hide Bypass, RetryAuth, Finish;
    var u := FetchWith(t);
    LogExtends(t);
    BypassExtends(cfg, u, env);
    RetryExtends(u, env);
    FinishExtends(u);
    var q := FetchQuotas(cfg, t, env);
    assert Extends(u, q);
    FinishExtends(q);
    LogExtends(q.(usable := true));
    FinishExtends(Log(q.(usable := true), Stored));
  }

  /** So a paused agent makes no fetch at all, poll after poll, until such a token appears. */
  lemma {:induction false} PausedStaysQuiet(cfg: Config, a: Agent, envs: seq<Env>)
    requires Inv(a) && a.authPaused && !cfg.credsRefresh
    requires forall env | env in envs :: env.detected == "" || env.detected == a.lastFailedToken
    ensures Fetches(Trace(cfg, a, envs)) == 0
    ensures After(cfg, a, envs).authPaused && After(cfg, a, envs).lastFailedToken == a.lastFailedToken
    ensures Inv(After(cfg, a, envs))
  {
    hide Poll, Inv, Proceeds;
    if envs != [] {
      var before, env := envs[..|envs| - 1], envs[|envs| - 1];
      PausedStaysQuiet(cfg, a, before);
      var b := After(cfg, a, before);
      PausedResumesExactly(cfg, b, env);
      PollIsSafe(cfg, b, env);
      NoFetches(Poll(cfg, b, env).log);
      CountsAdd(Trace(cfg, a, before), Poll(cfg, b, env).log);
    }
  }

  lemma {:induction false} NoFetches(log: seq<Effect>)
    requires forall e | e in log :: !e.Fetch?
    ensures Fetches(log) == 0
  {
    if log != [] {
      NoFetches(log[..|log| - 1]);
    }
  }

  // ---------- the credential owner ----------

  /** With a fallback token, losing the owner's credentials never silences polling: the poll
      fetches, whatever state the agent was in. */
  lemma OwnerLossNeverSilences(cfg: Config, a: Agent, env: Env)
    requires Inv(a) && cfg.owner && cfg.credsRefresh && cfg.fallback && env.fallback != ""
    requires Proceeds(cfg, a, env) && !env.cancelledAtOwner
    requires env.creds.None? || env.creds.value.expired
    requires !RefreshViaOwner(cfg, ReadStatusline(cfg, Gate(Start(a), env), env), env).1
    ensures exists token | token in {env.fallback, env.detected} :: Fetch(token, false) in Poll(cfg, a, env).log
  {
    hide FetchQuotas, Save, ReadStatusline, Gate, RefreshViaOwner;
    var g := ReadStatusline(cfg, Gate(Start(a), env), env);
    var c := Credentials(cfg, g, env);
    OwnerLeavesOpen(cfg, g, env);
    assert !c.done && c.a.token == env.fallback && !c.a.authPaused;
    var k := TakeToken(cfg, c, env);
    assert !k.a.authPaused && k.a.token in {env.fallback, env.detected} && k.a.token != "";
    CheckLog(k, a.authPaused);
    FetchesFirst(cfg, k, env);
    assert Fetch(k.a.token, false) in Poll(cfg, a, env).log;
  }

  lemma OwnerLeavesOpen(cfg: Config, t: Turn, env: Env)
    ensures RefreshViaOwner(cfg, t, env).0.done == t.done
  {}

  /** How often the credential owner is asked: each time starts a subprocess. */
  function Asks(log: seq<Effect>): nat {
    if log == [] then 0
    else Asks(log[..|log| - 1]) + if log[|log| - 1] == AskOwner then 1 else 0
  }

  lemma AsksSnoc(log: seq<Effect>, e: Effect)
    ensures Asks(log + [e]) == Asks(log) + if e == AskOwner then 1 else 0
  {
    assert (log + [e])[..|log|] == log;
  }

  lemma {:induction false} AsksAdd(s: seq<Effect>, t: seq<Effect>)
    ensures Asks(s + t) == Asks(s) + Asks(t)
  {
    if t == [] {
      assert s + t == s;
    } else {
      var u, e := t[..|t| - 1], t[|t| - 1];
      assert t == u + [e] && s + t == (s + u) + [e];
      AsksAdd(s, u);
      AsksSnoc(u, e);
      AsksSnoc(s + u, e);
    }
  }

  /** The owner's retry state and the number of asks are as before. */
  predicate SameOwner(t: Turn, u: Turn) {
    u.a.ownerFails == t.a.ownerFails && u.a.ownerRetryAt == t.a.ownerRetryAt && Asks(u.log) == Asks(t.log)
  }

  lemma FinishOwner(t: Turn)
    ensures forall o :: SameOwner(t, Finish(t, o))
  {
    forall o ensures SameOwner(t, Finish(t, o)) {
      AsksSnoc(t.log, Reported(if t.usable then Success else o));
    }
  }

  lemma LogOwner(t: Turn, e: Effect)
    requires e != AskOwner
    ensures SameOwner(t, Log(t, e))
  {
    AsksSnoc(t.log, e);
  }

  lemma StatuslineOwner(cfg: Config, a: Agent, env: Env)
    ensures SameOwner(Start(a), ReadStatusline(cfg, Gate(Start(a), env), env))
  {
    hide Asks, Finish;
    FinishOwner(Start(a));
    var t := Gate(Start(a), env);
    FinishOwner(t);
    var u := t.(a := t.a.(cycles := t.a.cycles + 1), usable := true);
    LogOwner(u, Stored);
    FinishOwner(Log(u, Stored));
  }

  lemma CheckReadyOwner(cfg: Config, t: Turn, env: Env, wasPaused: bool)
    ensures SameOwner(t, CheckReady(TakeToken(cfg, t, env), wasPaused))
  {
    hide Asks, Finish;
    FinishOwner(TakeToken(cfg, t, env));
  }

  lemma RefuseRefreshOwner(t: Turn, env: Env)
    requires !Answer(env.bypass).Tokens?
    ensures SameOwner(t, RefuseRefresh(t, env))
  {
    hide Asks, Finish;
    forall a: Agent ensures forall o :: SameOwner(t.(a := a), Finish(t.(a := a), o)) {
      FinishOwner(t.(a := a));
    }
  }

  lemma RetryRefreshedOwner(t: Turn, access: string, env: Env)
    ensures SameOwner(t, RetryRefreshed(t, access, env))
  {
    hide Asks, Finish;
    var u := t.(a := LimitsCleared(t.a).(token := access, lastToken := access));
    LogOwner(u, Fetch(u.a.token, u.a.authPaused));
    FinishOwner(FetchWith(u));
  }

  lemma BypassOwner(cfg: Config, t: Turn, env: Env)
    ensures SameOwner(t, Bypass(cfg, t, env))
  {
    hide Asks, Finish, RefuseRefresh, RetryRefreshed;
    FinishOwner(t);
    var u := t.(a := t.a.(limitPaused := false));
    FinishOwner(u);
    LogOwner(u, OAuth);
    if Answer(env.bypass).Tokens? {
      RetryRefreshedOwner(Log(u, OAuth), Answer(env.bypass).access, env);
    } else {
      RefuseRefreshOwner(Log(u, OAuth), env);
    }
  }

  lemma RefuseRetryOwner(t: Turn, env: Env)
    ensures SameOwner(t, RefuseRetry(t, env))
  {
    hide Asks, Finish;
    FinishOwner(t);
    var a := t.a.(authFails := t.a.authFails + 1);
    FinishOwner(t.(a := a));
    FinishOwner(t.(a := a.(authPaused := true, lastFailedToken := env.redetected)));
  }

  lemma RetryOwner(t: Turn, env: Env)
    ensures SameOwner(t, RetryAuth(t, env))
  {
    hide Asks, Finish, RefuseRetry;
    FinishOwner(t.(a := t.a.(lastToken := "")));
    var u := t.(a := t.a.(token := env.redetected, lastToken := env.redetected));
    LogOwner(u, Fetch(env.redetected, u.a.authPaused));
    RefuseRetryOwner(FetchWith(u), env);
  }

  lemma FetchOwner(cfg: Config, t: Turn, env: Env)
    ensures SameOwner(t, Save(FetchQuotas(cfg, t, env), env))
  {
    hide Asks, Finish, Bypass, RetryAuth;
    LogOwner(t, Fetch(t.a.token, t.a.authPaused));
    var u := FetchWith(t);
    BypassOwner(cfg, u, env);
    RetryOwner(u, env);
    FinishOwner(u);
    var q := FetchQuotas(cfg, t, env);
    FinishOwner(q);
    LogOwner(q.(usable := true), Stored);
    FinishOwner(Log(q.(usable := true), Stored));
  }

  /** Does the owner come back with a token? */
  predicate Helps(cfg: Config, env: Env) {
    env.ownerSucceeds && cfg.tokenRefresh && env.tokenAfterOwner != ""
  }

  /** Asked and failed: at the third failure in a row the retry window opens. */
  predicate OwnerFailed(a: Agent, b: Agent, now: nat) {
    && now >= a.ownerRetryAt
    && b.ownerFails == a.ownerFails + 1
    && b.ownerRetryAt == if b.ownerFails >= MAX_OWNER_FAILURES then now + OWNER_RETRY_INTERVAL else a.ownerRetryAt
  }

  lemma AskKeepsCount(cfg: Config, t: Turn, env: Env)
    requires !Helps(cfg, env) && !env.cancelledAtOwner
    ensures var (u, helped) := RefreshViaOwner(cfg, t, env);
            && !helped
            && (SameOwner(t, u) || (Asks(u.log) == Asks(t.log) + 1 && OwnerFailed(t.a, u.a, env.now)))
  {
    hide Asks;
    AsksSnoc(t.log, AskOwner);
  }

  lemma WithoutOwnerSame(cfg: Config, t: Turn, env: Env)
    ensures SameOwner(t, WithoutOwner(cfg, t, env))
  {
    hide Asks, Finish;
    FinishOwner(t);
    FinishOwner(t.(a := t.a.(token := "", lastToken := "", usingFallback := false,
                             lastFailedToken := if env.creds.Some? then env.creds.value.access else "")));
  }

  lemma ProactiveSame(t: Turn, env: Env)
    ensures SameOwner(t, ProactiveRefresh(t, env))
  {
    hide Asks;
    LogOwner(t, OAuth);
  }

  lemma CredentialsOwner(cfg: Config, t: Turn, env: Env)
    requires !Helps(cfg, env) && !env.cancelledAtOwner
    ensures var u := Credentials(cfg, t, env);
            SameOwner(t, u) || (Asks(u.log) == Asks(t.log) + 1 && OwnerFailed(t.a, u.a, env.now))
  {
    hide Asks, RefreshViaOwner, WithoutOwner, ProactiveRefresh, Helps;
    AskKeepsCount(cfg, t, env);
    WithoutOwnerSame(cfg, RefreshViaOwner(cfg, t, env).0, env);
    ProactiveSame(t, env);
  }

  lemma PollOwner(cfg: Config, a: Agent, env: Env)
    requires !Helps(cfg, env) && !env.cancelledAtOwner
    ensures var p := Poll(cfg, a, env);
            || (Asks(p.log) == 0 && p.a.ownerFails == a.ownerFails && p.a.ownerRetryAt == a.ownerRetryAt)
            || (Asks(p.log) == 1 && OwnerFailed(a, p.a, env.now))
  {
    hide ReadStatusline, Gate, Credentials, CheckReady, TakeToken, FetchQuotas, Save;
    StatuslineOwner(cfg, a, env);
    var g := ReadStatusline(cfg, Gate(Start(a), env), env);
    CredentialsOwner(cfg, g, env);
    var c := Credentials(cfg, g, env);
    CheckReadyOwner(cfg, c, env, a.authPaused);
    FetchOwner(cfg, CheckReady(TakeToken(cfg, c, env), a.authPaused), env);
  }

  /** How often a useless owner may still be asked before `end`. */
  function Allowance(a: Agent, end: nat): nat {
    if a.ownerRetryAt >= end then 0
    else if a.ownerFails >= MAX_OWNER_FAILURES then 1
    else MAX_OWNER_FAILURES - a.ownerFails
  }

  /** No subprocess storm: while the owner keeps failing, any half hour of polls asks it at
      most three times, and at most once after three failures in a row, however often it polls. */
  lemma {:induction false} OwnerIsSpaced(cfg: Config, a: Agent, envs: seq<Env>, from: nat)
    requires forall env | env in envs :: from <= env.now < from + OWNER_RETRY_INTERVAL
    requires forall env | env in envs :: !Helps(cfg, env) && !env.cancelledAtOwner
    ensures Asks(Trace(cfg, a, envs)) + Allowance(After(cfg, a, envs), from + OWNER_RETRY_INTERVAL)
            <= Allowance(a, from + OWNER_RETRY_INTERVAL)
    ensures Asks(Trace(cfg, a, envs)) <= if a.ownerFails >= MAX_OWNER_FAILURES then 1 else MAX_OWNER_FAILURES
  {
    hide Poll, Helps;
    if envs != [] {
      var before, env := envs[..|envs| - 1], envs[|envs| - 1];
      OwnerIsSpaced(cfg, a, before, from);
      var b := After(cfg, a, before);
      PollOwner(cfg, b, env);
      AsksAdd(Trace(cfg, a, before), Poll(cfg, b, env).log);
    }
  }

  // ---------- rate limits of the OAuth endpoint ----------

  /** In its rate-limit window the agent never calls the OAuth endpoint, unless its token source
      offered another token first. */
  lemma BackoffIsRespected(cfg: Config, a: Agent, env: Env)
    requires a.limitPaused && env.now < a.limitResumeAt
    requires cfg.owner || !cfg.tokenRefresh || env.detected == "" || (env.detected == a.lastToken && !a.usingFallback)
    ensures OAuth !in Poll(cfg, a, env).log
  {
    hide Bypass, RetryAuth, Finish;
    var g := ReadStatusline(cfg, Gate(Start(a), env), env);
    StatuslineLeaves(cfg, a, env);
    var p := Prepare(cfg, a, env);
    CredentialsQuiet(cfg, g, env);
    var c := Credentials(cfg, g, env);
    CheckLog(TakeToken(cfg, c, env), a.authPaused);
    if p.done {
      DoneStays(cfg, p, env);
    } else {
      BypassQuiet(cfg, FetchWith(p), env);
      RetryQuiet(FetchWith(p), env);
      FinishQuiet(FetchWith(p));
      var q := FetchQuotas(cfg, p, env);
      FinishQuiet(q);
      FinishQuiet(Log(q.(usable := true), Stored));
    }
  }

  predicate Quiet(t: Turn) {
    OAuth !in t.log
  }

  lemma FinishQuiet(t: Turn)
    ensures forall o :: Quiet(Finish(t, o)) <==> Quiet(t)
  {}

  lemma CredentialsQuiet(cfg: Config, t: Turn, env: Env)
    requires Quiet(t) && t.a.limitPaused && env.now < t.a.limitResumeAt
    ensures var u := Credentials(cfg, t, env);
            && Quiet(u) && u.a.limitPaused && u.a.limitResumeAt == t.a.limitResumeAt
            && (!cfg.owner ==> u == t)
  {}

  /** With an owner, or in the window, a refused fetch is not followed by a refresh. */
  lemma BypassQuiet(cfg: Config, t: Turn, env: Env)
    requires Quiet(t) && (cfg.owner || (t.a.limitPaused && env.now < t.a.limitResumeAt))
    ensures Quiet(Bypass(cfg, t, env))
  {
    FinishQuiet(t);
  }

  lemma RetryQuiet(t: Turn, env: Env)
    requires Quiet(t)
    ensures Quiet(RetryAuth(t, env))
  {}

  /** The window of the OAuth endpoint is as before. */
  predicate SameWindow(a: Agent, b: Agent) {
    b.limitPaused == a.limitPaused && b.limitResumeAt == a.limitResumeAt && b.limitFails == a.limitFails
  }

  lemma FinishAgent(t: Turn)
    ensures forall o :: Finish(t, o).a == t.a
  {}

  lemma BypassInWindow(cfg: Config, t: Turn, env: Env)
    requires t.a.limitPaused && env.now < t.a.limitResumeAt
    ensures Bypass(cfg, t, env).a == t.a
  {}

  lemma RefuseInWindow(t: Turn, env: Env)
    ensures var b := RefuseRetry(t, env).a;
            SameWindow(t.a, b) && b.usingFallback == t.a.usingFallback && b.lastToken == t.a.lastToken
  {}

  lemma RetryInWindow(t: Turn, env: Env)
    ensures var b := RetryAuth(t, env).a;
            SameWindow(t.a, b) && b.usingFallback == t.a.usingFallback && b.lastToken == env.redetected
  {
    hide RefuseRetry, Finish;
    FinishAgent(t.(a := t.a.(lastToken := "")));
    RefuseInWindow(FetchWith(t.(a := t.a.(token := env.redetected, lastToken := env.redetected))), env);
  }

  lemma CredentialsInWindow(cfg: Config, t: Turn, env: Env)
    requires t.a.limitPaused && env.now < t.a.limitResumeAt
    ensures SameWindow(t.a, Credentials(cfg, t, env).a)
    ensures !cfg.owner ==> Credentials(cfg, t, env) == t
  {}

  /** A poll that gets to its fetch, is refused, and so reads the token again. */
  predicate Rereads(cfg: Config, a: Agent, env: Env) {
    !Prepare(cfg, a, env).done && env.fetch == Unauthorized && !env.cancelledAtFetch && cfg.tokenRefresh
  }

  /** The token source offers nothing, or the token that the agent last took. */
  predicate OffersOld(cfg: Config, a: Agent, offer: string) {
    !cfg.tokenRefresh || offer == "" || (offer == a.lastToken && !a.usingFallback && !cfg.owner)
  }

  lemma FetchInWindow(cfg: Config, t: Turn, env: Env)
    requires !t.done && t.a.limitPaused && env.now < t.a.limitResumeAt
    ensures var b := Save(FetchQuotas(cfg, t, env), env).a;
            && SameWindow(t.a, b) && b.usingFallback == t.a.usingFallback
            && b.lastToken == if env.fetch == Unauthorized && !env.cancelledAtFetch && cfg.tokenRefresh
                              then env.redetected else t.a.lastToken
  {
    hide Bypass, RetryAuth, Finish;
    var u := FetchWith(t);
    BypassInWindow(cfg, u, env);
    RetryInWindow(u, env);
    FinishAgent(u);
    var q := FetchQuotas(cfg, t, env);
    FinishAgent(q);
    FinishAgent(Log(q.(usable := true), Stored));
  }

  /** A poll that is offered no other token leaves an open window as it is, and changes the last
      token only by reading it again. */
  lemma WindowStays(cfg: Config, a: Agent, env: Env)
    requires a.limitPaused && env.now < a.limitResumeAt && OffersOld(cfg, a, env.detected)
    ensures var b := Poll(cfg, a, env).a;
            && SameWindow(a, b)
            && (cfg.tokenRefresh && env.detected != "" ==>
                  !b.usingFallback && b.lastToken == if Rereads(cfg, a, env) then env.redetected else a.lastToken)
  {
    hide FetchQuotas, Save, Finish;
    var g := ReadStatusline(cfg, Gate(Start(a), env), env);
    StatuslineLeaves(cfg, a, env);
    CredentialsInWindow(cfg, g, env);
    var p := Prepare(cfg, a, env);
    CheckLog(TakeToken(cfg, Credentials(cfg, g, env), env), a.authPaused);
    if p.done {
      DoneStays(cfg, p, env);
    } else {
      FetchInWindow(cfg, p, env);
    }
  }

  /** However often it polls, an agent in its window makes no OAuth call before the window ends, as
      long as its token source offers nothing, or keeps offering the token it has. */
  lemma {:induction false} NoRefreshInWindow(cfg: Config, a: Agent, envs: seq<Env>, offer: string)
    requires a.limitPaused && OffersOld(cfg, a, offer)
    requires forall env | env in envs ::
               env.now < a.limitResumeAt && (cfg.tokenRefresh ==> env.detected == offer && (offer != "" ==> env.redetected == offer))
    ensures OAuth !in Trace(cfg, a, envs) && SameWindow(a, After(cfg, a, envs))
    ensures OffersOld(cfg, After(cfg, a, envs), offer)
  {
    hide Poll, Rereads;
    if envs != [] {
      var before, env := envs[..|envs| - 1], envs[|envs| - 1];
      NoRefreshInWindow(cfg, a, before, offer);
      var b := After(cfg, a, before);
      BackoffIsRespected(cfg, b, env);
      WindowStays(cfg, b, env);
    }
  }

  /** Does the poll lift the window before it decides whether to fetch? */
  predicate Lifts(cfg: Config, a: Agent, env: Env) {
    !AtCheck(cfg, a, env).a.limitPaused
  }

  lemma LiftsExactly(cfg: Config, a: Agent, env: Env)
    requires !cfg.owner && cfg.tokenRefresh && a.limitPaused && env.now < a.limitResumeAt
    ensures Lifts(cfg, a, env) <==>
            Proceeds(cfg, a, env) && env.detected != "" && (env.detected != a.lastToken || a.usingFallback)
  {
    var g := ReadStatusline(cfg, Gate(Start(a), env), env);
    StatuslineLeaves(cfg, a, env);
    CredentialsInWindow(cfg, g, env);
    hide Credentials, ReadStatusline, Gate;
  }

  /** A token source that always offers one token, except that a re-read may find nothing: after a
      poll in the window, the next one that proceeds lifts the window, although no token changed,
      if and only if the first read the token again and found none. */
  lemma EmptyRereadLiftsExactly(cfg: Config, a: Agent, env: Env, next: Env)
    requires !cfg.owner && cfg.tokenRefresh && a.limitPaused && !a.usingFallback && a.lastToken != ""
    requires env.now < a.limitResumeAt && next.now < a.limitResumeAt
    requires env.detected == next.detected == a.lastToken && env.redetected in {"", a.lastToken}
    requires Proceeds(cfg, Poll(cfg, a, env).a, next)
    ensures Lifts(cfg, Poll(cfg, a, env).a, next) <==> (Rereads(cfg, a, env) && env.redetected == "")
  {
    hide Poll, Lifts, Rereads, Proceeds;
    WindowStays(cfg, a, env);
    LiftsExactly(cfg, Poll(cfg, a, env).a, next);
  }

  /** A throttled refresh opens a window: as long as the server asks, or else doubling with every
      failure from five minutes to six hours. */
  lemma ThrottledOpensWindow(cfg: Config, t: Turn, env: Env)
    requires !t.done && !(t.a.limitPaused && env.now < t.a.limitResumeAt)
    ensures !env.claudeRunning && Answer(env.proactive).Throttled? ==>
              Opened(t.a, ProactiveRefresh(t, env).a, env.now, Answer(env.proactive).retryAfter)
    ensures !cfg.owner && cfg.credsRefresh && !env.claudeRunningAtBypass
            && env.credsForBypass.Some? && env.credsForBypass.value.refresh != "" && Answer(env.bypass).Throttled? ==>
              Opened(t.a, Bypass(cfg, t, env).a, env.now, Answer(env.bypass).retryAfter)
  {
    Backoff.RateLimitDoubles(t.a.limitFails + 1);
    hide Backoff.RateLimitBackoff;
    FinishAgent(t);
  }

  predicate Opened(a: Agent, b: Agent, now: nat, retryAfter: int) {
    && b.limitPaused && b.limitFails == a.limitFails + 1
    && b.limitResumeAt == now + if retryAfter > 0 then retryAfter
                                else Backoff.Min(5 * 60 * Backoff.Pow2(a.limitFails), 6 * 3600)
  }
}
