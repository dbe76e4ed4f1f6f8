/** What every Anthropic poll keeps, and what holds over whole runs of polls, whatever the
    environment answers (internal/agent/anthropic_agent.go). */
module AnthropicSafety {
  import opened Options
  import opened AnthropicPoll
  import Backoff

  // ---------- one poll ----------

  /** The outcomes a log reports, in order. */
  function Outcomes(log: seq<Effect>): seq<Outcome> {
    if log == [] then []
    else
      var last := log[|log| - 1];
      Outcomes(log[..|log| - 1]) + if last.Reported? then [last.o] else []
  }

  /** How many quota fetches it makes. */
  function Fetches(log: seq<Effect>): nat {
    if log == [] then 0
    else Fetches(log[..|log| - 1]) + if log[|log| - 1].Fetch? then 1 else 0
  }

  lemma Snoc(log: seq<Effect>, e: Effect)
    ensures Outcomes(log + [e]) == Outcomes(log) + if e.Reported? then [e.o] else []
    ensures Fetches(log + [e]) == Fetches(log) + if e.Fetch? then 1 else 0
  {
    assert (log + [e])[..|log|] == log;
  }

  /** Polling is paused exactly after three authentication failures. */
  predicate Inv(a: Agent) {
    (a.authPaused <==> a.authFails >= MAX_AUTH_FAILURES) && a.authFails <= MAX_AUTH_FAILURES
  }

  /** No fetch while paused or without a token; no direct OAuth refresh beside an owner. */
  predicate Allowed(cfg: Config, e: Effect) {
    match e
    case Fetch(token, paused) => token != "" && !paused
    case OAuth => !cfg.owner
    case _ => true
  }

  predicate LogOk(cfg: Config, log: seq<Effect>, reported: bool, usable: bool, fetches: nat) {
    && (forall e | e in log :: Allowed(cfg, e))
    && Fetches(log) <= fetches
    && |Outcomes(log)| == (if reported then 1 else 0)
    && (usable ==> forall o | o in Outcomes(log) :: o == Success)
    && (Stored in log ==> usable)
  }

  /** What holds between the phases of a poll that may have made up to `fetches` fetches. */
  predicate TurnOk(cfg: Config, t: Turn, fetches: nat) {
    && Inv(t.a)
    && (t.reported ==> t.done)
    && LogOk(cfg, t.log, t.reported, t.usable, fetches)
  }

  /** Has the poll ended without telling anyone? */
  predicate Silent(t: Turn) {
    t.done && !t.reported
  }

  predicate Next(cfg: Config, t: Turn, fetches: nat) {
    TurnOk(cfg, t, fetches) && !Silent(t)
  }

  lemma LogKeeps(cfg: Config, t: Turn, e: Effect, fetches: nat)
    requires LogOk(cfg, t.log, t.reported, t.usable, fetches) && Allowed(cfg, e) && !e.Reported?
    requires e == Stored ==> t.usable
    ensures LogOk(cfg, Log(t, e).log, t.reported, t.usable, fetches + if e.Fetch? then 1 else 0)
  {
    Snoc(t.log, e);
  }

  /** A poll that ends with an outcome reports it once, as a success if a snapshot is stored. */
  lemma FinishKeeps(cfg: Config, t: Turn, o: Outcome, fetches: nat)
    requires LogOk(cfg, t.log, t.reported, t.usable, fetches) && Inv(t.a) && !t.reported
    ensures Next(cfg, Finish(t, o), fetches)
  {
    Snoc(t.log, Reported(if t.usable then Success else o));
  }

  lemma GateKeeps(cfg: Config, a: Agent, env: Env)
    requires Inv(a)
    ensures Next(cfg, Gate(Start(a), env), 0)
  {
    FinishKeeps(cfg, Start(a), Skipped, 0);
  }

  lemma StatuslineKeeps(cfg: Config, t: Turn, env: Env)
    requires Next(cfg, t, 0) && !t.usable
    ensures Next(cfg, ReadStatusline(cfg, t, env), 0)
  {
    hide LogOk;
    if !t.done && cfg.statusline && env.statusline == Fresh {
      if !env.statuslineStored {
        FinishKeeps(cfg, t, Failure("storage"), 0);
      } else {
        var u := t.(a := t.a.(cycles := t.a.cycles + 1), usable := true);
        assert LogOk(cfg, u.log, u.reported, u.usable, 0) by {
          NothingReported(cfg, t);
        }
        LogKeeps(cfg, u, Stored, 0);
        FinishKeeps(cfg, Log(u, Stored), Success, 0);
      }
    }
  }

  /** Before its outcome, a poll may start to count as usable. */
  lemma NothingReported(cfg: Config, t: Turn)
    ensures forall fetches | LogOk(cfg, t.log, false, false, fetches) :: LogOk(cfg, t.log, false, true, fetches)
  {}

  lemma OwnerKeeps(cfg: Config, t: Turn, env: Env)
    requires Next(cfg, t, 0)
    ensures Next(cfg, RefreshViaOwner(cfg, t, env).0, 0)
    ensures RefreshViaOwner(cfg, t, env).0.done == t.done
    ensures RefreshViaOwner(cfg, t, env).0.reported == t.reported
  {
    hide LogOk;
    LogKeeps(cfg, t, AskOwner, 0);
  }

  lemma ProactiveKeeps(cfg: Config, t: Turn, env: Env)
    requires Next(cfg, t, 0) && !cfg.owner
    ensures Next(cfg, ProactiveRefresh(t, env), 0)
  {
    hide LogOk;
    LogKeeps(cfg, t, OAuth, 0);
  }

  lemma CredentialsKeeps(cfg: Config, t: Turn, env: Env)
    requires Next(cfg, t, 0)
    ensures Next(cfg, Credentials(cfg, t, env), 0)
  {
    hide LogOk, ProactiveRefresh, RefreshViaOwner;
    if !t.done && cfg.credsRefresh {
      if cfg.owner && (env.creds.None? || env.creds.value.expired) {
        OwnerKeeps(cfg, t, env);
        var u := RefreshViaOwner(cfg, t, env).0;
        hide Finish, Report;
        FinishKeeps(cfg, u, Skipped, 0);
        FinishKeeps(cfg, u.(a := u.a.(token := "", lastToken := "", usingFallback := false,
                                      lastFailedToken := if env.creds.Some? then env.creds.value.access else "")),
                    Failure("credential_owner"), 0);
      } else if !cfg.owner {
        ProactiveKeeps(cfg, t, env);
      }
    }
  }

  lemma TakeTokenKeeps(cfg: Config, t: Turn, env: Env)
    requires Next(cfg, t, 0)
    ensures Next(cfg, TakeToken(cfg, t, env), 0)
  {
    hide LogOk;
  }

  /** Only a poll that was paused all along ends without a word. */
  lemma CheckReadyKeeps(cfg: Config, t: Turn, wasPaused: bool)
    requires Next(cfg, t, 0)
    ensures TurnOk(cfg, CheckReady(t, wasPaused), 0)
    ensures Silent(CheckReady(t, wasPaused)) <==> (!t.done && t.a.authPaused && wasPaused)
    ensures !CheckReady(t, wasPaused).done ==> t.a.token != "" && !t.a.authPaused && CheckReady(t, wasPaused) == t
  {
    hide LogOk;
    if !t.done {
      FinishKeeps(cfg, t, Failure("authentication"), 0);
      FinishKeeps(cfg, t, Failure("missing_credentials"), 0);
    }
  }

  lemma FetchKeeps(cfg: Config, t: Turn, fetches: nat)
    requires TurnOk(cfg, t, fetches) && !t.done && t.a.token != "" && !t.a.authPaused
    ensures Next(cfg, FetchWith(t), fetches + 1) && !FetchWith(t).done && FetchWith(t).a == t.a
  {
    hide LogOk;
    LogKeeps(cfg, t, Fetch(t.a.token, t.a.authPaused), fetches);
  }

  lemma BypassRefused(cfg: Config, t: Turn, env: Env)
    requires TurnOk(cfg, t, 1) && !t.done && !cfg.owner
    ensures forall a, o | Inv(a) :: Next(cfg, Finish(Log(t, OAuth).(a := a), o), 1)
  {
    hide LogOk;
    LogKeeps(cfg, t, OAuth, 1);
    forall a, o | Inv(a) ensures Next(cfg, Finish(Log(t, OAuth).(a := a), o), 1) {
      FinishKeeps(cfg, Log(t, OAuth).(a := a), o, 1);
    }
  }

  /** The refreshed token is tried once. */
  lemma BypassTries(cfg: Config, t: Turn, env: Env)
    requires TurnOk(cfg, t, 1) && !t.done && !cfg.owner && !t.a.authPaused && Answer(env.bypass).Tokens?
    ensures var access := Answer(env.bypass).access;
            var u := FetchWith(Log(t, OAuth).(a := LimitsCleared(t.a).(token := access, lastToken := access)));
            Next(cfg, u, 2) && !u.done && forall o :: Next(cfg, Finish(u, o), 2)
  {
    hide LogOk;
    var access := Answer(env.bypass).access;
    assert access != "";
    LogKeeps(cfg, t, OAuth, 1);
    var u := Log(t, OAuth).(a := LimitsCleared(t.a).(token := access, lastToken := access));
    FetchKeeps(cfg, u, 1);
    forall o ensures Next(cfg, Finish(FetchWith(u), o), 2) {
      FinishKeeps(cfg, FetchWith(u), o, 2);
    }
  }

  lemma MoreFetches(cfg: Config, t: Turn)
    requires Next(cfg, t, 1)
    ensures Next(cfg, t, 2)
  {}

  lemma BypassKeeps(cfg: Config, t: Turn, env: Env)
    requires TurnOk(cfg, t, 1) && !t.done && !t.a.authPaused
    ensures Next(cfg, Bypass(cfg, t, env), 2)
  {
    hide LogOk, Finish, FetchWith, Log, BackedOff;
    FinishKeeps(cfg, t, Failure("rate_limit"), 1);
    var u := t.(a := t.a.(limitPaused := false));
    FinishKeeps(cfg, u, Failure("rate_limit"), 1);
    if !cfg.owner {
      BypassRefused(cfg, u, env);
      BackedOffKeeps(u.a, env);
      if Answer(env.bypass).Tokens? {
        BypassTries(cfg, u, env);
      }
    }
    var r := Bypass(cfg, t, env);
    assert Next(cfg, r, 1) || Next(cfg, r, 2) by {
      hide Next;
      assert Inv(u.a);
      hide Inv;
      LogOnly(u);
    }
    if Next(cfg, r, 1) {
      MoreFetches(cfg, r);
    }
  }

  lemma LogOnly(t: Turn)
    ensures Log(t, OAuth).a == t.a
  {}

  lemma BackedOffKeeps(a: Agent, env: Env)
    requires Inv(a)
    ensures forall now, retryAfter :: Inv(BackedOff(a, now, retryAfter))
    ensures Inv(InvalidGrantPause(a)) && forall n :: Inv(a.(limitFails := n))
  {}

  lemma RetryAuthKeeps(cfg: Config, t: Turn, env: Env)
    requires TurnOk(cfg, t, 1) && !t.done && !t.a.authPaused
    ensures Next(cfg, RetryAuth(t, env), 2)
  {
    hide LogOk, Finish, FetchWith;
    var u := t.(a := t.a.(lastToken := ""));
    FinishKeeps(cfg, u, Failure("missing_credentials"), 1);
    if env.redetected == "" {
      MoreFetches(cfg, Finish(u, Failure("missing_credentials")));
    } else {
      var v := u.(a := u.a.(token := env.redetected, lastToken := env.redetected));
      FetchKeeps(cfg, v, 1);
      var w := FetchWith(v);
      var fails := w.a.authFails + 1;
      var a := w.a.(authFails := fails);
      var a' := if fails >= MAX_AUTH_FAILURES then a.(authPaused := true, lastFailedToken := env.redetected) else a;
      FinishKeeps(cfg, w, Skipped, 2);
      FinishKeeps(cfg, w, Failure("provider_request"), 2);
      FinishKeeps(cfg, w.(a := a'), Failure("authentication"), 2);
    }
  }

  lemma MoreAllowed(cfg: Config, t: Turn)
    requires TurnOk(cfg, t, 0)
    ensures TurnOk(cfg, t, 2)
  {}

  lemma FetchQuotasKeeps(cfg: Config, t: Turn, env: Env)
    requires TurnOk(cfg, t, 0) && (t.done || (t.a.token != "" && !t.a.authPaused))
    ensures TurnOk(cfg, FetchQuotas(cfg, t, env), 2)
    ensures Silent(FetchQuotas(cfg, t, env)) <==> Silent(t)
  {
    hide LogOk, Finish, Bypass, RetryAuth, FetchWith;
    if t.done {
      MoreAllowed(cfg, t);
    } else {
      FetchKeeps(cfg, t, 0);
      var u := FetchWith(t);
      BypassKeeps(cfg, u, env);
      RetryAuthKeeps(cfg, u, env);
      MoreFetches(cfg, u);
      FinishKeeps(cfg, u, Skipped, 2);
      FinishKeeps(cfg, u, Failure(CategoryOf(env.fetch)), 2);
    }
  }

  lemma SaveKeeps(cfg: Config, t: Turn, env: Env)
    requires TurnOk(cfg, t, 2)
    ensures TurnOk(cfg, Save(t, env), 2) && Save(t, env).done
    ensures Silent(Save(t, env)) <==> Silent(t)
  {
    hide LogOk, Report;
    if !t.done {
      FinishKeeps(cfg, t, Failure("storage"), 2);
      var u := t.(usable := true);
      assert LogOk(cfg, u.log, u.reported, u.usable, 2) by {
        if !t.usable {
          NothingReported(cfg, t);
        }
      }
      LogKeeps(cfg, u, Stored, 2);
      FinishKeeps(cfg, Log(u, Stored), Success, 2);
    }
  }

  /** Where the poll decides whether to fetch quotas. */
  function AtCheck(cfg: Config, a: Agent, env: Env): Turn {
    TakeToken(cfg, Credentials(cfg, ReadStatusline(cfg, Gate(Start(a), env), env), env), env)
  }

  predicate PausedAtCheck(cfg: Config, a: Agent, env: Env) {
    !AtCheck(cfg, a, env).done && AtCheck(cfg, a, env).a.authPaused
  }

  lemma AtCheckKeeps(cfg: Config, a: Agent, env: Env)
    requires Inv(a)
    ensures Next(cfg, AtCheck(cfg, a, env), 0)
  {
    hide Next, ReadStatusline, Credentials, TakeToken, Gate;
    GateKeeps(cfg, a, env);
    var t := Gate(Start(a), env);
    assert !t.usable by {
      GateIsUnusable(a, env);
    }
    StatuslineKeeps(cfg, t, env);
    CredentialsKeeps(cfg, ReadStatusline(cfg, t, env), env);
    TakeTokenKeeps(cfg, Credentials(cfg, ReadStatusline(cfg, t, env), env), env);
  }

  lemma GateIsUnusable(a: Agent, env: Env)
    ensures !Gate(Start(a), env).usable
  {}

  /** For every configuration, agent and answers of the environment: a poll keeps the pause
      exact, makes at most two fetches, none while paused or without a token, never refreshes
      directly beside a credential owner, and reports exactly one outcome unless it was paused
      from the start and still is when it decides; once a snapshot is stored it reports nothing
      but success. */
  lemma PollIsSafe(cfg: Config, a: Agent, env: Env)
    requires Inv(a)
    ensures Inv(Poll(cfg, a, env).a)
    ensures forall e | e in Poll(cfg, a, env).log :: Allowed(cfg, e)
    ensures Fetches(Poll(cfg, a, env).log) <= 2
    ensures |Outcomes(Poll(cfg, a, env).log)| == if a.authPaused && PausedAtCheck(cfg, a, env) then 0 else 1
    ensures Stored in Poll(cfg, a, env).log ==> forall o | o in Outcomes(Poll(cfg, a, env).log) :: o == Success
  {
    hide AtCheck, CheckReady, FetchQuotas, Save, Inv;
    AtCheckKeeps(cfg, a, env);
    var c := AtCheck(cfg, a, env);
    CheckReadyKeeps(cfg, c, a.authPaused);
    var p := CheckReady(c, a.authPaused);
    assert p == Prepare(cfg, a, env) by {
      PrepareIs(cfg, a, env);
    }
    FetchQuotasKeeps(cfg, p, env);
    SaveKeeps(cfg, FetchQuotas(cfg, p, env), env);
  }

  lemma PrepareIs(cfg: Config, a: Agent, env: Env)
    ensures Prepare(cfg, a, env) == CheckReady(AtCheck(cfg, a, env), a.authPaused)
  {
    hide CheckReady, TakeToken, Credentials, ReadStatusline, Gate;
  }
}
