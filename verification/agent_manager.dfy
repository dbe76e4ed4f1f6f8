/** The agent manager as a transition system (internal/agent/manager.go): one step for each
    critical section under the manager's lock and for each action outside it. */
module AgentManager {
  /** A launched run: its goroutine is in the runner, has come back from it, has passed its
      epilogue under the lock, or has closed its done channel. */
  datatype Phase = Live | Returned | Detached | Closed

  datatype RunInfo = RunInfo(key: string, cancelled: bool, phase: Phase)

  /** An operation between two of its steps. A Start has passed its first check or has a
      runner; a Stop or StopAll holds the runs it took out of the table, has cancelled the
      first `cancelled` of them and has waited for the first `waited`. */
  datatype Op =
    | Starting(key: string)
    | Built(key: string)
    | Stopping(taken: seq<nat>, cancelled: nat, waited: nat)

  datatype Manager = Manager(
    factories: set<string>, running: map<string, nat>, runs: seq<RunInfo>, ops: map<nat, Op>)

  datatype Step =
    | RegisterFactory(key: string)
    | StartCheck(op: nat, key: string)
    | Build(op: nat, ok: bool)
    | Register(op: nat)
    | RunnerReturns(run: nat)
    | Epilogue(run: nat)
    | CloseDone(run: nat)
    | StopTake(op: nat, key: string)
    | StopAllTake(op: nat, order: seq<nat>)
    | CancelNext(op: nat)
    | WaitNext(op: nat)
    | StopReturns(op: nat)

  const IDLE := Manager({}, map[], [], map[])

  ghost predicate Distinct(s: seq<nat>) {
    forall i, j :: 0 <= i < j < |s| ==> s[i] != s[j]
  }

  ghost predicate InStop(m: Manager, op: nat) {
    op in m.ops && m.ops[op].Stopping? && forall i :: 0 <= i < |m.ops[op].taken| ==> m.ops[op].taken[i] < |m.runs|
  }

  /** The operation and the goroutine are at the point of the step; waiting needs a closed
      channel. */
  ghost predicate Enabled(m: Manager, s: Step) {
    match s
    case RegisterFactory(_) => true
    case StartCheck(op, _) => op !in m.ops
    case Build(op, _) => op in m.ops && m.ops[op].Starting?
    case Register(op) => op in m.ops && m.ops[op].Built?
    case RunnerReturns(r) => r < |m.runs| && m.runs[r].phase == Live
    case Epilogue(r) => r < |m.runs| && m.runs[r].phase == Returned
    case CloseDone(r) => r < |m.runs| && m.runs[r].phase == Detached
    case StopTake(op, _) => op !in m.ops
    case StopAllTake(op, order) => op !in m.ops && Distinct(order) && (set r | r in order) == m.running.Values
    case CancelNext(op) => InStop(m, op) && m.ops[op].cancelled < |m.ops[op].taken|
    case WaitNext(op) =>
      InStop(m, op) && m.ops[op].cancelled == |m.ops[op].taken| && m.ops[op].waited < |m.ops[op].taken| &&
      m.runs[m.ops[op].taken[m.ops[op].waited]].phase == Closed
    case StopReturns(op) => InStop(m, op) && m.ops[op].cancelled == |m.ops[op].taken| == m.ops[op].waited
  }

  function Apply(m: Manager, s: Step): Manager
    requires Enabled(m, s)
  {
    match s
    case RegisterFactory(key) => m.(factories := m.factories + {key})
    case StartCheck(op, key) =>
      if key in m.running || key !in m.factories then m else m.(ops := m.ops[op := Starting(key)])
    case Build(op, ok) => if ok then m.(ops := m.ops[op := Built(m.ops[op].key)]) else m.(ops := m.ops - {op})
    case Register(op) =>
      var key := m.ops[op].key;
      if key in m.running then m.(ops := m.ops - {op})
      else
        m.(ops := m.ops - {op}, running := m.running[key := |m.runs|], runs := m.runs + [RunInfo(key, false, Live)])
    case RunnerReturns(r) => m.(runs := m.runs[r := m.runs[r].(phase := Returned)])
    case Epilogue(r) =>
      var key := m.runs[r].key;
      m.(runs := m.runs[r := m.runs[r].(phase := Detached)],
         running := if key in m.running && m.running[key] == r then m.running - {key} else m.running)
    case CloseDone(r) => m.(runs := m.runs[r := m.runs[r].(phase := Closed)])
    case StopTake(op, key) =>
      if key !in m.running then m
      else m.(ops := m.ops[op := Stopping([m.running[key]], 0, 0)], running := m.running - {key})
    case StopAllTake(op, order) => m.(ops := m.ops[op := Stopping(order, 0, 0)], running := map[])
    case CancelNext(op) =>
      var o := m.ops[op];
      var r := o.taken[o.cancelled];
      m.(ops := m.ops[op := o.(cancelled := o.cancelled + 1)], runs := m.runs[r := m.runs[r].(cancelled := true)])
    case WaitNext(op) => m.(ops := m.ops[op := m.ops[op].(waited := m.ops[op].waited + 1)])
    case StopReturns(op) => m.(ops := m.ops - {op})
  }

  // ---------- the invariant ----------

  predicate Unfinished(r: RunInfo) {
    r.phase == Live || r.phase == Returned
  }

  predicate Registered(m: Manager, r: nat)
    requires r < |m.runs|
  {
    m.runs[r].key in m.running && m.running[m.runs[r].key] == r
  }

  ghost predicate HeldBy(m: Manager, op: nat, r: nat) {
    op in m.ops && m.ops[op].Stopping? && r in m.ops[op].taken
  }

  /** The table points at unfinished runs of its own keys. */
  ghost predicate TableOk(m: Manager) {
    forall k :: k in m.running ==>
      m.running[k] < |m.runs| && m.runs[m.running[k]].key == k && Unfinished(m.runs[m.running[k]])
  }

  /** No run gets lost: an unfinished one is in the table or held by a Stop in flight. */
  ghost predicate NoneLost(m: Manager) {
    forall r :: 0 <= r < |m.runs| && Unfinished(m.runs[r]) ==> Registered(m, r) || exists op :: HeldBy(m, op, r)
  }

  /** A Stop holds each of its runs once, alone, and out of the table. */
  ghost predicate HeldApart(m: Manager) {
    && (forall op, r: nat :: HeldBy(m, op, r) ==> r < |m.runs| && !Registered(m, r))
    && (forall op, op', r: nat :: HeldBy(m, op, r) && HeldBy(m, op', r) ==> op == op')
  }

  ghost predicate StopOk(m: Manager, o: Op)
    requires o.Stopping?
  {
    && Distinct(o.taken) && o.cancelled <= |o.taken| && o.waited <= |o.taken|
    && (o.waited > 0 ==> o.cancelled == |o.taken|)
    && (forall i :: 0 <= i < o.cancelled ==> o.taken[i] < |m.runs| && m.runs[o.taken[i]].cancelled)
    && (forall i :: 0 <= i < o.waited ==> o.taken[i] < |m.runs| && m.runs[o.taken[i]].phase == Closed)
  }

  ghost predicate StopsOk(m: Manager) {
    forall op :: op in m.ops && m.ops[op].Stopping? ==> StopOk(m, m.ops[op])
  }

  ghost predicate Inv(m: Manager) {
    TableOk(m) && NoneLost(m) && HeldApart(m) && StopsOk(m)
  }

  lemma StepKeepsTable(m: Manager, s: Step)
    requires Inv(m) && Enabled(m, s)
    ensures TableOk(Apply(m, s))
  {
  }

  lemma StepLosesNone(m: Manager, s: Step)
    requires Inv(m) && Enabled(m, s)
    ensures NoneLost(Apply(m, s))
  {
    var m' := Apply(m, s);
    forall r | 0 <= r < |m'.runs| && Unfinished(m'.runs[r])
      ensures Registered(m', r) || exists op :: HeldBy(m', op, r)
    {
      if r < |m.runs| {
        assert Unfinished(m.runs[r]);
        if !Registered(m, r) {
          var op :| HeldBy(m, op, r);
          assert s.StopReturns? && s.op == op ==> false by {
            if s.StopReturns? && s.op == op {
              AllWaited(m, op, r);
            }
          }
          assert HeldBy(m', op, r);
        } else if s.StopTake? && s.key == m.runs[r].key {
          assert HeldBy(m', s.op, r);
        } else if s.StopAllTake? {
          assert r in m.running.Values;
          assert HeldBy(m', s.op, r);
        }
      }
    }
  }

  lemma AllWaited(m: Manager, op: nat, r: nat)
    requires StopsOk(m) && HeldBy(m, op, r) && m.ops[op].waited == |m.ops[op].taken|
    ensures r < |m.runs| && m.runs[r].phase == Closed
  {
    assert StopOk(m, m.ops[op]);
  }

  lemma StepKeepsApart(m: Manager, s: Step)
    requires Inv(m) && Enabled(m, s)
    ensures HeldApart(Apply(m, s))
  {
    var m' := Apply(m, s);
    forall op, r: nat | HeldBy(m', op, r)
      ensures r < |m'.runs| && !Registered(m', r)
      ensures HeldBy(m, op, r) || (r in m.running.Values && op !in m.ops && (s == StopTake(op, m.runs[r].key) || s.StopAllTake?))
    {
      if !HeldBy(m, op, r) {
        if s.StopAllTake? {
          assert r in (set x | x in s.order);
        }
        assert r in m.running.Values;
        var k :| k in m.running && m.running[k] == r;
      }
    }
    forall op, op', r: nat | HeldBy(m', op, r) && HeldBy(m', op', r)
      ensures op == op'
    {
    }
  }

  /** Runs are only added, cancelled and moved towards their end. */
  ghost predicate RunsAdvance(m: Manager, m': Manager) {
    && |m.runs| <= |m'.runs|
    && forall r :: 0 <= r < |m.runs| ==>
      (m.runs[r].cancelled ==> m'.runs[r].cancelled) && (m.runs[r].phase == Closed ==> m'.runs[r].phase == Closed)
  }

  lemma StepAdvancesRuns(m: Manager, s: Step)
    requires Enabled(m, s)
    ensures RunsAdvance(m, Apply(m, s))
  {
  }

  lemma StopStaysOk(m: Manager, m': Manager, o: Op)
    requires o.Stopping? && StopOk(m, o) && RunsAdvance(m, m')
    ensures StopOk(m', o)
  {
  }

  lemma StepKeepsStops(m: Manager, s: Step)
    requires Inv(m) && Enabled(m, s)
    ensures StopsOk(Apply(m, s))
  {
    var m' := Apply(m, s);
    StepAdvancesRuns(m, s);
    hide TableOk, NoneLost, HeldApart, RunsAdvance;
    forall op | op in m'.ops && m'.ops[op].Stopping?
      ensures StopOk(m', m'.ops[op])
    {
      if op in m.ops && m.ops[op].Stopping? {
        StopStaysOk(m, m', m.ops[op]);
      }
    }
  }

  /** Every step of every operation and goroutine keeps the invariant. */
  lemma StepKeepsInv(m: Manager, s: Step)
    requires Inv(m) && Enabled(m, s)
    ensures Inv(Apply(m, s))
  {
    StepKeepsTable(m, s);
    StepLosesNone(m, s);
    StepKeepsApart(m, s);
    StepKeepsStops(m, s);
  }

  // ---------- runs of the manager ----------

  ghost predicate Possible(m: Manager, steps: seq<Step>)
    decreases |steps|
  {
    steps != [] ==> Enabled(m, steps[0]) && Possible(Apply(m, steps[0]), steps[1..])
  }

  ghost function After(m: Manager, steps: seq<Step>): Manager
    requires Possible(m, steps)
    decreases |steps|
  {
    if steps == [] then m else After(Apply(m, steps[0]), steps[1..])
  }

  lemma {:induction false} RunsKeepInv(m: Manager, steps: seq<Step>)
    requires Inv(m) && Possible(m, steps)
    ensures Inv(After(m, steps))
    decreases |steps|
  {
    hide Inv, Apply, Enabled;
    if steps != [] {
      StepKeepsInv(m, steps[0]);
      RunsKeepInv(Apply(m, steps[0]), steps[1..]);
    }
  }

  ghost predicate Untaken(m: Manager, r: nat) {
    r < |m.runs| && Unfinished(m.runs[r]) && forall op :: !HeldBy(m, op, r)
  }

  /** Whatever the interleaving, an unfinished run is registered under its own key or held by
      exactly one Stop in flight, so concurrent Starts of one key leave one run that no Stop
      has taken. */
  lemma OneRunPerKey(steps: seq<Step>)
    requires Possible(IDLE, steps)
    ensures var m := After(IDLE, steps);
      && (forall r :: 0 <= r < |m.runs| && Unfinished(m.runs[r]) ==>
            Registered(m, r) != exists op :: HeldBy(m, op, r))
      && (forall r: nat, r': nat :: Untaken(m, r) && Untaken(m, r') && m.runs[r].key == m.runs[r'].key ==> r == r')
  {
    hide Apply, Enabled;
    RunsKeepInv(IDLE, steps);
    var m := After(IDLE, steps);
    forall r: nat | Untaken(m, r)
      ensures Registered(m, r)
    {
    }
  }

  /** A finishing goroutine takes nothing but its own entry out of the table. */
  lemma EpilogueRemovesOwnOnly(m: Manager, r: nat)
    requires Inv(m) && Enabled(m, Epilogue(r))
    ensures var m' := Apply(m, Epilogue(r));
      && (forall k :: k in m'.running <==> k in m.running && m.running[k] != r)
      && (forall k :: k in m'.running ==> m'.running[k] == m.running[k])
  {
    if m.runs[r].key in m.running {
      assert TableOk(m);
    }
    forall k | k in m.running && m.running[k] == r
      ensures k == m.runs[r].key
    {
      assert TableOk(m);
    }
  }

  /** When a Stop or StopAll returns, every run it took has been cancelled and has finished. */
  lemma StopReturnsFinished(m: Manager, op: nat)
    requires Inv(m) && Enabled(m, StopReturns(op))
    ensures forall r :: r in m.ops[op].taken ==> m.runs[r].phase == Closed && m.runs[r].cancelled
  {
    assert StopOk(m, m.ops[op]);
  }

  /** Right after StopAll has emptied the table, every unfinished run is in somebody's hands. */
  lemma StopAllTakesEverything(m: Manager, op: nat, order: seq<nat>)
    requires Inv(m) && Enabled(m, StopAllTake(op, order))
    ensures var m' := Apply(m, StopAllTake(op, order));
      m'.running == map[] &&
      forall r :: 0 <= r < |m'.runs| && Unfinished(m'.runs[r]) ==> exists op :: HeldBy(m', op, r)
  {
    StepLosesNone(m, StopAllTake(op, order));
  }

  // ---------- a Stop can always return ----------

  function StepsLeft(p: Phase): nat {
    match p case Live => 3 case Returned => 2 case Detached => 1 case Closed => 0
  }

  /** A schedule in which runners return only once cancelled. */
  ghost predicate OnlyCancelledReturn(m: Manager, steps: seq<Step>)
    requires Possible(m, steps)
    decreases |steps|
  {
    steps != [] ==>
      (steps[0].RunnerReturns? ==> m.runs[steps[0].run].cancelled) &&
      OnlyCancelledReturn(Apply(m, steps[0]), steps[1..])
  }

  /** The next step of a Stop in flight, or of the run it is waiting for. */
  ghost function NextFor(m: Manager, op: nat): Step
    requires Inv(m) && InStop(m, op)
  {
    var o := m.ops[op];
    if o.cancelled < |o.taken| then CancelNext(op)
    else
      assert StopOk(m, o);
      if o.waited == |o.taken| then StopReturns(op)
      else
        match m.runs[o.taken[o.waited]].phase
        case Live => RunnerReturns(o.taken[o.waited])
        case Returned => Epilogue(o.taken[o.waited])
        case Detached => CloseDone(o.taken[o.waited])
        case Closed => WaitNext(op)
  }

  ghost function Distance(m: Manager, op: nat): (nat, nat, nat)
    requires Inv(m) && InStop(m, op)
  {
    var o := m.ops[op];
    assert StopOk(m, o);
    (|o.taken| - o.cancelled, |o.taken| - o.waited,
     if o.waited < |o.taken| then StepsLeft(m.runs[o.taken[o.waited]].phase) else 0)
  }

  predicate Closer(d: (nat, nat, nat), e: (nat, nat, nat)) {
    d.0 < e.0 || (d.0 == e.0 && (d.1 < e.1 || (d.1 == e.1 && d.2 < e.2)))
  }

  lemma NextForAdvances(m: Manager, op: nat)
    requires Inv(m) && InStop(m, op)
    ensures var s := NextFor(m, op);
      && Enabled(m, s)
      && (s.RunnerReturns? ==> s.run < |m.runs| && m.runs[s.run].cancelled)
      && (var m' := Apply(m, s);
          Inv(m') && (s.StopReturns? ==> op !in m'.ops) &&
          (!s.StopReturns? ==> InStop(m', op) && Closer(Distance(m', op), Distance(m, op))))
  {
    assert StopOk(m, m.ops[op]);
    StepKeepsInv(m, NextFor(m, op));
  }

  /** No Stop is ever stuck: from every state there is a schedule, in which runners return
      only when cancelled, that lets it return. */
  lemma {:induction false} StopCanReturn(m: Manager, op: nat) returns (steps: seq<Step>)
    requires Inv(m) && InStop(m, op)
    ensures Possible(m, steps) && OnlyCancelledReturn(m, steps)
    ensures op !in After(m, steps).ops
    decreases Distance(m, op).0, Distance(m, op).1, Distance(m, op).2
  {
    hide Inv, Apply, Enabled, InStop, NextFor, Distance;
    var s := NextFor(m, op);
    NextForAdvances(m, op);
    var rest := [];
    if !s.StopReturns? {
      rest := StopCanReturn(Apply(m, s), op);
    }
    steps := [s] + rest;
    assert steps[1..] == rest;
  }
}
