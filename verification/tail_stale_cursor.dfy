/** A cursor that outlives its deleted file, because clearing it failed
    (internal/agent/api_integrations_ingest_agent.go): exactly when the file re-created under the
    same name is still delivered in full, and what is lost otherwise. */
module TailStaleCursor {
  import opened Options
  import opened Lines
  import opened UsageEvents
  import opened TailIngester
  import opened TailExactlyOnce

  /** The file is gone, all its lines are committed, and the cursor still points to its end. */
  ghost predicate Stale(w: World, n: nat) {
    && n > 0 && w.file.None? && w.cursor == Some(Cursor(n, [], n))
    && (forall g :: g in w.removed ==> Tail(g) == [])
    && w.committed == LinesOf(w.removed)
  }

  lemma DeletingScan(cfg: Config, w: World, a: Answers)
    requires w.file.Some? && a.clearFails && Scan(cfg, w, a).file.None?
    ensures var v := Scan(cfg, w, a);
      && Scan(cfg, w, a.(clearFails := false)) == v.(cursor := None)
      && v.removed != []
      && var n := |v.removed[|v.removed| - 1]|; n > 0 && v.cursor == Some(Cursor(n, [], n))
  {
    hide InsertLines, Resume, Load, SplitCompleteLines, IsQueueFile;
    var c := ReadChunk(cfg, w.cursor, |w.file.value|, w.file.value + a.beforeRead);
    assert |c.data| > 0;
  }

  /** A scan that deletes its file and fails to clear the cursor leaves it so. */
  lemma FailedClearLeavesStale(cfg: Config, w: World, a: Answers)
    requires Exact(w) && w.file.Some? && a.clearFails && Fits(Scan(cfg, w, a)) && Scan(cfg, w, a).file.None?
    ensures var v := Scan(cfg, w, a);
      v.removed != [] && Stale(v, |v.removed[|v.removed| - 1]|)
  {
    hide Tail, Complete, LinesOf, Scan, Exact;
    DeletingScan(cfg, w, a);
    ScanKeepsExact(cfg, w, a.(clearFails := false));
    CommittedWithoutFile(Scan(cfg, w, a.(clearFails := false)));
  }

  lemma CommittedWithoutFile(w: World)
    requires Exact(w) && w.file.None?
    ensures (forall g :: g in w.removed ==> Tail(g) == []) && w.committed == LinesOf(w.removed)
  {
    hide Tail, Complete;
    NoFileNoLines();
    assert LinesOf(w.removed) + [] == LinesOf(w.removed);
  }

  // ---------- what a run adds to the committed lines ----------

  /** Does the scan save a cursor? */
  predicate Saves(cfg: Config, w: World, s: Step) {
    s.ScanStep? && w.file.Some? && !s.answers.failsEarly && !s.answers.saveFails &&
    var c := ReadChunk(cfg, w.cursor, |w.file.value|, w.file.value + s.answers.beforeRead);
    c.data == [] || InsertLines(cfg, s.answers.failingInsert, w.stored, c.lines).ok
  }

  function CommittedBy(cfg: Config, w: World, s: Step): seq<Bytes> {
    if !Saves(cfg, w, s) then []
    else
      var c := ReadChunk(cfg, w.cursor, |w.file.value|, w.file.value + s.answers.beforeRead);
      if c.data == [] then [] else c.lines
  }

  lemma StepCommits(cfg: Config, w: World, s: Step, committed: seq<Bytes>)
    ensures Apply(cfg, w.(committed := committed), s) ==
            Apply(cfg, w, s).(committed := committed + CommittedBy(cfg, w, s))
  {
    hide InsertLines, ReadChunk, IsQueueFile;
    assert committed + [] == committed;
  }

  function CommittedIn(cfg: Config, w: World, steps: seq<Step>): seq<Bytes> {
    if steps == [] then []
    else
      var front := steps[..|steps| - 1];
      CommittedIn(cfg, w, front) + CommittedBy(cfg, Run(cfg, w, front), steps[|steps| - 1])
  }

  /** A run does the same whatever was committed before it, and adds to that. */
  lemma {:induction false} RunCommits(cfg: Config, w: World, steps: seq<Step>, committed: seq<Bytes>)
    ensures Run(cfg, w.(committed := committed), steps) ==
            Run(cfg, w, steps).(committed := committed + CommittedIn(cfg, w, steps))
  {
    hide Apply, CommittedBy;
    if steps == [] {
      assert committed + [] == committed;
    } else {
      var front, last := steps[..|steps| - 1], steps[|steps| - 1];
      RunCommits(cfg, w, front, committed);
      StepCommits(cfg, Run(cfg, w, front), last, committed + CommittedIn(cfg, w, front));
      assert (committed + CommittedIn(cfg, w, front)) + CommittedBy(cfg, Run(cfg, w, front), last) ==
             committed + (CommittedIn(cfg, w, front) + CommittedBy(cfg, Run(cfg, w, front), last));
    }
  }

  lemma {:induction false} RunConcat(cfg: Config, w: World, x: seq<Step>, y: seq<Step>)
    ensures Run(cfg, w, x + y) == Run(cfg, Run(cfg, w, x), y)
  {
    hide Apply;
    if y == [] {
      assert x + y == x;
    } else {
      RunConcat(cfg, w, x, y[..|y| - 1]);
      assert (x + y)[..|x + y| - 1] == x + y[..|y| - 1];
    }
  }

  // ---------- until a cursor is saved ----------

  /** No scan of the run saves a cursor. */
  predicate NoneSaves(cfg: Config, w: World, steps: seq<Step>) {
    steps != [] ==>
      var front := steps[..|steps| - 1];
      NoneSaves(cfg, w, front) && !Saves(cfg, Run(cfg, w, front), steps[|steps| - 1])
  }

  lemma UnsavedStep(cfg: Config, w: World, s: Step)
    requires !Saves(cfg, w, s)
    ensures var v := Apply(cfg, w, s);
      v.cursor == w.cursor && v.removed == w.removed && v.committed == w.committed
  {
    hide InsertLines, ReadChunk, IsQueueFile;
  }

  lemma {:induction false} UnsavedRun(cfg: Config, w: World, steps: seq<Step>)
    requires NoneSaves(cfg, w, steps)
    ensures var v := Run(cfg, w, steps);
      v.cursor == w.cursor && v.removed == w.removed && v.committed == w.committed
  {
    hide Apply, Saves;
    if steps != [] {
      var front := steps[..|steps| - 1];
      UnsavedRun(cfg, w, front);
      UnsavedStep(cfg, Run(cfg, w, front), steps[|steps| - 1]);
    }
  }

  // ---------- the first scan that saves one ----------

  /** The old offset lies in the new file, just after a newline. */
  predicate Believed(content: Bytes, n: nat)
    requires n > 0
  {
    n <= |content| && content[n - 1] == NL
  }

  /** Otherwise the scan does what it does without any cursor. */
  lemma DisbelievedScan(cfg: Config, u: World, n: nat, a: Answers)
    requires n > 0 && u.cursor == Some(Cursor(n, [], n)) && Saves(cfg, u, ScanStep(a))
    requires !Believed(u.file.value, n)
    ensures Scan(cfg, u, a) == Scan(cfg, u.(cursor := None), a)
  {
    hide InsertLines, SplitCompleteLines, IsQueueFile;
    var read := u.file.value + a.beforeRead;
    assert n <= |u.file.value| ==> read[n - 1] == u.file.value[n - 1];
  }

  lemma DisbelievedIsExact(u: World, n: nat)
    requires n > 0 && u.cursor == Some(Cursor(n, [], n)) && u.committed == LinesOf(u.removed)
    requires forall g :: g in u.removed ==> Tail(g) == []
    ensures Exact(u.(cursor := None))
  {
    hide Tail, Complete;
    NoFileNoLines();
    assert LinesOf(u.removed) + [] == LinesOf(u.removed);
  }

  /** If it is believed, the scan goes on as if the lines before the offset were committed. */
  lemma BelievedIsExact(u: World, n: nat)
    requires n > 0 && u.cursor == Some(Cursor(n, [], n)) && u.committed == LinesOf(u.removed)
    requires forall g :: g in u.removed ==> Tail(g) == []
    requires u.file.Some? && Believed(u.file.value, n)
    ensures Exact(u.(committed := u.committed + Complete(u.file.value[..n])))
    ensures Complete(u.file.value[..n]) != []
  {
    BoundaryTail(u.file.value, n);
    assert u.file.value[..n][|u.file.value[..n]| - 1] == NL;
    hide LinesOf, Tail;
  }

  /** After clearing the cursor failed, for every re-created content, every chunk size and every
      further run: if at the first scan that saves a cursor the old offset is not just after a
      newline of the new file, delivery is exact; if it is, the complete lines before it are
      lost, and nothing else. So once all is consumed, all lines are delivered if and only if
      the offset was not believed. */
  lemma StaleCursorExactly(cfg: Config, w: World, n: nat, before: seq<Step>, a: Answers, after: seq<Step>)
    requires Stale(w, n) && NoneSaves(cfg, w, before) && Saves(cfg, Run(cfg, w, before), ScanStep(a))
    requires ClearsSucceed([ScanStep(a)] + after) && Fits(Run(cfg, w, before + [ScanStep(a)] + after))
    ensures var u, v := Run(cfg, w, before), Run(cfg, w, before + [ScanStep(a)] + after);
      && (!Believed(u.file.value, n) ==> Exact(v))
      && (Believed(u.file.value, n) ==>
            var lost := Complete(u.file.value[..n]);
            lost != [] && exists delivered ::
              && v.committed == LinesOf(w.removed) + delivered
              && LinesOf(v.removed) + Complete(Consumed(v)) == LinesOf(w.removed) + lost + delivered)
      && (Consumed(v) == Content(v) ==> (v.committed == AllLines(v) <==> !Believed(u.file.value, n)))
  {
    hide Tail, Complete, LinesOf, Apply, Saves, Exact, Fits;
    var u, steps := Run(cfg, w, before), [ScanStep(a)] + after;
    var v := Run(cfg, w, before + [ScanStep(a)] + after);
    UnsavedRun(cfg, w, before);
    SavesItsFile(cfg, u, ScanStep(a));
    assert before + [ScanStep(a)] + after == before + steps;
    RunConcat(cfg, w, before, steps);
    if Believed(u.file.value, n) {
      BelievedRun(cfg, u, n, steps);
    } else {
      DisbelievedRun(cfg, u, n, a, after);
      if Consumed(v) == Content(v) {
        ConsumedAll(v);
      }
    }
  }

  lemma SavesItsFile(cfg: Config, w: World, s: Step)
    requires Saves(cfg, w, s)
    ensures w.file.Some?
  {
  }

  lemma ConsumedAll(v: World)
    requires Exact(v) && Consumed(v) == Content(v)
    ensures v.committed == AllLines(v)
  {
  }

  lemma DisbelievedRun(cfg: Config, u: World, n: nat, a: Answers, after: seq<Step>)
    requires n > 0 && u.cursor == Some(Cursor(n, [], n)) && u.committed == LinesOf(u.removed)
    requires forall g :: g in u.removed ==> Tail(g) == []
    requires Saves(cfg, u, ScanStep(a)) && !Believed(u.file.value, n)
    requires ClearsSucceed([ScanStep(a)] + after) && Fits(Run(cfg, u, [ScanStep(a)] + after))
    ensures Exact(Run(cfg, u, [ScanStep(a)] + after))
  {
    hide Tail, Complete, LinesOf, Saves, Exact, Fits, Scan;
    var restarted := u.(cursor := None);
    DisbelievedIsExact(u, n);
    DisbelievedScan(cfg, u, n, a);
    RunConcat(cfg, u, [ScanStep(a)], after);
    RunConcat(cfg, restarted, [ScanStep(a)], after);
    assert [ScanStep(a)][..0] == [];
    RunKeepsExact(cfg, restarted, [ScanStep(a)] + after);
  }

  lemma BelievedRun(cfg: Config, u: World, n: nat, steps: seq<Step>)
    requires n > 0 && u.cursor == Some(Cursor(n, [], n)) && u.committed == LinesOf(u.removed)
    requires forall g :: g in u.removed ==> Tail(g) == []
    requires u.file.Some? && Believed(u.file.value, n)
    requires ClearsSucceed(steps) && Fits(Run(cfg, u, steps))
    ensures var v, lost, delivered := Run(cfg, u, steps), Complete(u.file.value[..n]), CommittedIn(cfg, u, steps);
      && lost != [] && v.committed == u.committed + delivered
      && LinesOf(v.removed) + Complete(Consumed(v)) == u.committed + lost + delivered
      && (Consumed(v) == Content(v) ==> v.committed != AllLines(v))
  {
    hide Tail, Complete, LinesOf, Exact, Fits, Apply, CommittedIn;
    BelievedIsExact(u, n);
    var lost := Complete(u.file.value[..n]);
    var whole := u.(committed := u.committed + lost);
    RunCommits(cfg, u, steps, u.committed + lost);
    RunCommits(cfg, u, steps, u.committed);
    var v := Run(cfg, u, steps);
    assert u.(committed := u.committed) == u;
    SameFiles(v, Run(cfg, whole, steps));
    RunKeepsExact(cfg, whole, steps);
    ExactLines(Run(cfg, whole, steps));
    assert |v.committed| < |u.committed + lost + CommittedIn(cfg, u, steps)|;
  }

  lemma SameFiles(v: World, v': World)
    requires v'.file == v.file && v'.removed == v.removed && v'.cursor == v.cursor && Fits(v)
    ensures Fits(v') && Consumed(v') == Consumed(v) && AllLines(v') == AllLines(v)
  {
  }

  lemma ExactLines(v: World)
    requires Exact(v)
    ensures v.committed == LinesOf(v.removed) + Complete(Consumed(v))
  {
  }

  // ---------- a line that is lost ----------

  const EMPTY := World(None, None, [], [], [], [])

  const GOOD := Answers(false, [], [], None, false, false, false)

  lemma OneLineScan(cfg: Config, line: Bytes, a: Answers)
    requires IsQueueFile(cfg.name) && cfg.limit > |line| && NL !in line && a == GOOD.(clearFails := true)
    ensures var data := line + [NL];
      var v := Scan(cfg, World(Some(data), None, [], [], [], []), a);
      && v.file == None && v.cursor == Some(Cursor(|data|, [], |data|)) && v.removed == [data] && v.committed == [line]
  {
    hide Tail, Complete, IsQueueFile;
    var data := line + [NL];
    assert data + [] == data && data[0..|data|] == data && [] + data == data;
    NoFileNoLines();
    AddLine([], line);
    assert [] + line + [NL] == data;
    var c := ReadChunk(cfg, None, |data|, data);
    assert c.lines == [line] && c.data == data && c.next == Cursor(|data|, [], |data|);
    NoInsertFails(cfg, [], [line]);
    hide InsertLines, ReadChunk;
    assert [] + [line] == [line] && [] + [data] == [data];
  }

  /** Deleting a consumed file of one line, with the cursor left behind. */
  lemma OneLineConsumed(cfg: Config, line: Bytes)
    requires IsQueueFile(cfg.name) && cfg.limit > |line| && NL !in line
    ensures var v := Run(cfg, EMPTY, [Append(line + [NL]), ScanStep(GOOD.(clearFails := true))]);
      Stale(v, |line| + 1) && v.committed == [line]
  {
    hide Tail, Complete, IsQueueFile, Scan;
    var data, append, scan := line + [NL], Append(line + [NL]), ScanStep(GOOD.(clearFails := true));
    assert [append, scan][..1] == [append] && [append][..0] == [];
    assert [] + data == data;
    assert Run(cfg, EMPTY, [append]) == World(Some(data), None, [], [], [], []);
    assert Run(cfg, EMPTY, [append, scan]) == Scan(cfg, World(Some(data), None, [], [], [], []), GOOD.(clearFails := true));
    OneLineScan(cfg, line, GOOD.(clearFails := true));
    NoFileNoLines();
    AddLine([], line);
    assert [] + line + [NL] == data;
    FlatSnoc([], data);
    assert [] + [data] == [data] && LinesOf([]) == [] && [] + [line] == [line];
    assert forall g :: g in [data] ==> g == data;
  }

  /** A file of one line is consumed and deleted, and clearing its cursor fails. */
  function ConsumeSteps(line: Bytes): seq<Step> {
    [Append(line + [NL]), ScanStep(GOOD.(clearFails := true))]
  }

  function CreateSteps(line: Bytes): seq<Step> {
    [Append(line + [NL])]
  }

  lemma BelievedLine(cfg: Config, w: World, first: Bytes, second: Bytes, after: seq<Step>)
    requires Stale(w, |first| + 1) && w.committed == [first] && |first| == |second| && NL !in second
    requires ClearsSucceed(after) && Fits(Run(cfg, w, CreateSteps(second) + [ScanStep(GOOD)] + after))
    ensures var v := Run(cfg, w, CreateSteps(second) + [ScanStep(GOOD)] + after);
      exists delivered ::
        && v.committed == [first] + delivered
        && LinesOf(v.removed) + Complete(Consumed(v)) == [first] + [second] + delivered
        && (Consumed(v) == Content(v) ==> v.committed != AllLines(v))
  {
    hide Tail, Complete, LinesOf, Stale, Fits, Run, Scan, Consumed, AllLines, CreateSteps, Believed;
    SecondScan(cfg, w, first, second);
    StaleCursorExactly(cfg, w, |first| + 1, CreateSteps(second), GOOD, after);
    StaleCommitted(w, |first| + 1);
    var u := Run(cfg, w, CreateSteps(second));
    assert u.file.value[..|first| + 1] == second + [NL];
  }

  /** A run from the start that loses a line: the file is created again with another line of the
      same length. The next scan believes the cursor, and however the run goes on, that line is
      never committed. */
  lemma LineIsLost(cfg: Config, first: Bytes, second: Bytes, after: seq<Step>)
    requires IsQueueFile(cfg.name) && cfg.limit > |first| && |first| == |second| && NL !in first && NL !in second
    requires ClearsSucceed(after)
    requires Fits(Run(cfg, EMPTY, ConsumeSteps(first) + (CreateSteps(second) + [ScanStep(GOOD)] + after)))
    ensures var v := Run(cfg, EMPTY, ConsumeSteps(first) + (CreateSteps(second) + [ScanStep(GOOD)] + after));
      exists delivered ::
        && v.committed == [first] + delivered
        && LinesOf(v.removed) + Complete(Consumed(v)) == [first] + [second] + delivered
        && (Consumed(v) == Content(v) ==> v.committed != AllLines(v))
  {
    hide Tail, Complete, LinesOf, IsQueueFile, Stale, Fits, Run, Scan, Consumed, AllLines, CreateSteps;
    OneLineConsumed(cfg, first);
    RunConcat(cfg, EMPTY, ConsumeSteps(first), CreateSteps(second) + [ScanStep(GOOD)] + after);
    BelievedLine(cfg, Run(cfg, EMPTY, ConsumeSteps(first)), first, second, after);
  }

  lemma StaleCommitted(w: World, n: nat)
    requires Stale(w, n)
    ensures w.committed == LinesOf(w.removed)
  {
  }

  lemma SecondScan(cfg: Config, w: World, first: Bytes, second: Bytes)
    requires Stale(w, |first| + 1) && |first| == |second| && NL !in second
    ensures var u := Run(cfg, w, CreateSteps(second));
      && NoneSaves(cfg, w, CreateSteps(second)) && u.file == Some(second + [NL])
      && Saves(cfg, u, ScanStep(GOOD)) && Believed(u.file.value, |first| + 1)
    ensures Complete(second + [NL]) == [second]
  {
    hide Tail, Complete, LinesOf;
    var append, data := Append(second + [NL]), second + [NL];
    assert [append][..0] == [] && [] + data == data && data + [] == data;
    NoFileNoLines();
    AddLine([], second);
    assert [] + second + [NL] == data;
    assert ReadChunk(cfg, w.cursor, |data|, data).data == [];
  }
}
