/** Incremental parsing of a growing rollout file refines one pass over it. */
module CodexIncremental {
  import opened Options
  import opened Lines
  import opened UsageEvents
  import opened CodexParser

  // ---------- what a file contains ----------

  datatype Reading = Reading(ctx: Context, events: seq<UsageEvent>)

  /** Every event of the lines, repeats included, and the context after them. */
  function ReadAll(src: Rollout, ctx: Context, lines: seq<Bytes>): Reading {
    if lines == [] then Reading(ctx, [])
    else
      NextReading(src, ReadAll(src, ctx, lines[..|lines| - 1]), lines[|lines| - 1])
  }

  function NextReading(src: Rollout, before: Reading, line: Bytes): Reading {
    match src.decode(DropCR(line))
    case Rec(r) =>
      var c := NextContext(before.ctx, r);
      Reading(c, before.events + match EventOf(src, c, r) case None => [] case Some(e) => [e])
    case _ => before
  }

  ghost predicate Readable(src: Rollout, lines: seq<Bytes>) {
    forall l :: l in lines ==> |l| < MAX_RECORD && !src.decode(DropCR(l)).Malformed?
  }

  /** The parser accepts this content: every finished line decodes and no line is too long. */
  ghost predicate Acceptable(src: Rollout, content: Bytes) {
    Readable(src, Complete(content)) && |Tail(content)| < MAX_RECORD
  }

  function AllEvents(src: Rollout, content: Bytes): seq<UsageEvent> {
    ReadAll(src, NO_CONTEXT, Complete(content)).events
  }

  function RepeatKeys(events: seq<UsageEvent>): set<RepeatKey> {
    set e | e in events :: KeyOf(e)
  }

  /** The first event of every repeat key, in order. */
  function Dedup(events: seq<UsageEvent>): seq<UsageEvent> {
    if events == [] then []
    else
      var front, last := events[..|events| - 1], events[|events| - 1];
      Dedup(front) + if KeyOf(last) in RepeatKeys(front) then [] else [last]
  }

  /** The state that describes exactly the given content. */
  function Summary(src: Rollout, file: File): State {
    State(|file.content|, ReadAll(src, NO_CONTEXT, Complete(file.content)).ctx, Tail(file.content), Some(file.id),
          if |file.content| > 0 then Checkpoint(file.content, |file.content|) else None)
  }

  // ---------- dropping repeats ----------

  lemma DedupSnoc(events: seq<UsageEvent>, e: UsageEvent)
    ensures Dedup(events + [e]) == Dedup(events) + if KeyOf(e) in RepeatKeys(events) then [] else [e]
  {
    assert (events + [e])[..|events|] == events;
  }

  lemma KeysConcat(a: seq<UsageEvent>, b: seq<UsageEvent>)
    ensures RepeatKeys(a + b) == RepeatKeys(a) + RepeatKeys(b)
  {
    assert forall e :: e in a + b <==> e in a || e in b;
  }

  lemma {:induction false} DedupKeys(events: seq<UsageEvent>)
    ensures RepeatKeys(Dedup(events)) == RepeatKeys(events)
    ensures forall e :: e in Dedup(events) ==> e in events
  {
    if events != [] {
      var front, last := events[..|events| - 1], events[|events| - 1];
      DedupKeys(front);
      assert events == front + [last];
      KeysConcat(front, [last]);
      KeysConcat(Dedup(front), [last]);
      assert Dedup(front) + [] == Dedup(front);
    }
  }

  /** Dropping repeats piece by piece and then overall is dropping them overall. */
  lemma {:induction false} DedupConcat(a: seq<UsageEvent>, b: seq<UsageEvent>)
    ensures Dedup(Dedup(a) + Dedup(b)) == Dedup(a + b)
    decreases |a| + |b|, |b|
  {
    hide Dedup, RepeatKeys;
    if b != [] {
      var front, last := b[..|b| - 1], b[|b| - 1];
      DedupConcat(a, front);
      assert b == front + [last] && a + b == a + front + [last];
      DedupSnoc(front, last);
      DedupSnoc(a + front, last);
      DedupSnoc(Dedup(a) + Dedup(front), last);
      KeysConcat(a, front);
      KeysConcat(Dedup(a), Dedup(front));
      DedupKeys(a);
      DedupKeys(front);
      if KeyOf(last) in RepeatKeys(front) {
        assert Dedup(a) + Dedup(b) == Dedup(a) + Dedup(front);
      } else {
        assert Dedup(a) + Dedup(b) == Dedup(a) + Dedup(front) + [last];
      }
    } else {
      DedupNothing();
      assert a + b == a && Dedup(a) + Dedup(b) == Dedup(a);
      if a != [] {
        var front, last := a[..|a| - 1], a[|a| - 1];
        DedupConcat(front, []);
        assert front + [] == front && Dedup(front) + Dedup([]) == Dedup(front);
        assert a == front + [last];
        DedupSnoc(front, last);
        DedupSnoc(Dedup(front), last);
        DedupKeys(front);
        assert Dedup(front) + [] == Dedup(front);
      }
    }
  }

  lemma DedupNothing()
    ensures Dedup([]) == []
  {
  }

  // ---------- one pass ----------

  lemma {:induction false} ReadAllAppend(src: Rollout, ctx: Context, a: seq<Bytes>, b: seq<Bytes>)
    ensures ReadAll(src, ctx, a + b) ==
            var r := ReadAll(src, ctx, a);
            var s := ReadAll(src, r.ctx, b);
            Reading(s.ctx, r.events + s.events)
  {
    if b == [] {
      assert a + b == a;
    } else {
      ReadAllAppend(src, ctx, a, b[..|b| - 1]);
      assert (a + b)[..|a + b| - 1] == a + b[..|b| - 1];
    }
  }

  /** The fold fails exactly on unreadable lines, and otherwise yields the repeat-free events. */
  lemma {:induction false} FoldReads(src: Rollout, ctx: Context, lines: seq<Bytes>)
    ensures FoldLines(src, Acc(ctx, {}, []), lines).Ok? <==> Readable(src, lines)
    ensures Readable(src, lines) ==>
      var r := ReadAll(src, ctx, lines);
      FoldLines(src, Acc(ctx, {}, []), lines) == Ok(Acc(r.ctx, RepeatKeys(r.events), Dedup(r.events)))
  {
    hide Dedup, RepeatKeys, StepLine, Readable;
    if lines == [] {
      Nothing(src);
    } else {
      var front, last := lines[..|lines| - 1], lines[|lines| - 1];
      FoldReads(src, ctx, front);
      assert lines == front + [last];
      ReadableSnoc(src, front, last);
      if Readable(src, front) {
        StepReads(src, ReadAll(src, ctx, front), last);
      }
    }
  }

  lemma ReadableSnoc(src: Rollout, lines: seq<Bytes>, last: Bytes)
    ensures Readable(src, lines + [last]) <==>
      Readable(src, lines) && |last| < MAX_RECORD && !src.decode(DropCR(last)).Malformed?
  {
    assert forall l :: l in lines + [last] <==> l in lines || l == last;
  }

  lemma StepReads(src: Rollout, before: Reading, last: Bytes)
    ensures var step := StepLine(src, Acc(before.ctx, RepeatKeys(before.events), Dedup(before.events)), last);
      && (step.Ok? <==> |last| < MAX_RECORD && !src.decode(DropCR(last)).Malformed?)
      && (step.Ok? ==>
            var r := NextReading(src, before, last);
            step == Ok(Acc(r.ctx, RepeatKeys(r.events), Dedup(r.events))))
  {
    hide Dedup, RepeatKeys;
    var decoded := src.decode(DropCR(last));
    if decoded.Rec? {
      var e := EventOf(src, NextContext(before.ctx, decoded.rec), decoded.rec);
      if e.Some? {
        DedupSnoc(before.events, e.value);
        KeysConcat(before.events, [e.value]);
        OneKey(e.value);
        if KeyOf(e.value) in RepeatKeys(before.events) {
          assert RepeatKeys(before.events) + {KeyOf(e.value)} == RepeatKeys(before.events);
          assert Dedup(before.events) + [] == Dedup(before.events);
        }
      } else {
        assert before.events + [] == before.events;
      }
    }
  }

  lemma Nothing(src: Rollout)
    ensures RepeatKeys([]) == {} && Dedup([]) == [] && Readable(src, [])
  {
  }

  lemma OneKey(e: UsageEvent)
    ensures RepeatKeys([e]) == {KeyOf(e)}
  {
  }

  // ---------- records ----------

  function Records(src: Rollout, lines: seq<Bytes>): seq<Record> {
    if lines == [] then []
    else
      Records(src, lines[..|lines| - 1]) +
      match src.decode(DropCR(lines[|lines| - 1])) case Rec(r) => [r] case _ => []
  }

  function ReadRecords(src: Rollout, ctx: Context, records: seq<Record>): Reading {
    if records == [] then Reading(ctx, [])
    else
      var before := ReadRecords(src, ctx, records[..|records| - 1]);
      var r := records[|records| - 1];
      var c := NextContext(before.ctx, r);
      Reading(c, before.events + match EventOf(src, c, r) case None => [] case Some(e) => [e])
  }

  lemma {:induction false} ReadsRecords(src: Rollout, ctx: Context, lines: seq<Bytes>)
    ensures ReadAll(src, ctx, lines) == ReadRecords(src, ctx, Records(src, lines))
  {
    hide NextContext, EventOf, DropCR;
    if lines != [] {
      var front := lines[..|lines| - 1];
      ReadsRecords(src, ctx, front);
      var decoded := src.decode(DropCR(lines[|lines| - 1]));
      if decoded.Rec? {
        assert (Records(src, front) + [decoded.rec])[..|Records(src, front)|] == Records(src, front);
      } else {
        assert Records(src, front) + [] == Records(src, front);
      }
    }
  }

  // ---------- resuming ----------

  /** Resuming from the state that describes `before` reads exactly what was added since:
      it fails exactly when one pass would, and ends in the state that describes the file. */
  lemma ResumeReadsRest(src: Rollout, file: File, before: Bytes)
    requires before <= file.content && Acceptable(src, before)
    ensures Parse(src, file, Summary(src, File(file.id, before)), false).Ok? <==> Acceptable(src, file.content)
    ensures Acceptable(src, file.content) ==>
      exists added ::
        && AllEvents(src, file.content) == AllEvents(src, before) + added
        && Parse(src, file, Summary(src, File(file.id, before)), false) ==
             Ok((Dedup(added), Summary(src, file)))
  {
    hide Dedup, RepeatKeys, Tail, Complete, FoldLines, ReadAll;
    var rest := file.content[|before|..];
    assert file.content == before + rest;
    AppendLines(before, rest);
    var ctx := ReadAll(src, NO_CONTEXT, Complete(before)).ctx;
    var lines := Complete(Tail(before) + rest);
    ReadAllAppend(src, NO_CONTEXT, Complete(before), lines);
    FoldReads(src, ctx, lines);
    SameCheckpoint(before, file.content);
    var added := ReadAll(src, ctx, lines).events;
    assert AllEvents(src, file.content) == AllEvents(src, before) + added;
  }

  lemma SameCheckpoint(before: Bytes, after: Bytes)
    requires before <= after
    ensures Checkpoint(before, |before|) == Checkpoint(after, |before|)
  {
    var start := if |before| < CHECKPOINT_SIZE then 0 else |before| - CHECKPOINT_SIZE;
    assert before[start..|before|] == after[start..|before|];
  }

  /** The first read of a file. */
  lemma OnePass(src: Rollout, file: File)
    ensures Parse(src, file, INITIAL, false).Ok? <==> Acceptable(src, file.content)
    ensures Acceptable(src, file.content) ==>
      Parse(src, file, INITIAL, false) == Ok((Dedup(AllEvents(src, file.content)), Summary(src, file)))
  {
    hide Dedup, RepeatKeys, Tail, Complete, FoldLines, ReadAll;
    assert [] + file.content[0..] == file.content;
    FoldReads(src, NO_CONTEXT, Complete(file.content));
  }

  // ---------- any sequence of read points ----------

  /** The contents a growing file had at successive reads. */
  ghost predicate Growing(contents: seq<Bytes>) {
    forall i, j :: 0 <= i <= j < |contents| ==> contents[i] <= contents[j]
  }

  /** The collector's use of the parser: a failed read keeps the old state. */
  function RunReads(src: Rollout, id: int, contents: seq<Bytes>): (seq<UsageEvent>, State) {
    if contents == [] then ([], INITIAL)
    else
      var (events, state) := RunReads(src, id, contents[..|contents| - 1]);
      match Parse(src, File(id, contents[|contents| - 1]), state, false)
      case Err(_) => (events, state)
      case Ok((more, next)) => (events + more, next)
  }

  /** The last content that one pass would accept. */
  ghost function LastGood(src: Rollout, contents: seq<Bytes>): Option<Bytes> {
    if contents == [] then None
    else if Acceptable(src, contents[|contents| - 1]) then Some(contents[|contents| - 1])
    else LastGood(src, contents[..|contents| - 1])
  }

  lemma {:induction false} LastGoodIsRead(src: Rollout, contents: seq<Bytes>)
    requires LastGood(src, contents).Some?
    ensures LastGood(src, contents).value in contents && Acceptable(src, LastGood(src, contents).value)
  {
    if !Acceptable(src, contents[|contents| - 1]) {
      LastGoodIsRead(src, contents[..|contents| - 1]);
    }
  }

  /** For every growing file and every schedule of reads, failed ones included: the saved
      state describes the last content that one pass accepts, and the collected events,
      repeats dropped, are those of that one pass. */
  lemma {:induction false} IncrementalRefinesOnePass(src: Rollout, id: int, contents: seq<Bytes>)
    requires Growing(contents)
    ensures var (events, state) := RunReads(src, id, contents);
      match LastGood(src, contents)
      case None => events == [] && state == INITIAL
      case Some(c) =>
        && Parse(src, File(id, c), INITIAL, false) == Ok((Dedup(events), state))
        && state == Summary(src, File(id, c))
        && (forall e :: e in events ==> e in AllEvents(src, c))
  {
    hide Dedup, Summary, Acceptable, AllEvents, Parse;
    if contents != [] {
      var front, now := contents[..|contents| - 1], contents[|contents| - 1];
      IncrementalRefinesOnePass(src, id, front);
      OnePass(src, File(id, now));
      var (events, state) := RunReads(src, id, front);
      if LastGood(src, front).Some? {
        var c := LastGood(src, front).value;
        LastGoodIsRead(src, front);
        assert c <= now;
        OnePass(src, File(id, c));
        ResumeReadsRest(src, File(id, now), c);
        if Acceptable(src, now) {
          var added :| AllEvents(src, now) == AllEvents(src, c) + added
            && Parse(src, File(id, now), Summary(src, File(id, c)), false) ==
                 Ok((Dedup(added), Summary(src, File(id, now))));
          DedupConcat(AllEvents(src, c), added);
          DedupConcat(events, added);
          DedupOnce(added);
          DedupConcat(events, Dedup(added));
          DedupKeys(added);
        }
      } else if Acceptable(src, now) {
        DedupOnce(AllEvents(src, now));
        DedupKeys(AllEvents(src, now));
        assert [] + Dedup(AllEvents(src, now)) == Dedup(AllEvents(src, now));
      }
    }
  }

  lemma DedupOnce(a: seq<UsageEvent>)
    ensures Dedup(Dedup(a)) == Dedup(a)
  {
    DedupConcat(a, []);
    assert a + [] == a && Dedup(a) + Dedup([]) == Dedup(a);
  }

  /** A file read to its last newline gives the same events to the whole-file parser, which
      also parses an unfinished final record. */
  lemma FinishedFile(src: Rollout, file: File)
    requires Tail(file.content) == []
    ensures match Parse(src, file, INITIAL, false)
      case Err(e) => Parse(src, file, INITIAL, true) == Err(e)
      case Ok((events, _)) =>
        Parse(src, file, INITIAL, true).Ok? && Parse(src, file, INITIAL, true).value.0 == events
  {
    hide Tail, Complete, FoldLines;
    assert [] + file.content[0..] == file.content;
  }

  // ---------- replaced and rewritten files ----------

  /** Do two contents agree in the bytes that the checkpoint at an offset covers? */
  ghost predicate AgreeAtCheckpoint(before: Bytes, after: Bytes) {
    |before| <= |after| && forall k :: 0 <= k < |before| && |before| - k <= CHECKPOINT_SIZE ==> after[k] == before[k]
  }

  /** A saved state is kept exactly for the same file, not shorter than the offset, that agrees in
      the last 4096 bytes before it; so of a file that was read up to 4096 bytes, exactly for an
      extension of what was read. Otherwise parsing starts over. */
  lemma RestartsExactly(src: Rollout, file: File, id: int, before: Bytes, final: bool)
    requires before != []
    ensures !MustReset(file, Summary(src, File(id, before))) <==> file.id == id && AgreeAtCheckpoint(before, file.content)
    ensures |before| <= CHECKPOINT_SIZE ==>
      (!MustReset(file, Summary(src, File(id, before))) <==> file.id == id && before <= file.content)
    ensures MustReset(file, Summary(src, File(id, before))) ==>
      Parse(src, file, Summary(src, File(id, before)), final) == Parse(src, file, INITIAL, final)
  {
    hide Resume, ReadAll, Tail, Complete;
    if |before| <= |file.content| {
      SameWindow(before, file.content);
      assert before <= file.content <==> before == file.content[..|before|];
    }
  }

  lemma SameWindow(before: Bytes, after: Bytes)
    requires |before| <= |after|
    ensures Checkpoint(after, |before|) == Checkpoint(before, |before|) <==> AgreeAtCheckpoint(before, after)
  {
    var lo := if |before| < CHECKPOINT_SIZE then 0 else |before| - CHECKPOINT_SIZE;
    var x, y := before[lo..|before|], after[lo..|before|];
    if x == y {
      forall k | 0 <= k < |before| && |before| - k <= CHECKPOINT_SIZE
        ensures after[k] == before[k]
      {
        assert x[k - lo] == y[k - lo];
      }
    }
  }

  lemma SameLaterWindow(before: Bytes, after: Bytes)
    requires AgreeAtCheckpoint(before, after)
    ensures var kept := before + after[|before|..];
      |kept| == |after| && Checkpoint(kept, |kept|) == Checkpoint(after, |after|) && Checkpoint(kept, |before|) == Checkpoint(before, |before|)
  {
    var kept := before + after[|before|..];
    SameWindow(kept, after);
    SameWindow(before, kept);
  }

  /** Bytes rewritten in place before the checkpoint window go unseen: however the file grows, the
      parser goes on as if it had grown from the old bytes. */
  lemma EarlierRewriteUnseen(src: Rollout, id: int, before: Bytes, after: Bytes)
    requires before != [] && AgreeAtCheckpoint(before, after)
    ensures Parse(src, File(id, after), Summary(src, File(id, before)), false) ==
            Parse(src, File(id, before + after[|before|..]), Summary(src, File(id, before)), false)
  {
    hide ReadAll, Tail, Complete, FoldInput, Checkpoint;
    SameWindow(before, after);
    SameLaterWindow(before, after);
    var kept := before + after[|before|..];
    assert kept[|before|..] == after[|before|..];
  }

  /** `n` empty lines. */
  function EmptyLines(n: nat): Bytes {
    seq(n, _ => NL)
  }

  lemma {:induction false} EmptyLinesSayNothing(src: Rollout, s: Bytes, n: nat)
    requires Tail(s) == [] && src.decode([]) == Blank
    ensures Tail(s + EmptyLines(n)) == []
    ensures ReadAll(src, NO_CONTEXT, Complete(s + EmptyLines(n))) == ReadAll(src, NO_CONTEXT, Complete(s))
    ensures Acceptable(src, s) ==> Acceptable(src, s + EmptyLines(n))
  {
    hide Tail, Complete, Readable;
    if n == 0 {
      assert s + EmptyLines(0) == s;
    } else {
      EmptyLinesSayNothing(src, s, n - 1);
      var shorter := s + EmptyLines(n - 1);
      assert s + EmptyLines(n) == shorter + [NL];
      Snoc(shorter, NL);
      assert (Complete(shorter) + [[]])[..|Complete(shorter)|] == Complete(shorter);
      ReadableSnoc(src, Complete(shorter), []);
    }
  }

  lemma FirstLineReads(src: Rollout, line: Bytes)
    requires NL !in line && |line| < MAX_RECORD && !src.decode(DropCR(line)).Malformed?
    ensures Tail(line + [NL]) == [] && Complete(line + [NL]) == [line] && Acceptable(src, line + [NL])
    ensures ReadAll(src, NO_CONTEXT, [line]) == NextReading(src, Reading(NO_CONTEXT, []), line)
  {
    hide Tail, Complete, NextReading;
    NewlineFree([]);
    AddLine([], line);
    assert [] + line + [NL] == line + [NL] && [line][..0] == [];
  }

  /** A record that sets the model. */
  function ModelRecord(model: string): Record {
    Record("turn_context", "", model, "", "", None, "", None, None, None, [], "", 0, "")
  }

  function Headed(line: Bytes, n: nat): Bytes {
    line + [NL] + EmptyLines(n)
  }

  lemma HeadedModel(src: Rollout, id: int, line: Bytes, model: string, n: nat)
    requires NL !in line && |line| < MAX_RECORD && src.decode([]) == Blank && model != ""
    requires src.decode(DropCR(line)) == Rec(ModelRecord(model))
    ensures Acceptable(src, Headed(line, n)) && Summary(src, File(id, Headed(line, n))).ctx.model == model
  {
    FirstLineReads(src, line);
    assert NextReading(src, Reading(NO_CONTEXT, []), line).ctx.model == model;
    hide Tail, Complete, Acceptable, ReadAll, Checkpoint, NextReading;
    EmptyLinesSayNothing(src, line + [NL], n);
  }

  lemma HeadRewritten(one: Bytes, two: Bytes, n: nat, more: nat)
    requires |one| == |two| && n >= CHECKPOINT_SIZE
    ensures var before, after := Headed(one, n), Headed(two, n + more);
      before != [] && AgreeAtCheckpoint(before, after) && before + after[|before|..] == Headed(one, n + more)
  {
    var before, after := Headed(one, n), Headed(two, n + more);
    assert forall k :: |one| + 1 <= k < |before| ==> before[k] == NL && after[k] == NL;
    assert before + after[|before|..] == Headed(one, n + more);
  }

  /** Such a rewrite shows: a first line that names one model is replaced by one of the same length
      that names another, over 4096 bytes before the offset, and the file grows. The parser keeps
      the old model; reading the file anew gives the new one. */
  lemma RewriteShows(src: Rollout, id: int, one: Bytes, two: Bytes, oldModel: string, newModel: string, n: nat, more: nat)
    requires |one| == |two| < MAX_RECORD && NL !in one && NL !in two && src.decode([]) == Blank && n >= CHECKPOINT_SIZE
    requires oldModel != "" && newModel != "" && oldModel != newModel
    requires src.decode(DropCR(one)) == Rec(ModelRecord(oldModel)) && src.decode(DropCR(two)) == Rec(ModelRecord(newModel))
    ensures var before, after := Headed(one, n), Headed(two, n + more);
      var kept := Parse(src, File(id, after), Summary(src, File(id, before)), false);
      var anew := Parse(src, File(id, after), INITIAL, false);
      kept.Ok? && kept.value.1.ctx.model == oldModel && anew.Ok? && anew.value.1.ctx.model == newModel
  {
    hide Parse, Acceptable, Summary, Headed, AgreeAtCheckpoint, ModelRecord;
    var before, after, grown := Headed(one, n), Headed(two, n + more), Headed(one, n + more);
    HeadedModel(src, id, one, oldModel, n);
    HeadedModel(src, id, one, oldModel, n + more);
    HeadedModel(src, id, two, newModel, n + more);
    HeadRewritten(one, two, n, more);
    EarlierRewriteUnseen(src, id, before, after);
    assert before <= grown;
    ResumeReadsRest(src, File(id, grown), before);
    OnePass(src, File(id, after));
  }
}
