/** Which keys a rollout file contributes: replayed histories add none, and the read
    schedule matters only for records without a content signature. */
module CodexReplay {
  import opened Options
  import opened Lines
  import opened Text
  import opened UsageEvents
  import opened CodexParser
  import opened CodexIncremental
  import opened Collector

  // ---------- read schedules ----------

  /** Any schedule collects at least the keys of one pass and at most those of all events. */
  lemma ScheduleBounds(src: Rollout, id: int, contents: seq<Bytes>)
    requires contents != [] && Growing(contents) && Acceptable(src, contents[|contents| - 1])
    ensures var events := RunReads(src, id, contents).0;
      var all := AllEvents(src, contents[|contents| - 1]);
      KeysOf(Dedup(all)) <= KeysOf(events) <= KeysOf(all)
  {
    hide Dedup, RunReads, AllEvents, Parse, Acceptable, Summary;
    var c := contents[|contents| - 1];
    IncrementalRefinesOnePass(src, id, contents);
    OnePass(src, File(id, c));
    DedupKeys(RunReads(src, id, contents).0);
  }

  /** The contents of a file at the end of each of its lines. */
  function LineEnds(lines: seq<Bytes>): seq<Bytes> {
    if lines == [] then [] else LineEnds(lines[..|lines| - 1]) + [Join(lines)]
  }

  lemma {:induction false} LineEndsGrow(lines: seq<Bytes>)
    ensures Growing(LineEnds(lines))
    ensures lines != [] ==> LineEnds(lines) != [] && LineEnds(lines)[|LineEnds(lines)| - 1] == Join(lines)
    ensures forall c :: c in LineEnds(lines) ==> c <= Join(lines)
  {
    if lines != [] {
      LineEndsGrow(lines[..|lines| - 1]);
      assert Join(lines[..|lines| - 1]) <= Join(lines);
    }
  }

  lemma AddedLine(src: Rollout, lines: seq<Bytes>, last: Bytes)
    requires NL !in last && forall l :: l in lines ==> NL !in l
    requires Readable(src, lines + [last])
    ensures Acceptable(src, Join(lines)) && Acceptable(src, Join(lines + [last]))
    ensures AllEvents(src, Join(lines)) <= AllEvents(src, Join(lines + [last]))
    ensures |AllEvents(src, Join(lines + [last]))| <= |AllEvents(src, Join(lines))| + 1
  {
    hide Join, Tail, Complete;
    assert forall l :: l in lines + [last] ==> l in lines || l == last;
    LinesOfJoin(lines);
    LinesOfJoin(lines + [last]);
    ReadableSnoc(src, lines, last);
    assert (lines + [last])[..|lines|] == lines;
  }

  lemma AtMostOne(events: seq<UsageEvent>)
    requires |events| <= 1
    ensures Dedup(events) == events
  {
    if |events| == 1 {
      assert events == [] + [events[0]];
      DedupSnoc([], events[0]);
      DedupNothing();
      assert RepeatKeys([]) == {};
    }
  }

  /** Reading after every line keeps every event: no repeat is in the same read. */
  lemma {:induction false} LineByLine(src: Rollout, id: int, lines: seq<Bytes>)
    requires lines != [] && Readable(src, lines) && forall l :: l in lines ==> NL !in l
    ensures RunReads(src, id, LineEnds(lines)) ==
            (AllEvents(src, Join(lines)), Summary(src, File(id, Join(lines))))
  {
    hide Dedup, AllEvents, Parse, Summary, Join, Acceptable;
    var front, last := lines[..|lines| - 1], lines[|lines| - 1];
    assert lines == front + [last];
    var ends := LineEnds(lines);
    assert ends[..|ends| - 1] == LineEnds(front) && ends[|ends| - 1] == Join(lines);
    if front == [] {
      FirstLineRead(src, id, last);
      assert [] + AllEvents(src, Join(lines)) == AllEvents(src, Join(lines));
    } else {
      LineByLine(src, id, front);
      NextLineRead(src, id, front, last);
    }
  }

  lemma FirstLineRead(src: Rollout, id: int, line: Bytes)
    requires NL !in line && Readable(src, [line])
    ensures Parse(src, File(id, Join([line])), INITIAL, false) ==
            Ok((AllEvents(src, Join([line])), Summary(src, File(id, Join([line])))))
  {
    hide Dedup, AllEvents, Parse, Summary, Join, Acceptable;
    assert [line] == [] + [line];
    AddedLine(src, [], line);
    NoLinesNoEvents(src);
    OnePass(src, File(id, Join([line])));
    AtMostOne(AllEvents(src, Join([line])));
  }

  lemma NextLineRead(src: Rollout, id: int, front: seq<Bytes>, last: Bytes)
    requires NL !in last && (forall l :: l in front ==> NL !in l) && Readable(src, front + [last])
    ensures var file := File(id, Join(front + [last]));
      var parsed := Parse(src, file, Summary(src, File(id, Join(front))), false);
      && parsed.Ok? && parsed.value.1 == Summary(src, file)
      && AllEvents(src, Join(front)) + parsed.value.0 == AllEvents(src, file.content)
  {
    hide Dedup, AllEvents, Parse, Summary, Join, Acceptable;
    AddedLine(src, front, last);
    var file := File(id, Join(front + [last]));
    assert (front + [last])[..|front|] == front;
    JoinGrows(front + [last]);
    ResumeReadsRest(src, file, Join(front));
    var added :| AllEvents(src, file.content) == AllEvents(src, Join(front)) + added
      && Parse(src, file, Summary(src, File(id, Join(front))), false) == Ok((Dedup(added), Summary(src, file)));
    AtMostOne(added);
  }

  lemma JoinGrows(lines: seq<Bytes>)
    requires lines != []
    ensures Join(lines[..|lines| - 1]) <= Join(lines)
  {
  }

  lemma NoLinesNoEvents(src: Rollout)
    ensures AllEvents(src, Join([])) == []
  {
  }

  ghost predicate ScheduleTo(contents: seq<Bytes>, content: Bytes) {
    contents != [] && Growing(contents) && contents[|contents| - 1] == content
  }

  /** No earlier event agrees with it in model, effort, mode and usage signature. */
  predicate FirstOccurrence(events: seq<UsageEvent>, i: nat) {
    i < |events| && forall k | 0 <= k < i :: KeyOf(events[k]) != KeyOf(events[i])
  }

  lemma {:induction false} DedupIsFirsts(events: seq<UsageEvent>, e: UsageEvent)
    ensures e in Dedup(events) <==> exists i: nat :: FirstOccurrence(events, i) && events[i] == e
  {
    hide KeyOf;
    if events != [] {
      var front, last := events[..|events| - 1], events[|events| - 1];
      assert events == front + [last];
      DedupIsFirsts(front, e);
      DedupSnoc(front, last);
      hide Dedup;
      forall i: nat | i < |front|
        ensures FirstOccurrence(front, i) <==> FirstOccurrence(events, i)
      {
        assert forall k | 0 <= k <= i :: events[k] == front[k];
      }
      assert FirstOccurrence(events, |front|) <==> KeyOf(last) !in RepeatKeys(front) by {
        assert forall k | 0 <= k < |front| :: events[k] == front[k] && front[k] in front;
        assert events[|front|] == last;
      }
    }
  }

  /** Some first occurrence has the event's content key. */
  ghost predicate FirstHasKey(events: seq<UsageEvent>, e: UsageEvent) {
    exists i: nat :: FirstOccurrence(events, i) && DedupeKey(events[i]) == DedupeKey(e)
  }

  ghost predicate Represented(events: seq<UsageEvent>) {
    forall e :: e in events ==> FirstHasKey(events, e)
  }

  lemma FirstHasKeyIf(events: seq<UsageEvent>, e: UsageEvent)
    ensures DedupeKey(e) in KeysOf(Dedup(events)) <==> FirstHasKey(events, e)
  {
    hide Dedup, DedupeKey, KeyOf;
    if DedupeKey(e) in KeysOf(Dedup(events)) {
      var d :| d in Dedup(events) && DedupeKey(d) == DedupeKey(e);
      DedupIsFirsts(events, d);
    }
    if FirstHasKey(events, e) {
      var i: nat :| FirstOccurrence(events, i) && DedupeKey(events[i]) == DedupeKey(e);
      DedupIsFirsts(events, events[i]);
    }
  }

  lemma NoKeyLostExactly(events: seq<UsageEvent>)
    ensures KeysOf(Dedup(events)) == KeysOf(events) <==> Represented(events)
  {
    hide Dedup, DedupeKey, KeyOf, FirstHasKey;
    DedupKeys(events);
    forall e ensures DedupeKey(e) in KeysOf(Dedup(events)) <==> FirstHasKey(events, e) {
      FirstHasKeyIf(events, e);
    }
    assert forall e :: e in events ==> DedupeKey(e) in KeysOf(events);
  }

  /** For every file: all schedules of reads collect the keys of one pass if and only if every
      event of the file shares its content key with the first of some repeats. */
  lemma SchedulesAgreeExactly(src: Rollout, id: int, content: Bytes)
    requires Acceptable(src, content) && Tail(content) == [] && content != []
    ensures (forall contents :: ScheduleTo(contents, content) ==>
               KeysOf(RunReads(src, id, contents).0) == KeysOf(Dedup(AllEvents(src, content))))
            <==> Represented(AllEvents(src, content))
  {
    hide Dedup, AllEvents, RunReads, Join, Tail, Complete, Growing, Represented;
    NoKeyLostExactly(AllEvents(src, content));
    var lines := Complete(content);
    JoinLines(content);
    assert Join(lines) == content by { assert Join(lines) + [] == Join(lines); }
    LinesAreLines(content);
    if lines == [] {
      NothingJoined();
      assert false;
    }
    LineByLine(src, id, lines);
    LineEndsGrow(lines);
    assert ScheduleTo(LineEnds(lines), content);
    forall contents | ScheduleTo(contents, content)
      ensures KeysOf(Dedup(AllEvents(src, content))) <= KeysOf(RunReads(src, id, contents).0)
                <= KeysOf(AllEvents(src, content))
    {
      ScheduleBounds(src, id, contents);
    }
  }

  /** Two events that agree in model, effort, mode and usage signature are the same to the queue:
      both carry a content signature, or neither does and time and request agree too. */
  predicate SameToQueue(e: UsageEvent, f: UsageEvent) {
    if e.signature != NoSignature then f.signature != NoSignature
    else f.signature == NoSignature && e.time == f.time && Trim(e.requestID) == Trim(f.requestID)
  }

  predicate RepeatsAgree(events: seq<UsageEvent>) {
    forall i, j | 0 <= i < j < |events| && KeyOf(events[i]) == KeyOf(events[j]) :: SameToQueue(events[i], events[j])
  }

  /** An event of one rollout file, named without spaces around and with a positive total. */
  predicate Tidy(src: Rollout, e: UsageEvent) {
    && e.source == "codex" && e.provider == "openai" && e.account == "" && e.session == src.session && e.path == src.path
    && e.counts.cacheCreation1h == 0 && e.counts.total > 0
    && Trim(e.model) == e.model && Trim(e.effort) == e.effort && Trim(e.mode) == e.mode
  }

  lemma {:induction false} LowerLength(s: string)
    ensures |ToLower(s)| == |s|
  {
    if s != "" {
      LowerLength(s[1..]);
    }
  }

  lemma CodexKey(src: Rollout, e: UsageEvent)
    requires Tidy(src, e)
    ensures DedupeKey(e) ==
            if e.signature != NoSignature then
              ByUsage(Trim("codex"), Trim("openai"), Trim(""), e.model, e.effort, e.mode, e.signature)
            else
              ByRecord(Trim(src.path), e.time, Trim("codex"), Trim("openai"), Trim(""), Trim(src.session),
                       Trim(e.requestID), e.model, e.effort, e.mode, e.counts)
  {
    hide ToLower;
    LowerLength(Trim("codex"));
    assert Trim("codex") == "codex" by {
      assert TrimLeft("codex") == "codex";
    }
    assert |"claude"| == 6;
  }

  /** Events that agree up to repeats have one content key just when they are the same to the
      queue; and events with one content key agree up to repeats. */
  lemma KeysAgree(src: Rollout, e: UsageEvent, f: UsageEvent)
    requires Tidy(src, e) && Tidy(src, f)
    ensures KeyOf(e) == KeyOf(f) ==> (DedupeKey(e) == DedupeKey(f) <==> SameToQueue(e, f))
    ensures DedupeKey(e) == DedupeKey(f) ==> KeyOf(e) == KeyOf(f)
  {
    CodexKey(src, e);
    CodexKey(src, f);
    hide DedupeKey, Trim;
  }

  lemma AgreeingIsRepresented(src: Rollout, events: seq<UsageEvent>)
    requires (forall e :: e in events ==> Tidy(src, e)) && RepeatsAgree(events)
    ensures Represented(events)
  {
    hide Tidy, DedupeKey, KeyOf, SameToQueue;
    forall e | e in events
      ensures FirstHasKey(events, e)
    {
      var j: nat :| j < |events| && events[j] == e;
      var i := FirstLike(events, j);
      KeysAgree(src, events[i], events[j]);
      assert i < j ==> SameToQueue(events[i], events[j]);
    }
  }

  lemma RepresentedAgrees(src: Rollout, events: seq<UsageEvent>)
    requires (forall e :: e in events ==> Tidy(src, e)) && Represented(events)
    ensures RepeatsAgree(events)
  {
    hide Tidy, DedupeKey, KeyOf, SameToQueue, FirstOccurrence;
    forall i, j | 0 <= i < j < |events| && KeyOf(events[i]) == KeyOf(events[j])
      ensures SameToQueue(events[i], events[j])
    {
      var k := FirstWithKey(src, events, i);
      var l := FirstWithKey(src, events, j);
      OneFirst(events, k, l);
      KeysAgree(src, events[i], events[j]);
    }
  }

  lemma FirstWithKey(src: Rollout, events: seq<UsageEvent>, j: nat) returns (k: nat)
    requires (forall e :: e in events ==> Tidy(src, e)) && j < |events| && Represented(events)
    ensures FirstOccurrence(events, k) && DedupeKey(events[k]) == DedupeKey(events[j]) && KeyOf(events[k]) == KeyOf(events[j])
  {
    hide Tidy, DedupeKey, KeyOf;
    assert FirstHasKey(events, events[j]);
    k :| FirstOccurrence(events, k) && DedupeKey(events[k]) == DedupeKey(events[j]);
    KeysAgree(src, events[k], events[j]);
  }

  lemma {:induction false} FirstLike(events: seq<UsageEvent>, j: nat) returns (i: nat)
    requires j < |events|
    ensures i <= j && FirstOccurrence(events, i) && KeyOf(events[i]) == KeyOf(events[j])
  {
    if FirstOccurrence(events, j) {
      i := j;
    } else {
      var k :| 0 <= k < j && KeyOf(events[k]) == KeyOf(events[j]);
      i := FirstLike(events, k);
    }
  }

  lemma OneFirst(events: seq<UsageEvent>, k: nat, l: nat)
    requires FirstOccurrence(events, k) && FirstOccurrence(events, l) && KeyOf(events[k]) == KeyOf(events[l])
    ensures k == l
  {
  }

  /** On the records: all schedules agree if and only if any two usage records that agree in model,
      effort, mode and counts are both token_count records, or neither is and they have one time
      and request. */
  lemma TidySchedulesAgreeExactly(src: Rollout, id: int, content: Bytes)
    requires Acceptable(src, content) && Tail(content) == [] && content != []
    requires forall e :: e in AllEvents(src, content) ==> Tidy(src, e)
    ensures (forall contents :: ScheduleTo(contents, content) ==>
               KeysOf(RunReads(src, id, contents).0) == KeysOf(Dedup(AllEvents(src, content))))
            <==> RepeatsAgree(AllEvents(src, content))
  {
    hide Dedup, AllEvents, RunReads, ScheduleTo, Acceptable, Represented, RepeatsAgree, Tidy;
    SchedulesAgreeExactly(src, id, content);
    if RepeatsAgree(AllEvents(src, content)) {
      AgreeingIsRepresented(src, AllEvents(src, content));
    } else if Represented(AllEvents(src, content)) {
      RepresentedAgrees(src, AllEvents(src, content));
    }
  }

  lemma NothingJoined()
    ensures Join([]) == []
  {
  }

  lemma {:induction false} LinesAreLines(s: Bytes)
    ensures forall l :: l in Complete(s) ==> NL !in l
  {
    if s != [] {
      LinesAreLines(s[..|s| - 1]);
      TailIsLine(s[..|s| - 1]);
    }
  }

  // ---------- content signatures ----------

  /** Every event carries the content signature of a token_count record. */
  ghost predicate Tagged(events: seq<UsageEvent>) {
    forall e :: e in events ==>
      e.signature != NoSignature && e.source == "codex" && e.provider == "openai" && e.account == ""
  }

  lemma {:induction false} TaggedKeysSurvive(events: seq<UsageEvent>)
    requires Tagged(events)
    ensures KeysOf(Dedup(events)) == KeysOf(events)
  {
    DedupKeys(events);
    forall e | e in events
      ensures DedupeKey(e) in KeysOf(Dedup(events))
    {
      assert KeyOf(e) in RepeatKeys(Dedup(events));
      var d :| d in Dedup(events) && KeyOf(d) == KeyOf(e);
      assert d in events;
    }
  }

  /** Of token_count records, every schedule collects exactly the keys of all events. */
  lemma TaggedSchedulesAgree(src: Rollout, id: int, contents: seq<Bytes>)
    requires contents != [] && Growing(contents) && Acceptable(src, contents[|contents| - 1])
    requires Tagged(AllEvents(src, contents[|contents| - 1]))
    ensures KeysOf(RunReads(src, id, contents).0) == KeysOf(AllEvents(src, contents[|contents| - 1]))
  {
    hide Dedup, RunReads, AllEvents;
    ScheduleBounds(src, id, contents);
    TaggedKeysSurvive(AllEvents(src, contents[|contents| - 1]));
  }

  // ---------- replayed histories ----------

  /** The same record written again: only its time and request may differ. */
  predicate Replays(r: Record, original: Record) {
    r.(time := original.time, requestID := original.requestID) == original
  }

  predicate SameUsage(e: UsageEvent, original: UsageEvent) {
    e.(time := original.time, session := original.session, requestID := original.requestID,
       speedMode := original.speedMode, speedSource := original.speedSource, path := original.path) == original
  }

  lemma {:induction false} ReplayReads(src: Rollout, parent: Rollout, ctx: Context,
                                       records: seq<Record>, originals: seq<Record>)
    requires |records| == |originals|
    requires forall i :: 0 <= i < |records| ==> Replays(records[i], originals[i])
    ensures var r, o := ReadRecords(src, ctx, records), ReadRecords(parent, ctx, originals);
      && r.ctx == o.ctx && |r.events| == |o.events|
      && forall i :: 0 <= i < |r.events| ==> SameUsage(r.events[i], o.events[i])
  {
    if records != [] {
      var n := |records| - 1;
      ReplayReads(src, parent, ctx, records[..n], originals[..n]);
      var c := ReadRecords(src, ctx, records[..n]).ctx;
      assert Replays(records[n], originals[n]);
      ReplayStep(src, parent, c, records[n], originals[n]);
    }
  }

  lemma ReplayStep(src: Rollout, parent: Rollout, ctx: Context, r: Record, original: Record)
    requires Replays(r, original)
    ensures NextContext(ctx, r) == NextContext(ctx, original)
    ensures var e, o := EventOf(src, NextContext(ctx, r), r), EventOf(parent, NextContext(ctx, original), original);
      e.Some? == o.Some? && (e.Some? ==> SameUsage(e.value, o.value))
  {
    assert ReportedUsage(r) == ReportedUsage(original);
  }

  /** A rollout file that replays the turn contexts and token_count records of a parent,
      under another path and session and with new times, adds no line to the queue once the
      keys of the parent's events are known. */
  lemma ReplayAppendsNothing(src: Rollout, parent: Rollout, content: Bytes, parentContent: Bytes, seen: set<EventKey>)
    requires var records, originals := Records(src, Complete(content)), Records(parent, Complete(parentContent));
      |records| == |originals| && forall i :: 0 <= i < |records| ==> Replays(records[i], originals[i])
    requires Tagged(AllEvents(parent, parentContent))
    requires KeysOf(Dedup(AllEvents(parent, parentContent))) <= seen
    ensures FreshLines(seen, Dedup(AllEvents(src, content))) == []
  {
    hide Dedup, RepeatKeys;
    ReadsRecords(src, NO_CONTEXT, Complete(content));
    ReadsRecords(parent, NO_CONTEXT, Complete(parentContent));
    ReplayReads(src, parent, NO_CONTEXT, Records(src, Complete(content)), Records(parent, Complete(parentContent)));
    var events, originals := AllEvents(src, content), AllEvents(parent, parentContent);
    TaggedKeysSurvive(originals);
    DedupKeys(events);
    forall e | e in events
      ensures DedupeKey(e) in seen
    {
      var i :| 0 <= i < |events| && events[i] == e;
      assert SameUsage(events[i], originals[i]) && originals[i] in originals;
      assert DedupeKey(e) == DedupeKey(originals[i]);
    }
    NothingNew(seen, Dedup(events));
  }

  lemma {:induction false} NothingNew(seen: set<EventKey>, events: seq<UsageEvent>)
    requires forall e :: e in events ==> DedupeKey(e) in seen
    ensures FreshLines(seen, events) == []
  {
    if events != [] {
      NothingNew(seen, events[..|events| - 1]);
    }
  }

  // ---------- where the schedule shows ----------

  const BARE_USAGE := Usage(10, 0, 0, 5, 0, 15)

  function BareRecord(time: int): Record {
    Record("response", "", "", "", "", None, "", None, None, Some(BARE_USAGE), [], "gpt-5.5", time, "")
  }

  function BareEvent(src: Rollout, time: int): UsageEvent {
    UsageEvent(time, "codex", "openai", "", src.session, "", "gpt-5.5", "", "", None, src.speed.mode, src.speed.source,
               TokenCounts(10, 0, 0, 0, 5, 0, 15), src.path, NoSignature)
  }

  lemma BareRead(src: Rollout, before: Reading, line: Bytes, time: int)
    requires before.ctx == NO_CONTEXT || before.ctx == NO_CONTEXT.(model := "gpt-5.5")
    requires src.decode(DropCR(line)) == Rec(BareRecord(time))
    ensures NextReading(src, before, line) ==
            Reading(NO_CONTEXT.(model := "gpt-5.5"), before.events + [BareEvent(src, time)])
  {
    var record := BareRecord(time);
    assert !IsTurnContext(record) && !IsThreadSettings(record) && !IsTokenCount(record);
    assert NextContext(before.ctx, record) == NO_CONTEXT.(model := "gpt-5.5");
    assert EventOf(src, NO_CONTEXT.(model := "gpt-5.5"), record) == Some(BareEvent(src, time));
  }

  /** Two lines that decode to bare usage records with the same usage. */
  ghost predicate BareRepeat(src: Rollout, one: Bytes, two: Bytes, s: int, t: int) {
    && NL !in one && NL !in two && |one| < MAX_RECORD && |two| < MAX_RECORD
    && src.decode(DropCR(one)) == Rec(BareRecord(s)) && src.decode(DropCR(two)) == Rec(BareRecord(t))
  }

  lemma BareEvents(src: Rollout, one: Bytes, two: Bytes, s: int, t: int)
    requires BareRepeat(src, one, two, s, t)
    ensures AllEvents(src, Join([one, two])) == [BareEvent(src, s), BareEvent(src, t)]
    ensures Readable(src, [one, two]) && Acceptable(src, Join([one, two])) && Tail(Join([one, two])) == []
  {
    hide Join, NextReading, Complete, Tail;
    LinesOfJoin([one, two]);
    assert [one, two][..1] == [one] && [one][..0] == [];
    BareRead(src, Reading(NO_CONTEXT, []), one, s);
    BareRead(src, Reading(NO_CONTEXT.(model := "gpt-5.5"), [BareEvent(src, s)]), two, t);
    assert ReadAll(src, NO_CONTEXT, [one]).events == [BareEvent(src, s)];
  }

  lemma BareRepeatDropped(e: UsageEvent, f: UsageEvent)
    requires KeyOf(e) == KeyOf(f)
    ensures Dedup([e, f]) == [e]
  {
    hide Dedup, KeyOf;
    AtMostOne([e]);
    DedupSnoc([e], f);
    assert [e, f] == [e] + [f] && [e] + [] == [e];
    assert KeyOf(e) in RepeatKeys([e]);
  }

  lemma BareKeysDiffer(src: Rollout, s: int, t: int)
    requires s != t
    ensures KeysOf([BareEvent(src, s)]) != KeysOf([BareEvent(src, s), BareEvent(src, t)])
  {
    assert Trim("") == "";
    hide Trim, ToLower;
    var e, f := BareEvent(src, s), BareEvent(src, t);
    assert DedupeKey(f) in KeysOf([e, f]) && DedupeKey(f) !in KeysOf([e]);
  }

  /** Two equal bare usage records at different times: read at once, the second is dropped; read
      line by line, it is collected. */
  lemma BareRepeatsDependOnSchedule(src: Rollout, id: int, one: Bytes, two: Bytes, s: int, t: int)
    requires BareRepeat(src, one, two, s, t) && s != t
    ensures var content := Join([one, two]);
      && ScheduleTo([content], content) && ScheduleTo(LineEnds([one, two]), content)
      && RunReads(src, id, [content]).0 == [BareEvent(src, s)]
      && RunReads(src, id, LineEnds([one, two])).0 == [BareEvent(src, s), BareEvent(src, t)]
      && KeysOf(RunReads(src, id, [content]).0) != KeysOf(RunReads(src, id, LineEnds([one, two])).0)
  {
    hide AllEvents, Acceptable, Tail, Join, Dedup, Parse, Summary, KeysOf, BareEvent;
    var content := Join([one, two]);
    BareEvents(src, one, two, s, t);
    LineByLine(src, id, [one, two]);
    LineEndsGrow([one, two]);
    OnePass(src, File(id, content));
    assert [content][..0] == [] && [] + [BareEvent(src, s)] == [BareEvent(src, s)];
    SameRepeat(src, s, t);
    BareRepeatDropped(BareEvent(src, s), BareEvent(src, t));
    BareKeysDiffer(src, s, t);
  }

  lemma SameRepeat(src: Rollout, s: int, t: int)
    ensures KeyOf(BareEvent(src, s)) == KeyOf(BareEvent(src, t))
  {
  }
}
