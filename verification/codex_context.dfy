/** What the folded context of a rollout file means: each field is what the last record that
    names it says (internal/agentusage/parsers.go). */
module CodexContext {
  import opened Options
  import opened Lines
  import opened UsageEvents
  import opened CodexParser
  import opened CodexIncremental

  function Named(s: string): Option<string> {
    if s == "" then None else Some(s)
  }

  /** The model a record names: a turn context in its payload, a usage record beside the usage
      or beside the object that holds it. */
  function ModelIn(r: Record): Option<string> {
    if IsTurnContext(r) then Named(r.payloadModel)
    else if IsThreadSettings(r) || ReportedUsage(r).usage.None? then None
    else if r.model != "" then Some(r.model)
    else Named(ReportedUsage(r).model)
  }

  function EffortIn(r: Record): Option<string> {
    if IsTurnContext(r) then Named(r.payloadEffort) else None
  }

  function ModeIn(r: Record): Option<string> {
    if IsTurnContext(r) then Named(r.payloadMode) else None
  }

  datatype Speed = Speed(fast: Option<bool>, source: string)

  /** The speed a record states; thread settings of an unknown tier unset it. */
  function SpeedIn(r: Record): Option<Speed> {
    if IsTurnContext(r) then
      if r.payloadFast.Some? then Some(Speed(r.payloadFast, "codex_turn_context")) else None
    else if IsThreadSettings(r) then
      Some(if r.tier in ["fast", "priority"] then Speed(Some(true), "codex_thread_settings")
           else if r.tier == "default" then Speed(Some(false), "codex_thread_settings")
           else Speed(None, "unknown"))
    else None
  }

  /** `value` is what the last record with a value says, or the start if none has one. */
  ghost predicate LastSays<T(!new)>(records: seq<Record>, says: Record -> Option<T>, start: T, value: T) {
    || (value == start && forall i | 0 <= i < |records| :: says(records[i]) == None)
    || exists i ::
         && 0 <= i < |records| && says(records[i]) == Some(value)
         && forall j | i < j < |records| :: says(records[j]) == None
  }

  lemma LastSaysSnoc<T(!new)>(records: seq<Record>, r: Record, says: Record -> Option<T>, start: T, value: T)
    requires LastSays(records, says, start, value)
    ensures LastSays(records + [r], says, start, if says(r).Some? then says(r).value else value)
  {
    var all := records + [r];
    if says(r).Some? {
      assert all[|records|] == r;
    } else if exists i ::
        0 <= i < |records| && says(records[i]) == Some(value) && forall j | i < j < |records| :: says(records[j]) == None
    {
      var i :| 0 <= i < |records| && says(records[i]) == Some(value) && forall j | i < j < |records| :: says(records[j]) == None;
      assert all[i] == records[i];
    }
  }

  ghost predicate Describes(records: seq<Record>, c: Context) {
    && LastSays(records, ModelIn, "", c.model)
    && LastSays(records, EffortIn, "", c.effort)
    && LastSays(records, ModeIn, "", c.mode)
    && LastSays(records, SpeedIn, Speed(None, ""), Speed(c.fast, c.speedSource))
  }

  lemma NextFields(c: Context, r: Record)
    ensures var d := NextContext(c, r);
            && d.model == (if ModelIn(r).Some? then ModelIn(r).value else c.model)
            && d.effort == (if EffortIn(r).Some? then EffortIn(r).value else c.effort)
            && d.mode == (if ModeIn(r).Some? then ModeIn(r).value else c.mode)
            && Speed(d.fast, d.speedSource) ==
               (if SpeedIn(r).Some? then SpeedIn(r).value else Speed(c.fast, c.speedSource))
  {}

  lemma {:induction false} RecordsDescribe(src: Rollout, records: seq<Record>)
    ensures Describes(records, ReadRecords(src, NO_CONTEXT, records).ctx)
  {
    hide NextContext, ModelIn, EffortIn, ModeIn, SpeedIn, LastSays, EventOf;
    if records == [] {
      NothingSaid();
    } else {
      var front, r := records[..|records| - 1], records[|records| - 1];
      assert records == front + [r];
      RecordsDescribe(src, front);
      var c := ReadRecords(src, NO_CONTEXT, front).ctx;
      NextFields(c, r);
      LastSaysSnoc(front, r, ModelIn, "", c.model);
      LastSaysSnoc(front, r, EffortIn, "", c.effort);
      LastSaysSnoc(front, r, ModeIn, "", c.mode);
      LastSaysSnoc(front, r, SpeedIn, Speed(None, ""), Speed(c.fast, c.speedSource));
    }
  }

  lemma NothingSaid()
    ensures Describes([], NO_CONTEXT)
  {}

  /** After any schedule of reads, the saved model, effort, mode and speed are each what the last
      complete record that names them says, and the carried bytes are those after the last
      newline. */
  lemma SavedContextIsLatest(src: Rollout, id: int, contents: seq<Bytes>)
    requires Growing(contents) && LastGood(src, contents).Some?
    ensures var state, c := RunReads(src, id, contents).1, LastGood(src, contents).value;
            && state.offset == |c|
            && Describes(Records(src, Complete(c)), state.ctx)
            && state.partial == Tail(c) && Join(Complete(c)) + state.partial == c
  {
    hide RunReads, Parse, Dedup, AllEvents, Acceptable, Describes, Tail, Complete, Join, ReadAll, Records, LastGood;
    var c := LastGood(src, contents).value;
    IncrementalRefinesOnePass(src, id, contents);
    ReadsRecords(src, NO_CONTEXT, Complete(c));
    RecordsDescribe(src, Records(src, Complete(c)));
    JoinLines(c);
  }

  /** An event is reported in the context that its own record completes, and its input, cached
      and created tokens are the input of the record, or more if the parts exceed it. */
  lemma EventIsInContext(src: Rollout, c: Context, r: Record)
    requires EventOf(src, NextContext(c, r), r).Some?
    ensures var e, d := EventOf(src, NextContext(c, r), r).value, NextContext(c, r);
            && e.model == d.model && e.model != "" && e.effort == c.effort && e.mode == c.mode
            && (c.fast.Some? ==> e.speedMode == if c.fast.value then "fast" else "standard")
            && (c.fast.None? ==> e.speedMode == src.speed.mode && e.speedSource == src.speed.source)
    ensures var u := ReportedUsage(r).usage;
            u.Some? &&
            var counts := EventOf(src, NextContext(c, r), r).value.counts;
            && counts.cached == u.value.cached && counts.cacheCreation == u.value.cacheCreation
            && counts.output == u.value.output && counts.reasoning == u.value.reasoning
            && var parts := counts.input + counts.cached + counts.cacheCreation;
               parts >= u.value.inputRaw && counts.input >= 0 && (counts.input > 0 ==> parts == u.value.inputRaw)
  {}
}
