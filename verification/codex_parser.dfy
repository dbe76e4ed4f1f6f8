/** The incremental parser for Codex rollout files (internal/agentusage/parsers.go).

    A rollout file is a byte string that its writer extends. The parser resumes from a
    saved state: the offset read so far, the unfinished last record, the folded context
    (model, effort, mode, speed) and the bytes before the offset as a checkpoint. */
module CodexParser {
  import opened Options
  import opened Lines
  import opened UsageEvents

  const CHECKPOINT_SIZE: nat := 4096
  const MAX_RECORD: nat := 67_108_864

  // ---------- decoded records ----------

  /** A non-empty usage object. */
  datatype Usage = Usage(inputRaw: int, cached: int, cacheCreation: int, output: int, reasoning: int, total: int)

  /** One of the objects `data`, `result` and `response` of a record. */
  datatype Nested = Nested(usage: Option<Usage>, model: string)

  datatype Record = Record(
    typ: string, payloadType: string,
    payloadModel: string, payloadEffort: string, payloadMode: string, payloadFast: Option<bool>, tier: string,
    last: Option<Usage>, running: Option<Usage>,
    usage: Option<Usage>, nested: seq<Nested>,
    model: string, time: int, requestID: string)

  datatype Decoded = Blank | Malformed | Rec(rec: Record)

  datatype SpeedInfo = SpeedInfo(mode: string, source: string)

  /** What is fixed about one rollout file: its path, the session named by the path, the
      configured speed, and how its lines decode. */
  datatype Rollout = Rollout(path: string, session: string, speed: SpeedInfo, decode: Bytes -> Decoded)

  function CodexCounts(u: Usage): TokenCounts {
    var input := u.inputRaw - u.cached - u.cacheCreation;
    TokenCounts(if input < 0 then 0 else input, u.cached, u.cacheCreation, 0, u.output, u.reasoning,
                if u.total <= 0 then u.inputRaw + u.output else u.total)
  }

  function UsageSignature(u: Option<Usage>): Signature {
    if u.None? then NoSignature else OfUsage(CodexCounts(u.value))
  }

  function TokenCountSignature(running: Option<Usage>, u: Option<Usage>): Signature {
    if running.Some? && u.Some? then OfTotal(CodexCounts(u.value), CodexCounts(running.value)) else UsageSignature(u)
  }

  // ---------- context and events ----------

  datatype Context = Context(model: string, effort: string, mode: string, fast: Option<bool>, speedSource: string)

  const NO_CONTEXT := Context("", "", "", None, "")

  /** The usage a record reports: the usage object, the content signature it carries, and
      the model named beside it. */
  datatype Reported = Reported(usage: Option<Usage>, content: Signature, model: string)

  function FirstNested(nested: seq<Nested>): Reported {
    if nested == [] then Reported(None, NoSignature, "")
    else if nested[0].usage.Some? then Reported(nested[0].usage, NoSignature, nested[0].model)
    else FirstNested(nested[1..])
  }

  predicate IsTokenCount(r: Record) {
    r.typ == "event_msg" && r.payloadType == "token_count"
  }

  function ReportedUsage(r: Record): Reported {
    var counted := if r.last.Some? then r.last else r.running;
    if IsTokenCount(r) && counted.Some? then Reported(counted, TokenCountSignature(r.running, counted), "")
    else if r.usage.Some? then Reported(r.usage, NoSignature, "")
    else FirstNested(r.nested)
  }

  predicate IsTurnContext(r: Record) {
    r.typ == "turn_context"
  }

  predicate IsThreadSettings(r: Record) {
    r.typ == "event_msg" && r.payloadType == "thread_settings_applied"
  }

  function NextContext(c: Context, r: Record): Context {
    if IsTurnContext(r) then
      Context(
        if r.payloadModel != "" then r.payloadModel else c.model,
        if r.payloadEffort != "" then r.payloadEffort else c.effort,
        if r.payloadMode != "" then r.payloadMode else c.mode,
        if r.payloadFast.Some? then r.payloadFast else c.fast,
        if r.payloadFast.Some? then "codex_turn_context" else c.speedSource)
    else if IsThreadSettings(r) then
      if r.tier == "fast" || r.tier == "priority" then c.(fast := Some(true), speedSource := "codex_thread_settings")
      else if r.tier == "default" then c.(fast := Some(false), speedSource := "codex_thread_settings")
      else c.(fast := None, speedSource := "unknown")
    else
      var u := ReportedUsage(r);
      if u.usage.None? then c
      else if r.model != "" then c.(model := r.model)
      else if u.model != "" then c.(model := u.model)
      else c
  }

  /** The event a record yields in the context `c` that already includes it. */
  function EventOf(src: Rollout, c: Context, r: Record): Option<UsageEvent> {
    if IsTurnContext(r) || IsThreadSettings(r) then None
    else
      var u := ReportedUsage(r);
      if u.usage.None? || c.model == "" then None
      else
        var speedMode := if c.fast.None? then src.speed.mode else if c.fast.value then "fast" else "standard";
        var speedSource :=
          if c.fast.None? then src.speed.source
          else if c.speedSource == "" then "codex_turn_context" else c.speedSource;
        Some(UsageEvent(r.time, "codex", "openai", "", src.session, r.requestID, c.model, c.effort, c.mode,
                        c.fast, speedMode, speedSource, CodexCounts(u.usage.value), src.path, u.content))
  }

  /** What the parser compares to drop repeats within one read. */
  datatype RepeatKey = RepeatKey(model: string, effort: string, mode: string, signature: Signature)

  function KeyOf(e: UsageEvent): RepeatKey {
    RepeatKey(e.model, e.effort, e.mode, if e.signature == NoSignature then OfUsage(e.counts) else e.signature)
  }

  // ---------- folding lines ----------

  datatype ParseError = TooLong | BadRecord | ShortRead

  datatype Acc = Acc(ctx: Context, seen: set<RepeatKey>, events: seq<UsageEvent>)

  function DropCR(line: Bytes): Bytes {
    if line != [] && line[|line| - 1] == CR then line[..|line| - 1] else line
  }

  function StepRecord(src: Rollout, a: Acc, r: Record): Acc {
    var ctx := NextContext(a.ctx, r);
    var e := EventOf(src, ctx, r);
    if e.None? || KeyOf(e.value) in a.seen then a.(ctx := ctx)
    else Acc(ctx, a.seen + {KeyOf(e.value)}, a.events + [e.value])
  }

  function StepLine(src: Rollout, a: Acc, line: Bytes): Result<Acc, ParseError> {
    if |line| >= MAX_RECORD then Err(TooLong)
    else
      match src.decode(DropCR(line))
      case Blank => Ok(a)
      case Malformed => Err(BadRecord)
      case Rec(r) => Ok(StepRecord(src, a, r))
  }

  function FoldLines(src: Rollout, a: Acc, lines: seq<Bytes>): Result<Acc, ParseError> {
    if lines == [] then Ok(a)
    else
      match FoldLines(src, a, lines[..|lines| - 1])
      case Err(e) => Err(e)
      case Ok(b) => StepLine(src, b, lines[|lines| - 1])
  }

  /** The records of a byte string, read in order: complete lines, then the tail, which is
      parsed only when it is the final record. */
  function FoldInput(src: Rollout, ctx: Context, input: Bytes, final: bool): Result<Acc, ParseError> {
    match FoldLines(src, Acc(ctx, {}, []), Complete(input))
    case Err(e) => Err(e)
    case Ok(a) =>
      var tail := Tail(input);
      if |tail| >= MAX_RECORD then Err(TooLong)
      else if final && tail != [] then StepLine(src, a, tail)
      else Ok(a)
  }

  // ---------- the file parser ----------

  datatype File = File(id: int, content: Bytes)

  datatype State = State(offset: nat, ctx: Context, partial: Bytes, fileId: Option<int>, checkpoint: Option<Bytes>)

  const INITIAL := State(0, NO_CONTEXT, [], None, None)

  /** The (up to) CHECKPOINT_SIZE bytes before `offset`, if the file is that long. */
  function Checkpoint(content: Bytes, offset: nat): Option<Bytes> {
    if offset > |content| then None
    else Some(content[if offset < CHECKPOINT_SIZE then 0 else offset - CHECKPOINT_SIZE..offset])
  }

  /** Whether a resumed state no longer describes the file under its path. */
  predicate MustReset(file: File, state: State) {
    || (state.fileId.Some? && (state.fileId.value != file.id || state.offset > |file.content|))
    || (state.checkpoint.Some? && Checkpoint(file.content, state.offset) != state.checkpoint)
  }

  function Unread(file: File, offset: nat): Bytes {
    if offset <= |file.content| then file.content[offset..] else []
  }

  function Resume(src: Rollout, file: File, state: State, final: bool)
    : Result<(seq<UsageEvent>, State), ParseError>
  {
    var input := state.partial + Unread(file, state.offset);
    match FoldInput(src, state.ctx, input, final)
    case Err(e) => Err(e)
    case Ok(a) =>
      var offset := state.offset + |Unread(file, state.offset)|;
      var checkpoint := Checkpoint(file.content, offset);
      if checkpoint.None? then Err(ShortRead)
      else Ok((a.events, State(offset, a.ctx, if final then [] else Tail(input), Some(file.id),
                               if offset > 0 then checkpoint else None)))
  }

  function Parse(src: Rollout, file: File, state: State, final: bool)
    : Result<(seq<UsageEvent>, State), ParseError>
  {
    if state.fileId.None? && state.checkpoint.Some? && state.offset > |file.content| then Err(ShortRead)
    else Resume(src, file, if MustReset(file, state) then INITIAL else state, final)
  }

  // ---------- lines found through a window ----------

  lemma {:induction false} FoldAppend(src: Rollout, a: Acc, x: seq<Bytes>, y: seq<Bytes>)
    ensures FoldLines(src, a, x + y) ==
            match FoldLines(src, a, x) case Err(e) => Err(e) case Ok(b) => FoldLines(src, b, y)
  {
    if y == [] {
      assert x + y == x;
    } else {
      FoldAppend(src, a, x, y[..|y| - 1]);
      assert (x + y)[..|x + y| - 1] == x + y[..|y| - 1];
    }
  }

  /** A bad line decides the outcome whatever follows it. */
  lemma FoldStops(src: Rollout, ctx: Context, input: Bytes, p: nat, final: bool)
    requires p <= |input| && Tail(input[..p]) == []
    requires FoldLines(src, Acc(ctx, {}, []), Complete(input[..p])).Err?
    ensures FoldInput(src, ctx, input, final) ==
            Err(FoldLines(src, Acc(ctx, {}, []), Complete(input[..p])).error)
  {
    hide Tail, Complete, FoldLines;
    assert input == input[..p] + input[p..];
    AppendLines(input[..p], input[p..]);
    FoldAppend(src, Acc(ctx, {}, []), Complete(input[..p]), Complete(Tail(input[..p]) + input[p..]));
  }

  lemma FoldSnoc(src: Rollout, a: Acc, lines: seq<Bytes>, line: Bytes)
    ensures FoldLines(src, a, lines + [line]) ==
            match FoldLines(src, a, lines) case Err(e) => Err(e) case Ok(b) => StepLine(src, b, line)
  {
    assert (lines + [line])[..|lines|] == lines;
  }

  /** The next complete line is one more step of the fold. */
  lemma LineTaken(src: Rollout, ctx: Context, input: Bytes, start: nat, nl: nat, a: Acc)
    requires start <= nl < |input| && input[nl] == NL && NL !in input[start..nl]
    requires Tail(input[..start]) == []
    requires FoldLines(src, Acc(ctx, {}, []), Complete(input[..start])) == Ok(a)
    ensures Tail(input[..nl + 1]) == []
    ensures FoldLines(src, Acc(ctx, {}, []), Complete(input[..nl + 1])) == StepLine(src, a, input[start..nl])
  {
    hide Tail, Complete, FoldLines;
    NextLine(input, start, nl);
    FoldSnoc(src, Acc(ctx, {}, []), Complete(input[..start]), input[start..nl]);
  }

  /** What is left without a newline is the tail. */
  lemma TailReached(src: Rollout, ctx: Context, input: Bytes, start: nat, a: Acc)
    requires start <= |input| && NL !in input[start..|input|] && |input| - start < MAX_RECORD
    requires Tail(input[..start]) == []
    requires FoldLines(src, Acc(ctx, {}, []), Complete(input[..start])) == Ok(a)
    ensures Tail(input) == input[start..|input|]
    ensures FoldInput(src, ctx, input, false) == Ok(a)
    ensures FoldInput(src, ctx, input, true) ==
            if start == |input| then Ok(a) else StepLine(src, a, input[start..|input|])
  {
    hide Tail, Complete, FoldLines;
    AddLine(input[..start], input[start..|input|]);
    assert input == input[..start] + input[start..|input|];
  }

  lemma LongFirstLine(src: Rollout, a: Acc, rest: Bytes, n: nat)
    requires MAX_RECORD <= n <= |rest| && NL !in rest[..n]
    ensures FoldLines(src, a, Complete(rest)) == if Complete(rest) == [] then Ok(a) else Err(TooLong)
    ensures Complete(rest) == [] ==> |Tail(rest)| >= MAX_RECORD
  {
    hide Tail, Complete;
    FirstLine(rest, n);
    var lines := Complete(rest);
    if lines != [] {
      assert lines == [] + [lines[0]] + lines[1..];
      FoldSnoc(src, a, [], lines[0]);
      FoldAppend(src, a, [] + [lines[0]], lines[1..]);
    }
  }

  /** A window full of one line means the whole input is refused. */
  lemma LongLine(src: Rollout, ctx: Context, input: Bytes, start: nat, end: nat, final: bool)
    requires start + MAX_RECORD <= end <= |input| && NL !in input[start..end]
    requires Tail(input[..start]) == []
    requires FoldLines(src, Acc(ctx, {}, []), Complete(input[..start])).Ok?
    ensures FoldInput(src, ctx, input, final) == Err(TooLong)
  {
    hide Tail, Complete, FoldLines;
    var a := Acc(ctx, {}, []);
    var rest := input[start..];
    assert input == input[..start] + rest;
    AppendLines(input[..start], rest);
    assert [] + rest == rest;
    assert rest[..end - start] == input[start..end];
    FoldAppend(src, a, Complete(input[..start]), Complete(rest));
    LongFirstLine(src, FoldLines(src, a, Complete(input[..start])).value, rest, end - start);
  }

  datatype SplitResult = NeedMore | Token(advance: nat, token: Bytes) | Carry

  function IndexNL(s: Bytes): (i: nat)
    ensures i <= |s| && NL !in s[..i] && (i < |s| ==> s[i] == NL)
  {
    if s == [] || s[0] == NL then 0
    else
      var i := 1 + IndexNL(s[1..]);
      assert s[..i] == [s[0]] + s[1..][..i - 1];
      i
  }

  function CodexLineSplit(final: bool, data: Bytes, atEOF: bool): SplitResult {
    var i := IndexNL(data);
    if i < |data| then Token(i + 1, DropCR(data[..i]))
    else if !atEOF || data == [] then NeedMore
    else if final then Token(|data|, DropCR(data))
    else Carry
  }

  lemma NothingRead(src: Rollout, ctx: Context, input: Bytes)
    ensures Tail(input[..0]) == []
    ensures FoldLines(src, Acc(ctx, {}, []), Complete(input[..0])) == Ok(Acc(ctx, {}, []))
  {
  }

  /** The scan loop: the input comes through a growing window, `arrivals` bytes at a time as
      the operating system pleases, and the result does not depend on how it arrives.
      Returns the folded records and the unfinished tail. */
  method ScanRecords(src: Rollout, ctx: Context, input: Bytes, final: bool, arrivals: nat -> nat)
    returns (r: Result<Acc, ParseError>, trailing: Bytes)
    ensures r == FoldInput(src, ctx, input, final)
    ensures r.Ok? ==> trailing == if final then [] else Tail(input)
  {
    NothingRead(src, ctx, input);
    hide Tail, Complete, FoldLines, FoldInput, NextContext, EventOf, KeyOf, DropCR, IndexNL;
    var next := ctx;
    var seenUsage: set<RepeatKey> := {};
    var events: seq<UsageEvent> := [];
    var start, end, eof, round := 0, 0, false, 0;
    trailing := [];
    while true
      invariant 0 <= start <= end <= |input| && end - start <= MAX_RECORD
      invariant eof ==> end == |input| && end - start < MAX_RECORD
      invariant trailing == []
      invariant Tail(input[..start]) == []
      invariant FoldLines(src, Acc(ctx, {}, []), Complete(input[..start])) == Ok(Acc(next, seenUsage, events))
      decreases |input| - start, |input| - end, if eof then 0 else 1
    {
      if end > start || eof {
        var window := input[start..end];
        var split := CodexLineSplit(final, window, eof);
        ghost var acc := Acc(next, seenUsage, events);
        ghost var nl := start + IndexNL(window);
        if eof && nl == end {
          TailReached(src, ctx, input, start, acc);
        }
        if split.Token? {
          if nl < end {
            SubSlice(input, start, end, nl - start);
            LineTaken(src, ctx, input, start, nl, acc);
          }
          var decoded := src.decode(split.token);
          if decoded.Malformed? {
            if nl < end {
              FoldStops(src, ctx, input, nl + 1, final);
            }
            return Err(BadRecord), [];
          }
          if decoded.Rec? {
            next := NextContext(next, decoded.rec);
            var e := EventOf(src, next, decoded.rec);
            if e.Some? && KeyOf(e.value) !in seenUsage {
              seenUsage := seenUsage + {KeyOf(e.value)};
              events := events + [e.value];
            }
          }
          start := start + split.advance;
          if eof && start == |input| {
            // Nothing is left: the next scan would find no data and stop.
            if nl < end {
              TailReached(src, ctx, input, start, Acc(next, seenUsage, events));
            }
            return Ok(Acc(next, seenUsage, events)), [];
          }
          continue;
        }
        if split.Carry? {
          trailing := window;
        }
        if eof {
          return Ok(Acc(next, seenUsage, events)), trailing;
        }
      }
      if end - start >= MAX_RECORD {
        LongLine(src, ctx, input, start, end, final);
        return Err(TooLong), [];
      }
      if end == |input| {
        eof := true;
      } else {
        var n, free := arrivals(round), MAX_RECORD - (end - start);
        var room := if |input| - end < free then |input| - end else free;
        end, round := end + if n < 1 then 1 else if n > room then room else n, round + 1;
      }
    }
  }

  method ParseCodexUsageFile(src: Rollout, file: File, saved: State, final: bool, arrivals: nat -> nat)
    returns (r: Result<(seq<UsageEvent>, State), ParseError>)
    ensures r == Parse(src, file, saved, final)
  {
    hide FoldInput;
    var state := saved;
    var reset := state.fileId.Some? && (state.fileId.value != file.id || state.offset > |file.content|);
    if !reset && state.checkpoint.Some? {
      var checkpoint := Checkpoint(file.content, state.offset);
      if checkpoint.None? {
        return Err(ShortRead);
      }
      reset := checkpoint != state.checkpoint;
    }
    if reset {
      state := INITIAL;
    }
    var scanned, trailing :=
      ScanRecords(src, state.ctx, state.partial + Unread(file, state.offset), final, arrivals);
    if scanned.Err? {
      return Err(scanned.error);
    }
    var offset := state.offset + |Unread(file, state.offset)|;
    var checkpoint := Checkpoint(file.content, offset);
    if checkpoint.None? {
      return Err(ShortRead);
    }
    var next := State(offset, scanned.value.ctx, trailing, Some(file.id), if offset > 0 then checkpoint else None);
    return Ok((scanned.value.events, next));
  }
}
