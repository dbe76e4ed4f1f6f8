/** The queue ingester: tails a JSONL file in bounded chunks with a saved cursor, stores the
    events, and deletes queue files it has consumed
    (internal/agent/api_integrations_ingest_agent.go). */
module TailIngester {
  import opened Options
  import opened Lines
  import opened Text
  import opened UsageEvents

  const MAX_PARTIAL: nat := 512 * 1024

  /** What a line is once trimmed: blank, an error of the event parser, or an event with the
      fingerprint under which the store keeps it. */
  datatype LineKind = BlankLine | Invalid | Valid(fingerprint: EventKey)

  /** The saved cursor: bytes read, the unfinished line among them, and the size of the file
      when the scan began. */
  datatype Cursor = Cursor(offset: nat, partial: Bytes, fileSize: nat)

  const NO_CURSOR := Cursor(0, [], 0)

  /** One tailed path: its base name, how its lines are understood, and how many bytes one
      scan may read. */
  datatype Config = Config(name: string, classify: Bytes -> LineKind, limit: nat) {
    ghost predicate Valid() {
      limit > 0
    }
  }

  /** The path, the store and the history of both: the contents of files deleted so far, every
      line handed to the event parser, and the lines of the scans whose cursor was saved. */
  datatype World = World(
    file: Option<Bytes>, cursor: Option<Cursor>, stored: seq<EventKey>,
    removed: seq<Bytes>, parsed: seq<Bytes>, committed: seq<Bytes>)

  /** The environment of one scan: whether something fails before the data is read, what the
      writer appends before and after the read, which insert fails, and whether saving the
      cursor, removing the file and clearing its cursor fail. */
  datatype Answers = Answers(
    failsEarly: bool, beforeRead: Bytes, afterRead: Bytes, failingInsert: Option<nat>,
    saveFails: bool, removeFails: bool, clearFails: bool)

  predicate IsQueueFile(name: string) {
    name == "agent-usage.jsonl" || (HasPrefix(name, "agent-usage-") && HasSuffix(name, ".jsonl"))
  }

  predicate HasSuffix(s: string, suffix: string) {
    |suffix| <= |s| && s[|s| - |suffix|..] == suffix
  }

  function Load(saved: Option<Cursor>): Cursor {
    if saved.None? then NO_CURSOR
    else if |saved.value.partial| > MAX_PARTIAL then saved.value.(partial := [])
    else saved.value
  }

  predicate OffsetFollowsNewline(content: Bytes, offset: nat)
    requires offset > 0
  {
    offset <= |content| && content[offset - 1] == NL
  }

  /** Where a scan starts reading. */
  function Resume(c: Cursor, sizeAtStat: nat, content: Bytes): (r: Cursor)
    ensures sizeAtStat <= |content| ==> r.offset <= |content|
  {
    var c := if sizeAtStat < c.offset then c.(offset := 0, partial := []) else c;
    if c.offset > 0 && c.partial == [] && !OffsetFollowsNewline(content, c.offset) then c.(offset := 0) else c
  }

  datatype Inserting = Inserting(stored: seq<EventKey>, parsed: seq<Bytes>, attempts: nat, ok: bool)

  function InsertLine(cfg: Config, failing: Option<nat>, p: Inserting, line: Bytes): Inserting {
    if !p.ok then p
    else
      match cfg.classify(line)
      case BlankLine => p
      case Invalid => p.(parsed := p.parsed + [line])
      case Valid(f) =>
        var p' := p.(parsed := p.parsed + [line], attempts := p.attempts + 1);
        if failing == Some(p.attempts) then p'.(ok := false)
        else if f in p.stored then p'
        else p'.(stored := p.stored + [f])
  }

  function InsertLines(cfg: Config, failing: Option<nat>, stored: seq<EventKey>, lines: seq<Bytes>): Inserting {
    if lines == [] then Inserting(stored, [], 0, true)
    else InsertLine(cfg, failing, InsertLines(cfg, failing, stored, lines[..|lines| - 1]), lines[|lines| - 1])
  }

  /** A chunk of the file: where reading began, the data, and the cursor after it. */
  datatype Chunk = Chunk(start: Cursor, data: Bytes, lines: seq<Bytes>, next: Cursor)

  function ReadChunk(cfg: Config, saved: Option<Cursor>, sizeAtStat: nat, content: Bytes): Chunk
    requires sizeAtStat <= |content|
  {
    var start := Resume(Load(saved), sizeAtStat, content);
    var end := if start.offset + cfg.limit < |content| then start.offset + cfg.limit else |content|;
    var data := content[start.offset..end];
    var (lines, remainder) := SplitCompleteLines(start.partial + data);
    Chunk(start, data, lines,
          Cursor(end, if |remainder| > MAX_PARTIAL then [] else remainder, sizeAtStat))
  }

  function Scan(cfg: Config, w: World, a: Answers): World {
    if w.file.None? then w
    else
      var size := |w.file.value|;
      var read := w.file.value + a.beforeRead;
      var w := w.(file := Some(read + a.afterRead));
      if a.failsEarly then w
      else
        var c := ReadChunk(cfg, w.cursor, size, read);
        if c.data == [] then w.(cursor := if a.saveFails then w.cursor else Some(c.start.(fileSize := size)))
        else
          var inserted := InsertLines(cfg, a.failingInsert, w.stored, c.lines);
          var w := w.(stored := inserted.stored, parsed := w.parsed + inserted.parsed);
          if !inserted.ok || a.saveFails then w
          else RemoveConsumed(cfg, w.(cursor := Some(c.next), committed := w.committed + c.lines), c.next, a)
  }

  function RemoveConsumed(cfg: Config, w: World, next: Cursor, a: Answers): World
    requires w.file.Some?
  {
    var size := |w.file.value|;
    if next.partial == [] && IsQueueFile(cfg.name) && size == next.offset && size == next.fileSize && !a.removeFails
    then w.(file := None, removed := w.removed + [w.file.value], cursor := if a.clearFails then w.cursor else None)
    else w
  }

  class Ingester {
    const cfg: Config
    var file: Option<Bytes>
    var cursor: Option<Cursor>
    var stored: seq<EventKey>
    ghost var removed: seq<Bytes>
    ghost var parsed: seq<Bytes>
    ghost var committed: seq<Bytes>

    constructor (cfg: Config)
      ensures this.cfg == cfg && Contents() == World(None, None, [], [], [], [])
    {
      this.cfg := cfg;
      file, cursor, stored := None, None, [];
      removed, parsed, committed := [], [], [];
    }

    ghost function Contents(): World
      reads this
    {
      World(file, cursor, stored, removed, parsed, committed)
    }

    method ScanFile(a: Answers)
      modifies this
      ensures Contents() == Scan(cfg, old(Contents()), a)
    {
      hide InsertLines, Resume, Load, IsQueueFile, SplitCompleteLines;
      if file.None? {
        return;
      }
      var size, read := |file.value|, file.value + a.beforeRead;
      file := Some(read + a.afterRead);
      if a.failsEarly {
        return;
      }
      var state := Resume(Load(cursor), size, read);
      ghost var chunk := ReadChunk(cfg, cursor, size, read);
      var end := if state.offset + cfg.limit < |read| then state.offset + cfg.limit else |read|;
      var data := read[state.offset..end];
      state := state.(fileSize := size);
      if data == [] {
        if !a.saveFails {
          cursor := Some(state);
        }
        return;
      }
      state := state.(offset := end);
      var lines, remainder := SplitCompleteLines(state.partial + data).0, SplitCompleteLines(state.partial + data).1;
      state := state.(partial := if |remainder| > MAX_PARTIAL then [] else remainder);
      assert state == chunk.next && lines == chunk.lines;
      var ok := InsertAll(lines, a.failingInsert);
      if !ok || a.saveFails {
        return;
      }
      cursor := Some(state);
      committed := committed + lines;
      RemoveConsumedFile(state, a);
    }

    method InsertAll(lines: seq<Bytes>, failingInsert: Option<nat>) returns (ok: bool)
      modifies `stored, `parsed
      ensures var r := InsertLines(cfg, failingInsert, old(stored), lines);
        ok == r.ok && stored == r.stored && parsed == old(parsed) + r.parsed
    {
      var attempts := 0;
      ok := true;
      for i := 0 to |lines|
        invariant ok && InsertLines(cfg, failingInsert, old(stored), lines[..i]).ok
        invariant var r := InsertLines(cfg, failingInsert, old(stored), lines[..i]);
          attempts == r.attempts && stored == r.stored && parsed == old(parsed) + r.parsed
      {
        assert lines[..i + 1][..i] == lines[..i];
        var kind := cfg.classify(lines[i]);
        if kind != BlankLine {
          parsed := parsed + [lines[i]];
        }
        if kind.Valid? {
          if failingInsert == Some(attempts) {
            ok := false;
            InsertStops(cfg, failingInsert, old(stored), lines, i + 1);
            return;
          }
          if kind.fingerprint !in stored {
            stored := stored + [kind.fingerprint];
          }
          attempts := attempts + 1;
        }
      }
      assert lines[..|lines|] == lines;
    }

    method RemoveConsumedFile(state: Cursor, a: Answers)
      requires file.Some?
      modifies this
      ensures Contents() == RemoveConsumed(cfg, old(Contents()), state, a)
    {
      if state.partial != [] || !IsQueueFile(cfg.name) {
        return;
      }
      if |file.value| != state.offset || |file.value| != state.fileSize || a.removeFails {
        return;
      }
      removed := removed + [file.value];
      file := None;
      if !a.clearFails {
        cursor := None;
      }
    }
  }

  lemma {:induction false} InsertStops(cfg: Config, failing: Option<nat>, stored: seq<EventKey>, lines: seq<Bytes>, i: nat)
    requires i <= |lines| && !InsertLines(cfg, failing, stored, lines[..i]).ok
    ensures InsertLines(cfg, failing, stored, lines) == InsertLines(cfg, failing, stored, lines[..i])
  {
    if i < |lines| {
      assert lines[..|lines| - 1][..i] == lines[..i];
      InsertStops(cfg, failing, stored, lines[..|lines| - 1], i);
    } else {
      assert lines[..i] == lines;
    }
  }

  // ---------- runs ----------

  datatype Step = Append(data: Bytes) | ScanStep(answers: Answers)

  function Content(w: World): Bytes {
    if w.file.Some? then w.file.value else []
  }

  function Flat(files: seq<Bytes>): Bytes {
    if files == [] then [] else Flat(files[..|files| - 1]) + files[|files| - 1]
  }

  function LinesOf(files: seq<Bytes>): seq<Bytes> {
    if files == [] then [] else LinesOf(files[..|files| - 1]) + Complete(files[|files| - 1])
  }

  /** Everything ever written under the path. */
  function Log(w: World): Bytes {
    Flat(w.removed) + Content(w)
  }

  /** The complete lines of every file there ever was under the path. */
  function AllLines(w: World): seq<Bytes> {
    LinesOf(w.removed) + Complete(Content(w))
  }

  /** The writer creates the file when it is not there. */
  function Apply(cfg: Config, w: World, s: Step): World {
    match s
    case Append(data) => w.(file := Some(Content(w) + data))
    case ScanStep(a) => Scan(cfg, w, a)
  }

  function Run(cfg: Config, w: World, steps: seq<Step>): World {
    if steps == [] then w else Apply(cfg, Run(cfg, w, steps[..|steps| - 1]), steps[|steps| - 1])
  }

  function Written(w: World, s: Step): Bytes {
    match s
    case Append(data) => data
    case ScanStep(a) => if w.file.Some? then a.beforeRead + a.afterRead else []
  }

  lemma FlatSnoc(files: seq<Bytes>, f: Bytes)
    ensures Flat(files + [f]) == Flat(files) + f
    ensures LinesOf(files + [f]) == LinesOf(files) + Complete(f)
  {
    assert (files + [f])[..|files|] == files;
  }

  /** Deleting a file takes no byte out of the log: it only grows by what is written. */
  lemma NothingIsErased(cfg: Config, w: World, s: Step)
    ensures Log(Apply(cfg, w, s)) == Log(w) + Written(w, s)
  {
    hide ReadChunk, InsertLines, InsertLine, Flat, LinesOf, IsQueueFile;
    var grown := Content(w) + Written(w, s);
    FlatSnoc(w.removed, grown);
    assert Flat(w.removed) + grown == Log(w) + Written(w, s);
    assert Flat(w.removed) + grown + [] == Flat(w.removed) + grown;
    if s.ScanStep? && w.file.Some? {
      assert w.file.value + s.answers.beforeRead + s.answers.afterRead == grown;
    }
  }

  // ---------- what every scan keeps ----------

  ghost predicate NoRepeats(keys: seq<EventKey>) {
    forall i, j :: 0 <= i < j < |keys| ==> keys[i] != keys[j]
  }

  ghost predicate StoredFrom(cfg: Config, initial: seq<EventKey>, stored: seq<EventKey>, lines: seq<Bytes>) {
    forall f :: f in stored ==> f in initial || exists l :: l in lines && cfg.classify(l) == Valid(f)
  }

  ghost predicate AllStored(cfg: Config, lines: seq<Bytes>, stored: seq<EventKey>) {
    forall l :: l in lines && cfg.classify(l).Valid? ==> cfg.classify(l).fingerprint in stored
  }

  /** A carried partial line is the unfinished tail of what was read of the present file. */
  ghost predicate CursorSafe(w: World) {
    w.cursor.Some? && w.cursor.value.partial != [] ==>
      var c := w.cursor.value;
      w.file.Some? && c.offset <= |w.file.value| && c.partial == Tail(w.file.value[..c.offset])
  }

  /** Holds in every run, whatever fails. */
  ghost predicate Safe(cfg: Config, initial: seq<EventKey>, w: World) {
    && CursorSafe(w)
    && (forall l :: l in w.parsed ==> l in AllLines(w))
    && NoRepeats(w.stored)
    && StoredFrom(cfg, initial, w.stored, AllLines(w))
    && AllStored(cfg, w.committed, w.stored)
  }

  /** Reading always starts on the boundary of a line together with its carried part, even
      from a cursor that belongs to a file that is gone. */
  lemma ResumesOnLine(w: World, more: Bytes)
    requires CursorSafe(w) && w.file.Some?
    ensures var c := Resume(Load(w.cursor), |w.file.value|, w.file.value + more);
      c.offset <= |w.file.value| && c.partial == Tail((w.file.value + more)[..c.offset])
  {
    hide Tail;
    var content := w.file.value + more;
    var c := Resume(Load(w.cursor), |w.file.value|, content);
    BoundaryTail(content, c.offset);
    assert content[..c.offset] == w.file.value[..c.offset];
  }

  /** The lines of a chunk continue the complete lines of what was read before it. */
  lemma ChunkContinues(cfg: Config, w: World, more: Bytes)
    requires CursorSafe(w) && w.file.Some?
    ensures var content := w.file.value + more;
      var c := ReadChunk(cfg, w.cursor, |w.file.value|, content);
      && c.start.offset <= c.next.offset <= |content| && |c.data| == c.next.offset - c.start.offset
      && c.start.partial == Tail(content[..c.start.offset])
      && Complete(content[..c.next.offset]) == Complete(content[..c.start.offset]) + c.lines
      && c.next.partial == (var t := Tail(content[..c.next.offset]); if |t| > MAX_PARTIAL then [] else t)
  {
    hide Tail, Complete, Resume, Load;
    var content := w.file.value + more;
    ResumesOnLine(w, more);
    var c := ReadChunk(cfg, w.cursor, |w.file.value|, content);
    AppendLines(content[..c.start.offset], c.data);
    assert content[..c.next.offset] == content[..c.start.offset] + c.data;
  }

  lemma PrefixLines(s: Bytes, i: nat)
    requires i <= |s|
    ensures Complete(s[..i]) <= Complete(s)
  {
    hide Tail, Complete;
    AppendLines(s[..i], s[i..]);
    assert s == s[..i] + s[i..];
  }

  lemma {:induction false} InsertKeeps(cfg: Config, failing: Option<nat>, initial: seq<EventKey>,
                                       stored: seq<EventKey>, lines: seq<Bytes>, all: seq<Bytes>)
    requires NoRepeats(stored) && StoredFrom(cfg, initial, stored, all)
    requires forall l :: l in lines ==> l in all
    ensures var r := InsertLines(cfg, failing, stored, lines);
      && NoRepeats(r.stored) && StoredFrom(cfg, initial, r.stored, all)
      && (forall f :: f in stored ==> f in r.stored)
      && (forall l :: l in r.parsed ==> l in lines)
      && (r.ok ==> AllStored(cfg, lines, r.stored))
  {
    if lines != [] {
      var front, last := lines[..|lines| - 1], lines[|lines| - 1];
      assert forall l :: l in lines <==> l in front || l == last;
      InsertKeeps(cfg, failing, initial, stored, front, all);
    }
  }

  /** What the writer adds takes no line away. */
  lemma GrowthKeepsSafe(cfg: Config, initial: seq<EventKey>, w: World, more: Bytes)
    requires Safe(cfg, initial, w)
    ensures Safe(cfg, initial, w.(file := Some(Content(w) + more)))
  {
    hide Tail, Complete, LinesOf;
    PrefixLines(Content(w) + more, |Content(w)|);
    assert (Content(w) + more)[..|Content(w)|] == Content(w);
    if w.cursor.Some? && w.cursor.value.partial != [] {
      assert (w.file.value + more)[..w.cursor.value.offset] == w.file.value[..w.cursor.value.offset];
    }
  }

  lemma RemovalKeepsSafe(cfg: Config, initial: seq<EventKey>, w: World, next: Cursor, a: Answers)
    requires Safe(cfg, initial, w) && w.file.Some? && w.cursor == Some(next)
    ensures Safe(cfg, initial, RemoveConsumed(cfg, w, next, a))
  {
    hide Tail, Complete, LinesOf;
    FlatSnoc(w.removed, w.file.value);
    NoFileNoLines();
    assert LinesOf(w.removed + [w.file.value]) + [] == LinesOf(w.removed) + Complete(w.file.value);
  }

  lemma NoFileNoLines()
    ensures Complete([]) == [] && Tail([]) == []
  {
  }

  lemma CommitKeepsSafe(cfg: Config, initial: seq<EventKey>, w: World, lines: seq<Bytes>, r: Inserting, cursor: Option<Cursor>)
    requires Safe(cfg, initial, w) && w.file.Some?
    requires NoRepeats(r.stored) && StoredFrom(cfg, initial, r.stored, AllLines(w))
    requires forall f :: f in w.stored ==> f in r.stored
    requires forall l :: l in r.parsed ==> l in AllLines(w)
    requires CursorSafe(w.(cursor := cursor))
    ensures Safe(cfg, initial, w.(stored := r.stored, parsed := w.parsed + r.parsed))
    ensures AllStored(cfg, lines, r.stored) ==>
      Safe(cfg, initial, w.(stored := r.stored, parsed := w.parsed + r.parsed, cursor := cursor,
                            committed := w.committed + lines))
  {
    hide Tail, Complete, LinesOf, StoredFrom, NoRepeats;
    SameLines(cfg, initial, r.stored, w, w.(stored := r.stored, parsed := w.parsed + r.parsed));
    assert forall l :: l in w.committed + lines <==> l in w.committed || l in lines;
  }

  lemma SameLines(cfg: Config, initial: seq<EventKey>, stored: seq<EventKey>, w: World, v: World)
    requires v.removed == w.removed && v.file == w.file
    ensures AllLines(v) == AllLines(w)
  {
  }

  /** Whichever step fails, a scan hands only whole lines of the present file to the parser,
      stores no fingerprint twice, and leaves no valid line of a committed chunk unstored. */
  lemma ScanKeepsSafe(cfg: Config, initial: seq<EventKey>, w: World, a: Answers)
    requires Safe(cfg, initial, w)
    ensures Safe(cfg, initial, Scan(cfg, w, a))
    ensures w.file.Some? && !a.failsEarly ==>
      forall l :: l in ReadChunk(cfg, w.cursor, |w.file.value|, w.file.value + a.beforeRead).lines ==>
        l in Complete(w.file.value + a.beforeRead)
  {
    hide Safe, Tail, Complete, LinesOf, InsertLines, ReadChunk, RemoveConsumed;
    if w.file.Some? {
      var read := w.file.value + a.beforeRead;
      var all := w.file.value + (a.beforeRead + a.afterRead);
      assert read + a.afterRead == all;
      var grown := w.(file := Some(all));
      GrowthKeepsSafe(cfg, initial, w, a.beforeRead + a.afterRead);
      if !a.failsEarly {
        var c := ReadChunk(cfg, w.cursor, |w.file.value|, read);
        SafeChunk(cfg, initial, w, a.beforeRead, a.afterRead);
        var r := InsertLines(cfg, a.failingInsert, w.stored, c.lines);
        InsertKeeps(cfg, a.failingInsert, initial, w.stored, c.lines, AllLines(grown));
        if c.data == [] {
          CursorMoves(cfg, initial, grown, Some(c.start.(fileSize := |w.file.value|)));
        } else {
          CommitKeepsSafe(cfg, initial, grown, c.lines, r, Some(c.next));
          if r.ok && !a.saveFails {
            RemovalKeepsSafe(cfg, initial,
                             grown.(stored := r.stored, parsed := w.parsed + r.parsed, cursor := Some(c.next),
                                    committed := w.committed + c.lines), c.next, a);
          }
        }
      }
    }
  }

  lemma CursorMoves(cfg: Config, initial: seq<EventKey>, w: World, cursor: Option<Cursor>)
    requires Safe(cfg, initial, w) && CursorSafe(w.(cursor := cursor))
    ensures Safe(cfg, initial, w.(cursor := cursor))
  {
    SameLines(cfg, initial, w.stored, w, w.(cursor := cursor));
    hide Tail, Complete, LinesOf, AllLines;
  }

  /** What a scan reads are lines of the present file, and the cursors it may save are safe. */
  lemma SafeChunk(cfg: Config, initial: seq<EventKey>, w: World, before: Bytes, after: Bytes)
    requires Safe(cfg, initial, w) && w.file.Some?
    ensures var c := ReadChunk(cfg, w.cursor, |w.file.value|, w.file.value + before);
      var grown := w.(file := Some(w.file.value + (before + after)));
      && (forall l :: l in c.lines ==> l in Complete(w.file.value + before) && l in AllLines(grown))
      && CursorSafe(grown.(cursor := Some(c.next)))
      && CursorSafe(grown.(cursor := Some(c.start.(fileSize := |w.file.value|))))
      && NoRepeats(w.stored) && StoredFrom(cfg, initial, w.stored, AllLines(grown))
  {
    hide Tail, Complete, ReadChunk, LinesOf;
    var read, all := w.file.value + before, w.file.value + (before + after);
    assert all[..|read|] == read;
    var c := ReadChunk(cfg, w.cursor, |w.file.value|, read);
    ChunkContinues(cfg, w, before);
    PrefixLines(read, c.next.offset);
    PrefixLines(all, |read|);
    assert all[..c.start.offset] == read[..c.start.offset] && all[..c.next.offset] == read[..c.next.offset];
    GrowthKeepsSafe(cfg, initial, w, before + after);
    InPrefix(Complete(read[..c.next.offset]), Complete(read));
    InPrefix(Complete(read), Complete(all));
    forall l | l in c.lines
      ensures l in Complete(read) && l in Complete(all)
    {
      assert l in Complete(read[..c.start.offset]) + c.lines;
    }
  }

  lemma InPrefix(lines: seq<Bytes>, all: seq<Bytes>)
    requires lines <= all
    ensures forall l :: l in lines ==> l in all
  {
  }

  /** Holds in every run: appends, failing inserts, failing saves, failed removals, cursors
      that outlive their file and lines longer than the partial-line limit included. */
  lemma {:induction false} EveryRunIsSafe(cfg: Config, w: World, steps: seq<Step>)
    requires w.cursor.None? && w.parsed == [] && w.committed == [] && NoRepeats(w.stored)
    ensures Safe(cfg, w.stored, Run(cfg, w, steps))
  {
    hide Tail, Complete, LinesOf, Scan, Safe;
    if steps == [] {
      StartIsSafe(cfg, w);
    } else {
      EveryRunIsSafe(cfg, w, steps[..|steps| - 1]);
      var v := Run(cfg, w, steps[..|steps| - 1]);
      match steps[|steps| - 1]
      case Append(data) => GrowthKeepsSafe(cfg, w.stored, v, data);
      case ScanStep(a) => ScanKeepsSafe(cfg, w.stored, v, a);
    }
  }

  lemma StartIsSafe(cfg: Config, w: World)
    requires w.cursor.None? && w.parsed == [] && w.committed == [] && NoRepeats(w.stored)
    ensures Safe(cfg, w.stored, w)
  {
  }
}
