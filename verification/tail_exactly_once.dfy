/** Exactly-once delivery by the queue ingester, across failed steps, deletion and
    re-creation of the file, and how a line over the limit loses it. */
module TailExactlyOnce {
  import opened Options
  import opened Lines
  import opened UsageEvents
  import opened TailIngester

  /** No line of any file exceeds the partial-line limit. */
  ghost predicate Fits(w: World) {
    (forall g :: g in w.removed ==> LinesFit(g, MAX_PARTIAL)) && LinesFit(Content(w), MAX_PARTIAL)
  }

  /** The part of the present file that the saved cursor covers. */
  function Consumed(w: World): (c: Bytes)
    ensures c <= Content(w)
  {
    if w.cursor.Some? && w.cursor.value.offset <= |Content(w)| then Content(w)[..w.cursor.value.offset] else []
  }

  /** The cursor describes the present file, and the committed lines are exactly those of the
      deleted files and of the consumed part, in order. */
  ghost predicate Exact(w: World) {
    && (forall g :: g in w.removed ==> Tail(g) == [])
    && (w.cursor.Some? ==>
          w.file.Some? && w.cursor.value.offset <= |w.file.value| && w.cursor.value.partial == Tail(Consumed(w)))
    && w.committed == LinesOf(w.removed) + Complete(Consumed(w))
  }

  lemma PrefixFits(s: Bytes, t: Bytes)
    requires s <= t && LinesFit(t, MAX_PARTIAL)
    ensures LinesFit(s, MAX_PARTIAL)
  {
    hide Tail;
    forall i | 0 <= i <= |s|
      ensures |Tail(s[..i])| <= MAX_PARTIAL
    {
      assert s[..i] == t[..i];
    }
  }

  /** A cursor that describes its file resumes exactly where it stopped. */
  lemma ExactResumes(w: World, more: Bytes)
    requires Exact(w) && w.file.Some? && LinesFit(w.file.value, MAX_PARTIAL)
    ensures var c := Resume(Load(w.cursor), |w.file.value|, w.file.value + more);
      && c.offset == |Consumed(w)| && c.partial == Tail(Consumed(w))
      && (w.file.value + more)[..c.offset] == Consumed(w)
  {
    hide Tail, Complete, LinesOf;
    var content := w.file.value + more;
    if w.cursor.Some? {
      var offset := w.cursor.value.offset;
      assert content[..offset] == w.file.value[..offset] == Consumed(w);
      BoundaryTail(content, offset);
    } else {
      NoFileNoLines();
      assert content[..0] == [];
    }
  }

  lemma ExactChunk(cfg: Config, w: World, before: Bytes)
    requires Exact(w) && w.file.Some? && LinesFit(w.file.value + before, MAX_PARTIAL)
    ensures var read := w.file.value + before;
      var c := ReadChunk(cfg, w.cursor, |w.file.value|, read);
      && |Consumed(w)| == c.start.offset <= c.next.offset <= |read|
      && (c.data == [] ==> c.next.offset == c.start.offset)
      && c.start.partial == Tail(Consumed(w))
      && read[..c.start.offset] == Consumed(w)
      && w.committed + [] == LinesOf(w.removed) + Complete(read[..c.start.offset])
      && w.committed + c.lines == LinesOf(w.removed) + Complete(read[..c.next.offset])
      && c.next.partial == Tail(read[..c.next.offset])
  {
    hide Tail, Complete, LinesOf, Resume, Load, ReadChunk;
    var read := w.file.value + before;
    PrefixFits(w.file.value, read);
    ExactResumes(w, before);
    ChunkLength(cfg, w.cursor, |w.file.value|, read);
    ChunkContinues(cfg, w, before);
    var c := ReadChunk(cfg, w.cursor, |w.file.value|, read);
    assert |Tail(read[..c.next.offset])| <= MAX_PARTIAL;
    assert w.committed + [] == w.committed;
  }

  lemma ExactGrowth(w: World, more: Bytes)
    requires Exact(w)
    ensures Exact(w.(file := Some(Content(w) + more)))
    ensures Consumed(w.(file := Some(Content(w) + more))) == Consumed(w)
  {
    hide Tail, Complete, LinesOf;
    if w.cursor.Some? {
      assert (w.file.value + more)[..w.cursor.value.offset] == w.file.value[..w.cursor.value.offset];
    }
  }

  lemma FitsBefore(cfg: Config, w: World, s: Step)
    requires Fits(Apply(cfg, w, s))
    ensures Fits(w)
    ensures s.ScanStep? && w.file.Some? ==>
      LinesFit(w.file.value + (s.answers.beforeRead + s.answers.afterRead), MAX_PARTIAL)
  {
    hide Tail, ReadChunk, InsertLines, LinesFit;
    var v := Apply(cfg, w, s);
    if s.ScanStep? && w.file.Some? {
      var all := w.file.value + (s.answers.beforeRead + s.answers.afterRead);
      assert w.file.value + s.answers.beforeRead + s.answers.afterRead == all;
      assert v.file == Some(all) || (v.file == None && v.removed == w.removed + [all] && all in v.removed);
      PrefixFits(w.file.value, all);
    } else {
      PrefixFits(Content(w), Content(v));
    }
    assert forall g :: g in w.removed ==> g in v.removed;
  }

  lemma RemovalKeepsExact(cfg: Config, w: World, next: Cursor, a: Answers)
    requires Exact(w) && w.file.Some? && w.cursor == Some(next) && !a.clearFails
    ensures Exact(RemoveConsumed(cfg, w, next, a))
    ensures RemoveConsumed(cfg, w, next, a).file.None? ==> Tail(w.file.value) == []
  {
    hide Tail, Complete, LinesOf;
    if RemoveConsumed(cfg, w, next, a).file.None? {
      assert w.file.value[..|w.file.value|] == w.file.value;
      FlatSnoc(w.removed, w.file.value);
      NoFileNoLines();
      assert LinesOf(w.removed + [w.file.value]) + [] == LinesOf(w.removed + [w.file.value]);
    }
  }

  lemma ScanKeepsExact(cfg: Config, w: World, a: Answers)
    requires Exact(w) && Fits(Scan(cfg, w, a)) && !a.clearFails
    ensures Exact(Scan(cfg, w, a))
  {
    hide Exact, Tail, Complete, LinesOf, InsertLines, ReadChunk, RemoveConsumed;
    if w.file.Some? {
      FitsBefore(cfg, w, ScanStep(a));
      var read := w.file.value + a.beforeRead;
      var all := w.file.value + (a.beforeRead + a.afterRead);
      assert read + a.afterRead == all;
      var grown := w.(file := Some(all));
      ExactGrowth(w, a.beforeRead + a.afterRead);
      if !a.failsEarly {
        PrefixFits(read, all);
        ExactChunk(cfg, w, a.beforeRead);
        var c := ReadChunk(cfg, w.cursor, |w.file.value|, read);
        var r := InsertLines(cfg, a.failingInsert, w.stored, c.lines);
        assert all[..c.next.offset] == read[..c.next.offset];
        if c.data == [] {
          ExactCursor(grown, c.start.(fileSize := |w.file.value|), []);
        } else {
          ExactStored(grown, r.stored, w.parsed + r.parsed);
          var stored := grown.(stored := r.stored, parsed := w.parsed + r.parsed);
          ExactCursor(stored, c.next, c.lines);
          if r.ok && !a.saveFails {
            RemovalKeepsExact(cfg, stored.(cursor := Some(c.next), committed := w.committed + c.lines), c.next, a);
          }
        }
      }
    }
  }

  lemma ExactStored(w: World, stored: seq<EventKey>, parsed: seq<Bytes>)
    requires Exact(w)
    ensures Exact(w.(stored := stored, parsed := parsed))
  {
  }

  lemma ExactCursor(w: World, c: Cursor, lines: seq<Bytes>)
    requires Exact(w) && w.file.Some? && c.offset <= |w.file.value|
    requires c.partial == Tail(w.file.value[..c.offset])
    requires w.committed + lines == LinesOf(w.removed) + Complete(w.file.value[..c.offset])
    ensures Exact(w.(cursor := Some(c), committed := w.committed + lines))
    ensures lines == [] ==> Exact(w.(cursor := Some(c)))
  {
    hide Tail, Complete, LinesOf;
    assert lines == [] ==> w.committed + lines == w.committed;
  }

  ghost predicate ClearsSucceed(steps: seq<Step>) {
    forall s :: s in steps && s.ScanStep? ==> !s.answers.clearFails
  }

  lemma {:induction false} RunKeepsExact(cfg: Config, w: World, steps: seq<Step>)
    requires Exact(w) && ClearsSucceed(steps) && Fits(Run(cfg, w, steps))
    ensures Exact(Run(cfg, w, steps))
  {
    hide Tail, Complete, Scan, Fits, Exact;
    if steps != [] {
      var front, last := steps[..|steps| - 1], steps[|steps| - 1];
      assert last in steps && forall s :: s in front ==> s in steps;
      FitsBefore(cfg, Run(cfg, w, front), last);
      RunKeepsExact(cfg, w, front);
      match last
      case Append(data) => ExactGrowth(Run(cfg, w, front), data);
      case ScanStep(a) => ScanKeepsExact(cfg, Run(cfg, w, front), a);
    }
  }

  /** Over every interleaving of appends and scans, with any chunk size and with inserts,
      saves and removals failing anywhere, the committed lines stay exact. */
  lemma EveryRunIsExact(cfg: Config, w: World, steps: seq<Step>)
    requires w.cursor.None? && w.removed == [] && w.committed == []
    requires ClearsSucceed(steps) && Fits(Run(cfg, w, steps))
    ensures Exact(Run(cfg, w, steps))
  {
    StartIsExact(w);
    RunKeepsExact(cfg, w, steps);
  }

  lemma StartIsExact(w: World)
    requires w.cursor.None? && w.removed == [] && w.committed == []
    ensures Exact(w)
  {
    NoFileNoLines();
  }

  lemma {:induction false} LinesOfWholeFiles(files: seq<Bytes>, last: Bytes)
    requires forall g :: g in files ==> Tail(g) == []
    ensures Complete(Flat(files) + last) == LinesOf(files) + Complete(last)
    ensures Tail(Flat(files) + last) == Tail(last)
  {
    hide Tail, Complete;
    if files == [] {
      assert [] + last == last && [] + Complete(last) == Complete(last);
    } else {
      var front, f := files[..|files| - 1], files[|files| - 1];
      LinesOfWholeFiles(front, f);
      AppendLines(Flat(files), last);
      assert [] + last == last;
    }
  }

  /** Every line delivered once and in order: the committed lines are the first complete lines
      of everything ever written, whatever files it was written to; the carried partial line
      is exactly the unfinished tail; and when all is consumed nothing is missing and every
      valid line is stored. */
  lemma DeliveredOnceInOrder(cfg: Config, w: World, steps: seq<Step>)
    requires w.cursor.None? && w.removed == [] && w.committed == [] && w.parsed == [] && NoRepeats(w.stored)
    requires ClearsSucceed(steps) && Fits(Run(cfg, w, steps))
    ensures var v := Run(cfg, w, steps);
      && v.committed <= Complete(Log(v))
      && (v.cursor.Some? ==> v.cursor.value.partial == Tail(Flat(v.removed) + Consumed(v)))
      && (Consumed(v) == Content(v) ==>
            v.committed == Complete(Log(v)) && Join(v.committed) + Tail(Content(v)) == Log(v))
      && AllStored(cfg, v.committed, v.stored) && NoRepeats(v.stored)
      && StoredFrom(cfg, w.stored, v.stored, Complete(Log(v)))
  {
    hide Tail, Complete, LinesOf, Flat, Join, Run, Fits, StoredFrom, AllStored, NoRepeats;
    EveryRunIsExact(cfg, w, steps);
    EveryRunIsSafe(cfg, w, steps);
    var v := Run(cfg, w, steps);
    LinesOfWholeFiles(v.removed, Content(v));
    LinesOfWholeFiles(v.removed, Consumed(v));
    assert Content(v)[..|Consumed(v)|] == Consumed(v);
    PrefixLines(Content(v), |Consumed(v)|);
    JoinLines(Log(v));
  }

  /** A scan in which nothing fails moves the cursor on by a full chunk or to the end. */
  lemma ScanAdvances(cfg: Config, w: World, a: Answers)
    requires Exact(w) && w.file.Some? && Fits(Scan(cfg, w, a))
    requires !a.failsEarly && !a.saveFails && a.failingInsert.None? && !a.clearFails
    ensures var v := Scan(cfg, w, a);
      var rest := |w.file.value + a.beforeRead| - |Consumed(w)|;
      |Flat(v.removed) + Consumed(v)| ==
        |Flat(w.removed) + Consumed(w)| + if cfg.limit < rest then cfg.limit else rest
  {
    hide Tail, Complete, LinesOf, InsertLines, ReadChunk, Flat;
    FitsBefore(cfg, w, ScanStep(a));
    var read := w.file.value + a.beforeRead;
    var all := w.file.value + (a.beforeRead + a.afterRead);
    assert read + a.afterRead == all;
    PrefixFits(read, all);
    ExactChunk(cfg, w, a.beforeRead);
    ChunkLength(cfg, w.cursor, |w.file.value|, read);
    var c := ReadChunk(cfg, w.cursor, |w.file.value|, read);
    NoInsertFails(cfg, w.stored, c.lines);
    FlatSnoc(w.removed, all);
  }

  lemma ChunkLength(cfg: Config, saved: Option<Cursor>, size: nat, content: Bytes)
    requires size <= |content|
    ensures var c := ReadChunk(cfg, saved, size, content);
      var rest := |content| - c.start.offset;
      && c.start == Resume(Load(saved), size, content)
      && c.next.offset == c.start.offset + (if cfg.limit < rest then cfg.limit else rest)
      && |c.data| == c.next.offset - c.start.offset
  {
  }

  lemma {:induction false} NoInsertFails(cfg: Config, stored: seq<EventKey>, lines: seq<Bytes>)
    ensures InsertLines(cfg, None, stored, lines).ok
  {
    if lines != [] {
      NoInsertFails(cfg, stored, lines[..|lines| - 1]);
    }
  }

  // ---------- lines over the limit ----------

  /** A queue file is deleted with unfinished bytes in it exactly when they exceed the limit
      for a carried partial line. */
  lemma UnfinishedBytesDeletedExactly(cfg: Config, w: World, a: Answers)
    requires CursorSafe(w) && w.file.Some? && Scan(cfg, w, a).file.None?
    ensures var all := w.file.value + (a.beforeRead + a.afterRead);
      && Scan(cfg, w, a).removed == w.removed + [all]
      && (Tail(all) != [] <==> |Tail(all)| > MAX_PARTIAL)
  {
    hide Tail, Complete, InsertLines, ReadChunk;
    var read := w.file.value + a.beforeRead;
    var all := w.file.value + (a.beforeRead + a.afterRead);
    assert read + a.afterRead == all;
    ChunkContinues(cfg, w, a.beforeRead);
    assert all[..|read|] == read && all[..|all|] == all;
  }

  /** Then the rest of that line, written to the new file, is parsed as a line of its own. */
  lemma OversizedLineIsCut(cfg: Config, head: Bytes, rest: Bytes, a: Answers)
    requires IsQueueFile(cfg.name) && cfg.limit >= |head| > MAX_PARTIAL && cfg.limit > |rest|
    requires NL !in head && NL !in rest && cfg.classify(rest) != BlankLine
    requires a == Answers(false, [], [], None, false, false, false)
    ensures var w := World(Some(head), None, [], [], [], []);
      var v := Run(cfg, w, [ScanStep(a), Append(rest + [NL]), ScanStep(a)]);
      v.parsed == [rest] && Complete(Log(v)) == [head + rest]
  {
    hide Tail, Complete, IsQueueFile, Scan;
    var w := World(Some(head), None, [], [], [], []);
    CutHead(cfg, head, a);
    CutRest(cfg, head, rest, a);
    var scan, append := ScanStep(a), Append(rest + [NL]);
    assert [scan, append, scan][..2] == [scan, append] && [scan, append][..1] == [scan] && [scan][..0] == [];
    assert Run(cfg, w, [scan]) == World(None, None, [], [head], [], []);
    assert [] + (rest + [NL]) == rest + [NL];
    assert Run(cfg, w, [scan, append]) == World(Some(rest + [NL]), None, [], [head], [], []);
  }

  lemma CutHead(cfg: Config, head: Bytes, a: Answers)
    requires IsQueueFile(cfg.name) && cfg.limit >= |head| > MAX_PARTIAL && NL !in head
    requires a == Answers(false, [], [], None, false, false, false)
    ensures Scan(cfg, World(Some(head), None, [], [], [], []), a) == World(None, None, [], [head], [], [])
  {
    hide Tail, Complete, IsQueueFile;
    NewlineFree(head);
    assert head + [] == head && head[0..|head|] == head && [] + head == head;
  }

  lemma CutRest(cfg: Config, head: Bytes, rest: Bytes, a: Answers)
    requires IsQueueFile(cfg.name) && cfg.limit > |rest|
    requires NL !in head && NL !in rest && cfg.classify(rest) != BlankLine
    requires a == Answers(false, [], [], None, false, false, false)
    ensures var v := Scan(cfg, World(Some(rest + [NL]), None, [], [head], [], []), a);
      v.parsed == [rest] && Complete(Log(v)) == [head + rest]
  {
    hide Tail, Complete, IsQueueFile;
    var w := World(Some(rest + [NL]), None, [], [head], [], []);
    var line := rest + [NL];
    NoFileNoLines();
    AddLine([], rest);
    AddLine([], head + rest);
    assert line + [] == line && line[0..|line|] == line && [] + line == line && [] + rest + [NL] == line;
    assert [rest][..0] == [];
    assert InsertLines(cfg, None, [], [rest]).parsed == [rest];
    NothingIsErased(cfg, w, ScanStep(a));
    assert [head][..0] == [] && Flat([head]) == head;
    assert Log(w) == head + line;
    assert [] + (head + rest) + [NL] == head + line;
    assert Log(w) + ([] + []) == Log(w);
  }
}
