/** Runs of collection rounds over rollout files that grow, vanish and are replaced, with appends
    that fail (internal/agentusage/collector.go): what is read, what is passed over, and what is
    written exactly once. */
module CodexRounds {
  import opened Options
  import opened Lines
  import opened UsageEvents
  import opened CodexParser
  import opened CodexIncremental
  import opened Collector
  import opened CodexCollection

  // ---------- runs, and notes about them ----------

  /** The files and the sources of one round. */
  datatype DayRound = DayRound(disk: Disk, sources: seq<CodexSource>)

  const NOTHING := ParserStates(map[], map[], map[])

  function RunRounds(rollouts: Rollouts, m: Memory, rounds: seq<DayRound>): Memory {
    if rounds == [] then m
    else
      var last := rounds[|rounds| - 1];
      Round(RunRounds(rollouts, m, rounds[..|rounds| - 1]), CodexSteps(rollouts, last.disk, last.sources)).0
  }

  /** Notes about a run, which the collector does not keep: each file as it was last read, and the
      files whose recorded stat was last written without reading them. */
  datatype Notes = Notes(read: map<string, DiskFile>, skipped: set<string>)

  const NO_NOTES := Notes(map[], {})

  function NotePass(disk: Disk, p: Pass, n: Notes): Notes
    requires p.Pass?
  {
    Notes(n.read + (map q | q in p.nextCodex && q in disk :: disk[q]),
          n.skipped + (p.nextFiles.Keys - p.nextCodex.Keys) - p.nextCodex.Keys)
  }

  /** A pass that fails, or whose append fails, leaves no notes, as it leaves no states. */
  function NoteSource(rollouts: Rollouts, disk: Disk, s: CodexSource, m: Memory, n: Notes): Notes {
    var p := VisitPaths(rollouts, disk, s, m.initialized, m.states, s.paths);
    if p.Broken? || (FreshLines(m.seen, p.events) != [] && !s.appendSucceeds) then n else NotePass(disk, p, n)
  }

  function NoteRound(rollouts: Rollouts, disk: Disk, sources: seq<CodexSource>, m: Memory, n: Notes): Notes
    decreases |sources|
  {
    if sources == [] then n
    else
      var next := NoteSource(rollouts, disk, sources[0], m, n);
      var (m', goesOn) := SourceOnce(m, CodexStep(rollouts, disk, sources[0]));
      if goesOn then NoteRound(rollouts, disk, sources[1..], m', next) else next
  }

  function NotesOf(rollouts: Rollouts, m: Memory, rounds: seq<DayRound>): Notes {
    if rounds == [] then NO_NOTES
    else
      var front, last := rounds[..|rounds| - 1], rounds[|rounds| - 1];
      NoteRound(rollouts, last.disk, last.sources, RunRounds(rollouts, m, front), NotesOf(rollouts, m, front))
  }

  /** A source passes over a file when no round has completed yet, no history is wanted and the
      file has not changed recently. */
  predicate PassedOver(s: CodexSource, initialized: bool, path: string) {
    !initialized && !s.backfill && !s.recent(path)
  }

  // ---------- how files may change ----------

  /** A later file under the same path: a changed file has another size, time or identity, and
      one that is not an extension is another file, is shorter, or differs in the checkpointed
      bytes. */
  predicate Follows(f: DiskFile, g: DiskFile) {
    && (StatOf(f) == StatOf(g) ==> f.file == g.file)
    && (f.file.id == g.file.id && |f.file.content| <= |g.file.content|
        && Checkpoint(f.file.content, |f.file.content|) == Checkpoint(g.file.content, |f.file.content|) ==>
          f.file.content <= g.file.content)
  }

  ghost predicate Plausible(rounds: seq<DayRound>) {
    forall i, j, p :: 0 <= i < j < |rounds| && p in rounds[i].disk && p in rounds[j].disk ==>
      Follows(rounds[i].disk[p], rounds[j].disk[p])
  }

  ghost predicate KnownDisk(n: Notes, disk: Disk) {
    forall p :: p in n.read && p in disk ==> Follows(n.read[p], disk[p])
  }

  // ---------- the invariant ----------

  /** Every saved state describes its file as it was last read. */
  ghost predicate Tracked(rollouts: Rollouts, codex: map<string, State>, n: Notes) {
    forall p :: p in codex ==>
      && p in n.read && Acceptable(rollouts(p), n.read[p].file.content)
      && codex[p] == Summary(rollouts(p), n.read[p].file)
  }

  /** Every writable event of a file as it was last read has a known key. */
  ghost predicate Covers(rollouts: Rollouts, n: Notes, seen: set<EventKey>) {
    forall p, e :: p in n.read && e in Dedup(AllEvents(rollouts(p), n.read[p].file.content)) && Writable(e) ==>
      DedupeKey(e) in seen
  }

  /** A recorded stat is that of the file as it was last read, unless reading it was skipped. */
  ghost predicate Recorded(st: ParserStates, n: Notes) {
    forall p :: p in st.files && p !in n.skipped ==>
      p in st.codex && p in n.read && st.files[p] == StatOf(n.read[p])
  }

  ghost predicate Faithful(rollouts: Rollouts, m: Memory, n: Notes) {
    Tracked(rollouts, m.states.codex, n) && Covers(rollouts, n, m.seen) && Recorded(m.states, n)
  }

  // ---------- one file ----------

  lemma RestartParses(src: Rollout, file: File, state: State)
    requires state.fileId.Some? && MustReset(file, state)
    ensures Parse(src, file, state, false) == Parse(src, file, INITIAL, false)
  {
  }

  lemma SummaryResets(src: Rollout, before: File, after: File)
    ensures Summary(src, before).fileId.Some?
    ensures !MustReset(after, Summary(src, before)) ==>
      && after.id == before.id && |before.content| <= |after.content|
      && Checkpoint(before.content, |before.content|) == Checkpoint(after.content, |before.content|)
  {
    if before.content == [] {
      assert after.content[0..0] == before.content[0..0];
    }
  }

  /** Whatever the whole file adds to what was read of it before is among the events. */
  ghost predicate NewIn(rollouts: Rollouts, disk: Disk, n: Notes, q: string, events: seq<UsageEvent>)
    requires q in disk
  {
    forall e :: e in Dedup(AllEvents(rollouts(q), disk[q].file.content)) ==>
      (q in n.read && e in Dedup(AllEvents(rollouts(q), n.read[q].file.content))) || e in events
  }

  ghost predicate ReadWhole(rollouts: Rollouts, disk: Disk, q: string, next: State)
    requires q in disk
  {
    Acceptable(rollouts(q), disk[q].file.content) && next == Summary(rollouts(q), disk[q].file)
  }

  lemma {:induction false} DedupParts(a: seq<UsageEvent>, b: seq<UsageEvent>)
    ensures forall e :: e in Dedup(a + b) ==> e in Dedup(a) || e in Dedup(b)
  {
    hide Dedup, RepeatKeys;
    if b == [] {
      assert a + b == a;
    } else {
      var front, last := b[..|b| - 1], b[|b| - 1];
      DedupParts(a, front);
      assert b == front + [last] && a + b == a + front + [last];
      DedupSnoc(front, last);
      DedupSnoc(a + front, last);
      KeysConcat(a, front);
    }
  }

  /** Reading one file, which may have been replaced since it was last read. */
  lemma ReadOne(rollouts: Rollouts, disk: Disk, codex: map<string, State>, n: Notes, q: string)
    requires q in disk && Tracked(rollouts, codex, n) && KnownDisk(n, disk)
    ensures Parse(rollouts(q), disk[q].file, SavedState(codex, q), false).Ok? <==>
            Acceptable(rollouts(q), disk[q].file.content)
    ensures Acceptable(rollouts(q), disk[q].file.content) ==>
      var (events, next) := Parse(rollouts(q), disk[q].file, SavedState(codex, q), false).value;
      && ReadWhole(rollouts, disk, q, next)
      && (forall e :: e in events ==> e in AllEvents(rollouts(q), disk[q].file.content))
      && NewIn(rollouts, disk, n, q, events)
  {
    hide Parse, Dedup, AllEvents, Acceptable, Summary, MustReset;
    var src, file := rollouts(q), disk[q].file;
    OnePass(src, file);
    DedupKeys(AllEvents(src, file.content));
    if q in codex {
      var before := n.read[q].file;
      SummaryResets(src, before, file);
      if MustReset(file, codex[q]) {
        RestartParses(src, file, codex[q]);
      } else {
        assert Follows(n.read[q], disk[q]);
        assert before == File(file.id, before.content);
        ResumeReadsRest(src, file, before.content);
        if Acceptable(src, file.content) {
          var added :| AllEvents(src, file.content) == AllEvents(src, before.content) + added
            && Parse(src, file, Summary(src, File(file.id, before.content)), false) == Ok((Dedup(added), Summary(src, file)));
          DedupParts(AllEvents(src, before.content), added);
          DedupKeys(added);
        }
      }
    }
  }

  // ---------- one pass ----------

  /** Forgetting takes away states of vanished files only, and a file's stat only with its state. */
  ghost predicate KeepsStates(disk: Disk, before: ParserStates, after: ParserStates) {
    && (forall q :: q in after.codex ==> q in before.codex && after.codex[q] == before.codex[q])
    && (forall q :: q in before.codex && q in disk ==> q in after.codex)
    && (forall q :: q in after.files ==>
          q in before.files && after.files[q] == before.files[q] && (q in before.codex ==> q in after.codex))
    && (forall q :: q in before.files && q in disk ==> q in after.files)
  }

  ghost predicate PassKeeps(rollouts: Rollouts, disk: Disk, s: CodexSource, initialized: bool, st: ParserStates,
                            n: Notes, p: Pass) {
    && KeepsStates(disk, st, p.states)
    && (p.Pass? ==>
      && (forall q :: q in p.nextFiles ==> q in disk && p.nextFiles[q] == StatOf(disk[q]))
      && (forall q :: q in p.nextFiles && q !in p.nextCodex ==> PassedOver(s, initialized, q))
      && (forall q :: q in p.nextCodex ==> q in p.nextFiles && q in disk && ReadWhole(rollouts, disk, q, p.nextCodex[q]))
      && (forall q :: q in p.nextCodex ==> NewIn(rollouts, disk, n, q, p.events))
      && (forall e :: e in p.events ==>
            exists q :: q in disk && e in AllEvents(rollouts(q), disk[q].file.content)))
  }

  lemma PassGrows(rollouts: Rollouts, disk: Disk, s: CodexSource, initialized: bool, st: ParserStates, n: Notes,
                  p: Pass, path: string, events: seq<UsageEvent>, next: State)
    requires PassKeeps(rollouts, disk, s, initialized, st, n, p) && p.Pass? && path in disk
    requires ReadWhole(rollouts, disk, path, next)
    requires forall e :: e in events ==> e in AllEvents(rollouts(path), disk[path].file.content)
    requires NewIn(rollouts, disk, n, path, events)
    ensures PassKeeps(rollouts, disk, s, initialized, st, n,
                      Pass(p.states, p.events + events, p.nextFiles[path := StatOf(disk[path])], p.nextCodex[path := next]))
  {
    hide Dedup, AllEvents, ReadWhole, KeepsStates, PassedOver;
    var nextCodex, all := p.nextCodex[path := next], p.events + events;
    forall q | q in nextCodex
      ensures q in disk && NewIn(rollouts, disk, n, q, all)
    {
      if q in p.nextCodex {
        assert NewIn(rollouts, disk, n, q, p.events);
      }
    }
    hide NewIn;
    assert forall e :: e in all ==> e in p.events || e in events;
  }

  lemma VisitKeeps(rollouts: Rollouts, disk: Disk, s: CodexSource, initialized: bool, st: ParserStates, n: Notes,
                   p: Pass, path: string)
    requires Tracked(rollouts, st.codex, n) && KnownDisk(n, disk)
    requires PassKeeps(rollouts, disk, s, initialized, st, n, p)
    ensures PassKeeps(rollouts, disk, s, initialized, st, n, VisitPath(rollouts, disk, s, initialized, p, path))
  {
    hide Parse, Dedup, AllEvents, ReadWhole, Acceptable, NewIn, Tracked, KnownDisk;
    if p.Pass? && path in disk {
      ReadOne(rollouts, disk, st.codex, n, path);
      assert SavedState(p.states.codex, path) == SavedState(st.codex, path);
      var parsed := Parse(rollouts(path), disk[path].file, SavedState(st.codex, path), false);
      if parsed.Ok? {
        PassGrows(rollouts, disk, s, initialized, st, n, p, path, parsed.value.0, parsed.value.1);
      }
    }
  }

  /** A pass fails only at a file that it reads and that is not acceptable. */
  ghost predicate Parsable(rollouts: Rollouts, disk: Disk, s: CodexSource, initialized: bool) {
    forall q :: q in s.paths && q in disk ==>
      Acceptable(rollouts(q), disk[q].file.content) || PassedOver(s, initialized, q)
  }

  /** After a pass each listed file is read, was passed over, or has its recorded stat. */
  lemma {:induction false} PassReads(rollouts: Rollouts, disk: Disk, s: CodexSource, initialized: bool,
                                     st: ParserStates, n: Notes, paths: seq<string>)
    requires Tracked(rollouts, st.codex, n) && KnownDisk(n, disk)
    ensures var p := VisitPaths(rollouts, disk, s, initialized, st, paths);
      && PassKeeps(rollouts, disk, s, initialized, st, n, p)
      && (p.Pass? ==> forall q :: q in paths && q in disk ==>
            q in p.nextFiles || (q in st.files && st.files[q] == StatOf(disk[q])))
      && (p.Pass? ==> forall q :: q in p.nextFiles ==> q in paths)
      && ((forall q :: q in paths && q in disk ==>
             Acceptable(rollouts(q), disk[q].file.content) || PassedOver(s, initialized, q)) ==> p.Pass?)
  {
    hide Parse, Dedup, AllEvents, ReadWhole, Acceptable, Tracked, NewIn, KnownDisk;
    if paths != [] {
      var front, path := paths[..|paths| - 1], paths[|paths| - 1];
      assert paths == front + [path];
      PassReads(rollouts, disk, s, initialized, st, n, front);
      var p := VisitPaths(rollouts, disk, s, initialized, st, front);
      VisitKeeps(rollouts, disk, s, initialized, st, n, p, path);
      if path in disk {
        ReadOne(rollouts, disk, st.codex, n, path);
        assert p.Pass? ==> SavedState(p.states.codex, path) == SavedState(st.codex, path);
      }
    }
  }

  // ---------- one source ----------

  /** The merged states after a pass that was not broken. */
  function Merged(p: Pass): ParserStates
    requires p.Pass?
  {
    ParserStates(p.states.files + p.nextFiles, p.states.codex + p.nextCodex, p.states.antigravity)
  }

  lemma MergeTracks(rollouts: Rollouts, disk: Disk, s: CodexSource, initialized: bool, st: ParserStates, n: Notes, p: Pass)
    requires Tracked(rollouts, st.codex, n)
    requires PassKeeps(rollouts, disk, s, initialized, st, n, p) && p.Pass?
    ensures Tracked(rollouts, Merged(p).codex, NotePass(disk, p, n))
  {
    hide Acceptable, Summary, NewIn, AllEvents, Dedup, PassedOver, StatOf;
    var n' := NotePass(disk, p, n);
    forall q | q in Merged(p).codex
      ensures q in n'.read && Acceptable(rollouts(q), n'.read[q].file.content)
      ensures Merged(p).codex[q] == Summary(rollouts(q), n'.read[q].file)
    {
      if q in p.nextCodex {
        assert ReadWhole(rollouts, disk, q, p.nextCodex[q]);
      } else {
        assert q in st.codex;
      }
    }
  }

  lemma MergeRecords(rollouts: Rollouts, disk: Disk, s: CodexSource, initialized: bool, st: ParserStates, n: Notes, p: Pass)
    requires Recorded(st, n)
    requires PassKeeps(rollouts, disk, s, initialized, st, n, p) && p.Pass?
    ensures Recorded(Merged(p), NotePass(disk, p, n))
  {
    hide ReadWhole, NewIn, AllEvents, PassedOver, StatOf;
    var n', st' := NotePass(disk, p, n), Merged(p);
    forall q | q in st'.files && q !in n'.skipped
      ensures q in st'.codex && q in n'.read && st'.files[q] == StatOf(n'.read[q])
    {
      if q !in p.nextCodex {
        assert q !in p.nextFiles && q in st.files;
      }
    }
  }

  lemma MergeCovers(rollouts: Rollouts, disk: Disk, s: CodexSource, initialized: bool, st: ParserStates, n: Notes, p: Pass,
                    seen: set<EventKey>)
    requires Covers(rollouts, n, seen)
    requires PassKeeps(rollouts, disk, s, initialized, st, n, p) && p.Pass?
    ensures Covers(rollouts, NotePass(disk, p, n), seen + KeysOf(FreshLines(seen, p.events)))
  {
    hide Dedup, AllEvents, FreshLines, ReadWhole, KeepsStates, PassedOver;
    FreshLinesAreNew(seen, p.events);
    var n' := NotePass(disk, p, n);
    forall q, e | q in n'.read && e in Dedup(AllEvents(rollouts(q), n'.read[q].file.content)) && Writable(e)
      ensures DedupeKey(e) in seen + KeysOf(FreshLines(seen, p.events))
    {
      if q in p.nextCodex {
        assert NewIn(rollouts, disk, n, q, p.events);
      }
    }
  }

  lemma NothingFresh(m: Memory)
    ensures m.seen + KeysOf([]) == m.seen && m.queue + [] == m.queue
  {
  }

  lemma BrokenKeeps(rollouts: Rollouts, disk: Disk, m: Memory, n: Notes, states: ParserStates)
    requires Faithful(rollouts, m, n) && KeepsStates(disk, m.states, states)
    ensures Faithful(rollouts, m.(states := states), n)
  {
    hide Acceptable, Summary, Dedup, AllEvents;
  }

  lemma PassKeepsDisk(disk: Disk, p: Pass, n: Notes)
    requires KnownDisk(n, disk) && p.Pass?
    ensures KnownDisk(NotePass(disk, p, n), disk)
  {
    forall q | q in NotePass(disk, p, n).read && q in disk
      ensures Follows(NotePass(disk, p, n).read[q], disk[q])
    {
    }
  }

  lemma SourceKeeps(rollouts: Rollouts, disk: Disk, s: CodexSource, m: Memory, n: Notes)
    requires Faithful(rollouts, m, n) && KnownDisk(n, disk)
    ensures Faithful(rollouts, SourceOnce(m, CodexStep(rollouts, disk, s)).0, NoteSource(rollouts, disk, s, m, n))
    ensures KnownDisk(NoteSource(rollouts, disk, s, m, n), disk)
  {
    hide Tracked, Covers, Recorded, PassKeeps, FreshLines, VisitPaths, KeysOf, KeepsStates, KnownDisk, NotePass;
    var p := VisitPaths(rollouts, disk, s, m.initialized, m.states, s.paths);
    PassReads(rollouts, disk, s, m.initialized, m.states, n, s.paths);
    if p.Pass? {
      MergeTracks(rollouts, disk, s, m.initialized, m.states, n, p);
      MergeRecords(rollouts, disk, s, m.initialized, m.states, n, p);
      MergeCovers(rollouts, disk, s, m.initialized, m.states, n, p, m.seen);
      PassKeepsDisk(disk, p, n);
      NothingFresh(m);
    } else {
      StatesKept(rollouts, disk, s, m.initialized, m.states, n, p);
      BrokenKeeps(rollouts, disk, m, n, p.states);
    }
  }

  lemma StatesKept(rollouts: Rollouts, disk: Disk, s: CodexSource, initialized: bool, st: ParserStates, n: Notes, p: Pass)
    requires PassKeeps(rollouts, disk, s, initialized, st, n, p)
    ensures KeepsStates(disk, st, p.states)
  {
  }

  /** The listed files were read as they are, or reading them was skipped. */
  ghost predicate Settled(disk: Disk, codex: map<string, State>, n: Notes, paths: seq<string>) {
    forall q :: q in paths && q in disk ==>
      q in n.skipped || (q in codex && q in n.read && n.read[q].file == disk[q].file)
  }

  /** A source that goes on has settled all its files, unless it failed at one of them. */
  lemma SourceSettles(rollouts: Rollouts, disk: Disk, s: CodexSource, m: Memory, n: Notes)
    requires Faithful(rollouts, m, n) && KnownDisk(n, disk)
    requires SourceOnce(m, CodexStep(rollouts, disk, s)).1 && Parsable(rollouts, disk, s, m.initialized)
    ensures Settled(disk, SourceOnce(m, CodexStep(rollouts, disk, s)).0.states.codex,
                    NoteSource(rollouts, disk, s, m, n), s.paths)
  {
    hide Acceptable, Summary, FreshLines, VisitPaths, Dedup, AllEvents, NewIn, ReadWhole, Checkpoint;
    var p := VisitPaths(rollouts, disk, s, m.initialized, m.states, s.paths);
    PassReads(rollouts, disk, s, m.initialized, m.states, n, s.paths);
    var n' := NotePass(disk, p, n);
    forall q | q in s.paths && q in disk
      ensures q in n'.skipped || (q in Merged(p).codex && q in n'.read && n'.read[q].file == disk[q].file)
    {
      if q !in p.nextFiles && q !in n.skipped {
        assert Follows(n.read[q], disk[q]);
      }
    }
  }

  /** What is settled stays so while the disk does not change. */
  lemma SourceKeepsSettled(rollouts: Rollouts, disk: Disk, s: CodexSource, m: Memory, n: Notes, paths: seq<string>)
    requires Faithful(rollouts, m, n) && KnownDisk(n, disk) && Settled(disk, m.states.codex, n, paths)
    ensures Settled(disk, SourceOnce(m, CodexStep(rollouts, disk, s)).0.states.codex,
                    NoteSource(rollouts, disk, s, m, n), paths)
  {
    hide Acceptable, Summary, FreshLines, VisitPaths, Dedup, AllEvents, NewIn, ReadWhole, Checkpoint;
    PassReads(rollouts, disk, s, m.initialized, m.states, n, s.paths);
  }

  // ---------- rounds ----------

  lemma InitializedStays(rollouts: Rollouts, disk: Disk, s: CodexSource, m: Memory)
    ensures SourceOnce(m, CodexStep(rollouts, disk, s)).0.initialized == m.initialized
  {
  }

  lemma InitializedIsFree(rollouts: Rollouts, m: Memory, n: Notes)
    requires Faithful(rollouts, m, n)
    ensures Faithful(rollouts, m.(initialized := true), n)
  {
  }

  lemma {:induction false} RoundKeeps(rollouts: Rollouts, disk: Disk, sources: seq<CodexSource>, m: Memory, n: Notes)
    requires Faithful(rollouts, m, n) && KnownDisk(n, disk)
    ensures Faithful(rollouts, Round(m, CodexSteps(rollouts, disk, sources)).0, NoteRound(rollouts, disk, sources, m, n))
    ensures KnownDisk(NoteRound(rollouts, disk, sources, m, n), disk)
    ensures Round(m, CodexSteps(rollouts, disk, sources)).1 ==>
      forall i :: 0 <= i < |sources| && Parsable(rollouts, disk, sources[i], m.initialized) ==>
        Settled(disk, Round(m, CodexSteps(rollouts, disk, sources)).0.states.codex,
                NoteRound(rollouts, disk, sources, m, n), sources[i].paths)
    decreases |sources|
  {
    hide Faithful, SourceOnce, NoteSource, Settled, Parsable, KnownDisk;
    if sources == [] {
      InitializedIsFree(rollouts, m, n);
    } else {
      var s, rest := sources[0], sources[1..];
      var steps := CodexSteps(rollouts, disk, sources);
      SourceKeeps(rollouts, disk, s, m, n);
      InitializedStays(rollouts, disk, s, m);
      var (next, goesOn) := SourceOnce(m, steps[0]);
      var n' := NoteSource(rollouts, disk, s, m, n);
      assert steps[1..] == CodexSteps(rollouts, disk, rest);
      if goesOn {
        RoundKeeps(rollouts, disk, rest, next, n');
        assert forall i :: 0 <= i < |rest| ==> rest[i] == sources[i + 1];
        if Parsable(rollouts, disk, s, m.initialized) {
          SourceSettles(rollouts, disk, s, m, n);
          RoundKeepsSettled(rollouts, disk, rest, next, n', s.paths);
        }
      }
    }
  }

  lemma {:induction false} RoundKeepsSettled(rollouts: Rollouts, disk: Disk, sources: seq<CodexSource>, m: Memory,
                                             n: Notes, paths: seq<string>)
    requires Faithful(rollouts, m, n) && KnownDisk(n, disk) && Settled(disk, m.states.codex, n, paths)
    ensures Settled(disk, Round(m, CodexSteps(rollouts, disk, sources)).0.states.codex,
                    NoteRound(rollouts, disk, sources, m, n), paths)
    decreases |sources|
  {
    hide Faithful, SourceOnce, NoteSource, Settled, KnownDisk;
    if sources != [] {
      var s, rest := sources[0], sources[1..];
      SourceKeeps(rollouts, disk, s, m, n);
      SourceKeepsSettled(rollouts, disk, s, m, n, paths);
      assert CodexSteps(rollouts, disk, sources)[1..] == CodexSteps(rollouts, disk, rest);
      var (next, goesOn) := SourceOnce(m, CodexStep(rollouts, disk, s));
      if goesOn {
        RoundKeepsSettled(rollouts, disk, rest, next, NoteSource(rollouts, disk, s, m, n), paths);
      }
    }
  }

  // ---------- where the written lines come from ----------

  ghost predicate EventOn(rollouts: Rollouts, disk: Disk, e: UsageEvent) {
    exists q :: q in disk && e in AllEvents(rollouts(q), disk[q].file.content)
  }

  lemma SourceWrites(rollouts: Rollouts, disk: Disk, s: CodexSource, m: Memory, n: Notes)
    requires Faithful(rollouts, m, n) && KnownDisk(n, disk)
    ensures forall e :: e in SourceOnce(m, CodexStep(rollouts, disk, s)).0.queue ==> e in m.queue || EventOn(rollouts, disk, e)
  {
    hide VisitPaths, Dedup, AllEvents, NewIn, ReadWhole, KeepsStates, PassedOver, Tracked, Covers, Recorded, KnownDisk;
    var p := VisitPaths(rollouts, disk, s, m.initialized, m.states, s.paths);
    PassReads(rollouts, disk, s, m.initialized, m.states, n, s.paths);
    if p.Pass? {
      FreshLinesAreNew(m.seen, p.events);
      assert forall e :: e in m.queue + FreshLines(m.seen, p.events) ==> e in m.queue || e in p.events;
    }
  }

  lemma {:induction false} RoundWrites(rollouts: Rollouts, disk: Disk, sources: seq<CodexSource>, m: Memory, n: Notes)
    requires Faithful(rollouts, m, n) && KnownDisk(n, disk)
    ensures forall e :: e in Round(m, CodexSteps(rollouts, disk, sources)).0.queue ==> e in m.queue || EventOn(rollouts, disk, e)
    decreases |sources|
  {
    hide Faithful, SourceOnce, NoteSource, KnownDisk, EventOn;
    if sources != [] {
      var s, rest := sources[0], sources[1..];
      SourceKeeps(rollouts, disk, s, m, n);
      SourceWrites(rollouts, disk, s, m, n);
      assert CodexSteps(rollouts, disk, sources)[1..] == CodexSteps(rollouts, disk, rest);
      var (next, goesOn) := SourceOnce(m, CodexStep(rollouts, disk, s));
      if goesOn {
        RoundWrites(rollouts, disk, rest, next, NoteSource(rollouts, disk, s, m, n));
      }
    }
  }

  // ---------- runs ----------

  /** What was read are files of the run. */
  ghost predicate FromRun(rounds: seq<DayRound>, n: Notes) {
    forall p :: p in n.read ==> exists i :: 0 <= i < |rounds| && p in rounds[i].disk && rounds[i].disk[p] == n.read[p]
  }

  lemma {:induction false} NotesFromDisk(rollouts: Rollouts, disk: Disk, sources: seq<CodexSource>, m: Memory, n: Notes)
    ensures var n' := NoteRound(rollouts, disk, sources, m, n);
      forall p :: p in n'.read ==> (p in n.read && n'.read[p] == n.read[p]) || (p in disk && n'.read[p] == disk[p])
    decreases |sources|
  {
    hide VisitPaths, SourceOnce, FreshLines;
    if sources != [] {
      var n' := NoteSource(rollouts, disk, sources[0], m, n);
      var (next, goesOn) := SourceOnce(m, CodexStep(rollouts, disk, sources[0]));
      if goesOn {
        NotesFromDisk(rollouts, disk, sources[1..], next, n');
      }
    }
  }

  lemma RunKnowsDisk(rounds: seq<DayRound>, n: Notes)
    requires rounds != [] && Plausible(rounds) && FromRun(rounds[..|rounds| - 1], n)
    ensures KnownDisk(n, rounds[|rounds| - 1].disk)
  {
    hide Follows;
    var front, last := rounds[..|rounds| - 1], rounds[|rounds| - 1];
    forall p | p in n.read && p in last.disk
      ensures Follows(n.read[p], last.disk[p])
    {
      var i :| 0 <= i < |front| && p in front[i].disk && front[i].disk[p] == n.read[p];
      assert rounds[i] == front[i];
    }
  }

  ghost predicate EventOfRun(rollouts: Rollouts, rounds: seq<DayRound>, e: UsageEvent) {
    exists i :: 0 <= i < |rounds| && EventOn(rollouts, rounds[i].disk, e)
  }

  function Start(seen: set<EventKey>): Memory {
    Memory(seen, NOTHING, false, [])
  }

  /** Over every run, whatever is appended, replaced, deleted or fails. */
  lemma {:induction false} RunKeepsFaithful(rollouts: Rollouts, seen: set<EventKey>, rounds: seq<DayRound>)
    requires Plausible(rounds)
    ensures var m, n := RunRounds(rollouts, Start(seen), rounds), NotesOf(rollouts, Start(seen), rounds);
      && Faithful(rollouts, m, n) && FromRun(rounds, n) && Consistent(seen, m)
      && (rounds != [] ==> KnownDisk(n, rounds[|rounds| - 1].disk))
      && forall e :: e in m.queue ==> EventOfRun(rollouts, rounds, e)
  {
    hide Faithful, Round, NoteRound, KnownDisk, EventOn;
    if rounds == [] {
      assert KeysOf([]) == {};
      StartIsFaithful(rollouts, seen);
    } else {
      var front, last := rounds[..|rounds| - 1], rounds[|rounds| - 1];
      RunKeepsFaithful(rollouts, seen, front);
      var m, n := RunRounds(rollouts, Start(seen), front), NotesOf(rollouts, Start(seen), front);
      RunKnowsDisk(rounds, n);
      RoundKeeps(rollouts, last.disk, last.sources, m, n);
      RoundWrites(rollouts, last.disk, last.sources, m, n);
      RoundKeepsConsistent(seen, m, CodexSteps(rollouts, last.disk, last.sources));
      NotesFromDisk(rollouts, last.disk, last.sources, m, n);
      StillFromRun(rounds, n, NoteRound(rollouts, last.disk, last.sources, m, n));
      forall e | e in RunRounds(rollouts, Start(seen), rounds).queue
        ensures EventOfRun(rollouts, rounds, e)
      {
        if e in m.queue {
          var i :| 0 <= i < |front| && EventOn(rollouts, front[i].disk, e);
          assert rounds[i] == front[i];
        }
      }
    }
  }

  lemma StillFromRun(rounds: seq<DayRound>, n: Notes, n': Notes)
    requires rounds != [] && FromRun(rounds[..|rounds| - 1], n)
    requires var disk := rounds[|rounds| - 1].disk;
      forall p :: p in n'.read ==> (p in n.read && n'.read[p] == n.read[p]) || (p in disk && n'.read[p] == disk[p])
    ensures FromRun(rounds, n')
  {
    var front := rounds[..|rounds| - 1];
    forall p | p in n'.read
      ensures exists i :: 0 <= i < |rounds| && p in rounds[i].disk && rounds[i].disk[p] == n'.read[p]
    {
      if p in n.read && n'.read[p] == n.read[p] {
        var i :| 0 <= i < |front| && p in front[i].disk && front[i].disk[p] == n.read[p];
        assert rounds[i] == front[i];
      }
    }
  }

  lemma StartIsFaithful(rollouts: Rollouts, seen: set<EventKey>)
    ensures Faithful(rollouts, Start(seen), NO_NOTES)
  {
  }

  // ---------- exactly once ----------

  /** The part of a file that its saved state covers. */
  function ReadPart(disk: Disk, codex: map<string, State>, p: string): Bytes
    requires p in disk
  {
    if p in codex && !MustReset(disk[p].file, codex[p]) && codex[p].offset <= |disk[p].file.content|
    then disk[p].file.content[..codex[p].offset] else []
  }

  /** Every writable event that one pass over the file yields has a known key. */
  ghost predicate AllKnown(src: Rollout, content: Bytes, known: set<EventKey>) {
    forall e :: e in Dedup(AllEvents(src, content)) && Writable(e) ==> DedupeKey(e) in known
  }

  /** What the file holds beyond the part that was read yields no new writable key. */
  ghost predicate NothingNewUnread(src: Rollout, content: Bytes, part: Bytes, known: set<EventKey>) {
    forall e :: e in Dedup(AllEvents(src, content)) && e !in Dedup(AllEvents(src, part)) && Writable(e) ==>
      DedupeKey(e) in known
  }

  lemma PartIsRead(rollouts: Rollouts, m: Memory, n: Notes, disk: Disk, p: string)
    requires Faithful(rollouts, m, n) && KnownDisk(n, disk) && p in disk
    ensures var part := ReadPart(disk, m.states.codex, p);
      part == [] || (p in n.read && part == n.read[p].file.content)
  {
    hide Acceptable, MustReset, Dedup, AllEvents;
    if p in m.states.codex {
      SummaryResets(rollouts(p), n.read[p].file, disk[p].file);
      assert Follows(n.read[p], disk[p]);
    }
  }

  lemma NothingInNothing(src: Rollout)
    ensures Dedup(AllEvents(src, [])) == []
  {
  }

  /** If reading a file was not skipped it was read as it is; and all its events are known if and
      only if reading it was not skipped, or what is unread of it yields no new key. */
  ghost predicate Accounted(rollouts: Rollouts, disk: Disk, codex: map<string, State>, n: Notes, p: string,
                            known: set<EventKey>) {
    p in disk ==>
      var src, content := rollouts(p), disk[p].file.content;
      && (p !in n.skipped ==> p in n.read && n.read[p].file == disk[p].file)
      && (AllKnown(src, content, known) <==>
            (p !in n.skipped || NothingNewUnread(src, content, ReadPart(disk, codex, p), known)))
  }

  lemma KnownExactly(rollouts: Rollouts, m: Memory, n: Notes, disk: Disk, paths: seq<string>)
    requires Faithful(rollouts, m, n) && KnownDisk(n, disk) && Settled(disk, m.states.codex, n, paths)
    ensures forall p :: p in paths ==> Accounted(rollouts, disk, m.states.codex, n, p, m.seen)
  {
    hide Dedup, AllEvents, Acceptable, Summary, MustReset, ReadPart;
    forall p | p in paths && p in disk
      ensures Accounted(rollouts, disk, m.states.codex, n, p, m.seen)
    {
      PartIsRead(rollouts, m, n, disk, p);
      NothingInNothing(rollouts(p));
    }
  }

  /** So is every listed file of every source that could parse its files. */
  ghost predicate AllAccounted(rollouts: Rollouts, last: DayRound, initialized: bool, codex: map<string, State>, n: Notes,
                               known: set<EventKey>) {
    forall i, p :: 0 <= i < |last.sources| && Parsable(rollouts, last.disk, last.sources[i], initialized)
                   && p in last.sources[i].paths ==>
      Accounted(rollouts, last.disk, codex, n, p, known)
  }

  lemma RoundAccounts(rollouts: Rollouts, last: DayRound, m: Memory, n: Notes)
    requires Faithful(rollouts, m, n) && KnownDisk(n, last.disk)
    ensures var (m', ok) := Round(m, CodexSteps(rollouts, last.disk, last.sources));
      ok ==> AllAccounted(rollouts, last, m.initialized, m'.states.codex,
                          NoteRound(rollouts, last.disk, last.sources, m, n), m'.seen)
  {
    hide Round, NoteRound, Faithful, KnownDisk, Accounted, Parsable;
    RoundKeeps(rollouts, last.disk, last.sources, m, n);
    var (m', ok) := Round(m, CodexSteps(rollouts, last.disk, last.sources));
    var n' := NoteRound(rollouts, last.disk, last.sources, m, n);
    if ok {
      forall i | 0 <= i < |last.sources| && Parsable(rollouts, last.disk, last.sources[i], m.initialized)
        ensures forall p :: p in last.sources[i].paths ==> Accounted(rollouts, last.disk, m'.states.codex, n', p, m'.seen)
      {
        KnownExactly(rollouts, m', n', last.disk, last.sources[i].paths);
      }
    }
  }

  /** The run up to its last round, and whether that round succeeds. */
  function Before(rollouts: Rollouts, seen: set<EventKey>, rounds: seq<DayRound>): Memory
    requires rounds != []
  {
    RunRounds(rollouts, Start(seen), rounds[..|rounds| - 1])
  }

  predicate LastSucceeds(rollouts: Rollouts, seen: set<EventKey>, rounds: seq<DayRound>)
    requires rounds != []
  {
    var last := rounds[|rounds| - 1];
    Round(Before(rollouts, seen, rounds), CodexSteps(rollouts, last.disk, last.sources)).1
  }

  /** Exactly once, over every run of rounds on files that grow, vanish and are replaced, whichever
      appends failed on the way: no key is written twice and every written line is an event of a
      file of the run. After a round that succeeds, every listed file of every source that could
      parse its files is accounted for. */
  lemma CodexExactlyOnce(rollouts: Rollouts, seen: set<EventKey>, rounds: seq<DayRound>)
    requires rounds != [] && Plausible(rounds)
    ensures var m := RunRounds(rollouts, Start(seen), rounds);
      && Consistent(seen, m)
      && (forall e :: e in m.queue ==> EventOfRun(rollouts, rounds, e))
      && (LastSucceeds(rollouts, seen, rounds) ==>
            AllAccounted(rollouts, rounds[|rounds| - 1], Before(rollouts, seen, rounds).initialized, m.states.codex,
                         NotesOf(rollouts, Start(seen), rounds), seen + KeysOf(m.queue)))
  {
    hide Round, NoteRound, Faithful, KnownDisk, AllAccounted, EventOfRun, Plausible, Consistent, FromRun;
    var front, last := rounds[..|rounds| - 1], rounds[|rounds| - 1];
    RunKeepsFaithful(rollouts, seen, rounds);
    PlausibleFront(rounds);
    RunKeepsFaithful(rollouts, seen, front);
    var earlier, before := RunRounds(rollouts, Start(seen), front), NotesOf(rollouts, Start(seen), front);
    RunKnowsDisk(rounds, before);
    RoundAccounts(rollouts, last, earlier, before);
    SeenIsWritten(seen, RunRounds(rollouts, Start(seen), rounds));
  }

  lemma SeenIsWritten(seen: set<EventKey>, m: Memory)
    requires Consistent(seen, m)
    ensures m.seen == seen + KeysOf(m.queue)
  {
  }

  lemma PlausibleFront(rounds: seq<DayRound>)
    requires rounds != [] && Plausible(rounds)
    ensures Plausible(rounds[..|rounds| - 1])
  {
    hide Follows;
  }

  // ---------- what is skipped ----------

  /** Some round, before any had completed, had a source that listed the file and passed over it. */
  ghost predicate WasPassedOver(rollouts: Rollouts, seen: set<EventKey>, rounds: seq<DayRound>, p: string) {
    exists i, s :: 0 <= i < |rounds| && s in rounds[i].sources && p in s.paths
                   && PassedOver(s, RunRounds(rollouts, Start(seen), rounds[..i]).initialized, p)
  }

  lemma {:induction false} SkipsArePassedOver(rollouts: Rollouts, disk: Disk, sources: seq<CodexSource>, m: Memory, n: Notes)
    requires Faithful(rollouts, m, n) && KnownDisk(n, disk)
    ensures forall p :: p in NoteRound(rollouts, disk, sources, m, n).skipped ==>
      p in n.skipped || exists s :: s in sources && p in s.paths && PassedOver(s, m.initialized, p)
    decreases |sources|
  {
    hide Faithful, SourceOnce, NoteSource, KnownDisk, PassedOver;
    if sources != [] {
      var s, rest := sources[0], sources[1..];
      SourceKeeps(rollouts, disk, s, m, n);
      SourceSkips(rollouts, disk, s, m, n);
      InitializedStays(rollouts, disk, s, m);
      var n' := NoteSource(rollouts, disk, s, m, n);
      var (next, goesOn) := SourceOnce(m, CodexStep(rollouts, disk, s));
      if goesOn {
        SkipsArePassedOver(rollouts, disk, rest, next, n');
      }
      assert forall r :: r in rest ==> r in sources;
      assert s in sources;
    }
  }

  lemma SourceSkips(rollouts: Rollouts, disk: Disk, s: CodexSource, m: Memory, n: Notes)
    requires Faithful(rollouts, m, n) && KnownDisk(n, disk)
    ensures forall p :: p in NoteSource(rollouts, disk, s, m, n).skipped ==>
      p in n.skipped || (p in s.paths && PassedOver(s, m.initialized, p))
  {
    hide VisitPaths, Faithful, KnownDisk, PassedOver, NewIn, ReadWhole, FreshLines, KeepsStates;
    FaithfulTracks(rollouts, m, n);
    PassReads(rollouts, disk, s, m.initialized, m.states, n, s.paths);
  }

  lemma FaithfulTracks(rollouts: Rollouts, m: Memory, n: Notes)
    requires Faithful(rollouts, m, n)
    ensures Tracked(rollouts, m.states.codex, n)
  {
  }

  /** Reading a file is skipped only when it was passed over in a round before any had completed. */
  lemma {:induction false} SkippedWasPassedOver(rollouts: Rollouts, seen: set<EventKey>, rounds: seq<DayRound>)
    requires Plausible(rounds)
    ensures forall p :: p in NotesOf(rollouts, Start(seen), rounds).skipped ==> WasPassedOver(rollouts, seen, rounds, p)
  {
    hide Round, NoteRound, Faithful, KnownDisk, PassedOver;
    if rounds != [] {
      var front, last := rounds[..|rounds| - 1], rounds[|rounds| - 1];
      PlausibleFront(rounds);
      SkippedWasPassedOver(rollouts, seen, front);
      RunKeepsFaithful(rollouts, seen, front);
      var m, n := RunRounds(rollouts, Start(seen), front), NotesOf(rollouts, Start(seen), front);
      RunKnowsDisk(rounds, n);
      SkipsArePassedOver(rollouts, last.disk, last.sources, m, n);
      forall p | p in NotesOf(rollouts, Start(seen), rounds).skipped
        ensures WasPassedOver(rollouts, seen, rounds, p)
      {
        if p in n.skipped {
          var i, s :| 0 <= i < |front| && s in front[i].sources && p in s.paths
                      && PassedOver(s, RunRounds(rollouts, Start(seen), front[..i]).initialized, p);
          assert rounds[i] == front[i] && rounds[..i] == front[..i];
        } else {
          var s :| s in last.sources && p in s.paths && PassedOver(s, m.initialized, p);
          assert s in rounds[|rounds| - 1].sources;
        }
      }
    }
  }

  /** So a file that no source ever passed over has, after a round that succeeds, every event of
      one pass written or known before. */
  lemma WantedFilesComplete(rollouts: Rollouts, seen: set<EventKey>, rounds: seq<DayRound>, i: nat, p: string)
    requires rounds != [] && Plausible(rounds) && !WasPassedOver(rollouts, seen, rounds, p)
    requires LastSucceeds(rollouts, seen, rounds)
    requires var last := rounds[|rounds| - 1];
      && i < |last.sources| && p in last.sources[i].paths && p in last.disk
      && Parsable(rollouts, last.disk, last.sources[i], Before(rollouts, seen, rounds).initialized)
    ensures AllKnown(rollouts(p), rounds[|rounds| - 1].disk[p].file.content,
                     seen + KeysOf(RunRounds(rollouts, Start(seen), rounds).queue))
  {
    hide Round, AllKnown, NothingNewUnread, ReadPart, Parsable, WasPassedOver, LastSucceeds, RunRounds, NotesOf, Before,
         Plausible, Consistent, EventOfRun;
    CodexExactlyOnce(rollouts, seen, rounds);
    SkippedWasPassedOver(rollouts, seen, rounds);
    var last := rounds[|rounds| - 1];
    assert Accounted(rollouts, last.disk, RunRounds(rollouts, Start(seen), rounds).states.codex,
                     NotesOf(rollouts, Start(seen), rounds), p,
                     seen + KeysOf(RunRounds(rollouts, Start(seen), rounds).queue));
  }

  // ---------- events that are lost ----------

  function OnePath(p: string, recent: bool): CodexSource {
    CodexSource([p], false, (_: string) => recent, true, true)
  }

  lemma OneVisit(rollouts: Rollouts, disk: Disk, s: CodexSource, initialized: bool, st: ParserStates, p: string)
    requires s.paths == [p]
    ensures VisitPaths(rollouts, disk, s, initialized, st, s.paths) ==
            VisitPath(rollouts, disk, s, initialized, Pass(st, [], map[], map[]), p)
  {
    assert [p][..0] == [];
  }

  lemma OneSource(m: Memory, step: SourceStep)
    ensures Round(m, [step]) ==
            var (next, goesOn) := SourceOnce(m, step);
            if goesOn then (next.(initialized := true), true) else (next, false)
  {
    assert [step][1..] == [];
  }

  /** A pass over one file that is passed over records its stat and nothing else. */
  lemma OldFileIsRecordedUnread(rollouts: Rollouts, disk: Disk, s: CodexSource, m: Memory, p: string)
    requires s.paths == [p] && p in disk && PassedOver(s, m.initialized, p)
    ensures Round(m, [CodexStep(rollouts, disk, s)]) ==
            (m.(states := m.states.(files := m.states.files + map[p := StatOf(disk[p])]), initialized := true), true)
  {
    hide Parse;
    OneVisit(rollouts, disk, s, m.initialized, m.states, p);
    OneSource(m, CodexStep(rollouts, disk, s));
    NoLines(m.seen);
    assert m.states.codex + map[] == m.states.codex;
  }

  /** Then, however often it is listed and whatever the window, it stays unread until it changes. */
  lemma RecordedStaysUnread(rollouts: Rollouts, disk: Disk, s: CodexSource, m: Memory, p: string)
    requires s.paths == [p] && m.initialized && p in disk && p in m.states.files && m.states.files[p] == StatOf(disk[p])
    ensures Round(m, [CodexStep(rollouts, disk, s)]) == (m, true)
  {
    hide Parse;
    OneVisit(rollouts, disk, s, m.initialized, m.states, p);
    OneSource(m, CodexStep(rollouts, disk, s));
    NoLines(m.seen);
    assert m.states.codex + map[] == m.states.codex && m.states.files + map[] == m.states.files;
  }

  /** At the first start a file outside the window is recorded and never read: its round succeeds,
      and none of its events is written. */
  lemma OldFileIsLost(rollouts: Rollouts, seen: set<EventKey>, f: DiskFile, p: string)
    requires !AllKnown(rollouts(p), f.file.content, seen)
    ensures var rounds := [DayRound(map[p := f], [OnePath(p, false)])];
      var m := RunRounds(rollouts, Start(seen), rounds);
      && m == Memory(seen, ParserStates(map[p := StatOf(f)], map[], map[]), true, [])
      && !AllKnown(rollouts(p), f.file.content, seen + KeysOf(m.queue))
  {
    hide AllKnown, Round;
    var disk, s := map[p := f], OnePath(p, false);
    OldFileIsRecordedUnread(rollouts, disk, s, Start(seen), p);
    assert CodexSteps(rollouts, disk, [s]) == [CodexStep(rollouts, disk, s)];
    var rounds := [DayRound(disk, [s])];
    assert rounds[..0] == [];
    assert map[] + map[p := StatOf(f)] == map[p := StatOf(f)];
    assert KeysOf([]) == {} && seen + {} == seen;
  }

  /** Some event of one pass has a key that is neither known nor among those of the part. */
  ghost predicate HasMore(src: Rollout, content: Bytes, part: Bytes, seen: set<EventKey>) {
    exists e :: e in Dedup(AllEvents(src, content)) && Writable(e)
                && DedupeKey(e) !in seen + KeysOf(Dedup(AllEvents(src, part)))
  }

  lemma FirstReading(rollouts: Rollouts, seen: set<EventKey>, f: DiskFile, p: string)
    requires Acceptable(rollouts(p), f.file.content)
    ensures var events := Dedup(AllEvents(rollouts(p), f.file.content));
      var lines := FreshLines(seen, events);
      SourceOnce(Start(seen), CodexStep(rollouts, map[p := f], OnePath(p, true))) ==
      (Memory(seen + KeysOf(lines), ParserStates(map[p := StatOf(f)], map[p := Summary(rollouts(p), f.file)], map[]),
              false, lines), true)
  {
    hide Parse, Dedup, AllEvents, FreshLines, Summary, Acceptable;
    var disk, s := map[p := f], OnePath(p, true);
    OneVisit(rollouts, disk, s, false, NOTHING, p);
    OnePass(rollouts(p), f.file);
    var events := Dedup(AllEvents(rollouts(p), f.file.content));
    assert [] + events == events && [] + FreshLines(seen, events) == FreshLines(seen, events);
    NothingFresh(Start(seen));
    assert map[] + map[p := StatOf(f)] == map[p := StatOf(f)];
    assert map[] + map[p := Summary(rollouts(p), f.file)] == map[p := Summary(rollouts(p), f.file)];
    assert seen + {} == seen;
  }

  lemma FailedAppendStops(m: Memory, first: SourceStep, other: SourceStep)
    requires SourceOnce(m, first).1
    requires var m' := SourceOnce(m, first).0;
      var collected := other.collect(m'.states, m'.initialized);
      collected.Collected? && FreshLines(m'.seen, collected.events) != [] && !other.appendSucceeds
    ensures Round(m, [first, other]) == (SourceOnce(m, first).0, false)
  {
    hide FreshLines;
    OneSource(SourceOnce(m, first).0, other);
    assert [first, other][1..] == [other];
  }

  /** A file is read, then the append of another source fails, so no round has completed. If the
      file grows but has left the window by the next round, its new stat is recorded with its old
      state: that round succeeds, and the added events are not written. */
  lemma GrownFileIsLost(rollouts: Rollouts, seen: set<EventKey>, f: DiskFile, g: DiskFile, p: string, other: SourceStep)
    requires Acceptable(rollouts(p), f.file.content)
    requires HasMore(rollouts(p), g.file.content, f.file.content, seen)
    requires var m := SourceOnce(Start(seen), CodexStep(rollouts, map[p := f], OnePath(p, true))).0;
      var collected := other.collect(m.states, m.initialized);
      collected.Collected? && FreshLines(m.seen, collected.events) != [] && !other.appendSucceeds
    ensures var (m, ok) := Round(Start(seen), [CodexStep(rollouts, map[p := f], OnePath(p, true)), other]);
      var (m', ok') := Round(m, [CodexStep(rollouts, map[p := g], OnePath(p, false))]);
      && !ok && ok' && m'.initialized && m'.queue == m.queue
      && m'.states.files == map[p := StatOf(g)] && m'.states.codex == map[p := Summary(rollouts(p), f.file)]
      && !AllKnown(rollouts(p), g.file.content, seen + KeysOf(m'.queue))
  {
    hide Round, Dedup, AllEvents, FreshLines, Summary, Acceptable;
    FirstReading(rollouts, seen, f, p);
    var first := CodexStep(rollouts, map[p := f], OnePath(p, true));
    FailedAppendStops(Start(seen), first, other);
    hide SourceOnce;
    var m := SourceOnce(Start(seen), first).0;
    var events := Dedup(AllEvents(rollouts(p), f.file.content));
    OldFileIsRecordedUnread(rollouts, map[p := g], OnePath(p, false), m, p);
    FreshLinesAreNew(seen, events);
    assert KeysOf(FreshLines(seen, events)) <= KeysOf(events);
  }
}
