/** Rollout files to queue lines: the Codex parser and the collector together, over files
    that grow between rounds and appends that fail (internal/agentusage/collector.go). */
module CodexCollection {
  import opened Options
  import opened Lines
  import opened UsageEvents
  import opened CodexParser
  import opened CodexIncremental
  import opened Collector

  datatype DiskFile = DiskFile(file: File, modTime: int)
  type Disk = map<string, DiskFile>

  /** How the rollout file under each path decodes. */
  type Rollouts = string -> Rollout

  /** A Codex source in one round: the listed paths, whether history is wanted from the
      start, which files changed recently, and the outcome of the two appends. */
  datatype CodexSource = CodexSource(
    paths: seq<string>, backfill: bool, recent: string -> bool, appendSucceeds: bool, seenWriteSucceeds: bool)

  datatype Pass =
    | Pass(states: ParserStates, events: seq<UsageEvent>, nextFiles: map<string, FileStat>,
           nextCodex: map<string, State>)
    | Broken(states: ParserStates)

  function StatOf(f: DiskFile): FileStat {
    FileStat(|f.file.content|, f.modTime, f.file.id)
  }

  function Forget(st: ParserStates, path: string): ParserStates {
    ParserStates(st.files - {path}, st.codex - {path}, st.antigravity - {path})
  }

  function SavedState(codex: map<string, State>, path: string): State {
    if path in codex then codex[path] else INITIAL
  }

  function VisitPath(rollouts: Rollouts, disk: Disk, s: CodexSource, initialized: bool, p: Pass, path: string): Pass {
    if p.Broken? then p
    else if path !in disk then p.(states := Forget(p.states, path))
    else
      var stat := StatOf(disk[path]);
      if !initialized && !s.backfill && !s.recent(path) then p.(nextFiles := p.nextFiles[path := stat])
      else if initialized && path in p.states.files && p.states.files[path] == stat then p
      else
        match Parse(rollouts(path), disk[path].file, SavedState(p.states.codex, path), false)
        case Err(_) => Broken(p.states)
        case Ok((events, next)) =>
          Pass(p.states, p.events + events, p.nextFiles[path := stat], p.nextCodex[path := next])
  }

  function VisitPaths(rollouts: Rollouts, disk: Disk, s: CodexSource, initialized: bool, st: ParserStates,
                      paths: seq<string>): Pass {
    if paths == [] then Pass(st, [], map[], map[])
    else
      VisitPath(rollouts, disk, s, initialized,
                VisitPaths(rollouts, disk, s, initialized, st, paths[..|paths| - 1]), paths[|paths| - 1])
  }

  function CollectCodex(rollouts: Rollouts, disk: Disk, s: CodexSource, st: ParserStates, initialized: bool): Collected {
    match VisitPaths(rollouts, disk, s, initialized, st, s.paths)
    case Broken(states) => Failed(states)
    case Pass(states, events, nextFiles, nextCodex) =>
      Collected(events, ParserStates(states.files + nextFiles, states.codex + nextCodex, states.antigravity))
  }

  /** The loop over the listed paths. */
  method CollectSource(rollouts: Rollouts, disk: Disk, s: CodexSource, st: ParserStates, initialized: bool,
                       arrivals: nat -> nat)
    returns (r: Collected)
    ensures r == CollectCodex(rollouts, disk, s, st, initialized)
  {
    hide Parse, VisitPaths, Forget, SavedState, StatOf;
    NothingVisited(rollouts, disk, s, initialized, st);
    var states, events := st, [];
    var nextFiles: map<string, FileStat>, nextCodex: map<string, State> := map[], map[];
    for i := 0 to |s.paths|
      invariant VisitPaths(rollouts, disk, s, initialized, st, s.paths[..i]) == Pass(states, events, nextFiles, nextCodex)
    {
      var path := s.paths[i];
      VisitNext(rollouts, disk, s, initialized, st, i);
      if path !in disk {
        states := Forget(states, path);
        continue;
      }
      var stat := StatOf(disk[path]);
      if !initialized && !s.backfill && !s.recent(path) {
        nextFiles := nextFiles[path := stat];
        continue;
      }
      if initialized && path in states.files && states.files[path] == stat {
        continue;
      }
      var parsed := ParseCodexUsageFile(rollouts(path), disk[path].file, SavedState(states.codex, path), false, arrivals);
      if parsed.Err? {
        BrokenStays(rollouts, disk, s, initialized, st, s.paths, i + 1);
        return Failed(states);
      }
      events := events + parsed.value.0;
      nextCodex := nextCodex[path := parsed.value.1];
      nextFiles := nextFiles[path := stat];
    }
    assert s.paths[..|s.paths|] == s.paths;
    return Collected(events, ParserStates(states.files + nextFiles, states.codex + nextCodex, states.antigravity));
  }

  lemma NothingVisited(rollouts: Rollouts, disk: Disk, s: CodexSource, initialized: bool, st: ParserStates)
    ensures VisitPaths(rollouts, disk, s, initialized, st, s.paths[..0]) == Pass(st, [], map[], map[])
  {
  }

  lemma VisitNext(rollouts: Rollouts, disk: Disk, s: CodexSource, initialized: bool, st: ParserStates, i: nat)
    requires i < |s.paths|
    ensures VisitPaths(rollouts, disk, s, initialized, st, s.paths[..i + 1]) ==
            VisitPath(rollouts, disk, s, initialized,
                      VisitPaths(rollouts, disk, s, initialized, st, s.paths[..i]), s.paths[i])
  {
    assert s.paths[..i + 1][..i] == s.paths[..i];
  }

  lemma {:induction false} BrokenStays(rollouts: Rollouts, disk: Disk, s: CodexSource, initialized: bool,
                                       st: ParserStates, paths: seq<string>, i: nat)
    requires i <= |paths| && VisitPaths(rollouts, disk, s, initialized, st, paths[..i]).Broken?
    ensures VisitPaths(rollouts, disk, s, initialized, st, paths) ==
            VisitPaths(rollouts, disk, s, initialized, st, paths[..i])
  {
    if i < |paths| {
      assert paths[..|paths| - 1][..i] == paths[..i];
      BrokenStays(rollouts, disk, s, initialized, st, paths[..|paths| - 1], i);
    } else {
      assert paths[..i] == paths;
    }
  }

  function CodexStep(rollouts: Rollouts, disk: Disk, s: CodexSource): SourceStep {
    SourceStep((st, initialized) => CollectCodex(rollouts, disk, s, st, initialized),
               s.appendSucceeds, s.seenWriteSucceeds)
  }

  function CodexSteps(rollouts: Rollouts, disk: Disk, sources: seq<CodexSource>): seq<SourceStep> {
    seq(|sources|, i requires 0 <= i < |sources| => CodexStep(rollouts, disk, sources[i]))
  }
}
