/** The usage collector: one round over all sources, writing each new event once
    (internal/agentusage/collector.go). */
module Collector {
  import opened Options
  import opened Lines
  import opened UsageEvents
  import CodexParser

  /** What the collector remembers of one file: size, modification time and identity. */
  datatype FileStat = FileStat(size: nat, modTime: int, id: int)

  datatype CounterState = CounterState(model: string, counts: TokenCounts)

  datatype ParserStates = ParserStates(
    files: map<string, FileStat>,
    codex: map<string, CodexParser.State>,
    antigravity: map<string, CounterState>)

  /** The answer of one source. A source that fails halfway may still have forgotten files
      that no longer exist. */
  datatype Collected = Failed(states: ParserStates) | Collected(events: seq<UsageEvent>, states: ParserStates)

  /** One source in a round: how it collects from the parser states (told whether the
      collector has completed a round before), and whether the two appends succeed. */
  datatype SourceStep = SourceStep(
    collect: (ParserStates, bool) -> Collected, appendSucceeds: bool, seenWriteSucceeds: bool)

  /** Everything the collector keeps, and the lines in its queue file. */
  datatype Memory = Memory(seen: set<EventKey>, states: ParserStates, initialized: bool, queue: seq<UsageEvent>)

  function KeysOf(events: seq<UsageEvent>): set<EventKey> {
    set e | e in events :: DedupeKey(e)
  }

  /** The events that become queue lines: writable, and the first with their key. */
  function FreshLines(seen: set<EventKey>, events: seq<UsageEvent>): seq<UsageEvent> {
    if events == [] then []
    else
      var lines, e := FreshLines(seen, events[..|events| - 1]), events[|events| - 1];
      if Writable(e) && DedupeKey(e) !in seen + KeysOf(lines) then lines + [e] else lines
  }

  /** One source: the memory after it, and whether the round goes on. */
  function SourceOnce(m: Memory, s: SourceStep): (Memory, bool) {
    match s.collect(m.states, m.initialized)
    case Failed(states) => (m.(states := states), true)
    case Collected(events, states) =>
      var lines := FreshLines(m.seen, events);
      if lines == [] then (m.(states := states), true)
      else if !s.appendSucceeds then (m, false)
      else (Memory(m.seen + KeysOf(lines), states, m.initialized, m.queue + lines), s.seenWriteSucceeds)
  }

  function Round(m: Memory, sources: seq<SourceStep>): (Memory, bool)
    decreases |sources|
  {
    if sources == [] then (m.(initialized := true), true)
    else
      var (next, goesOn) := SourceOnce(m, sources[0]);
      if goesOn then Round(next, sources[1..]) else (next, false)
  }

  lemma FreshSnoc(seen: set<EventKey>, events: seq<UsageEvent>, e: UsageEvent)
    ensures FreshLines(seen, events + [e]) ==
            var lines := FreshLines(seen, events);
            if Writable(e) && DedupeKey(e) !in seen + KeysOf(lines) then lines + [e] else lines
  {
    assert (events + [e])[..|events|] == events;
  }

  lemma NoLines(seen: set<EventKey>)
    ensures FreshLines(seen, []) == [] && KeysOf([]) == {}
  {
  }

  lemma KeysSnoc(events: seq<UsageEvent>, e: UsageEvent)
    ensures KeysOf(events + [e]) == KeysOf(events) + {DedupeKey(e)}
  {
    assert forall x :: x in events + [e] <==> x in events || x == e;
  }

  class Collector {
    var seen: set<EventKey>
    var fileStates: map<string, FileStat>
    var codexStates: map<string, CodexParser.State>
    var antigravity: map<string, CounterState>
    var initialized: bool
    var queue: seq<UsageEvent>

    function Contents(): Memory
      reads this
    {
      Memory(seen, ParserStates(fileStates, codexStates, antigravity), initialized, queue)
    }

    method CollectOnce(sources: seq<SourceStep>) returns (ok: bool)
      modifies this
      ensures (Contents(), ok) == Round(old(Contents()), sources)
    {
      var i := 0;
      while i < |sources|
        invariant 0 <= i <= |sources|
        invariant Round(Contents(), sources[i..]) == Round(old(Contents()), sources)
      {
        ghost var before := Contents();
        var previousFiles, previousCodex, previousAntigravity := fileStates, codexStates, antigravity;
        var collected := sources[i].collect(ParserStates(fileStates, codexStates, antigravity), initialized);
        fileStates, codexStates, antigravity :=
          collected.states.files, collected.states.codex, collected.states.antigravity;
        if collected.Collected? {
          var lines, newKeys := FilterSeen(collected.events);
          if |lines| > 0 {
            if !sources[i].appendSucceeds {
              ForgetKeys(newKeys);
              fileStates, codexStates, antigravity := previousFiles, previousCodex, previousAntigravity;
              assert Contents() == before;
              return false;
            }
            queue := queue + lines;
            if !sources[i].seenWriteSucceeds {
              return false;
            }
          } else {
            assert KeysOf([]) == {};
            assert seen == before.seen;
          }
        }
        i := i + 1;
      }
      initialized := true;
      ok := true;
    }

    /** Keeps the events that are new, remembering their keys. */
    method FilterSeen(events: seq<UsageEvent>) returns (lines: seq<UsageEvent>, newKeys: seq<EventKey>)
      modifies `seen
      ensures lines == FreshLines(old(seen), events)
      ensures seen == old(seen) + KeysOf(lines)
      ensures KeysOf(lines) == set k | k in newKeys
      ensures forall k :: k in newKeys ==> k !in old(seen)
    {
      hide FreshLines, KeysOf;
      NoLines(seen);
      lines, newKeys := [], [];
      for j := 0 to |events|
        invariant lines == FreshLines(old(seen), events[..j])
        invariant seen == old(seen) + KeysOf(lines)
        invariant KeysOf(lines) == set k | k in newKeys
        invariant forall k :: k in newKeys ==> k !in old(seen)
      {
        var event := events[j];
        assert events[..j + 1] == events[..j] + [event];
        FreshSnoc(old(seen), events[..j], event);
        if Writable(event) {
          var key := DedupeKey(event);
          if key !in seen {
            KeysSnoc(lines, event);
            assert (set k | k in newKeys + [key]) == (set k | k in newKeys) + {key};
            seen := seen + {key};
            lines := lines + [event];
            newKeys := newKeys + [key];
          }
        }
      }
      assert events[..|events|] == events;
    }

    method ForgetKeys(keys: seq<EventKey>)
      modifies `seen
      ensures seen == old(seen) - set k | k in keys
    {
      for j := 0 to |keys|
        invariant seen == old(seen) - set k | k in keys[..j]
      {
        assert keys[..j + 1] == keys[..j] + [keys[j]];
        seen := seen - {keys[j]};
      }
      assert keys[..|keys|] == keys;
    }
  }

  // ---------- what every run keeps ----------

  ghost predicate DistinctKeys(events: seq<UsageEvent>) {
    forall i, j :: 0 <= i < j < |events| ==> DedupeKey(events[i]) != DedupeKey(events[j])
  }

  /** The remembered keys are the initial ones and those in the queue, and the queue holds
      every key once and none of the initial ones. */
  ghost predicate Consistent(initial: set<EventKey>, m: Memory) {
    m.seen == initial + KeysOf(m.queue) && initial !! KeysOf(m.queue) && DistinctKeys(m.queue)
  }

  lemma {:induction false} FreshLinesAreNew(seen: set<EventKey>, events: seq<UsageEvent>)
    ensures var lines := FreshLines(seen, events);
      && DistinctKeys(lines) && seen !! KeysOf(lines)
      && (forall e :: e in lines ==> e in events && Writable(e))
      && (forall e :: e in events && Writable(e) ==> DedupeKey(e) in seen + KeysOf(lines))
  {
    if events != [] {
      var front, last := events[..|events| - 1], events[|events| - 1];
      FreshLinesAreNew(seen, front);
      KeysSnoc(FreshLines(seen, front), last);
      forall e | e in events && Writable(e)
        ensures DedupeKey(e) in seen + KeysOf(FreshLines(seen, events))
      {
        assert e in front || e == last;
      }
    }
  }

  lemma AppendKeepsKeysDistinct(initial: set<EventKey>, queue: seq<UsageEvent>, lines: seq<UsageEvent>)
    requires DistinctKeys(queue) && DistinctKeys(lines)
    requires initial !! KeysOf(queue) && initial + KeysOf(queue) !! KeysOf(lines)
    ensures DistinctKeys(queue + lines)
    ensures KeysOf(queue + lines) == KeysOf(queue) + KeysOf(lines)
    ensures initial !! KeysOf(queue + lines)
  {
    assert forall e :: e in queue + lines <==> e in queue || e in lines;
    forall i, j | 0 <= i < j < |queue + lines|
      ensures DedupeKey((queue + lines)[i]) != DedupeKey((queue + lines)[j])
    {
      if i < |queue| <= j {
        assert DedupeKey(queue[i]) in KeysOf(queue) && DedupeKey(lines[j - |queue|]) in KeysOf(lines);
      }
    }
  }

  /** Whatever a source answers and whether or not its append fails, the memory stays
      consistent and the queue is only ever extended. */
  lemma SourceKeepsConsistent(initial: set<EventKey>, m: Memory, s: SourceStep)
    requires Consistent(initial, m)
    ensures Consistent(initial, SourceOnce(m, s).0)
    ensures m.queue <= SourceOnce(m, s).0.queue
  {
    var collected := s.collect(m.states, m.initialized);
    if collected.Collected? {
      FreshLinesAreNew(m.seen, collected.events);
      AppendKeepsKeysDistinct(initial, m.queue, FreshLines(m.seen, collected.events));
    }
  }

  lemma {:induction false} RoundKeepsConsistent(initial: set<EventKey>, m: Memory, sources: seq<SourceStep>)
    requires Consistent(initial, m)
    ensures Consistent(initial, Round(m, sources).0)
    ensures m.queue <= Round(m, sources).0.queue
    decreases |sources|
  {
    if sources != [] {
      SourceKeepsConsistent(initial, m, sources[0]);
      var (next, goesOn) := SourceOnce(m, sources[0]);
      if goesOn {
        RoundKeepsConsistent(initial, next, sources[1..]);
      }
    }
  }

  function Rounds(m: Memory, rounds: seq<seq<SourceStep>>): Memory {
    if rounds == [] then m else Round(Rounds(m, rounds[..|rounds| - 1]), rounds[|rounds| - 1]).0
  }

  /** No key is ever written twice, over any run of rounds. */
  lemma {:induction false} EveryKeyWrittenOnce(initial: set<EventKey>, m: Memory, rounds: seq<seq<SourceStep>>)
    requires m.queue == [] && m.seen == initial
    ensures Consistent(initial, Rounds(m, rounds))
  {
    if rounds == [] {
      assert KeysOf([]) == {};
    } else {
      EveryKeyWrittenOnce(initial, m, rounds[..|rounds| - 1]);
      RoundKeepsConsistent(initial, Rounds(m, rounds[..|rounds| - 1]), rounds[|rounds| - 1]);
    }
  }
}
