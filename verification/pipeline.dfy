/** The whole usage-log pipeline: the collector writes queue lines, the ingester stores them. */
module Pipeline {
  import opened Options
  import opened Lines
  import opened UsageEvents
  import opened Collector
  import opened TailIngester
  import opened TailExactlyOnce

  /** How an event becomes a queue line, and the fingerprint the ingester finds in it. Lines
      of most events carry the event key as their fingerprint; those of Claude requests are
      told apart by path and session as well. The event parser may refuse a line. */
  datatype Wire = Wire(encode: UsageEvent -> Bytes, fingerprint: UsageEvent -> EventKey, cfg: Config) {
    ghost predicate Valid() {
      && (forall e :: Writable(e) ==>
            && NL !in encode(e) && |encode(e)| <= MAX_PARTIAL
            && (cfg.classify(encode(e)).Valid? ==> cfg.classify(encode(e)) == LineKind.Valid(fingerprint(e))))
      && (forall e, d :: Writable(e) && Writable(d) && fingerprint(e) == fingerprint(d) ==>
            DedupeKey(e) == DedupeKey(d))
    }

    predicate Accepts(e: UsageEvent) {
      cfg.classify(encode(e)).Valid?
    }
  }

  datatype System = System(memory: Memory, world: World)

  /** The steps of the two processes, in any order: one source collected and appended, the end of a
      round, and one scan of the queue, during which sources may be collected between its stat and
      its read, and between its read and its end. */
  datatype Act = Collect(s: SourceStep) | EndRound | Ingest(a: Answers, early: seq<SourceStep>, late: seq<SourceStep>)

  function Encoded(wire: Wire, events: seq<UsageEvent>): seq<Bytes> {
    if events == [] then [] else Encoded(wire, events[..|events| - 1]) + [wire.encode(events[|events| - 1])]
  }

  function CollectAll(m: Memory, steps: seq<SourceStep>): Memory {
    if steps == [] then m else SourceOnce(CollectAll(m, steps[..|steps| - 1]), steps[|steps| - 1]).0
  }

  /** The bytes appended to the queue file between two states of the collector. */
  function Appended(wire: Wire, before: Memory, after: Memory): Bytes {
    if |after.queue| <= |before.queue| then [] else Join(Encoded(wire, after.queue[|before.queue|..]))
  }

  /** Appending creates the file; appending nothing does nothing. */
  function Write(wire: Wire, w: World, data: Bytes): World {
    if data == [] then w else Apply(wire.cfg, w, Append(data))
  }

  function Perform(wire: Wire, sys: System, act: Act): System {
    match act
    case EndRound => sys.(memory := sys.memory.(initialized := true))
    case Collect(s) =>
      var next := SourceOnce(sys.memory, s).0;
      System(next, Write(wire, sys.world, Appended(wire, sys.memory, next)))
    case Ingest(a, early, late) =>
      var atRead := CollectAll(sys.memory, early);
      var atEnd := CollectAll(atRead, late);
      var before, after := Appended(wire, sys.memory, atRead), Appended(wire, atRead, atEnd);
      System(atEnd, if sys.world.file.None? then Write(wire, sys.world, before + after)
                    else Scan(wire.cfg, sys.world, a.(beforeRead := before, afterRead := after)))
  }

  function PerformAll(wire: Wire, sys: System, acts: seq<Act>): System {
    if acts == [] then sys else Perform(wire, PerformAll(wire, sys, acts[..|acts| - 1]), acts[|acts| - 1])
  }

  // ---------- files of whole lines ----------

  ghost predicate WholeLines(s: Bytes) {
    Tail(s) == [] && forall l :: l in Complete(s) ==> |l| <= MAX_PARTIAL
  }

  lemma WholeLinesConcat(s: Bytes, t: Bytes)
    requires WholeLines(s) && WholeLines(t)
    ensures WholeLines(s + t)
  {
    hide Tail, Complete;
    AppendLines(s, t);
    assert [] + t == t;
  }

  lemma WholeLinesFit(s: Bytes)
    requires WholeLines(s)
    ensures LinesFit(s, MAX_PARTIAL)
  {
    hide Tail, Complete;
    forall i | 0 <= i <= |s|
      ensures |Tail(s[..i])| <= MAX_PARTIAL
    {
      var rest := Tail(s[..i]) + s[i..];
      assert s == s[..i] + s[i..];
      AppendLines(s[..i], s[i..]);
      TailIsLine(s[..i]);
      assert rest[..|Tail(s[..i])|] == Tail(s[..i]);
      FirstLine(rest, |Tail(s[..i])|);
      if Complete(rest) != [] {
        assert Complete(rest)[0] in Complete(s[..i]) + Complete(rest);
      }
    }
  }

  lemma JoinSnoc(lines: seq<Bytes>, line: Bytes)
    ensures Join(lines + [line]) == Join(lines) + line + [NL]
  {
    assert (lines + [line])[..|lines|] == lines;
  }

  lemma {:induction false} JoinConcat(a: seq<Bytes>, b: seq<Bytes>)
    ensures Join(a + b) == Join(a) + Join(b)
  {
    if b == [] {
      assert a + b == a;
    } else {
      hide Join;
      var front, last := b[..|b| - 1], b[|b| - 1];
      JoinConcat(a, front);
      assert b == front + [last] && a + b == (a + front) + [last];
      JoinSnoc(front, last);
      JoinSnoc(a + front, last);
      assert (Join(a) + Join(front)) + last + [NL] == Join(a) + (Join(front) + last + [NL]);
    }
  }

  lemma EncodedSnoc(wire: Wire, events: seq<UsageEvent>, e: UsageEvent)
    ensures Encoded(wire, events + [e]) == Encoded(wire, events) + [wire.encode(e)]
  {
    assert (events + [e])[..|events|] == events;
  }

  lemma {:induction false} EncodedConcat(wire: Wire, a: seq<UsageEvent>, b: seq<UsageEvent>)
    ensures Encoded(wire, a + b) == Encoded(wire, a) + Encoded(wire, b)
  {
    if b == [] {
      assert a + b == a && Encoded(wire, b) == [];
    } else {
      hide Encoded;
      var front, last := b[..|b| - 1], b[|b| - 1];
      EncodedConcat(wire, a, front);
      assert b == front + [last] && a + b == a + front + [last];
      EncodedSnoc(wire, front, last);
      EncodedSnoc(wire, a + front, last);
    }
  }

  lemma {:induction false} EncodedLines(wire: Wire, events: seq<UsageEvent>)
    ensures |Encoded(wire, events)| == |events|
    ensures forall i :: 0 <= i < |events| ==> Encoded(wire, events)[i] == wire.encode(events[i])
  {
    if events != [] {
      EncodedLines(wire, events[..|events| - 1]);
    }
  }

  lemma EncodedIsWhole(wire: Wire, events: seq<UsageEvent>)
    requires wire.Valid() && forall e :: e in events ==> Writable(e)
    ensures WholeLines(Join(Encoded(wire, events)))
    ensures Complete(Join(Encoded(wire, events))) == Encoded(wire, events)
  {
    hide Tail, Complete, Join, Encoded;
    EncodedLines(wire, events);
    forall l | l in Encoded(wire, events)
      ensures NL !in l && |l| <= MAX_PARTIAL
    {
      var i :| 0 <= i < |events| && Encoded(wire, events)[i] == l;
      assert Writable(events[i]);
    }
    LinesOfJoin(Encoded(wire, events));
  }

  // ---------- the invariant ----------

  ghost predicate Linked(wire: Wire, initial: set<EventKey>, sys: System) {
    && Consistent(initial, sys.memory)
    && (forall e :: e in sys.memory.queue ==> Writable(e))
    && Log(sys.world) == Join(Encoded(wire, sys.memory.queue))
    && (forall g :: g in sys.world.removed ==> WholeLines(g)) && WholeLines(Content(sys.world))
    && Exact(sys.world)
    && Safe(wire.cfg, [], sys.world)
  }

  lemma AddedIsWritable(m: Memory, s: SourceStep)
    ensures m.queue <= SourceOnce(m, s).0.queue
    ensures forall e :: e in SourceOnce(m, s).0.queue[|m.queue|..] ==> Writable(e)
  {
    var collected := s.collect(m.states, m.initialized);
    if collected.Collected? {
      FreshLinesAreNew(m.seen, collected.events);
      assert (m.queue + FreshLines(m.seen, collected.events))[|m.queue|..] == FreshLines(m.seen, collected.events);
    }
  }

  ghost predicate Writes(m: Memory, m': Memory) {
    m.queue <= m'.queue && forall e :: e in m'.queue[|m.queue|..] ==> Writable(e)
  }

  lemma {:induction false} CollectAllWrites(initial: set<EventKey>, m: Memory, steps: seq<SourceStep>)
    requires Consistent(initial, m)
    ensures Consistent(initial, CollectAll(m, steps)) && Writes(m, CollectAll(m, steps))
  {
    hide SourceOnce, Consistent;
    if steps != [] {
      var front, last := steps[..|steps| - 1], steps[|steps| - 1];
      CollectAllWrites(initial, m, front);
      var middle := CollectAll(m, front);
      SourceKeepsConsistent(initial, middle, last);
      AddedIsWritable(middle, last);
      var end := SourceOnce(middle, last).0;
      assert end.queue[|m.queue|..] == middle.queue[|m.queue|..] + end.queue[|middle.queue|..];
    }
  }

  /** What is appended is whole lines, the encoded lines of the queue from then on. */
  lemma AppendedLines(wire: Wire, m: Memory, m': Memory)
    requires wire.Valid() && Writes(m, m')
    ensures WholeLines(Appended(wire, m, m'))
    ensures Join(Encoded(wire, m'.queue)) == Join(Encoded(wire, m.queue)) + Appended(wire, m, m')
  {
    hide Tail, Complete, Join, Encoded, WholeLines;
    NothingIsWhole();
    var earlier, added := m.queue, m'.queue[|m.queue|..];
    assert m'.queue == earlier + added;
    EncodedConcat(wire, earlier, added);
    JoinConcat(Encoded(wire, earlier), Encoded(wire, added));
    EncodedIsWhole(wire, added);
    NoEncoding(wire, added);
    assert Join(Encoded(wire, earlier)) + [] == Join(Encoded(wire, earlier));
  }

  lemma NoEncoding(wire: Wire, events: seq<UsageEvent>)
    ensures events == [] ==> Join(Encoded(wire, events)) == []
  {
  }

  lemma WriteKeepsLinked(wire: Wire, initial: set<EventKey>, sys: System, m: Memory, data: Bytes)
    requires Linked(wire, initial, sys) && Consistent(initial, m) && Writes(sys.memory, m) && WholeLines(data)
    requires Join(Encoded(wire, m.queue)) == Join(Encoded(wire, sys.memory.queue)) + data
    ensures Linked(wire, initial, System(m, Write(wire, sys.world, data)))
  {
    hide Tail, Complete, Join, Encoded, Exact, Safe, WholeLines, Flat, Consistent;
    assert m.queue == sys.memory.queue + m.queue[|sys.memory.queue|..];
    assert Log(sys.world) + [] == Log(sys.world);
    if data != [] {
      NothingIsErased(wire.cfg, sys.world, Append(data));
      WholeLinesConcat(Content(sys.world), data);
      ExactGrowth(sys.world, data);
      GrowthKeepsSafe(wire.cfg, [], sys.world, data);
    }
  }

  lemma CollectKeepsLinked(wire: Wire, initial: set<EventKey>, sys: System, s: SourceStep)
    requires wire.Valid() && Linked(wire, initial, sys)
    ensures Linked(wire, initial, Perform(wire, sys, Collect(s)))
  {
    hide Join, Encoded, Exact, Safe, WholeLines, Flat, Consistent, SourceOnce, Write;
    assert Consistent(initial, sys.memory);
    SourceKeepsConsistent(initial, sys.memory, s);
    AddedIsWritable(sys.memory, s);
    var next := SourceOnce(sys.memory, s).0;
    AppendedLines(wire, sys.memory, next);
    hide Linked;
    WriteKeepsLinked(wire, initial, sys, next, Appended(wire, sys.memory, next));
  }

  /** A scan during which the collector appends whole lines. */
  lemma ScanKeepsLinked(wire: Wire, initial: set<EventKey>, sys: System, m: Memory, a: Answers)
    requires Linked(wire, initial, sys) && Consistent(initial, m) && Writes(sys.memory, m)
    requires sys.world.file.Some? && !a.clearFails && WholeLines(a.beforeRead) && WholeLines(a.afterRead)
    requires Join(Encoded(wire, m.queue)) == Join(Encoded(wire, sys.memory.queue)) + (a.beforeRead + a.afterRead)
    ensures Linked(wire, initial, System(m, Scan(wire.cfg, sys.world, a)))
  {
    hide Tail, Complete, Join, Encoded, Exact, Safe, Flat, ReadChunk, InsertLines, Consistent, WholeLines;
    assert m.queue == sys.memory.queue + m.queue[|sys.memory.queue|..];
    var w := sys.world;
    var v := Scan(wire.cfg, w, a);
    NothingIsErased(wire.cfg, w, ScanStep(a));
    WholeLinesConcat(w.file.value, a.beforeRead);
    WholeLinesConcat(w.file.value + a.beforeRead, a.afterRead);
    var all := w.file.value + a.beforeRead + a.afterRead;
    assert || (v.file == Some(all) && v.removed == w.removed)
           || (v.file == None && v.removed == w.removed + [all]);
    NothingIsWhole();
    forall g | g in v.removed
      ensures WholeLines(g) && LinesFit(g, MAX_PARTIAL)
    {
      assert g in w.removed || g == all;
      WholeLinesFit(g);
    }
    WholeLinesFit(Content(v));
    ScanKeepsExact(wire.cfg, w, a);
    ScanKeepsSafe(wire.cfg, [], w, a);
  }

  lemma IngestKeepsLinked(wire: Wire, initial: set<EventKey>, sys: System, a: Answers, early: seq<SourceStep>, late: seq<SourceStep>)
    requires wire.Valid() && Linked(wire, initial, sys) && !a.clearFails
    ensures Linked(wire, initial, Perform(wire, sys, Ingest(a, early, late)))
  {
    hide Join, Encoded, Exact, Safe, WholeLines, Flat, Consistent, CollectAll, Write, Scan, Appended;
    assert Consistent(initial, sys.memory);
    CollectAllWrites(initial, sys.memory, early);
    var atRead := CollectAll(sys.memory, early);
    CollectAllWrites(initial, atRead, late);
    var atEnd := CollectAll(atRead, late);
    AppendedLines(wire, sys.memory, atRead);
    AppendedLines(wire, atRead, atEnd);
    var before, after := Appended(wire, sys.memory, atRead), Appended(wire, atRead, atEnd);
    WholeLinesConcat(before, after);
    WritesOn(sys.memory, atRead, atEnd);
    hide Linked, Writes;
    assert Join(Encoded(wire, atEnd.queue)) == Join(Encoded(wire, sys.memory.queue)) + (before + after);
    if sys.world.file.None? {
      WriteKeepsLinked(wire, initial, sys, atEnd, before + after);
    } else {
      ScanKeepsLinked(wire, initial, sys, atEnd, a.(beforeRead := before, afterRead := after));
    }
  }

  lemma WritesOn(m: Memory, middle: Memory, end: Memory)
    requires Writes(m, middle) && Writes(middle, end)
    ensures Writes(m, end)
  {
    assert end.queue[|m.queue|..] == middle.queue[|m.queue|..] + end.queue[|middle.queue|..];
  }

  lemma NothingIsWhole()
    ensures WholeLines([])
  {
  }

  const EMPTY := World(None, None, [], [], [], [])

  lemma {:induction false} EveryRunIsLinked(wire: Wire, m: Memory, acts: seq<Act>)
    requires wire.Valid() && m.queue == []
    requires forall act :: act in acts && act.Ingest? ==> !act.a.clearFails
    ensures Linked(wire, m.seen, PerformAll(wire, System(m, EMPTY), acts))
  {
    hide Linked, Perform;
    if acts == [] {
      StartIsLinked(wire, m);
    } else {
      var front, last := acts[..|acts| - 1], acts[|acts| - 1];
      assert last in acts && forall act :: act in front ==> act in acts;
      EveryRunIsLinked(wire, m, front);
      var sys := PerformAll(wire, System(m, EMPTY), front);
      match last
      case Collect(s) => CollectKeepsLinked(wire, m.seen, sys, s);
      case EndRound => EndKeepsLinked(wire, m.seen, sys);
      case Ingest(a, early, late) => IngestKeepsLinked(wire, m.seen, sys, a, early, late);
    }
  }

  lemma EndKeepsLinked(wire: Wire, initial: set<EventKey>, sys: System)
    requires Linked(wire, initial, sys)
    ensures Linked(wire, initial, Perform(wire, sys, EndRound))
  {
  }

  lemma StartIsLinked(wire: Wire, m: Memory)
    requires m.queue == []
    ensures Linked(wire, m.seen, System(m, EMPTY))
  {
    assert KeysOf([]) == {};
    StartIsExact(EMPTY);
    StartIsSafe(wire.cfg, EMPTY);
    NothingIsWhole();
  }

  ghost predicate IsPrint(wire: Wire, queue: seq<UsageEvent>, f: EventKey) {
    exists e :: e in queue && wire.fingerprint(e) == f
  }

  /** The events whose lines the event parser accepts. */
  function Accepted(wire: Wire, queue: seq<UsageEvent>): seq<UsageEvent> {
    if queue == [] then []
    else
      var last := queue[|queue| - 1];
      Accepted(wire, queue[..|queue| - 1]) + if wire.Accepts(last) then [last] else []
  }

  lemma {:induction false} AcceptedAre(wire: Wire, queue: seq<UsageEvent>)
    ensures forall e :: e in Accepted(wire, queue) <==> e in queue && wire.Accepts(e)
    ensures DistinctKeys(queue) ==> DistinctKeys(Accepted(wire, queue))
  {
    hide DedupeKey;
    if queue != [] {
      var front, last := queue[..|queue| - 1], queue[|queue| - 1];
      assert queue == front + [last];
      AcceptedAre(wire, front);
      if DistinctKeys(queue) {
        forall e | e in front
          ensures DedupeKey(e) != DedupeKey(last)
        {
          var i :| 0 <= i < |front| && front[i] == e;
          assert queue[i] == e && queue[|front|] == last;
        }
        assert forall i :: 0 <= i < |Accepted(wire, front)| ==> Accepted(wire, front)[i] in front;
      }
    }
  }

  /** End to end, over every interleaving of collecting and scanning, appends during a scan
      included, with appends, inserts, saves and removals failing anywhere: the stored fingerprints
      are those of queue lines that the event parser accepts, each once. Once the ingester has read
      the queue to its end, there is exactly one for each such line that the collector wrote. */
  lemma StoredExactlyOnce(wire: Wire, m: Memory, acts: seq<Act>)
    requires wire.Valid() && m.queue == []
    requires forall act :: act in acts && act.Ingest? ==> !act.a.clearFails
    ensures var sys := PerformAll(wire, System(m, EMPTY), acts);
      var accepted := Accepted(wire, sys.memory.queue);
      && DistinctKeys(sys.memory.queue) && NoRepeats(sys.world.stored)
      && (forall f :: f in sys.world.stored ==> IsPrint(wire, accepted, f))
      && (Consumed(sys.world) == Content(sys.world) ==>
            && (forall e :: e in accepted ==> wire.fingerprint(e) in sys.world.stored)
            && |sys.world.stored| == |accepted|)
  {
    hide Perform, PerformAll, Tail, Complete, Join, Encoded, LinesOf, Accepted;
    EveryRunIsLinked(wire, m, acts);
    var sys := PerformAll(wire, System(m, EMPTY), acts);
    var queue, stored := sys.memory.queue, sys.world.stored;
    var accepted := Accepted(wire, queue);
    AcceptedAre(wire, queue);
    QueueLines(wire, m.seen, sys);
    EncodedLines(wire, queue);
    forall f | f in stored
      ensures IsPrint(wire, accepted, f)
    {
      var l :| l in AllLines(sys.world) && wire.cfg.classify(l) == LineKind.Valid(f);
      var i :| 0 <= i < |queue| && Encoded(wire, queue)[i] == l;
      assert queue[i] in queue && queue[i] in accepted;
    }
    if Consumed(sys.world) == Content(sys.world) {
      forall e | e in accepted
        ensures wire.fingerprint(e) in stored
      {
        var i :| 0 <= i < |queue| && queue[i] == e;
        assert Encoded(wire, queue)[i] in sys.world.committed;
      }
      SameCount(wire, accepted, stored);
    }
  }

  lemma QueueLines(wire: Wire, initial: set<EventKey>, sys: System)
    requires wire.Valid() && Linked(wire, initial, sys)
    ensures AllLines(sys.world) == Encoded(wire, sys.memory.queue)
    ensures Consumed(sys.world) == Content(sys.world) ==> sys.world.committed == Encoded(wire, sys.memory.queue)
  {
    hide Tail, Complete, Join, Encoded, LinesOf;
    EncodedIsWhole(wire, sys.memory.queue);
    LinesOfWholeFiles(sys.world.removed, Content(sys.world));
  }

  function Prints(wire: Wire, queue: seq<UsageEvent>): set<EventKey> {
    set e | e in queue :: wire.fingerprint(e)
  }

  lemma SameCount(wire: Wire, queue: seq<UsageEvent>, stored: seq<EventKey>)
    requires wire.Valid() && forall e :: e in queue ==> Writable(e)
    requires DistinctKeys(queue) && NoRepeats(stored)
    requires forall e :: e in queue ==> wire.fingerprint(e) in stored
    requires forall f :: f in stored ==> IsPrint(wire, queue, f)
    ensures |stored| == |queue|
  {
    assert DistinctPrints(wire, queue);
    PrintCount(wire, queue);
    SetCount(stored);
    assert Prints(wire, queue) == set f | f in stored;
  }

  ghost predicate DistinctPrints(wire: Wire, queue: seq<UsageEvent>) {
    forall i, j :: 0 <= i < j < |queue| ==> wire.fingerprint(queue[i]) != wire.fingerprint(queue[j])
  }

  lemma {:induction false} PrintCount(wire: Wire, queue: seq<UsageEvent>)
    requires DistinctPrints(wire, queue)
    ensures |Prints(wire, queue)| == |queue|
  {
    if queue == [] {
      assert Prints(wire, []) == {};
    } else {
      var front, last := queue[..|queue| - 1], queue[|queue| - 1];
      PrintCount(wire, front);
      assert Prints(wire, queue) == Prints(wire, front) + {wire.fingerprint(last)};
      assert wire.fingerprint(last) !in Prints(wire, front);
    }
  }

  lemma {:induction false} SetCount(keys: seq<EventKey>)
    requires NoRepeats(keys)
    ensures |set f | f in keys| == |keys|
  {
    if keys != [] {
      var front, last := keys[..|keys| - 1], keys[|keys| - 1];
      SetCount(front);
      assert (set f | f in keys) == (set f | f in front) + {last};
    }
  }
}
