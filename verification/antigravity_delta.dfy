/** Turning the running counters of an Antigravity settings file into usage events
    (internal/agentusage/collector.go). */
module AntigravityDelta {
  import opened Options
  import opened UsageEvents

  /** One reading of a file: its model and its running counters. */
  datatype Reading = Reading(model: string, counts: TokenCounts)

  /** `b` has no counter below `a`'s. */
  predicate Rises(a: TokenCounts, b: TokenCounts) {
    && a.input <= b.input && a.cached <= b.cached && a.cacheCreation <= b.cacheCreation
    && a.output <= b.output && a.reasoning <= b.reasoning && a.total <= b.total
  }

  function Minus(b: TokenCounts, a: TokenCounts): TokenCounts {
    TokenCounts(b.input - a.input, b.cached - a.cached, b.cacheCreation - a.cacheCreation, 0,
                b.output - a.output, b.reasoning - a.reasoning, b.total - a.total)
  }

  function PartsTotal(c: TokenCounts): int {
    c.input + c.cached + c.cacheCreation + c.output + c.reasoning
  }

  function Delta(previous: Option<Reading>, current: Reading): Option<TokenCounts> {
    if previous.None? || previous.value.model != current.model then None
    else if !Rises(previous.value.counts, current.counts) then None
    else
      var delta := Minus(current.counts, previous.value.counts);
      var delta := if delta.total <= 0 then delta.(total := PartsTotal(delta)) else delta;
      if delta.total <= 0 then None else Some(delta)
  }

  /** What is left when nothing is known of a path. */
  function Known(states: map<string, Reading>, path: string): Option<Reading> {
    if path in states then Some(states[path]) else None
  }

  /** The readings the collector remembers, by path. */
  class DeltaReader {
    var states: map<string, Reading>

    constructor ()
      ensures states == map[]
    {
      states := map[];
    }

    method DeltaEvent(path: string, current: Reading) returns (delta: Option<TokenCounts>)
      modifies this
      ensures states == old(states)[path := current]
      ensures delta == Delta(old(Known(states, path)), current)
    {
      var known := path in states;
      var previous := if known then states[path] else current;
      states := states[path := current];
      if !known || previous.model != current.model {
        return None;
      }
      var d := Minus(current.counts, previous.counts);
      if d.input < 0 || d.cached < 0 || d.cacheCreation < 0 || d.output < 0 || d.reasoning < 0 || d.total < 0 {
        return None;
      }
      if d.total <= 0 {
        d := d.(total := PartsTotal(d));
      }
      if d.total <= 0 {
        return None;
      }
      return Some(d);
    }
  }

  /** A delta is never negative, and there is one exactly when the model is the same, no counter
      fell and some counter rose. */
  lemma DeltaExactly(previous: Option<Reading>, current: Reading)
    ensures Delta(previous, current).Some? <==>
            && previous.Some? && previous.value.model == current.model
            && Rises(previous.value.counts, current.counts)
            && current.counts.(cacheCreation1h := 0) != previous.value.counts.(cacheCreation1h := 0)
    ensures var d := Delta(previous, current);
            d.Some? ==>
              && d.value.input >= 0 && d.value.cached >= 0 && d.value.cacheCreation >= 0
              && d.value.output >= 0 && d.value.reasoning >= 0 && d.value.total > 0
  {}

  // ---------- sums over the readings of one path ----------

  /** The five amounts that are billed. */
  datatype Parts = Parts(input: int, cached: int, cacheCreation: int, output: int, reasoning: int)

  function PartsOf(c: TokenCounts): Parts {
    Parts(c.input, c.cached, c.cacheCreation, c.output, c.reasoning)
  }

  function Plus(a: Parts, b: Parts): Parts {
    Parts(a.input + b.input, a.cached + b.cached, a.cacheCreation + b.cacheCreation,
          a.output + b.output, a.reasoning + b.reasoning)
  }

  const NOTHING := Parts(0, 0, 0, 0, 0)

  function Amount(delta: Option<TokenCounts>): Parts {
    if delta.None? then NOTHING else PartsOf(delta.value)
  }

  /** The sum of everything emitted for the readings of one path, from the first on. */
  function Emitted(rs: seq<Reading>): Parts {
    if |rs| < 2 then NOTHING
    else Plus(Emitted(rs[..|rs| - 1]), Amount(Delta(Some(rs[|rs| - 2]), rs[|rs| - 1])))
  }

  lemma EmittedSnoc(rs: seq<Reading>, r: Reading)
    ensures Emitted(rs + [r]) ==
            if rs == [] then NOTHING else Plus(Emitted(rs), Amount(Delta(Some(rs[|rs| - 1]), r)))
  {
    hide Delta, Amount, Plus;
    var all := rs + [r];
    assert all[..|rs|] == rs && |all| == |rs| + 1;
    if rs != [] {
      assert all[|all| - 2] == rs[|rs| - 1] && all[|all| - 1] == r;
    }
  }

  predicate Continues(a: Reading, b: Reading) {
    a.model == b.model && Rises(a.counts, b.counts)
  }

  /** One model, and no counter ever falls. */
  predicate Stretch(rs: seq<Reading>) {
    forall i | 0 <= i < |rs| - 1 :: Continues(rs[i], rs[i + 1])
  }

  lemma StepAdds(a: Reading, b: Reading)
    requires Continues(a, b)
    ensures Plus(PartsOf(a.counts), Amount(Delta(Some(a), b))) == PartsOf(b.counts)
  {}

  /** Over a stretch the emitted amounts add up to the last reading less the first. */
  lemma {:induction false} StretchTelescopes(rs: seq<Reading>)
    requires rs != [] && Stretch(rs)
    ensures Plus(PartsOf(rs[0].counts), Emitted(rs)) == PartsOf(rs[|rs| - 1].counts)
  {
    if |rs| > 1 {
      StretchTelescopes(rs[..|rs| - 1]);
      assert Continues(rs[|rs| - 2], rs[|rs| - 2 + 1]);
      StepAdds(rs[|rs| - 2], rs[|rs| - 1]);
    }
  }

  lemma BreakEmitsNothing(a: Reading, b: Reading)
    requires !Continues(a, b)
    ensures Amount(Delta(Some(a), b)) == NOTHING
  {}

  lemma PlusAssociates(a: Parts, b: Parts, c: Parts)
    ensures Plus(Plus(a, b), c) == Plus(a, Plus(b, c)) && Plus(a, NOTHING) == a
  {}

  /** A fallen counter or another model emits nothing and starts anew: what is emitted before
      and after it does not depend on it. */
  lemma {:induction false} BreakSplits(rs: seq<Reading>, ts: seq<Reading>)
    requires rs != [] && ts != [] && !Continues(rs[|rs| - 1], ts[0])
    ensures Emitted(rs + ts) == Plus(Emitted(rs), Emitted(ts))
  {
    hide Emitted, Continues, Delta, Amount, Plus;
    var us, t := ts[..|ts| - 1], ts[|ts| - 1];
    assert ts == us + [t] && rs + ts == (rs + us) + [t];
    EmittedSnoc(us, t);
    EmittedSnoc(rs + us, t);
    if us == [] {
      assert rs + us == rs;
      BreakEmitsNothing(rs[|rs| - 1], t);
      PlusAssociates(Emitted(rs), NOTHING, NOTHING);
    } else {
      BreakSplits(rs, us);
      assert (rs + us)[|rs + us| - 1] == us[|us| - 1];
      PlusAssociates(Emitted(rs), Emitted(us), Amount(Delta(Some(us[|us| - 1]), t)));
    }
  }

  // ---------- readings of many paths ----------

  datatype Visit = Visit(path: string, reading: Reading)

  function ReadingsOf(visits: seq<Visit>, path: string): seq<Reading> {
    if visits == [] then []
    else
      var last := visits[|visits| - 1];
      ReadingsOf(visits[..|visits| - 1], path) + if last.path == path then [last.reading] else []
  }

  /** The remembered readings after the visits, starting with none. */
  function StatesAfter(visits: seq<Visit>): map<string, Reading> {
    if visits == [] then map[]
    else
      var last := visits[|visits| - 1];
      StatesAfter(visits[..|visits| - 1])[last.path := last.reading]
  }

  /** The sum of everything emitted for one path during the visits. */
  function EmittedFor(visits: seq<Visit>, path: string): Parts {
    if visits == [] then NOTHING
    else
      var before, last := visits[..|visits| - 1], visits[|visits| - 1];
      Plus(EmittedFor(before, path),
           if last.path == path then Amount(Delta(Known(StatesAfter(before), path), last.reading)) else NOTHING)
  }

  lemma {:induction false} StatesAreLast(visits: seq<Visit>, path: string)
    ensures var rs := ReadingsOf(visits, path);
            Known(StatesAfter(visits), path) == if rs == [] then None else Some(rs[|rs| - 1])
  {
    if visits != [] {
      StatesAreLast(visits[..|visits| - 1], path);
    }
  }

  lemma NothingBefore(rs: seq<Reading>, r: Reading)
    requires rs == []
    ensures Emitted(rs) == NOTHING && Amount(Delta(None, r)) == NOTHING
  {
    hide Rises, Minus;
  }

  lemma LastVisit(visits: seq<Visit>, path: string)
    requires visits != []
    ensures var before, last := visits[..|visits| - 1], visits[|visits| - 1];
            && EmittedFor(visits, path) ==
               Plus(EmittedFor(before, path),
                    if last.path == path then Amount(Delta(Known(StatesAfter(before), path), last.reading)) else NOTHING)
            && ReadingsOf(visits, path) == ReadingsOf(before, path) + if last.path == path then [last.reading] else []
  {}

  /** Paths do not disturb each other: what is emitted for one is decided by its own readings. */
  lemma {:induction false} PathsAreSeparate(visits: seq<Visit>, path: string)
    ensures EmittedFor(visits, path) == Emitted(ReadingsOf(visits, path))
  {
    if visits == [] {
      assert ReadingsOf(visits, path) == [];
    } else {
      LastVisit(visits, path);
      hide EmittedFor, ReadingsOf, StatesAfter, Emitted, Delta, Plus, Amount, Known;
      var before, last := visits[..|visits| - 1], visits[|visits| - 1];
      PathsAreSeparate(before, path);
      StatesAreLast(before, path);
      var rs := ReadingsOf(before, path);
      PlusAssociates(Emitted(rs), NOTHING, NOTHING);
      if last.path == path {
        EmittedSnoc(rs, last.reading);
        NothingBefore([], last.reading);
      } else {
        assert ReadingsOf(visits, path) == rs;
      }
    }
  }
}
