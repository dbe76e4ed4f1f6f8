/** Usage sessions detected from successive polls (internal/agent/session_manager.go).

    The manager sees one poll at a time; the reference below cuts the whole poll history into
    segments. The manager's store is, after every poll, the table of those segments. */
module SessionManager {
  import opened Options

  /** The first three values of a poll: subscription, search and tool requests. */
  datatype Triple = Triple(sub: real, search: real, tool: real)

  const ZERO := Triple(0.0, 0.0, 0.0)

  /** One poll: its time, its values, and whether the store would accept a new session. */
  datatype Poll = Poll(time: int, values: seq<real>, createSucceeds: bool)

  type History = seq<Poll>

  /** A stored session. */
  datatype Row = Row(start: int, startValues: Triple, count: nat, max: Triple, end: Option<int>)

  function FirstThree(values: seq<real>): Triple {
    Triple(if |values| > 0 then values[0] else 0.0,
           if |values| > 1 then values[1] else 0.0,
           if |values| > 2 then values[2] else 0.0)
  }

  function Larger(a: real, b: real): real {
    if a < b then b else a
  }

  function MaxOf(a: Triple, b: Triple): Triple {
    Triple(Larger(a.sub, b.sub), Larger(a.search, b.search), Larger(a.tool, b.tool))
  }

  // ---------- the reference segmentation ----------

  predicate Changed(h: History, i: nat) {
    0 < i < |h| && h[i].values != h[i - 1].values
  }

  predicate Opens(h: History, i: nat) {
    Changed(h, i) && h[i].createSucceeds
  }

  function FirstOpening(h: History, from: nat): (i: nat)
    requires from <= |h|
    ensures from <= i <= |h|
    ensures i < |h| ==> Opens(h, i)
    ensures forall j :: from <= j < i ==> !Opens(h, j)
    decreases |h| - from
  {
    if from == |h| || Opens(h, from) then from else FirstOpening(h, from + 1)
  }

  /** The last change in a session that begins at `a`, up to poll `j`. */
  function LastChange(h: History, a: nat, j: nat): (c: nat)
    requires a <= j < |h| && Changed(h, a)
    ensures a <= c <= j && Changed(h, c)
    ensures forall k :: c < k <= j ==> !Changed(h, k)
  {
    if j == a || Changed(h, j) then j else LastChange(h, a, j - 1)
  }

  /** Poll `j` is unchanged and more than the idle timeout after the last change. */
  predicate Expires(h: History, idle: int, a: nat, j: nat)
    requires a < |h| && Changed(h, a)
  {
    a < j < |h| && !Changed(h, j) && h[j].time - h[LastChange(h, a, j)].time > idle
  }

  function FirstExpiry(h: History, idle: int, a: nat, from: nat): (j: nat)
    requires a < from <= |h| && Changed(h, a)
    ensures from <= j <= |h|
    ensures j < |h| ==> Expires(h, idle, a, j)
    ensures forall k :: from <= k < j ==> !Expires(h, idle, a, k)
    decreases |h| - from
  {
    if from == |h| || Expires(h, idle, a, from) then from else FirstExpiry(h, idle, a, from + 1)
  }

  /** Polls first..end belong to the session; the poll at `end` closes it. */
  datatype Segment = Segment(first: nat, end: Option<nat>)

  function Segments(h: History, idle: int, from: nat): seq<Segment>
    requires from <= |h|
    decreases |h| - from
  {
    var a := FirstOpening(h, from);
    if a == |h| then []
    else
      var e := FirstExpiry(h, idle, a, a + 1);
      if e == |h| then [Segment(a, None)] else [Segment(a, Some(e))] + Segments(h, idle, e + 1)
  }

  /** The largest values of polls a..n, and at least zero. */
  function MaxValues(h: History, a: nat, n: nat): Triple
    requires a <= n <= |h|
  {
    if n == a then ZERO else MaxOf(MaxValues(h, a, n - 1), FirstThree(h[n - 1].values))
  }

  predicate SegmentOf(h: History, s: Segment) {
    0 < s.first < |h| && (s.end.Some? ==> s.first < s.end.value < |h|)
  }

  function RowOf(h: History, s: Segment): Row
    requires SegmentOf(h, s)
  {
    var end := if s.end.Some? then s.end.value else |h|;
    Row(h[s.first].time, FirstThree(h[s.first - 1].values), end - s.first, MaxValues(h, s.first, end),
        if s.end.Some? then Some(h[s.end.value].time) else None)
  }

  function RowsOf(h: History, segments: seq<Segment>): (rows: seq<Row>)
    requires forall s :: s in segments ==> SegmentOf(h, s)
    ensures |rows| == |segments|
  {
    if segments == [] then []
    else RowsOf(h, segments[..|segments| - 1]) + [RowOf(h, segments[|segments| - 1])]
  }

  predicate Open(segments: seq<Segment>) {
    segments != [] && segments[|segments| - 1].end.None?
  }

  // ---------- properties of the segmentation ----------

  lemma Unfold(h: History, idle: int, from: nat)
    requires from <= |h|
    ensures var a := FirstOpening(h, from);
      Segments(h, idle, from) ==
      if a == |h| then []
      else
        var e := FirstExpiry(h, idle, a, a + 1);
        if e == |h| then [Segment(a, None)] else [Segment(a, Some(e))] + Segments(h, idle, e + 1)
  {
  }

  predicate Before(s: Segment, t: Segment) {
    s.end.Some? && s.end.value < t.first
  }

  ghost predicate InOrder(ss: seq<Segment>) {
    forall i, j :: 0 <= i < j < |ss| ==> Before(ss[i], ss[j])
  }

  /** The session begins at a change and ends at its first expiry, or has none yet. */
  ghost predicate WellCut(h: History, idle: int, s: Segment) {
    && SegmentOf(h, s) && Opens(h, s.first)
    && (s.end.Some? ==> Expires(h, idle, s.first, s.end.value))
    && forall k :: s.first < k < (if s.end.Some? then s.end.value else |h|) ==> !Expires(h, idle, s.first, k)
  }

  /** Sessions never overlap, only the last can be open, and each is cut where it should be. */
  lemma {:induction false} SessionsAreSeparate(h: History, idle: int, from: nat)
    requires from <= |h|
    ensures InOrder(Segments(h, idle, from))
    ensures forall s :: s in Segments(h, idle, from) ==> from <= s.first && WellCut(h, idle, s)
    decreases |h| - from
  {
    hide FirstOpening, FirstExpiry, LastChange, Segments, InOrder, Expires;
    Unfold(h, idle, from);
    var a := FirstOpening(h, from);
    OneInOrder(a);
    if a < |h| {
      var e := FirstExpiry(h, idle, a, a + 1);
      if e < |h| {
        SessionsAreSeparate(h, idle, e + 1);
        PrependInOrder(Segment(a, Some(e)), Segments(h, idle, e + 1));
      } else {
        assert WellCut(h, idle, Segment(a, None));
      }
    }
  }

  lemma OneInOrder(a: nat)
    ensures InOrder([]) && InOrder([Segment(a, None)])
  {
  }

  lemma PrependInOrder(first: Segment, rest: seq<Segment>)
    requires first.end.Some? && InOrder(rest) && forall s :: s in rest ==> first.end.value < s.first
    ensures InOrder([first] + rest)
  {
    var ss := [first] + rest;
    forall i, j | 0 <= i < j < |ss|
      ensures Before(ss[i], ss[j])
    {
      assert ss[j] == rest[j - 1] && rest[j - 1] in rest;
      if i > 0 {
        assert Before(rest[i - 1], rest[j - 1]);
      }
    }
  }

  predicate Covers(h: History, s: Segment, i: nat) {
    s.first <= i < if s.end.Some? then s.end.value else |h|
  }

  /** Every change for which a session could be created belongs to a session. */
  lemma {:induction false} NoChangeMissed(h: History, idle: int, from: nat, i: nat)
    requires from <= i < |h| && Opens(h, i)
    ensures exists s :: s in Segments(h, idle, from) && Covers(h, s, i)
    decreases |h| - from
  {
    hide FirstOpening, FirstExpiry, LastChange;
    var a := FirstOpening(h, from);
    var e := FirstExpiry(h, idle, a, a + 1);
    var ss := Segments(h, idle, from);
    if e < |h| && i > e {
      NoChangeMissed(h, idle, e + 1, i);
      var s :| s in Segments(h, idle, e + 1) && Covers(h, s, i);
      assert s in ss;
    } else {
      assert ss[0] in ss && Covers(h, ss[0], i);
    }
  }

  predicate NoneAbove(t: Triple, m: Triple) {
    t.sub <= m.sub && t.search <= m.search && t.tool <= m.tool
  }

  /** Each stored maximum bounds every poll of the session and is attained, or is zero. */
  lemma {:induction false} MaximaAreMaxima(h: History, a: nat, n: nat)
    requires a <= n <= |h|
    ensures var m := MaxValues(h, a, n);
      && NoneAbove(ZERO, m) && (forall i :: a <= i < n ==> NoneAbove(FirstThree(h[i].values), m))
      && (m.sub == 0.0 || exists i :: a <= i < n && FirstThree(h[i].values).sub == m.sub)
      && (m.search == 0.0 || exists i :: a <= i < n && FirstThree(h[i].values).search == m.search)
      && (m.tool == 0.0 || exists i :: a <= i < n && FirstThree(h[i].values).tool == m.tool)
  {
    hide FirstThree;
    if n > a {
      MaximaAreMaxima(h, a, n - 1);
    }
  }

  // ---------- one more poll ----------

  lemma {:induction false} SameChange(h: History, p: Poll, a: nat, j: nat)
    requires a <= j < |h| && Changed(h, a)
    ensures Changed(h + [p], a) && LastChange(h + [p], a, j) == LastChange(h, a, j)
  {
    if j != a && !Changed(h, j) {
      SameChange(h, p, a, j - 1);
    }
  }

  lemma {:induction false} OpeningSnoc(h: History, p: Poll, from: nat)
    requires from <= |h|
    ensures var i := FirstOpening(h, from);
      FirstOpening(h + [p], from) ==
      if i < |h| then i else if Opens(h + [p], |h|) then |h| else |h| + 1
    decreases |h| - from
  {
    if from < |h| && !Opens(h, from) {
      OpeningSnoc(h, p, from + 1);
    }
  }

  lemma {:induction false} ExpirySnoc(h: History, p: Poll, idle: int, a: nat, from: nat)
    requires a < from <= |h| && Changed(h, a)
    ensures Changed(h + [p], a)
    ensures var j := FirstExpiry(h, idle, a, from);
      FirstExpiry(h + [p], idle, a, from) ==
      if j < |h| then j else if Expires(h + [p], idle, a, |h|) then |h| else |h| + 1
    decreases |h| - from
  {
    if from < |h| {
      SameChange(h, p, a, from);
      if !Expires(h, idle, a, from) {
        ExpirySnoc(h, p, idle, a, from + 1);
      }
    }
  }

  lemma NothingAfterEnd(h: History, idle: int)
    ensures Segments(h, idle, |h|) == []
  {
  }

  /** The segments after the last poll of `h`, given those before it: it closes or keeps the
      open session, or opens one, and touches nothing earlier. */
  function NextSegments(h: History, idle: int, ss: seq<Segment>): seq<Segment>
    requires h != []
  {
    var n := |h| - 1;
    if Open(ss) then
      var a := ss[|ss| - 1].first;
      if a < n && Changed(h, a) && Expires(h, idle, a, n) then ss[..|ss| - 1] + [Segment(a, Some(n))] else ss
    else if Opens(h, n) then ss + [Segment(n, None)] else ss
  }

  lemma PrependNext(h: History, idle: int, first: Segment, rest: seq<Segment>)
    requires h != [] && first.end.Some?
    ensures NextSegments(h, idle, [first] + rest) == [first] + NextSegments(h, idle, rest)
  {
    hide LastChange;
    var ss := [first] + rest;
    if rest != [] {
      assert ss[|ss| - 1] == rest[|rest| - 1] && ss[..|ss| - 1] == [first] + rest[..|rest| - 1];
    }
  }

  lemma {:induction false} SegmentsSnoc(h: History, p: Poll, idle: int, from: nat)
    requires from <= |h|
    ensures Segments(h + [p], idle, from) == NextSegments(h + [p], idle, Segments(h, idle, from))
    decreases |h| - from
  {
    hide FirstOpening, FirstExpiry, LastChange, Segments, Expires, Changed;
    var h' := h + [p];
    Unfold(h, idle, from);
    Unfold(h', idle, from);
    var a := FirstOpening(h, from);
    OpeningSnoc(h, p, from);
    if a == |h| {
      if Opens(h', |h|) {
        OpensAtEnd(h', idle);
      }
    } else {
      var e := FirstExpiry(h, idle, a, a + 1);
      ExpirySnoc(h, p, idle, a, a + 1);
      if e < |h| {
        SegmentsSnoc(h, p, idle, e + 1);
        PrependNext(h', idle, Segment(a, Some(e)), Segments(h, idle, e + 1));
      } else {
        NothingAfterEnd(h', idle);
      }
    }
  }

  lemma OpensAtEnd(h: History, idle: int)
    requires h != [] && Opens(h, |h| - 1)
    ensures FirstExpiry(h, idle, |h| - 1, |h|) == |h|
  {
  }

  lemma {:induction false} SameMax(h: History, p: Poll, a: nat, n: nat)
    requires a <= n <= |h|
    ensures MaxValues(h + [p], a, n) == MaxValues(h, a, n)
  {
    if n > a {
      SameMax(h, p, a, n - 1);
    }
  }

  lemma {:induction false} SameRows(h: History, p: Poll, segments: seq<Segment>)
    requires forall s :: s in segments ==> SegmentOf(h, s) && s.end.Some?
    ensures forall s :: s in segments ==> SegmentOf(h + [p], s)
    ensures RowsOf(h + [p], segments) == RowsOf(h, segments)
  {
    if segments != [] {
      var s := segments[|segments| - 1];
      SameRows(h, p, segments[..|segments| - 1]);
      SameMax(h, p, s.first, s.end.value);
    }
  }

  lemma RowsSnoc(h: History, segments: seq<Segment>, s: Segment)
    requires forall t :: t in segments ==> SegmentOf(h, t)
    requires SegmentOf(h, s)
    ensures forall t :: t in segments + [s] ==> SegmentOf(h, t)
    ensures RowsOf(h, segments + [s]) == RowsOf(h, segments) + [RowOf(h, s)]
  {
    assert (segments + [s])[..|segments|] == segments;
  }

  lemma EarlierClosed(h: History, idle: int)
    ensures var ss := Segments(h, idle, 0);
      forall i :: 0 <= i < |ss| - 1 ==> ss[i].end.Some?
  {
    hide Segments;
    SessionsAreSeparate(h, idle, 0);
    var ss := Segments(h, idle, 0);
    forall i | 0 <= i < |ss| - 1
      ensures ss[i].end.Some?
    {
      assert Before(ss[i], ss[|ss| - 1]);
    }
  }

  lemma AllClosed(ss: seq<Segment>)
    requires forall i :: 0 <= i < |ss| - 1 ==> ss[i].end.Some?
    ensures forall s :: s in ss && s.end.None? ==> Open(ss) && s == ss[|ss| - 1]
    ensures forall s :: ss != [] && s in ss[..|ss| - 1] ==> s in ss && s.end.Some?
  {
    forall s | s in ss && s.end.None?
      ensures Open(ss) && s == ss[|ss| - 1]
    {
      var i :| 0 <= i < |ss| && ss[i] == s;
    }
    if ss != [] {
      forall s | s in ss[..|ss| - 1]
        ensures s in ss && s.end.Some?
      {
        var i :| 0 <= i < |ss| - 1 && ss[i] == s;
      }
    }
  }

  /** The rows of `h` are still those of `h` and one more poll, but for an open session. */
  lemma RowsKept(h: History, p: Poll, ss: seq<Segment>)
    requires forall s :: s in ss ==> SegmentOf(h, s)
    requires forall i :: 0 <= i < |ss| - 1 ==> ss[i].end.Some?
    ensures forall s :: s in ss ==> SegmentOf(h + [p], s)
    ensures !Open(ss) ==> RowsOf(h + [p], ss) == RowsOf(h, ss)
    ensures Open(ss) ==>
      var a, front := ss[|ss| - 1].first, ss[..|ss| - 1];
      && ss == front + [Segment(a, None)] && 0 < a < |h|
      && (forall s :: s in front ==> SegmentOf(h, s) && SegmentOf(h + [p], s))
      && RowsOf(h + [p], front) == RowsOf(h, front)
      && RowsOf(h, ss) == RowsOf(h, front) + [RowOf(h, Segment(a, None))]
  {
    hide RowOf;
    AllClosed(ss);
    if Open(ss) {
      SameRows(h, p, ss[..|ss| - 1]);
      assert ss[|ss| - 1] in ss;
    } else {
      SameRows(h, p, ss);
    }
  }

  /** The row of an open session after one more poll: counted, or closed by it. */
  lemma OpenRow(h: History, p: Poll, a: nat)
    requires 0 < a < |h|
    ensures var r := RowOf(h, Segment(a, None));
      && RowOf(h + [p], Segment(a, None)) == r.(count := r.count + 1, max := MaxOf(r.max, FirstThree(p.values)))
      && RowOf(h + [p], Segment(a, Some(|h|))) == r.(end := Some(p.time))
  {
    SameMax(h, p, a, |h|);
  }

  lemma NewRow(h: History, p: Poll)
    requires h != []
    ensures SegmentOf(h + [p], Segment(|h|, None))
    ensures RowOf(h + [p], Segment(|h|, None)) ==
            Row(p.time, FirstThree(h[|h| - 1].values), 1, MaxOf(ZERO, FirstThree(p.values)), None)
  {
    assert MaxValues(h + [p], |h|, |h|) == ZERO;
  }

  /** An unchanged poll moves no last change; a changed one is the last change. */
  lemma LastChangeSnoc(h: History, p: Poll, a: nat)
    requires a < |h| && Changed(h, a)
    ensures Changed(h + [p], a)
    ensures LastChange(h + [p], a, |h|) == if Changed(h + [p], |h|) then |h| else LastChange(h, a, |h| - 1)
  {
    SameChange(h, p, a, |h| - 1);
  }

  /** What one poll does to the stored rows, and whether a session is then open. */
  function NextRows(rows: seq<Row>, open: bool, changed: bool, prev: seq<real>, p: Poll, last: int, idle: int)
    : (seq<Row>, bool)
    requires open ==> rows != []
  {
    if open then
      var n := |rows| - 1;
      if !changed && p.time - last > idle then (rows[n := rows[n].(end := Some(p.time))], false)
      else (rows[n := rows[n].(count := rows[n].count + 1, max := MaxOf(rows[n].max, FirstThree(p.values)))], true)
    else if changed && p.createSucceeds then
      (rows + [Row(p.time, FirstThree(prev), 1, MaxOf(ZERO, FirstThree(p.values)), None)], true)
    else (rows, false)
  }

  /** Where the rows stand: those of the segments, with the time of the last change. */
  ghost predicate Stands(h: History, ss: seq<Segment>, rows: seq<Row>, last: int) {
    && (forall s :: s in ss ==> SegmentOf(h, s)) && rows == RowsOf(h, ss)
    && (Open(ss) ==>
          var a := ss[|ss| - 1].first;
          a < |h| && Changed(h, a) && last == h[LastChange(h, a, |h| - 1)].time)
  }

  lemma OpenRowsFollow(h: History, p: Poll, idle: int, ss: seq<Segment>, rows: seq<Row>, last: int)
    requires h != [] && Open(ss) && Stands(h, ss, rows, last)
    requires forall i :: 0 <= i < |ss| - 1 ==> ss[i].end.Some?
    ensures var next := NextRows(rows, true, Changed(h + [p], |h|), h[|h| - 1].values, p, last, idle);
      var ss' := NextSegments(h + [p], idle, ss);
      && Open(ss') == next.1
      && Stands(h + [p], ss', next.0, if Changed(h + [p], |h|) then p.time else last)
  {
    RowsKept(h, p, ss);
    var a, front := ss[|ss| - 1].first, ss[..|ss| - 1];
    LastChangeSnoc(h, p, a);
    OpenRow(h, p, a);
    RowsSnoc(h + [p], front, Segment(a, None));
    RowsSnoc(h + [p], front, Segment(a, Some(|h|)));
    hide RowsOf, RowOf, FirstThree, MaxOf, LastChange;
  }

  lemma ClosedRowsFollow(h: History, p: Poll, idle: int, ss: seq<Segment>, rows: seq<Row>, last: int)
    requires h != [] && !Open(ss) && Stands(h, ss, rows, last)
    requires forall i :: 0 <= i < |ss| - 1 ==> ss[i].end.Some?
    ensures var next := NextRows(rows, false, Changed(h + [p], |h|), h[|h| - 1].values, p, last, idle);
      var ss' := NextSegments(h + [p], idle, ss);
      && Open(ss') == next.1
      && Stands(h + [p], ss', next.0, if Changed(h + [p], |h|) then p.time else last)
  {
    RowsKept(h, p, ss);
    NewRow(h, p);
    RowsSnoc(h + [p], ss, Segment(|h|, None));
    if Changed(h + [p], |h|) {
      ChangeIsLast(h + [p], |h|);
    }
    hide RowsOf, RowOf, FirstThree, MaxOf, LastChange;
  }

  /** The rows of the segmented history follow, poll by poll, those of the manager. */
  lemma RowsFollow(h: History, p: Poll, idle: int, rows: seq<Row>, last: int)
    requires h != [] && Stands(h, Segments(h, idle, 0), rows, last)
    ensures var ss := Segments(h, idle, 0);
      && (Open(ss) ==> rows != [])
      && (var next := NextRows(rows, Open(ss), Changed(h + [p], |h|), h[|h| - 1].values, p, last, idle);
          var ss' := Segments(h + [p], idle, 0);
          && Open(ss') == next.1
          && Stands(h + [p], ss', next.0, if Changed(h + [p], |h|) then p.time else last))
  {
    hide Segments, Stands, NextRows, NextSegments;
    SegmentsSnoc(h, p, idle, 0);
    EarlierClosed(h, idle);
    var ss := Segments(h, idle, 0);
    if Open(ss) {
      OpenRowsFollow(h, p, idle, ss, rows, last);
    } else {
      ClosedRowsFollow(h, p, idle, ss, rows, last);
    }
    RowsPerSegment(h, ss, rows, last);
  }

  lemma RowsPerSegment(h: History, ss: seq<Segment>, rows: seq<Row>, last: int)
    requires Stands(h, ss, rows, last)
    ensures |rows| == |ss|
  {
  }

  lemma ChangeIsLast(h: History, i: nat)
    requires Changed(h, i)
    ensures LastChange(h, i, i) == i
  {
  }

  lemma FirstPoll(p: Poll, idle: int, rows: seq<Row>, last: int)
    requires Stands([], Segments([], idle, 0), rows, last)
    ensures Segments([p], idle, 0) == Segments([], idle, 0) == [] && Stands([p], [], rows, last)
  {
  }

  // ---------- the manager ----------

  class SessionManager {
    const idleTimeout: int
    /** The index of the open session's row. */
    var session: Option<nat>
    var lastActivity: int
    var prevValues: seq<real>
    var hasPrev: bool
    var rows: seq<Row>
    ghost var history: History

    ghost predicate Valid()
      reads this
    {
      var ss := Segments(history, idleTimeout, 0);
      && Stands(history, ss, rows, lastActivity)
      && hasPrev == (history != [])
      && prevValues == (if history == [] then [] else history[|history| - 1].values)
      && session == (if Open(ss) then Some(|rows| - 1) else None)
    }

    constructor (idleTimeout: int)
      ensures Valid() && history == [] && this.idleTimeout == idleTimeout
    {
      this.idleTimeout := idleTimeout;
      session, lastActivity, prevValues, hasPrev, rows := None, 0, [], false, [];
      history := [];
    }

    method HasChanged(values: seq<real>) returns (changed: bool)
      ensures changed == (hasPrev && values != prevValues)
    {
      if !hasPrev {
        return false;
      }
      if |values| != |prevValues| {
        return true;
      }
      for i := 0 to |values|
        invariant values[..i] == prevValues[..i]
      {
        if values[i] != prevValues[i] {
          return true;
        }
      }
      assert values == values[..|values|] == prevValues;
      return false;
    }

    method IncrementAndUpdate(values: seq<real>)
      requires session.Some? && session.value < |rows|
      modifies `rows
      ensures var r := old(rows)[session.value];
        rows == old(rows)[session.value := r.(count := r.count + 1, max := MaxOf(r.max, FirstThree(values)))]
    {
      var i := session.value;
      rows := rows[i := rows[i].(count := rows[i].count + 1)];
      rows := rows[i := rows[i].(max := MaxOf(rows[i].max, FirstThree(values)))];
    }

    method CloseSession(time: int)
      requires session.Some? && session.value < |rows|
      modifies `rows, `session
      ensures session.None?
      ensures rows == old(rows)[old(session).value := old(rows)[old(session).value].(end := Some(time))]
    {
      rows := rows[session.value := rows[session.value].(end := Some(time))];
      session := None;
    }

    /** After every poll the stored rows are those of the segmented history. */
    method ReportPoll(now: int, values: seq<real>, createSucceeds: bool) returns (active: bool)
      requires Valid()
      modifies this
      ensures Valid() && history == old(history) + [Poll(now, values, createSucceeds)]
      ensures active == Changed(history, |old(history)|)
    {
      ghost var h, p := history, Poll(now, values, createSucceeds);
      hide Segments, Stands, FirstThree, MaxOf;
      if h == [] {
        FirstPoll(p, idleTimeout, rows, lastActivity);
        assert h + [p] == [p];
      } else {
        RowsFollow(h, p, idleTimeout, rows, lastActivity);
        RowsPerSegment(h, Segments(h, idleTimeout, 0), rows, lastActivity);
      }
      var changed := HasChanged(values);
      var oldPrev := prevValues;
      prevValues := values;
      history := history + [p];
      if !hasPrev {
        hasPrev := true;
        return false;
      }
      if changed {
        if session.None? {
          session, lastActivity := Some(|rows|), now;
          if !createSucceeds {
            session := None;
            return true;
          }
          rows := rows + [Row(now, FirstThree(oldPrev), 0, ZERO, None)];
        }
        lastActivity := now;
        IncrementAndUpdate(values);
        assert rows[..|rows| - 1] == old(rows)[..|rows| - 1];
        assert old(session).None? ==> rows == old(rows) + [rows[|rows| - 1]];
        return true;
      }
      if session.Some? {
        if now - lastActivity > idleTimeout {
          CloseSession(now);
        } else {
          IncrementAndUpdate(values);
        }
      }
      return false;
    }

    /** Shutdown closes the open session and leaves every other row alone. */
    method Close(now: int)
      requires Valid()
      modifies this
      ensures session.None? && history == old(history)
      ensures rows == if old(session).Some? then CloseRow(old(rows), old(session).value, now) else old(rows)
    {
      if session.Some? {
        CloseSession(now);
      }
    }
  }

  function CloseRow(rows: seq<Row>, i: nat, time: int): seq<Row> {
    if i < |rows| then rows[i := rows[i].(end := Some(time))] else rows
  }
}
