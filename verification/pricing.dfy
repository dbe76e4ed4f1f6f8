/** Which price applies to an event, and what an event costs (internal/agentusage/pricing.go,
    internal/agentusage/parsers.go). Times are integers with 0 for the zero time; amounts are
    reals, so only the final rounding is modelled. */
module Pricing {
  import opened Options
  import opened Text
  import opened UsageEvents

  datatype Entry = Entry(input: real, output: real, cacheRead: real, cacheCreation: real, cacheCreation1h: real)

  datatype Period = Period(from: int, entry: Entry)

  // ---------- price periods ----------

  /** The periods effective from `time`, in order. */
  function At(s: seq<Period>, time: int): seq<Period> {
    if s == [] then []
    else
      var last := s[|s| - 1];
      At(s[..|s| - 1], time) + if last.from == time then [last] else []
  }

  predicate Sorted(s: seq<Period>) {
    forall i, j | 0 <= i < j < |s| :: s[i].from <= s[j].from
  }

  /** `t` is `s` sorted by date, periods of one date keeping their order. */
  ghost predicate StableSort(s: seq<Period>, t: seq<Period>) {
    Sorted(t) && |t| == |s| && forall time :: At(t, time) == At(s, time)
  }

  lemma AtSnoc(s: seq<Period>, p: Period, time: int)
    ensures At(s + [p], time) == At(s, time) + if p.from == time then [p] else []
  {
    assert (s + [p])[..|s|] == s;
  }

  /** Puts a period behind every other that is not later. */
  function Insert(s: seq<Period>, p: Period): (r: seq<Period>)
    requires Sorted(s)
    ensures Sorted(r) && |r| == |s| + 1
    ensures forall q | q in r :: q == p || q in s
  {
    if s == [] || s[|s| - 1].from <= p.from then s + [p]
    else
      var u := Insert(s[..|s| - 1], p);
      assert forall i | 0 <= i < |u| :: u[i] in u;
      u + [s[|s| - 1]]
  }

  function SortPeriods(s: seq<Period>): (r: seq<Period>)
    ensures Sorted(r) && |r| == |s|
  {
    if s == [] then [] else Insert(SortPeriods(s[..|s| - 1]), s[|s| - 1])
  }

  lemma {:induction false} InsertAt(s: seq<Period>, p: Period, time: int)
    requires Sorted(s)
    ensures At(Insert(s, p), time) == At(s + [p], time)
  {
    hide At;
    AtSnoc(s, p, time);
    if s != [] && s[|s| - 1].from > p.from {
      var u, last := s[..|s| - 1], s[|s| - 1];
      assert s == u + [last];
      InsertAt(u, p, time);
      AtSnoc(u, last, time);
      AtSnoc(u, p, time);
      AtSnoc(Insert(u, p), last, time);
    }
  }

  lemma {:induction false} SortIsStable(s: seq<Period>)
    ensures StableSort(s, SortPeriods(s))
  {
    if s != [] {
      var u, last := s[..|s| - 1], s[|s| - 1];
      assert s == u + [last];
      SortIsStable(u);
      forall time ensures At(SortPeriods(s), time) == At(s, time) {
        InsertAt(SortPeriods(u), last, time);
        AtSnoc(SortPeriods(u), last, time);
        AtSnoc(u, last, time);
      }
    }
  }

  /** No later period of the same date. */
  predicate LastOfDate(s: seq<Period>, i: nat) {
    i < |s| && forall j | i < j < |s| :: s[j].from != s[i].from
  }

  predicate FirstOfDate(s: seq<Period>, i: nat) {
    i < |s| && forall j | 0 <= j < i :: s[j].from != s[i].from
  }

  /** The configured period that applies at a time: the latest one effective by then, or the
      earliest if none is; without a time the latest of all. Of equal dates the last configured
      counts, but the first if the date is still to come. */
  predicate Applies(s: seq<Period>, at: int, i: nat) {
    && i < |s|
    && if at == 0 then
         LastOfDate(s, i) && forall j | 0 <= j < |s| :: s[j].from <= s[i].from
       else if exists j :: 0 <= j < |s| && s[j].from <= at then
         LastOfDate(s, i) && s[i].from <= at && forall j | 0 <= j < |s| && s[j].from <= at :: s[j].from <= s[i].from
       else
         FirstOfDate(s, i) && forall j | 0 <= j < |s| :: s[i].from <= s[j].from
  }

  /** The scan of the sorted periods, which stops at the first one still to come. */
  method PickPeriod(periods: seq<Period>, at: int) returns (entry: Entry, k: nat)
    requires periods != [] && Sorted(periods)
    ensures Stops(periods, at, k) && entry == periods[k].entry
  {
    entry, k := periods[|periods| - 1].entry, |periods| - 1;
    if at != 0 {
      entry, k := periods[0].entry, 0;
      for i := 0 to |periods|
        invariant k < |periods| && entry == periods[k].entry
        invariant i == 0 ==> k == 0
        invariant i > 0 ==> k == i - 1 && forall j | 0 <= j < i :: periods[j].from <= at
      {
        if periods[i].from > at {
          break;
        }
        entry, k := periods[i].entry, i;
      }
    }
  }

  lemma {:induction false} AtHas(s: seq<Period>, j: nat)
    requires j < |s|
    ensures At(s, s[j].from) != []
  {
    if j < |s| - 1 {
      AtHas(s[..|s| - 1], j);
    }
  }

  lemma {:induction false} LastAt(s: seq<Period>, time: int) returns (i: nat)
    requires At(s, time) != []
    ensures LastOfDate(s, i) && s[i].from == time && s[i] == At(s, time)[|At(s, time)| - 1]
  {
    if s[|s| - 1].from == time {
      i := |s| - 1;
    } else {
      i := LastAt(s[..|s| - 1], time);
    }
  }

  lemma {:induction false} FirstAt(s: seq<Period>, time: int) returns (i: nat)
    requires At(s, time) != []
    ensures FirstOfDate(s, i) && s[i].from == time && s[i] == At(s, time)[0]
  {
    var u := s[..|s| - 1];
    if At(u, time) == [] {
      i := |s| - 1;
      forall j | 0 <= j < i ensures s[j].from != s[i].from {
        if s[j].from == time {
          AtHas(u, j);
        }
      }
    } else {
      i := FirstAt(u, time);
    }
  }

  lemma {:induction false} LastIs(s: seq<Period>, i: nat)
    requires LastOfDate(s, i)
    ensures At(s, s[i].from) != [] && At(s, s[i].from)[|At(s, s[i].from)| - 1] == s[i]
  {
    if i < |s| - 1 {
      assert LastOfDate(s[..|s| - 1], i);
      LastIs(s[..|s| - 1], i);
    }
  }

  lemma {:induction false} FirstIs(s: seq<Period>, i: nat)
    requires FirstOfDate(s, i)
    ensures At(s, s[i].from) != [] && At(s, s[i].from)[0] == s[i]
  {
    var u := s[..|s| - 1];
    if i < |s| - 1 {
      assert FirstOfDate(u, i);
      FirstIs(u, i);
    } else if At(u, s[i].from) != [] {
      var j := FirstAt(u, s[i].from);
    }
  }

  /** Every configured date is there after the sort. */
  lemma DateSurvives(s: seq<Period>, t: seq<Period>, j: nat) returns (m: nat)
    requires StableSort(s, t) && j < |s|
    ensures m < |t| && t[m].from == s[j].from
  {
    AtHas(s, j);
    m := LastAt(t, s[j].from);
  }

  /** What the scan of the sorted periods stops at. */
  predicate Stops(t: seq<Period>, at: int, k: nat) {
    && k < |t|
    && (at == 0 ==> k == |t| - 1)
    && (at != 0 ==> (t[k].from <= at || k == 0) && forall j | k < j < |t| :: t[j].from > at)
  }

  lemma SortedAt(s: seq<Period>, t: seq<Period>, time: int)
    requires StableSort(s, t)
    ensures Sorted(t) && At(t, time) == At(s, time)
  {}

  /** The last period of its date after the sort is the last configured of that date. */
  lemma LastBeforeSort(s: seq<Period>, t: seq<Period>, k: nat) returns (i: nat)
    requires StableSort(s, t) && LastOfDate(t, k)
    ensures LastOfDate(s, i) && s[i] == t[k]
  {
    SortedAt(s, t, t[k].from);
    hide At, StableSort;
    LastIs(t, k);
    i := LastAt(s, t[k].from);
  }

  lemma FirstBeforeSort(s: seq<Period>, t: seq<Period>, k: nat) returns (i: nat)
    requires StableSort(s, t) && FirstOfDate(t, k)
    ensures FirstOfDate(s, i) && s[i] == t[k]
  {
    SortedAt(s, t, t[k].from);
    hide At, StableSort;
    FirstIs(t, k);
    i := FirstAt(s, t[k].from);
  }

  /** The stable sort and the scan together find the configured period that applies, for every
      history and every time. */
  lemma ScanFindsApplicable(s: seq<Period>, t: seq<Period>, at: int, k: nat) returns (i: nat)
    requires StableSort(s, t) && Stops(t, at, k)
    ensures Applies(s, at, i) && s[i] == t[k]
  {
    hide StableSort, LastOfDate, FirstOfDate;
    var time := t[k].from;
    SortedAt(s, t, time);
    StopsAtDate(t, at, k);
    if at == 0 || time <= at {
      i := LastBeforeSort(s, t, k);
      forall j | 0 <= j < |s| && (at == 0 || s[j].from <= at) ensures s[j].from <= time {
        var m := DateSurvives(s, t, j);
        assert m <= k;
      }
    } else {
      i := FirstBeforeSort(s, t, 0);
      forall j | 0 <= j < |s| ensures time <= s[j].from && s[j].from > at {
        var m := DateSurvives(s, t, j);
      }
    }
    InRange(s, i);
  }

  lemma InRange(s: seq<Period>, i: nat)
    ensures LastOfDate(s, i) || FirstOfDate(s, i) ==> i < |s|
  {}

  /** The scan stops at the last period of a date, unless all are still to come. */
  lemma StopsAtDate(t: seq<Period>, at: int, k: nat)
    requires Sorted(t) && Stops(t, at, k)
    ensures at == 0 || t[k].from <= at ==> LastOfDate(t, k)
    ensures at != 0 && t[k].from > at ==> k == 0
    ensures FirstOfDate(t, 0)
  {}

  /** And only one period applies. */
  lemma OnePeriodApplies(s: seq<Period>, at: int, i: nat, j: nat)
    requires Applies(s, at, i) && Applies(s, at, j)
    ensures i == j
  {
    var time := s[i].from;
    assert s[j].from == time;
  }

  /** The sorted periods of a model: of its history, or of itself; an empty history is refused. */
  method BuildPeriods(own: Period, history: Option<seq<Period>>) returns (r: Result<seq<Period>, string>)
    ensures r.Err? <==> history == Some([])
    ensures r.Ok? ==> r.value != [] && StableSort(if history.Some? then history.value else [own], r.value)
  {
    var configs := [own];
    if history.Some? {
      if |history.value| == 0 {
        return Err("history is empty");
      }
      configs := history.value;
    }
    SortIsStable(configs);
    hide StableSort;
    r := Ok(SortPeriods(configs));
  }

  /** Sorts the configured periods and picks the price at a time. */
  method PriceAt(configured: seq<Period>, at: int) returns (entry: Entry)
    requires configured != []
    ensures exists i: nat :: Applies(configured, at, i) && entry == configured[i].entry
    ensures forall i: nat | Applies(configured, at, i) :: entry == configured[i].entry
  {
    SortIsStable(configured);
    var k: nat;
    entry, k := PickPeriod(SortPeriods(configured), at);
    ghost var found := ScanFindsApplicable(configured, SortPeriods(configured), at, k);
    hide Applies;
    forall i: nat | Applies(configured, at, i) ensures i == found {
      OnePeriodApplies(configured, at, i, found);
    }
  }
}
