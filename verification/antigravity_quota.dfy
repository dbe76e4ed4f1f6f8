/** Grouping model quotas into logical quotas with reset windows
    (internal/api/antigravity_types.go). */
module AntigravityQuota {
  import opened Options
  import opened Text

  datatype Group = ClaudeGPT | GeminiPro | GeminiFlash

  const GROUP_ORDER: seq<Group> := [ClaudeGPT, GeminiPro, GeminiFlash]

  const WEEKLY := "weekly"
  const FIVE_HOUR := "five_hour"
  const UNKNOWN := "unknown"

  const KIND_ORDER: seq<string> := [WEEKLY, FIVE_HOUR, UNKNOWN]

  const SIX_HOURS: int := 6 * 3600

  /** One model's quota as the provider reports it; an empty kind is derived from the reset. */
  datatype Model = Model(id: string, shown: string, fraction: real, exhausted: bool, reset: Option<int>, kind: string)

  function GroupOf(m: Model): Group {
    var text := ToLower(Trim(m.id)) + " " + ToLower(Trim(m.shown));
    if Contains(text, "gemini") then if Contains(text, "flash") then GeminiFlash else GeminiPro
    else ClaudeGPT
  }

  function KindOf(m: Model, now: int): string {
    if m.kind != "" then m.kind
    else if m.reset.None? then UNKNOWN
    else if m.reset.value - now > SIX_HOURS then WEEKLY
    else FIVE_HOUR
  }

  function Clamp(x: real): real {
    if x < 0.0 then 0.0 else if x > 1.0 then 1.0 else x
  }

  predicate Spent(m: Model) {
    m.exhausted || m.fraction <= 0.0
  }

  function AppendUnique(ids: seq<string>, id: string): seq<string> {
    if id == "" || id in ids then ids else ids + [id]
  }

  /** The accumulated models of one group and kind. */
  datatype Window = Window(ids: seq<string>, fraction: real, hasRemaining: bool, exhausted: bool, reset: Option<int>)

  const NO_MODELS := Window([], 1.0, false, false, None)

  /** A model in a tighter spot takes over; one in the same spot can only delay the reset. */
  function AddModel(w: Window, m: Model): Window {
    var tighter := !w.hasRemaining || m.fraction < w.fraction;
    var delays := m.reset.Some? && (tighter || (m.fraction == w.fraction && (w.reset.None? || m.reset.value > w.reset.value)));
    Window(AppendUnique(w.ids, m.id),
           if tighter then m.fraction else w.fraction,
           true,
           w.exhausted || Spent(m),
           if delays then m.reset else w.reset)
  }

  function Fold(ms: seq<Model>): Window {
    if ms == [] then NO_MODELS else AddModel(Fold(ms[..|ms| - 1]), ms[|ms| - 1])
  }

  /** The accumulated models of one group. */
  datatype Acc = Acc(ids: seq<string>, exhausted: bool, windows: map<string, Window>)

  function UniqueIDs(ms: seq<Model>): seq<string> {
    if ms == [] then [] else AppendUnique(UniqueIDs(ms[..|ms| - 1]), ms[|ms| - 1].id)
  }

  function InGroup(ms: seq<Model>, g: Group): seq<Model> {
    if ms == [] then []
    else
      var last := ms[|ms| - 1];
      InGroup(ms[..|ms| - 1], g) + if GroupOf(last) == g then [last] else []
  }

  function OfKind(ms: seq<Model>, kind: string, now: int): seq<Model> {
    if ms == [] then []
    else
      var last := ms[|ms| - 1];
      OfKind(ms[..|ms| - 1], kind, now) + if KindOf(last, now) == kind then [last] else []
  }

  lemma FoldSnoc(ms: seq<Model>, m: Model)
    ensures Fold(ms + [m]) == AddModel(Fold(ms), m)
    ensures UniqueIDs(ms + [m]) == AppendUnique(UniqueIDs(ms), m.id)
  {
    assert (ms + [m])[..|ms|] == ms;
  }

  lemma GroupSnoc(ms: seq<Model>, m: Model, g: Group)
    ensures InGroup(ms + [m], g) == InGroup(ms, g) + if GroupOf(m) == g then [m] else []
  {
    assert (ms + [m])[..|ms|] == ms;
  }

  lemma KindSnoc(ms: seq<Model>, m: Model, kind: string, now: int)
    ensures OfKind(ms + [m], kind, now) == OfKind(ms, kind, now) + if KindOf(m, now) == kind then [m] else []
  {
    assert (ms + [m])[..|ms|] == ms;
  }

  /** What an accumulator holds once the models `ms` of its group are in it. */
  predicate Holds(acc: Acc, ms: seq<Model>, now: int) {
    && acc.ids == UniqueIDs(ms)
    && (acc.exhausted <==> exists m | m in ms :: Spent(m))
    && (forall kind | kind in acc.windows :: OfKind(ms, kind, now) != [] && acc.windows[kind] == Fold(OfKind(ms, kind, now)))
    && (forall m | m in ms :: KindOf(m, now) in acc.windows)
  }

  // ---------- the grouped quotas ----------

  datatype WindowOut = WindowOut(kind: string, ids: seq<string>, fraction: real, exhausted: bool, reset: Option<int>)

  datatype GroupOut = GroupOut(
    group: Group, ids: seq<string>, windows: seq<WindowOut>,
    fraction: real, kind: string, exhausted: bool, reset: Option<int>)

  function WindowOf(kind: string, w: Window): WindowOut {
    var remaining := Clamp(w.fraction);
    WindowOut(kind, w.ids, remaining, w.exhausted || remaining <= 0.0, w.reset)
  }

  /** The windows with models, in the fixed order of kinds. */
  function WindowsOf(ms: seq<Model>, kinds: seq<string>, now: int): seq<WindowOut> {
    if kinds == [] then []
    else
      var kind := kinds[|kinds| - 1];
      var models := OfKind(ms, kind, now);
      WindowsOf(ms, kinds[..|kinds| - 1], now) + if models == [] then [] else [WindowOf(kind, Fold(models))]
  }

  /** The window that binds: the first with the least remaining; a full one only if weekly. */
  function Binding(ws: seq<WindowOut>): (real, string, Option<int>) {
    if ws == [] then (1.0, UNKNOWN, None)
    else
      var best, w := Binding(ws[..|ws| - 1]), ws[|ws| - 1];
      if w.fraction < best.0 || (w.fraction == best.0 && w.kind == WEEKLY) then (w.fraction, w.kind, w.reset) else best
  }

  function Grouped(ms: seq<Model>, g: Group, now: int): GroupOut {
    var ws := WindowsOf(ms, KIND_ORDER, now);
    var (remaining, kind, reset) := Binding(ws);
    var fraction := Clamp(remaining);
    GroupOut(g, UniqueIDs(ms), ws, fraction, kind,
             (exists m | m in ms :: Spent(m)) || (ms != [] && fraction <= 0.0), reset)
  }

  lemma AddedToGroup(acc: Acc, ms: seq<Model>, m: Model, now: int)
    requires Holds(acc, ms, now)
    ensures var kind := KindOf(m, now);
            var w := if kind in acc.windows then acc.windows[kind] else NO_MODELS;
            Holds(Acc(AppendUnique(acc.ids, m.id), acc.exhausted || Spent(m), acc.windows[kind := AddModel(w, m)]),
                  ms + [m], now)
  {
    hide Fold, UniqueIDs, OfKind, KindOf, AddModel, AppendUnique, Spent;
    var kind := KindOf(m, now);
    FoldSnoc(ms, m);
    FoldSnoc(OfKind(ms, kind, now), m);
    forall k: string ensures OfKind(ms + [m], k, now) == OfKind(ms, k, now) + if kind == k then [m] else [] {
      KindSnoc(ms, m, k, now);
    }
    if kind !in acc.windows {
      NoneOfKind(ms, kind, now);
      FoldEmpty();
    }
    var all := ms + [m];
    var windows := acc.windows[kind := AddModel(if kind in acc.windows then acc.windows[kind] else NO_MODELS, m)];
    assert m in all && forall x | x in ms :: x in all;
    assert forall x | x in all :: x in ms || x == m;
    assert (acc.exhausted || Spent(m)) <==> exists x | x in all :: Spent(x);
    assert forall x | x in all :: KindOf(x, now) in windows;
    forall k | k in windows ensures OfKind(all, k, now) != [] && windows[k] == Fold(OfKind(all, k, now)) {
      if k == kind {
        assert OfKind(all, k, now) == OfKind(ms, k, now) + [m];
      } else {
        assert OfKind(all, k, now) == OfKind(ms, k, now);
      }
    }
  }

  lemma FoldEmpty()
    ensures Fold([]) == NO_MODELS
  {}

  lemma {:induction false} NoneOfKind(ms: seq<Model>, kind: string, now: int)
    requires forall m | m in ms :: KindOf(m, now) != kind
    ensures OfKind(ms, kind, now) == []
  {
    if ms != [] {
      NoneOfKind(ms[..|ms| - 1], kind, now);
    }
  }

  lemma {:induction false} OfKindMembers(ms: seq<Model>, kind: string, now: int)
    ensures forall m :: m in OfKind(ms, kind, now) <==> m in ms && KindOf(m, now) == kind
  {
    hide KindOf;
    if ms != [] {
      OfKindMembers(ms[..|ms| - 1], kind, now);
      assert ms == ms[..|ms| - 1] + [ms[|ms| - 1]];
    }
  }

  method GroupModels(models: seq<Model>, now: int) returns (groups: seq<GroupOut>)
    ensures |groups| == |GROUP_ORDER|
    ensures forall i | 0 <= i < |groups| :: groups[i] == Grouped(InGroup(models, GROUP_ORDER[i]), GROUP_ORDER[i], now)
  {
    hide Grouped, InGroup, GroupOf, KindOf, AddModel, AppendUnique, Spent, Holds;
    var accs: map<Group, Acc> := map[];
    for i := 0 to |GROUP_ORDER|
      invariant forall j | 0 <= j < i :: GROUP_ORDER[j] in accs
      invariant forall g | g in accs :: accs[g] == Acc([], false, map[])
    {
      accs := accs[GROUP_ORDER[i] := Acc([], false, map[])];
    }
    forall g: Group ensures g in accs {
      assert GROUP_ORDER[0] in accs && GROUP_ORDER[1] in accs && GROUP_ORDER[2] in accs;
      match g case ClaudeGPT => case GeminiPro => case GeminiFlash =>
    }
    EmptyHolds(now);
    for i := 0 to |models|
      invariant forall g: Group :: g in accs && Holds(accs[g], InGroup(models[..i], g), now)
    {
      var m := models[i];
      var acc := accs[GroupOf(m)];
      var kind := KindOf(m, now);
      var w := if kind in acc.windows then acc.windows[kind] else NO_MODELS;
      ghost var before := accs;
      accs := accs[GroupOf(m) := Acc(AppendUnique(acc.ids, m.id), acc.exhausted || Spent(m),
                                     acc.windows[kind := AddModel(w, m)])];
      assert models[..i + 1] == models[..i] + [m];
      forall g: Group ensures Holds(accs[g], InGroup(models[..i + 1], g), now) {
        GroupSnoc(models[..i], m, g);
        if g == GroupOf(m) {
          AddedToGroup(acc, InGroup(models[..i], g), m, now);
        } else {
          assert InGroup(models[..i] + [m], g) == InGroup(models[..i], g);
        }
      }
    }
    assert models[..|models|] == models;
    groups := [];
    for i := 0 to |GROUP_ORDER|
      invariant |groups| == i
      invariant forall j | 0 <= j < i :: groups[j] == Grouped(InGroup(models, GROUP_ORDER[j]), GROUP_ORDER[j], now)
    {
      var g := GROUP_ORDER[i];
      var out := Summarize(accs[g], g, InGroup(models, g), now);
      groups := groups + [out];
    }
  }

  lemma EmptyHolds(now: int)
    ensures forall g :: InGroup([], g) == [] && Holds(Acc([], false, map[]), [], now)
  {}

  /** Turns an accumulator into the group's quota. */
  method Summarize(acc: Acc, g: Group, ghost ms: seq<Model>, now: int) returns (out: GroupOut)
    requires Holds(acc, ms, now)
    ensures out == Grouped(ms, g, now)
  {
    hide Fold, UniqueIDs, OfKind, KindOf, Spent, WindowOf;
    var remaining, kind, reset := 1.0, UNKNOWN, None;
    var windows := [];
    for i := 0 to |KIND_ORDER|
      invariant windows == WindowsOf(ms, KIND_ORDER[..i], now)
      invariant (remaining, kind, reset) == Binding(windows)
    {
      var k := KIND_ORDER[i];
      assert KIND_ORDER[..i + 1] == KIND_ORDER[..i] + [k];
      KindPresent(acc, ms, k, now);
      if k in acc.windows {
        var w := WindowOf(k, acc.windows[k]);
        WindowsSnoc(ms, KIND_ORDER[..i], k, now);
        BindingSnoc(windows, w);
        WindowKeepsKind(k, acc.windows[k]);
        windows := windows + [w];
        if w.fraction < remaining || (w.fraction == remaining && k == WEEKLY) {
          remaining, kind, reset := w.fraction, k, w.reset;
        }
      } else {
        WindowsSnoc(ms, KIND_ORDER[..i], k, now);
      }
    }
    assert KIND_ORDER[..|KIND_ORDER|] == KIND_ORDER;
    if remaining < 0.0 {
      remaining := 0.0;
    }
    if remaining > 1.0 {
      remaining := 1.0;
    }
    HasWindows(acc, ms, now);
    out := GroupOut(g, acc.ids, windows, remaining, kind, acc.exhausted || (|acc.windows| > 0 && remaining <= 0.0), reset);
  }

  lemma HasWindows(acc: Acc, ms: seq<Model>, now: int)
    requires Holds(acc, ms, now)
    ensures |acc.windows| > 0 <==> ms != []
  {
    if ms != [] {
      assert ms[0] in ms;
      assert KindOf(ms[0], now) in acc.windows;
      assert acc.windows != map[];
    } else {
      assert acc.windows == map[];
    }
  }

  lemma KindPresent(acc: Acc, ms: seq<Model>, kind: string, now: int)
    requires Holds(acc, ms, now)
    ensures kind in acc.windows <==> OfKind(ms, kind, now) != []
  {
    OfKindMembers(ms, kind, now);
    hide OfKind, KindOf;
    if OfKind(ms, kind, now) != [] {
      assert OfKind(ms, kind, now)[0] in OfKind(ms, kind, now);
    }
  }

  lemma WindowKeepsKind(kind: string, w: Window)
    ensures WindowOf(kind, w).kind == kind
  {}

  lemma WindowsSnoc(ms: seq<Model>, kinds: seq<string>, kind: string, now: int)
    ensures WindowsOf(ms, kinds + [kind], now) ==
            WindowsOf(ms, kinds, now)
            + if OfKind(ms, kind, now) == [] then [] else [WindowOf(kind, Fold(OfKind(ms, kind, now)))]
  {
    assert (kinds + [kind])[..|kinds|] == kinds;
  }

  lemma BindingSnoc(ws: seq<WindowOut>, w: WindowOut)
    ensures Binding(ws + [w]) ==
            var best := Binding(ws);
            if w.fraction < best.0 || (w.fraction == best.0 && w.kind == WEEKLY) then (w.fraction, w.kind, w.reset) else best
  {
    assert (ws + [w])[..|ws|] == ws;
  }
}
