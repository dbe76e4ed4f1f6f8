/** What grouping computes, whatever the order of the models, and where the order shows
    (internal/api/antigravity_types.go). */
module AntigravityOrder {
  import opened Options
  import opened AntigravityQuota

  // ---------- IDs ----------

  /** Where an ID first appears; the length if it does not. */
  function FirstIndex(ms: seq<Model>, id: string): nat {
    if ms == [] then 0 else if ms[0].id == id then 0 else 1 + FirstIndex(ms[1..], id)
  }

  lemma {:induction false} FirstIndexSnoc(ms: seq<Model>, m: Model, id: string)
    ensures FirstIndex(ms + [m], id) ==
            var i := FirstIndex(ms, id);
            if i < |ms| then i else if m.id == id then |ms| else |ms| + 1
    ensures FirstIndex(ms, id) <= |ms|
  {
    if ms != [] {
      FirstIndexSnoc(ms[1..], m, id);
      assert (ms + [m])[1..] == ms[1..] + [m];
    }
  }

  /** The IDs of a list of models: every one that is not empty, once, as they first appear. */
  lemma {:induction false} UniqueIDsExact(ms: seq<Model>)
    ensures forall id :: id in UniqueIDs(ms) <==> id != "" && FirstIndex(ms, id) < |ms|
    ensures var ids := UniqueIDs(ms);
            forall i, j | 0 <= i < j < |ids| :: FirstIndex(ms, ids[i]) < FirstIndex(ms, ids[j])
  {
    if ms != [] {
      var u, m := ms[..|ms| - 1], ms[|ms| - 1];
      assert ms == u + [m];
      UniqueIDsExact(u);
      forall id ensures FirstIndex(ms, id) == var i := FirstIndex(u, id);
                                              if i < |u| then i else if m.id == id then |u| else |u| + 1 {
        FirstIndexSnoc(u, m, id);
      }
      FoldSnoc(u, m);
      hide FirstIndex, UniqueIDs;
      var before, ids := UniqueIDs(u), UniqueIDs(ms);
      assert ids == before || (ids == before + [m.id] && m.id !in before && m.id != "");
      forall i, j | 0 <= i < j < |ids| ensures FirstIndex(ms, ids[i]) < FirstIndex(ms, ids[j]) {
        assert ids[i] == before[i] && before[i] in before;
        if j < |before| {
          assert ids[j] == before[j] && before[j] in before;
        }
      }
    }
  }

  // ---------- fractions and resets ----------

  /** `f` is the least fraction. */
  predicate IsLeast(ms: seq<Model>, f: real) {
    (exists m | m in ms :: m.fraction == f) && forall m | m in ms :: f <= m.fraction
  }

  function Later(a: Option<int>, b: Option<int>): Option<int> {
    if a.None? then b
    else if b.None? then a
    else if a.value >= b.value then a else b
  }

  /** The latest reset among the models with a given fraction. */
  function LatestAt(ms: seq<Model>, f: real): Option<int> {
    if ms == [] then None
    else
      var last := ms[|ms| - 1];
      Later(LatestAt(ms[..|ms| - 1], f), if last.fraction == f then last.reset else None)
  }

  lemma LatestSnoc(ms: seq<Model>, m: Model, f: real)
    ensures LatestAt(ms + [m], f) == Later(LatestAt(ms, f), if m.fraction == f then m.reset else None)
  {
    assert (ms + [m])[..|ms|] == ms;
  }

  /** `r` is no earlier than any reset among the models with fraction `f`, and one of them. */
  predicate IsLatest(ms: seq<Model>, f: real, r: Option<int>) {
    && (forall m | m in ms && m.fraction == f && m.reset.Some? :: r.Some? && m.reset.value <= r.value)
    && (r.Some? ==> exists m | m in ms :: m.fraction == f && m.reset == r)
  }

  lemma {:induction false} LatestIs(ms: seq<Model>, f: real)
    ensures IsLatest(ms, f, LatestAt(ms, f))
  {
    if ms != [] {
      var u, m := ms[..|ms| - 1], ms[|ms| - 1];
      assert ms == u + [m];
      LatestIs(u, f);
      assert m in ms && forall x | x in u :: x in ms;
    }
  }

  lemma LeastSnoc(u: seq<Model>, m: Model, f: real)
    requires IsLeast(u, f)
    ensures IsLeast(u + [m], if m.fraction < f then m.fraction else f)
  {
    var ms := u + [m];
    var x :| x in u && x.fraction == f;
    assert m in ms && x in ms;
  }

  lemma SpentSnoc(u: seq<Model>, m: Model)
    ensures (exists x | x in u + [m] :: Spent(x)) <==> Spent(m) || exists x | x in u :: Spent(x)
  {
    hide Spent;
    assert m in u + [m] && forall x | x in u :: x in u + [m];
  }

  lemma {:induction false} FoldFraction(ms: seq<Model>)
    requires ms != []
    ensures Fold(ms).hasRemaining && IsLeast(ms, Fold(ms).fraction)
    ensures Fold(ms).exhausted <==> exists m | m in ms :: Spent(m)
  {
    hide Fold, Spent, IsLeast, AppendUnique;
    var u, m := ms[..|ms| - 1], ms[|ms| - 1];
    assert ms == u + [m];
    FoldSnoc(u, m);
    SpentSnoc(u, m);
    if u != [] {
      FoldFraction(u);
      LeastSnoc(u, m, Fold(u).fraction);
    } else {
      FoldEmpty();
      LeastOfOne(m);
      assert ms == [m];
    }
  }

  lemma LeastOfOne(m: Model)
    ensures IsLeast([m], m.fraction)
  {
    assert m in [m];
  }

  /** While every model has more than `f` left, the reset kept is one of theirs. */
  lemma {:induction false} ResetBefore(ms: seq<Model>, f: real)
    requires forall m | m in ms :: m.fraction > f
    ensures Fold(ms).reset.Some? ==> exists m | m in ms :: m.fraction > f && m.reset == Fold(ms).reset
    ensures Fold(ms).hasRemaining ==> Fold(ms).fraction > f
  {
    if ms != [] {
      var u, m := ms[..|ms| - 1], ms[|ms| - 1];
      assert ms == u + [m];
      ResetBefore(u, f);
      assert m in ms && forall x | x in u :: x in ms;
    }
  }

  /** After the first model at the least fraction, only models at it can move the reset. */
  lemma {:induction false} ResetAfter(pre: seq<Model>, post: seq<Model>, f: real)
    requires Fold(pre).hasRemaining && Fold(pre).fraction == f
    requires forall m | m in post :: m.fraction >= f
    ensures Fold(pre + post).hasRemaining && Fold(pre + post).fraction == f
    ensures Fold(pre + post).reset == Later(Fold(pre).reset, LatestAt(post, f))
  {
    if post == [] {
      assert pre + post == pre;
    } else {
      var u, m := post[..|post| - 1], post[|post| - 1];
      assert post == u + [m] && pre + post == (pre + u) + [m];
      ResetAfter(pre, u, f);
      FoldSnoc(pre + u, m);
    }
  }

  /** The first model at the least fraction. */
  lemma FirstLeast(ms: seq<Model>, f: real) returns (k: nat)
    requires IsLeast(ms, f)
    ensures k < |ms| && ms[k].fraction == f && forall i | 0 <= i < k :: ms[i].fraction > f
  {
    var m :| m in ms && m.fraction == f;
    var j :| 0 <= j < |ms| && ms[j] == m;
    k := 0;
    while ms[k].fraction > f
      invariant k <= j && forall i | 0 <= i < k :: ms[i].fraction > f
      decreases |ms| - k
    {
      k := k + 1;
    }
    assert ms[k] in ms;
  }

  /** The reset a window ends up with: the latest at its least fraction, or, when the first model
      there has none, possibly a later one that a roomier model left behind. */
  lemma ResetIs(ms: seq<Model>, f: real, k: nat)
    requires IsLeast(ms, f) && k < |ms| && ms[k].fraction == f && forall i | 0 <= i < k :: ms[i].fraction > f
    ensures Fold(ms).fraction == f
    ensures Fold(ms).reset ==
            if ms[k].reset.Some? then LatestAt(ms, f) else Later(Fold(ms[..k]).reset, LatestAt(ms, f))
  {
    var pre, m, post := ms[..k], ms[k], ms[k + 1..];
    assert ms == (pre + [m]) + post;
    assert forall x | x in post :: x in ms;
    ResetBefore(pre, f);
    FoldSnoc(pre, m);
    ResetAfter(pre + [m], post, f);
    LatestSplits(pre + [m], post, f);
    LatestSnoc(pre, m, f);
    NoneAt(pre, f);
    hide Fold, LatestAt;
    assert Fold(ms) == Fold((pre + [m]) + post);
  }

  lemma {:induction false} LatestSplits(s: seq<Model>, t: seq<Model>, f: real)
    ensures LatestAt(s + t, f) == Later(LatestAt(s, f), LatestAt(t, f))
  {
    if t == [] {
      assert s + t == s;
    } else {
      var u, m := t[..|t| - 1], t[|t| - 1];
      assert t == u + [m] && s + t == (s + u) + [m];
      LatestSplits(s, u, f);
      LatestSnoc(s + u, m, f);
    }
  }

  lemma {:induction false} NoneAt(ms: seq<Model>, f: real)
    requires forall m | m in ms :: m.fraction != f
    ensures LatestAt(ms, f) == None
  {
    if ms != [] {
      NoneAt(ms[..|ms| - 1], f);
    }
  }

  // ---------- where the order of the models shows ----------

  /** Every model at the least fraction has a reset, or no roomier model has a later one than
      all of them. */
  predicate OrderFree(ms: seq<Model>, f: real) {
    || (forall m | m in ms && m.fraction == f :: m.reset.Some?)
    || (forall m | m in ms && m.fraction != f && m.reset.Some? ::
          LatestAt(ms, f).Some? && m.reset.value <= LatestAt(ms, f).value)
  }

  lemma OrderFreeReset(ms: seq<Model>, f: real)
    requires IsLeast(ms, f) && OrderFree(ms, f)
    ensures Fold(ms).fraction == f && Fold(ms).reset == LatestAt(ms, f)
  {
    hide Fold, LatestAt, IsLeast;
    var k := FirstLeast(ms, f);
    ResetIs(ms, f, k);
    if ms[k].reset.None? {
      assert ms[k] in ms;
      var pre := ms[..k];
      assert forall x | x in pre :: x in ms;
      ResetBefore(pre, f);
      StaleResetLoses(ms, f, pre);
    }
  }

  lemma StaleResetLoses(ms: seq<Model>, f: real, pre: seq<Model>)
    requires forall m | m in pre :: m in ms
    requires exists m | m in ms :: m.fraction == f && m.reset.None?
    requires OrderFree(ms, f)
    requires Fold(pre).reset.Some? ==> exists m | m in pre :: m.fraction > f && m.reset == Fold(pre).reset
    ensures Later(Fold(pre).reset, LatestAt(ms, f)) == LatestAt(ms, f)
  {
    hide Fold, LatestAt;
    var stale := Fold(pre).reset;
    if stale.Some? {
      var m :| m in pre && m.fraction > f && m.reset == stale;
      assert m in ms && m.fraction != f;
    }
  }

  lemma SameMembers(s: seq<Model>, t: seq<Model>)
    requires multiset(s) == multiset(t)
    ensures forall m :: m in s <==> m in t
    ensures |s| == |t|
  {
    assert forall m :: m in s <==> m in multiset(s);
    assert forall m :: m in t <==> m in multiset(t);
    assert |multiset(s)| == |s| && |multiset(t)| == |t|;
  }

  lemma LatestUnique(s: seq<Model>, t: seq<Model>, f: real)
    requires forall m :: m in s <==> m in t
    ensures LatestAt(s, f) == LatestAt(t, f)
  {
    LatestIs(s, f);
    LatestIs(t, f);
    hide LatestAt;
  }

  lemma LeastUnique(ms: seq<Model>, f: real, g: real)
    requires IsLeast(ms, f) && IsLeast(ms, g)
    ensures f == g
  {}

  /** For order-free models, a permutation keeps the fraction, the exhaustion and the reset. */
  lemma PermutedFold(s: seq<Model>, t: seq<Model>)
    requires s != [] && multiset(s) == multiset(t) && OrderFree(s, Fold(s).fraction)
    ensures Fold(t) == Fold(s).(ids := Fold(t).ids)
    ensures OrderFree(t, Fold(t).fraction)
  {
    SameMembers(s, t);
    FoldFraction(s);
    FoldFraction(t);
    var f := Fold(s).fraction;
    assert IsLeast(t, f);
    LeastUnique(t, f, Fold(t).fraction);
    LatestUnique(s, t, f);
    hide Fold, LatestAt, Spent;
    assert OrderFree(t, f);
    OrderFreeReset(s, f);
    OrderFreeReset(t, f);
  }

  lemma Without(ms: seq<Model>, m: Model) returns (rest: seq<Model>)
    requires m in ms
    ensures multiset(ms) == multiset([m] + rest)
  {
    var i :| 0 <= i < |ms| && ms[i] == m;
    rest := ms[..i] + ms[i + 1..];
    assert ms == ms[..i] + [m] + ms[i + 1..];
  }

  /** The reset of a window is the same in every order of its models if and only if they are
      order-free. */
  lemma ResetOrderFreeExactly(ms: seq<Model>)
    requires ms != []
    ensures (forall ps | multiset(ps) == multiset(ms) :: Fold(ps).reset == Fold(ms).reset)
            <==> OrderFree(ms, Fold(ms).fraction)
  {
    if OrderFree(ms, Fold(ms).fraction) {
      forall ps | multiset(ps) == multiset(ms) ensures Fold(ps).reset == Fold(ms).reset {
        PermutedFold(ms, ps);
      }
    } else {
      var ps, qs := OrderShows(ms);
      assert Fold(ps).reset != Fold(ms).reset || Fold(qs).reset != Fold(ms).reset;
    }
  }

  /** A list starting with two of its models. */
  lemma StartWith(ms: seq<Model>, m: Model, n: Model) returns (rest: seq<Model>)
    requires m in ms && n in ms && m != n
    ensures multiset([m, n] + rest) == multiset(ms) == multiset([n, m] + rest)
  {
    var others := Without(ms, m);
    assert n in others by {
      assert n in multiset([m] + others);
    }
    rest := Without(others, n);
    assert [m, n] + rest == [m] + ([n] + rest) && [n, m] + rest == [n] + ([m] + rest);
  }

  /** A least model without a reset, and a roomier one with a late reset. */
  predicate Conflict(ms: seq<Model>, f: real, n: Model, x: Model) {
    && n in ms && n.fraction == f && n.reset.None?
    && x in ms && x.fraction > f && x.reset.Some?
    && !(LatestAt(ms, f).Some? && x.reset.value <= LatestAt(ms, f).value)
  }

  /** The roomier model's reset is kept if it comes first, and lost if the other does. */
  lemma ConflictShows(ms: seq<Model>, f: real, n: Model, x: Model, ps: seq<Model>, qs: seq<Model>)
    requires IsLeast(ms, f) && Conflict(ms, f, n, x)
    requires multiset(ps) == multiset(ms) && multiset(qs) == multiset(ms)
    requires |ps| >= 2 && |qs| >= 2 && ps[0] == n && qs[0] == x && qs[1] == n
    ensures Fold(ps).reset != Fold(qs).reset
  {
    SameMembers(ms, ps);
    SameMembers(ms, qs);
    LatestUnique(ms, ps, f);
    LatestUnique(ms, qs, f);
    FoldOne(x);
    hide LatestAt, Fold;
    ResetIs(ps, f, 0);
    ResetIs(qs, f, 1);
    assert qs[..1] == [x] && ps[..0] == [];
  }

  /** Otherwise two orders disagree. */
  lemma OrderShows(ms: seq<Model>) returns (ps: seq<Model>, qs: seq<Model>)
    requires ms != [] && !OrderFree(ms, Fold(ms).fraction)
    ensures multiset(ps) == multiset(ms) && multiset(qs) == multiset(ms)
    ensures Fold(ps).reset != Fold(qs).reset
  {
    hide LatestAt, Fold;
    var f := Fold(ms).fraction;
    FoldFraction(ms);
    var n :| n in ms && n.fraction == f && n.reset.None?;
    var x :| x in ms && x.fraction != f && x.reset.Some?
             && !(LatestAt(ms, f).Some? && x.reset.value <= LatestAt(ms, f).value);
    var rest := StartWith(ms, n, x);
    ps, qs := [n, x] + rest, [x, n] + rest;
    SameMembers(ms, ps);
    ConflictShows(ms, f, n, x, ps, qs);
  }

  lemma FoldOne(m: Model)
    ensures Fold([m]).reset == m.reset
    ensures Fold([]).reset == None
  {
    assert [m][..0] == [];
  }

  // ---------- the whole grouping ----------

  lemma {:induction false} GroupMultiset(ms: seq<Model>, g: Group, m: Model)
    ensures multiset(InGroup(ms, g))[m] == if GroupOf(m) == g then multiset(ms)[m] else 0
  {
    hide GroupOf;
    if ms != [] {
      var u, last := ms[..|ms| - 1], ms[|ms| - 1];
      assert ms == u + [last];
      GroupMultiset(u, g, m);
      GroupSnoc(u, last, g);
    }
  }

  lemma {:induction false} KindMultiset(ms: seq<Model>, kind: string, now: int, m: Model)
    ensures multiset(OfKind(ms, kind, now))[m] == if KindOf(m, now) == kind then multiset(ms)[m] else 0
  {
    hide KindOf;
    if ms != [] {
      var u, last := ms[..|ms| - 1], ms[|ms| - 1];
      assert ms == u + [last];
      KindMultiset(u, kind, now, m);
      KindSnoc(u, last, kind, now);
    }
  }

  lemma GroupPermutes(ms: seq<Model>, ps: seq<Model>, g: Group)
    requires multiset(ms) == multiset(ps)
    ensures multiset(InGroup(ms, g)) == multiset(InGroup(ps, g))
  {
    forall m ensures multiset(InGroup(ms, g))[m] == multiset(InGroup(ps, g))[m] {
      GroupMultiset(ms, g, m);
      GroupMultiset(ps, g, m);
    }
  }

  lemma KindPermutes(ms: seq<Model>, ps: seq<Model>, kind: string, now: int)
    requires multiset(ms) == multiset(ps)
    ensures multiset(OfKind(ms, kind, now)) == multiset(OfKind(ps, kind, now))
  {
    forall m ensures multiset(OfKind(ms, kind, now))[m] == multiset(OfKind(ps, kind, now))[m] {
      KindMultiset(ms, kind, now, m);
      KindMultiset(ps, kind, now, m);
    }
  }

  /** A window but for the order of its IDs. */
  function Bare(w: WindowOut): WindowOut {
    w.(ids := [])
  }

  function AllBare(ws: seq<WindowOut>): seq<WindowOut> {
    seq(|ws|, i requires 0 <= i < |ws| => Bare(ws[i]))
  }

  predicate WindowsOrderFree(ms: seq<Model>, kinds: seq<string>, now: int) {
    forall kind | kind in kinds && OfKind(ms, kind, now) != [] ::
      OrderFree(OfKind(ms, kind, now), Fold(OfKind(ms, kind, now)).fraction)
  }

  lemma WindowPermutes(ms: seq<Model>, ps: seq<Model>, kind: string, now: int)
    requires multiset(ms) == multiset(ps) && WindowsOrderFree(ms, [kind], now)
    ensures OfKind(ms, kind, now) == [] <==> OfKind(ps, kind, now) == []
    ensures OfKind(ms, kind, now) != [] ==>
              Bare(WindowOf(kind, Fold(OfKind(ms, kind, now)))) == Bare(WindowOf(kind, Fold(OfKind(ps, kind, now))))
  {
    KindPermutes(ms, ps, kind, now);
    var s, t := OfKind(ms, kind, now), OfKind(ps, kind, now);
    SameMembers(s, t);
    if s != [] {
      assert kind in [kind];
      PermutedFold(s, t);
    }
  }

  lemma {:induction false} WindowsPermute(ms: seq<Model>, ps: seq<Model>, kinds: seq<string>, now: int)
    requires multiset(ms) == multiset(ps) && WindowsOrderFree(ms, kinds, now)
    ensures AllBare(WindowsOf(ms, kinds, now)) == AllBare(WindowsOf(ps, kinds, now))
  {
    if kinds != [] {
      var before, kind := kinds[..|kinds| - 1], kinds[|kinds| - 1];
      assert kinds == before + [kind];
      WindowsPermute(ms, ps, before, now);
      WindowPermutes(ms, ps, kind, now);
      hide Fold, OfKind, WindowOf, Bare;
      BareAppend(WindowsOf(ms, before, now), WindowOf(kind, Fold(OfKind(ms, kind, now))));
      BareAppend(WindowsOf(ps, before, now), WindowOf(kind, Fold(OfKind(ps, kind, now))));
    }
  }

  lemma BareAppend(ws: seq<WindowOut>, w: WindowOut)
    ensures AllBare(ws + [w]) == AllBare(ws) + [Bare(w)]
    ensures AllBare(ws + []) == AllBare(ws)
  {
    assert ws + [] == ws;
  }

  /** The binding window depends on nothing but fractions, kinds and resets. */
  lemma {:induction false} BindingBare(ws: seq<WindowOut>)
    ensures Binding(AllBare(ws)) == Binding(ws)
  {
    if ws != [] {
      var u, w := ws[..|ws| - 1], ws[|ws| - 1];
      assert ws == u + [w];
      BindingBare(u);
      BareAppend(u, w);
      BindingSnoc(u, w);
      BindingSnoc(AllBare(u), Bare(w));
    }
  }

  /** For every list of models whose windows are order-free and every permutation of it: each
      group keeps its fraction, its binding window, its exhaustion, its reset, those of all its
      windows, and its set of IDs. */
  lemma GroupingIgnoresOrder(ms: seq<Model>, ps: seq<Model>, g: Group, now: int)
    requires multiset(ms) == multiset(ps)
    requires WindowsOrderFree(InGroup(ms, g), KIND_ORDER, now)
    ensures var a, b := Grouped(InGroup(ms, g), g, now), Grouped(InGroup(ps, g), g, now);
            && a.(ids := [], windows := []) == b.(ids := [], windows := [])
            && AllBare(a.windows) == AllBare(b.windows)
            && forall id :: id in a.ids <==> id in b.ids
  {
    GroupPermutes(ms, ps, g);
    var s, t := InGroup(ms, g), InGroup(ps, g);
    SameMembers(s, t);
    hide InGroup, OfKind, Fold, Bare, FirstIndex;
    WindowsPermute(s, t, KIND_ORDER, now);
    BindingBare(WindowsOf(s, KIND_ORDER, now));
    BindingBare(WindowsOf(t, KIND_ORDER, now));
    SameIDs(s, t);
    hide WindowsOf, Binding, Spent, UniqueIDs;
  }

  lemma {:induction false} IDMembers(ms: seq<Model>, id: string)
    ensures id in UniqueIDs(ms) <==> id != "" && exists m | m in ms :: m.id == id
  {
    if ms != [] {
      var u, m := ms[..|ms| - 1], ms[|ms| - 1];
      assert ms == u + [m];
      IDMembers(u, id);
      assert m in ms && forall x | x in u :: x in ms;
    }
  }

  lemma SameIDs(s: seq<Model>, t: seq<Model>)
    requires forall m :: m in s <==> m in t
    ensures forall id :: id in UniqueIDs(s) <==> id in UniqueIDs(t)
  {
    forall id ensures id in UniqueIDs(s) <==> id in UniqueIDs(t) {
      IDMembers(s, id);
      IDMembers(t, id);
    }
  }

  predicate LeastShown(ms: seq<Model>, kinds: seq<string>, now: int, f: real) {
    && 0.0 <= f <= 1.0
    && (forall m | m in ms && KindOf(m, now) in kinds :: f <= Clamp(m.fraction))
    && (f == 1.0 || exists m | m in ms :: KindOf(m, now) in kinds && f == Clamp(m.fraction))
  }

  lemma LeastOfMore(ms: seq<Model>, before: seq<string>, kind: string, now: int, f: real, h: real)
    requires LeastShown(ms, before, now, f)
    requires IsLeast(OfKind(ms, kind, now), h)
    ensures LeastShown(ms, before + [kind], now, if Clamp(h) < f then Clamp(h) else f)
  {
    OfKindMembers(ms, kind, now);
    hide OfKind, KindOf;
    var models := OfKind(ms, kind, now);
    var x :| x in models && x.fraction == h;
    assert x in ms;
    forall m | m in ms && KindOf(m, now) == kind ensures Clamp(h) <= Clamp(m.fraction) {
      assert m in models;
    }
  }

  lemma LeastOfSame(ms: seq<Model>, before: seq<string>, kind: string, now: int, f: real)
    requires LeastShown(ms, before, now, f) && OfKind(ms, kind, now) == []
    ensures LeastShown(ms, before + [kind], now, f)
  {
    OfKindMembers(ms, kind, now);
    hide OfKind, KindOf;
    var models := OfKind(ms, kind, now);
    assert forall m :: m !in models;
  }

  lemma {:induction false} BindingIsLeast(ms: seq<Model>, kinds: seq<string>, now: int)
    ensures LeastShown(ms, kinds, now, Binding(WindowsOf(ms, kinds, now)).0)
  {
    if kinds != [] {
      var before, kind := kinds[..|kinds| - 1], kinds[|kinds| - 1];
      assert kinds == before + [kind];
      BindingIsLeast(ms, before, now);
      WindowsSnoc(ms, before, kind, now);
      var models := OfKind(ms, kind, now);
      var ws := WindowsOf(ms, before, now);
      hide OfKind, KindOf, Fold, LeastShown, Binding, WindowsOf;
      if models == [] {
        assert WindowsOf(ms, kinds, now) == ws;
        LeastOfSame(ms, before, kind, now, Binding(ws).0);
      } else {
        FoldFraction(models);
        BindingSnoc(ws, WindowOf(kind, Fold(models)));
        LeastOfMore(ms, before, kind, now, Binding(ws).0, Fold(models).fraction);
      }
    } else {
      assert WindowsOf(ms, kinds, now) == [];
    }
  }

  /** A group's remaining fraction is the least clamped fraction of its shown models, 1 if it has
      none. */
  lemma GroupFraction(ms: seq<Model>, g: Group, now: int)
    ensures LeastShown(ms, KIND_ORDER, now, Grouped(ms, g, now).fraction)
  {
    hide KindOf, WindowsOf, Binding;
    BindingIsLeast(ms, KIND_ORDER, now);
  }

  // ---------- the binding window ----------

  /** Only the first window may be the weekly one, and no window has more than everything left. */
  predicate WeeklyFirst(ws: seq<WindowOut>) {
    && (forall i | 0 < i < |ws| :: ws[i].kind != WEEKLY)
    && (forall i | 0 <= i < |ws| :: ws[i].fraction <= 1.0)
  }

  lemma {:induction false} WindowsAreWeeklyFirst(ms: seq<Model>, n: nat, now: int)
    requires n <= |KIND_ORDER|
    ensures WeeklyFirst(WindowsOf(ms, KIND_ORDER[..n], now)) && |WindowsOf(ms, KIND_ORDER[..n], now)| <= n
    ensures forall w | w in WindowsOf(ms, KIND_ORDER[..n], now) :: w.kind in KIND_ORDER[..n]
  {
    hide OfKind, Fold;
    if n > 0 {
      WindowsAreWeeklyFirst(ms, n - 1, now);
      assert KIND_ORDER[..n] == KIND_ORDER[..n - 1] + [KIND_ORDER[n - 1]];
      WindowsSnoc(ms, KIND_ORDER[..n - 1], KIND_ORDER[n - 1], now);
      hide WindowsOf;
      if n == 1 {
        assert KIND_ORDER[..0] == [];
      }
    }
  }

  /** Which window binds: the first one with the least remaining. If that is everything, the
      weekly window binds, and with none nothing does. */
  predicate Binds(ws: seq<WindowOut>, remaining: real, kind: string, reset: Option<int>) {
    if remaining < 1.0 || (ws != [] && ws[0].kind == WEEKLY) then
      exists i :: 0 <= i < |ws| && (ws[i].fraction, ws[i].kind, ws[i].reset) == (remaining, kind, reset)
                  && (forall j | 0 <= j < i :: ws[j].fraction > remaining)
                  && forall j | i < j < |ws| :: ws[j].fraction >= remaining
    else
      remaining == 1.0 && kind == UNKNOWN && reset == None && forall j | 0 <= j < |ws| :: ws[j].fraction == 1.0
  }

  lemma {:induction false} FirstLeastBinds(ws: seq<WindowOut>)
    requires WeeklyFirst(ws)
    ensures Binds(ws, Binding(ws).0, Binding(ws).1, Binding(ws).2)
  {
    if ws != [] {
      var u, w := ws[..|ws| - 1], ws[|ws| - 1];
      assert ws == u + [w];
      FirstLeastBinds(u);
      BindingSnoc(u, w);
      BindsSnoc(u, w);
    }
  }

  lemma BindsSnoc(u: seq<WindowOut>, w: WindowOut)
    requires WeeklyFirst(u + [w]) && Binds(u, Binding(u).0, Binding(u).1, Binding(u).2)
    ensures var best := Binding(u + [w]); Binds(u + [w], best.0, best.1, best.2)
  {
    BindingSnoc(u, w);
    var (remaining, kind, reset) := Binding(u);
    hide Binding;
    var ws := u + [w];
    assert ws[|u|] == w;
    if w.fraction < remaining || (w.fraction == remaining && w.kind == WEEKLY) {
      assert (ws[|u|].fraction, ws[|u|].kind, ws[|u|].reset) == (w.fraction, w.kind, w.reset);
    } else if remaining < 1.0 || (u != [] && u[0].kind == WEEKLY) {
      var i :| 0 <= i < |u| && (u[i].fraction, u[i].kind, u[i].reset) == (remaining, kind, reset)
               && (forall j | 0 <= j < i :: u[j].fraction > remaining)
               && forall j | i < j < |u| :: u[j].fraction >= remaining;
      assert (ws[i].fraction, ws[i].kind, ws[i].reset) == (remaining, kind, reset);
    }
  }

  /** The kind and the reset of a group are those of its binding window. */
  lemma GroupBinding(ms: seq<Model>, g: Group, now: int)
    ensures var out := Grouped(ms, g, now); Binds(out.windows, out.fraction, out.kind, out.reset)
  {
    hide OfKind, Fold, WindowsOf, Binding, UniqueIDs, Binds;
    assert KIND_ORDER[..|KIND_ORDER|] == KIND_ORDER;
    WindowsAreWeeklyFirst(ms, |KIND_ORDER|, now);
    FirstLeastBinds(WindowsOf(ms, KIND_ORDER, now));
    BindingIsLeast(ms, KIND_ORDER, now);
  }
}
