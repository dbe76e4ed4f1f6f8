/** Weekly limits of single models, promoted from the limits array of a response
    (internal/api/anthropic_types.go): which item decides a scoped key, and when the order of the
    items shows. */
module AnthropicScoped {
  import opened Options
  import opened Text
  import opened AnthropicSlug

  const WEEKLY_PREFIX := "seven_day_"
  const SCOPED_PREFIX := "seven_day_scoped_"

  datatype Entry = Entry(utilization: Option<real>, resetsAt: Option<string>)

  /** One readable element of the limits array. */
  datatype Limit = Limit(kind: string, percent: Option<real>, model: Option<string>, resetsAt: Option<string>)

  /** An element that cannot be read is `None`. */
  type Item = Option<Limit>

  type Response = map<string, Option<Entry>>

  predicate Utilized(resp: Response, key: string) {
    key in resp && resp[key].Some? && resp[key].value.utilization.Some?
  }

  /** A readable weekly limit of a model with a slug. */
  predicate Scoped(item: Item) {
    && item.Some? && item.value.kind == "weekly_scoped" && item.value.percent.Some? && item.value.model.Some?
    && Slug(item.value.model.value) != ""
  }

  function SlugOf(item: Item): string
    requires Scoped(item)
  {
    Slug(item.value.model.value)
  }

  function EntryOf(limit: Limit): Entry {
    Entry(limit.percent, if limit.resetsAt == Some("") then None else limit.resetsAt)
  }

  function PromoteOne(resp: Response, item: Item): Response {
    if !Scoped(item) || Utilized(resp, WEEKLY_PREFIX + SlugOf(item)) || Utilized(resp, SCOPED_PREFIX + SlugOf(item))
    then resp
    else resp[SCOPED_PREFIX + SlugOf(item) := Some(EntryOf(item.value))]
  }

  function Promoted(resp: Response, items: seq<Item>): Response {
    if items == [] then resp else PromoteOne(Promoted(resp, items[..|items| - 1]), items[|items| - 1])
  }

  method PromoteScopedWeeklyLimits(resp: Response, items: seq<Item>)
    returns (r: Response)
    ensures r == Promoted(resp, items)
  {
    r := resp;
    for i := 0 to |items|
      invariant r == Promoted(resp, items[..i])
    {
      var item := items[i];
      assert items[..i + 1][..i] == items[..i];
      hide Slug, Utilized;
      if item.None? || item.value.kind != "weekly_scoped" || item.value.percent.None? || item.value.model.None? {
        continue;
      }
      var slug := AnthropicModelSlug(item.value.model.value);
      if slug == "" {
        continue;
      }
      var key := SCOPED_PREFIX + slug;
      if Utilized(r, WEEKLY_PREFIX + slug) || Utilized(r, key) {
        continue;
      }
      var entry := Entry(item.value.percent, None);
      if item.value.resetsAt.Some? && item.value.resetsAt.value != "" {
        entry := entry.(resetsAt := item.value.resetsAt);
      }
      r := r[key := Some(entry)];
    }
    assert items[..|items|] == items;
  }

  /** Promotion never touches an entry that has a utilization, and touches no key but the scoped
      keys of the items. */
  lemma {:induction false} PromotionKeeps(resp: Response, items: seq<Item>, key: string)
    ensures Utilized(resp, key) ==> key in Promoted(resp, items) && Promoted(resp, items)[key] == resp[key]
    ensures (forall item | item in items && Scoped(item) :: SCOPED_PREFIX + SlugOf(item) != key) ==>
              (key in Promoted(resp, items) <==> key in resp)
              && (key in resp ==> Promoted(resp, items)[key] == resp[key])
  {
    hide Slug;
    if items != [] {
      var before, last := items[..|items| - 1], items[|items| - 1];
      assert items == before + [last] && last in items;
      PromotionKeeps(resp, before, key);
    }
  }

  lemma PrefixInjective(s: string, t: string)
    requires SCOPED_PREFIX + s == SCOPED_PREFIX + t
    ensures s == t
  {
    assert (SCOPED_PREFIX + s)[|SCOPED_PREFIX|..] == s;
    assert (SCOPED_PREFIX + t)[|SCOPED_PREFIX|..] == t;
  }

  /** The scoped key of one slug is the weekly key of another just when the other is the one after
      "scoped_". */
  lemma NestedKey(s: string, t: string)
    ensures SCOPED_PREFIX + s == WEEKLY_PREFIX + t <==> "scoped_" + s == t
  {
    assert SCOPED_PREFIX + s == WEEKLY_PREFIX + ("scoped_" + s);
    if SCOPED_PREFIX + s == WEEKLY_PREFIX + t {
      assert (WEEKLY_PREFIX + ("scoped_" + s))[|WEEKLY_PREFIX|..] == "scoped_" + s;
      assert (WEEKLY_PREFIX + t)[|WEEKLY_PREFIX|..] == t;
    }
  }

  // ---------- which item wins ----------

  /** The response itself has a utilization for the model. */
  predicate Blocked(resp: Response, slug: string) {
    Utilized(resp, WEEKLY_PREFIX + slug) || Utilized(resp, SCOPED_PREFIX + slug)
  }

  /** An item that can be promoted at all. */
  predicate Usable(resp: Response, item: Item) {
    Scoped(item) && !Blocked(resp, SlugOf(item))
  }

  /** No earlier item has its slug. */
  predicate First(items: seq<Item>, i: nat)
    requires i < |items| && Scoped(items[i])
  {
    forall j | 0 <= j < i && Scoped(items[j]) :: SlugOf(items[j]) != SlugOf(items[i])
  }

  /** The item is usable and the first of its slug, and no earlier winner has that slug without a
      leading "scoped_". */
  predicate Wins(resp: Response, items: seq<Item>, i: nat)
    requires i < |items|
    decreases i
  {
    && Usable(resp, items[i]) && First(items, i)
    && forall j: nat | j < i && Wins(resp, items, j) :: "scoped_" + SlugOf(items[j]) != SlugOf(items[i])
  }

  ghost predicate WinnerBefore(resp: Response, items: seq<Item>, n: nat, slug: string)
    requires n <= |items|
  {
    exists j: nat :: j < n && Wins(resp, items, j) && SlugOf(items[j]) == slug
  }

  /** An earlier item of the slug of an item that nothing else keeps from winning has itself won,
      or an item before it. */
  lemma {:induction false} EarlierWins(resp: Response, items: seq<Item>, i: nat, j: nat)
    requires i < |items| && Usable(resp, items[i]) && j < i && Scoped(items[j]) && SlugOf(items[j]) == SlugOf(items[i])
    requires forall k: nat | k < i && Wins(resp, items, k) :: "scoped_" + SlugOf(items[k]) != SlugOf(items[i])
    ensures WinnerBefore(resp, items, i, SlugOf(items[i]))
    decreases j
  {
    hide Slug, Utilized;
    if First(items, j) {
      assert Wins(resp, items, j);
    } else {
      var k :| 0 <= k < j && Scoped(items[k]) && SlugOf(items[k]) == SlugOf(items[j]);
      EarlierWins(resp, items, i, k);
    }
  }

  /** No item before the `n`th wins this key. */
  ghost predicate Unwon(resp: Response, items: seq<Item>, n: nat, key: string)
    requires n <= |items|
  {
    forall j: nat | j < n && Wins(resp, items, j) :: SCOPED_PREFIX + SlugOf(items[j]) != key
  }

  /** Each winner before the `n`th item has its entry under its scoped key. */
  ghost predicate WinnersSet(resp: Response, items: seq<Item>, n: nat, r: Response)
    requires n <= |items|
  {
    forall j: nat | j < n && Wins(resp, items, j) ::
      SCOPED_PREFIX + SlugOf(items[j]) in r && r[SCOPED_PREFIX + SlugOf(items[j])] == Some(EntryOf(items[j].value))
  }

  /** What the items before the `n`th have made of the response: the winners' entries, and nothing
      else. */
  ghost predicate Settled(resp: Response, items: seq<Item>, n: nat, r: Response)
    requires n <= |items|
  {
    && WinnersSet(resp, items, n, r)
    && (forall key | Unwon(resp, items, n, key) :: (key in r <==> key in resp) && (key in resp ==> r[key] == resp[key]))
  }

  lemma ScopedUtilized(resp: Response, items: seq<Item>, n: nat, r: Response, slug: string)
    requires n <= |items| && Settled(resp, items, n, r)
    ensures Utilized(r, SCOPED_PREFIX + slug) <==> Utilized(resp, SCOPED_PREFIX + slug) || WinnerBefore(resp, items, n, slug)
  {
    hide Slug;
    var key := SCOPED_PREFIX + slug;
    if WinnerBefore(resp, items, n, slug) {
      var j: nat :| j < n && Wins(resp, items, j) && SlugOf(items[j]) == slug;
      assert r[key] == Some(EntryOf(items[j].value));
    } else {
      forall j: nat | j < n && Wins(resp, items, j)
        ensures SCOPED_PREFIX + SlugOf(items[j]) != key
      {
        if SCOPED_PREFIX + SlugOf(items[j]) == key {
          PrefixInjective(SlugOf(items[j]), slug);
        }
      }
    }
  }

  lemma WeeklyUtilized(resp: Response, items: seq<Item>, n: nat, r: Response, slug: string)
    requires n <= |items| && Settled(resp, items, n, r)
    ensures Utilized(r, WEEKLY_PREFIX + slug) <==>
            Utilized(resp, WEEKLY_PREFIX + slug)
            || exists j: nat :: j < n && Wins(resp, items, j) && "scoped_" + SlugOf(items[j]) == slug
  {
    hide Slug;
    var key := WEEKLY_PREFIX + slug;
    forall j: nat | j < n && Wins(resp, items, j)
      ensures SCOPED_PREFIX + SlugOf(items[j]) == key <==> "scoped_" + SlugOf(items[j]) == slug
    {
      NestedKey(SlugOf(items[j]), slug);
    }
    if exists j: nat :: j < n && Wins(resp, items, j) && "scoped_" + SlugOf(items[j]) == slug {
      var j: nat :| j < n && Wins(resp, items, j) && "scoped_" + SlugOf(items[j]) == slug;
      assert r[key] == Some(EntryOf(items[j].value));
    }
  }

  /** Is the item promoted when its turn comes? */
  predicate Promotes(r: Response, item: Item) {
    Scoped(item) && !Utilized(r, WEEKLY_PREFIX + SlugOf(item)) && !Utilized(r, SCOPED_PREFIX + SlugOf(item))
  }

  lemma PromotesIfWins(resp: Response, items: seq<Item>, i: nat, r: Response)
    requires i < |items| && Settled(resp, items, i, r)
    ensures Promotes(r, items[i]) <==> Wins(resp, items, i)
  {
    hide Slug, Utilized, Settled;
    if Scoped(items[i]) {
      var slug := SlugOf(items[i]);
      ScopedUtilized(resp, items, i, r, slug);
      WeeklyUtilized(resp, items, i, r, slug);
      if Usable(resp, items[i]) && !First(items, i)
         && forall k: nat | k < i && Wins(resp, items, k) :: "scoped_" + SlugOf(items[k]) != slug {
        var j :| 0 <= j < i && Scoped(items[j]) && SlugOf(items[j]) == slug;
        EarlierWins(resp, items, i, j);
      }
    }
  }

  lemma WinnersDiffer(resp: Response, items: seq<Item>, i: nat)
    requires i < |items| && Wins(resp, items, i)
    ensures forall j: nat | j < i && Wins(resp, items, j) ::
              SCOPED_PREFIX + SlugOf(items[j]) != SCOPED_PREFIX + SlugOf(items[i])
  {
    hide Slug, Blocked;
    forall j: nat | j < i && Wins(resp, items, j)
      ensures SCOPED_PREFIX + SlugOf(items[j]) != SCOPED_PREFIX + SlugOf(items[i])
    {
      assert SlugOf(items[j]) != SlugOf(items[i]);
      if SCOPED_PREFIX + SlugOf(items[j]) == SCOPED_PREFIX + SlugOf(items[i]) {
        PrefixInjective(SlugOf(items[j]), SlugOf(items[i]));
      }
    }
  }

  lemma WinnerSet(resp: Response, items: seq<Item>, i: nat, r: Response)
    requires i < |items| && WinnersSet(resp, items, i, r) && Wins(resp, items, i)
    ensures WinnersSet(resp, items, i + 1, r[SCOPED_PREFIX + SlugOf(items[i]) := Some(EntryOf(items[i].value))])
  {
    WinnersDiffer(resp, items, i);
    hide Slug, EntryOf, Wins;
  }

  lemma WinnerSettles(resp: Response, items: seq<Item>, i: nat, r: Response)
    requires i < |items| && Settled(resp, items, i, r) && Wins(resp, items, i)
    ensures Settled(resp, items, i + 1, r[SCOPED_PREFIX + SlugOf(items[i]) := Some(EntryOf(items[i].value))])
  {
    WinnerSet(resp, items, i, r);
    hide Slug, EntryOf, First, Blocked, WinnersSet, Unwon;
    forall key | Unwon(resp, items, i + 1, key)
      ensures Unwon(resp, items, i, key) && key != SCOPED_PREFIX + SlugOf(items[i])
    {
      StillUnwon(resp, items, i, key);
    }
  }

  lemma StillUnwon(resp: Response, items: seq<Item>, i: nat, key: string)
    requires i < |items| && Unwon(resp, items, i + 1, key)
    ensures Unwon(resp, items, i, key)
    ensures Wins(resp, items, i) ==> key != SCOPED_PREFIX + SlugOf(items[i])
  {
    hide Slug;
  }

  lemma LoserSettles(resp: Response, items: seq<Item>, i: nat, r: Response)
    requires i < |items| && Settled(resp, items, i, r) && !Wins(resp, items, i)
    ensures Settled(resp, items, i + 1, r)
  {
    hide Slug, EntryOf, Wins;
  }

  lemma PromoteSettles(resp: Response, items: seq<Item>, i: nat, r: Response)
    requires i < |items| && Settled(resp, items, i, r)
    ensures Settled(resp, items, i + 1, PromoteOne(r, items[i]))
  {
    PromotesIfWins(resp, items, i, r);
    hide Slug, Utilized, Wins, Settled;
    if Wins(resp, items, i) {
      WinnerSettles(resp, items, i, r);
    } else {
      LoserSettles(resp, items, i, r);
    }
  }

  lemma {:induction false} PrefixSettles(resp: Response, items: seq<Item>, n: nat)
    requires n <= |items|
    ensures Settled(resp, items, n, Promoted(resp, items[..n]))
  {
    hide Settled, Wins, PromoteOne;
    if n == 0 {
      NothingSettled(resp, items);
    } else {
      PrefixSettles(resp, items, n - 1);
      PromoteSettles(resp, items, n - 1, Promoted(resp, items[..n - 1]));
      assert items[..n][..n - 1] == items[..n - 1];
    }
  }

  lemma NothingSettled(resp: Response, items: seq<Item>)
    ensures Settled(resp, items, 0, Promoted(resp, items[..0]))
  {
  }

  /** For every response and list of items: an item is promoted when its turn comes if and only if
      it wins, and in the end the promoted entries are exactly those of the winners. */
  lemma WinnersExactly(resp: Response, items: seq<Item>)
    ensures forall i: nat | i < |items| :: Promotes(Promoted(resp, items[..i]), items[i]) <==> Wins(resp, items, i)
    ensures Settled(resp, items, |items|, Promoted(resp, items))
  {
    hide Settled, Wins, Promotes;
    forall i: nat | i < |items|
      ensures Promotes(Promoted(resp, items[..i]), items[i]) <==> Wins(resp, items, i)
    {
      PrefixSettles(resp, items, i);
      PromotesIfWins(resp, items, i, Promoted(resp, items[..i]));
    }
    PrefixSettles(resp, items, |items|);
    assert items[..|items|] == items;
  }

  /** So, unless another item of its slug has the very same entry, the scoped key of an item ends
      up with its entry if and only if it wins. */
  lemma ItemWinsExactly(resp: Response, items: seq<Item>, i: nat)
    requires i < |items| && Scoped(items[i]) && !Utilized(resp, SCOPED_PREFIX + SlugOf(items[i]))
    requires forall j | 0 <= j < |items| && j != i && Scoped(items[j]) && SlugOf(items[j]) == SlugOf(items[i]) ::
               EntryOf(items[j].value) != EntryOf(items[i].value)
    ensures var r, key := Promoted(resp, items), SCOPED_PREFIX + SlugOf(items[i]);
            (key in r && r[key] == Some(EntryOf(items[i].value))) <==> Wins(resp, items, i)
  {
    WinnersExactly(resp, items);
    hide Slug, Promoted;
    var slug := SlugOf(items[i]);
    if WinnerBefore(resp, items, |items|, slug) {
      var j: nat :| j < |items| && Wins(resp, items, j) && SlugOf(items[j]) == slug;
    } else {
      ScopedUtilized(resp, items, |items|, Promoted(resp, items), slug);
    }
  }

  /** With a utilization in the model's weekly entry, its items change nothing. */
  lemma {:induction false} WeeklyEntryWins(resp: Response, items: seq<Item>, slug: string)
    requires Utilized(resp, WEEKLY_PREFIX + slug)
    ensures var r, key := Promoted(resp, items), SCOPED_PREFIX + slug;
            (key in r <==> key in resp) && (key in resp ==> r[key] == resp[key])
  {
    hide Slug;
    if items != [] {
      var before, last := items[..|items| - 1], items[|items| - 1];
      WeeklyEntryWins(resp, before, slug);
      PromotionKeeps(resp, before, WEEKLY_PREFIX + slug);
      if Scoped(last) && SCOPED_PREFIX + SlugOf(last) == SCOPED_PREFIX + slug {
        PrefixInjective(SlugOf(last), slug);
      }
    }
  }

  // ---------- where the order of the items shows ----------

  /** The keys that get a promoted entry. */
  function PromotedKeys(resp: Response, items: seq<Item>): set<string> {
    set i: nat | i < |items| && Wins(resp, items, i) :: SCOPED_PREFIX + SlugOf(items[i])
  }

  /** They are the keys that promotion gives a utilization. */
  lemma PromotedKeysExactly(resp: Response, items: seq<Item>, key: string)
    ensures key in PromotedKeys(resp, items) <==> !Utilized(resp, key) && Utilized(Promoted(resp, items), key)
  {
    WinnersExactly(resp, items);
    hide Promoted, Slug, First;
  }

  /** No usable item has the slug of another usable one after "scoped_". */
  ghost predicate NoneNested(resp: Response, items: seq<Item>) {
    forall a, b | a in items && b in items && Usable(resp, a) && Usable(resp, b) :: "scoped_" + SlugOf(a) != SlugOf(b)
  }

  /** Usable items of one slug agree on their entry. */
  ghost predicate SlugsAgree(resp: Response, items: seq<Item>) {
    forall a, b | a in items && b in items && Usable(resp, a) && Usable(resp, b) && SlugOf(a) == SlugOf(b) ::
      EntryOf(a.value) == EntryOf(b.value)
  }

  lemma SameItems(s: seq<Item>, t: seq<Item>)
    requires multiset(s) == multiset(t)
    ensures forall x :: x in s <==> x in t
  {
    assert forall x :: x in s <==> x in multiset(s);
    assert forall x :: x in t <==> x in multiset(t);
  }

  /** Without nesting, every usable slug has a winner. */
  lemma {:induction false} UsableSlugWins(resp: Response, items: seq<Item>, i: nat)
    requires NoneNested(resp, items) && i < |items| && Usable(resp, items[i])
    ensures WinnerBefore(resp, items, |items|, SlugOf(items[i]))
  {
    hide Slug, Blocked;
    forall k: nat | k < i && Wins(resp, items, k)
      ensures "scoped_" + SlugOf(items[k]) != SlugOf(items[i])
    {
      assert items[k] in items && items[i] in items;
    }
    if First(items, i) {
      assert Wins(resp, items, i);
    } else {
      var j :| 0 <= j < i && Scoped(items[j]) && SlugOf(items[j]) == SlugOf(items[i]);
      EarlierWins(resp, items, i, j);
    }
  }

  lemma KeysWithoutNesting(resp: Response, items: seq<Item>, key: string)
    requires NoneNested(resp, items)
    ensures key in PromotedKeys(resp, items) <==>
            exists a :: a in items && Usable(resp, a) && SCOPED_PREFIX + SlugOf(a) == key
  {
    hide Slug, Blocked, First;
    if a :| a in items && Usable(resp, a) && SCOPED_PREFIX + SlugOf(a) == key {
      var i :| 0 <= i < |items| && items[i] == a;
      UsableSlugWins(resp, items, i);
      var j: nat :| j < |items| && Wins(resp, items, j) && SlugOf(items[j]) == SlugOf(a);
    }
    if key in PromotedKeys(resp, items) {
      var j: nat :| j < |items| && Wins(resp, items, j) && SCOPED_PREFIX + SlugOf(items[j]) == key;
      assert items[j] in items && Usable(resp, items[j]);
    }
  }

  lemma MoveFirst(items: seq<Item>, a: Item) returns (ps: seq<Item>)
    requires a in items
    ensures multiset(ps) == multiset(items) && ps != [] && ps[0] == a
  {
    var i :| 0 <= i < |items| && items[i] == a;
    ps := [a] + (items[..i] + items[i + 1..]);
    assert items == items[..i] + [a] + items[i + 1..];
  }

  /** A usable first item wins, and no item of its slug after "scoped_" does. */
  lemma FirstItemRules(resp: Response, ps: seq<Item>)
    requires ps != [] && Usable(resp, ps[0])
    ensures Wins(resp, ps, 0) && SCOPED_PREFIX + SlugOf(ps[0]) in PromotedKeys(resp, ps)
    ensures SCOPED_PREFIX + ("scoped_" + SlugOf(ps[0])) !in PromotedKeys(resp, ps)
  {
    hide Slug, Blocked;
    assert Wins(resp, ps, 0);
    forall i: nat | i < |ps| && Wins(resp, ps, i)
      ensures SCOPED_PREFIX + SlugOf(ps[i]) != SCOPED_PREFIX + ("scoped_" + SlugOf(ps[0]))
    {
      if SCOPED_PREFIX + SlugOf(ps[i]) == SCOPED_PREFIX + ("scoped_" + SlugOf(ps[0])) {
        PrefixInjective(SlugOf(ps[i]), "scoped_" + SlugOf(ps[0]));
      }
    }
  }

  /** Which keys are promoted is the same in every order of the items if and only if no usable item
      has the slug of another after "scoped_". */
  lemma KeysOrderFreeExactly(resp: Response, items: seq<Item>)
    ensures (forall ps | multiset(ps) == multiset(items) :: PromotedKeys(resp, ps) == PromotedKeys(resp, items))
            <==> NoneNested(resp, items)
  {
    hide PromotedKeys, Slug, Usable;
    if NoneNested(resp, items) {
      forall ps | multiset(ps) == multiset(items) ensures PromotedKeys(resp, ps) == PromotedKeys(resp, items) {
        SameItems(ps, items);
        assert NoneNested(resp, ps);
        forall key ensures key in PromotedKeys(resp, ps) <==> key in PromotedKeys(resp, items) {
          KeysWithoutNesting(resp, ps, key);
          KeysWithoutNesting(resp, items, key);
        }
      }
    } else {
      var ps, qs := NestingShows(resp, items);
      assert PromotedKeys(resp, ps) != PromotedKeys(resp, items) || PromotedKeys(resp, qs) != PromotedKeys(resp, items);
    }
  }

  /** Otherwise two orders promote different keys: one starts with the shorter slug, the other with
      the one after "scoped_". */
  lemma NestingShows(resp: Response, items: seq<Item>) returns (ps: seq<Item>, qs: seq<Item>)
    requires !NoneNested(resp, items)
    ensures multiset(ps) == multiset(items) && multiset(qs) == multiset(items)
    ensures PromotedKeys(resp, ps) != PromotedKeys(resp, qs)
  {
    var a, b :| a in items && b in items && Usable(resp, a) && Usable(resp, b) && "scoped_" + SlugOf(a) == SlugOf(b);
    hide PromotedKeys, Slug, Usable;
    ps := MoveFirst(items, a);
    qs := MoveFirst(items, b);
    FirstItemRules(resp, ps);
    FirstItemRules(resp, qs);
  }

  lemma FinalEntry(resp: Response, items: seq<Item>, i: nat)
    requires i < |items| && Wins(resp, items, i)
    ensures var r, key := Promoted(resp, items), SCOPED_PREFIX + SlugOf(items[i]);
            key in r && r[key] == Some(EntryOf(items[i].value))
  {
    WinnersExactly(resp, items);
    hide Promoted, Slug, Wins;
  }

  lemma FinalOther(resp: Response, items: seq<Item>, key: string)
    requires key !in PromotedKeys(resp, items)
    ensures var r := Promoted(resp, items);
            (key in r <==> key in resp) && (key in resp ==> r[key] == resp[key])
  {
    WinnersExactly(resp, items);
    hide Promoted, Slug, Wins;
  }

  /** Entry by entry, two orders of order-free items give the same response. */
  lemma SameEntry(resp: Response, ps: seq<Item>, items: seq<Item>, key: string)
    requires multiset(ps) == multiset(items) && NoneNested(resp, items) && SlugsAgree(resp, items)
    ensures var p, r := Promoted(resp, ps), Promoted(resp, items);
            (key in p <==> key in r) && (key in p ==> p[key] == r[key])
  {
    KeysOrderFreeExactly(resp, items);
    SameItems(ps, items);
    assert PromotedKeys(resp, ps) == PromotedKeys(resp, items);
    hide Promoted, Slug, NoneNested, Blocked, First;
    if key in PromotedKeys(resp, items) {
      var i: nat :| i < |items| && Wins(resp, items, i) && SCOPED_PREFIX + SlugOf(items[i]) == key;
      var j: nat :| j < |ps| && Wins(resp, ps, j) && SCOPED_PREFIX + SlugOf(ps[j]) == key;
      FinalEntry(resp, items, i);
      FinalEntry(resp, ps, j);
      PrefixInjective(SlugOf(ps[j]), SlugOf(items[i]));
      assert ps[j] in items && items[i] in items;
    } else {
      FinalOther(resp, items, key);
      FinalOther(resp, ps, key);
    }
  }

  /** The whole response is the same in every order if and only if, besides, usable items of one
      slug agree. */
  lemma ResponseOrderFreeExactly(resp: Response, items: seq<Item>)
    ensures (forall ps | multiset(ps) == multiset(items) :: Promoted(resp, ps) == Promoted(resp, items))
            <==> NoneNested(resp, items) && SlugsAgree(resp, items)
  {
    hide Promoted, PromotedKeys, Slug, Usable, NoneNested, SlugsAgree;
    if NoneNested(resp, items) && SlugsAgree(resp, items) {
      forall ps | multiset(ps) == multiset(items) ensures Promoted(resp, ps) == Promoted(resp, items) {
        forall key ensures var p, r := Promoted(resp, ps), Promoted(resp, items);
                           (key in p <==> key in r) && (key in p ==> p[key] == r[key]) {
          SameEntry(resp, ps, items, key);
        }
        SameResponse(Promoted(resp, ps), Promoted(resp, items));
      }
    } else {
      var ps, qs := OrderShows(resp, items);
      assert Promoted(resp, ps) != Promoted(resp, items) || Promoted(resp, qs) != Promoted(resp, items);
    }
  }

  lemma SameResponse(p: Response, r: Response)
    requires forall key :: (key in p <==> key in r) && (key in p ==> p[key] == r[key])
    ensures p == r
  {
    assert p.Keys == r.Keys;
  }

  lemma OrderShows(resp: Response, items: seq<Item>) returns (ps: seq<Item>, qs: seq<Item>)
    requires !(NoneNested(resp, items) && SlugsAgree(resp, items))
    ensures multiset(ps) == multiset(items) && multiset(qs) == multiset(items)
    ensures Promoted(resp, ps) != Promoted(resp, qs)
  {
    hide PromotedKeys, Promoted, Slug, Blocked, Wins;
    if !NoneNested(resp, items) {
      ps, qs := NestingShows(resp, items);
      var key :| (key in PromotedKeys(resp, ps)) != (key in PromotedKeys(resp, qs));
      PromotedKeysExactly(resp, ps, key);
      PromotedKeysExactly(resp, qs, key);
    } else {
      var a, b :| a in items && b in items && Usable(resp, a) && Usable(resp, b) && SlugOf(a) == SlugOf(b)
                  && EntryOf(a.value) != EntryOf(b.value);
      ps := MoveFirst(items, a);
      qs := MoveFirst(items, b);
      FirstItemRules(resp, ps);
      FirstItemRules(resp, qs);
      FinalEntry(resp, ps, 0);
      FinalEntry(resp, qs, 0);
    }
  }

  // ---------- such names exist ----------

  lemma ScopedIsClean(s: string)
    requires Clean(s)
    ensures Clean("scoped_" + s)
  {
    var t := "scoped_" + s;
    assert forall i | 7 <= i < |t| :: t[i] == s[i - 7];
  }

  function LimitOf(slug: string, percent: real): Item
    requires Clean(slug)
  {
    CleanRoundTrips(slug);
    Some(Limit("weekly_scoped", Some(percent), Some(SlugLabel(slug).value), None))
  }

  lemma LimitIsScoped(slug: string, percent: real)
    requires Clean(slug)
    ensures Scoped(LimitOf(slug, percent)) && SlugOf(LimitOf(slug, percent)) == slug
  {
    CleanRoundTrips(slug);
  }

  /** Of two items, the first with the weekly entry of the second as its scoped key. */
  lemma SecondBlocksOrNot(one: Item, two: Item)
    requires Scoped(one) && Scoped(two) && SlugOf(two) == "scoped_" + SlugOf(one)
    ensures SCOPED_PREFIX + SlugOf(two) in Promoted(map[], [two, one])
    ensures SCOPED_PREFIX + SlugOf(two) !in Promoted(map[], [one, two])
  {
    PromotedTwo(one, two);
    PromotedTwo(two, one);
    hide Promoted, Slug;
    assert |SlugOf(two)| == |SlugOf(one)| + 7;
    assert WEEKLY_PREFIX + SlugOf(two) == SCOPED_PREFIX + SlugOf(one);
    assert |SCOPED_PREFIX + SlugOf(one)| < |SCOPED_PREFIX + SlugOf(two)|;
  }

  /** The scoped key of one model is the weekly entry of a model of the same name after "scoped":
      of two such items, whether the second is promoted depends on their order. */
  lemma ScopedNameDependsOnOrder(slug: string, percent: real, other: real)
    requires Clean(slug)
    ensures Clean("scoped_" + slug)
    ensures var one, two := LimitOf(slug, percent), LimitOf("scoped_" + slug, other);
            var key := SCOPED_PREFIX + ("scoped_" + slug);
            key in Promoted(map[], [two, one]) && key !in Promoted(map[], [one, two])
  {
    ScopedIsClean(slug);
    hide LimitOf, Clean, Slug, Promoted, Scoped, SlugOf;
    LimitIsScoped(slug, percent);
    LimitIsScoped("scoped_" + slug, other);
    SecondBlocksOrNot(LimitOf(slug, percent), LimitOf("scoped_" + slug, other));
  }

  lemma PromotedTwo(a: Item, b: Item)
    ensures Promoted(map[], [a, b]) == PromoteOne(PromoteOne(map[], a), b)
  {
    assert [a, b][..1] == [a] && [a][..0] == [];
    assert Promoted(map[], [a]) == PromoteOne(map[], a);
  }
}
