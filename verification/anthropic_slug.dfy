/** Model names as quota keys, and back (internal/api/anthropic_types.go), on ASCII text. */
module AnthropicSlug {
  import opened Options
  import opened Text

  predicate Alphanumeric(c: char) {
    'a' <= c <= 'z' || '0' <= c <= '9'
  }

  // ---------- from a name to a slug ----------

  /** The text built so far, and whether a separator is pending. */
  function Step(b: string, pending: bool, c: char): (string, bool) {
    if Alphanumeric(c) then ((if pending && b != "" then b + "_" else b) + [c], false) else (b, true)
  }

  function Build(s: string): (string, bool) {
    if s == "" then ("", false)
    else
      var (b, pending) := Build(s[..|s| - 1]);
      Step(b, pending, s[|s| - 1])
  }

  function Slug(name: string): string {
    Build(ToLower(name)).0
  }

  lemma BuildSnoc(s: string, c: char)
    ensures Build(s + [c]) == Step(Build(s).0, Build(s).1, c)
  {
    assert (s + [c])[..|s|] == s;
  }

  method AnthropicModelSlug(name: string) returns (slug: string)
    ensures slug == Slug(name)
  {
    var lower := ToLower(name);
    var pending := false;
    slug := "";
    for i := 0 to |lower|
      invariant (slug, pending) == Build(lower[..i])
    {
      BuildSnoc(lower[..i], lower[i]);
      assert lower[..i + 1] == lower[..i] + [lower[i]];
      if Alphanumeric(lower[i]) {
        if pending && |slug| > 0 {
          slug := slug + "_";
        }
        pending := false;
        slug := slug + [lower[i]];
      } else {
        pending := true;
      }
    }
    assert lower[..|lower|] == lower;
  }

  /** No leading, trailing or doubled separator, and nothing between them but letters and digits. */
  predicate Clean(s: string) {
    && s != "" && s[0] != '_' && s[|s| - 1] != '_'
    && (forall i | 0 <= i < |s| :: s[i] == '_' || Alphanumeric(s[i]))
    && (forall i | 0 <= i < |s| - 1 :: s[i] == '_' ==> s[i + 1] != '_')
  }

  lemma {:induction false} BuildIsClean(s: string)
    ensures Build(s).0 == "" || Clean(Build(s).0)
  {
    if s != "" {
      BuildIsClean(s[..|s| - 1]);
      var (b, pending) := Build(s[..|s| - 1]);
      StepKeepsClean(b, pending, s[|s| - 1]);
    }
  }

  lemma StepKeepsClean(b: string, pending: bool, c: char)
    requires b == "" || Clean(b)
    ensures Step(b, pending, c).0 == "" || Clean(Step(b, pending, c).0)
  {}

  /** Every slug is empty or clean. */
  lemma SlugIsClean(name: string)
    ensures Slug(name) == "" || Clean(Slug(name))
  {
    BuildIsClean(ToLower(name));
  }

  // ---------- from a slug to a label ----------

  /** The words between the separators. */
  function Words(s: string): (ws: seq<string>)
    ensures |ws| >= 1
  {
    if s == "" then [""]
    else
      var ws, c := Words(s[..|s| - 1]), s[|s| - 1];
      if c == '_' then ws + [""] else ws[..|ws| - 1] + [ws[|ws| - 1] + [c]]
  }

  function Join(ws: seq<string>, separator: char): string {
    if ws == [] then ""
    else if |ws| == 1 then ws[0]
    else Join(ws[..|ws| - 1], separator) + [separator] + ws[|ws| - 1]
  }

  function Capital(w: string): string {
    if w == "" then "" else [UpperChar(w[0])] + w[1..]
  }

  function Capitals(ws: seq<string>): seq<string> {
    seq(|ws|, i requires 0 <= i < |ws| => Capital(ws[i]))
  }

  /** Title case, unless the slug is empty or has an empty word. */
  function SlugLabel(slug: string): Option<string> {
    var ws := Words(slug);
    if slug == "" || "" in ws then None else Some(Join(Capitals(ws), ' '))
  }

  lemma JoinSnoc(ws: seq<string>, w: string, separator: char)
    ensures Join(ws + [w], separator) == if ws == [] then w else Join(ws, separator) + [separator] + w
  {
    assert (ws + [w])[..|ws|] == ws;
  }

  lemma JoinGrow(ws: seq<string>, w: string, tail: string, separator: char)
    ensures Join(ws + [w + tail], separator) == Join(ws + [w], separator) + tail
  {
    hide Join;
    JoinSnoc(ws, w, separator);
    JoinSnoc(ws, w + tail, separator);
    var head := Join(ws, separator) + [separator];
    assert head + (w + tail) == (head + w) + tail;
  }

  lemma WordsSnoc(s: string, c: char)
    ensures Words(s + [c]) ==
            var ws := Words(s);
            if c == '_' then ws + [""] else ws[..|ws| - 1] + [ws[|ws| - 1] + [c]]
  {
    assert (s + [c])[..|s|] == s;
  }

  lemma {:induction false} WordsHaveNoSeparator(s: string)
    ensures forall i | 0 <= i < |Words(s)| :: '_' !in Words(s)[i]
  {
    if s != "" {
      WordsHaveNoSeparator(s[..|s| - 1]);
    }
  }

  /** The words are what the separators separate. */
  lemma {:induction false} WordsJoin(s: string)
    ensures Join(Words(s), '_') == s
  {
    if s != "" {
      var p, c := s[..|s| - 1], s[|s| - 1];
      assert s == p + [c];
      WordsJoin(p);
      WordsSnoc(p, c);
      hide Words, Join;
      var ws := Words(p);
      var front, last := ws[..|ws| - 1], ws[|ws| - 1];
      assert ws == front + [last];
      JoinSnoc(ws, "", '_');
      JoinGrow(front, last, [c], '_');
    }
  }

  /** The label, letter by letter: separators become spaces and first letters capitals. */
  function Titled(s: string): string {
    if s == "" then ""
    else
      var p, c := s[..|s| - 1], s[|s| - 1];
      Titled(p) + [if c == '_' then ' ' else if p == "" || p[|p| - 1] == '_' then UpperChar(c) else c]
  }

  lemma CapitalsSnoc(ws: seq<string>, w: string)
    ensures Capitals(ws + [w]) == Capitals(ws) + [Capital(w)]
  {}

  lemma TitledSnoc(s: string, c: char)
    ensures Titled(s + [c]) ==
            Titled(s) + [if c == '_' then ' ' else if s == "" || s[|s| - 1] == '_' then UpperChar(c) else c]
  {
    hide UpperChar;
    var t := s + [c];
    assert t[..|t| - 1] == s && t[|t| - 1] == c && t != "";
  }

  lemma CapitalSnoc(w: string, c: char)
    ensures Capital(w + [c]) == Capital(w) + [if w == "" then UpperChar(c) else c]
    ensures Capital("") == ""
  {}

  lemma NothingTitled(s: string)
    requires s == ""
    ensures Join(Capitals(Words(s)), ' ') == Titled(s) && Words(s) == [""]
  {
    assert Capitals([""]) == [""];
  }

  lemma {:induction false} LabelIsTitled(s: string)
    ensures Join(Capitals(Words(s)), ' ') == Titled(s)
    ensures Words(s)[|Words(s)| - 1] == "" <==> (s == "" || s[|s| - 1] == '_')
  {
    hide Words, Join, Titled, Capitals, Capital;
    if s == "" {
      NothingTitled(s);
    } else {
      var p, c := s[..|s| - 1], s[|s| - 1];
      assert s == p + [c];
      LabelIsTitled(p);
      WordsSnoc(p, c);
      TitledSnoc(p, c);
      var ws := Words(p);
      var front, last := ws[..|ws| - 1], ws[|ws| - 1];
      assert ws == front + [last];
      CapitalsSnoc(front, last);
      CapitalSnoc(last, c);
      if c == '_' {
        CapitalsSnoc(ws, "");
        SameSize(ws);
        JoinSnoc(Capitals(ws), "", ' ');
      } else {
        CapitalsSnoc(front, last + [c]);
        JoinGrow(Capitals(front), Capital(last), [if last == "" then UpperChar(c) else c], ' ');
      }
    }
  }

  lemma SameSize(ws: seq<string>)
    ensures |Capitals(ws)| == |ws|
  {}

  /** Spaces for separators. */
  function Spaced(s: string): string {
    if s == "" then "" else Spaced(s[..|s| - 1]) + [if s[|s| - 1] == '_' then ' ' else s[|s| - 1]]
  }

  lemma {:induction false} LowerSnoc(s: string, c: char)
    ensures ToLower(s + [c]) == ToLower(s) + [LowerChar(c)]
  {
    if s == "" {
      assert s + [c] == [c];
    } else {
      LowerSnoc(s[1..], c);
      assert (s + [c])[1..] == s[1..] + [c];
    }
  }

  predicate Plain(s: string) {
    forall i | 0 <= i < |s| :: s[i] == '_' || Alphanumeric(s[i])
  }

  lemma {:induction false} LoweredTitle(s: string)
    requires Plain(s)
    ensures ToLower(Titled(s)) == Spaced(s)
  {
    if s != "" {
      var p, c := s[..|s| - 1], s[|s| - 1];
      LoweredTitle(p);
      LowerSnoc(Titled(p), if c == '_' then ' ' else if p == "" || p[|p| - 1] == '_' then UpperChar(c) else c);
    }
  }

  /** Up to a trailing separator, which stays pending. */
  predicate CleanSoFar(s: string) {
    && Plain(s) && (s != "" ==> s[0] != '_')
    && (forall i | 0 <= i < |s| - 1 :: s[i] == '_' ==> s[i + 1] != '_')
  }

  lemma SpacedSnoc(s: string, c: char)
    ensures Spaced(s + [c]) == Spaced(s) + [if c == '_' then ' ' else c]
  {
    assert (s + [c])[..|s|] == s;
  }

  lemma {:induction false} BuildSpaced(s: string)
    requires CleanSoFar(s)
    ensures Build(Spaced(s)) ==
            if s != "" && s[|s| - 1] == '_' then (s[..|s| - 1], true) else (s, false)
  {
    if s != "" {
      var p, c := s[..|s| - 1], s[|s| - 1];
      assert s == p + [c];
      BuildSpaced(p);
      SpacedSnoc(p, c);
      hide Spaced, Build;
      BuildSnoc(Spaced(p), if c == '_' then ' ' else c);
      if p != "" && p[|p| - 1] == '_' {
        assert p == p[..|p| - 1] + "_";
      }
    }
  }

  /** A leading or a doubled separator. */
  predicate Gap(s: string) {
    (s != "" && s[0] == '_') || exists i :: 0 <= i < |s| - 1 && s[i] == '_' && s[i + 1] == '_'
  }

  lemma GapSnoc(s: string, c: char)
    ensures Gap(s + [c]) <==> Gap(s) || (c == '_' && (s == "" || s[|s| - 1] == '_'))
  {
    var t := s + [c];
    if Gap(s) && s[0] != '_' {
      var i :| 0 <= i < |s| - 1 && s[i] == '_' && s[i + 1] == '_';
      assert t[i] == '_' && t[i + 1] == '_';
    }
    if c == '_' && s != "" && s[|s| - 1] == '_' {
      assert t[|s| - 1] == '_' && t[|s| - 1 + 1] == '_';
    }
    if Gap(t) && t[0] != '_' {
      var i :| 0 <= i < |t| - 1 && t[i] == '_' && t[i + 1] == '_';
      assert i < |s| - 1 ==> s[i] == '_' && s[i + 1] == '_';
    }
  }

  lemma FrontSnoc(s: string, c: char)
    ensures var ws, all := Words(s), Words(s + [c]);
            all[..|all| - 1] == if c == '_' then ws else ws[..|ws| - 1]
  {
    WordsSnoc(s, c);
  }

  /** A word other than the last is empty exactly at a gap. */
  lemma {:induction false} EmptyWordIsGap(s: string)
    ensures "" in Words(s)[..|Words(s)| - 1] <==> Gap(s)
  {
    if s != "" {
      hide Words, Gap, Titled, Capitals, Join;
      var p, c := s[..|s| - 1], s[|s| - 1];
      assert s == p + [c];
      EmptyWordIsGap(p);
      FrontSnoc(p, c);
      LabelIsTitled(p);
      GapSnoc(p, c);
      var ws := Words(p);
      assert ws == ws[..|ws| - 1] + [ws[|ws| - 1]];
    } else {
      assert !Gap(s) && Words(s)[..|Words(s)| - 1] == [];
    }
  }

  /** A slug has a label exactly when it is not empty and has no leading, trailing or doubled
      separator. */
  lemma LabelExactly(s: string)
    ensures SlugLabel(s).Some? <==> (s != "" && !Gap(s) && s[|s| - 1] != '_')
  {
    EmptyWordIsGap(s);
    LabelIsTitled(s);
    hide Words, Gap, Titled, Capitals, Join;
    var ws := Words(s);
    assert ws == ws[..|ws| - 1] + [ws[|ws| - 1]];
  }

  lemma CleanHasNoGap(s: string)
    ensures Clean(s) <==> (s != "" && !Gap(s) && s[|s| - 1] != '_' && Plain(s))
    ensures Clean(s) ==> CleanSoFar(s)
  {
    if s != "" && !Gap(s) && s[|s| - 1] != '_' && Plain(s) {
      assert forall i | 0 <= i < |s| - 1 :: s[i] == '_' ==> s[i + 1] != '_';
    }
  }

  /** The round trip: every clean slug has a label, and that label's slug is the slug again. */
  lemma CleanRoundTrips(s: string)
    requires Clean(s)
    ensures SlugLabel(s).Some? && Slug(SlugLabel(s).value) == s
  {
    CleanHasNoGap(s);
    LabelExactly(s);
    LabelIsTitled(s);
    LoweredTitle(s);
    BuildSpaced(s);
    hide Titled, Spaced, Words, Capitals, Join, Build, Gap;
  }

  /** So every name's slug is empty or comes back from its label. */
  lemma SlugRoundTrips(name: string)
    requires Slug(name) != ""
    ensures SlugLabel(Slug(name)).Some? && Slug(SlugLabel(Slug(name)).value) == Slug(name)
  {
    SlugIsClean(name);
    hide Slug, SlugLabel;
    CleanRoundTrips(Slug(name));
  }
}
