/** The rotating window of queue files a scan works on
    (internal/agent/api_integrations_ingest_agent.go). */
module ScanWindow {
  const MAX_FILES: nat := 100

  /** The position a pick falls on: the `i`th pick of a scan that starts at `cursor`. */
  function Position(n: nat, cursor: nat, i: nat): nat
    requires n > 0
  {
    (cursor % n + i) % n
  }

  function Selected(paths: seq<string>, cursor: nat): seq<string> {
    if |paths| > MAX_FILES
    then seq(MAX_FILES, i requires 0 <= i < MAX_FILES => paths[Position(|paths|, cursor, i)])
    else paths
  }

  function NextCursor(paths: seq<string>, cursor: nat): nat {
    if |paths| > MAX_FILES then (cursor % |paths| + MAX_FILES) % |paths| else 0
  }

  class Scanner {
    var scanPathCursor: nat

    constructor ()
      ensures scanPathCursor == 0
    {
      scanPathCursor := 0;
    }

    method SelectPaths(paths: seq<string>) returns (selected: seq<string>)
      modifies this
      ensures selected == Selected(paths, old(scanPathCursor))
      ensures scanPathCursor == NextCursor(paths, old(scanPathCursor))
      ensures paths != [] ==> scanPathCursor < |paths|
    {
      if |paths| > MAX_FILES {
        var start := scanPathCursor % |paths|;
        selected := [];
        for i := 0 to MAX_FILES
          invariant |selected| == i
          invariant forall j | 0 <= j < i :: selected[j] == paths[(start + j) % |paths|]
        {
          selected := selected + [paths[(start + i) % |paths|]];
        }
        scanPathCursor := (start + |selected|) % |paths|;
      } else {
        selected := paths;
        scanPathCursor := 0;
      }
    }
  }

  /** The cursor before the `t`th scan of one list of paths. */
  function CursorAt(paths: seq<string>, cursor: nat, t: nat): nat {
    if t == 0 then cursor else NextCursor(paths, CursorAt(paths, cursor, t - 1))
  }

  lemma Congruent(a: int, b: int, n: int, k: int)
    requires n > 0 && a == b + k * n
    ensures a % n == b % n
  {
    var q, r := b / n, b % n;
    assert b == q * n + r;
    assert a == (q + k) * n + r;
    Remainder(a, n, q + k, r);
  }

  lemma SmallMultiple(k: int, n: int, d: int)
    requires n > 0 && d == k * n && -n < d < n
    ensures k == 0
  {
    if k > 0 {
      MulAtLeast(k, n);
    } else if k < 0 {
      MulAtLeast(-k, n);
    }
  }

  lemma MulAtLeast(k: int, n: int)
    requires k >= 1 && n >= 0
    ensures k * n >= n
  {}

  lemma Distribute(q: int, p: int, n: int)
    ensures (q - p) * n == q * n - p * n
  {}

  lemma Quotient(a: int, n: int)
    requires n > 0
    ensures a == (a / n) * n + a % n && 0 <= a % n < n
  {}

  lemma Remainder(a: int, n: int, q: int, r: int)
    requires n > 0 && a == q * n + r && 0 <= r < n
    ensures a % n == r
  {
    Quotient(a, n);
    var p, s := a / n, a % n;
    Distribute(q, p, n);
    SmallMultiple(q - p, n, s - r);
  }

  lemma AddMod(a: int, b: int, n: int)
    requires n > 0
    ensures (a % n + b) % n == (a + b) % n
  {
    assert a + b == (a % n + b) + (a / n) * n;
    Congruent(a + b, a % n + b, n, a / n);
  }

  /** Every scan moves the window by its size, around the end of the list. */
  lemma {:induction false} CursorMoves(paths: seq<string>, cursor: nat, t: nat)
    requires |paths| > MAX_FILES
    ensures CursorAt(paths, cursor, t) % |paths| == (cursor + MAX_FILES * t) % |paths|
    ensures t > 0 ==> CursorAt(paths, cursor, t) < |paths|
  {
    if t > 0 {
      CursorMoves(paths, cursor, t - 1);
      var n := |paths|;
      var c := CursorAt(paths, cursor, t - 1);
      AddMod(c, MAX_FILES, n);
      AddMod(cursor + MAX_FILES * (t - 1), MAX_FILES, n);
      AddMod(c + MAX_FILES, 0, n);
    }
  }

  /** One scan works on as many different positions as it makes picks. */
  lemma PicksDiffer(n: nat, cursor: nat, i: nat, j: nat)
    requires n > MAX_FILES && i < j < MAX_FILES
    ensures Position(n, cursor, i) != Position(n, cursor, j)
  {
    var start := cursor % n;
    var p, q := start + i, start + j;
    assert 0 < q - p < n;
    if p % n == q % n {
      assert q - p == (q / n - p / n) * n;
      Remainder(q - p, n, q / n - p / n, 0);
      Remainder(q - p, n, 0, q - p);
    }
  }

  lemma SelectionIsDistinct(paths: seq<string>, cursor: nat)
    requires |paths| > MAX_FILES && forall i, j | 0 <= i < j < |paths| :: paths[i] != paths[j]
    ensures |Selected(paths, cursor)| == MAX_FILES
    ensures forall i, j | 0 <= i < j < MAX_FILES :: Selected(paths, cursor)[i] != Selected(paths, cursor)[j]
  {
    forall i, j | 0 <= i < j < MAX_FILES ensures Selected(paths, cursor)[i] != Selected(paths, cursor)[j] {
      PicksDiffer(|paths|, cursor, i, j);
    }
  }

  /** The scans it takes to pick as often as there are paths. */
  function Rounds(n: nat): nat {
    (n + MAX_FILES - 1) / MAX_FILES
  }

  /** Fairness: with a fixed list of paths, from any cursor, every path is picked once at least
      in that many scans in a row, and the scan and the pick are known. */
  lemma EveryPathIsPicked(paths: seq<string>, cursor: nat, p: nat) returns (t: nat, i: nat)
    requires |paths| > MAX_FILES && p < |paths|
    ensures t < Rounds(|paths|) && i < MAX_FILES
    ensures Selected(paths, CursorAt(paths, cursor, t))[i] == paths[p]
    ensures Position(|paths|, CursorAt(paths, cursor, t), i) == p
  {
    var n := |paths|;
    var d := (p - cursor) % n;
    var q := (p - cursor) / n;
    Quotient(p - cursor, n);
    t, i := d / MAX_FILES, d % MAX_FILES;
    Quotient(d, MAX_FILES);
    CursorMoves(paths, cursor, t);
    var c := CursorAt(paths, cursor, t);
    hide CursorAt;
    FewRounds(n, d);
    AddMod(cursor + MAX_FILES * t, i, n);
    assert cursor + MAX_FILES * t + i == p - q * n;
    WholeTurns(p, n, q);
    assert Position(n, c, i) == p;
  }

  lemma FewRounds(n: nat, d: nat)
    requires d < n
    ensures d / MAX_FILES < Rounds(n)
  {}

  lemma WholeTurns(p: nat, n: nat, q: int)
    requires p < n
    ensures (p - q * n) % n == p
  {
    Distribute(0, q, n);
    Remainder(p - q * n, n, -q, p);
  }
}
