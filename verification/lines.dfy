/** Byte strings cut at newlines: the complete lines of a file and its unfinished tail.

    Both log readers of the pipeline (the rollout parser and the queue ingester) read a
    growing file in pieces and carry the unfinished tail from one read to the next. */
module Lines {
  newtype byte = b: int | 0 <= b < 256
  type Bytes = seq<byte>

  const NL: byte := 10
  const CR: byte := 13

  /** The bytes after the last newline. */
  function Tail(s: Bytes): Bytes {
    if s == [] || s[|s| - 1] == NL then [] else Tail(s[..|s| - 1]) + [s[|s| - 1]]
  }

  /** The lines that end in a newline, without it, in file order. */
  function Complete(s: Bytes): seq<Bytes> {
    if s == [] then []
    else
      var init := s[..|s| - 1];
      if s[|s| - 1] == NL then Complete(init) + [Tail(init)] else Complete(init)
  }

  /** The bytes that the complete lines occupy. */
  function Join(lines: seq<Bytes>): Bytes {
    if lines == [] then [] else Join(lines[..|lines| - 1]) + lines[|lines| - 1] + [NL]
  }

  /** Every line of `s`, finished or not, is at most `max` bytes long. */
  ghost predicate LinesFit(s: Bytes, max: nat) {
    forall i :: 0 <= i <= |s| ==> |Tail(s[..i])| <= max
  }

  /** One more byte ends the tail as a line, or joins it. */
  lemma Snoc(s: Bytes, b: byte)
    ensures Tail(s + [b]) == if b == NL then [] else Tail(s) + [b]
    ensures Complete(s + [b]) == if b == NL then Complete(s) + [Tail(s)] else Complete(s)
  {
    assert (s + [b])[..|s|] == s;
  }

  lemma {:induction false} NewlineFree(s: Bytes)
    requires NL !in s
    ensures Tail(s) == s && Complete(s) == []
  {
    if s != [] {
      NewlineFree(s[..|s| - 1]);
    }
  }

  lemma {:induction false} TailIsLine(s: Bytes)
    ensures NL !in Tail(s)
    ensures Tail(Tail(s)) == Tail(s) && Complete(Tail(s)) == []
  {
    if s != [] {
      TailIsLine(s[..|s| - 1]);
    }
    NewlineFree(Tail(s));
  }

  /** Reading on from a carried tail gives the same lines as reading everything at once. */
  lemma {:induction false} AppendLines(s: Bytes, t: Bytes)
    ensures Complete(s + t) == Complete(s) + Complete(Tail(s) + t)
    ensures Tail(s + t) == Tail(Tail(s) + t)
  {
    hide Tail, Complete;
    if t == [] {
      assert s + t == s && Tail(s) + t == Tail(s);
      TailIsLine(s);
    } else {
      var front, last := t[..|t| - 1], t[|t| - 1];
      AppendLines(s, front);
      Snoc(s + front, last);
      Snoc(Tail(s) + front, last);
      assert s + t == s + front + [last];
      assert Tail(s) + t == Tail(s) + front + [last];
    }
  }

  /** Cutting loses nothing: the lines and the tail are the file. */
  lemma {:induction false} JoinLines(s: Bytes)
    ensures Join(Complete(s)) + Tail(s) == s
  {
    if s != [] {
      var init := s[..|s| - 1];
      JoinLines(init);
      assert s == init + [s[|s| - 1]];
      if s[|s| - 1] == NL {
        var ls := Complete(s);
        assert ls[..|ls| - 1] == Complete(init);
      }
    }
  }

  /** A newline-free stretch after a boundary is the tail, and a newline makes it a line. */
  lemma AddLine(head: Bytes, line: Bytes)
    requires Tail(head) == [] && NL !in line
    ensures Complete(head + line) == Complete(head) && Tail(head + line) == line
    ensures Complete(head + line + [NL]) == Complete(head) + [line] && Tail(head + line + [NL]) == []
  {
    hide Tail, Complete;
    AppendLines(head, line);
    NewlineFree(line);
    assert [] + line == line;
    Snoc(head + line, NL);
  }

  /** From a boundary to the next newline is one line. */
  lemma NextLine(s: Bytes, i: nat, j: nat)
    requires i <= j < |s| && s[j] == NL && NL !in s[i..j]
    requires Tail(s[..i]) == []
    ensures Tail(s[..j + 1]) == []
    ensures Complete(s[..j + 1]) == Complete(s[..i]) + [s[i..j]]
  {
    hide *;
    AddLine(s[..i], s[i..j]);
    assert s[..j] == s[..i] + s[i..j];
    assert s[..j + 1] == s[..j] + [NL];
  }

  /** A newline-free start is the start of the first line. */
  lemma {:induction false} FirstLine(s: Bytes, n: nat)
    requires n <= |s| && NL !in s[..n]
    ensures Complete(s) == [] ==> Tail(s) == s
    ensures Complete(s) != [] ==> |Complete(s)[0]| >= n
  {
    hide Tail, Complete;
    if n < |s| {
      var init := s[..|s| - 1];
      assert init[..n] == s[..n];
      FirstLine(init, n);
      assert s == init + [s[|s| - 1]];
      Snoc(init, s[|s| - 1]);
    } else {
      assert s[..n] == s;
      NewlineFree(s);
    }
  }

  /** Cutting is the only way to see a file as newline-free lines. */
  lemma {:induction false} LinesOfJoin(lines: seq<Bytes>)
    requires forall l :: l in lines ==> NL !in l
    ensures Complete(Join(lines)) == lines
    ensures Tail(Join(lines)) == []
  {
    hide Tail, Complete;
    if lines == [] {
      NewlineFree([]);
    } else {
      var front, last := lines[..|lines| - 1], lines[|lines| - 1];
      LinesOfJoin(front);
      AddLine(Join(front), last);
    }
  }

  /** A position with an empty tail is the start of the file or follows a newline. */
  lemma BoundaryTail(s: Bytes, i: nat)
    requires i <= |s|
    ensures Tail(s[..i]) == [] <==> i == 0 || s[i - 1] == NL
  {
  }

  lemma SubSlice(s: Bytes, i: nat, j: nat, k: nat)
    requires i + k <= j <= |s|
    ensures s[i..j][..k] == s[i..i + k]
  {
  }

  /** Go's strings.Split at newlines. */
  function Split(s: Bytes): (p: seq<Bytes>)
    ensures p == Complete(s) + [Tail(s)]
  {
    if s == [] then [[]]
    else
      var p, b := Split(s[..|s| - 1]), s[|s| - 1];
      if b == NL then p + [[]] else p[..|p| - 1] + [p[|p| - 1] + [b]]
  }

  function SplitCompleteLines(data: Bytes): (r: (seq<Bytes>, Bytes))
    ensures r.0 == Complete(data) && r.1 == Tail(data)
  {
    if data == [] then ([], [])
    else if data[|data| - 1] == NL then (Split(data[..|data| - 1]), [])
    else
      var p := Split(data);
      if |p| == 1 then JoinLines(data); ([], data)
      else (p[..|p| - 1], p[|p| - 1])
  }
}
