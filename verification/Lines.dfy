/**
Cutting a stream of text chunks into lines: what the lines of a text are, and the two
ways of keeping an unfinished line between chunks.
*/
module Lines {
  const NEWLINE: char := '\n'

  /** Where the first newline at or after `start` is, or -1. */
  function IndexOf(text: string, start: nat): (r: int)
    requires start <= |text|
    ensures r == -1 ==> forall k | start <= k < |text| :: text[k] != NEWLINE
    ensures r != -1 ==> start <= r < |text| && text[r] == NEWLINE && forall k | start <= k < r :: text[k] != NEWLINE
    decreases |text| - start
  {
    if start == |text| then -1
    else if text[start] == NEWLINE then start
    else IndexOf(text, start + 1)
  }

  /** The pieces between newlines; the last one is what no newline ends. */
  function Split(text: string): (r: seq<string>)
    ensures |r| >= 1
    decreases |text|
  {
    var i := IndexOf(text, 0);
    if i == -1 then [text] else [text[..i]] + Split(text[i + 1..])
  }

  function Complete(text: string): seq<string> {
    Split(text)[..|Split(text)| - 1]
  }

  function Tail(text: string): string {
    Split(text)[|Split(text)| - 1]
  }

  /** What an unfinished line adds when the text ends: itself, unless it is empty. */
  function Residue(buf: string): seq<string> {
    if buf == "" then [] else [buf]
  }

  /** The lines of a text; an empty tail is none. */
  function LinesOf(text: string): seq<string> {
    Complete(text) + Residue(Tail(text))
  }

  function Join(pieces: seq<string>): string
    requires |pieces| >= 1
  {
    if |pieces| == 1 then pieces[0] else pieces[0] + [NEWLINE] + Join(pieces[1..])
  }

  predicate Unbroken(piece: string) {
    NEWLINE !in piece
  }

  /** Splitting loses nothing: it is the inverse of joining unbroken pieces. */
  lemma JoinSplit(text: string)
    ensures Join(Split(text)) == text
    ensures forall piece | piece in Split(text) :: Unbroken(piece)
  {
    SplitJoins(text);
    SplitBreaks(text);
  }

  lemma {:induction false} SplitJoins(text: string)
    ensures Join(Split(text)) == text
    decreases |text|
  {
    var i := IndexOf(text, 0);
    if i != -1 {
      SplitJoins(text[i + 1..]);
      JoinCons(text[..i], Split(text[i + 1..]));
      assert text == text[..i] + [NEWLINE] + text[i + 1..];
    }
  }

  lemma JoinCons(piece: string, pieces: seq<string>)
    requires |pieces| >= 1
    ensures Join([piece] + pieces) == piece + [NEWLINE] + Join(pieces)
  {
    assert ([piece] + pieces)[1..] == pieces;
  }

  lemma {:induction false} SplitBreaks(text: string)
    ensures forall piece | piece in Split(text) :: Unbroken(piece)
    decreases |text|
  {
    var i := IndexOf(text, 0);
    if i == -1 {
      assert Unbroken(text);
    } else {
      SplitBreaks(text[i + 1..]);
      assert Unbroken(text[..i]);
    }
  }

  lemma {:induction false} SplitJoin(pieces: seq<string>)
    requires |pieces| >= 1 && forall piece | piece in pieces :: Unbroken(piece)
    ensures Split(Join(pieces)) == pieces
  {
    assert Unbroken(pieces[0]);
    if |pieces| > 1 {
      SplitAtNewline(pieces[0], Join(pieces[1..]));
      SplitJoin(pieces[1..]);
    }
  }

  lemma SplitAtNewline(piece: string, rest: string)
    requires Unbroken(piece)
    ensures Split(piece + [NEWLINE] + rest) == [piece] + Split(rest)
  {
    var text, n := piece + [NEWLINE] + rest, |piece|;
    assert text[n] == NEWLINE;
    assert forall k | 0 <= k < n :: text[k] == piece[k];
    assert IndexOf(text, 0) == n;
    assert text[..n] == piece;
    assert text[n + 1..] == rest;
  }

  lemma SplitLast(text: string)
    requires Unbroken(text)
    ensures Split(text) == [text]
  {
  }

  /** A text can be split where its unfinished line begins. */
  lemma SplitAppend(a: string, b: string)
    ensures Split(a + b) == Complete(a) + Split(Tail(a) + b)
  {
    JoinSplit(a);
    SplitJoinAppend(Split(a), b);
  }

  lemma {:induction false} SplitJoinAppend(pieces: seq<string>, b: string)
    requires |pieces| >= 1 && forall piece | piece in pieces :: Unbroken(piece)
    ensures Split(Join(pieces) + b) == pieces[..|pieces| - 1] + Split(pieces[|pieces| - 1] + b)
  {
    if |pieces| > 1 {
      var rest := pieces[1..];
      assert Unbroken(pieces[0]);
      SplitJoinAppend(rest, b);
      SplitAtNewlineOfFirst(pieces[0], Join(rest), b);
      Regroup([pieces[0]], rest[..|rest| - 1], Split(rest[|rest| - 1] + b));
      assert [pieces[0]] + rest[..|rest| - 1] == pieces[..|pieces| - 1];
    }
  }

  lemma Regroup(a: seq<string>, b: seq<string>, c: seq<string>)
    ensures a + (b + c) == a + b + c
  {
  }

  lemma SplitAtNewlineOfFirst(piece: string, rest: string, b: string)
    requires Unbroken(piece)
    ensures Split(piece + [NEWLINE] + rest + b) == [piece] + Split(rest + b)
  {
    SplitAtNewline(piece, rest + b);
    assert piece + [NEWLINE] + rest + b == piece + [NEWLINE] + (rest + b);
  }

  lemma {:induction false} TailIsUnbroken(text: string)
    ensures Unbroken(Tail(text)) && Complete(Tail(text)) == [] && Tail(Tail(text)) == Tail(text)
  {
    JoinSplit(text);
    assert Tail(text) in Split(text);
  }

  lemma CompleteAppend(a: string, b: string)
    ensures Complete(a + b) == Complete(a) + Complete(Tail(a) + b)
    ensures Tail(a + b) == Tail(Tail(a) + b)
  {
    SplitAppend(a, b);
    CutPieces(Complete(a), Split(Tail(a) + b), Split(a + b));
  }

  lemma CutPieces(front: seq<string>, back: seq<string>, all: seq<string>)
    requires back != [] && all == front + back
    ensures all[..|all| - 1] == front + back[..|back| - 1] && all[|all| - 1] == back[|back| - 1]
  {
  }

  lemma LinesAppend(a: string, b: string)
    ensures LinesOf(a + b) == Complete(a) + LinesOf(Tail(a) + b)
  {
    CompleteAppend(a, b);
  }

  /** Dropping the unfinished line of `a` shows in the lines of `a + b` exactly when there
      is one. */
  lemma DroppedTailShowsIff(a: string, b: string)
    ensures Complete(a) + LinesOf(b) == LinesOf(a + b) <==> Tail(a) == ""
  {
    var u := Tail(a);
    LinesAppend(a, b);
    TailIsUnbroken(a);
    if u == "" {
      assert u + b == b;
    } else {
      LongerFirstLine(u, b);
      if Complete(a) + LinesOf(b) == LinesOf(a + b) {
        SameSuffix(Complete(a), LinesOf(b), LinesOf(u + b));
      }
    }
  }

  lemma LongerFirstLine(u: string, b: string)
    requires Unbroken(u) && u != ""
    ensures LinesOf(u + b) != LinesOf(b)
  {
    var i := IndexOf(b, 0);
    if i == -1 {
      assert forall k | 0 <= k < |u + b| :: (u + b)[k] != NEWLINE;
      assert LinesOf(u + b) == [u + b];
      assert b != "" ==> LinesOf(b)[0] == b;
    } else {
      assert b == b[..i] + [NEWLINE] + b[i + 1..];
      SplitAtNewline(b[..i], b[i + 1..]);
      assert u + b == (u + b[..i]) + [NEWLINE] + b[i + 1..];
      SplitAtNewline(u + b[..i], b[i + 1..]);
      assert LinesOf(u + b)[0] == u + b[..i];
      assert LinesOf(b)[0] == b[..i];
    }
  }

  lemma SameSuffix(p: seq<string>, x: seq<string>, y: seq<string>)
    requires p + x == p + y
    ensures x == y
  {
    assert (p + x)[|p|..] == x;
    assert (p + y)[|p|..] == y;
  }

  /** Some lines, each with the newline that ends it. */
  function Terminated(lines: seq<string>): string {
    if lines == [] then "" else lines[0] + [NEWLINE] + Terminated(lines[1..])
  }

  lemma {:induction false} TerminatedAppend(lines: seq<string>, line: string)
    ensures Terminated(lines + [line]) == Terminated(lines) + line + [NEWLINE]
  {
    if lines != [] {
      assert (lines + [line])[1..] == lines[1..] + [line];
      TerminatedAppend(lines[1..], line);
    }
  }

  lemma {:induction false} SplitTerminated(lines: seq<string>, rest: string)
    requires Unbroken(rest) && forall line | line in lines :: Unbroken(line)
    ensures Split(Terminated(lines) + rest) == lines + [rest]
  {
    if lines == [] {
      assert "" + rest == rest;
    } else {
      assert Unbroken(lines[0]);
      SplitTerminated(lines[1..], rest);
      SplitAtNewlineOfFirst(lines[0], Terminated(lines[1..]), rest);
      assert [lines[0]] + (lines[1..] + [rest]) == lines + [rest];
    }
  }

  /** The lines of a text end at `start`, and no line ends behind it. */
  lemma AllLines(lines: seq<string>, text: string, start: nat)
    requires start <= |text| && text[..start] == Terminated(lines)
    requires Unbroken(text[start..]) && forall line | line in lines :: Unbroken(line)
    ensures lines == Complete(text) && text[start..] == Tail(text)
  {
    SplitTerminated(lines, text[start..]);
    assert text == text[..start] + text[start..];
    CutPieces(lines, [text[start..]], Split(text));
  }

  lemma NextLine(lines: seq<string>, text: string, start: nat, idx: nat)
    requires start <= idx < |text| && text[idx] == NEWLINE && text[..start] == Terminated(lines)
    ensures text[..idx + 1] == Terminated(lines + [text[start..idx]])
  {
    TerminatedAppend(lines, text[start..idx]);
    assert text[..idx + 1] == text[..start] + text[start..idx] + [NEWLINE];
  }

  /** The cursor-based splitter: from newline to newline, then the rest. */
  method CutLines(text: string) returns (lines: seq<string>, rest: string)
    ensures lines == Complete(text) && rest == Tail(text)
  {
    lines := [];
    var start := 0;
    var idx := IndexOf(text, start);
    while idx != -1
      invariant start <= |text| && idx == IndexOf(text, start)
      invariant text[..start] == Terminated(lines) && forall line | line in lines :: Unbroken(line)
      decreases |text| - start
    {
      NextLine(lines, text, start, idx);
      lines := lines + [text[start..idx]];
      start := idx + 1;
      idx := IndexOf(text, start);
    }
    AllLines(lines, text, start);
    rest := if start < |text| then text[start..] else "";
  }
}
