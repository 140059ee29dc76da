/** The few Python `str` operations the converter relies on, with the
    semantics CPython gives them: `split` with an explicit one-character
    separator, `splitlines`, `rstrip`, `lower`, `startswith` and the
    substring test `p in s`. */
module PyStr {

  /** `s.split(c)`: never empty, and no piece contains the separator. */
  function Split(s: string, c: char): (r: seq<string>)
    ensures |r| >= 1
    ensures forall i :: 0 <= i < |r| ==> c !in r[i]
  {
    if |s| == 0 then [""]
    else
      var rest := Split(s[1..], c);
      if s[0] == c then [""] + rest
      else [[s[0]] + rest[0]] + rest[1..]
  }

  /** `c.join(parts)`, the inverse of Split. */
  function Join(parts: seq<string>, c: char): string
    requires |parts| >= 1
  {
    if |parts| == 1 then parts[0] else parts[0] + [c] + Join(parts[1..], c)
  }

  lemma {:induction false} JoinSplit(s: string, c: char)
    ensures Join(Split(s, c), c) == s
  {
    if |s| > 0 {
      JoinSplit(s[1..], c);
      var rest := Split(s[1..], c);
      assert s == [s[0]] + s[1..];
      if s[0] == c {
        assert Split(s, c) == [""] + rest;
        JoinEmptyFirst(rest, c);
      } else {
        assert Split(s, c) == [[s[0]] + rest[0]] + rest[1..];
        JoinExtendFirst([s[0]], rest, c);
      }
    }
  }

  /** An empty first piece contributes only its separator. */
  lemma JoinEmptyFirst(parts: seq<string>, c: char)
    requires |parts| >= 1
    ensures Join([""] + parts, c) == [c] + Join(parts, c)
  {
    assert ([""] + parts)[1..] == parts;
  }

  /** Prefixing the first piece prefixes the join. */
  lemma JoinExtendFirst(x: string, parts: seq<string>, c: char)
    requires |parts| >= 1
    ensures Join([x + parts[0]] + parts[1..], c) == x + Join(parts, c)
  {
    if |parts| > 1 {
      assert ([x + parts[0]] + parts[1..])[1..] == parts[1..];
    }
  }

  lemma {:induction false} SplitNoSeparator(s: string, c: char)
    requires c !in s
    ensures Split(s, c) == [s]
  {
    if |s| > 0 {
      SplitNoSeparator(s[1..], c);
      assert s == [s[0]] + s[1..];
    }
  }

  lemma {:induction false} SplitAfterPiece(x: string, c: char, y: string)
    requires c !in x
    ensures Split(x + [c] + y, c) == [x] + Split(y, c)
  {
    if |x| == 0 {
      assert x + [c] + y == [c] + y;
      assert ([c] + y)[1..] == y;
    } else {
      assert (x + [c] + y)[1..] == x[1..] + [c] + y;
      SplitAfterPiece(x[1..], c, y);
      assert [x[0]] + x[1..] == x;
    }
  }

  /** Splitting a join of separator-free pieces gives the pieces back. */
  lemma {:induction false} SplitJoin(parts: seq<string>, c: char)
    requires |parts| >= 1
    requires forall i :: 0 <= i < |parts| ==> c !in parts[i]
    ensures Split(Join(parts, c), c) == parts
  {
    if |parts| == 1 {
      SplitNoSeparator(parts[0], c);
    } else {
      SplitJoin(parts[1..], c);
      SplitAfterPiece(parts[0], c, Join(parts[1..], c));
      assert [parts[0]] + parts[1..] == parts;
    }
  }

  /** `s.split(c)[0]`: the longest prefix of `s` free of `c`. */
  function FirstPiece(s: string, c: char): string
  {
    Split(s, c)[0]
  }

  /** `s.split(c)[-1]`: the longest suffix of `s` free of `c`. */
  function LastPiece(s: string, c: char): string
  {
    var parts := Split(s, c);
    parts[|parts| - 1]
  }

  lemma {:induction false} JoinFirst(parts: seq<string>, c: char)
    requires |parts| >= 2
    ensures Join(parts, c) == parts[0] + [c] + Join(parts[1..], c)
  {
  }

  lemma {:induction false} JoinLast(parts: seq<string>, c: char)
    requires |parts| >= 2
    ensures Join(parts, c) == Join(parts[..|parts| - 1], c) + [c] + parts[|parts| - 1]
  {
    if |parts| > 2 {
      JoinLast(parts[1..], c);
      assert parts[1..][..|parts| - 2] == parts[..|parts| - 1][1..];
    }
  }

  lemma FirstPieceIsPrefix(s: string, c: char)
    ensures FirstPiece(s, c) <= s
    ensures c !in FirstPiece(s, c)
    ensures |FirstPiece(s, c)| < |s| ==> s[|FirstPiece(s, c)|] == c
  {
    JoinSplit(s, c);
    var parts := Split(s, c);
    if |parts| >= 2 {
      JoinFirst(parts, c);
    }
  }

  lemma LastPieceIsSuffix(s: string, c: char)
    ensures |LastPiece(s, c)| <= |s|
    ensures s[|s| - |LastPiece(s, c)|..] == LastPiece(s, c)
    ensures c !in LastPiece(s, c)
    ensures |LastPiece(s, c)| < |s| ==> s[|s| - |LastPiece(s, c)| - 1] == c
  {
    JoinSplit(s, c);
    var parts := Split(s, c);
    if |parts| >= 2 {
      JoinLast(parts, c);
    }
  }

  /** The first piece is determined by the position of the first separator. */
  lemma FirstPieceAt(s: string, c: char, i: nat)
    requires i <= |s| && c !in s[..i] && (i < |s| ==> s[i] == c)
    ensures FirstPiece(s, c) == s[..i]
  {
    FirstPieceIsPrefix(s, c);
  }

  /** The last piece is determined by the position after the last separator. */
  lemma LastPieceAt(s: string, c: char, j: nat)
    requires j <= |s| && c !in s[j..] && (j > 0 ==> s[j - 1] == c)
    ensures LastPiece(s, c) == s[j..]
  {
    LastPieceIsSuffix(s, c);
  }

  /** `s.startswith(p)`. */
  predicate StartsWith(s: string, p: string)
  {
    p <= s
  }

  /** `p in s` for strings: `p` occurs in `s` at some position. */
  ghost predicate Occurs(p: string, s: string)
  {
    exists i :: OccursAt(p, s, i)
  }

  predicate OccursAt(p: string, s: string, i: int)
  {
    0 <= i <= |s| - |p| && s[i..i + |p|] == p
  }

  /** The substring test, scanning `s` from the left. */
  function Contains(s: string, p: string): bool
    decreases |s|
  {
    if |s| < |p| then false
    else if s[..|p|] == p then true
    else Contains(s[1..], p)
  }

  lemma {:induction false} ContainsOccurs(s: string, p: string)
    ensures Contains(s, p) <==> Occurs(p, s)
    decreases |s|
  {
    if |s| >= |p| && s[..|p|] != p {
      ContainsOccurs(s[1..], p);
      if Occurs(p, s) {
        var i :| OccursAt(p, s, i);
        assert i != 0;
        assert s[1..][i - 1..i - 1 + |p|] == p;
        assert OccursAt(p, s[1..], i - 1);
      }
      if Occurs(p, s[1..]) {
        var i :| OccursAt(p, s[1..], i);
        assert s[i + 1..i + 1 + |p|] == p;
        assert OccursAt(p, s, i + 1);
      }
    } else if |s| >= |p| {
      assert OccursAt(p, s, 0);
    } else {
      assert forall i :: !OccursAt(p, s, i);
    }
  }

  /** A witness position is enough for the substring test. */
  lemma ContainsAt(s: string, p: string, i: nat)
    requires OccursAt(p, s, i)
    ensures Contains(s, p)
  {
    ContainsOccurs(s, p);
  }

  /** Characters Python's `str.isspace` accepts (what `rstrip()` removes). */
  predicate IsSpace(ch: char)
  {
    ch in {' ', '\t', '\n', '\r', '\U{0B}', '\U{0C}', '\U{1C}', '\U{1D}', '\U{1E}', '\U{1F}',
           '\U{85}', '\U{A0}', '\U{1680}', '\U{2028}', '\U{2029}', '\U{202F}', '\U{205F}', '\U{3000}'}
    || ('\U{2000}' <= ch <= '\U{200A}')
  }

  /** `s.rstrip()`: drop trailing whitespace. */
  function RStrip(s: string): (r: string)
    ensures r <= s
    ensures |r| == 0 || !IsSpace(r[|r| - 1])
    ensures forall i :: |r| <= i < |s| ==> IsSpace(s[i])
  {
    if |s| > 0 && IsSpace(s[|s| - 1]) then RStrip(s[..|s| - 1]) else s
  }

  /** The stripped string is determined by where the trailing whitespace
      starts. */
  lemma RStripAt(s: string, n: nat)
    requires n <= |s| && (n == 0 || !IsSpace(s[n - 1]))
    requires forall i :: n <= i < |s| ==> IsSpace(s[i])
    ensures RStrip(s) == s[..n]
  {
  }

  predicate IsUpper(ch: char)
  {
    'A' <= ch <= 'Z'
  }

  function LowerChar(ch: char): char
  {
    if IsUpper(ch) then (ch as int + 32) as char else ch
  }

  /** `s.lower()`, restricted to the ASCII letters. */
  function Lower(s: string): (r: string)
    ensures |r| == |s|
    ensures forall i :: 0 <= i < |s| ==> !IsUpper(r[i])
    ensures forall i :: 0 <= i < |s| && !IsUpper(s[i]) ==> r[i] == s[i]
    ensures forall i :: 0 <= i < |s| && IsUpper(s[i]) ==> r[i] as int == s[i] as int + 32
  {
    seq(|s|, i requires 0 <= i < |s| => LowerChar(s[i]))
  }

  /** Line boundaries recognised by `str.splitlines`. */
  predicate IsLineBreak(ch: char)
  {
    ch in {'\n', '\r', '\U{0B}', '\U{0C}', '\U{1C}', '\U{1D}', '\U{1E}', '\U{85}', '\U{2028}', '\U{2029}'}
  }

  /** Index of the first line boundary in `s`, or `|s|`. */
  function LineEnd(s: string): (i: nat)
    ensures i <= |s|
    ensures forall k :: 0 <= k < i ==> !IsLineBreak(s[k])
    ensures i < |s| ==> IsLineBreak(s[i])
  {
    if |s| == 0 || IsLineBreak(s[0]) then 0 else 1 + LineEnd(s[1..])
  }

  lemma LineEndAt(s: string, i: nat)
    requires i <= |s| && (forall k :: 0 <= k < i ==> !IsLineBreak(s[k])) && (i < |s| ==> IsLineBreak(s[i]))
    ensures LineEnd(s) == i
  {
  }

  /** `s.splitlines()`: the lines, without their terminators; "\r\n" is one
      terminator, and a final terminator does not open an empty last line. */
  function SplitLines(s: string): (r: seq<string>)
    ensures forall j, k :: 0 <= j < |r| && 0 <= k < |r[j]| ==> !IsLineBreak(r[j][k])
    decreases |s|
  {
    if |s| == 0 then []
    else
      var i := LineEnd(s);
      if i == |s| then [s]
      else
        var next := if s[i] == '\r' && i + 1 < |s| && s[i + 1] == '\n' then i + 2 else i + 1;
        [s[..i]] + SplitLines(s[next..])
  }

  predicate NoLineBreak(line: string)
  {
    forall k :: 0 <= k < |line| ==> !IsLineBreak(line[k])
  }

  /** A line ended by a single-character boundary (not the "\r" of a
      "\r\n" pair) is one line, and the rest is split on its own. */
  lemma SplitLinesBreak(line: string, b: char, rest: string)
    requires NoLineBreak(line) && IsLineBreak(b)
    requires !(b == '\r' && |rest| > 0 && rest[0] == '\n')
    ensures SplitLines(line + [b] + rest) == [line] + SplitLines(rest)
  {
    var s := line + [b] + rest;
    assert s[..|line|] == line;
    assert s[|line| + 1..] == rest;
    LineEndAt(s, |line|);
  }

  /** "\r\n" ends one line, not two. */
  lemma SplitLinesCrLf(line: string, rest: string)
    requires NoLineBreak(line)
    ensures SplitLines(line + "\r\n" + rest) == [line] + SplitLines(rest)
  {
    var s := line + "\r\n" + rest;
    assert s[..|line|] == line;
    assert s[|line| + 2..] == rest;
    LineEndAt(s, |line|);
  }

  /** A non-empty text without a boundary is one line; the empty text has
      none, so a final boundary opens no empty last line. */
  lemma SplitLinesLast(line: string)
    requires NoLineBreak(line)
    ensures SplitLines(line) == if |line| == 0 then [] else [line]
  {
    LineEndAt(line, |line|);
  }
}
