/**
 * String helpers used by the renderers. Two kinds live here:
 *  - built-in JavaScript string operations (`trimEnd`, `split`, `join`, `replace(/\s+/g, …)`,
 *    `toLowerCase`), modelled after the ECMAScript semantics;
 *  - the repository's own text helpers `getHeadingLevel`, `toHeading` and `getTab`, whose
 *    source file is not part of this model. Their definitions here are ASSUMPTIONS that state
 *    the behaviour the callers rely on; they are not claimed to match the unseen code.
 */
module TextUtils {
  import opened Seqs

  /**
   * The ECMAScript `\s` class, which is also the set `trimEnd` removes: WhiteSpace
   * (tab, vertical tab, form feed, space, no-break space, zero width no-break space and the
   * Unicode space separators) plus LineTerminator (line feed, carriage return, line and
   * paragraph separators).
   */
  predicate IsWhitespace(c: char) {
    c == '\t' || c == '\n' || c == '\U{000B}' || c == '\U{000C}' || c == '\r' || c == ' '
    || c == '\U{00A0}' || c == '\U{1680}' || ('\U{2000}' <= c <= '\U{200A}')
    || c == '\U{2028}' || c == '\U{2029}' || c == '\U{202F}' || c == '\U{205F}'
    || c == '\U{3000}' || c == '\U{FEFF}'
  }

  predicate NoWhitespace(s: string) {
    forall i :: 0 <= i < |s| ==> !IsWhitespace(s[i])
  }

  predicate IsNonEmpty(s: string) {
    s != []
  }

  /** `s.trimEnd()`: the longest prefix of `s` that does not end in whitespace. */
  function TrimEnd(s: string): (r: string)
    ensures r <= s
    ensures r == [] || !IsWhitespace(r[|r| - 1])
    ensures forall i :: |r| <= i < |s| ==> IsWhitespace(s[i])
  {
    if s == [] || !IsWhitespace(s[|s| - 1]) then s else TrimEnd(s[..|s| - 1])
  }

  /** The three facts TrimEnd ensures determine its result. */
  lemma TrimEndUnique(s: string, p: string)
    requires p <= s
    requires p == [] || !IsWhitespace(p[|p| - 1])
    requires forall i :: |p| <= i < |s| ==> IsWhitespace(s[i])
    ensures TrimEnd(s) == p
  {
    var r := TrimEnd(s);
    assert |r| == |p|;
    assert r == s[..|r|] && p == s[..|p|];
  }

  /** A prefix ending in a non-whitespace character survives trimming. */
  lemma TrimEndKeepsPrefix(s: string, p: string)
    requires p <= s && p != [] && !IsWhitespace(p[|p| - 1])
    ensures p <= TrimEnd(s)
  {
    var r := TrimEnd(s);
    assert s[|p| - 1] == p[|p| - 1];
    assert |r| >= |p|;
    assert r[..|p|] == s[..|p|];
  }

  /** Trailing whitespace before trimming does not change the result. */
  lemma TrimEndIgnoresTrailing(s: string, w: string)
    requires forall i :: 0 <= i < |w| ==> IsWhitespace(w[i])
    ensures TrimEnd(s + w) == TrimEnd(s)
  {
    var t, r := s + w, TrimEnd(s);
    assert r <= t;
    forall i | |r| <= i < |t| ensures IsWhitespace(t[i]) {
      if i < |s| { assert t[i] == s[i]; } else { assert t[i] == w[i - |s|]; }
    }
    TrimEndUnique(t, r);
  }

  /** Text ending in a non-whitespace character is not trimmed, whatever precedes it. */
  lemma TrimEndOfText(x: string, j: string)
    requires j != [] && !IsWhitespace(j[|j| - 1])
    ensures TrimEnd(x + j) == x + j
  {
    assert (x + j)[|x + j| - 1] == j[|j| - 1];
  }

  /** Trimming `s + w`, where `s` already ends in a non-whitespace character, gives `s`. */
  lemma TrimEndTrailing(s: string, w: string)
    requires s != [] && !IsWhitespace(s[|s| - 1])
    requires forall i :: 0 <= i < |w| ==> IsWhitespace(w[i])
    ensures TrimEnd(s + w) == s
  {
    var t := s + w;
    assert s <= t;
    forall i | |s| <= i < |t| ensures IsWhitespace(t[i]) {
      assert t[i] == w[i - |s|];
    }
    TrimEndUnique(t, s);
  }

  /** `ls.join(sep)`. */
  function Join(ls: seq<string>, sep: string): string {
    if |ls| == 0 then "" else if |ls| == 1 then ls[0] else ls[0] + sep + Join(ls[1..], sep)
  }

  lemma JoinCons(x: string, ys: seq<string>, sep: string)
    ensures Join([x] + ys, sep) == x + (if ys == [] then "" else sep + Join(ys, sep))
  {
    assert ([x] + ys)[1..] == ys;
  }

  /** The joined text begins with the first element. */
  lemma JoinStartsWithFirst(ls: seq<string>, sep: string)
    requires |ls| > 0
    ensures ls[0] <= Join(ls, sep)
  {
  }

  /** `s.split(sep)` for a one-character separator: never empty, pieces are separator-free, and
      joining them back gives `s`. */
  function Split(s: string, sep: char): (r: seq<string>)
    ensures |r| >= 1
    ensures forall i :: 0 <= i < |r| ==> sep !in r[i]
    ensures Join(r, [sep]) == s
  {
    if s == [] then [[]]
    else
      var rest := Split(s[1..], sep);
      if s[0] == sep then
        JoinCons([], rest, [sep]);
        [[]] + rest
      else
        JoinCons([s[0]] + rest[0], rest[1..], [sep]);
        JoinCons(rest[0], rest[1..], [sep]);
        assert rest == [rest[0]] + rest[1..];
        assert s == [s[0]] + s[1..];
        [[s[0]] + rest[0]] + rest[1..]
  }

  /** Splitting a separator-free string gives the string alone. */
  lemma {:induction false} SplitNoSeparator(s: string, sep: char)
    requires sep !in s
    ensures Split(s, sep) == [s]
  {
    if s != [] {
      SplitNoSeparator(s[1..], sep);
    }
  }

  /** Splitting `x + [sep] + y` peels `x` off as the first piece. */
  lemma {:induction false} SplitAtSeparator(x: string, sep: char, y: string)
    requires sep !in x
    ensures Split(x + [sep] + y, sep) == [x] + Split(y, sep)
  {
    var s := x + [sep] + y;
    if x == [] {
      assert s[0] == sep && s[1..] == y;
    } else {
      assert s[0] == x[0] && s[1..] == x[1..] + [sep] + y;
      SplitAtSeparator(x[1..], sep, y);
      assert [x[0]] + x[1..] == x;
    }
  }

  /** The round trip the other way: splitting a join of separator-free pieces restores them. */
  lemma {:induction false} SplitJoin(ls: seq<string>, sep: char)
    requires |ls| >= 1
    requires forall i :: 0 <= i < |ls| ==> sep !in ls[i]
    ensures Split(Join(ls, [sep]), sep) == ls
  {
    if |ls| == 1 {
      SplitNoSeparator(ls[0], sep);
    } else {
      SplitJoin(ls[1..], sep);
      SplitAtSeparator(ls[0], sep, Join(ls[1..], [sep]));
      assert ls == [ls[0]] + ls[1..];
    }
  }

  /** The lines of `s` that are not empty (`s.split("\n").filter((line) => !!line)`). */
  function NonEmptyLines(s: string): (r: seq<string>)
    ensures forall i :: 0 <= i < |r| ==> r[i] != [] && '\n' !in r[i]
  {
    Filter(IsNonEmpty, Split(s, '\n'))
  }

  /** A text with no blank line in it: not empty, no line break at either end, no two in a row. */
  predicate NoBlankLine(s: string) {
    s != [] && s[0] != '\n' && s[|s| - 1] != '\n'
    && forall i :: 0 <= i < |s| - 1 ==> !(s[i] == '\n' && s[i + 1] == '\n')
  }

  lemma {:induction false} SplitPiecesNonEmpty(s: string)
    requires NoBlankLine(s)
    ensures forall i :: 0 <= i < |Split(s, '\n')| ==> Split(s, '\n')[i] != []
  {
    var t := s[1..];
    if t == [] {
      assert Split(t, '\n') == [[]];
    } else if t[0] == '\n' {
      var u := s[2..];
      assert u == t[1..];
      assert |s| > 2 && u != [] && u[0] == s[2] && u[|u| - 1] == s[|s| - 1];
      forall i | 0 <= i < |u| - 1 ensures !(u[i] == '\n' && u[i + 1] == '\n') {
        assert u[i] == s[i + 2] && u[i + 1] == s[i + 3];
      }
      SplitPiecesNonEmpty(u);
      assert Split(t, '\n') == [[]] + Split(u, '\n');
    } else {
      assert t[|t| - 1] == s[|s| - 1];
      forall i | 0 <= i < |t| - 1 ensures !(t[i] == '\n' && t[i + 1] == '\n') {
        assert t[i] == s[i + 1] && t[i + 1] == s[i + 2];
      }
      SplitPiecesNonEmpty(t);
    }
  }

  /** For a text without blank lines, the non-empty lines are all its lines, and joining them restores it. */
  lemma NonEmptyLinesRoundTrip(s: string)
    requires NoBlankLine(s)
    ensures NonEmptyLines(s) == Split(s, '\n')
    ensures Join(NonEmptyLines(s), "\n") == s
  {
    SplitPiecesNonEmpty(s);
    FilterKeepsAll(IsNonEmpty, Split(s, '\n'));
  }

  /** A single line (no line break) that is not empty is its own only non-empty line. */
  lemma NonEmptyLinesSingle(s: string)
    requires s != [] && '\n' !in s
    ensures NonEmptyLines(s) == [s]
  {
    SplitNoSeparator(s, '\n');
  }

  /** An empty text has no non-empty lines. */
  lemma NonEmptyLinesOfEmpty()
    ensures NonEmptyLines("") == []
  {
    assert Split("", '\n') == [[]];
  }

  /** The last character of a join is that of its last piece, when that piece is not empty. */
  lemma {:induction false} JoinLastChar(ls: seq<string>, sep: string)
    requires |ls| > 0 && ls[|ls| - 1] != []
    ensures var j := Join(ls, sep); j != [] && j[|j| - 1] == ls[|ls| - 1][|ls[|ls| - 1]| - 1]
  {
    if |ls| > 1 {
      JoinLastChar(ls[1..], sep);
    }
  }

  /** Leading whitespace removed. */
  function DropWhitespace(s: string): (r: string)
    ensures |r| <= |s| && r == s[|s| - |r|..]
    ensures r == [] || !IsWhitespace(r[0])
    ensures forall i :: 0 <= i < |s| - |r| ==> IsWhitespace(s[i])
  {
    if s == [] || !IsWhitespace(s[0]) then s else DropWhitespace(s[1..])
  }

  /** `s.replace(/\s+/g, "-")`: every maximal run of whitespace becomes one hyphen. */
  function ReplaceWhitespaceRuns(s: string): (r: string)
    ensures NoWhitespace(r)
    ensures |r| <= |s|
    ensures |r| == 0 <==> |s| == 0
    ensures NoWhitespace(s) ==> r == s
    decreases |s|
  {
    if s == [] then []
    else if IsWhitespace(s[0]) then "-" + ReplaceWhitespaceRuns(DropWhitespace(s))
    else [s[0]] + ReplaceWhitespaceRuns(s[1..])
  }

  lemma {:induction false} DropWhitespaceAppend(a: string, t: string)
    requires a != [] && !IsWhitespace(a[|a| - 1])
    ensures DropWhitespace(a + t) == DropWhitespace(a) + t
  {
    if IsWhitespace(a[0]) {
      var rest := a[1..];
      assert |a| > 1;
      assert rest[|rest| - 1] == a[|a| - 1];
      assert (a + t)[1..] == rest + t;
      DropWhitespaceAppend(rest, t);
      assert DropWhitespace(a + t) == DropWhitespace(rest + t);
      assert DropWhitespace(a) == DropWhitespace(rest);
    } else {
      assert (a + t)[0] == a[0];
    }
  }

  /**
   * The defining property of the global regular-expression replacement: with `a` ending in a
   * non-whitespace character (or empty), `w` a non-empty whitespace run and `b` starting with a
   * non-whitespace character (or empty), the run in the middle turns into exactly one hyphen
   * and the two sides are rewritten independently.
   */
  lemma {:induction false} ReplaceRun(a: string, w: string, b: string)
    requires a == [] || !IsWhitespace(a[|a| - 1])
    requires w != [] && forall i :: 0 <= i < |w| ==> IsWhitespace(w[i])
    requires b == [] || !IsWhitespace(b[0])
    ensures ReplaceWhitespaceRuns(a + w + b) == ReplaceWhitespaceRuns(a) + "-" + ReplaceWhitespaceRuns(b)
    decreases |a|, 1
  {
    if a == [] {
      var wb := w + b;
      assert a + w + b == wb;
      assert ReplaceWhitespaceRuns(wb) == "-" + ReplaceWhitespaceRuns(b) by {
        assert wb[0] == w[0];
        ReplaceLeadingRun(wb);
        DropAllWhitespace(w, b);
      }
    } else if IsWhitespace(a[0]) {
      ReplaceRunLeadingWhitespace(a, w, b);
    } else {
      ReplaceRunLeadingText(a, w, b);
    }
  }

  lemma {:induction false} ReplaceRunLeadingWhitespace(a: string, w: string, b: string)
    requires a != [] && IsWhitespace(a[0]) && !IsWhitespace(a[|a| - 1])
    requires w != [] && forall i :: 0 <= i < |w| ==> IsWhitespace(w[i])
    requires b == [] || !IsWhitespace(b[0])
    ensures ReplaceWhitespaceRuns(a + w + b) == ReplaceWhitespaceRuns(a) + "-" + ReplaceWhitespaceRuns(b)
    decreases |a|, 0
  {
    var wb := w + b;
    var s := a + wb;
    var d := DropWhitespace(a);
    AppendAssociative(a, w, b);
    assert ReplaceWhitespaceRuns(s) == "-" + ReplaceWhitespaceRuns(d + wb) by {
      ReplaceLeadingRun(s);
      DropWhitespaceAppend(a, wb);
    }
    assert ReplaceWhitespaceRuns(a) == "-" + ReplaceWhitespaceRuns(d) by {
      ReplaceLeadingRun(a);
    }
    assert ReplaceWhitespaceRuns(d + wb) == ReplaceWhitespaceRuns(d) + "-" + ReplaceWhitespaceRuns(b) by {
      DropWhitespaceKeepsLast(a);
      AppendAssociative(d, w, b);
      ReplaceRun(d, w, b);
    }
    Associate("-", ReplaceWhitespaceRuns(d), ReplaceWhitespaceRuns(b));
  }

  lemma AppendAssociative(x: string, y: string, z: string)
    ensures x + (y + z) == x + y + z
  {
  }

  /** A leading whitespace run becomes one hyphen. */
  lemma ReplaceLeadingRun(s: string)
    requires s != [] && IsWhitespace(s[0])
    ensures ReplaceWhitespaceRuns(s) == "-" + ReplaceWhitespaceRuns(DropWhitespace(s))
  {
  }

  /** Dropping leading whitespace keeps a final non-whitespace character. */
  lemma DropWhitespaceKeepsLast(a: string)
    requires a != [] && !IsWhitespace(a[|a| - 1])
    ensures var d := DropWhitespace(a); d != [] && d[|d| - 1] == a[|a| - 1]
    ensures IsWhitespace(a[0]) ==> |DropWhitespace(a)| < |a|
  {
  }

  lemma {:induction false} ReplaceRunLeadingText(a: string, w: string, b: string)
    requires a != [] && !IsWhitespace(a[0]) && !IsWhitespace(a[|a| - 1])
    requires w != [] && forall i :: 0 <= i < |w| ==> IsWhitespace(w[i])
    requires b == [] || !IsWhitespace(b[0])
    ensures ReplaceWhitespaceRuns(a + w + b) == ReplaceWhitespaceRuns(a) + "-" + ReplaceWhitespaceRuns(b)
    decreases |a|, 0
  {
    var s := a + w + b;
    assert s[1..] == a[1..] + w + b;
    ReplaceRun(a[1..], w, b);
    assert ReplaceWhitespaceRuns(s) == [a[0]] + ReplaceWhitespaceRuns(a[1..] + w + b);
    assert ReplaceWhitespaceRuns(a) == [a[0]] + ReplaceWhitespaceRuns(a[1..]);
    Associate([a[0]], ReplaceWhitespaceRuns(a[1..]), ReplaceWhitespaceRuns(b));
  }

  lemma Associate(x: string, y: string, z: string)
    ensures x + (y + "-" + z) == (x + y) + "-" + z
  {
  }

  lemma {:induction false} DropAllWhitespace(w: string, b: string)
    requires forall i :: 0 <= i < |w| ==> IsWhitespace(w[i])
    requires b == [] || !IsWhitespace(b[0])
    ensures DropWhitespace(w + b) == b
  {
    if w != [] {
      assert (w + b)[1..] == w[1..] + b;
      DropAllWhitespace(w[1..], b);
    }
  }

  /** ASCII case mapping; other characters are left alone. */
  function LowerChar(c: char): char {
    if 'A' <= c <= 'Z' then (c as int + 32) as char else c
  }

  predicate IsUpperAscii(c: char) {
    'A' <= c <= 'Z'
  }

  /** `s.toLowerCase()`, restricted to ASCII letters. */
  function ToLower(s: string): (r: string)
    ensures |r| == |s|
    ensures forall i :: 0 <= i < |s| ==> r[i] == LowerChar(s[i])
    ensures forall i :: 0 <= i < |r| ==> !IsUpperAscii(r[i])
  {
    seq(|s|, i requires 0 <= i < |s| => LowerChar(s[i]))
  }

  lemma ToLowerAppend(a: string, b: string)
    ensures ToLower(a + b) == ToLower(a) + ToLower(b)
  {
  }

  /** Text without upper-case ASCII letters is already lower-case. */
  lemma ToLowerUnchanged(s: string)
    requires forall i :: 0 <= i < |s| ==> !IsUpperAscii(s[i])
    ensures ToLower(s) == s
  {
  }

  /** `n` copies of `c`. */
  function Repeat(c: char, n: nat): (r: string)
    ensures |r| == n && forall i :: 0 <= i < n ==> r[i] == c
  {
    seq(n, i => c)
  }

  /** ASSUMED `getHeadingLevel`: the number of leading `#` characters. */
  function GetHeadingLevel(heading: string): (n: nat)
    ensures n <= |heading|
    ensures forall i :: 0 <= i < n ==> heading[i] == '#'
    ensures n == |heading| || heading[n] != '#'
  {
    if heading == [] || heading[0] != '#' then 0 else 1 + GetHeadingLevel(heading[1..])
  }

  /** ASSUMED `toHeading(text, level)`: `level` hash marks, a space, then the text. */
  function ToHeading(text: string, level: nat): (h: string)
    ensures |h| == level + 1 + |text|
    ensures forall i :: 0 <= i < level ==> h[i] == '#'
    ensures h[level] == ' ' && h[level + 1..] == text
  {
    Repeat('#', level) + " " + text
  }

  /** ASSUMED `getTab(useTab, tabSize)`: one tab character, or `tabSize` spaces. */
  function GetTab(useTab: bool, tabSize: nat): (tab: string)
    ensures useTab ==> tab == "\t"
    ensures !useTab ==> |tab| == tabSize && forall i :: 0 <= i < tabSize ==> tab[i] == ' '
  {
    if useTab then "\t" else Repeat(' ', tabSize)
  }

  /** A heading made by ToHeading has exactly the level it was made with, whatever its text. */
  lemma {:induction false} HeadingLevelOfToHeading(text: string, level: nat)
    ensures GetHeadingLevel(ToHeading(text, level)) == level
  {
    var h := ToHeading(text, level);
    assert h[level] == ' ';
  }
}
