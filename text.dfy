/**
 * The few pieces of Go's `strings` package and of its regular-expression
 * character classes that the bot relies on. Strings are sequences of
 * characters: a Go string holding valid UTF-8 is searched and sliced the
 * same way at the rune level.
 */
module Text {

  /** `\s` in Go's regular expressions (RE2 Perl class): `[\t\n\f\r ]`. */
  predicate IsRegexSpace(c: char) {
    c == '\t' || c == '\n' || c == '\U{000C}' || c == '\r' || c == ' '
  }

  /**
   * `\w` in a Go regular expression under `(?i)`: ASCII `[0-9A-Za-z_]`,
   * and the two characters that case-fold into it, U+017F (long s, folds
   * to `s`) and U+212A (Kelvin sign, folds to `k`).
   */
  predicate IsWordChar(c: char) {
    ('0' <= c <= '9') || ('A' <= c <= 'Z') || ('a' <= c <= 'z') || c == '_'
    || c == '\U{017F}' || c == '\U{212A}'
  }

  /** `unicode.IsSpace`, the test `strings.TrimSpace` applies. */
  predicate IsSpace(c: char) {
    c == '\t' || c == '\n' || c == '\U{000B}' || c == '\U{000C}' || c == '\r' || c == ' '
    || c == '\U{0085}' || c == '\U{00A0}' || c == '\U{1680}'
    || ('\U{2000}' <= c <= '\U{200A}')
    || c == '\U{2028}' || c == '\U{2029}' || c == '\U{202F}' || c == '\U{205F}' || c == '\U{3000}'
  }

  lemma RegexSpaceIsSpace(c: char)
    requires IsRegexSpace(c)
    ensures IsSpace(c)
  {
  }

  predicate AllSpace(s: string) {
    forall i :: 0 <= i < |s| ==> IsSpace(s[i])
  }

  /** `pat` occurs in `s` starting at index `i`. */
  predicate OccursAt(s: string, pat: string, i: int) {
    0 <= i && i + |pat| <= |s| && s[i..i + |pat|] == pat
  }

  predicate Contains(s: string, pat: string) {
    exists i :: 0 <= i <= |s| && OccursAt(s, pat, i)
  }

  /** The first index at or after `from` where `pat` occurs, or -1. */
  function IndexFrom(s: string, pat: string, from: nat): (r: int)
    requires from <= |s|
    ensures r == -1 || (from <= r && OccursAt(s, pat, r))
    ensures r == -1 ==> forall j :: from <= j ==> !OccursAt(s, pat, j)
    ensures r != -1 ==> forall j :: from <= j < r ==> !OccursAt(s, pat, j)
    decreases |s| - from
  {
    if OccursAt(s, pat, from) then from
    else if from + |pat| >= |s| then -1
    else IndexFrom(s, pat, from + 1)
  }

  /** `strings.Index`: the index of the first occurrence of `pat`, or -1. */
  function Index(s: string, pat: string): (r: int)
    ensures r == -1 <==> !Contains(s, pat)
    ensures r != -1 ==> OccursAt(s, pat, r) && forall j :: 0 <= j < r ==> !OccursAt(s, pat, j)
  {
    IndexFrom(s, pat, 0)
  }

  /** `strings.IndexByte`: the index of the first `c` in `s`, or -1. */
  function IndexByte(s: string, c: char): (r: int)
    ensures r == -1 <==> c !in s
    ensures r != -1 ==> 0 <= r < |s| && s[r] == c && c !in s[..r]
  {
    if s == [] then -1
    else if s[0] == c then 0
    else
      var k := IndexByte(s[1..], c);
      assert s[1..][..if k == -1 then 0 else k] == s[1..1 + if k == -1 then 0 else k];
      if k == -1 then -1 else k + 1
  }

  /** The number of line feeds in `s`. */
  function CountNewlines(s: string): nat {
    if s == [] then 0 else (if s[0] == '\n' then 1 else 0) + CountNewlines(s[1..])
  }

  /** Pieces joined back with `\n` between them. */
  function JoinNewline(pieces: seq<string>): string {
    if pieces == [] then []
    else if |pieces| == 1 then pieces[0]
    else pieces[0] + "\n" + JoinNewline(pieces[1..])
  }

  /**
   * `strings.SplitN(s, "\n", n)` for `n >= 1`: at most `n` pieces, the last
   * one holding the unsplit remainder.
   */
  function SplitN(s: string, n: nat): (r: seq<string>)
    requires n >= 1
    ensures 1 <= |r| <= n
    ensures JoinNewline(r) == s
    ensures forall i :: 0 <= i < |r| - 1 ==> '\n' !in r[i]
    ensures |r| < n ==> '\n' !in r[|r| - 1]
    decreases n
  {
    var k := IndexByte(s, '\n');
    if n == 1 || k == -1 then [s]
    else
      var rest := SplitN(s[k + 1..], n - 1);
      var r := [s[..k]] + rest;
      assert r[0] == s[..k] && r[1..] == rest;
      assert JoinNewline(r) == s[..k] + "\n" + JoinNewline(rest);
      assert s == s[..k] + "\n" + s[k + 1..];
      r
  }

  lemma AllSpaceSlice(a: string, i: nat, j: nat)
    requires AllSpace(a) && i <= j <= |a|
    ensures AllSpace(a[i..j])
  {
    forall k | 0 <= k < j - i ensures IsSpace(a[i..j][k]) {
      assert a[i..j][k] == a[i + k];
    }
  }

  lemma AllSpaceCons(c: char, a: string)
    requires IsSpace(c) && AllSpace(a)
    ensures AllSpace([c] + a)
  {
    forall k | 0 <= k < |[c] + a| ensures IsSpace(([c] + a)[k]) {
      if k > 0 { assert ([c] + a)[k] == a[k - 1]; }
    }
  }

  lemma AllSpaceSnoc(a: string, c: char)
    requires AllSpace(a) && IsSpace(c)
    ensures AllSpace(a + [c])
  {
    forall k | 0 <= k < |a + [c]| ensures IsSpace((a + [c])[k]) {
      if k < |a| { assert (a + [c])[k] == a[k]; }
    }
  }

  /** The number of space characters `s` begins with. */
  function LeadingSpaces(s: string): (n: nat)
    ensures n <= |s| && AllSpace(s[..n])
    ensures n == |s| || !IsSpace(s[n])
  {
    if s != [] && IsSpace(s[0]) then
      var m := LeadingSpaces(s[1..]);
      assert s[..m + 1] == [s[0]] + s[1..][..m];
      AllSpaceCons(s[0], s[1..][..m]);
      assert m + 1 == |s| || s[m + 1] == s[1..][m];
      m + 1
    else 0
  }

  /** The number of space characters `s` ends with. */
  function TrailingSpaces(s: string): (n: nat)
    ensures n <= |s| && AllSpace(s[|s| - n..])
    ensures n == |s| || !IsSpace(s[|s| - n - 1])
  {
    if s != [] && IsSpace(s[|s| - 1]) then
      var t := s[..|s| - 1];
      var m := TrailingSpaces(t);
      assert s[|s| - (m + 1)..] == t[|t| - m..] + [s[|s| - 1]];
      AllSpaceSnoc(t[|t| - m..], s[|s| - 1]);
      assert m == |t| || t[|t| - m - 1] == s[|s| - (m + 1) - 1];
      m + 1
    else 0
  }

  /** `strings.TrimSpace`: `s` without its leading and trailing spaces. */
  function TrimSpace(s: string): (r: string)
    ensures |r| <= |s|
    ensures r == [] <==> AllSpace(s)
    ensures r != [] ==> !IsSpace(r[0]) && !IsSpace(r[|r| - 1])
  {
    var i := LeadingSpaces(s);
    if i == |s| then []
    else
      var j := |s| - TrailingSpaces(s);
      assert !AllSpace(s) by { assert !IsSpace(s[i]); }
      s[i..j]
  }

  /**
   * The result of `TrimSpace` is determined by where the spaces end and
   * begin again: whatever `s[i..j]` has only spaces on either side and
   * starts and ends with a non-space is the trimmed text.
   */
  lemma {:induction false} TrimSpaceIs(s: string, i: nat, j: nat)
    requires i <= j <= |s|
    requires AllSpace(s[..i]) && AllSpace(s[j..])
    requires i == j || (!IsSpace(s[i]) && !IsSpace(s[j - 1]))
    ensures TrimSpace(s) == s[i..j]
  {
    var l := LeadingSpaces(s);
    var t := TrailingSpaces(s);
    if i == j {
      assert AllSpace(s) by {
        forall k | 0 <= k < |s| ensures IsSpace(s[k]) {
          if k < i { assert s[..i][k] == s[k]; } else { assert s[j..][k - j] == s[k]; }
        }
      }
    } else {
      assert l == i;
      assert |s| - t == j;
    }
  }

  /** Text that already starts and ends with a non-space is left alone. */
  lemma TrimmedUnchanged(s: string)
    requires s == [] || (!IsSpace(s[0]) && !IsSpace(s[|s| - 1]))
    ensures TrimSpace(s) == s
  {
    TrimSpaceIs(s, 0, |s|);
  }

  /** A trailing line feed after trimmed text is all `TrimSpace` removes. */
  lemma TrimFinalNewline(s: string)
    requires s != [] && !IsSpace(s[0]) && !IsSpace(s[|s| - 1])
    ensures TrimSpace(s + "\n") == s
  {
    var t := s + "\n";
    assert t[..|s|] == s && t[|s|..] == "\n";
    TrimSpaceIs(t, 0, |s|);
  }

  /** A leading space changes nothing once the text is trimmed. */
  lemma TrimSkipsLeadingSpace(x: string)
    requires x != [] && IsSpace(x[0])
    ensures TrimSpace(x[1..]) == TrimSpace(x)
  {
    assert x == [x[0]] + x[1..];
    TrimSpaceCons(x[0], x[1..]);
  }

  lemma TrimSpaceCons(c: char, y: string)
    requires IsSpace(c)
    ensures TrimSpace([c] + y) == TrimSpace(y)
  {
    var l := LeadingSpaces(y);
    if l == |y| {
      assert y[..l] == y;
      AllSpaceCons(c, y);
    } else {
      var j := |y| - TrailingSpaces(y);
      TrimSpaceConsAt(c, y, l, j);
    }
  }

  lemma TrimSpaceConsAt(c: char, y: string, l: nat, j: nat)
    requires IsSpace(c) && l < j <= |y|
    requires AllSpace(y[..l]) && AllSpace(y[j..]) && !IsSpace(y[l]) && !IsSpace(y[j - 1])
    ensures TrimSpace([c] + y) == y[l..j]
  {
    var x := [c] + y;
    assert x[..l + 1] == [c] + y[..l];
    AllSpaceCons(c, y[..l]);
    assert x[j + 1..] == y[j..];
    assert x[l + 1] == y[l] && x[j] == y[j - 1];
    TrimSpaceIs(x, l + 1, j + 1);
    SliceCons(c, y, l, j);
  }

  lemma SliceCons(c: char, y: string, l: nat, j: nat)
    requires l <= j <= |y|
    ensures ([c] + y)[l + 1..j + 1] == y[l..j]
  {
  }

  /** Trimming twice is trimming once. */
  lemma TrimIdempotent(s: string)
    ensures TrimSpace(TrimSpace(s)) == TrimSpace(s)
  {
    TrimmedUnchanged(TrimSpace(s));
  }

  /**
   * Joining pieces with line feeds and splitting the result into as many
   * pieces gives them back, as long as no piece but the last holds a line
   * feed.
   */
  lemma {:induction false} SplitNJoin(pieces: seq<string>)
    requires |pieces| >= 1
    requires forall i :: 0 <= i < |pieces| - 1 ==> '\n' !in pieces[i]
    ensures SplitN(JoinNewline(pieces), |pieces|) == pieces
    decreases |pieces|
  {
    if |pieces| > 1 {
      var p, rest := pieces[0], pieces[1..];
      var tail := JoinNewline(rest);
      assert JoinNewline(pieces) == p + ("\n" + tail);
      FirstLineSplit(p, tail, |pieces|);
      SplitNJoin(rest);
      assert pieces == [p] + rest;
    }
  }

  /** Splitting off a first line that has no line feed. */
  lemma FirstLineSplit(x: string, y: string, n: nat)
    requires '\n' !in x && n >= 2
    ensures SplitN(x + ("\n" + y), n) == [x] + SplitN(y, n - 1)
  {
    var s := x + ("\n" + y);
    assert s[|x|] == '\n' && s[..|x|] == x && s[|x| + 1..] == y;
    assert IndexByte(s, '\n') == |x|;
  }

  /** Each piece followed by a line feed, as successive `fmt.Sprintln` writes lay them out. */
  function Lines(pieces: seq<string>): string
    decreases |pieces|
  {
    if pieces == [] then [] else Lines(pieces[..|pieces| - 1]) + pieces[|pieces| - 1] + "\n"
  }

  /** One more piece at the end of a join. */
  lemma {:induction false} JoinNewlineSnoc(pieces: seq<string>, x: string)
    requires pieces != []
    ensures JoinNewline(pieces + [x]) == JoinNewline(pieces) + "\n" + x
    decreases |pieces|
  {
    if |pieces| == 1 {
      assert (pieces + [x])[1..] == [x];
    } else {
      assert (pieces + [x])[1..] == pieces[1..] + [x];
      JoinNewlineSnoc(pieces[1..], x);
    }
  }

  /** Lines written one after the other are the lines joined, plus a final line feed. */
  lemma {:induction false} LinesJoin(pieces: seq<string>)
    requires pieces != []
    ensures Lines(pieces) == JoinNewline(pieces) + "\n"
    decreases |pieces|
  {
    var init, last := pieces[..|pieces| - 1], pieces[|pieces| - 1];
    if init != [] {
      LinesJoin(init);
      JoinNewlineSnoc(init, last);
      assert pieces == init + [last];
    }
  }

  /** Lines that open and close on a non-space lose only their final line feed to trimming. */
  lemma TrimLines(pieces: seq<string>)
    requires pieces != [] && pieces[0] != [] && !IsSpace(pieces[0][0])
    requires var last := pieces[|pieces| - 1]; last != [] && !IsSpace(last[|last| - 1])
    ensures TrimSpace(Lines(pieces)) == JoinNewline(pieces)
  {
    JoinNewlineEnds(pieces);
    LinesJoin(pieces);
    TrimFinalNewline(JoinNewline(pieces));
  }

  /** The first and last characters of a join are those of its first and last pieces. */
  lemma JoinNewlineEnds(pieces: seq<string>)
    requires pieces != [] && pieces[0] != [] && pieces[|pieces| - 1] != []
    ensures var j := JoinNewline(pieces);
      j != [] && j[0] == pieces[0][0] && j[|j| - 1] == pieces[|pieces| - 1][|pieces[|pieces| - 1]| - 1]
  {
    if |pieces| > 1 {
      var init, last := pieces[..|pieces| - 1], pieces[|pieces| - 1];
      JoinNewlineSnoc(init, last);
      assert pieces == init + [last];
      assert JoinNewline(pieces) == pieces[0] + "\n" + JoinNewline(pieces[1..]);
    }
  }

  lemma OccursAfter(a: string, b: string, pat: string, q: int)
    requires OccursAt(b, pat, q)
    ensures OccursAt(a + b, pat, |a| + q)
  {
    assert (a + b)[|a| + q..|a| + q + |pat|] == b[q..q + |pat|];
  }

  /** Every piece of a join occurs in it. */
  lemma {:induction false} JoinNewlineContains(pieces: seq<string>, i: nat)
    requires i < |pieces|
    ensures Contains(JoinNewline(pieces), pieces[i])
    decreases |pieces|
  {
    var j := JoinNewline(pieces);
    if i == 0 {
      if |pieces| > 1 {
        assert j == pieces[0] + ("\n" + JoinNewline(pieces[1..]));
      }
      assert OccursAt(j, pieces[0], 0);
    } else {
      JoinNewlineContains(pieces[1..], i - 1);
      var q :| OccursAt(JoinNewline(pieces[1..]), pieces[i], q);
      OccursAfter(pieces[0] + "\n", JoinNewline(pieces[1..]), pieces[i], q);
    }
  }
}
