/**
 * The delimiter-framed exec protocol of tmux.go: a command typed into a
 * tmux session is fenced by two markers derived from a hash, and its output
 * is cut out of the captured pane text between them. The hash is an input
 * (its random generation is not modelled).
 */
module Tmux {
  import opened Wrappers
  import opened Text

  /** The name of the tmux server every invocation addresses (`-L`). */
  const ServerName: string := "minecraft"

  /** Why `parseOutput` produces no output. */
  datatype ParseError =
    | NoStartDelimiter   // "Unable to find start delimiter in tmux output"
    | NoEndDelimiter     // "Unable to find end delimiter in tmux output"
    | NegativeLength     // the end marker starts before the begin marker ends: `make` panics
    | TooFewLines        // fewer than three line feeds between the markers: `[3]` panics

  datatype Delimiters = Delimiters(begin: string, end: string)

  /** `getDelimiters`: the begin and end markers built from `hash`. */
  function GetDelimiters(hash: string): (d: Delimiters)
    ensures d.begin != d.end
    ensures |d.begin| == |hash| + 8 && |d.end| == |hash| + 9
  {
    var d := Delimiters("### " + hash + " ###", "###/ " + hash + " ###");
    assert d.begin[3] != d.end[3];
    d
  }

  /** The markers determine the hash they were built from. */
  lemma DelimitersDetermineHash(h1: string, h2: string)
    requires GetDelimiters(h1) == GetDelimiters(h2)
    ensures h1 == h2
  {
    var b1, b2 := GetDelimiters(h1).begin, GetDelimiters(h2).begin;
    assert |h1| == |h2|;
    assert h1 == b1[4..4 + |h1|];
    assert h2 == b2[4..4 + |h2|];
  }

  /**
   * The payloads of the `send-keys` vectors, in order: the lines typed into
   * the session.
   */
  function TypedLines(cmds: seq<seq<string>>): seq<string> {
    if cmds == [] then []
    else
      var c := cmds[0];
      (if |c| >= 4 && c[2] == "send-keys" then [c[3]] else []) + TypedLines(cmds[1..])
  }

  /** `commandsForOperation`: the five tmux argument vectors of one operation. */
  function CommandsForOperation(hash: string, keys: string): (cmds: seq<seq<string>>)
    ensures |cmds| == 5
    ensures |cmds[0]| == |cmds[1]| == |cmds[2]| == 5 && |cmds[3]| == |cmds[4]| == 3
    ensures forall i :: 0 <= i < 5 ==> |cmds[i]| >= 3 && cmds[i][..2] == ["-L", ServerName]
    ensures [cmds[0][2], cmds[1][2], cmds[2][2], cmds[3][2], cmds[4][2]]
         == ["send-keys", "send-keys", "send-keys", "capture-pane", "show-buffer"]
    ensures TypedLines(cmds) == [GetDelimiters(hash).begin, keys, GetDelimiters(hash).end]
    ensures forall i :: 0 <= i < 3 ==> cmds[i][|cmds[i]| - 1] == "Enter"
  {
    var d := GetDelimiters(hash);
    var cmds := [
      ["-L", ServerName, "send-keys", d.begin, "Enter"],
      ["-L", ServerName, "send-keys", keys, "Enter"],
      ["-L", ServerName, "send-keys", d.end, "Enter"],
      ["-L", ServerName, "capture-pane"],
      ["-L", ServerName, "show-buffer"]
    ];
    assert TypedLines(cmds[4..]) == [] by { assert cmds[4..][1..] == []; }
    assert TypedLines(cmds[3..]) == [] by { assert cmds[3..][1..] == cmds[4..]; }
    assert TypedLines(cmds[2..]) == [d.end] by { assert cmds[2..][1..] == cmds[3..]; }
    assert TypedLines(cmds[1..]) == [keys, d.end] by { assert cmds[1..][1..] == cmds[2..]; }
    cmds
  }

  /**
   * The bounds of the region strictly between the end of the first begin
   * marker and the start of the first end marker, or why there is none.
   */
  function Region(str: string, hash: string): (r: Result<(nat, nat), ParseError>)
    ensures r.Success? ==> r.value.0 <= r.value.1 <= |str|
  {
    var d := GetDelimiters(hash);
    var b := Index(str, d.begin);
    if b == -1 then Failure(NoStartDelimiter)
    else
      var end := Index(str, d.end);
      if end == -1 then Failure(NoEndDelimiter)
      else if end < b + |d.begin| then Failure(NegativeLength)
      else Success((b + |d.begin|, end))
  }

  /** What follows the third line feed of `region`, if it has three. */
  function AfterThirdLine(region: string): Result<string, ParseError> {
    var pieces := SplitN(region, 4);
    if |pieces| < 4 then Failure(TooFewLines) else Success(pieces[3])
  }

  /**
   * What `parseOutput(str, hash)` returns: the text after the third line
   * feed of the region between the first begin marker and the first end
   * marker.
   */
  function Parse(str: string, hash: string): Result<string, ParseError> {
    match Region(str, hash)
    case Failure(e) => Failure(e)
    case Success((start, end)) => AfterThirdLine(str[start..end])
  }

  /**
   * `strings.Reader.Read` after `Seek(offset)`: copies as many characters
   * as fit in `b` from `offset` on and says how many it copied.
   */
  method Read(str: string, offset: nat, b: array<char>) returns (n: nat)
    modifies b
    ensures n == if offset < |str| then (if b.Length < |str| - offset then b.Length else |str| - offset) else 0
    ensures offset < |str| ==> b[..n] == str[offset..offset + n]
    ensures b[n..] == old(b[n..])
  {
    n := if offset < |str| then (if b.Length < |str| - offset then b.Length else |str| - offset) else 0;
    if n == 0 {
      return;
    }
    var i := 0;
    while i < n
      invariant 0 <= i <= n && offset + n <= |str|
      invariant b[..i] == str[offset..offset + i]
      invariant b[n..] == old(b[n..])
    {
      b[i] := str[offset + i];
      i := i + 1;
    }
  }

  /**
   * `parseOutput`: locates the markers, copies the bytes between them into
   * a fresh buffer through a reader positioned after the begin marker, and
   * keeps what follows the third line feed.
   */
  method ParseOutput(str: string, hash: string) returns (r: Result<string, ParseError>)
    ensures r == Parse(str, hash)
  {
    var d := GetDelimiters(hash);
    var start := Index(str, d.begin);
    if start == -1 {
      return Failure(NoStartDelimiter);
    }
    start := start + |d.begin|;
    var end := Index(str, d.end);
    if end == -1 {
      return Failure(NoEndDelimiter);
    }
    var length := end - start;
    if length < 0 {
      return Failure(NegativeLength);
    }
    var b := new char[length];
    var n := Read(str, start, b);
    assert Region(str, hash) == Success((start, end));
    assert b[..n] == str[start..end];
    var pieces := SplitN(b[..n], 4);
    if |pieces| < 4 {
      return Failure(TooFewLines);
    }
    return Success(pieces[3]);
  }

  // ---------------------------------------------------------------------
  // Properties of Parse

  /** The number of pieces `SplitN` yields follows the number of line feeds. */
  lemma {:induction false} SplitNCount(s: string, n: nat)
    requires n >= 1
    ensures |SplitN(s, n)| == if CountNewlines(s) + 1 < n then CountNewlines(s) + 1 else n
    decreases n
  {
    var k := IndexByte(s, '\n');
    if k == -1 {
      NoNewlineCount(s);
    } else if n > 1 {
      SplitNCount(s[k + 1..], n - 1);
      CountNewlinesSplit(s, k);
    }
  }

  lemma {:induction false} NoNewlineCount(s: string)
    requires '\n' !in s
    ensures CountNewlines(s) == 0
  {
    if s != [] {
      assert s[1..] == s[1..] && forall c :: c in s[1..] ==> c in s;
      NoNewlineCount(s[1..]);
    }
  }

  lemma {:induction false} CountNewlinesSplit(s: string, k: nat)
    requires k < |s| && s[k] == '\n' && '\n' !in s[..k]
    ensures CountNewlines(s) == 1 + CountNewlines(s[k + 1..])
  {
    if k > 0 {
      assert s[1..][..k - 1] == s[1..k];
      assert forall c :: c in s[1..k] ==> c in s[..k];
      CountNewlinesSplit(s[1..], k - 1);
      assert s[1..][k..] == s[k + 1..];
    }
  }

  /** A missing begin marker is reported first, whatever else the text holds. */
  lemma ParseNoStart(str: string, hash: string)
    ensures Parse(str, hash) == Failure(NoStartDelimiter) <==> !Contains(str, GetDelimiters(hash).begin)
  {
  }

  /** With the begin marker present, a missing end marker is the error. */
  lemma ParseNoEnd(str: string, hash: string)
    ensures Parse(str, hash) == Failure(NoEndDelimiter)
        <==> Contains(str, GetDelimiters(hash).begin) && !Contains(str, GetDelimiters(hash).end)
  {
  }

  /** Without an end marker nothing is ever extracted. */
  lemma ParseNeedsEnd(str: string, hash: string)
    requires !Contains(str, GetDelimiters(hash).end)
    ensures Parse(str, hash).Failure?
  {
  }

  /**
   * The first panic of the source: the first end marker starts before the
   * first begin marker is over, so the buffer length is negative.
   */
  lemma ParseNegativeLength(str: string, hash: string)
    ensures Parse(str, hash) == Failure(NegativeLength)
        <==> var d := GetDelimiters(hash);
             Contains(str, d.begin) && Contains(str, d.end)
             && Index(str, d.end) < Index(str, d.begin) + |d.begin|
  {
  }

  /**
   * The second panic of the source: fewer than three line feeds between
   * the markers leave no fourth piece to index.
   */
  lemma ParseTooFewLines(str: string, hash: string)
    requires Region(str, hash).Success?
    ensures var (start, end) := Region(str, hash).value;
            Parse(str, hash) == Failure(TooFewLines) <==> CountNewlines(str[start..end]) < 3
  {
    var (start, end) := Region(str, hash).value;
    SplitNCount(str[start..end], 4);
  }

  /**
   * A successful result is a piece of the captured text that lies wholly
   * before the first end marker, so it never holds the end marker itself.
   */
  lemma ParseResultInside(str: string, hash: string)
    requires Parse(str, hash).Success?
    ensures var s := Parse(str, hash).value;
            Contains(str, s) && !Contains(s, GetDelimiters(hash).end)
  {
    var lo, hi := ParseIsSlice(str, hash);
    SliceBeforeFirst(str, GetDelimiters(hash).end, lo, hi, Parse(str, hash).value);
  }

  /** A successful result is a slice of the text that ends where the end marker first occurs. */
  lemma ParseIsSlice(str: string, hash: string) returns (lo: nat, hi: nat)
    requires Parse(str, hash).Success?
    ensures lo <= hi <= |str| && Parse(str, hash).value == str[lo..hi]
    ensures |GetDelimiters(hash).end| > 0
    ensures hi == Index(str, GetDelimiters(hash).end)
  {
    var start, end := ParseRegion(str, hash);
    var k := AfterThirdLineIsSuffix(str[start..end]);
    SuffixOfSlice(str, start, end, k);
    assert Parse(str, hash).value == str[start + k..end];
    assert start + k <= end <= |str|;
    lo, hi := start + k, end;
  }

  /** A successful parse reads the region, which ends at the first end marker. */
  lemma ParseRegion(str: string, hash: string) returns (start: nat, end: nat)
    requires Parse(str, hash).Success?
    ensures start <= end <= |str| && Parse(str, hash) == AfterThirdLine(str[start..end])
    ensures end == Index(str, GetDelimiters(hash).end)
  {
    ParseNeedsRegion(str, hash);
    RegionEndsAtMarker(str, hash);
    ParseReadsRegion(str, hash);
    start, end := Region(str, hash).value.0, Region(str, hash).value.1;
  }

  lemma ParseNeedsRegion(str: string, hash: string)
    requires Parse(str, hash).Success?
    ensures Region(str, hash).Success?
  {
  }

  /** The region ends where the end marker first occurs. */
  lemma RegionEndsAtMarker(str: string, hash: string)
    requires Region(str, hash).Success?
    ensures Region(str, hash).value.1 == Index(str, GetDelimiters(hash).end)
  {
  }

  lemma ParseReadsRegion(str: string, hash: string)
    requires Region(str, hash).Success?
    ensures Parse(str, hash) == AfterThirdLine(str[Region(str, hash).value.0..Region(str, hash).value.1])
  {
  }

  lemma SuffixOfSlice(str: string, start: nat, end: nat, k: nat)
    requires start <= end <= |str| && k <= end - start
    ensures str[start..end][k..] == str[start + k..end]
  {
  }

  /** The text after the third line feed is a suffix of the region. */
  lemma AfterThirdLineIsSuffix(region: string) returns (k: nat)
    requires AfterThirdLine(region).Success?
    ensures k <= |region| && region[k..] == AfterThirdLine(region).value
  {
    var pieces := SplitN(region, 4);
    SuffixOfJoin(pieces);
    k := |region| - |pieces[3]|;
  }

  /**
   * A slice that ends where `pat` first occurs lies in the text and does
   * not contain `pat`.
   */
  lemma SliceBeforeFirst(str: string, pat: string, lo: nat, hi: nat, s: string)
    requires lo <= hi <= |str| && |pat| > 0 && s == str[lo..hi]
    requires hi == Index(str, pat)
    ensures Contains(str, s) && !Contains(s, pat)
  {
    assert OccursAt(str, s, lo);
    if Contains(s, pat) {
      var j :| 0 <= j <= |s| && OccursAt(s, pat, j);
      OccursInSlice(str, lo, hi, pat, j);
    }
  }

  /** An occurrence inside a slice is an occurrence in the whole text. */
  lemma OccursInSlice(str: string, lo: nat, hi: nat, pat: string, j: nat)
    requires lo <= hi <= |str| && OccursAt(str[lo..hi], pat, j)
    ensures OccursAt(str, pat, lo + j)
  {
    var t := str[lo..hi];
    forall k | j <= k < j + |pat| ensures t[k] == str[lo + k] { }
    assert t[j..j + |pat|] == str[lo + j..lo + j + |pat|];
  }

  /** The last of four pieces ends the joined text. */
  lemma SuffixOfJoin(pieces: seq<string>)
    requires |pieces| == 4
    ensures var j := JoinNewline(pieces); |pieces[3]| <= |j| && j[|j| - |pieces[3]|..] == pieces[3]
  {
    var j3 := JoinNewline(pieces[3..]);
    assert j3 == pieces[3];
    var j2 := JoinNewline(pieces[2..]);
    assert pieces[2..][1..] == pieces[3..];
    assert j2 == pieces[2] + "\n" + j3;
    var j1 := JoinNewline(pieces[1..]);
    assert pieces[1..][1..] == pieces[2..];
    assert j1 == pieces[1] + "\n" + j2;
    assert JoinNewline(pieces) == pieces[0] + "\n" + j1;
  }

  // ---------------------------------------------------------------------
  // Round trip

  /**
   * The pane text of one operation: whatever came before, the begin
   * marker, two lines the session prints after it, the command's output,
   * the end marker, and whatever came after.
   */
  function Framed(pre: string, hash: string, a: string, b: string, out: string, post: string): string {
    var d := GetDelimiters(hash);
    pre + d.begin + Between(a, b, out) + d.end + post
  }

  /** What the session prints between the two markers. */
  function Between(a: string, b: string, out: string): string {
    "\n" + (a + ("\n" + (b + ("\n" + out))))
  }

  /** `pat` first occurs at `i`, so `Index` finds it there. */
  lemma IndexIsFirst(s: string, pat: string, i: nat)
    requires OccursAt(s, pat, i)
    requires forall j :: 0 <= j < i ==> !OccursAt(s, pat, j)
    ensures Index(s, pat) == i
  {
    assert Contains(s, pat);
  }

  /**
   * Round trip: when the begin marker first occurs where the frame puts it
   * and the end marker likewise, and the two lines the session prints in
   * between hold no line feed, the operation's output comes back intact,
   * line feeds and all.
   */
  lemma ParseRoundTrip(pre: string, hash: string, a: string, b: string, out: string, post: string)
    requires '\n' !in a && '\n' !in b
    requires forall j :: 0 <= j < |pre| ==> !OccursAt(Framed(pre, hash, a, b, out, post), GetDelimiters(hash).begin, j)
    requires forall j :: 0 <= j < |pre| + |hash| + 8 + |Between(a, b, out)|
               ==> !OccursAt(Framed(pre, hash, a, b, out, post), GetDelimiters(hash).end, j)
    ensures Parse(Framed(pre, hash, a, b, out, post), hash) == Success(out)
  {
    var str := Framed(pre, hash, a, b, out, post);
    var start, end := FramedRegion(str, pre, hash, a, b, out, post);
    SplitFrame(a, b, out);
  }

  /** Under the round trip's conditions, the region is exactly what the session printed between the markers. */
  lemma FramedRegion(str: string, pre: string, hash: string, a: string, b: string, out: string, post: string)
    returns (start: nat, end: nat)
    requires str == Framed(pre, hash, a, b, out, post)
    requires forall j :: 0 <= j < |pre| ==> !OccursAt(str, GetDelimiters(hash).begin, j)
    requires forall j :: 0 <= j < |pre| + |hash| + 8 + |Between(a, b, out)| ==> !OccursAt(str, GetDelimiters(hash).end, j)
    ensures Region(str, hash) == Success((start, end))
    ensures end <= |str| && str[start..end] == Between(a, b, out)
  {
    var d := GetDelimiters(hash);
    var mid := Between(a, b, out);
    MarkersFound(str, pre, d.begin, mid, d.end, post);
    start, end := FrameRegionIs(str, pre, hash, mid, post);
  }

  /** The region of a frame whose markers were found where the frame puts them. */
  lemma FrameRegionIs(str: string, pre: string, hash: string, mid: string, post: string) returns (start: nat, end: nat)
    requires |pre| + |GetDelimiters(hash).begin| + |mid| <= |str|
    requires Index(str, GetDelimiters(hash).begin) == |pre|
    requires Index(str, GetDelimiters(hash).end) == |pre| + |GetDelimiters(hash).begin| + |mid|
    requires str[|pre| + |GetDelimiters(hash).begin|..|pre| + |GetDelimiters(hash).begin| + |mid|] == mid
    ensures Region(str, hash) == Success((start, end))
    ensures end <= |str| && str[start..end] == mid
  {
    start := |pre| + |GetDelimiters(hash).begin|;
    end := start + |mid|;
    assert str[start..end] == mid;
    RegionIs(str, hash, |pre|, end);
  }

  /** Markers first found where a frame puts them. */
  lemma MarkersFound(str: string, pre: string, begin: string, mid: string, end: string, post: string)
    requires str == pre + begin + mid + end + post
    requires forall j :: 0 <= j < |pre| ==> !OccursAt(str, begin, j)
    requires forall j :: 0 <= j < |pre| + |begin| + |mid| ==> !OccursAt(str, end, j)
    ensures Index(str, begin) == |pre| && Index(str, end) == |pre| + |begin| + |mid|
    ensures str[|pre| + |begin|..|pre| + |begin| + |mid|] == mid
  {
    FramedSlices(pre, begin, mid, end, post);
    IndexIsFirst(str, begin, |pre|);
    IndexIsFirst(str, end, |pre| + |begin| + |mid|);
  }

  /** The region once both markers have been found. */
  lemma RegionIs(str: string, hash: string, b: nat, e: nat)
    requires Index(str, GetDelimiters(hash).begin) == b && Index(str, GetDelimiters(hash).end) == e
    requires b + |GetDelimiters(hash).begin| <= e
    ensures Region(str, hash) == Success((b + |GetDelimiters(hash).begin|, e))
  {
  }

  /** Where the pieces of a frame sit. */
  lemma FramedSlices(pre: string, begin: string, mid: string, end: string, post: string)
    ensures var str := pre + begin + mid + end + post;
            var start := |pre| + |begin|;
            str[|pre|..start] == begin && str[start..start + |mid|] == mid
            && str[start + |mid|..start + |mid| + |end|] == end
  {
  }

  /** The region of a frame splits into an empty line, `a`, `b` and the output. */
  lemma SplitFrame(a: string, b: string, out: string)
    requires '\n' !in a && '\n' !in b
    ensures SplitN(Between(a, b, out), 4) == ["", a, b, out]
  {
    var s2 := b + ("\n" + out);
    var s1 := a + ("\n" + s2);
    var s0 := "\n" + s1;
    assert s0 == Between(a, b, out);
    assert SplitN(out, 1) == [out];
    FirstLineSplit(b, out, 2);
    var p2 := SplitN(s2, 2);
    assert p2 == [b, out];
    FirstLineSplit(a, s2, 3);
    var p1 := SplitN(s1, 3);
    assert p1 == [a, b, out];
    FirstLineSplit([], s1, 4);
    assert [] + ("\n" + s1) == s0;
    var e: string := [];
    assert SplitN(s0, 4) == [e] + p1;
    ConsFour(e, p1, a, b, out);
  }

  lemma ConsFour(e: string, p: seq<string>, a: string, b: string, c: string)
    requires p == [a, b, c]
    ensures [e] + p == [e, a, b, c]
  {
  }

  /** One mismatching character rules out an occurrence. */
  lemma NotOccursAt(s: string, pat: string, j: nat, k: nat)
    requires k < |pat| && j + k < |s| && s[j + k] != pat[k]
    ensures !OccursAt(s, pat, j)
  {
    if j + |pat| <= |s| {
      assert s[j..j + |pat|][k] == s[j + k];
    }
  }

  /**
   * Round trip for hex hashes: when neither the hash nor the surrounding
   * text holds a `#`, the markers can only be found where the frame puts
   * them, and the output comes back intact.
   */
  lemma ParseRoundTripHashFree(pre: string, hash: string, a: string, b: string, out: string, post: string)
    requires '\n' !in a && '\n' !in b
    requires '#' !in hash && '#' !in pre && '#' !in a && '#' !in b && '#' !in out
    ensures Parse(Framed(pre, hash, a, b, out, post), hash) == Success(out)
  {
    var d := GetDelimiters(hash);
    var mid := Between(a, b, out);
    var str := Framed(pre, hash, a, b, out, post);
    var P, B := |pre|, |d.begin|;
    assert '#' !in mid;
    assert str == pre + d.begin + mid + d.end + post;
    forall j | 0 <= j < P ensures !OccursAt(str, d.begin, j) {
      assert str[j] == pre[j];
      NotOccursAt(str, d.begin, j, 0);
    }
    forall j | 0 <= j < P + B + |mid| ensures !OccursAt(str, d.end, j) {
      EndNotBefore(pre, hash, mid, d.end + post, str, j);
    }
    ParseRoundTrip(pre, hash, a, b, out, post);
  }

  /** The end marker cannot start anywhere before the region is over. */
  lemma EndNotBefore(pre: string, hash: string, mid: string, rest: string, str: string, j: nat)
    requires '#' !in hash && '#' !in pre && '#' !in mid && |mid| > 0 && mid[0] == '\n'
    requires str == pre + GetDelimiters(hash).begin + mid + rest
    requires j < |pre| + |hash| + 8 + |mid|
    ensures !OccursAt(str, GetDelimiters(hash).end, j)
  {
    var d := GetDelimiters(hash);
    var P, B := |pre|, |d.begin|;
    if j < P {
      assert str[j] == pre[j];
      NotOccursAt(str, d.end, j, 0);
    } else if j < P + B {
      var i := j - P;
      assert str[j] == d.begin[i];
      if i < 4 {
        assert str[P + 3] == ' ';
        NotOccursAt(str, d.end, j, 3 - i);
      } else if i < B - 4 {
        assert d.begin[i] == hash[i - 4];
        NotOccursAt(str, d.end, j, 0);
      } else if i == B - 4 {
        NotOccursAt(str, d.end, j, 0);
      } else {
        assert str[P + B] == '\n';
        NotOccursAt(str, d.end, j, B - i);
      }
    } else {
      assert str[j] == mid[j - P - B];
      NotOccursAt(str, d.end, j, 0);
    }
  }
}
