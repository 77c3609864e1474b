/**
 * help.go: reading a command's help string into a name, a one-line summary
 * and a longer description, indexing those by name, and the texts the bot
 * answers a help request with.
 *
 * The two regular expressions of help.go are written out by hand:
 *
 *   helpParser  `(?ims)^\*(?P<name>\w+)\*:\s+(?P<short>.*?)(?:[.?!]\s?)(?P<long>.*)?$`
 *   helpTrigger `(?i)^help(?:\s(?P<cmd_name>.*))?$`
 *
 * For the parser, `(?m)` lets `^` match at the start of any line and `(?s)`
 * lets `.` match a line feed, so `long` always runs to the end of the text.
 * Go's matcher prefers the leftmost start, then the greedy `\s+` in full,
 * then the shortest `short`: the match starts at the first line that begins
 * with a header, the summary starts after the whole run of spaces and stops
 * at the first `.`, `?` or `!` after it.
 */
module Help {
  import opened Wrappers
  import opened Text
  import opened Commands

  /** The `help` record. */
  datatype HelpEntry = HelpEntry(name: string, short: string, long: string)

  /**
   * Why a help string is refused. `NoMatch` stands for the panic of slicing
   * the nil result of `FindStringSubmatch` in `extractMatchesIntoMap`.
   */
  datatype HelpError = NoMatch | EmptyName | EmptyShort

  /** The help string with a `.` appended unless it already ends with one. */
  function WithPeriod(s: string): (r: string)
    ensures 0 < |r| && |s| <= |r| <= |s| + 1 && r[..|s|] == s && r[|r| - 1] == '.'
    ensures |s| > 0 && s[|s| - 1] == '.' ==> r == s
  {
    if |s| > 0 && s[|s| - 1] == '.' then s else s + "."
  }

  lemma WithPeriodIdempotent(s: string)
    ensures WithPeriod(WithPeriod(s)) == WithPeriod(s)
  {
  }

  predicate IsTerminator(c: char) {
    c == '.' || c == '?' || c == '!'
  }

  predicate NoTerminator(s: string) {
    forall k :: 0 <= k < |s| ==> !IsTerminator(s[k])
  }

  lemma NoTerminatorConcat(a: string, b: string)
    requires NoTerminator(a) && NoTerminator(b)
    ensures NoTerminator(a + b)
  {
    forall k | 0 <= k < |a + b| ensures !IsTerminator((a + b)[k]) {
      if k >= |a| { assert (a + b)[k] == b[k - |a|]; }
    }
  }

  /** The length of the run of `\w` characters starting at `i`. */
  function WordRun(s: string, i: nat): (n: nat)
    requires i <= |s|
    ensures i + n <= |s|
    decreases |s| - i
  {
    if i < |s| && IsWordChar(s[i]) then 1 + WordRun(s, i + 1) else 0
  }

  /** The run is as long as it can be: word characters, then none. */
  lemma {:induction false} WordRunMaximal(s: string, i: nat)
    requires i <= |s|
    ensures forall k :: i <= k < i + WordRun(s, i) ==> IsWordChar(s[k])
    ensures i + WordRun(s, i) == |s| || !IsWordChar(s[i + WordRun(s, i)])
    decreases |s| - i
  {
    if i < |s| && IsWordChar(s[i]) {
      WordRunMaximal(s, i + 1);
    }
  }

  /** The length of the run of `\s` characters starting at `i`. */
  function SpaceRun(s: string, i: nat): (n: nat)
    requires i <= |s|
    ensures i + n <= |s|
    decreases |s| - i
  {
    if i < |s| && IsRegexSpace(s[i]) then 1 + SpaceRun(s, i + 1) else 0
  }

  lemma {:induction false} SpaceRunMaximal(s: string, i: nat)
    requires i <= |s|
    ensures forall k :: i <= k < i + SpaceRun(s, i) ==> IsRegexSpace(s[k])
    ensures i + SpaceRun(s, i) == |s| || !IsRegexSpace(s[i + SpaceRun(s, i)])
    decreases |s| - i
  {
    if i < |s| && IsRegexSpace(s[i]) {
      SpaceRunMaximal(s, i + 1);
    }
  }

  /** `^` under `(?m)`: the start of the text or just after a line feed. */
  predicate LineStart(s: string, p: nat) {
    p == 0 || (p <= |s| && s[p - 1] == '\n')
  }

  /** `\*\w+\*:\s` begins at `p`. */
  predicate HeaderAt(s: string, p: nat) {
    p < |s| && s[p] == '*' &&
    var n := WordRun(s, p + 1);
    n > 0 && p + n + 3 < |s| && s[p + n + 1] == '*' && s[p + n + 2] == ':' && IsRegexSpace(s[p + n + 3])
  }

  predicate HeaderLine(s: string, p: nat) {
    LineStart(s, p) && HeaderAt(s, p)
  }

  /** The first line start at or after `from` that opens a header. */
  function FirstHeader(s: string, from: nat): (r: Option<nat>)
    requires from <= |s|
    ensures r.Some? ==> from <= r.value < |s| && HeaderLine(s, r.value)
    decreases |s| - from
  {
    if HeaderLine(s, from) then Some(from)
    else if from == |s| then None
    else FirstHeader(s, from + 1)
  }

  /** No header line comes before the one `FirstHeader` finds. */
  lemma {:induction false} FirstHeaderIsFirst(s: string, from: nat)
    requires from <= |s|
    ensures var r := FirstHeader(s, from);
            (r.Some? ==> forall q :: from <= q < r.value ==> !HeaderLine(s, q)) &&
            (r.None? ==> forall q :: from <= q ==> !HeaderLine(s, q))
    decreases |s| - from
  {
    if !HeaderLine(s, from) && from < |s| {
      FirstHeaderIsFirst(s, from + 1);
    }
  }

  /** The first `.`, `?` or `!` at or after `from`. */
  function FirstTerminator(s: string, from: nat): (r: Option<nat>)
    requires from <= |s|
    ensures r.Some? ==> from <= r.value < |s| && IsTerminator(s[r.value])
    decreases |s| - from
  {
    if from == |s| then None
    else if IsTerminator(s[from]) then Some(from)
    else FirstTerminator(s, from + 1)
  }

  lemma {:induction false} FirstTerminatorIsFirst(s: string, from: nat)
    requires from <= |s|
    ensures var r := FirstTerminator(s, from);
            (r.Some? ==> forall q :: from <= q < r.value ==> !IsTerminator(s[q])) &&
            (r.None? ==> forall q :: from <= q < |s| ==> !IsTerminator(s[q]))
    decreases |s| - from
  {
    if from < |s| && !IsTerminator(s[from]) {
      FirstTerminatorIsFirst(s, from + 1);
    }
  }

  /** The three capture groups of `helpParser`. */
  datatype Submatches = Submatches(name: string, short: string, long: string)

  /** `helpParser.FindStringSubmatch`: `None` where Go returns nil. */
  function HelpMatch(s: string): Option<Submatches> {
    match FirstHeader(s, 0)
    case None => None
    case Some(p) => MatchAt(s, p)
  }

  /** The groups of a match whose header starts at `p`. */
  function MatchAt(s: string, p: nat): Option<Submatches>
    requires HeaderAt(s, p)
  {
    var ws := p + WordRun(s, p + 1) + 3;
    var ss := ws + SpaceRun(s, ws);
    match FirstTerminator(s, ss)
    case None => None
    case Some(t) =>
      Some(Submatches(s[p + 1..ws - 2], s[ss..t], s[LongStart(s, t)..]))
  }

  /** Where `long` begins: after the terminator and the optional `\s?`. */
  function LongStart(s: string, t: nat): (lo: nat)
    requires t < |s|
    ensures t + 1 <= lo <= |s|
    ensures lo == t + 1 || (lo == t + 2 && IsRegexSpace(s[t + 1]))
  {
    if t + 1 < |s| && IsRegexSpace(s[t + 1]) then t + 2 else t + 1
  }

  /**
   * The groups hold what the pattern promises: `name` is one or more word
   * characters, `short` holds no terminator and does not start with a space.
   */
  lemma HelpMatchGroups(s: string)
    ensures var r := HelpMatch(s);
            r.Some? ==> r.value.name != [] && IsWord(r.value.name) && NoTerminator(r.value.short) &&
                        (r.value.short == [] || !IsRegexSpace(r.value.short[0]))
  {
    match FirstHeader(s, 0)
    case None =>
    case Some(p) => MatchAtGroups(s, p);
  }

  lemma MatchAtGroups(s: string, p: nat)
    requires HeaderAt(s, p)
    ensures var r := MatchAt(s, p);
            r.Some? ==> r.value.name != [] && IsWord(r.value.name) && NoTerminator(r.value.short) &&
                        (r.value.short == [] || !IsRegexSpace(r.value.short[0]))
  {
    var n := WordRun(s, p + 1);
    var ws := p + n + 3;
    var ss := ws + SpaceRun(s, ws);
    WordRunIsWord(s, p + 1);
    match FirstTerminator(s, ss)
    case None =>
    case Some(t) =>
      BeforeTerminator(s, ss);
      SpaceRunMaximal(s, ws);
  }

  /** A run of word characters is a word. */
  lemma WordRunIsWord(s: string, i: nat)
    requires i <= |s|
    ensures IsWord(s[i..i + WordRun(s, i)])
  {
    WordRunMaximal(s, i);
    var w := s[i..i + WordRun(s, i)];
    forall k | 0 <= k < |w| ensures IsWordChar(w[k]) {
      assert w[k] == s[i + k];
    }
  }

  /** What lies before the first terminator holds none. */
  lemma BeforeTerminator(s: string, from: nat)
    requires from <= |s| && FirstTerminator(s, from).Some?
    ensures NoTerminator(s[from..FirstTerminator(s, from).value])
  {
    FirstTerminatorIsFirst(s, from);
    var w := s[from..FirstTerminator(s, from).value];
    forall k | 0 <= k < |w| ensures !IsTerminator(w[k]) {
      assert w[k] == s[from + k];
    }
  }

  const GroupNames: seq<string> := ["name", "short", "long"]

  /** The map `extractMatchesIntoMap` returns; `None` where it panics. */
  function SubmatchMap(str: string): (r: Option<map<string, string>>)
    ensures r.Some? ==> r.value.Keys == {"name", "short", "long"}
    ensures r.None? <==> HelpMatch(WithPeriod(str)).None?
  {
    match HelpMatch(WithPeriod(str))
    case None => None
    case Some(m) => Some(map["name" := m.name, "short" := m.short, "long" := m.long])
  }

  /** The map that pairs the first `|keys|` names with the first values. */
  function Zip(keys: seq<string>, values: seq<string>): map<string, string>
    requires |keys| == |values|
  {
    if keys == [] then map[]
    else Zip(keys[..|keys| - 1], values[..|values| - 1])[keys[|keys| - 1] := values[|values| - 1]]
  }

  lemma ZipThree(keys: seq<string>, values: seq<string>)
    requires |keys| == |values| == 3
    ensures Zip(keys, values) == map[keys[0] := values[0]][keys[1] := values[1]][keys[2] := values[2]]
  {
    var k1, v1 := keys[..1], values[..1];
    var k2, v2 := keys[..2], values[..2];
    assert k1[..0] == [] && v1[..0] == [];
    assert Zip(k1, v1) == map[keys[0] := values[0]];
    assert k2[..1] == k1 && v2[..1] == v1;
    assert Zip(k2, v2) == Zip(k1, v1)[keys[1] := values[1]];
  }

  /** `extractMatchesIntoMap`: capture groups stored under their names. */
  method ExtractMatchesIntoMap(str: string) returns (md: Option<map<string, string>>)
    ensures md == SubmatchMap(str)
  {
    var s := WithPeriod(str);
    var names := GroupNames;
    var found := HelpMatch(s);
    if found.None? {
      return None;
    }
    var matches := [found.value.name, found.value.short, found.value.long];
    var d := map[];
    for i := 0 to |matches|
      invariant d == Zip(names[..i], matches[..i])
    {
      assert names[..i + 1][..i] == names[..i] && matches[..i + 1][..i] == matches[..i];
      d := d[names[i] := matches[i]];
    }
    assert names[..3] == names && matches[..3] == matches;
    ZipThree(names, matches);
    md := Some(d);
  }

  /** A Go map lookup: the zero value for a missing key. */
  function Lookup(md: map<string, string>, key: string): string {
    if key in md then md[key] else ""
  }

  /** `parseHelpText`. */
  function ParseHelpText(str: string): Result<HelpEntry, HelpError> {
    match SubmatchMap(str)
    case None => Failure(NoMatch)
    case Some(md) =>
      var name := TrimSpace(Lookup(md, "name"));
      var short := TrimSpace(Lookup(md, "short"));
      var long := TrimSpace(Lookup(md, "long"));
      if name == [] then Failure(EmptyName)
      else if short == [] then Failure(EmptyShort)
      else Success(HelpEntry(name, short, long))
  }

  predicate IsWord(s: string) {
    forall k :: 0 <= k < |s| ==> IsWordChar(s[k])
  }

  predicate Trimmed(s: string) {
    TrimSpace(s) == s
  }

  /** What every parsed help record satisfies. */
  predicate ValidEntry(h: HelpEntry) {
    h.name != [] && IsWord(h.name) && h.short != [] && Trimmed(h.short) && Trimmed(h.long)
  }

  lemma WordNotSpace(s: string)
    requires s != [] && IsWord(s)
    ensures TrimSpace(s) == s
  {
    assert !IsSpace(s[0]) && !IsSpace(s[|s| - 1]);
    TrimmedUnchanged(s);
  }

  /** A help string ending in `.` or not parses the same. */
  lemma ParseIgnoresFinalPeriod(str: string)
    ensures ParseHelpText(WithPeriod(str)) == ParseHelpText(str)
  {
    WithPeriodIdempotent(str);
  }

  /**
   * The empty-name error of `parseHelpText` cannot happen: `\w+` captures
   * at least one word character and `TrimSpace` keeps it.
   */
  lemma NameNeverEmpty(str: string)
    ensures ParseHelpText(str) != Failure(EmptyName)
  {
    var m := HelpMatch(WithPeriod(str));
    HelpMatchGroups(WithPeriod(str));
    if m.Some? {
      ParseFromMatch(str, m.value);
      WordNotSpace(m.value.name);
    }
  }

  /** Whatever `parseHelpText` accepts is a well-formed record. */
  lemma ParsedIsValid(str: string)
    requires ParseHelpText(str).Success?
    ensures ValidEntry(ParseHelpText(str).value)
  {
    var m := HelpMatch(WithPeriod(str)).value;
    ParseFromMatch(str, m);
    HelpMatchGroups(WithPeriod(str));
    WordNotSpace(m.name);
    assert ParseHelpText(str).value == HelpEntry(m.name, TrimSpace(m.short), TrimSpace(m.long));
    TrimIdempotent(m.short);
    TrimIdempotent(m.long);
  }

  /**
   * The parser fails to match exactly when no line of the help string
   * opens with a `*name*:` header followed by a space: once the final `.`
   * is in place, a summary terminator always follows the header.
   */
  lemma NoMatchIffNoHeader(str: string)
    ensures ParseHelpText(str) == Failure(NoMatch) <==>
            forall q :: !HeaderLine(WithPeriod(str), q)
  {
    ParseNoMatch(str);
    HelpMatchIffHeader(WithPeriod(str));
  }

  /** `parseHelpText` reports `NoMatch` exactly when the parser finds nothing. */
  lemma ParseNoMatch(str: string)
    ensures ParseHelpText(str) == Failure(NoMatch) <==> HelpMatch(WithPeriod(str)).None?
  {
  }

  /** On text that ends in a terminator, the parser matches exactly when some line opens with a header. */
  lemma HelpMatchIffHeader(s: string)
    requires s != [] && IsTerminator(s[|s| - 1])
    ensures HelpMatch(s).None? <==> forall q :: !HeaderLine(s, q)
  {
    FirstHeaderIsFirst(s, 0);
    match FirstHeader(s, 0)
    case None =>
    case Some(p) => MatchFollowsHeader(s, p);
  }

  /** A header is always followed by a terminator when the text ends in one. */
  lemma MatchFollowsHeader(s: string, p: nat)
    requires HeaderAt(s, p) && IsTerminator(s[|s| - 1])
    ensures MatchAt(s, p).Some?
  {
    var ws := p + WordRun(s, p + 1) + 3;
    var ss := ws + SpaceRun(s, ws);
    SpaceRunMaximal(s, ws);
    assert ss < |s| by {
      assert !IsRegexSpace(s[|s| - 1]);
    }
    FirstTerminatorIsFirst(s, ss);
  }


  lemma WordRunIs(s: string, i: nat, m: nat)
    requires i + m <= |s|
    requires forall k :: i <= k < i + m ==> IsWordChar(s[k])
    requires i + m == |s| || !IsWordChar(s[i + m])
    ensures WordRun(s, i) == m
  {
    WordRunMaximal(s, i);
  }

  lemma SpaceRunIs(s: string, i: nat, m: nat)
    requires i + m <= |s|
    requires forall k :: i <= k < i + m ==> IsRegexSpace(s[k])
    requires i + m == |s| || !IsRegexSpace(s[i + m])
    ensures SpaceRun(s, i) == m
  {
    SpaceRunMaximal(s, i);
  }

  lemma FirstTerminatorIs(s: string, i: nat, t: nat)
    requires i <= t < |s| && IsTerminator(s[t])
    requires forall k :: i <= k < t ==> !IsTerminator(s[k])
    ensures FirstTerminator(s, i) == Some(t)
  {
    FirstTerminatorIsFirst(s, i);
  }

  /**
   * Text that opens with a header: `*`, a name of `n` word characters,
   * `*:`, a run of `g` spaces, a summary, then a terminator at `te`.
   */
  predicate OpensWithHeader(s: string, n: nat, g: nat, te: nat) {
    0 < n && 0 < g && n + 3 + g <= te < |s| &&
    s[0] == '*' && s[n + 1] == '*' && s[n + 2] == ':' &&
    (forall k :: 1 <= k < n + 1 ==> IsWordChar(s[k])) &&
    (forall k :: n + 3 <= k < n + 3 + g ==> IsRegexSpace(s[k])) &&
    !IsRegexSpace(s[n + 3 + g]) &&
    (forall k :: n + 3 + g <= k < te ==> !IsTerminator(s[k])) &&
    IsTerminator(s[te])
  }

  /** The match of `helpParser` on text that opens with a header. */
  lemma MatchAtStart(s: string, n: nat, g: nat, te: nat)
    requires OpensWithHeader(s, n, g, te)
    ensures HelpMatch(s) == Some(Submatches(s[1..n + 1], s[n + 3 + g..te], s[LongStart(s, te)..]))
  {
    SpaceRunIs(s, n + 3, g);
    FirstTerminatorIs(s, n + 3 + g, te);
    HeaderAtStart(s, n);
    MatchAtIs(s, n, g, te);
  }

  /** A header at the very start of the text is the first one. */
  lemma HeaderAtStart(s: string, n: nat)
    requires 0 < n && n + 3 < |s| && s[0] == '*' && s[n + 1] == '*' && s[n + 2] == ':'
    requires forall k :: 1 <= k < n + 1 ==> IsWordChar(s[k])
    requires IsRegexSpace(s[n + 3])
    ensures WordRun(s, 1) == n
    ensures HeaderAt(s, 0) && HelpMatch(s) == MatchAt(s, 0)
  {
    WordRunIs(s, 1, n);
    assert HeaderLine(s, 0);
    assert FirstHeader(s, 0) == Some(0);
  }

  /** `MatchAt` once the runs and the terminator are known. */
  lemma MatchAtIs(s: string, n: nat, g: nat, t: nat)
    requires HeaderAt(s, 0) && WordRun(s, 1) == n && SpaceRun(s, n + 3) == g
    requires FirstTerminator(s, n + 3 + g) == Some(t)
    ensures MatchAt(s, 0) == Some(Submatches(s[1..n + 1], s[n + 3 + g..t], s[LongStart(s, t)..]))
  {
  }

  lemma WordsAt(s: string, i: nat, w: string)
    requires i + |w| <= |s| && s[i..i + |w|] == w && IsWord(w)
    ensures forall k :: i <= k < i + |w| ==> IsWordChar(s[k])
  {
    forall k | i <= k < i + |w| ensures IsWordChar(s[k]) { assert s[k] == w[k - i]; }
  }

  lemma SpacesAt(s: string, i: nat, w: string)
    requires i + |w| <= |s| && s[i..i + |w|] == w
    requires forall k :: 0 <= k < |w| ==> IsRegexSpace(w[k])
    ensures forall k :: i <= k < i + |w| ==> IsRegexSpace(s[k])
  {
    forall k | i <= k < i + |w| ensures IsRegexSpace(s[k]) { assert s[k] == w[k - i]; }
  }

  lemma NoTerminatorAt(s: string, i: nat, w: string)
    requires i + |w| <= |s| && s[i..i + |w|] == w
    requires forall k :: 0 <= k < |w| ==> !IsTerminator(w[k])
    ensures forall k :: i <= k < i + |w| ==> !IsTerminator(s[k])
  {
    forall k | i <= k < i + |w| ensures !IsTerminator(s[k]) { assert s[k] == w[k - i]; }
  }

  /** What the pattern asks of the parts of a header-shaped help string. */
  predicate HeaderParts(name: string, gap: string, short: string, tail: string) {
    name != [] && IsWord(name) &&
    gap != [] && (forall k :: 0 <= k < |gap| ==> IsRegexSpace(gap[k])) &&
    NoTerminator(short) && (short == [] || !IsRegexSpace(short[0])) &&
    tail != [] && IsTerminator(tail[0])
  }

  /** `s` is `*` + name + `*:` + gap + summary + tail, with parts the pattern accepts. */
  predicate LaidOut(s: string, name: string, gap: string, short: string, tail: string) {
    HeaderParts(name, gap, short, tail) &&
    |s| == |name| + 3 + |gap| + |short| + |tail| &&
    s[0] == '*' && s[|name| + 1] == '*' && s[|name| + 2] == ':' &&
    s[1..|name| + 1] == name && s[|name| + 3..|name| + 3 + |gap|] == gap &&
    s[|name| + 3 + |gap|..|name| + 3 + |gap| + |short|] == short &&
    s[|name| + 3 + |gap| + |short|..] == tail
  }

  /** Where the parts of a header-shaped help string sit. */
  lemma ShapeLayout(s: string, name: string, gap: string, short: string, tail: string)
    requires s == "*" + name + "*:" + gap + short + tail
    requires HeaderParts(name, gap, short, tail)
    ensures LaidOut(s, name, gap, short, tail)
  {
  }

  /**
   * What `parseHelpText` makes of a help string `*name*:` + spaces + summary
   * + terminator + rest: the name as written, the trimmed summary (an error
   * if that is empty) and, as the long description, the trimmed rest. When
   * the help string does not end with `.`, the appended `.` is part of the
   * long description (`WithPeriod([t] + rest)` without its first character).
   */
  lemma ParseShape(str: string, name: string, gap: string, short: string, t: char, rest: string)
    requires str == "*" + name + "*:" + gap + short + [t] + rest
    requires name != [] && IsWord(name)
    requires gap != [] && forall k :: 0 <= k < |gap| ==> IsRegexSpace(gap[k])
    requires NoTerminator(short)
    requires short == [] || !IsRegexSpace(short[0])
    requires IsTerminator(t)
    ensures ParseHelpText(str) ==
            if TrimSpace(short) == [] then Failure(EmptyShort)
            else Success(HelpEntry(name, TrimSpace(short), TrimSpace(WithPeriod([t] + rest)[1..])))
  {
    var head := "*" + name + "*:" + gap + short;
    var tail := WithPeriod([t] + rest);
    WithPeriodAppend(head, t, rest);
    var long := ShapeMatch(name, gap, short, tail);
    ParseFromMatch(str, Submatches(name, short, long));
    WordNotSpace(name);
  }

  lemma WithPeriodAppend(head: string, t: char, rest: string)
    ensures WithPeriod(head + [t] + rest) == head + WithPeriod([t] + rest)
  {
    var x := [t] + rest;
    assert head + [t] + rest == head + x;
    assert (head + x)[|head + x| - 1] == x[|x| - 1];
  }

  /** `parseHelpText` once the parser's groups are known. */
  lemma ParseFromMatch(str: string, m: Submatches)
    requires HelpMatch(WithPeriod(str)) == Some(m)
    ensures ParseHelpText(str) ==
            if TrimSpace(m.name) == [] then Failure(EmptyName)
            else if TrimSpace(m.short) == [] then Failure(EmptyShort)
            else Success(HelpEntry(TrimSpace(m.name), TrimSpace(m.short), TrimSpace(m.long)))
  {
  }

  /** The groups `helpParser` captures in a header-shaped text. */
  lemma ShapeMatch(name: string, gap: string, short: string, tail: string) returns (long: string)
    requires name != [] && IsWord(name)
    requires gap != [] && forall k :: 0 <= k < |gap| ==> IsRegexSpace(gap[k])
    requires NoTerminator(short)
    requires short == [] || !IsRegexSpace(short[0])
    requires tail != [] && IsTerminator(tail[0])
    ensures HelpMatch("*" + name + "*:" + gap + short + tail) == Some(Submatches(name, short, long))
    ensures TrimSpace(long) == TrimSpace(tail[1..])
  {
    var s := "*" + name + "*:" + gap + short + tail;
    assert HeaderParts(name, gap, short, tail);
    ShapeLayout(s, name, gap, short, tail);
    LaidOutRuns(s, name, gap, short, tail);
    long := OpeningMatch(s, |name|, |gap|, |name| + 3 + |gap| + |short|, name, short, tail[1..]);
  }

  /** The groups `helpParser` captures in text that opens with a header. */
  lemma OpeningMatch(s: string, n: nat, g: nat, te: nat, name: string, short: string, rest: string)
    returns (long: string)
    requires OpensWithHeader(s, n, g, te)
    requires s[1..n + 1] == name && s[n + 3 + g..te] == short && s[te + 1..] == rest
    ensures HelpMatch(s) == Some(Submatches(name, short, long))
    ensures TrimSpace(long) == TrimSpace(rest)
  {
    MatchAtStart(s, n, g, te);
    LongTrimmed(s, te, rest);
    long := s[LongStart(s, te)..];
  }

  /** The runs and the terminator `MatchAtStart` asks for, read off the layout. */
  lemma LaidOutRuns(s: string, name: string, gap: string, short: string, tail: string)
    requires LaidOut(s, name, gap, short, tail)
    ensures OpensWithHeader(s, |name|, |gap|, |name| + 3 + |gap| + |short|)
    ensures s[|name| + 3 + |gap| + |short| + 1..] == tail[1..]
  {
    var n, ss := |name|, |name| + 3 + |gap|;
    var te := ss + |short|;
    assert s[te] == tail[0];
    assert s[te + 1..] == tail[1..] by {
      assert s[te..][1..] == s[te + 1..];
    }
    assert !IsRegexSpace(s[ss]) by {
      if short != [] { assert s[ss] == short[0]; }
    }
    WordsAt(s, 1, name);
    SpacesAt(s, n + 3, gap);
    NoTerminatorAt(s, ss, short);
  }

  /** Dropping the optional `\s?` before the long description is invisible after trimming. */
  lemma LongTrimmed(s: string, t: nat, rest: string)
    requires t < |s| && s[t + 1..] == rest
    ensures TrimSpace(s[LongStart(s, t)..]) == TrimSpace(rest)
  {
    var i, lo := t + 1, LongStart(s, t);
    if lo == i + 1 {
      RegexSpaceIsSpace(s[i]);
      TrimSkipsLeadingSpace(s[i..]);
      assert s[i..][1..] == s[lo..];
    }
  }

  /**
   * A help string that is only a header and a one-line summary (the form of
   * most commands' help) parses to that name and summary, with an empty
   * long description.
   */
  lemma SummaryOnly(name: string, short: string)
    requires name != [] && IsWord(name)
    requires short != [] && NoTerminator(short)
    requires !IsSpace(short[0]) && !IsSpace(short[|short| - 1])
    ensures ParseHelpText("*" + name + "*: " + short) == Success(HelpEntry(name, short, ""))
  {
    var str := "*" + name + "*: " + short;
    SummaryLayout(name, short);
    assert str[|str| - 1] == short[|short| - 1];
    assert WithPeriod(str) == str + ".";
    ParseIgnoresFinalPeriod(str);
    assert !IsRegexSpace(short[0]);
    ParseShape(str + ".", name, " ", short, '.', "");
    assert WithPeriod(['.'] + "")[1..] == "";
    TrimmedUnchanged(short);
  }

  lemma SummaryLayout(name: string, short: string)
    ensures ("*" + name + "*: " + short) + "." == "*" + name + "*:" + " " + short + ['.'] + ""
  {
    assert "*: " == "*:" + " ";
  }

  /**
   * A help string with a second sentence: that sentence is the long
   * description, and when it does not end with `.` the `.` that
   * `extractMatchesIntoMap` appends becomes part of it.
   */
  lemma TwoSentences(name: string, short: string, long: string)
    requires name != [] && IsWord(name)
    requires short != [] && NoTerminator(short)
    requires !IsSpace(short[0]) && !IsSpace(short[|short| - 1])
    requires long != [] && !IsSpace(long[0]) && !IsSpace(long[|long| - 1])
    ensures ParseHelpText("*" + name + "*: " + short + ". " + long) == Success(HelpEntry(name, short, WithPeriod(long)))
  {
    var str := "*" + name + "*: " + short + ". " + long;
    TwoSentencesLayout(name, short, long);
    assert !IsRegexSpace(short[0]);
    ParseShape(str, name, " ", short, '.', " " + long);
    SecondSentence(long);
    TrimmedUnchanged(short);
  }

  /** The long description of `. long`, once the final `.` is in place. */
  lemma SecondSentence(long: string)
    requires long != [] && !IsSpace(long[0]) && !IsSpace(long[|long| - 1])
    ensures TrimSpace(WithPeriod(['.'] + (" " + long))[1..]) == WithPeriod(long)
  {
    var tail := ['.'] + (" " + long);
    var full := WithPeriod(long);
    assert tail[|tail| - 1] == long[|long| - 1];
    assert WithPeriod(tail)[1..] == " " + full;
    TrimSkipsLeadingSpace(" " + full);
    assert (" " + full)[1..] == full;
    assert full[0] == long[0];
    TrimmedUnchanged(full);
  }

  lemma TwoSentencesLayout(name: string, short: string, long: string)
    ensures "*" + name + "*: " + short + ". " + long == "*" + name + "*:" + " " + short + ['.'] + (" " + long)
  {
    assert "*: " == "*:" + " ";
    assert ". " + long == ['.'] + (" " + long);
  }

  /**
   * The example of the help format the `Command` interface documents:
   * `*name*: A short description. Longer description, including argument details.`
   */
  lemma DocumentedExample()
    ensures var short, long := "A short" + " description", "Longer" + " description," + " including argument details.";
            ParseHelpText("*" + "name" + "*: " + short + ". " + long)
            == Success(HelpEntry("name", short, long))
  {
    var short := "A short" + " description";
    var l1, l2, l3 := "Longer", " description,", " including argument details.";
    var long := l1 + l2 + l3;
    assert NoTerminator("A short") && NoTerminator(" description");
    NoTerminatorConcat("A short", " description");
    assert short[0] == 'A' && short[|short| - 1] == " description"[11];
    assert long[0] == l1[0] == 'L';
    assert long[|long| - 1] == l3[|l3| - 1] == '.';
    TwoSentences("name", short, long);
  }

  /** A help string whose first sentence is empty is refused. */
  lemma NoSummary(name: string, rest: string)
    requires name != [] && IsWord(name)
    ensures ParseHelpText("*" + name + "*: ." + rest) == Failure(EmptyShort)
  {
    assert "*" + name + "*: ." + rest == "*" + name + "*:" + " " + "" + ['.'] + rest by {
      assert "*: ." == "*:" + " " + "" + ['.'];
    }
    ParseShape("*" + name + "*: ." + rest, name, " ", "", '.', rest);
  }

  /**
   * Under `(?i)` the name class takes the long s (U+017F), which folds to
   * `s`: a help string naming a command `ſ` parses.
   */
  lemma FoldedName()
    ensures ParseHelpText("*\U{017F}*: x") == Success(HelpEntry("\U{017F}", "x", ""))
  {
    var name, short := "\U{017F}", "x";
    assert IsWord(name) && NoTerminator(short) && !IsSpace(short[0]);
    assert "*" + name + "*: " + short == "*\U{017F}*: x";
    SummaryOnly(name, short);
  }

  /** A help string with no `*` has no header, so the parser finds no match. */
  lemma StarlessNoMatch(str: string)
    requires '*' !in str
    ensures ParseHelpText(str) == Failure(NoMatch)
  {
    var s := WithPeriod(str);
    forall q: nat ensures !HeaderLine(s, q) {
      if q < |str| {
        assert s[q] == str[q];
      }
    }
    NoMatchIffNoHeader(str);
  }

  /** `PingCommand`'s help: no long description. */
  lemma PingHelp()
    ensures ParseHelpText(Ping().help) == Success(HelpEntry("ping", PingSummary, ""))
  {
    PingSummaryFacts();
    PingHeader(PingSummary);
    SummaryOnly("ping", PingSummary);
  }

  lemma PingHeader(short: string)
    ensures "*ping*: " + short == "*" + "ping" + "*: " + short
  {
    assert "*ping*: " == "*" + "ping" + "*: ";
  }

  lemma PingSummaryFacts()
    ensures PingSummary != [] && NoTerminator(PingSummary)
    ensures !IsSpace(PingSummary[0]) && !IsSpace(PingSummary[|PingSummary| - 1])
  {
    var w := PingWords;
    assert NoTerminator(w[0]) && NoTerminator(w[1]) && NoTerminator(w[2]) && NoTerminator(w[3]) && NoTerminator(w[4]);
    NoTerminatorConcat(w[0], w[1]);
    NoTerminatorConcat(w[0] + w[1], w[2]);
    NoTerminatorConcat(w[0] + w[1] + w[2], w[3]);
    NoTerminatorConcat(w[0] + w[1] + w[2] + w[3], w[4]);
  }
}
