/**
 * help.go, continued: the table of help records `extractHelps` fills, the
 * `help NAME` trigger, and the texts `printCommandsHelp` answers with. The
 * older `printCommandsHelp` of bot.go, which lists the raw help strings,
 * is here too.
 */
module HelpTable {
  import opened Wrappers
  import opened Text
  import opened Commands
  import opened Help

  /** `b.helps`: help records by command name. */
  type Table = map<string, HelpEntry>

  /** Every record is filed under its own name and is one `parseHelpText` can return. */
  predicate ValidTable(m: Table) {
    forall k :: k in m ==> m[k].name == k && ValidEntry(m[k])
  }

  /** What `parseHelpText` gives for one help string. */
  type Outcome = Result<HelpEntry, HelpError>

  /** The outcome of `parseHelpText` on each command's help string, in order. */
  function Outcomes(cmds: seq<Command>): (r: seq<Outcome>)
    ensures |r| == |cmds| && forall i :: 0 <= i < |cmds| ==> r[i] == ParseHelpText(cmds[i].help)
  {
    seq(|cmds|, i requires 0 <= i < |cmds| => ParseHelpText(cmds[i].help))
  }

  /** Every record a parse returns is well formed. */
  predicate ValidOutcomes(outs: seq<Outcome>) {
    forall i :: 0 <= i < |outs| && outs[i].Success? ==> ValidEntry(outs[i].value)
  }

  lemma OutcomesValid(cmds: seq<Command>)
    ensures ValidOutcomes(Outcomes(cmds))
  {
    forall i | 0 <= i < |cmds| && Outcomes(cmds)[i].Success?
      ensures ValidEntry(Outcomes(cmds)[i].value)
    {
      ParsedIsValid(cmds[i].help);
    }
  }

  /** A parse that returned a record named `k`. */
  predicate Names(o: Outcome, k: string) {
    o.Success? && o.value.name == k
  }

  /**
   * Every help string matched `helpParser`. On one that does not,
   * `extractMatchesIntoMap` slices the nil match and `extractHelps` panics
   * instead of skipping it.
   */
  predicate Matched(outs: seq<Outcome>) {
    forall j :: 0 <= j < |outs| ==> outs[j] != Failure(NoMatch)
  }

  /** Where `extractHelps` panics: the first help string that does not match, or `|outs|`. */
  function FirstNoMatch(outs: seq<Outcome>): (k: nat)
    ensures k <= |outs| && forall j :: 0 <= j < k ==> outs[j] != Failure(NoMatch)
    ensures k < |outs| ==> outs[k] == Failure(NoMatch)
    decreases |outs|
  {
    if outs == [] then 0
    else if outs[0] == Failure(NoMatch) then 0
    else
      var k := FirstNoMatch(outs[1..]);
      k + 1
  }

  /** One more help string that matched, before the first that does not. */
  lemma MatchedStep(outs: seq<Outcome>, i: nat)
    requires i < |outs| && i <= FirstNoMatch(outs) && outs[i] != Failure(NoMatch)
    ensures i < FirstNoMatch(outs) && Matched(outs[..i + 1])
  {
    var p := outs[..i + 1];
    assert forall j :: 0 <= j < |p| ==> p[j] == outs[j];
  }

  /** The first help string that does not match is where `extractHelps` panics. */
  lemma FirstNoMatchAt(outs: seq<Outcome>, i: nat)
    requires i < |outs| && i <= FirstNoMatch(outs) && outs[i] == Failure(NoMatch)
    ensures FirstNoMatch(outs) == i
  {
  }

  /** No line of the help string, with its period added, opens with a `*name*:` header. */
  ghost predicate Headerless(str: string) {
    forall q :: !HeaderLine(WithPeriod(str), q)
  }

  /** `extractHelps` panics exactly when some command's help string has no header line. */
  lemma PanicsIffHeaderless(cmds: seq<Command>)
    ensures FirstNoMatch(Outcomes(cmds)) < |cmds| <==> exists i :: 0 <= i < |cmds| && Headerless(cmds[i].help)
  {
    forall i | 0 <= i < |cmds|
      ensures Outcomes(cmds)[i] == Failure(NoMatch) <==> Headerless(cmds[i].help)
    {
      NoMatchIffNoHeader(cmds[i].help);
    }
  }

  /** A first command whose help has no `*name*:` header stops `extractHelps` at once. */
  lemma StarlessFirstPanics(cmds: seq<Command>)
    requires cmds != [] && '*' !in cmds[0].help
    ensures FirstNoMatch(Outcomes(cmds)) == 0
  {
    StarlessNoMatch(cmds[0].help);
  }

  /**
   * The table after `extractHelps` has walked commands whose help strings
   * parse to `outs`, starting from `m`: a help string `parseHelpText`
   * refuses with an error is skipped, and a record replaces any earlier
   * one of the same name.
   */
  function IndexHelps(m: Table, outs: seq<Outcome>): Table
    requires Matched(outs)
    decreases |outs|
  {
    if outs == [] then m
    else
      var before := IndexHelps(m, outs[..|outs| - 1]);
      match outs[|outs| - 1]
      case Success(h) => before[h.name := h]
      case Failure(EmptyName) => before
      case Failure(EmptyShort) => before
  }

  /** The table `extractHelps` leaves: the commands before the first that does not match are filed. */
  function Extracted(m: Table, outs: seq<Outcome>): Table {
    IndexHelps(m, outs[..FirstNoMatch(outs)])
  }

  /** The last parse that returned a record named `k`. */
  function LastNamed(outs: seq<Outcome>, k: string): (r: Option<nat>)
    ensures r.Some? ==> r.value < |outs| && Names(outs[r.value], k)
    ensures r.Some? ==> forall j :: r.value < j < |outs| ==> !Names(outs[j], k)
    ensures r.None? ==> forall j :: 0 <= j < |outs| ==> !Names(outs[j], k)
    decreases |outs|
  {
    if outs == [] then None
    else if Names(outs[|outs| - 1], k) then Some(|outs| - 1)
    else LastNamed(outs[..|outs| - 1], k)
  }

  /**
   * What `extractHelps` leaves under `k`: the record of the last command
   * whose help names `k`, or, when none does, whatever was there before.
   */
  lemma {:induction false} IndexHelpsAt(m: Table, outs: seq<Outcome>, k: string)
    requires Matched(outs)
    ensures LastNamed(outs, k).Some? ==>
              k in IndexHelps(m, outs) && IndexHelps(m, outs)[k] == outs[LastNamed(outs, k).value].value
    ensures LastNamed(outs, k).None? ==>
              (k in IndexHelps(m, outs) <==> k in m) && (k in m ==> IndexHelps(m, outs)[k] == m[k])
    decreases |outs|
  {
    if outs != [] {
      IndexHelpsAt(m, outs[..|outs| - 1], k);
    }
  }

  /** One more command's outcome, as the loop of `extractHelps` takes it. */
  lemma IndexHelpsStep(m: Table, outs: seq<Outcome>, i: nat)
    requires i < |outs| && Matched(outs[..i + 1])
    ensures IndexHelps(m, outs[..i + 1]) ==
            if outs[i].Success? then IndexHelps(m, outs[..i])[outs[i].value.name := outs[i].value]
            else IndexHelps(m, outs[..i])
  {
    assert outs[..i + 1][..i] == outs[..i];
  }

  /**
   * The state of the loop of `extractHelps` before command `i`: every help
   * string so far matched, and `table` holds what was filed from them.
   */
  ghost predicate FiledUpTo(m: Table, outs: seq<Outcome>, i: nat, table: Table) {
    i <= FirstNoMatch(outs) && Matched(outs[..i]) && table == IndexHelps(m, outs[..i])
  }

  lemma FiledStart(m: Table, outs: seq<Outcome>)
    ensures FiledUpTo(m, outs, 0, m)
  {
    assert outs[..0] == [];
  }

  /** A help string that matched: its record is filed, or it is skipped when refused. */
  lemma FiledStep(m: Table, outs: seq<Outcome>, i: nat, table: Table)
    requires FiledUpTo(m, outs, i, table) && i < |outs| && outs[i] != Failure(NoMatch)
    ensures FiledUpTo(m, outs, i + 1, if outs[i].Success? then table[outs[i].value.name := outs[i].value] else table)
  {
    MatchedStep(outs, i);
    IndexHelpsStep(m, outs, i);
  }

  /** The loop ends, at the last command or at the panic, having filed the commands before the first that does not match. */
  lemma FiledStop(m: Table, outs: seq<Outcome>, i: nat, table: Table)
    requires FiledUpTo(m, outs, i, table) && (i == |outs| || (i < |outs| && outs[i] == Failure(NoMatch)))
    ensures i == FirstNoMatch(outs) && table == Extracted(m, outs)
  {
    if i < |outs| {
      FirstNoMatchAt(outs, i);
    }
  }

  /** A name is in the table exactly when it was before or some command's help names it. */
  lemma IndexedNames(m: Table, outs: seq<Outcome>, k: string)
    requires Matched(outs)
    ensures k in IndexHelps(m, outs) <==> k in m || exists j :: 0 <= j < |outs| && Names(outs[j], k)
  {
    IndexHelpsAt(m, outs, k);
  }

  /** `extractHelps` keeps the table well formed. */
  lemma {:induction false} IndexHelpsValid(m: Table, outs: seq<Outcome>)
    requires ValidTable(m) && ValidOutcomes(outs) && Matched(outs)
    ensures ValidTable(IndexHelps(m, outs))
    decreases |outs|
  {
    if outs != [] {
      var init := outs[..|outs| - 1];
      assert ValidOutcomes(init) by {
        forall i | 0 <= i < |init| && init[i].Success? ensures ValidEntry(init[i].value) {
          assert init[i] == outs[i];
        }
      }
      IndexHelpsValid(m, init);
    }
  }

  /** `w` is `help` in any mix of cases, as `(?i)help` accepts it. */
  predicate IsHelpWord(w: string) {
    |w| == 4 && forall k :: 0 <= k < 4 ==> w[k] == "help"[k] || w[k] == "HELP"[k]
  }

  /**
   * The command name `helpTrigger` captures from `trigger`, or `None` where
   * the pattern does not match and indexing the empty result panics. After
   * `help` the pattern wants the end of the text, or one `\s` and then a
   * rest without line feeds: `.` does not cross lines and `$` is the end of
   * the text.
   */
  function TriggerName(trigger: string): (r: Option<string>)
    ensures r.Some? ==> |trigger| >= 4 && IsHelpWord(trigger[..4]) && '\n' !in r.value
    ensures r.Some? ==> (trigger == trigger[..4] && r.value == [])
                        || (|trigger| > 4 && IsRegexSpace(trigger[4]) && trigger == trigger[..4] + [trigger[4]] + r.value)
  {
    if |trigger| < 4 || !IsHelpWord(trigger[..4]) then None
    else if |trigger| == 4 then Some([])
    else if IsRegexSpace(trigger[4]) && '\n' !in trigger[5..] then Some(trigger[5..])
    else None
  }

  /** Every trigger of the documented shape yields its name back. */
  lemma TriggerRoundTrip(w: string, c: char, name: string)
    requires IsHelpWord(w) && IsRegexSpace(c) && '\n' !in name
    ensures TriggerName(w + [c] + name) == Some(name)
    ensures TriggerName(w) == Some([])
  {
    var t := w + [c] + name;
    assert t[..4] == w && t[5..] == name;
  }

  /** A name that spans lines makes the pattern fail. */
  lemma TriggerSpanningLines(w: string, c: char, name: string)
    requires IsHelpWord(w) && '\n' in name
    ensures TriggerName(w + [c] + name) == None
  {
    var t := w + [c] + name;
    assert t[..4] == w && t[5..] == name;
  }

  const ListTitle := "_List Of Commands_"
  const HelpSelfLine := "*help*:  Displays this help message."

  /** `fmt.Sprintf("*%s*: %s\n", h.name, h.short)` without its line feed. */
  function EntryLine(h: HelpEntry): string {
    "*" + h.name + "*: " + h.short
  }

  /** The lines of the listing, the table walked in `order`. */
  function ListingLines(helps: Table, order: seq<string>): (lines: seq<string>)
    requires forall i :: 0 <= i < |order| ==> order[i] in helps
    ensures |lines| == |order| + 2 && lines[0] == ListTitle && lines[1] == HelpSelfLine
    ensures forall i :: 0 <= i < |order| ==> lines[i + 2] == EntryLine(helps[order[i]])
  {
    [ListTitle, HelpSelfLine] + seq(|order|, i requires 0 <= i < |order| => EntryLine(helps[order[i]]))
  }

  /** One more name, as the loop of `printCommandsHelp` takes it. */
  lemma ListingLinesStep(helps: Table, order: seq<string>, i: nat)
    requires i < |order| && forall j :: 0 <= j < |order| ==> order[j] in helps
    ensures ListingLines(helps, order[..i + 1]) == ListingLines(helps, order[..i]) + [EntryLine(helps[order[i]])]
  {
    var a, b := ListingLines(helps, order[..i + 1]), ListingLines(helps, order[..i]) + [EntryLine(helps[order[i]])];
    assert |a| == |b|;
    forall k | 0 <= k < |a| ensures a[k] == b[k] {
      if k >= 2 {
        assert order[..i + 1][k - 2] == order[k - 2];
      }
    }
  }

  /** The listing `printCommandsHelp` sends for the trigger `help`. */
  function ListingText(helps: Table, order: seq<string>): string
    requires forall i :: 0 <= i < |order| ==> order[i] in helps
  {
    TrimSpace(Lines(ListingLines(helps, order)))
  }

  /** `order` visits every name of the table once, as a `range` over the map does. */
  ghost predicate Enumerates(order: seq<string>, helps: Table) {
    (forall k :: k in helps <==> k in order)
    && forall i, j :: 0 <= i < j < |order| ==> order[i] != order[j]
  }

  /** A record's line ends in its summary's last character, and spans lines only if the summary does. */
  lemma EntryLineShape(h: HelpEntry)
    requires ValidEntry(h)
    ensures var line := EntryLine(h);
      line != [] && line[|line| - 1] == h.short[|h.short| - 1]
      && ('\n' !in h.short ==> '\n' !in line)
  {
    var line := EntryLine(h);
    assert line == ("*" + h.name + "*: ") + h.short;
    if '\n' !in h.short {
      forall k | 0 <= k < |h.name| ensures h.name[k] != '\n' {
        assert IsWordChar(h.name[k]);
      }
    }
  }

  /**
   * For a well-formed table, trimming the buffer removes only its final
   * line feed: the listing is its lines joined.
   */
  lemma ListingShape(helps: Table, order: seq<string>)
    requires ValidTable(helps)
    requires forall i :: 0 <= i < |order| ==> order[i] in helps
    ensures ListingText(helps, order) == JoinNewline(ListingLines(helps, order))
  {
    ListingEnds(helps, order);
    TrimLines(ListingLines(helps, order));
  }

  /** The listing opens and closes on a non-space character. */
  lemma ListingEnds(helps: Table, order: seq<string>)
    requires ValidTable(helps)
    requires forall i :: 0 <= i < |order| ==> order[i] in helps
    ensures var lines := ListingLines(helps, order);
      var last := lines[|lines| - 1];
      lines[0] != [] && !IsSpace(lines[0][0]) && last != [] && !IsSpace(last[|last| - 1])
  {
    var lines := ListingLines(helps, order);
    assert ListTitle[0] == '_';
    if order != [] {
      var h := helps[order[|order| - 1]];
      EntryLineShape(h);
      assert TrimSpace(h.short) == h.short;
    } else {
      assert HelpSelfLine[|HelpSelfLine| - 1] == '.';
    }
  }

  lemma FixedLinesSingle()
    ensures '\n' !in ListTitle && '\n' !in HelpSelfLine
  {
  }

  /** No line of the listing but the last spans lines, when no summary does. */
  lemma ListingLinesSingle(helps: Table, order: seq<string>)
    requires ValidTable(helps)
    requires forall i :: 0 <= i < |order| ==> order[i] in helps
    requires forall k :: k in helps ==> '\n' !in helps[k].short
    ensures var lines := ListingLines(helps, order);
      forall i :: 0 <= i < |lines| ==> '\n' !in lines[i]
  {
    var lines := ListingLines(helps, order);
    FixedLinesSingle();
    forall i | 0 <= i < |lines|
      ensures '\n' !in lines[i]
    {
      if i >= 2 {
        EntryLineShape(helps[order[i - 2]]);
      }
    }
  }

  /** With no summary spanning lines, the listing has one line per record. */
  lemma ListingLinesSplit(helps: Table, order: seq<string>)
    requires ValidTable(helps)
    requires forall i :: 0 <= i < |order| ==> order[i] in helps
    requires forall k :: k in helps ==> '\n' !in helps[k].short
    ensures SplitN(ListingText(helps, order), |order| + 2) == ListingLines(helps, order)
  {
    var lines := ListingLines(helps, order);
    ListingShape(helps, order);
    ListingLinesSingle(helps, order);
    SplitNJoin(lines);
  }

  /** Every record of the table is listed. */
  lemma ListingMentionsAll(helps: Table, order: seq<string>, k: string)
    requires ValidTable(helps) && Enumerates(order, helps) && k in helps
    ensures Contains(ListingText(helps, order), EntryLine(helps[k]))
  {
    ListingShape(helps, order);
    var i :| 0 <= i < |order| && order[i] == k;
    JoinNewlineContains(ListingLines(helps, order), i + 2);
  }

  /**
   * `unicode.ToTitle` on a word character: a lower-case ASCII letter and
   * the long s (U+017F) become upper case; the rest, the Kelvin sign
   * included, are their own title case.
   */
  function Upper(c: char): char {
    if 'a' <= c <= 'z' then (c as int - 32) as char
    else if c == '\U{017F}' then 'S'
    else c
  }

  /** `strings.ToTitle`, exact on the word characters a command name is made of. */
  function ToTitle(s: string): (r: string)
    ensures |r| == |s|
    ensures forall k :: 0 <= k < |s| ==> r[k] == Upper(s[k])
  {
    seq(|s|, k requires 0 <= k < |s| => Upper(s[k]))
  }

  /** The title of a name is a name again, in upper case, and titling it twice changes nothing. */
  lemma TitleOfWord(s: string)
    requires IsWord(s)
    ensures IsWord(ToTitle(s)) && ToTitle(ToTitle(s)) == ToTitle(s)
    ensures forall k :: 0 <= k < |s| ==> !('a' <= ToTitle(s)[k] <= 'z') && ToTitle(s)[k] != '\U{017F}'
  {
  }

  /** The long s takes the title `S`, the Kelvin sign stays as it is. */
  lemma TitleOfFolded()
    ensures ToTitle("\U{017F}\U{212A}") == "S\U{212A}"
  {
  }

  /** The detailed help of one command. */
  function DetailText(h: HelpEntry): string {
    "_" + ToTitle(h.name) + "_\n\n" + h.short + "\n" + h.long
  }

  /** The answer for a name the table does not hold. */
  function NoCommandText(name: string): string {
    "Sorry, there's no command called " + name + "."
  }

  /**
   * The detailed help is four lines: the title-cased name in italics, an
   * empty line, the summary and the long description.
   */
  lemma DetailLines(h: HelpEntry)
    requires IsWord(h.name) && '\n' !in h.short
    ensures SplitN(DetailText(h), 4) == ["_" + ToTitle(h.name) + "_", "", h.short, h.long]
  {
    var title := "_" + ToTitle(h.name) + "_";
    var lines := [title, "", h.short, h.long];
    assert '\n' !in title by {
      forall k | 0 <= k < |h.name| ensures ToTitle(h.name)[k] != '\n' {
        assert IsWordChar(h.name[k]);
      }
    }
    assert JoinNewline(lines[3..]) == h.long;
    assert JoinNewline(lines[2..]) == h.short + "\n" + h.long;
    assert JoinNewline(lines[1..]) == "" + "\n" + (h.short + "\n" + h.long);
    assert DetailText(h) == JoinNewline(lines);
    SplitNJoin(lines);
  }

  /**
   * What `printCommandsHelp(toChannel, trigger)` sends, or `None` where it
   * panics: the listing for exactly `help`, otherwise the captured name's
   * detailed help, or a note that there is no such command.
   */
  function HelpReply(helps: Table, order: seq<string>, trigger: string): Option<string>
    requires forall i :: 0 <= i < |order| ==> order[i] in helps
  {
    if trigger == "help" then Some(ListingText(helps, order))
    else
      match TriggerName(trigger)
      case None => None
      case Some(name) => Some(if name in helps then DetailText(helps[name]) else NoCommandText(name))
  }

  /** `help NAME` for a known command answers with its detailed help. */
  lemma ReplyDetail(helps: Table, order: seq<string>, w: string, c: char, k: string)
    requires ValidTable(helps) && forall i :: 0 <= i < |order| ==> order[i] in helps
    requires IsHelpWord(w) && IsRegexSpace(c) && k in helps
    ensures HelpReply(helps, order, w + [c] + k) == Some(DetailText(helps[k]))
  {
    assert IsWord(k);
    assert '\n' !in k by {
      forall j | 0 <= j < |k| ensures k[j] != '\n' {
        assert IsWordChar(k[j]);
      }
    }
    TriggerRoundTrip(w, c, k);
    assert |w + [c] + k| > 4;
  }

  /** `help NAME` for an unknown name says so. */
  lemma ReplyUnknown(helps: Table, order: seq<string>, w: string, c: char, name: string)
    requires forall i :: 0 <= i < |order| ==> order[i] in helps
    requires IsHelpWord(w) && IsRegexSpace(c) && '\n' !in name && name !in helps
    ensures HelpReply(helps, order, w + [c] + name) == Some(NoCommandText(name))
  {
    TriggerRoundTrip(w, c, name);
    assert |w + [c] + name| > 4;
  }

  /**
   * `help` in any other casing is not the listing: it captures the empty
   * name, which no record has.
   */
  lemma ReplyOtherCase(helps: Table, order: seq<string>, w: string)
    requires ValidTable(helps) && forall i :: 0 <= i < |order| ==> order[i] in helps
    requires IsHelpWord(w) && w != "help"
    ensures HelpReply(helps, order, w) == Some(NoCommandText(""))
  {
    TriggerRoundTrip(w, ' ', "");
  }

  /** The help strings of `cmds`, in order. */
  function HelpStrings(cmds: seq<Command>): (r: seq<string>)
    ensures |r| == |cmds| && forall i :: 0 <= i < |cmds| ==> r[i] == cmds[i].help
  {
    seq(|cmds|, i requires 0 <= i < |cmds| => cmds[i].help)
  }

  /** What the older `printCommandsHelp` of bot.go sends. */
  function LegacyText(cmds: seq<Command>): string {
    TrimSpace(Lines([ListTitle, HelpSelfLine] + HelpStrings(cmds)))
  }

  /** The last help string does not end in a space, so trimming stops at it. */
  predicate EndsInText(cmds: seq<Command>) {
    cmds == [] || (cmds[|cmds| - 1].help != [] && !IsSpace(cmds[|cmds| - 1].help[|cmds[|cmds| - 1].help| - 1]))
  }

  /**
   * The older listing is the title, the line for `help`, and every help
   * string as written, one after the other.
   */
  lemma LegacyShape(cmds: seq<Command>)
    requires EndsInText(cmds)
    ensures LegacyText(cmds) == JoinNewline([ListTitle, HelpSelfLine] + HelpStrings(cmds))
  {
    var lines := [ListTitle, HelpSelfLine] + HelpStrings(cmds);
    LinesJoin(lines);
    JoinNewlineEnds(lines);
    TrimFinalNewline(JoinNewline(lines));
  }

  /** Every command's help string appears in the older listing. */
  lemma LegacyMentionsAll(cmds: seq<Command>, i: nat)
    requires EndsInText(cmds) && i < |cmds|
    ensures Contains(LegacyText(cmds), cmds[i].help)
  {
    LegacyShape(cmds);
    JoinNewlineContains([ListTitle, HelpSelfLine] + HelpStrings(cmds), i + 2);
  }
}
