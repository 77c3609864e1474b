/**
 * bot.go: deciding what an incoming chat event sets off, and the bot state
 * the help texts and the command queue live in.
 *
 * An event is addressed to the bot when its text starts with a mention of
 * the bot's id, `^<@ID>:?\s?` (the id is taken literally). The mention is
 * stripped; exactly `help` asks for the list of commands, anything else is
 * offered to every registered command in registration order.
 */
module Bot {
  import opened Wrappers
  import opened Text
  import opened Commands
  import opened Help
  import opened HelpTable
  import opened Message

  /** A field of the decoded event: a JSON string or any other JSON value. */
  datatype Field = Str(s: string) | NotString

  /** The fields of an incoming event that routing reads; each may be absent. */
  datatype Event = Event(kind: Option<Field>, text: Option<Field>, channel: Option<Field>)

  /** `<@ID>`, the mention of the bot. */
  function Mention(selfID: string): string {
    "<@" + selfID + ">"
  }

  /**
   * The length of the text `^<@ID>:?\s?` matches at the start of `text`:
   * the mention, then a `:` if one follows, then one `\s` if one follows.
   */
  function PrefixLength(selfID: string, text: string): (r: Option<nat>)
    ensures r.Some? ==> |Mention(selfID)| <= r.value <= |Mention(selfID)| + 2 && r.value <= |text|
  {
    var tag := Mention(selfID);
    if |text| < |tag| || text[..|tag|] != tag then None
    else
      var n := if |tag| < |text| && text[|tag|] == ':' then |tag| + 1 else |tag|;
      Some(if n < |text| && IsRegexSpace(text[n]) then n + 1 else n)
  }

  /** `msgPrefix.ReplaceAllString(text, "")`, or `None` when `msgPrefix` does not match. */
  function StripMention(selfID: string, text: string): (r: Option<string>)
    ensures r.Some? <==> |Mention(selfID)| <= |text| && text[..|Mention(selfID)|] == Mention(selfID)
    ensures r.Some? ==> |r.value| <= |text| && text[|text| - |r.value|..] == r.value
  {
    match PrefixLength(selfID, text)
    case None => None
    case Some(n) => Some(text[n..])
  }

  /**
   * What may sit between the mention and the rest: nothing, `:`, one `\s`,
   * or `:` and one `\s`.
   */
  predicate Separator(sep: string) {
    sep == [] || sep == ":" || (|sep| == 1 && IsRegexSpace(sep[0]))
    || (|sep| == 2 && sep[0] == ':' && IsRegexSpace(sep[1]))
  }

  /**
   * The greedy pattern takes a separator in full: a shorter separator is
   * only what it takes when the rest does not go on with what it leaves
   * out.
   */
  predicate Greedy(sep: string, rest: string) {
    (sep == [] ==> rest == [] || (rest[0] != ':' && !IsRegexSpace(rest[0])))
    && (sep == ":" ==> rest == [] || !IsRegexSpace(rest[0]))
  }

  /**
   * Stripping removes exactly the mention and the separator and leaves the
   * rest as it was.
   */
  lemma StripRoundTrip(selfID: string, sep: string, rest: string)
    requires Separator(sep) && Greedy(sep, rest)
    ensures StripMention(selfID, Mention(selfID) + sep + rest) == Some(rest)
  {
    var tag := Mention(selfID);
    var text := tag + sep + rest;
    assert text[..|tag|] == tag;
    assert text[|tag| + |sep|..] == rest;
    if |sep| >= 1 {
      assert text[|tag|] == sep[0];
    }
    if |sep| == 2 {
      assert text[|tag| + 1] == sep[1];
    }
    if sep == [] && rest != [] {
      assert text[|tag|] == rest[0];
    }
    if sep == ":" && rest != [] {
      assert text[|tag| + 1] == rest[0];
    }
  }

  /**
   * Every stripped text is of that shape: the mention, a separator, and
   * the rest.
   */
  lemma StripShape(selfID: string, text: string)
    requires StripMention(selfID, text).Some?
    ensures var rest := StripMention(selfID, text).value;
            var sep := text[|Mention(selfID)|..|text| - |rest|];
            Separator(sep) && text == Mention(selfID) + sep + rest
  {
    var tag := Mention(selfID);
    var rest := StripMention(selfID, text).value;
    var sep := text[|tag|..|text| - |rest|];
    assert text == text[..|tag|] + sep + text[|text| - |rest|..];
  }

  /** The indices of the commands that accept `text`, in registration order. */
  function Matching(cmds: seq<Command>, text: string): (r: seq<nat>)
    ensures forall k :: 0 <= k < |r| ==> r[k] < |cmds|
    ensures forall i: nat :: i in r <==> i < |cmds| && cmds[i].matches(text)
    ensures forall a, b :: 0 <= a < b < |r| ==> r[a] < r[b]
    decreases |cmds|
  {
    if cmds == [] then []
    else
      var before := Matching(cmds[..|cmds| - 1], text);
      if cmds[|cmds| - 1].matches(text) then before + [|cmds| - 1] else before
  }

  /** One more command, as the loop of `handleIncomingMessage` takes it. */
  lemma MatchingStep(cmds: seq<Command>, i: nat, t: string)
    requires i < |cmds|
    ensures Matching(cmds[..i + 1], t) == Matching(cmds[..i], t) + (if cmds[i].matches(t) then [i] else [])
  {
    assert cmds[..i + 1][..i] == cmds[..i];
  }

  /** What an event sets off. */
  datatype Action = ShowHelp(channel: string) | Enqueue(command: nat)

  /** Queue each of the commands `m`, in order. */
  function EnqueueAll(m: seq<nat>): (acts: seq<Action>)
    ensures |acts| == |m| && forall k :: 0 <= k < |m| ==> acts[k] == Enqueue(m[k])
  {
    seq(|m|, k requires 0 <= k < |m| => Enqueue(m[k]))
  }

  /** The actions, or `Panic` where a type assertion on a field fails. */
  datatype Routing = Routed(actions: seq<Action>) | Panic

  /** The text left once the mention is stripped from a message event, if any. */
  function Addressed(ev: Event, selfID: string): Option<string>
    requires ev.kind == Some(Str("message")) && ev.text.Some? && ev.text.value.Str?
  {
    StripMention(selfID, ev.text.value.s)
  }

  /** `handleIncomingMessage`, as the actions it takes. */
  function Route(ev: Event, selfID: string, cmds: seq<Command>): Routing {
    if ev.kind.None? || ev.text.None? then Routed([])
    else if !ev.kind.value.Str? then Panic
    else if ev.kind.value.s != "message" then Routed([])
    else if !ev.text.value.Str? then Panic
    else
      match StripMention(selfID, ev.text.value.s)
      case None => Routed([])
      case Some(t) =>
        if t == "help" then
          (if ev.channel.Some? && ev.channel.value.Str? then Routed([ShowHelp(ev.channel.value.s)]) else Panic)
        else
          Routed(EnqueueAll(Matching(cmds, t)))
  }

  /** Events that are not chat messages, or carry no text, set off nothing. */
  lemma IgnoresOtherEvents(ev: Event, selfID: string, cmds: seq<Command>)
    requires ev.kind.None? || ev.text.None? || (ev.kind.value.Str? && ev.kind.value.s != "message")
    ensures Route(ev, selfID, cmds) == Routed([])
  {
  }

  /** A message that does not start with the bot's mention sets off nothing. */
  lemma IgnoresUnaddressed(ev: Event, selfID: string, cmds: seq<Command>)
    requires ev.kind == Some(Str("message")) && ev.text.Some? && ev.text.value.Str?
    requires |ev.text.value.s| < |Mention(selfID)| || ev.text.value.s[..|Mention(selfID)|] != Mention(selfID)
    ensures Route(ev, selfID, cmds) == Routed([])
  {
  }

  /** Exactly `help` after the mention shows the help and runs no command. */
  lemma HelpOnly(ev: Event, selfID: string, cmds: seq<Command>, channel: string)
    requires ev.kind == Some(Str("message")) && ev.text.Some? && ev.text.value.Str?
    requires Addressed(ev, selfID) == Some("help") && ev.channel == Some(Str(channel))
    ensures Route(ev, selfID, cmds) == Routed([ShowHelp(channel)])
  {
  }

  /**
   * Any other addressed text is offered to every command: each command that
   * accepts it is queued, once, in registration order, and no help is shown.
   */
  lemma QueuesAllMatches(ev: Event, selfID: string, cmds: seq<Command>, t: string)
    requires ev.kind == Some(Str("message")) && ev.text.Some? && ev.text.value.Str?
    requires Addressed(ev, selfID) == Some(t) && t != "help"
    ensures Route(ev, selfID, cmds).Routed?
    ensures var acts := Route(ev, selfID, cmds).actions;
            (forall a :: a in acts ==> a.Enqueue?)
            && (forall i: nat :: Enqueue(i) in acts <==> i < |cmds| && cmds[i].matches(t))
            && (forall a, b :: 0 <= a < b < |acts| ==> acts[a].command < acts[b].command)
  {
    var m := Matching(cmds, t);
    var acts := Route(ev, selfID, cmds).actions;
    forall i: nat ensures Enqueue(i) in acts <==> i < |cmds| && cmds[i].matches(t) {
      if i in m {
        var k :| 0 <= k < |m| && m[k] == i;
        assert acts[k] == Enqueue(i);
      }
    }
  }

  /** When no command accepts the text, nothing happens at all. */
  lemma NoMatchNoAction(ev: Event, selfID: string, cmds: seq<Command>, t: string)
    requires ev.kind == Some(Str("message")) && ev.text.Some? && ev.text.value.Str?
    requires Addressed(ev, selfID) == Some(t) && t != "help"
    requires forall i :: 0 <= i < |cmds| ==> !cmds[i].matches(t)
    ensures Route(ev, selfID, cmds) == Routed([])
  {
    MatchingNone(cmds, t);
  }

  lemma {:induction false} MatchingNone(cmds: seq<Command>, t: string)
    requires forall i :: 0 <= i < |cmds| ==> !cmds[i].matches(t)
    ensures Matching(cmds, t) == []
    decreases |cmds|
  {
    if cmds != [] {
      MatchingNone(cmds[..|cmds| - 1], t);
    }
  }

  /** `@bot: ping` queues the ping command. */
  lemma PingRouted(selfID: string, channel: string)
    ensures Route(Event(Some(Str("message")), Some(Str(Mention(selfID) + ": " + "ping")), Some(Str(channel))),
                  selfID, [Ping()])
            == Routed([Enqueue(0)])
  {
    var text := Mention(selfID) + ": " + "ping";
    assert text == Mention(selfID) + ": " + "ping";
    StripRoundTrip(selfID, ": ", "ping");
    var t := "ping";
    assert Matching([Ping()], t) == [0];
  }

  /**
   * `help ping` is not the help trigger here: it goes to the commands like
   * any other text, and the ping command does not accept it.
   */
  lemma HelpNameGoesToCommands(selfID: string, channel: string)
    ensures Route(Event(Some(Str("message")), Some(Str(Mention(selfID) + " " + "help ping")), Some(Str(channel))),
                  selfID, [Ping()])
            == Routed([])
  {
    StripRoundTrip(selfID, " ", "help ping");
    assert "help ping" != "help";
    assert Matching([Ping()], "help ping") == [];
  }

  lemma JobsForSnoc(ev: Event, m: seq<nat>, i: nat)
    ensures JobsFor(ev, EnqueueAll(m + [i])) == JobsFor(ev, EnqueueAll(m)) + [Job(ev, i)]
  {
    var acts := EnqueueAll(m + [i]);
    assert acts[..|acts| - 1] == EnqueueAll(m);
  }

  /** The jobs queued for `ev` when the commands that accept `t` are queued. */
  function Queued(ev: Event, cmds: seq<Command>, t: string): seq<Job> {
    JobsFor(ev, EnqueueAll(Matching(cmds, t)))
  }

  /** One more command, as the loop of `handleIncomingMessage` queues it. */
  lemma QueueStep(ev: Event, cmds: seq<Command>, i: nat, t: string)
    requires i < |cmds|
    ensures Queued(ev, cmds[..i + 1], t) == Queued(ev, cmds[..i], t) + (if cmds[i].matches(t) then [Job(ev, i)] else [])
  {
    MatchingStep(cmds, i, t);
    if cmds[i].matches(t) {
      JobsForSnoc(ev, Matching(cmds[..i], t), i);
    } else {
      assert Matching(cmds[..i + 1], t) == Matching(cmds[..i], t);
    }
  }

  /** One queued call of `handleCommand`: the event and the command it runs. */
  datatype Job = Job(event: Event, command: nat)

  /** The jobs that routing queues for `ev`. */
  function JobsFor(ev: Event, acts: seq<Action>): (jobs: seq<Job>)
    ensures |jobs| <= |acts|
  {
    if acts == [] then []
    else JobsFor(ev, acts[..|acts| - 1]) + (match acts[|acts| - 1] case Enqueue(i) => [Job(ev, i)] case ShowHelp(_) => [])
  }

  /**
   * The jobs as the closures of bot.go's loop run them once the loop is
   * over. Each closure reads the loop variable `cmd` when it runs, and
   * before Go 1.22 every iteration shares that one variable, which the loop
   * leaves holding the last command.
   */
  function QueuedAsWritten(ev: Event, cmds: seq<Command>, t: string): (jobs: seq<Job>)
    ensures |jobs| == |Matching(cmds, t)|
    ensures forall k :: 0 <= k < |jobs| ==> jobs[k].command == |cmds| - 1
  {
    var m := Matching(cmds, t);
    seq(|m|, k requires 0 <= k < |m| => Job(ev, |cmds| - 1))
  }

  /** A command that never fires. */
  function Silent(): (c: Command)
    ensures !c.matches("ping")
  {
    Command("*silent*: Never answers.", _ => false)
  }

  /**
   * With the ping command registered before one that never fires, `ping`
   * queues the ping command, but the closure as written runs the other one.
   */
  lemma CapturedLoopVariable(ev: Event)
    ensures Queued(ev, [Ping(), Silent()], "ping") == [Job(ev, 0)]
    ensures QueuedAsWritten(ev, [Ping(), Silent()], "ping") == [Job(ev, 1)]
    ensures ![Ping(), Silent()][1].matches("ping")
  {
    var cmds := [Ping(), Silent()];
    assert cmds[..1] == [Ping()];
    assert Matching(cmds[..1], "ping") == [0];
    assert Matching(cmds, "ping") == [0];
  }

  /**
   * The bot. `helps` is the table `extractHelps` fills; the queues are the
   * channels `sendQueue` and `commandQueue`, as the sequences of what has
   * been put on them. `ids` is the message counter all messages share.
   */
  class Bot {
    const selfID: string
    const commands: seq<Command>
    const ids: Sequencer
    var helps: Table
    var sendQueue: seq<SlackMessage>
    var commandQueue: seq<Job>

    constructor (selfID: string, commands: seq<Command>, ids: Sequencer)
      ensures this.selfID == selfID && this.commands == commands && this.ids == ids
      ensures helps == map[] && sendQueue == [] && commandQueue == []
    {
      this.selfID := selfID;
      this.commands := commands;
      this.ids := ids;
      helps := map[];
      sendQueue := [];
      commandQueue := [];
    }

    /**
     * `extractHelps`: file every parsable help string under its name. At
     * the first help string `helpParser` does not match it panics, and the
     * table keeps what was filed before it.
     */
    method ExtractHelps() returns (panicked: bool)
      modifies this
      ensures panicked <==> !Matched(Outcomes(commands))
      ensures helps == Extracted(old(helps), Outcomes(commands))
      ensures sendQueue == old(sendQueue) && commandQueue == old(commandQueue)
    {
      var table, stop := FileHelps(helps, commands);
      helps := table;
      panicked := stop < |commands|;
    }

    /**
     * `printCommandsHelp` of help.go. The table is walked in `order`, the
     * order the map range happens to take. Sends one message, or none when
     * it panics.
     */
    method PrintCommandsHelp(toChannel: string, trigger: string, order: seq<string>) returns (panicked: bool)
      requires Enumerates(order, helps)
      modifies this, ids
      ensures helps == old(helps) && commandQueue == old(commandQueue)
      ensures HelpReply(helps, order, trigger).None? ==>
                panicked && sendQueue == old(sendQueue) && ids.msgID == old(ids.msgID)
      ensures HelpReply(helps, order, trigger).Some? ==>
                !panicked && ids.msgID == Next(old(ids.msgID))
                && sendQueue == old(sendQueue) + [SlackMessage(ids.msgID, toChannel, HelpReply(helps, order, trigger).value)]
    {
      var text: string;
      if trigger == "help" {
        var buffer := WriteListing(helps, order);
        text := TrimSpace(buffer);
      } else {
        var name := TriggerName(trigger);
        if name.None? {
          return true;
        }
        if name.value in helps {
          text := DetailText(helps[name.value]);
        } else {
          text := NoCommandText(name.value);
        }
      }
      var m := ids.NewSlackMessage(toChannel, text);
      sendQueue := sendQueue + [m];
      panicked := false;
    }

    /** `printCommandsHelp` of bot.go: every raw help string, in registration order. */
    method PrintCommandsHelpLegacy(toChannel: string)
      modifies this, ids
      ensures helps == old(helps) && commandQueue == old(commandQueue)
      ensures ids.msgID == Next(old(ids.msgID))
      ensures sendQueue == old(sendQueue) + [SlackMessage(ids.msgID, toChannel, LegacyText(commands))]
    {
      var buffer := WriteLegacyListing(commands);
      var m := ids.NewSlackMessage(toChannel, TrimSpace(buffer));
      sendQueue := sendQueue + [m];
    }

    /** The loop of `handleIncomingMessage`: queue every command that accepts `t`. */
    method QueueMatches(ev: Event, t: string)
      modifies this
      ensures helps == old(helps) && sendQueue == old(sendQueue)
      ensures commandQueue == old(commandQueue) + Queued(ev, commands, t)
    {
      assert Queued(ev, commands[..0], t) == [];
      for i := 0 to |commands|
        invariant helps == old(helps) && sendQueue == old(sendQueue)
        invariant commandQueue == old(commandQueue) + Queued(ev, commands[..i], t)
      {
        QueueStep(ev, commands, i, t);
        if commands[i].matches(t) {
          commandQueue := commandQueue + [Job(ev, i)];
        }
      }
      assert commands[..|commands|] == commands;
    }

    /**
     * `handleIncomingMessage`: queue the commands the event sets off, or
     * answer `help`. The help goes through help.go's `printCommandsHelp`
     * with the trigger `help`, the table walked in `order`.
     */
    method HandleIncomingMessage(ev: Event, order: seq<string>) returns (panicked: bool)
      requires Enumerates(order, helps)
      modifies this, ids
      ensures helps == old(helps)
      ensures Route(ev, selfID, commands).Panic? ==>
                panicked && sendQueue == old(sendQueue) && commandQueue == old(commandQueue)
                && ids.msgID == old(ids.msgID)
      ensures Route(ev, selfID, commands).Routed? ==>
                !panicked && commandQueue == old(commandQueue) + JobsFor(ev, Route(ev, selfID, commands).actions)
      ensures var r := Route(ev, selfID, commands);
              r.Routed? && r.actions != [] && r.actions[0].ShowHelp? ==>
                ids.msgID == Next(old(ids.msgID))
                && sendQueue == old(sendQueue) + [SlackMessage(ids.msgID, r.actions[0].channel, ListingText(helps, order))]
      ensures (Route(ev, selfID, commands).Routed? && forall a :: a in Route(ev, selfID, commands).actions ==> a.Enqueue?) ==>
                sendQueue == old(sendQueue) && ids.msgID == old(ids.msgID)
    {
      if ev.kind.None? || ev.text.None? {
        return false;
      }
      if !ev.kind.value.Str? {
        return true;
      }
      if ev.kind.value.s != "message" {
        return false;
      }
      if !ev.text.value.Str? {
        return true;
      }
      var stripped := StripMention(selfID, ev.text.value.s);
      if stripped.None? {
        return false;
      }
      var t := stripped.value;
      if t == "help" {
        if ev.channel.None? || !ev.channel.value.Str? {
          return true;
        }
        var channel := ev.channel.value.s;
        assert Route(ev, selfID, commands) == Routed([ShowHelp(channel)]);
        assert ShowHelp(channel) in Route(ev, selfID, commands).actions;
        var helpPanicked := PrintCommandsHelp(channel, "help", order);
        return false;
      }
      assert Route(ev, selfID, commands) == Routed(EnqueueAll(Matching(commands, t)));
      QueueMatches(ev, t);
      panicked := false;
    }
  }

  /**
   * The loop of `extractHelps` over `cmds`, starting from the table `m`:
   * stops at the first help string the parser does not match, where Go
   * panics, and says where it stopped.
   */
  method FileHelps(m: Table, cmds: seq<Command>) returns (table: Table, stop: nat)
    ensures stop == FirstNoMatch(Outcomes(cmds))
    ensures stop < |cmds| <==> !Matched(Outcomes(cmds))
    ensures table == Extracted(m, Outcomes(cmds))
  {
    ghost var outs := Outcomes(cmds);
    table := m;
    FiledStart(m, outs);
    stop := 0;
    while stop < |cmds|
      invariant FiledUpTo(m, outs, stop, table)
    {
      var r := ParseHelpText(cmds[stop].help);
      assert r == outs[stop];
      if r == Failure(NoMatch) {
        break;
      }
      FiledStep(m, outs, stop, table);
      if r.Success? {
        table := table[r.value.name := r.value];
      }
      stop := stop + 1;
    }
    FiledStop(m, outs, stop, table);
    assert stop < |cmds| ==> outs[stop] == Failure(NoMatch);
  }

  /** The buffer `printCommandsHelp` of help.go fills for the listing, the table walked in `order`. */
  method WriteListing(helps: Table, order: seq<string>) returns (buffer: string)
    requires forall i :: 0 <= i < |order| ==> order[i] in helps
    ensures buffer == Lines(ListingLines(helps, order))
  {
    buffer := Lines([ListTitle, HelpSelfLine]);
    assert ListingLines(helps, order[..0]) == [ListTitle, HelpSelfLine];
    for i := 0 to |order|
      invariant buffer == Lines(ListingLines(helps, order[..i]))
    {
      ListingLinesStep(helps, order, i);
      buffer := buffer + EntryLine(helps[order[i]]) + "\n";
    }
    assert order[..|order|] == order;
  }

  /** The buffer `printCommandsHelp` of bot.go fills. */
  method WriteLegacyListing(cmds: seq<Command>) returns (buffer: string)
    ensures buffer == Lines([ListTitle, HelpSelfLine] + HelpStrings(cmds))
  {
    var fixed := [ListTitle, HelpSelfLine];
    buffer := Lines(fixed);
    assert fixed + HelpStrings(cmds[..0]) == fixed;
    for i := 0 to |cmds|
      invariant buffer == Lines(fixed + HelpStrings(cmds[..i]))
    {
      var lines := fixed + HelpStrings(cmds[..i + 1]);
      assert lines[..|lines| - 1] == fixed + HelpStrings(cmds[..i]);
      buffer := buffer + cmds[i].help + "\n";
    }
    assert cmds[..|cmds|] == cmds;
  }
}
