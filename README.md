# gobot core, modelled in Dafny

gobot is a Slack bot written in Go. This project models the deterministic logic inside it and proves properties of that logic:

- **tmux exec protocol** (`tmux.go`): the begin and end markers built from a hash, the five tmux argument vectors of one operation, and `parseOutput`. `parseOutput` cuts a command's output out of the captured pane text: it takes what lies between the first begin marker and the first end marker and keeps what follows the third line feed.
- **help texts** (`help.go`): the regular expressions `helpParser` and `helpTrigger`, written out by hand. Also `extractMatchesIntoMap`, `parseHelpText`, the help table `extractHelps` fills, and the three answers of `printCommandsHelp`: the listing, one command's detail, and "no such command".
- **outgoing messages** (`message.go`): the `SlackMessage` record, the shared 32-bit message counter behind `NewSlackMessage`, the field set of `MarshalJSON`, and `String`.
- **routing** (`bot.go`): `handleIncomingMessage` and the mention prefix `^<@ID>:?\s?` built from the bot's id. Routing decides whether an event is ignored, answered with the help listing, or offered to every registered command. The older `printCommandsHelp` of `bot.go` is modelled too.

Files:

| file | module | what it holds |
|---|---|---|
| `wrappers.dfy` | `Wrappers` | `Option` and `Result` |
| `text.dfy` | `Text` | `strings.Index`, `IndexByte`, `SplitN` with a line-feed separator, `TrimSpace`, and the `\s`, `(?i)\w` and `unicode.IsSpace` character classes |
| `commands.dfy` | `Commands` | the `Command` interface as a value; `PingCommand` of the example |
| `tmux.dfy` | `Tmux` | markers, argument vectors, `parseOutput` with its round trip |
| `help.dfy` | `Help` | `helpParser`, `extractMatchesIntoMap`, `parseHelpText` |
| `help_table.dfy` | `HelpTable` | the help table, `helpTrigger`, the texts of both `printCommandsHelp` functions |
| `message.dfy` | `Message` | `SlackMessage`, the counter class `Sequencer`, `MarshalJSON`, `String` |
| `bot.dfy` | `Bot` | the mention prefix, routing as a function, and the class `Bot` with its loops over commands and the help table |

Go panics become explicit failure values:
- `NegativeLength` and `TooFewLines` in `Tmux.ParseError`;
- `NoMatch` in `Help.HelpError`;
- `Panic` in `Bot.Routing`;
- a `panicked` result on the methods.

Map iteration order, which Go leaves unspecified, is an input (`order`). The hash of a tmux operation is an input too.

Notes on the source as written:
- The `Bot` struct has no `helps` field, although help.go uses one. The model's `Bot` class holds the table as `helps`.
- `printCommandsHelp` is defined twice: in bot.go with one parameter, and in help.go with a trigger. `handleIncomingMessage` calls the one-parameter form. The model answers `help` with help.go's version and the trigger `help`. The bot.go version is modelled as `PrintCommandsHelpLegacy`.
- A help string whose last sentence lacks a final `.` gains one in its long description: `extractMatchesIntoMap` appends the `.` before matching, and `long` runs to the end of the text. The model keeps that `.` (`Help.TwoSentences`).

## Model

| member | source | states |
|---|---|---|
| Tmux.GetDelimiters | tmux.go:28-33 | the begin and end markers always differ; begin is the hash plus 8 characters, end the hash plus 9 |
| Tmux.DelimitersDetermineHash | tmux.go:28-33 | equal markers come only from equal hashes |
| Tmux.CommandsForOperation | tmux.go:35-52 | five vectors, each starting with `-L minecraft`: three `send-keys` of five words, then `capture-pane` and `show-buffer`; the lines typed are the begin marker, the caller's keys unchanged, and the end marker, each followed by `Enter` |
| Tmux.Region | tmux.go:55-71 | the region between the first begin marker's end and the first end marker lies within the text |
| Tmux.Read | tmux.go:72-74 | the seeked reader copies as many characters as fit in the buffer and remain after the offset; the buffer then starts with exactly that slice of the text, and the rest of it is untouched |
| Tmux.ParseOutput | tmux.go:54-77 | the method that allocates the buffer and fills it through the reader returns what `Parse` specifies: the same errors and the same text |
| Tmux.SplitNCount | tmux.go:76 | `SplitN` with limit n yields one more piece than there are line feeds, capped at n |
| Tmux.ParseNoStart | tmux.go:57-61 | the start-delimiter error is reported exactly when the begin marker is absent, whatever else the text holds |
| Tmux.ParseNoEnd | tmux.go:64-68 | the end-delimiter error is reported exactly when the begin marker is present and the end marker absent |
| Tmux.ParseNeedsEnd | tmux.go:64-68 | without an end marker nothing is ever extracted |
| Tmux.ParseNegativeLength | tmux.go:69-71 | the negative-length panic happens exactly when both markers occur and the first end marker starts before the first begin marker is over |
| Tmux.ParseTooFewLines | tmux.go:76 | once the region exists, the index panic happens exactly when it holds fewer than three line feeds |
| Tmux.ParseResultInside | tmux.go:63-76 | a successful result is a substring of the captured text and never contains the end marker |
| Tmux.ParseIsSlice | tmux.go:63-76 | a successful result is a slice of the captured text that ends where the end marker first occurs |
| Tmux.AfterThirdLineIsSuffix | tmux.go:76 | what follows the third line feed is a suffix of the region |
| Tmux.SplitFrame | tmux.go:76 | the text the session prints between the markers splits into an empty line, the two echoed lines and the output, which keeps its own line feeds |
| Tmux.FramedRegion | tmux.go:55-71 | when the markers first occur where the frame puts them, the region is exactly what lies between them |
| Tmux.ParseRoundTrip | tmux.go:54-77 | round trip: for text before, begin marker, line feed, a, line feed, b, line feed, output, end marker and text after, the output comes back intact. The conditions: a and b hold no line feed, the begin marker does not occur before its place, and the end marker does not occur before its place |
| Tmux.ParseRoundTripHashFree | tmux.go:54-77 | the round trip holds whenever the hash and the text before the end marker hold no `#` (hex hashes never do) |
| Tmux.EndNotBefore | tmux.go:28-30 | with no `#` in the hash or the surrounding text, the end marker cannot start anywhere before its place in the frame |
| Text.Index | tmux.go:57 | `strings.Index`: -1 exactly when the pattern is absent, otherwise its first occurrence |
| Text.SplitN | tmux.go:76 | at most n pieces that join back to the text; no piece but the last holds a line feed, and the last holds none either when fewer than n pieces come out |
| Text.SplitNJoin | tmux.go:76 | splitting pieces joined with line feeds gives them back when no piece but the last holds a line feed |
| Text.TrimSpace | help.go:49-51 | `strings.TrimSpace`: the result is empty exactly when the text is all spaces, and otherwise starts and ends with a non-space |
| Text.TrimSpaceIs | help.go:49-51 | the trimmed text is the part between the leading and the trailing spaces |
| Text.TrimIdempotent | help.go:49-51 | trimming twice is trimming once |
| Text.LinesJoin | help.go:80-84 | lines written one after another with `Sprintln` are the lines joined with line feeds, plus a final line feed |
| Text.JoinNewlineContains | help.go:83-84 | every line of a joined text occurs in it |
| Help.WithPeriod | help.go:27-29 | the help string gains exactly one `.` when it does not end in one, and is unchanged otherwise |
| Help.WithPeriodIdempotent | help.go:27-29 | appending the period is idempotent |
| Help.FirstHeader | help.go:17 | `^` under `(?m)`: the match starts on a line that opens with `*name*:` and a space |
| Help.FirstHeaderIsFirst | help.go:17 | leftmost match: no earlier line opens with a header |
| Help.WordRunMaximal | help.go:17 | `\w+` takes the whole run of word characters |
| Help.SpaceRunMaximal | help.go:17 | the greedy `\s+` takes the whole run of spaces |
| Help.FirstTerminatorIsFirst | help.go:17 | the lazy `short` stops at the first `.`, `?` or `!` |
| Help.LongStart | help.go:17 | the optional `\s?` takes one space after the terminator when there is one |
| Help.HelpMatchGroups | help.go:17 | a match's `name` is one or more word characters; its `short` holds no terminator and does not start with a space |
| Help.HelpMatchIffHeader | help.go:17 | on text ending in a terminator, the parser matches exactly when some line opens with a header |
| Help.SubmatchMap | help.go:26-43 | the map has exactly the keys `name`, `short`, `long`; there is none (the nil-slice panic) exactly when the parser finds no match |
| Help.ExtractMatchesIntoMap | help.go:26-43 | the loop that files each group under its name builds exactly that map |
| Help.ZipThree | help.go:38-40 | filing three values under three names gives the three-entry map |
| Help.ParseNoMatch | help.go:32-38 | `parseHelpText` reports the no-match failure exactly when the parser finds nothing |
| Help.NoMatchIffNoHeader | help.go:26-46 | a help string is refused for want of a match exactly when no line opens with a `*name*:` header followed by a space |
| Help.ParseIgnoresFinalPeriod | help.go:27-29 | a help string parses the same with or without its final `.` |
| Help.NameNeverEmpty | help.go:53-55 | the empty-name error cannot happen |
| Help.ParsedIsValid | help.go:45-62 | every parsed record has a non-empty word name, a non-empty trimmed summary and a trimmed long description |
| Help.ParseFromMatch | help.go:45-62 | once the groups are known, the result is the trimmed groups, or the empty-name or empty-summary error |
| Help.ParseShape | help.go:45-62 | for `*N*:` + spaces + S + terminator + L, with S free of terminators, the record is N, trim(S) and the trimmed rest (with the appended `.`); an empty trim(S) is the empty-summary error |
| Help.ShapeMatch | help.go:17 | the parser's groups on header-shaped text: the name, the summary, and a long description equal to the rest after trimming |
| Help.MatchAtStart | help.go:17 | the groups the parser captures on text that opens with a header |
| Help.LongTrimmed | help.go:17 | the optional space before the long description makes no difference once trimmed |
| Help.SummaryOnly | help.go:45-62 | a header and a one-sentence summary without a final `.` parse to the name, the summary and an empty long description |
| Help.TwoSentences | help.go:27-29 | with a second sentence, the long description is that sentence, with the appended `.` when it lacked one |
| Help.DocumentedExample | commands.go:10 | the documented example parses to `name`, `A short description` and the second sentence |
| Help.NoSummary | help.go:57-59 | a terminator right after the header's space is the empty-summary error |
| Help.FoldedName | help.go:17 | under `(?i)` the name class also takes the long s (U+017F): `*ſ*: x` parses to the name `ſ` |
| Help.StarlessNoMatch | help.go:32-38 | a help string without `*` finds no match |
| Help.PingHelp | example_test.go:18-20 | the ping command's help parses to `ping`, its summary and an empty long description |
| Commands.Ping | example_test.go:14-20 | the ping command accepts `ping` and not `help` |
| HelpTable.OutcomesValid | help.go:64-74 | every record parsed from a command's help string is well formed |
| HelpTable.FirstNoMatch | help.go:38 | the position where `extractHelps` panics: every earlier help string matched the parser and the one there did not; the number of commands when all match |
| HelpTable.PanicsIffHeaderless | help.go:64-74 | `extractHelps` panics exactly when some command's help string has no line opening with a `*name*:` header |
| HelpTable.StarlessFirstPanics | help.go:64-74 | with a first command whose help holds no `*`, `extractHelps` panics at once, before filing anything |
| HelpTable.FiledStop | help.go:64-74 | the loop ends, after the last command or at the panic, exactly at the first help string that does not match, having filed the commands before it |
| HelpTable.IndexHelpsAt | help.go:64-74 | over help strings that all matched: under each name the table holds the record of the last command whose help names it, or what it held before; a help string refused with the empty-name or empty-summary error is skipped |
| HelpTable.IndexedNames | help.go:64-74 | over help strings that all matched: a name is in the table exactly when it was before or some command's help parses to it |
| HelpTable.IndexHelpsValid | help.go:64-74 | the table stays well formed: every record is filed under its own name |
| HelpTable.IndexHelpsStep | help.go:65-73 | one loop iteration on a help string that matched files the parsed record, or skips it when `parseHelpText` returns an error |
| HelpTable.LastNamed | help.go:72 | the last parse that names a key, and no later one does |
| HelpTable.TriggerName | help.go:16 | the trigger matches only `help` in any case, alone or followed by one space and a name without line feeds; the captured name is exactly that rest |
| HelpTable.TriggerRoundTrip | help.go:89-90 | every trigger of the shape `help` + space + name yields the name back; bare `help` yields the empty name |
| HelpTable.TriggerSpanningLines | help.go:16 | a name that spans lines makes the trigger fail (the panic of indexing the empty result) |
| HelpTable.ListingLines | help.go:80-85 | the listing's lines: the title, the line for `help`, then one `*name*: short` line per record in iteration order |
| HelpTable.ListingLinesStep | help.go:83-85 | one loop iteration adds the next record's line |
| HelpTable.ListingShape | help.go:87 | trimming the buffer removes only its final line feed |
| HelpTable.ListingEnds | help.go:80-87 | the listing opens and closes on a non-space character |
| HelpTable.ListingLinesSplit | help.go:79-87 | with no summary spanning lines, the listing splits back into exactly those lines |
| HelpTable.ListingMentionsAll | help.go:83-87 | every record of the table appears in the listing |
| HelpTable.EntryLineShape | help.go:84 | a record's line ends with its summary and spans lines only if the summary does |
| HelpTable.ToTitle | help.go:96 | `strings.ToTitle`: same length; each lower-case ASCII letter and the long s (U+017F) take their title case, every other word character stays |
| HelpTable.TitleOfWord | help.go:96 | the title of a name is a name with no lower-case letter left, and titling it again changes nothing |
| HelpTable.TitleOfFolded | help.go:96 | the long s becomes `S`; the Kelvin sign is its own title case |
| HelpTable.DetailLines | help.go:95-96 | the detail text is four lines: the title-cased name in underscores, an empty line, the summary, the long description |
| HelpTable.ReplyDetail | help.go:89-97 | `help NAME` for a name in the table answers with that record's detail text |
| HelpTable.ReplyUnknown | help.go:100 | `help NAME` for an absent name answers that there is no such command |
| HelpTable.ReplyOtherCase | help.go:79-94 | `help` in any other casing is not the listing: it looks up the empty name and answers "no such command" |
| HelpTable.LegacyShape | bot.go:214-224 | the older listing is the title, the `help` line and every raw help string in registration order, joined by line feeds |
| HelpTable.LegacyMentionsAll | bot.go:219-223 | every command's help string appears in the older listing |
| Message.Next | message.go:53 | the counter's successor: one more, wrapping from 2^32-1 to 0 |
| Message.Sequencer.constructor | message.go:9-11 | a fresh counter holds 0 |
| Message.Sequencer.NewSlackMessage | message.go:51-55 | the counter advances by one (with wrap-around) and the new message carries that id and the channel and text unchanged; nothing else changes |
| Message.IdsFromAt | message.go:53 | the i-th call from a counter at `start` hands out `start + i + 1` modulo 2^32 |
| Message.IdsIncrease | message.go:17-22 | until the counter wraps, ids strictly increase |
| Message.FreshIds | message.go:51-55 | from a fresh counter, successive calls hand out 1, 2, 3, ... |
| Message.FreshIdsDistinct | message.go:17-22 | no id repeats among the first 2^32 calls |
| Message.WrapRepeats | message.go:53 | call 2^32+1 repeats the first id |
| Message.Marshal | message.go:35-43 | the JSON object has exactly the keys `id`, `type`, `channel`, `text`; `type` is `message`; reading it back gives the message |
| Message.Decimal | message.go:47 | `%d`: decimal digits without a leading zero |
| Message.DecimalRoundTrip | message.go:47 | the digits read back to the number |
| Message.ToString | message.go:46-48 | the log form opens with `slackMessage{ID: ` and the id's digits, which read back to the id, and ends with `}` |
| Bot.PrefixLength | bot.go:147-148 | the prefix match spans the mention and at most two more characters |
| Bot.StripMention | bot.go:195-198 | stripping succeeds exactly when the text starts with `<@ID>`, and what it leaves is a suffix of the text |
| Bot.StripRoundTrip | bot.go:195-198 | stripping mention + separator + rest gives the rest unchanged, for each separator the greedy pattern takes in full: none, `:`, one space, or `:` and one space |
| Bot.StripShape | bot.go:195-198 | every stripped text was the mention, a separator and the rest |
| Bot.Matching | bot.go:206-211 | the indices of exactly the commands that accept the text, increasing |
| Bot.MatchingStep | bot.go:206-211 | one loop iteration adds the command when it accepts the text |
| Bot.IgnoresOtherEvents | bot.go:188-190 | events without a type or text, or whose type is not `message`, set off nothing |
| Bot.IgnoresUnaddressed | bot.go:195-197 | a message that does not start with the bot's mention sets off nothing |
| Bot.HelpOnly | bot.go:200-204 | exactly `help` after the mention shows the help and queues no command |
| Bot.QueuesAllMatches | bot.go:206-211 | any other text queues every accepting command, each once, in registration order, and shows no help |
| Bot.NoMatchNoAction | bot.go:206-211 | when no command accepts the text nothing happens |
| Bot.PingRouted | bot.go:187-212 | `<@ID>: ping` queues the ping command |
| Bot.HelpNameGoesToCommands | bot.go:200-211 | `help ping` is not the help trigger here: it goes to the commands |
| Bot.QueueStep | bot.go:206-211 | one loop iteration queues the command's job when it accepts the text |
| Bot.QueuedAsWritten | bot.go:206-211 | as written, every queued closure runs the last command |
| Bot.CapturedLoopVariable | bot.go:209 | with ping and a silent command registered, `ping` should queue ping, but the closure as written runs the silent command |
| Bot.Bot.constructor | bot.go:55-66 | a new bot has an empty help table and empty queues |
| Bot.Bot.ExtractHelps | help.go:64-74 | reports a panic exactly when some command's help string does not match the parser; the table gains the records of the commands before the first such one (all of them when there is none), later records replacing earlier ones of the same name; the queues are unchanged |
| Bot.Bot.PrintCommandsHelp | help.go:76-102 | with `order` visiting every name of the table once: one message with the next id and the reply for the trigger is queued, or nothing when the trigger panics; the table is unchanged |
| Bot.Bot.PrintCommandsHelpLegacy | bot.go:214-224 | one message with the next id and the older listing is queued |
| Bot.Bot.QueueMatches | bot.go:206-211 | the command queue grows by one job per accepting command, in registration order |
| Bot.Bot.HandleIncomingMessage | bot.go:187-212 | the state follows the routing: panics change nothing, the message counter included; queued jobs are exactly the routed ones; `help` queues the listing with the next id; otherwise no message is sent |
| Bot.FileHelps | help.go:64-74 | the loop over the commands stops at the first help string that does not match, or after the last, and returns the table `extractHelps` leaves |
| Bot.WriteListing | help.go:79-85 | the buffer holds the listing's lines, each followed by a line feed |
| Bot.WriteLegacyListing | bot.go:215-221 | the buffer holds the title, the `help` line and every help string, each followed by a line feed |

## Left out

- Random hashes (`randHash`, tmux.go:17-26): the hash is an input. `commandsForOperation`'s error return comes only from the random source, so it is not modelled.
- `TmuxSendKeysAndCapture`: running tmux as an external process and the `commandSem` lock are process I/O and concurrency.
- Tmux.ParseOutput: the error the reader returns is not modelled. It is nil whenever the split succeeds, because the region then holds at least three characters.
- Tmux.ParseRoundTrip: the conditions say where each marker first occurs rather than "no marker occurs in the text before, a, b or the output". The weaker condition does not suffice: a begin marker can straddle the text before and the frame. `Tmux.ParseRoundTripHashFree` gives a simple sufficient condition.
- Connection handling: the Slack handshake, the websocket, reading and writing frames, `runMainLoop`, `handleOutgoingMessage`, `Close`, `getApiTokenOrDie`, `NewBot`'s token lookup and `Bot.String` are network I/O and goroutines. Incoming events are records with optional `type`, `text` and `channel` fields.
- `handleCommand` and `Command.Run`: the commands' own behaviour. Queueing a closure is modelled as appending a job (event, command index) to `commandQueue`.
- Bot.Bot.HandleIncomingMessage: the help reply runs in a goroutine in Go; here it runs before the method returns. Channel sends are appends to a sequence.
- Bot.Bot.ExtractHelps: the table is built in a local and stored once, when the loop ends or at the panic, so concurrent readers of a half-built table are not modelled. After the panic Go ends the process; the model reports it in `panicked` and keeps the entries filed before it.
- Message.Sequencer.NewSlackMessage: the atomicity of `atomic.AddUint32` is not modelled; the counter is updated sequentially.
- Message.Marshal: the byte form of `encoding/json` (key order, string escaping) is not modelled, only the field set and values.
- Bot.StripMention: the bot's id is taken literally; ids holding regular-expression metacharacters are not modelled.
- HelpTable.ToTitle: exact on the characters a name can hold (ASCII word characters, U+017F and U+212A, which `(?i)\w` admits); `strings.ToTitle` on other letters is not modelled.
- Text encoding: strings are sequences of characters. Go indexes bytes, which gives the same slices for the ASCII markers and patterns involved.
- log.go and cli.go: logging and signal handling. `Log` calls are dropped.

## Findings

| source | as written | input that shows it | evidently intended | confidence | as-written member | corrected member |
|---|---|---|---|---|---|---|
| bot.go:206-211 | the queued closure reads the loop variable `cmd`, which all iterations share before Go 1.22, so every queued job runs the last registered command | commands [ping, a command that never fires], message `<@ID> ping`: one job is queued, and it runs the second command | each queued job runs the command that accepted the text | not executed | Bot.QueuedAsWritten, Bot.CapturedLoopVariable | Bot.Bot.QueueMatches, Bot.QueuesAllMatches |
