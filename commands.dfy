/**
 * The `Command` interface of commands.go, reduced to what the bot's own
 * logic consults: the help string and the matching predicate. `Run` belongs
 * to each command and is not part of this model.
 */
module Commands {

  datatype Command = Command(help: string, matches: string -> bool)

  /** The summary of `PingCommand`'s help, "A simple response command to test connectivity", kept in words. */
  const PingWords: seq<string> := ["A simple", " response", " command", " to test", " connectivity"]
  const PingSummary := PingWords[0] + PingWords[1] + PingWords[2] + PingWords[3] + PingWords[4]

  /** `PingCommand` of example_test.go: answers exactly the text `ping`. */
  function Ping(): (c: Command)
    ensures c.matches("ping") && !c.matches("help")
  {
    Command("*ping*: " + PingSummary, t => t == "ping")
  }
}
