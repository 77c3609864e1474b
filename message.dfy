/**
 * The outgoing message sequencer of message.go: every message built by
 * `NewSlackMessage` carries the next value of a package-wide unsigned
 * 32-bit counter, so that the chat service can order the bot's messages.
 */
module Message {
  import opened Wrappers

  const Modulus: int := 0x1_0000_0000

  newtype uint32 = x: int | 0 <= x < 0x1_0000_0000

  /** `SlackMessage`: the id is assigned once, at construction. */
  datatype SlackMessage = SlackMessage(id: uint32, channel: string, text: string)

  /** `atomic.AddUint32(&msgID, 1)`: the successor, wrapping to 0 after 2^32 - 1. */
  function Next(id: uint32): (r: uint32)
    ensures id as int + 1 < Modulus ==> r as int == id as int + 1
    ensures id as int + 1 == Modulus ==> r == 0
  {
    ((id as int + 1) % Modulus) as uint32
  }

  /**
   * The process-wide counter `msgID`. A fresh counter holds 0, so the
   * first message gets id 1.
   */
  class Sequencer {
    var msgID: uint32

    constructor ()
      ensures msgID == 0
    {
      msgID := 0;
    }

    /**
     * `NewSlackMessage`: advances the counter and stamps its new value on a
     * message that carries the channel and text unchanged.
     */
    method NewSlackMessage(channel: string, text: string) returns (m: SlackMessage)
      modifies this
      ensures msgID == Next(old(msgID))
      ensures m.id == msgID && m.channel == channel && m.text == text
    {
      msgID := Next(msgID);
      m := SlackMessage(msgID, channel, text);
    }
  }

  /** The ids that `n` successive calls hand out, starting from counter `start`. */
  function IdsFrom(start: uint32, n: nat): (ids: seq<uint32>)
    ensures |ids| == n
    decreases n
  {
    if n == 0 then [] else [Next(start)] + IdsFrom(Next(start), n - 1)
  }

  /**
   * From a counter at `start`, the `i`-th call (counting from 0) hands out
   * `start + i + 1`, taken modulo 2^32.
   */
  lemma {:induction false} IdsFromAt(start: uint32, n: nat, i: nat)
    requires i < n
    ensures IdsFrom(start, n)[i] as int == (start as int + i + 1) % Modulus
    decreases i
  {
    if i > 0 {
      IdsFromAt(Next(start), n - 1, i - 1);
      assert Next(start) as int == (start as int + 1) % Modulus;
    }
  }

  /**
   * Strict ordering: as long as the counter does not wrap, every call hands
   * out a larger id than the one before.
   */
  lemma IdsIncrease(start: uint32, n: nat)
    requires start as int + n < Modulus
    ensures forall i, j :: 0 <= i < j < n ==> IdsFrom(start, n)[i] < IdsFrom(start, n)[j]
  {
    forall i, j | 0 <= i < j < n ensures IdsFrom(start, n)[i] < IdsFrom(start, n)[j] {
      IdsFromAt(start, n, i);
      IdsFromAt(start, n, j);
    }
  }

  /**
   * From a fresh counter, `n` calls hand out exactly 1, 2, ..., n while
   * `n` stays below 2^32.
   */
  lemma FreshIds(n: nat)
    requires n < Modulus
    ensures forall i :: 0 <= i < n ==> IdsFrom(0, n)[i] as int == i + 1
  {
    forall i | 0 <= i < n ensures IdsFrom(0, n)[i] as int == i + 1 {
      IdsFromAt(0, n, i);
    }
  }

  /**
   * No id repeats among the first 2^32 calls on a fresh counter (the last
   * of them is 0, after the wrap); the next call repeats the first id.
   */
  lemma FreshIdsDistinct(n: nat)
    requires n <= Modulus
    ensures forall i, j :: 0 <= i < j < n ==> IdsFrom(0, n)[i] != IdsFrom(0, n)[j]
  {
    forall i, j | 0 <= i < j < n ensures IdsFrom(0, n)[i] != IdsFrom(0, n)[j] {
      IdsFromAt(0, n, i);
      IdsFromAt(0, n, j);
    }
  }

  lemma WrapRepeats(n: nat)
    requires n > Modulus
    ensures IdsFrom(0, n)[Modulus] == IdsFrom(0, n)[0]
  {
    IdsFromAt(0, n, Modulus);
    IdsFromAt(0, n, 0);
  }

  /** A JSON value as far as the wire format of a message needs one. */
  datatype Json = JNumber(n: int) | JString(s: string)

  /**
   * `MarshalJSON`: the object sent over the connection. Key order and
   * string escaping belong to `encoding/json` and are not modelled.
   */
  function Marshal(m: SlackMessage): (obj: map<string, Json>)
    ensures obj.Keys == {"id", "type", "channel", "text"}
    ensures obj["type"] == JString("message")
    ensures Unmarshal(obj) == Some(m)
  {
    map["id" := JNumber(m.id as int), "type" := JString("message"),
        "channel" := JString(m.channel), "text" := JString(m.text)]
  }

  /**
   * Reads a message back from the wire object: the partner of `Marshal`
   * (the bot itself never decodes its own messages).
   */
  function Unmarshal(obj: map<string, Json>): Option<SlackMessage> {
    if "id" in obj && "type" in obj && "channel" in obj && "text" in obj
       && obj["id"].JNumber? && 0 <= obj["id"].n < Modulus
       && obj["type"] == JString("message")
       && obj["channel"].JString? && obj["text"].JString?
    then Some(SlackMessage(obj["id"].n as uint32, obj["channel"].s, obj["text"].s))
    else None
  }

  /** `%d` of an unsigned number: its decimal digits, without leading zeros. */
  function Decimal(n: nat): (s: string)
    ensures |s| >= 1
    ensures forall i :: 0 <= i < |s| ==> '0' <= s[i] <= '9'
    ensures |s| > 1 ==> s[0] != '0'
    decreases n
  {
    if n < 10 then [Digit(n)] else Decimal(n / 10) + [Digit(n % 10)]
  }

  function Digit(d: nat): (c: char)
    requires d < 10
    ensures '0' <= c <= '9' && c as int - '0' as int == d
  {
    ('0' as int + d) as char
  }

  /** The number a string of decimal digits stands for. */
  function DecimalValue(s: string): nat
    requires forall i :: 0 <= i < |s| ==> '0' <= s[i] <= '9'
  {
    if s == [] then 0 else 10 * DecimalValue(s[..|s| - 1]) + (s[|s| - 1] as int - '0' as int)
  }

  /** Decimal rendering reads back to the number it renders. */
  lemma {:induction false} DecimalRoundTrip(n: nat)
    ensures DecimalValue(Decimal(n)) == n
    decreases n
  {
    var s := Decimal(n);
    if n >= 10 {
      DecimalRoundTrip(n / 10);
      assert s[..|s| - 1] == Decimal(n / 10);
      assert s[|s| - 1] == Digit(n % 10);
    }
  }

  /** `String`: the message as it appears in the bot's log. */
  function ToString(m: SlackMessage): (s: string)
    ensures |s| > 17 && s[..17] == "slackMessage{ID: " && s[|s| - 1] == '}'
    ensures var digits := Decimal(m.id as nat);
            |s| > 17 + |digits| && s[17..17 + |digits|] == digits && DecimalValue(digits) == m.id as int
  {
    var digits := Decimal(m.id as nat);
    DecimalRoundTrip(m.id as nat);
    "slackMessage{ID: " + digits + " Channel: " + m.channel + ", Text: " + m.text + "}"
  }
}
