/** A conversation: the messages sent to the LLM, compressed when they grow too long. */
module Memory {
  import opened Common
  import opened Grouping
  import opened Text
  import opened Transcript

  /** Compression starts above this many estimated tokens, and keeps this many messages. */
  const MAX_TOKENS := 20000
  const KEEP_RECENT := 8

  datatype Contents = Contents(messages: seq<Message>, tokens: int, memory: seq<string>, updatedAt: int)

  /** Roughly one token per four characters. */
  function EstimateTokens(s: string): nat { |s| / 4 }

  function EstimateAll(msgs: seq<Message>): nat {
    if msgs == [] then 0 else EstimateTokens(msgs[0].content) + EstimateAll(msgs[1..])
  }

  function Appended(c: Contents, m: Message, now: int): Contents {
    Contents(c.messages + [m], c.tokens + EstimateTokens(m.content), c.memory, now)
  }

  /** What stands for the `count` messages that were compressed. */
  function SummaryMessage(count: nat, summary: string): Message {
    System("[COMPRESSED CONTEXT - " + Decimal(count) + " messages compressed]\n"
           + "Previous conversation summary:\n" + summary
           + "\n--- End of compressed context. Continue from here. ---")
  }

  predicate NeedsCompression(c: Contents) {
    c.tokens > MAX_TOKENS && |c.messages| > KEEP_RECENT + 1
  }

  /** `summary` is the LLM's reply, None if it failed. */
  function Compressed(c: Contents, summary: Option<string>, now: int): Contents {
    if !NeedsCompression(c) || summary.None? then c
    else
      var cut := |c.messages| - KEEP_RECENT;
      Contents(Compacted(c.messages, cut, SummaryMessage(cut - 1, summary.value)),
               EstimateTokens(summary.value) + EstimateAll(c.messages[cut..]),
               c.memory + [summary.value], now)
  }

  /** The estimate of each message. */
  function EstimateAt(msgs: seq<Message>): nat -> real {
    (i: nat) => if i < |msgs| then (|msgs[i].content| / 4) as real else 0.0
  }

  lemma {:induction false} EstimateByPosition(msgs: seq<Message>)
    ensures EstimateAll(msgs) as real == SumTo(|msgs|, EstimateAt(msgs))
  {
    if msgs != [] {
      EstimateByPosition(msgs[1..]);
      SumToFirst(|msgs| - 1, EstimateAt(msgs), EstimateAt(msgs[1..]));
    }
  }

  /** A conversation of at most nine messages or 20000 estimated tokens stays as it is, as does
      any other if the LLM fails.  Otherwise the system prompt, a message with the summary and
      the last eight messages are left, and the estimate is that of the summary and the eight. */
  lemma {:induction false} CompressionIsRead(c: Contents, summary: Option<string>, now: int)
    ensures var n, c' := |c.messages|, Compressed(c, summary, now);
      if c.tokens <= 20000 || n <= 9 || summary.None? then c' == c
      else
        var last := c.messages[n - 8..];
        && |c'.messages| == 10 && c'.messages[0] == c.messages[0]
        && c'.messages[1].System?
        && c'.messages[1].content == "[COMPRESSED CONTEXT - " + Decimal(n - 9) + " messages compressed]\n"
             + "Previous conversation summary:\n" + summary.value
             + "\n--- End of compressed context. Continue from here. ---"
        && c'.messages[2..] == last
        && c'.tokens as real == (|summary.value| / 4) as real + SumTo(8, EstimateAt(last))
        && c'.memory == c.memory + [summary.value] && c'.updatedAt == now
  {
    if |c.messages| > 9 {
      EstimateByPosition(c.messages[|c.messages| - 8..]);
    }
  }

  class Conversation {
    const id: string
    var messages: seq<Message>
    var tokenEstimate: int
    var memory: seq<string>
    var updatedAt: int

    constructor (id: string, systemPrompt: string, now: int)
      ensures this.id == id
      ensures Value() == Contents([System(systemPrompt)], 0, [], now)
    {
      this.id := id;
      messages := [System(systemPrompt)];
      tokenEstimate := 0;
      memory := [];
      updatedAt := now;
    }

    ghost function Value(): Contents
      reads this
    {
      Contents(messages, tokenEstimate, memory, updatedAt)
    }

    method AddUserMessage(content: string, now: int)
      modifies this
      ensures Value() == Appended(old(Value()), User(content), now)
      ensures messages == old(messages) + [User(content)] && tokenEstimate == old(tokenEstimate) + |content| / 4
      ensures updatedAt == now && memory == old(memory)
    {
      messages := messages + [User(content)];
      tokenEstimate := tokenEstimate + EstimateTokens(content);
      updatedAt := now;
    }

    method AddAssistantMessage(msg: Message, now: int)
      modifies this
      ensures Value() == Appended(old(Value()), msg, now)
      ensures messages == old(messages) + [msg] && tokenEstimate == old(tokenEstimate) + |msg.content| / 4
      ensures updatedAt == now && memory == old(memory)
    {
      messages := messages + [msg];
      tokenEstimate := tokenEstimate + EstimateTokens(msg.content);
      updatedAt := now;
    }

    method AddToolResult(toolCallId: string, content: string, now: int)
      modifies this
      ensures Value() == Appended(old(Value()), Tool(toolCallId, content), now)
      ensures messages == old(messages) + [Tool(toolCallId, content)]
      ensures tokenEstimate == old(tokenEstimate) + |content| / 4
      ensures updatedAt == now && memory == old(memory)
    {
      messages := messages + [Tool(toolCallId, content)];
      tokenEstimate := tokenEstimate + EstimateTokens(content);
      updatedAt := now;
    }

    /** Compresses if needed; `compressed` says whether it happened. */
    method MaybeCompress(summary: Option<string>, now: int) returns (compressed: bool)
      modifies this
      ensures Value() == Compressed(old(Value()), summary, now)
      ensures compressed <==> NeedsCompression(old(Value())) && summary.Some?
    {
      if !(tokenEstimate > MAX_TOKENS && |messages| > KEEP_RECENT + 1) {
        return false;
      }
      var totalMsgs := |messages| - 1;
      var toCompressCount := totalMsgs - KEEP_RECENT;
      var recent := messages[1 + toCompressCount..];
      if summary.None? {
        return false;
      }
      memory := memory + [summary.value];
      messages := [messages[0], SummaryMessage(toCompressCount, summary.value)] + recent;
      var total := EstimateMessagesTokens(recent);
      tokenEstimate := EstimateTokens(summary.value) + total;
      updatedAt := now;
      return true;
    }
  }

  method EstimateMessagesTokens(msgs: seq<Message>) returns (total: nat)
    ensures total == EstimateAll(msgs)
  {
    total := 0;
    for i := 0 to |msgs|
      invariant total + EstimateAll(msgs[i..]) == EstimateAll(msgs)
    {
      assert msgs[i..][0] == msgs[i] && msgs[i..][1..] == msgs[i + 1..];
      total := total + EstimateTokens(msgs[i].content);
    }
  }

  /** The first of the messages a compression would keep is the result of a dropped call. */
  predicate CutsABlock(c: Contents) {
    NeedsCompression(c) && c.messages[|c.messages| - KEEP_RECENT].Tool?
  }

  /** A successful compression keeps the conversation well formed if and only if it does not
      separate tool results from the message that asked for them. */
  lemma {:induction false} CompressionExactlyWhen(c: Contents, summary: string, now: int)
    requires WellFormed(c.messages) && c.messages != [] && c.messages[0].System? && NeedsCompression(c)
    ensures WellFormed(Compressed(c, Some(summary), now).messages) <==> !CutsABlock(c)
  {
    CompactedIsWellFormedExactlyWhen(c.messages, |c.messages| - KEEP_RECENT,
                                    SummaryMessage(|c.messages| - KEEP_RECENT - 1, summary));
  }

  lemma {:induction false} EstimateConcat(xs: seq<Message>, ys: seq<Message>)
    ensures EstimateAll(xs + ys) == EstimateAll(xs) + EstimateAll(ys)
    decreases xs
  {
    if xs == [] {
      assert xs + ys == ys;
    } else {
      assert (xs + ys)[0] == xs[0] && (xs + ys)[1..] == xs[1..] + ys;
      EstimateConcat(xs[1..], ys);
    }
  }
}
