/** The delivery guard of the Telegram channel's `send`: a message with no
    meaningful content produces no transport call, and otherwise every chunk
    of the splitter's output that is not blank produces exactly one, in order.
    The splitter and the Bot API are outside the model: the splitter is a
    parameter and the transport is a log of the calls made. */
module Telegram {
  import opened Text
  import opened Events

  /** The literal that stands for "no content" in an outbound message. */
  const EmptySentinel: string := "[empty message]"

  /** The whole-message guard: after stripping, the content is empty or is
      the sentinel. */
  predicate NoContent(content: string)
    ensures IsBlank(content) ==> NoContent(content)
    ensures content == EmptySentinel ==> NoContent(content)
  {
    StripEmptyIffBlank(content);
    assert Strip(EmptySentinel) == EmptySentinel;
    Strip(content) == [] || Strip(content) == EmptySentinel
  }

  /** The chunks that survive the per-chunk guard, in their original order. */
  function NonBlankChunks(chunks: seq<string>): (r: seq<string>)
    ensures |r| <= |chunks|
  {
    if chunks == [] then []
    else if IsBlank(chunks[0]) then NonBlankChunks(chunks[1..])
    else [chunks[0]] + NonBlankChunks(chunks[1..])
  }

  /** The texts that `send` hands to the transport for a message with the
      given content, when the splitter is `split`. */
  function Deliveries(content: string, split: string -> seq<string>): (texts: seq<string>)
    ensures |texts| <= |split(content)|
    ensures forall k | 0 <= k < |texts| :: !IsBlank(texts[k]) && texts[k] in split(content)
  {
    NonBlankChunksKeepsExactlyNonBlank(split(content));
    if NoContent(content) then [] else NonBlankChunks(split(content))
  }

  /** A call to the Bot API's `send_message`. */
  datatype SendCall = SendCall(chatId: string, text: string)

  /** The calls that deliver `texts` to chat `chatId`, one per text. */
  function CallsTo(chatId: string, texts: seq<string>): (r: seq<SendCall>)
    ensures |r| == |texts|
    ensures forall k | 0 <= k < |r| :: r[k] == SendCall(chatId, texts[k])
  {
    if texts == [] then [] else [SendCall(chatId, texts[0])] + CallsTo(chatId, texts[1..])
  }

  /** The Telegram channel with its transport observed as the log `sent`. */
  class TelegramChannel {
    var sent: seq<SendCall>

    constructor ()
      ensures sent == []
    {
      sent := [];
    }

    /** Deliver `msg`, splitting its content with `split`. */
    method Send(msg: OutboundMessage, split: string -> seq<string>)
      modifies this
      ensures sent == old(sent) + CallsTo(msg.chatId, Deliveries(msg.content, split))
    {
      if NoContent(msg.content) {
        return;
      }
      SendChunks(msg.chatId, split(msg.content));
    }

    /** The per-chunk loop of `send`: one transport call per chunk that is
        not blank, in the order of the chunks. */
    method SendChunks(chatId: string, chunks: seq<string>)
      modifies this
      ensures sent == old(sent) + CallsTo(chatId, NonBlankChunks(chunks))
    {
      var i := 0;
      while i < |chunks|
        invariant 0 <= i <= |chunks|
        invariant sent == old(sent) + CallsTo(chatId, NonBlankChunks(chunks[..i]))
      {
        var chunk := chunks[i];
        if !IsBlank(chunk) {
          sent := sent + [SendCall(chatId, chunk)];
        }
        SendStep(chatId, chunks, i);
        i := i + 1;
      }
      assert chunks[..i] == chunks;
    }
  }

  /** One step of the loop in `SendChunks`: the calls for the first `i + 1` chunks
      are those for the first `i`, followed by one call if chunk `i` is not
      blank. */
  lemma SendStep(chatId: string, chunks: seq<string>, i: int)
    requires 0 <= i < |chunks|
    ensures CallsTo(chatId, NonBlankChunks(chunks[..i + 1])) ==
            CallsTo(chatId, NonBlankChunks(chunks[..i])) +
            (if IsBlank(chunks[i]) then [] else [SendCall(chatId, chunks[i])])
  {
    assert chunks[..i + 1] == chunks[..i] + [chunks[i]];
    NonBlankChunksAppend(chunks[..i], [chunks[i]]);
    CallsToAppend(chatId, NonBlankChunks(chunks[..i]), NonBlankChunks([chunks[i]]));
  }

  /** Filtering distributes over concatenation: it keeps the order of the
      chunks and decides each chunk on its own. */
  lemma {:induction false} NonBlankChunksAppend(a: seq<string>, b: seq<string>)
    ensures NonBlankChunks(a + b) == NonBlankChunks(a) + NonBlankChunks(b)
  {
    if a == [] {
      assert a + b == b;
    } else {
      assert (a + b)[1..] == a[1..] + b;
      NonBlankChunksAppend(a[1..], b);
    }
  }

  lemma {:induction false} CallsToAppend(chatId: string, a: seq<string>, b: seq<string>)
    ensures CallsTo(chatId, a + b) == CallsTo(chatId, a) + CallsTo(chatId, b)
  {
  }

  /** The kept chunks are exactly the chunks of the input that have a
      non-whitespace character. */
  lemma {:induction false} NonBlankChunksKeepsExactlyNonBlank(chunks: seq<string>)
    ensures forall c :: c in NonBlankChunks(chunks) <==> c in chunks && !IsBlank(c)
  {
    if chunks != [] {
      NonBlankChunksKeepsExactlyNonBlank(chunks[1..]);
      assert forall c :: c in chunks <==> c == chunks[0] || c in chunks[1..];
    }
  }

  /** The whole-message guard holds exactly for blank content and for
      content that strips to the sentinel. */
  lemma NoContentIff(content: string)
    ensures NoContent(content) <==> IsBlank(content) || Strip(content) == EmptySentinel
  {
    StripEmptyIffBlank(content);
  }

  /** The guard is checked first: a message with no content sends nothing,
      whatever the splitter would return. */
  lemma NoContentSendsNothing(content: string, split: string -> seq<string>)
    requires NoContent(content)
    ensures Deliveries(content, split) == []
  {
  }

  /** What is sent is drawn from the splitter's output: never more calls than
      chunks, every sent text is a chunk with a non-whitespace character, and
      every such chunk is sent. */
  lemma DeliveriesAreNonBlankChunks(content: string, split: string -> seq<string>)
    requires !NoContent(content)
    ensures |Deliveries(content, split)| <= |split(content)|
    ensures forall t :: t in Deliveries(content, split) <==> t in split(content) && !IsBlank(t)
  {
    NonBlankChunksKeepsExactlyNonBlank(split(content));
  }

  /** Content with a non-whitespace character that the splitter leaves whole
      is delivered in exactly one call. */
  lemma SingleChunkSentOnce(content: string, split: string -> seq<string>)
    requires !NoContent(content) && split(content) == [content]
    ensures Deliveries(content, split) == [content]
  {
    NoContentIff(content);
  }

  /** The whitespace-only contents of the channel's tests send nothing. */
  lemma WhitespaceOnlySendsNothing(split: string -> seq<string>)
    ensures forall w | w in ["   ", "\t", "\n", "\r\n", "  \n  "] :: Deliveries(w, split) == []
  {
    forall w | w in ["   ", "\t", "\n", "\r\n", "  \n  "] ensures Deliveries(w, split) == [] {
      assert IsBlank(w);
      NoContentIff(w);
    }
  }

  /** The sentinel and the empty string send nothing. */
  lemma SentinelAndEmptySendNothing(split: string -> seq<string>)
    ensures Deliveries(EmptySentinel, split) == []
    ensures Deliveries("", split) == []
  {
    assert Strip(EmptySentinel) == EmptySentinel;
  }

  /** "Hello, world!", left whole by the splitter, is one call. */
  lemma HelloWorldSentOnce(split: string -> seq<string>)
    requires split("Hello, world!") == ["Hello, world!"]
    ensures Deliveries("Hello, world!", split) == ["Hello, world!"]
  {
    assert Strip("Hello, world!") == "Hello, world!";
  }

  /** A splitter yielding ["Hello", "   ", "World"] leads to two calls, for
      "Hello" and then "World". */
  lemma WhitespaceChunkSkipped(split: string -> seq<string>)
    requires split("Hello   World") == ["Hello", "   ", "World"]
    ensures Deliveries("Hello   World", split) == ["Hello", "World"]
  {
    assert Strip("Hello   World") == "Hello   World";
    var chunks := ["Hello", "   ", "World"];
    assert !IsWhitespace(chunks[0][0]) && !IsWhitespace(chunks[2][0]);
    assert IsBlank(chunks[1]);
    assert NonBlankChunks(chunks[2..]) == [chunks[2]];
    assert NonBlankChunks(chunks[1..]) == [chunks[2]];
  }
}
