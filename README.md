# nanobot message pipeline: delivery guard and ephemeral history boundary

This project is a Dafny model of two contracts of the nanobot agent, stated as
the repository's tests pin them down.

- **Telegram delivery guard** (`telegram.dfy`, module `Telegram`).
  `TelegramChannel.send(OutboundMessage)` makes no Bot API call when the
  message's content, once stripped, is empty or is the sentinel
  `[empty message]`. Otherwise it splits the content into chunks. Each chunk
  that is not whitespace-only gets one `send_message` call, in order.
  - The splitter is a parameter, so it can be any function, as the test that
    patches `_split_message` needs.
  - The Bot API is a log field `sent` of `SendCall(chatId, text)` records. The
    log plays the part of the mock's `call_count`.
  - `Deliveries` is the specification function. `Send` and its chunk loop
    `SendChunks` are proved to append exactly `CallsTo(chatId, Deliveries(...))`.
- **Ephemeral history wrapper** (`agent.dfy`, module `Agent`).
  `AgentLoop.ProcessMessage` looks up the session under
  `channel + ":" + chat_id`. It renders the provider request: the stored
  history, then the user text wrapped with the marker `--- END OF HISTORY ---`.
  It then appends the original user text and the assistant reply to the
  session, unwrapped. `SessionManager` is a class whose only field is the map
  from session keys to histories. The methods update that map in place.
  - Entry contents are either a string or a list of parts.
  - The invariant `StoreMarkerFree` says no stored entry, and no text part of
    one, contains the marker. Every turn keeps it, provided the user text and
    the reply do not contain the marker themselves.
  - The provider sees the marker and the original text together in the last
    user-role entry of the request.
- **Text helpers** (`text.dfy`, module `Text`): Python's whitespace class
  (the full `str.isspace()` set), `str.strip()` and the substring test `in`.
- **Envelopes** (`events.dfy`, module `Events`): `InboundMessage` and
  `OutboundMessage`.

Decisions where the tests leave the behaviour open:

- The sentinel is compared with the **stripped** content.
- Chunks that pass the guard are sent unchanged, not stripped.
- The wrapper template is `Marker + "\n" + text`. Only the two substring facts
  about it are proved, so any template with both substrings would do.
- The reply is a parameter of `ProcessMessage`: it is what the provider returned
  for the request that `ProcessMessage` hands back.
- The request is built from the history as it was before the turn, and both
  turns are appended afterwards. Persisting the user turn before the request
  is built, and leaving it out of the request's history, gives the same final
  state and the same request.

## Model

| member | source | states |
|---|---|---|
| Text.IsWhitespace | tests/test_telegram_channel.py:41 | space, tab, newline and carriage return are whitespace, and no printable ASCII character is (the full class is Python's `str.isspace()`) |
| Text.Strip | tests/test_telegram_channel.py:41-47 | `str.strip()`: the result is no longer than the input and neither starts nor ends with whitespace |
| Text.Contains | tests/test_history_wrapper.py:58-61 | Python's `sub in s`: a prefix is contained, and a contained string is no longer than the string containing it |
| Text.StripEmptyIffBlank | tests/test_telegram_channel.py:41-47 | stripping a string leaves nothing exactly when every character is whitespace |
| Text.StripTrims | tests/test_telegram_channel.py:41-47 | what `Strip` returns is the input with a whitespace prefix and a whitespace suffix removed; with `Strip`'s own contract this determines `str.strip()` |
| Telegram.NoContent | tests/test_telegram_channel.py:36-65 | the whole-message guard: whitespace-only content (empty included) and the sentinel itself are guarded |
| Telegram.Deliveries | tests/test_telegram_channel.py:1-5 | the texts `send` hands to the transport: never more than the splitter's chunks, each one of those chunks and each with a non-whitespace character |
| Telegram.NoContentIff | tests/test_telegram_channel.py:36-65 | the whole-message guard holds exactly for whitespace-only content (empty included) and for content that strips to the sentinel |
| Telegram.NoContentSendsNothing | tests/test_telegram_channel.py:1-5 | the whole-message guard comes first: guarded content sends nothing whatever the splitter returns |
| Telegram.NonBlankChunks | tests/test_telegram_channel.py:89-92 | the chunks kept number at most the chunks produced |
| Telegram.NonBlankChunksKeepsExactlyNonBlank | tests/test_telegram_channel.py:5 | a chunk is kept exactly when it occurs in the splitter output and has a non-whitespace character |
| Telegram.NonBlankChunksAppend | tests/test_telegram_channel.py:85-92 | filtering distributes over concatenation, so order is kept and each chunk is judged on its own |
| Telegram.DeliveriesAreNonBlankChunks | tests/test_telegram_channel.py:77-92 | for unguarded content there are never more calls than chunks, and the texts sent are exactly the splitter's chunks that are not blank |
| Telegram.SingleChunkSentOnce | tests/test_telegram_channel.py:68-74 | unguarded content that the splitter leaves whole is delivered in exactly one call carrying that content |
| Telegram.WhitespaceOnlySendsNothing | tests/test_telegram_channel.py:36-47 | "   ", "\t", "\n", "\r\n" and "  \n  " send nothing |
| Telegram.SentinelAndEmptySendNothing | tests/test_telegram_channel.py:50-65 | "[empty message]" and "" send nothing |
| Telegram.HelloWorldSentOnce | tests/test_telegram_channel.py:68-74 | "Hello, world!" as a single chunk is exactly one call with that text |
| Telegram.WhitespaceChunkSkipped | tests/test_telegram_channel.py:77-92 | with the splitter yielding ["Hello", "   ", "World"], the calls are "Hello" then "World" |
| Telegram.CallsTo | tests/test_telegram_channel.py:89-92 | one transport call per delivered text, to the message's chat, in order |
| Telegram.TelegramChannel.constructor | tests/test_telegram_channel.py:21-33 | a fresh channel has made no transport call |
| Telegram.TelegramChannel.Send | tests/test_telegram_channel.py:36-92 | the log grows by exactly the calls for `Deliveries(content, split)` and nothing else |
| Telegram.TelegramChannel.SendChunks | tests/test_telegram_channel.py:85-92 | the per-chunk loop appends one call per non-blank chunk, in chunk order |
| Agent.SessionKey | tests/test_history_wrapper.py:75 | the session key is the channel, a colon, then the chat id (so "cli" and "direct" give "cli:direct") |
| Agent.SessionKeyInjective | tests/test_history_wrapper.py:75-76 | the key `channel:chat_id` determines channel and chat id when channel names hold no colon |
| Agent.Wrap | tests/test_history_wrapper.py:58-61 | the wrapped text contains both the marker and the original text |
| Agent.RenderRequest | tests/test_history_wrapper.py:48-56 | the request is the history unchanged, followed by one user-role entry that mentions both the marker and the original text |
| Agent.LastUserEntry | tests/test_history_wrapper.py:50-52 | returns the user-role entry after which no user-role entry follows, or nothing when there is no user-role entry |
| Agent.RequestCarriesMarker | tests/test_history_wrapper.py:35-61 | the request's last user-role entry exists and mentions both the marker and the original text |
| Agent.RequestWrapsOnlyTheLiveTurn | tests/test_history_wrapper.py:1-6 | rendering keeps the history as a prefix, and over a marker-free history the wrapped turn is the only request entry with the marker |
| Agent.AfterTurn | tests/test_history_wrapper.py:75-78 | a turn adds exactly the session `key` to the store's keys, grows that session by two entries and leaves every other session as it was |
| Agent.AfterTurnMarkerFree | tests/test_history_wrapper.py:78-90 | a turn whose text and reply lack the marker leaves every stored string and text part free of it |
| Agent.AfterTurnAppends | tests/test_history_wrapper.py:104-118 | after a turn the store's keys are the old keys plus `key`, the session has grown by two, keeps its old entries as a prefix, holds a user entry with the original text and without the marker, and no other session changes |
| Agent.SessionManager.constructor | tests/test_history_wrapper.py:24-28 | a new store holds no session |
| Agent.SessionManager.Get | tests/test_history_wrapper.py:75-76 | a lookup finds a history exactly when the key is stored, and it returns that history |
| Agent.SessionManager.GetOrCreate | tests/test_history_wrapper.py:72-76 | the session exists afterwards, an existing one unchanged and a new one empty, and nothing else changes |
| Agent.SessionManager.Append | tests/test_history_wrapper.py:78 | the entry is added at the end of that one session only |
| Agent.AgentLoop.constructor | tests/test_history_wrapper.py:24-28 | a new loop owns a fresh, empty session store |
| Agent.AgentLoop.ProcessMessage | tests/test_history_wrapper.py:43-44 | the store becomes `AfterTurn` of the old store under `channel:chat_id` and stays marker-free when it was so and neither the text nor the reply carries the marker, the request is the rendered wrapped turn, and the reply goes out to the same channel and chat |
| Agent.PingPong | tests/test_history_wrapper.py:93-118 | "ping" answered with "pong" on cli/direct: the session "cli:direct" holds exactly the two plain entries without the marker, and the request's last user entry carries the marker and "ping" |

## Left out

- The message bus and all `async`/`await` behaviour. The bus is only constructed by the tests, and its point is asynchronous transport.
- The Telegram Bot API, its configuration and token, and whatever `send` does to a chunk's text before the call (formatting, parse modes). Only the call log remains.
- The real `_split_message` size-limit algorithm. Its source is not part of this model, and the tests patch it, so it is a parameter.
- Transport failures during `send`. Nothing in the tests makes a call fail, so every call is assumed to succeed.
- The language-model provider, model name, tool definitions and tool-call rounds. The tests always answer without tool calls, so only that path is modelled, with the reply as a parameter.
- The system prompt and any other context the real request adds before the history. They are not observable in the tests.
- The `memory_window` sliding window. The tests pass a value but never observe eviction, so the request (and the store) keep the whole history.
- List-shaped content on the request side. The tests join text parts with spaces before searching them, but the wrapped entry is always a plain string, so that reader is not modelled. List contents are modelled in the store, where every text part is searched separately.
- Provider errors and the user-visible error reply. The tests never make the provider fail.
- Agent.AgentLoop.ProcessMessage: promises a marker-free store only when the store was marker-free before the turn and neither the user text nor the reply contains the marker; otherwise the source would persist the marker too.
- Persistence to disk (`tmp_path` workspace) and concurrency across conversations.
