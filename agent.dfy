/** The agent loop's handling of one inbound message, reduced to what decides
    the ephemeral history boundary: the turn is recorded in the session of
    its conversation in its original form, while the request handed to the
    language model carries the user's text wrapped with a boundary marker.
    The provider itself is outside the model; its reply is a parameter. */
module Agent {
  import opened Text
  import opened Events

  /** The boundary marker that separates the history from the live request. */
  const Marker: string := "--- END OF HISTORY ---"

  datatype Option<+T> = None | Some(value: T)

  datatype Role = User | Assistant | Tool

  /** One part of a list content: a text part, or a part (an image, say)
      that carries no text. */
  datatype Part = TextPart(text: string) | MediaPart(url: string)

  /** The content of a history entry: a string or a list of parts. */
  datatype Content = Plain(text: string) | Parts(parts: seq<Part>)

  datatype Entry = Entry(role: Role, content: Content)

  /** The text of a part; a part without text reads as "". */
  function PartText(p: Part): string {
    match p
    case TextPart(t) => t
    case MediaPart(_) => ""
  }

  /** `sub` occurs in the content: in the string, or in the text of one of
      the parts. */
  predicate Mentions(c: Content, sub: string) {
    match c
    case Plain(t) => Contains(t, sub)
    case Parts(ps) => exists k | 0 <= k < |ps| :: Contains(PartText(ps[k]), sub)
  }

  predicate HasMarker(e: Entry) {
    Mentions(e.content, Marker)
  }

  /** No entry of the history carries the marker. */
  predicate MarkerFree(history: seq<Entry>) {
    forall k | 0 <= k < |history| :: !HasMarker(history[k])
  }

  /** No history of the store carries the marker. */
  predicate StoreMarkerFree(store: map<string, seq<Entry>>) {
    forall key | key in store :: MarkerFree(store[key])
  }

  /** The key of a conversation's session: `channel + ":" + chat_id`. */
  function SessionKey(channel: string, chatId: string): (key: string)
    ensures |key| == |channel| + 1 + |chatId| && key[|channel|] == ':'
    ensures key[..|channel|] == channel && key[|channel| + 1..] == chatId
  {
    channel + ":" + chatId
  }

  /** Distinct conversations get distinct sessions, as long as channel names
      hold no colon (the chat id may). */
  lemma {:induction false} SessionKeyInjective(c1: string, d1: string, c2: string, d2: string)
    requires ':' !in c1 && ':' !in c2
    requires SessionKey(c1, d1) == SessionKey(c2, d2)
    ensures c1 == c2 && d1 == d2
  {
    var key := SessionKey(c1, d1);
    assert key[|c1|] == ':' && SessionKey(c2, d2)[|c2|] == ':';
    assert c1 == key[..|c1|] == c2;
    assert d1 == key[|c1| + 1..] == d2;
  }

  /** The ephemeral form of the user's text, as the provider sees it: both
      the marker and the original text occur in it. */
  function Wrap(text: string): (w: string)
    ensures Contains(w, Marker) && Contains(w, text)
  {
    var head := Marker + "\n";
    ContainsConcat(head, text);
    assert Marker <= (head + text)[0..];
    head + text
  }

  /** The request for a turn: the stored history followed by the wrapped
      user turn. */
  function RenderRequest(history: seq<Entry>, text: string): (req: seq<Entry>)
    ensures |req| == |history| + 1 && req[..|history|] == history
    ensures req[|history|].role == User
    ensures Mentions(req[|history|].content, Marker) && Mentions(req[|history|].content, text)
  {
    var req := history + [Entry(User, Plain(Wrap(text)))];
    assert req[..|history|] == history;
    req
  }

  /** The request's last user-role entry, if it has one. */
  function LastUserEntry(request: seq<Entry>): (r: Option<Entry>)
    ensures r.None? ==> forall k | 0 <= k < |request| :: request[k].role != User
    ensures r.Some? ==> exists k | 0 <= k < |request| ::
      request[k] == r.value && r.value.role == User &&
      forall j | k < j < |request| :: request[j].role != User
  {
    if request == [] then None
    else if request[|request| - 1].role == User then Some(request[|request| - 1])
    else
      var r := LastUserEntry(request[..|request| - 1]);
      assert forall j | 0 <= j < |request| - 1 :: request[..|request| - 1][j] == request[j];
      r
  }

  /** The provider sees the marker together with the original text in the
      last user turn of the request. */
  lemma RequestCarriesMarker(history: seq<Entry>, text: string)
    ensures var r := LastUserEntry(RenderRequest(history, text));
      r.Some? && r.value.role == User &&
      Mentions(r.value.content, Marker) && Mentions(r.value.content, text)
  {
  }

  /** Rendering leaves the history untouched, and over a marker-free history
      the wrapped turn is the one and only entry of the request that carries
      the marker. */
  lemma RequestWrapsOnlyTheLiveTurn(history: seq<Entry>, text: string)
    requires MarkerFree(history)
    ensures var req := RenderRequest(history, text);
      |req| == |history| + 1 && req[..|history|] == history &&
      forall k | 0 <= k < |req| :: HasMarker(req[k]) <==> k == |history|
  {
    var req := RenderRequest(history, text);
    assert req[..|history|] == history;
    forall k | 0 <= k < |history| ensures req[k] == history[k] { }
  }

  /** What a store holds under `key`: empty if the session does not exist yet. */
  function Prior(store: map<string, seq<Entry>>, key: string): seq<Entry> {
    if key in store then store[key] else []
  }

  /** The store after a turn with user text `text` and reply `reply` in the
      session `key`: both turns appended in their original form. */
  function AfterTurn(store: map<string, seq<Entry>>, key: string, text: string, reply: string): (after: map<string, seq<Entry>>)
    ensures after.Keys == store.Keys + {key}
    ensures |after[key]| == |Prior(store, key)| + 2
    ensures forall other | other in store && other != key :: after[other] == store[other]
  {
    store[key := Prior(store, key) + [Entry(User, Plain(text)), Entry(Assistant, Plain(reply))]]
  }

  /** A turn keeps the store free of the marker when neither the user's text
      nor the reply carries it. */
  lemma AfterTurnMarkerFree(store: map<string, seq<Entry>>, key: string, text: string, reply: string)
    requires StoreMarkerFree(store)
    requires !Contains(text, Marker) && !Contains(reply, Marker)
    ensures StoreMarkerFree(AfterTurn(store, key, text, reply))
  {
    var h := AfterTurn(store, key, text, reply)[key];
    var p := Prior(store, key);
    forall k | 0 <= k < |h| ensures !HasMarker(h[k]) {
      if k < |p| {
        assert h[k] == p[k];
      }
    }
  }

  /** After a turn the session exists, starts with what it held before (the
      store only appends), holds the original user text without the marker
      in a user entry, and no other session changes. */
  lemma AfterTurnAppends(store: map<string, seq<Entry>>, key: string, text: string, reply: string)
    requires !Contains(text, Marker)
    ensures var after := AfterTurn(store, key, text, reply);
      key in after &&
      |after[key]| == |Prior(store, key)| + 2 &&
      after.Keys == store.Keys + {key} &&
      after[key][..|Prior(store, key)|] == Prior(store, key) &&
      (exists e | e in after[key] :: e.role == User && Mentions(e.content, text) && !HasMarker(e)) &&
      forall other | other in store && other != key :: other in after && after[other] == store[other]
  {
    var after := AfterTurn(store, key, text, reply);
    var e := Entry(User, Plain(text));
    ContainsConcat(text, []);
    assert text + [] == text;
    assert after[key][|Prior(store, key)|] == e;
  }

  /** The session store: one history per conversation key. */
  class SessionManager {
    var sessions: map<string, seq<Entry>>

    constructor ()
      ensures sessions == map[]
    {
      sessions := map[];
    }

    /** `sessions.get(key)`: the history under `key`, if that session exists. */
    function Get(key: string): (r: Option<seq<Entry>>)
      reads this
      ensures r.Some? <==> key in sessions
      ensures r.Some? ==> r.value == sessions[key]
    {
      if key in sessions then Some(sessions[key]) else None
    }

    /** The session under `key`, created empty on first use. */
    method GetOrCreate(key: string) returns (history: seq<Entry>)
      modifies this
      ensures sessions == old(sessions)[key := Prior(old(sessions), key)]
      ensures history == Prior(old(sessions), key)
    {
      if key !in sessions {
        sessions := sessions[key := []];
      }
      history := sessions[key];
    }

    /** Append `entry` to the session under `key`. */
    method Append(key: string, entry: Entry)
      modifies this
      ensures sessions == old(sessions)[key := Prior(old(sessions), key) + [entry]]
    {
      sessions := sessions[key := Prior(sessions, key) + [entry]];
    }
  }

  /** The agent loop with the session store it owns. */
  class AgentLoop {
    const store: SessionManager

    constructor ()
      ensures fresh(store) && store.sessions == map[]
    {
      store := new SessionManager();
    }

    /** Handle `msg` when the provider answers the returned request with
        `reply` (and no tool calls): record both turns unwrapped, hand the
        wrapped turn to the provider only, and publish the reply. */
    method ProcessMessage(msg: InboundMessage, reply: string) returns (request: seq<Entry>, out: OutboundMessage)
      modifies store
      ensures StoreMarkerFree(old(store.sessions)) && !Contains(msg.content, Marker) && !Contains(reply, Marker)
        ==> StoreMarkerFree(store.sessions)
      ensures var key := SessionKey(msg.channel, msg.chatId);
        store.sessions == AfterTurn(old(store.sessions), key, msg.content, reply) &&
        request == RenderRequest(Prior(old(store.sessions), key), msg.content)
      ensures out == OutboundMessage(msg.channel, msg.chatId, reply)
    {
      var key := SessionKey(msg.channel, msg.chatId);
      var history := store.GetOrCreate(key);
      request := RenderRequest(history, msg.content);
      store.Append(key, Entry(User, Plain(msg.content)));
      store.Append(key, Entry(Assistant, Plain(reply)));
      assert history + [Entry(User, Plain(msg.content))] + [Entry(Assistant, Plain(reply))] ==
             history + [Entry(User, Plain(msg.content)), Entry(Assistant, Plain(reply))];
      assert store.sessions == AfterTurn(old(store.sessions), key, msg.content, reply);
      if StoreMarkerFree(old(store.sessions)) && !Contains(msg.content, Marker) && !Contains(reply, Marker) {
        AfterTurnMarkerFree(old(store.sessions), key, msg.content, reply);
      }
      out := OutboundMessage(msg.channel, msg.chatId, reply);
    }
  }

  /** The conversation of the history-wrapper tests: "ping" on the cli
      channel, chat "direct", answered with "pong". */
  method PingPong() returns (request: seq<Entry>, history: Option<seq<Entry>>)
    ensures history.Some? && MarkerFree(history.value)
    ensures history.value == [Entry(User, Plain("ping")), Entry(Assistant, Plain("pong"))]
    ensures var r := LastUserEntry(request); r.Some? && Mentions(r.value.content, Marker) && Mentions(r.value.content, "ping")
  {
    var loop := new AgentLoop();
    var msg := InboundMessage("cli", "user", "direct", "ping");
    assert !Contains("ping", Marker) && !Contains("pong", Marker);
    var out;
    request, out := loop.ProcessMessage(msg, "pong");
    assert request == RenderRequest([], "ping");
    RequestCarriesMarker([], "ping");
    history := loop.store.Get(SessionKey("cli", "direct"));
  }
}
