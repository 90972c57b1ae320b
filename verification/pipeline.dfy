/**
 * The chat pipeline across the wire: events framed by the server's SSE
 * encoder, decoded by the client's stream generator, and accumulated by the
 * streaming hook into the cached chat list. The server's streaming handler is
 * not part of this model, so the events below are the shapes its event type
 * allows (`chunk`, `done`, `chat`, `error`).
 */
module Pipeline {
  import opened Wrappers
  import opened Text
  import opened Domain
  import Json
  import Sse
  import ClientApi
  import QueryCache
  import StreamingHook

  /** One frame received in one read decodes to exactly the step for the event it carries. */
  lemma FrameDecodes(d: Json.Json)
    ensures ClientApi.Lines(Split(Sse.Frame(d), '\n')) == ClientApi.EventStep(d)
  {
    Sse.FrameLines(d);
    Sse.FrameLinePayload(d);
    var line := "data: " + Json.Ser(d);
    assert ClientApi.LineStep(line) == ClientApi.EventStep(d);
    assert ["", ""][1..] == [""];
    assert [line, "", ""][1..] == ["", ""];
    assert ClientApi.Lines(["", ""]) == ClientApi.Continue([]);
    match ClientApi.EventStep(d)
    case Continue(o) =>
      assert o + [] == o;
    case Stop(o) =>
    case Fail(o, m) =>
  }

  /** The reads a client receives when every frame arrives in a read of its own. */
  function FrameReads(events: seq<Json.Json>): (r: seq<string>)
    ensures |r| == |events|
  {
    if |events| == 0 then [] else [Sse.Frame(events[0])] + FrameReads(events[1..])
  }

  /**
   * The outcome the events stand for: each event's step in turn, until one
   * is a done event (the generator returns) or an error event (it throws).
   */
  function Decode(events: seq<Json.Json>): ClientApi.Outcome
  {
    if |events| == 0 then ClientApi.Outcome([], ClientApi.BodyEnded)
    else
      match ClientApi.EventStep(events[0])
      case Continue(o) => var rest := Decode(events[1..]); ClientApi.Outcome(o + rest.emitted, rest.end)
      case Stop(o) => ClientApi.Outcome(o, ClientApi.Done)
      case Fail(o, m) => ClientApi.Outcome(o, ClientApi.Threw(ClientApi.ApiError(m, None)))
  }

  /** Frames delivered one per read are decoded event by event: nothing is lost, merged or reordered. */
  lemma {:induction false} FramesDecode(events: seq<Json.Json>)
    ensures ClientApi.Stream(FrameReads(events)) == Decode(events)
  {
    if |events| > 0 {
      var parts := FrameReads(events);
      assert parts[0] == Sse.Frame(events[0]);
      assert parts[1..] == FrameReads(events[1..]);
      FrameDecodes(events[0]);
      FramesDecode(events[1..]);
    }
  }

  /**
   * Any server frame cut in two inside its `data: ` prefix is lost
   * altogether, although the same frame in one read decodes to its event.
   */
  lemma ServerFrameSplitLost(d: Json.Json, k: nat)
    requires 0 < k < 6
    ensures var f := Sse.Frame(d);
      ClientApi.Stream([f[..k], f[k..]]) == ClientApi.Outcome([], ClientApi.BodyEnded)
      && ClientApi.Stream([f]) == Decode([d])
  {
    Json.SerHasNoNewline(d);
    ClientApi.SplitFrameDropped(Json.Ser(d), k);
    FramesDecode([d]);
    assert FrameReads([d]) == [Sse.Frame(d)];
  }

  /** A chunk event. */
  function ChunkEvent(text: string): Json.Json
  {
    Json.JObj([Json.Member("chunk", Json.JStr(text)), Json.Member("done", Json.JBool(false))])
  }

  /** The closing event, carrying the saved chat. */
  function DoneEvent(id: string, title: string): Json.Json
  {
    Json.JObj([Json.Member("done", Json.JBool(true)), Json.Member("chat", ChatJson(id, title))])
  }

  function ChatJson(id: string, title: string): Json.Json
  {
    Json.JObj([Json.Member("id", Json.JStr(id)), Json.Member("title", Json.JStr(title))])
  }

  /** The chunk events for a reply streamed in pieces. */
  function ChunkEvents(texts: seq<string>): (r: seq<Json.Json>)
    ensures |r| == |texts|
  {
    if |texts| == 0 then [] else [ChunkEvent(texts[0])] + ChunkEvents(texts[1..])
  }

  /** What the generator pieces for the chunk events: a chunk for each non-empty piece. */
  function ChunkYields(texts: seq<string>): seq<ClientApi.Yield>
  {
    if |texts| == 0 then []
    else (if texts[0] != "" then [ClientApi.ChunkOut(Json.JStr(texts[0]))] else []) + ChunkYields(texts[1..])
  }

  /** Looking a key up in a two-member object: the later member wins. */
  lemma GetPair(a: Json.Member, b: Json.Member, key: string)
    ensures Json.Get(Json.JObj([a, b]), key)
      == if b.key == key then Some(b.value) else if a.key == key then Some(a.value) else None
  {
    assert [a, b][..1] == [a];
    assert [a][..0] == [];
    assert Json.Lookup([a], key) == if a.key == key then Some(a.value) else Json.Lookup([], key);
    assert Json.Lookup([a, b], key) == if b.key == key then Some(b.value) else Json.Lookup([a], key);
  }

  lemma ChunkEventStep(text: string)
    ensures ClientApi.EventStep(ChunkEvent(text))
      == ClientApi.Continue(if text != "" then [ClientApi.ChunkOut(Json.JStr(text))] else [])
  {
    GetPair(Json.Member("chunk", Json.JStr(text)), Json.Member("done", Json.JBool(false)), "error");
    GetPair(Json.Member("chunk", Json.JStr(text)), Json.Member("done", Json.JBool(false)), "chunk");
    GetPair(Json.Member("chunk", Json.JStr(text)), Json.Member("done", Json.JBool(false)), "done");
    assert Json.Get(ChunkEvent(text), "error").None?;
    assert Json.Get(ChunkEvent(text), "chunk") == Some(Json.JStr(text));
    assert Json.Get(ChunkEvent(text), "done") == Some(Json.JBool(false));
  }

  lemma DoneEventStep(id: string, title: string)
    ensures ClientApi.EventStep(DoneEvent(id, title)) == ClientApi.Stop([ClientApi.ChatOut(ChatJson(id, title))])
  {
    GetPair(Json.Member("done", Json.JBool(true)), Json.Member("chat", ChatJson(id, title)), "error");
    GetPair(Json.Member("done", Json.JBool(true)), Json.Member("chat", ChatJson(id, title)), "chunk");
    GetPair(Json.Member("done", Json.JBool(true)), Json.Member("chat", ChatJson(id, title)), "done");
    GetPair(Json.Member("done", Json.JBool(true)), Json.Member("chat", ChatJson(id, title)), "chat");
    assert Json.Get(DoneEvent(id, title), "error").None?;
    assert Json.Get(DoneEvent(id, title), "chunk").None?;
    assert Json.Get(DoneEvent(id, title), "done") == Some(Json.JBool(true));
    assert Json.Get(DoneEvent(id, title), "chat") == Some(ChatJson(id, title));
  }

  /** A reply in pieces followed by the closing event decodes to its non-empty pieces and the chat, and finishes normally. */
  lemma {:induction false} ReplyDecodes(texts: seq<string>, id: string, title: string)
    ensures Decode(ChunkEvents(texts) + [DoneEvent(id, title)])
      == ClientApi.Outcome(ChunkYields(texts) + [ClientApi.ChatOut(ChatJson(id, title))], ClientApi.Done)
  {
    var events := ChunkEvents(texts) + [DoneEvent(id, title)];
    if |texts| == 0 {
      assert events == [DoneEvent(id, title)];
      DoneEventStep(id, title);
    } else {
      assert events[0] == ChunkEvent(texts[0]);
      assert events[1..] == ChunkEvents(texts[1..]) + [DoneEvent(id, title)];
      ChunkEventStep(texts[0]);
      ReplyDecodes(texts[1..], id, title);
      var head := if texts[0] != "" then [ClientApi.ChunkOut(Json.JStr(texts[0]))] else [];
      assert head + (ChunkYields(texts[1..]) + [ClientApi.ChatOut(ChatJson(id, title))])
          == ChunkYields(texts) + [ClientApi.ChatOut(ChatJson(id, title))];
    }
  }

  /** The hook's text for the yielded chunks is the whole reply: empty pieces are skipped but add nothing. */
  lemma {:induction false} YieldsCarryReply(texts: seq<string>)
    ensures StreamingHook.Concat(StreamingHook.ChunkTexts(ChunkYields(texts))) == StreamingHook.Concat(texts)
  {
    if |texts| > 0 {
      var head := if texts[0] != "" then [ClientApi.ChunkOut(Json.JStr(texts[0]))] else [];
      YieldsCarryReply(texts[1..]);
      StreamingHook.ChunkTextsAppend(head, ChunkYields(texts[1..]));
      StreamingHook.ConcatAppend(StreamingHook.ChunkTexts(head), StreamingHook.ChunkTexts(ChunkYields(texts[1..])));
      assert texts == [texts[0]] + texts[1..];
      StreamingHook.ConcatAppend([texts[0]], texts[1..]);
      if texts[0] != "" {
        assert StreamingHook.ChunkTexts(head) == [texts[0]] by {
          assert head[..0] == [];
        }
      } else {
        assert StreamingHook.Concat([texts[0]]) == "" by {
          assert [texts[0]][..0] == [];
        }
      }
    }
  }

  /**
   * A reply streamed in pieces, framed by the server and received one frame
   * per read, reaches the client's cache intact: the stream completes, the
   * hook's reply is the concatenation of the pieces, the completion callback
   * receives it, and the chat at the head of the cached list holds the sent
   * messages followed by exactly that reply.
   */
  method StreamedReplyCached(texts: seq<string>, id: string, title: string, messages: seq<Message>, list: QueryCache.ChatList)
    returns (run: StreamingHook.Run)
    ensures |run.states| > 0 && |run.callbacks| > 0
    ensures var full := StreamingHook.Concat(texts);
      && run.callbacks[|run.callbacks| - 1] == StreamingHook.CompleteCb(full, Some(StreamingHook.ChatRef(id, title)), messages + [Message(Assistant, full)])
      && run.list.Some? && |run.list.value| > 0
      && run.list.value[0] == QueryCache.ClientChat(id, title, "llama", "en", messages + [Message(Assistant, full)])
      && !run.states[|run.states| - 1].isStreaming
  {
    var outcome := ClientApi.Stream(FrameReads(ChunkEvents(texts) + [DoneEvent(id, title)]));
    ReplyOutcome(texts, id, title);
    run := StreamingHook.StreamChat(outcome, messages, list);
  }

  /** What the client receives for a reply in pieces followed by the done event. */
  lemma ReplyOutcome(texts: seq<string>, id: string, title: string)
    ensures var outcome := ClientApi.Stream(FrameReads(ChunkEvents(texts) + [DoneEvent(id, title)]));
      && outcome.end == ClientApi.Done
      && StreamingHook.Concat(StreamingHook.ChunkTexts(outcome.emitted)) == StreamingHook.Concat(texts)
      && StreamingHook.LastChat(outcome.emitted) == Some(ChatJson(id, title))
      && StreamingHook.ChatRefOf(ChatJson(id, title)) == Some(StreamingHook.ChatRef(id, title))
  {
    var events := ChunkEvents(texts) + [DoneEvent(id, title)];
    var outcome := ClientApi.Stream(FrameReads(events));
    FramesDecode(events);
    ReplyDecodes(texts, id, title);
    var pieces := ChunkYields(texts);
    assert outcome.emitted == pieces + [ClientApi.ChatOut(ChatJson(id, title))];
    assert StreamingHook.ChunkTexts(outcome.emitted) == StreamingHook.ChunkTexts(pieces);
    YieldsCarryReply(texts);
    assert StreamingHook.LastChat(outcome.emitted) == Some(ChatJson(id, title));
    GetPair(Json.Member("id", Json.JStr(id)), Json.Member("title", Json.JStr(title)), "id");
    GetPair(Json.Member("id", Json.JStr(id)), Json.Member("title", Json.JStr(title)), "title");
    assert Json.Get(ChatJson(id, title), "id") == Some(Json.JStr(id));
    assert Json.Get(ChatJson(id, title), "title") == Some(Json.JStr(title));
  }

  /**
   * An error event after the chunks makes the client throw with the event's
   * message once the chunks are out; an empty message is falsy, so the client
   * takes the event's `done: true` for a normal finish instead.
   */
  lemma {:induction false} ErrorDecodes(texts: seq<string>, message: string)
    ensures Decode(ChunkEvents(texts) + [Sse.ErrorEvent(message)]).emitted == ChunkYields(texts)
    ensures message != "" ==>
      Decode(ChunkEvents(texts) + [Sse.ErrorEvent(message)]).end == ClientApi.Threw(ClientApi.ApiError(message, None))
    ensures message == "" ==> Decode(ChunkEvents(texts) + [Sse.ErrorEvent(message)]).end == ClientApi.Done
  {
    var events := ChunkEvents(texts) + [Sse.ErrorEvent(message)];
    if |texts| == 0 {
      assert events == [Sse.ErrorEvent(message)];
      GetPair(Json.Member("error", Json.JStr(message)), Json.Member("done", Json.JBool(true)), "error");
      GetPair(Json.Member("error", Json.JStr(message)), Json.Member("done", Json.JBool(true)), "chunk");
      GetPair(Json.Member("error", Json.JStr(message)), Json.Member("done", Json.JBool(true)), "done");
      GetPair(Json.Member("error", Json.JStr(message)), Json.Member("done", Json.JBool(true)), "chat");
      assert Json.Get(Sse.ErrorEvent(message), "error") == Some(Json.JStr(message));
      assert Json.Get(Sse.ErrorEvent(message), "chunk").None?;
      assert Json.Get(Sse.ErrorEvent(message), "done") == Some(Json.JBool(true));
      assert Json.Get(Sse.ErrorEvent(message), "chat").None?;
    } else {
      assert events[0] == ChunkEvent(texts[0]);
      assert events[1..] == ChunkEvents(texts[1..]) + [Sse.ErrorEvent(message)];
      ChunkEventStep(texts[0]);
      ErrorDecodes(texts[1..], message);
      var head := if texts[0] != "" then [ClientApi.ChunkOut(Json.JStr(texts[0]))] else [];
      assert head + ChunkYields(texts[1..]) == ChunkYields(texts);
    }
  }
}
