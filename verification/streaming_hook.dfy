/**
 * The client's streaming hook: it consumes what the stream decoder yields,
 * accumulates the reply, reports each chunk, and on completion upserts the
 * streamed chat at the head of the cached chat list. The React state updates
 * are recorded as the sequence of states the hook sets, and the callbacks as
 * the sequence of calls made.
 */
module StreamingHook {
  import opened Wrappers
  import opened Domain
  import Json
  import ClientApi
  import QueryCache

  /** `{ isStreaming, streamingMessage, error }`. */
  datatype State = State(isStreaming: bool, streamingMessage: string, error: Option<string>)

  /** The state before any stream and after `reset`. */
  const Idle: State := State(false, "", None)

  /** The `{ id, title }` a done event carries. */
  datatype ChatRef = ChatRef(id: string, title: string)

  datatype Callback =
    | ChunkCb(chunk: string, fullText: string)
    | CompleteCb(fullResponse: string, chat: Option<ChatRef>, messages: seq<Message>)
    | ErrorCb(message: string)

  /** What one `streamChat` call does: the states set, the callbacks made, and the cached list afterwards. */
  datatype Run = Run(states: seq<State>, callbacks: seq<Callback>, list: QueryCache.ChatList)

  /** The text each yield adds to the reply: a chunk's string form, nothing for a chat. */
  function TextOf(y: ClientApi.Yield): seq<string>
  {
    if y.ChunkOut? then [Json.ToJsString(y.chunk)] else []
  }

  /** The chunk texts of the yields, in order. */
  function ChunkTexts(ys: seq<ClientApi.Yield>): seq<string>
  {
    if |ys| == 0 then [] else ChunkTexts(ys[..|ys| - 1]) + TextOf(ys[|ys| - 1])
  }

  /** The concatenation of the texts, in order. */
  function Concat(ss: seq<string>): string
  {
    if |ss| == 0 then "" else Concat(ss[..|ss| - 1]) + ss[|ss| - 1]
  }

  /** The last chat yielded, if any. */
  function LastChat(ys: seq<ClientApi.Yield>): Option<Json.Json>
  {
    if |ys| == 0 then None
    else if ys[|ys| - 1].ChatOut? then Some(ys[|ys| - 1].chat)
    else LastChat(ys[..|ys| - 1])
  }

  /** The chat's `id` and `title` when both are strings. */
  function ChatRefOf(chat: Json.Json): (r: Option<ChatRef>)
    ensures r.Some? <==> (Json.Get(chat, "id").Some? && Json.Get(chat, "id").value.JStr?
                          && Json.Get(chat, "title").Some? && Json.Get(chat, "title").value.JStr?)
    ensures r.Some? ==> Json.Get(chat, "id") == Some(Json.JStr(r.value.id)) && Json.Get(chat, "title") == Some(Json.JStr(r.value.title))
  {
    match (Json.Get(chat, "id"), Json.Get(chat, "title"))
    case (Some(JStr(id)), Some(JStr(title))) => Some(ChatRef(id, title))
    case _ => None
  }

  /** The chat the hook caches for a stream: fixed model and language, the messages sent plus the reply. */
  function StreamedChat(c: ChatRef, messages: seq<Message>, full: string): QueryCache.ClientChat
  {
    QueryCache.ClientChat(c.id, c.title, "llama", "en", messages + [Message(Assistant, full)])
  }

  /**
   * The list update after a stream: no list becomes the one-chat list; a
   * listed id is replaced and moved to the head; otherwise the chat is
   * prepended.
   */
  function UpsertFront(prev: QueryCache.ChatList, chat: QueryCache.ClientChat): (r: QueryCache.ChatList)
    ensures r.Some? && |r.value| > 0 && r.value[0] == chat
    ensures prev.None? ==> r == Some([chat])
    ensures prev.Some? && !QueryCache.HasId(prev.value, chat.id) ==> r == Some([chat] + prev.value)
    ensures prev.Some? && QueryCache.HasId(prev.value, chat.id) ==>
      var i := QueryCache.FindIndex(prev.value, chat.id).value;
      r == Some([chat] + prev.value[..i] + prev.value[i + 1..])
  {
    match prev
    case None => Some([chat])
    case Some(chats) =>
      match QueryCache.FindIndex(chats, chat.id)
      case Some(i) => Some([chat] + chats[..i] + chats[i + 1..])
      case None => Some([chat] + chats)
  }

  /** Ids are listed at most once. */
  predicate UniqueIds(chats: seq<QueryCache.ClientChat>)
  {
    forall i, j :: 0 <= i < j < |chats| ==> chats[i].id != chats[j].id
  }

  /** With unique ids, the upsert is removing the id and prepending the chat. */
  lemma UpsertIsDeleteThenPrepend(chats: seq<QueryCache.ClientChat>, chat: QueryCache.ClientChat)
    requires UniqueIds(chats)
    ensures UpsertFront(Some(chats), chat) == Some([chat] + QueryCache.WithoutId(chats, chat.id))
  {
    match QueryCache.FindIndex(chats, chat.id)
    case None =>
      QueryCache.WithoutAbsentId(chats, chat.id);
    case Some(i) =>
      WithoutListedId(chats, i, chat.id);
      assert [chat] + chats[..i] + chats[i + 1..] == [chat] + (chats[..i] + chats[i + 1..]);
  }

  /** Removing the id held only at index `i` removes exactly that entry. */
  lemma WithoutListedId(chats: seq<QueryCache.ClientChat>, i: nat, id: string)
    requires UniqueIds(chats) && i < |chats| && chats[i].id == id
    ensures QueryCache.WithoutId(chats, id) == chats[..i] + chats[i + 1..]
  {
    var a, c, b := chats[..i], chats[i], chats[i + 1..];
    assert chats == (a + [c]) + b;
    IdOnlyAt(chats, i);
    QueryCache.WithoutAbsentId(a, id);
    QueryCache.WithoutAbsentId(b, id);
    QueryCache.WithoutIdAppend(a, [c], id);
    assert QueryCache.WithoutId([c], id) == [];
    assert QueryCache.WithoutId(a + [c], id) == a;
    QueryCache.WithoutIdAppend(a + [c], b, id);
  }

  /** With unique ids, the id at index `i` is held nowhere before or after it. */
  lemma IdOnlyAt(chats: seq<QueryCache.ClientChat>, i: nat)
    requires UniqueIds(chats) && i < |chats|
    ensures !QueryCache.HasId(chats[..i], chats[i].id) && !QueryCache.HasId(chats[i + 1..], chats[i].id)
  {
    var a, b := chats[..i], chats[i + 1..];
    forall k | 0 <= k < |a|
      ensures a[k].id != chats[i].id
    {
      assert a[k] == chats[k];
    }
    forall k | 0 <= k < |b|
      ensures b[k].id != chats[i].id
    {
      assert b[k] == chats[i + 1 + k];
    }
  }

  /** The upsert keeps ids unique. */
  lemma UpsertKeepsUnique(chats: seq<QueryCache.ClientChat>, chat: QueryCache.ClientChat)
    requires UniqueIds(chats)
    ensures UniqueIds(UpsertFront(Some(chats), chat).value)
  {
    UpsertIsDeleteThenPrepend(chats, chat);
    var rest := QueryCache.WithoutId(chats, chat.id);
    var r := [chat] + rest;
    forall i, j | 0 <= i < j < |r|
      ensures r[i].id != r[j].id
    {
      if i == 0 {
        assert r[j] == rest[j - 1];
      } else {
        assert r[i] == rest[i - 1] && r[j] == rest[j - 1];
        WithoutIdUnique(chats, chat.id);
      }
    }
  }

  lemma {:induction false} WithoutIdUnique(chats: seq<QueryCache.ClientChat>, id: string)
    requires UniqueIds(chats)
    ensures UniqueIds(QueryCache.WithoutId(chats, id))
  {
    if |chats| > 0 {
      var tail := chats[1..];
      assert UniqueIds(tail) by {
        forall i, j | 0 <= i < j < |tail|
          ensures tail[i].id != tail[j].id
        {
          assert tail[i] == chats[i + 1] && tail[j] == chats[j + 1];
        }
      }
      WithoutIdUnique(tail, id);
      var rest := QueryCache.WithoutId(tail, id);
      if chats[0].id != id {
        var r := [chats[0]] + rest;
        forall i, j | 0 <= i < j < |r|
          ensures r[i].id != r[j].id
        {
          if i == 0 {
            assert r[j] == rest[j - 1];
            QueryCache.WithoutIdMembers(tail, id);
            assert rest[j - 1] in tail;
            var m :| 0 <= m < |tail| && tail[m] == rest[j - 1];
            assert tail[m] == chats[m + 1];
          } else {
            assert r[i] == rest[i - 1] && r[j] == rest[j - 1];
          }
        }
      }
    }
  }

  /** The states set while the chunks `texts` arrive: the streaming start, then one per chunk. */
  function ChunkStates(texts: seq<string>): seq<State>
  {
    if |texts| == 0 then [State(true, "", None)]
    else ChunkStates(texts[..|texts| - 1]) + [State(true, Concat(texts), None)]
  }

  /** The chunk callbacks made while the chunks `texts` arrive. */
  function ChunkCallbacks(texts: seq<string>): seq<Callback>
  {
    if |texts| == 0 then []
    else ChunkCallbacks(texts[..|texts| - 1]) + [ChunkCb(texts[|texts| - 1], Concat(texts))]
  }

  /** Each chunk's state shows the reply so far. */
  lemma {:induction false} ChunkStatesShowReply(texts: seq<string>)
    ensures |ChunkStates(texts)| == |texts| + 1 && ChunkStates(texts)[0] == State(true, "", None)
    ensures forall k :: 1 <= k <= |texts| ==> ChunkStates(texts)[k] == State(true, Concat(texts[..k]), None)
  {
    if |texts| > 0 {
      var init := texts[..|texts| - 1];
      ChunkStatesShowReply(init);
      assert texts[..|texts|] == texts;
      forall k | 1 <= k <= |init|
        ensures ChunkStates(texts)[k] == State(true, Concat(texts[..k]), None)
      {
        assert texts[..k] == init[..k];
      }
    }
  }

  /** Each chunk's callback gets the chunk and the reply so far. */
  lemma {:induction false} ChunkCallbacksReport(texts: seq<string>)
    ensures |ChunkCallbacks(texts)| == |texts|
    ensures forall k :: 0 <= k < |texts| ==> ChunkCallbacks(texts)[k] == ChunkCb(texts[k], Concat(texts[..k + 1]))
  {
    if |texts| > 0 {
      var init := texts[..|texts| - 1];
      ChunkCallbacksReport(init);
      assert texts[..|texts|] == texts;
      forall k | 0 <= k < |init|
        ensures ChunkCallbacks(texts)[k] == ChunkCb(texts[k], Concat(texts[..k + 1]))
      {
        assert texts[..k + 1] == init[..k + 1];
      }
    }
  }

  lemma ChunkTextsStep(ys: seq<ClientApi.Yield>, i: nat)
    requires i < |ys|
    ensures ChunkTexts(ys[..i + 1]) == ChunkTexts(ys[..i]) + TextOf(ys[i])
    ensures LastChat(ys[..i + 1]) == if ys[i].ChatOut? then Some(ys[i].chat) else LastChat(ys[..i])
  {
    assert ys[..i + 1][..i] == ys[..i];
  }

  /** One more chunk text extends the reply, the states and the callbacks. */
  lemma ChunkArrives(texts: seq<string>, t: string)
    ensures Concat(texts + [t]) == Concat(texts) + t
    ensures ChunkStates(texts + [t]) == ChunkStates(texts) + [State(true, Concat(texts) + t, None)]
    ensures ChunkCallbacks(texts + [t]) == ChunkCallbacks(texts) + [ChunkCb(t, Concat(texts) + t)]
  {
    assert (texts + [t])[..|texts|] == texts;
  }

  /** The `for await` loop: consumes the yields, setting a state and reporting each chunk. */
  method Consume(ys: seq<ClientApi.Yield>) returns (full: string, chatData: Option<Json.Json>, states: seq<State>, callbacks: seq<Callback>)
    ensures full == Concat(ChunkTexts(ys)) && chatData == LastChat(ys)
    ensures states == ChunkStates(ChunkTexts(ys)) && callbacks == ChunkCallbacks(ChunkTexts(ys))
  {
    full, chatData := "", None;
    var texts: seq<string> := [];
    states, callbacks := [State(true, "", None)], [];
    var i := 0;
    while i < |ys|
      invariant 0 <= i <= |ys|
      invariant texts == ChunkTexts(ys[..i]) && full == Concat(texts)
      invariant chatData == LastChat(ys[..i])
      invariant states == ChunkStates(texts) && callbacks == ChunkCallbacks(texts)
    {
      ChunkTextsStep(ys, i);
      var y := ys[i];
      if y.ChunkOut? {
        var text := Json.ToJsString(y.chunk);
        ChunkArrives(texts, text);
        texts := texts + [text];
        full := full + text;
        states := states + [State(true, full, None)];
        callbacks := callbacks + [ChunkCb(text, full)];
      } else {
        chatData := Some(y.chat);
      }
      i := i + 1;
    }
    assert ys[..i] == ys;
  }

  /**
   * `streamChat`: the stream's yields are consumed in order; each chunk
   * extends the reply and is reported; a throw ends in the error state with
   * the list untouched; otherwise the idle state is set, the streamed chat (if
   * any) is upserted into the list, and completion is reported.
   */
  method StreamChat(outcome: ClientApi.Outcome, messages: seq<Message>, list: QueryCache.ChatList) returns (run: Run)
    ensures |run.states| > 0 && |run.callbacks| > 0
    ensures run.states[..|run.states| - 1] == ChunkStates(ChunkTexts(outcome.emitted))
    ensures run.callbacks[..|run.callbacks| - 1] == ChunkCallbacks(ChunkTexts(outcome.emitted))
    ensures outcome.end.Threw? ==>
      run.states[|run.states| - 1] == State(false, "", Some(outcome.end.error.message))
      && run.callbacks[|run.callbacks| - 1] == ErrorCb(outcome.end.error.message)
      && run.list == list
    ensures !outcome.end.Threw? ==>
      var full := Concat(ChunkTexts(outcome.emitted));
      var chat := if LastChat(outcome.emitted).Some? then ChatRefOf(LastChat(outcome.emitted).value) else None;
      run.states[|run.states| - 1] == Idle
      && run.callbacks[|run.callbacks| - 1] == CompleteCb(full, chat, messages + [Message(Assistant, full)])
      && run.list == (if chat.Some? then UpsertFront(list, StreamedChat(chat.value, messages, full)) else list)
  {
    var full, chatData, states, callbacks := Consume(outcome.emitted);
    if outcome.end.Threw? {
      var message := outcome.end.error.message;
      assert (states + [State(false, "", Some(message))])[..|states|] == states;
      assert (callbacks + [ErrorCb(message)])[..|callbacks|] == callbacks;
      return Run(states + [State(false, "", Some(message))], callbacks + [ErrorCb(message)], list);
    }
    var chat := if chatData.Some? then ChatRefOf(chatData.value) else None;
    var newList := if chat.Some? then UpsertFront(list, StreamedChat(chat.value, messages, full)) else list;
    var complete := CompleteCb(full, chat, messages + [Message(Assistant, full)]);
    assert (states + [Idle])[..|states|] == states;
    assert (callbacks + [complete])[..|callbacks|] == callbacks;
    run := Run(states + [Idle], callbacks + [complete], newList);
  }

  /** Concatenating one more text extends the concatenation by it. */
  lemma {:induction false} ConcatAppend(a: seq<string>, b: seq<string>)
    ensures Concat(a + b) == Concat(a) + Concat(b)
    decreases |b|
  {
    if |b| == 0 {
      assert a + b == a;
    } else {
      var init, last := b[..|b| - 1], b[|b| - 1];
      assert (a + b)[..|a + b| - 1] == a + init;
      assert (a + b)[|a + b| - 1] == last;
      ConcatAppend(a, init);
      assert Concat(a + b) == Concat(a) + Concat(init) + last;
      assert Concat(b) == Concat(init) + last;
    }
  }

  /** The chunk texts of consecutive yields are the chunk texts of each part. */
  lemma {:induction false} ChunkTextsAppend(a: seq<ClientApi.Yield>, b: seq<ClientApi.Yield>)
    ensures ChunkTexts(a + b) == ChunkTexts(a) + ChunkTexts(b)
    decreases |b|
  {
    if |b| == 0 {
      assert a + b == a;
    } else {
      assert (a + b)[..|a + b| - 1] == a + b[..|b| - 1];
      ChunkTextsAppend(a, b[..|b| - 1]);
    }
  }
}
