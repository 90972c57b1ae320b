/**
 * The chat screen's handlers: sending a message with optimistic display and
 * rollback, deleting, starting a new chat, and selecting the first chat.
 * Toasts, scrolling and rendering are not modelled; the stream's outcome and
 * the delete request's success are parameters.
 */
module ChatInterface {
  import opened Wrappers
  import opened Text
  import opened Domain
  import ClientApi
  import QueryCache
  import StreamingHook
  import ChatMessages

  /** The signed-in user, as far as the screen uses it. */
  datatype UserInfo = UserInfo(language: string)

  /** The screen's state: the input box, the chosen model, the user, the streaming flag, the messages and the cached list. */
  datatype Ui = Ui(input: string, model: string, user: Option<UserInfo>, isStreaming: bool,
                   view: ChatMessages.MessageState, list: QueryCache.ChatList)

  /** What a send asks the server for. */
  datatype Request = Request(model: string, messages: seq<Message>, chatId: Option<string>)

  /** `user?.language || "en"`. */
  function UserLanguage(user: Option<UserInfo>): string
  {
    if user.Some? && user.value.language != "" then user.value.language else "en"
  }

  /** Sending is refused for blank input, without a user, or while a reply is streaming. */
  predicate SendRefused(ui: Ui)
  {
    Trim(ui.input) == "" || ui.user.None? || ui.isStreaming
  }

  /**
   * The screen's reaction to one callback: a chunk overwrites the placeholder
   * with the text so far; completion adopts the saved chat only when none was
   * selected at send time; an error removes the user message and the placeholder.
   */
  function OnCallback(st: ChatMessages.MessageState, cb: StreamingHook.Callback, selected: Option<QueryCache.ClientChat>,
                      model: string, language: string): ChatMessages.MessageState
  {
    match cb
    case ChunkCb(_, fullText) => ChatMessages.UpdateLastAssistantMessage(st, fullText)
    case CompleteCb(_, chat, _) =>
      if chat.Some? && selected.None? then ChatMessages.UpdateCurrentChatData(st, chat.value.id, chat.value.title, model, language)
      else st
    case ErrorCb(_) => ChatMessages.RemoveLastMessages(st, 2)
  }

  /** The callbacks applied in order. */
  function OnCallbacks(st: ChatMessages.MessageState, cbs: seq<StreamingHook.Callback>, selected: Option<QueryCache.ClientChat>,
                       model: string, language: string): ChatMessages.MessageState
  {
    if |cbs| == 0 then st
    else OnCallback(OnCallbacks(st, cbs[..|cbs| - 1], selected, model, language), cbs[|cbs| - 1], selected, model, language)
  }

  /** While chunks arrive, the placeholder always shows the text so far and nothing else changes. */
  lemma {:induction false} ChunksFillPlaceholder(base: seq<Message>, current: Option<QueryCache.ClientChat>, texts: seq<string>,
                                                  selected: Option<QueryCache.ClientChat>, model: string, language: string)
    ensures var st := ChatMessages.MessageState(base + [Message(Assistant, "")], current);
      OnCallbacks(st, StreamingHook.ChunkCallbacks(texts), selected, model, language)
        == ChatMessages.MessageState(base + [Message(Assistant, StreamingHook.Concat(texts))], current)
  {
    if |texts| > 0 {
      var init := texts[..|texts| - 1];
      ChunksFillPlaceholder(base, current, init, selected, model, language);
      var cbs := StreamingHook.ChunkCallbacks(texts);
      assert cbs[..|cbs| - 1] == StreamingHook.ChunkCallbacks(init);
      var prior := base + [Message(Assistant, StreamingHook.Concat(init))];
      assert prior[..|base|] == base;
      assert prior[|base| := Message(Assistant, StreamingHook.Concat(texts))] == base + [Message(Assistant, StreamingHook.Concat(texts))];
    }
  }

  /**
   * The messages after a send's callbacks: an error leaves the messages from
   * before the send; completion leaves them followed by the user message and
   * the whole reply, and adopts the saved chat only when none was selected.
   */
  lemma Settled(base: seq<Message>, userMessage: Message, current: Option<QueryCache.ClientChat>, texts: seq<string>,
                final: StreamingHook.Callback, model: string, language: string)
    requires final.ErrorCb? || final.CompleteCb?
    ensures var st := ChatMessages.MessageState(base + [userMessage] + [Message(Assistant, "")], current);
      var v := OnCallbacks(st, StreamingHook.ChunkCallbacks(texts) + [final], current, model, language);
      var full := StreamingHook.Concat(texts);
      && (final.ErrorCb? ==> v == ChatMessages.MessageState(base, current))
      && (final.CompleteCb? ==> v.messages == base + [userMessage, Message(Assistant, full)])
      && (final.CompleteCb? && final.chat.Some? && current.None? ==>
            v.currentChat == Some(QueryCache.ClientChat(final.chat.value.id, final.chat.value.title, model, language, v.messages)))
      && (final.CompleteCb? && (final.chat.None? || current.Some?) ==> v.currentChat == current)
  {
    var sent := base + [userMessage];
    var cbs := StreamingHook.ChunkCallbacks(texts) + [final];
    assert cbs[..|cbs| - 1] == StreamingHook.ChunkCallbacks(texts);
    ChunksFillPlaceholder(sent, current, texts, current, model, language);
    var filled := sent + [Message(Assistant, StreamingHook.Concat(texts))];
    assert filled[..|base|] == base;
    assert filled == base + [userMessage, Message(Assistant, StreamingHook.Concat(texts))];
  }

  /**
   * `handleSendMessage`, with the stream's outcome given. A refused send
   * changes nothing. Otherwise the input is cleared, the user message and an
   * empty placeholder are shown, the request carries the earlier messages and
   * the new one, and the stream's callbacks fill the placeholder. On success
   * the placeholder holds the whole reply; on an error both added messages are
   * removed again.
   */
  method HandleSendMessage(ui: Ui, outcome: ClientApi.Outcome) returns (r: Ui, request: Option<Request>)
    ensures SendRefused(ui) ==> r == ui && request.None?
    ensures !SendRefused(ui) ==>
      && request == Some(Request(ui.model, ui.view.messages + [Message(User, ui.input)], ChatMessages.IdOf(ui.view.currentChat)))
      && r.input == "" && !r.isStreaming && r.model == ui.model && r.user == ui.user
    ensures !SendRefused(ui) && outcome.end.Threw? ==> r.view == ui.view && r.list == ui.list
    ensures !SendRefused(ui) && !outcome.end.Threw? ==>
      var full := StreamingHook.Concat(StreamingHook.ChunkTexts(outcome.emitted));
      var last := StreamingHook.LastChat(outcome.emitted);
      var chat := if last.Some? then StreamingHook.ChatRefOf(last.value) else None;
      && r.view.messages == ui.view.messages + [Message(User, ui.input), Message(Assistant, full)]
      && (chat.Some? && ui.view.currentChat.None? ==>
            r.view.currentChat == Some(QueryCache.ClientChat(chat.value.id, chat.value.title, ui.model, UserLanguage(ui.user), r.view.messages)))
      && (chat.None? || ui.view.currentChat.Some? ==> r.view.currentChat == ui.view.currentChat)
      && (chat.Some? ==> r.list.Some? && |r.list.value| > 0 && r.list.value[0].id == chat.value.id
                         && r.list.value[0].messages == r.view.messages)
      && (chat.None? ==> r.list == ui.list)
  {
    if SendRefused(ui) {
      return ui, None;
    }
    var content := ui.input;
    var (s1, userMessage) := ChatMessages.AddUserMessage(ui.view, content);
    var s2 := ChatMessages.AddEmptyAssistantMessage(s1);
    var sent := ui.view.messages + [userMessage];
    request := Some(Request(ui.model, sent, ChatMessages.IdOf(ui.view.currentChat)));
    var run := StreamingHook.StreamChat(outcome, sent, ui.list);
    var language := UserLanguage(ui.user);
    var view := OnCallbacks(s2, run.callbacks, ui.view.currentChat, ui.model, language);

    var texts := StreamingHook.ChunkTexts(outcome.emitted);
    var final := run.callbacks[|run.callbacks| - 1];
    SplitLast(run.callbacks);
    Settled(ui.view.messages, userMessage, ui.view.currentChat, texts, final, ui.model, language);
    if !outcome.end.Threw? {
      var full := StreamingHook.Concat(texts);
      var last := StreamingHook.LastChat(outcome.emitted);
      var chat := if last.Some? then StreamingHook.ChatRefOf(last.value) else None;
      assert final == StreamingHook.CompleteCb(full, chat, sent + [Message(Assistant, full)]);
      assert view.messages == ui.view.messages + [Message(User, ui.input), Message(Assistant, full)];
      if chat.Some? {
        var streamed := StreamingHook.StreamedChat(chat.value, sent, full);
        assert run.list == StreamingHook.UpsertFront(ui.list, streamed);
        assert run.list.value[0] == streamed;
        SnocSnoc(ui.view.messages, userMessage, Message(Assistant, full));
      }
    }
    r := Ui("", ui.model, ui.user, run.states[|run.states| - 1].isStreaming, view, run.list);
  }

  lemma SnocSnoc<T>(s: seq<T>, x: T, y: T)
    ensures s + [x] + [y] == s + [x, y]
  {
  }

  lemma SplitLast<T>(s: seq<T>)
    requires |s| > 0
    ensures s == s[..|s| - 1] + [s[|s| - 1]]
  {
  }

  /** `handleKeyPress`: Enter without Shift sends; any other key changes nothing. */
  method HandleKeyPress(ui: Ui, key: string, shiftKey: bool, outcome: ClientApi.Outcome) returns (r: Ui, request: Option<Request>)
    ensures !(key == "Enter" && !shiftKey) ==> r == ui && request.None?
    ensures key == "Enter" && !shiftKey && SendRefused(ui) ==> r == ui && request.None?
    ensures key == "Enter" && !shiftKey && !SendRefused(ui) ==> request.Some? && r.input == ""
  {
    if key == "Enter" && !shiftKey {
      r, request := HandleSendMessage(ui, outcome);
    } else {
      r, request := ui, None;
    }
  }

  /**
   * `handleDeleteChat`: a cancelled confirmation changes nothing; deleting the
   * selected chat clears the messages and selection before the request, even
   * if it then fails; only a successful request removes the chat from the list.
   */
  function HandleDeleteChat(ui: Ui, chatId: string, confirmed: bool, deleted: bool): (r: Ui)
    ensures !confirmed ==> r == ui
    ensures confirmed && ChatMessages.IdOf(ui.view.currentChat) == Some(chatId) ==> r.view == ChatMessages.Empty
    ensures confirmed && ChatMessages.IdOf(ui.view.currentChat) != Some(chatId) ==> r.view == ui.view
    ensures confirmed && deleted ==> r.list == QueryCache.DeleteChatUpdate(ui.list, chatId)
    ensures !deleted ==> r.list == ui.list
    ensures r.input == ui.input && r.model == ui.model && r.user == ui.user && r.isStreaming == ui.isStreaming
  {
    if !confirmed then ui
    else
      var view := if ChatMessages.IdOf(ui.view.currentChat) == Some(chatId) then ChatMessages.ClearMessages(ui.view) else ui.view;
      var list := if deleted then QueryCache.DeleteChatUpdate(ui.list, chatId) else ui.list;
      ui.(view := view, list := list)
  }

  /** A confirmed, successful delete leaves no chat with that id in a cached list. */
  lemma DeletedChatUnlisted(ui: Ui, chatId: string)
    requires ui.list.Some?
    ensures var r := HandleDeleteChat(ui, chatId, true, true);
      r.list.Some? && forall c :: c in r.list.value ==> c.id != chatId
  {
    QueryCache.WithoutIdMembers(ui.list.value, chatId);
  }

  /** `handleCreateNewChat`: without a user nothing happens; otherwise the selection, messages and input are cleared. */
  function HandleCreateNewChat(ui: Ui): (r: Ui)
    ensures ui.user.None? ==> r == ui
    ensures ui.user.Some? ==> r == ui.(view := ChatMessages.Empty, input := "")
  {
    if ui.user.None? then ui else ui.(view := ChatMessages.ClearMessages(ui.view), input := "")
  }

  /** The first-chat effect: with chats listed and none selected, the first one is selected and its messages shown. */
  function SelectFirstChat(ui: Ui): (r: Ui)
    ensures (ui.list.Some? && |ui.list.value| > 0 && ui.view.currentChat.None?) ==>
      r == ui.(view := ChatMessages.MessageState(ui.list.value[0].messages, Some(ui.list.value[0])))
    ensures !(ui.list.Some? && |ui.list.value| > 0 && ui.view.currentChat.None?) ==> r == ui
  {
    var chats := if ui.list.Some? then ui.list.value else [];
    if |chats| > 0 && ui.view.currentChat.None? then ui.(view := ChatMessages.SetCurrentChat(ui.view, Some(chats[0])))
    else ui
  }

  /** The mount effect: with a user signed in, the chat list query is marked for refetching. */
  function RefreshOnMount(q: QueryCache.Queries, user: Option<UserInfo>): (r: QueryCache.Queries)
    ensures user.None? ==> r == q
    ensures r.entries.Keys == q.entries.Keys
    ensures user.Some? && QueryCache.ChatsList() in q.entries ==> r.entries[QueryCache.ChatsList()]
  {
    if user.Some? then QueryCache.Invalidate(q, QueryCache.ChatsList()) else q
  }
}
