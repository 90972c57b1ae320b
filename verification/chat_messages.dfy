/**
 * The client's message-list state: the messages shown and the selected chat.
 * Each hook operation is a state transformer; message ids and timestamps are
 * not modelled.
 */
module ChatMessages {
  import opened Wrappers
  import opened Domain
  import QueryCache

  datatype MessageState = MessageState(messages: seq<Message>, currentChat: Option<QueryCache.ClientChat>)

  /** The state before anything is selected, and after `clearMessages`. */
  const Empty: MessageState := MessageState([], None)

  /** `chat?.id`. */
  function IdOf(chat: Option<QueryCache.ClientChat>): Option<string>
  {
    if chat.Some? then Some(chat.value.id) else None
  }

  /**
   * `setCurrentChat`: selecting the chat already selected (by id, or nothing
   * when nothing is selected) keeps the messages shown; selecting another
   * shows its messages, and selecting nothing shows none.
   */
  function SetCurrentChat(st: MessageState, chat: Option<QueryCache.ClientChat>): (r: MessageState)
    ensures r.currentChat == chat
    ensures IdOf(st.currentChat) == IdOf(chat) ==> r.messages == st.messages
    ensures IdOf(st.currentChat) != IdOf(chat) && chat.Some? ==> r.messages == chat.value.messages
    ensures IdOf(st.currentChat) != IdOf(chat) && chat.None? ==> r.messages == []
  {
    if IdOf(st.currentChat) == IdOf(chat) then MessageState(st.messages, chat)
    else MessageState(if chat.Some? then chat.value.messages else [], chat)
  }

  /** Selecting the same chat twice is the same as once. */
  lemma SetCurrentChatIdempotent(st: MessageState, chat: Option<QueryCache.ClientChat>)
    ensures SetCurrentChat(SetCurrentChat(st, chat), chat) == SetCurrentChat(st, chat)
  {
  }

  /** `addUserMessage`: appends one user message and returns it. */
  function AddUserMessage(st: MessageState, content: string): (out: (MessageState, Message))
    ensures out.1 == Message(User, content)
    ensures out.0.messages == st.messages + [out.1] && out.0.currentChat == st.currentChat
  {
    var m := Message(User, content);
    (st.(messages := st.messages + [m]), m)
  }

  /** `addEmptyAssistantMessage`: appends the empty assistant placeholder. */
  function AddEmptyAssistantMessage(st: MessageState): (r: MessageState)
    ensures |r.messages| == |st.messages| + 1 && r.messages[..|st.messages|] == st.messages
    ensures r.messages[|st.messages|] == Message(Assistant, "") && r.currentChat == st.currentChat
  {
    var r := st.(messages := st.messages + [Message(Assistant, "")]);
    assert r.messages[..|st.messages|] == st.messages;
    r
  }

  /**
   * `updateLastAssistantMessage`: the last message's content is replaced
   * when it is an assistant message; otherwise nothing changes.
   */
  function UpdateLastAssistantMessage(st: MessageState, content: string): (r: MessageState)
    ensures |r.messages| == |st.messages| && r.currentChat == st.currentChat
    ensures forall k :: 0 <= k < |st.messages| - 1 ==> r.messages[k] == st.messages[k]
    ensures |st.messages| > 0 && st.messages[|st.messages| - 1].role == Assistant ==>
      r.messages[|st.messages| - 1] == Message(Assistant, content)
    ensures !(|st.messages| > 0 && st.messages[|st.messages| - 1].role == Assistant) ==> r == st
  {
    var n := |st.messages|;
    if n > 0 && st.messages[n - 1].role == Assistant then
      st.(messages := st.messages[n - 1 := Message(Assistant, content)])
    else st
  }

  /** The last update wins: updating twice is updating once with the later text. */
  lemma UpdateLastTwice(st: MessageState, a: string, b: string)
    ensures UpdateLastAssistantMessage(UpdateLastAssistantMessage(st, a), b) == UpdateLastAssistantMessage(st, b)
  {
  }

  /** The number of messages `slice(0, -count)` keeps out of `n`. */
  function KeptBySlice(n: nat, count: int): (k: nat)
    ensures k <= n
    ensures count > 0 ==> k == (if n >= count then n - count else 0)
    ensures count == 0 ==> k == 0
    ensures count < 0 ==> k == (if -count <= n then -count else n)
  {
    var end := -count;
    if end < 0 then (if n + end >= 0 then n + end else 0)
    else if end <= n then end else n
  }

  /** `removeLastMessages(count)`: `messages.slice(0, -count)`; the hook's default count is 1. */
  function RemoveLastMessages(st: MessageState, count: int): (r: MessageState)
    ensures r.messages == st.messages[..KeptBySlice(|st.messages|, count)] && r.currentChat == st.currentChat
  {
    st.(messages := st.messages[..KeptBySlice(|st.messages|, count)])
  }

  const DefaultRemoveCount: int := 1

  /** Removing nothing (count 0) empties the list, as `slice(0, -0)` does; removing more than there is empties it too. */
  lemma RemoveEdgeCases(st: MessageState, count: int)
    requires count == 0 || count >= |st.messages|
    ensures RemoveLastMessages(st, count).messages == []
  {
  }

  /** Removing what was just appended restores the list: the user message, or the user message and the placeholder. */
  lemma RemoveUndoesAdd(st: MessageState, content: string)
    ensures RemoveLastMessages(AddUserMessage(st, content).0, 1) == st
    ensures RemoveLastMessages(AddEmptyAssistantMessage(AddUserMessage(st, content).0), 2) == st
  {
    var n := |st.messages|;
    assert (st.messages + [Message(User, content)])[..n] == st.messages;
    assert (st.messages + [Message(User, content)] + [Message(Assistant, "")])[..n] == st.messages;
  }

  /** `clearMessages`. */
  function ClearMessages(st: MessageState): (r: MessageState)
    ensures r.messages == [] && r.currentChat.None?
  {
    Empty
  }

  /** `updateCurrentChatData`: the chat now saved becomes the selection, holding the messages shown, which stay as they are. */
  function UpdateCurrentChatData(st: MessageState, id: string, title: string, model: string, language: string): (r: MessageState)
    ensures r.messages == st.messages
    ensures r.currentChat == Some(QueryCache.ClientChat(id, title, model, language, st.messages))
  {
    st.(currentChat := Some(QueryCache.ClientChat(id, title, model, language, st.messages)))
  }

  /** After adopting the saved chat, selecting it again keeps the messages shown. */
  lemma AdoptThenSelect(st: MessageState, id: string, title: string, model: string, language: string,
                        chat: QueryCache.ClientChat)
    requires chat.id == id
    ensures SetCurrentChat(UpdateCurrentChatData(st, id, title, model, language), Some(chat)).messages == st.messages
  {
  }
}
