/**
 * The chat controller: the request schema, the choice between a new chat and
 * an append, and the statuses it answers with. Request bodies are parsed JSON
 * values; the service, the store and the cache are the ones of `ChatService`.
 */
module ChatController {
  import opened Wrappers
  import opened Domain
  import opened Json
  import opened ChatRepo
  import Providers
  import ChatService
  import opened ControllerUtils

  /** A body the schema accepts. */
  datatype ChatRequest = ChatRequest(chatId: Option<string>, model: ModelKind, messages: seq<Message>)

  // ---------------------------------------------------------------------------
  // The schema
  // ---------------------------------------------------------------------------

  function RoleNamed(name: string): (r: Option<Role>)
    ensures r.Some? <==> name == "user" || name == "assistant"
    ensures r.Some? ==> RoleName(r.value) == name
  {
    if name == "user" then Some(User) else if name == "assistant" then Some(Assistant) else None
  }

  /** One message: an object whose role is `user` or `assistant` and whose content is a non-empty string; other properties are ignored. */
  function ParseMessage(v: Json): (r: Option<Message>)
    ensures r.Some? ==> r.value.content != ""
    ensures r.Some? ==> v.JObj? && Get(v, "role") == Some(JStr(RoleName(r.value.role))) && Get(v, "content") == Some(JStr(r.value.content))
  {
    match (Get(v, "role"), Get(v, "content"))
    case (Some(JStr(role)), Some(JStr(content))) =>
      if RoleNamed(role).Some? && content != "" then Some(Message(RoleNamed(role).value, content)) else None
    case _ => None
  }

  /** Every item must be a valid message; one bad item rejects the array. */
  function ParseMessages(items: seq<Json>): (r: Option<seq<Message>>)
    ensures r.Some? <==> forall k :: 0 <= k < |items| ==> ParseMessage(items[k]).Some?
    ensures r.Some? ==> |r.value| == |items| && forall k :: 0 <= k < |items| ==> r.value[k] == ParseMessage(items[k]).value
  {
    if |items| == 0 then Some([])
    else
      InitAgrees(items);
      match (ParseMessages(items[..|items| - 1]), ParseMessage(items[|items| - 1]))
      case (Some(ms), Some(m)) => Some(ms + [m])
      case _ => None
  }

  lemma InitAgrees<T>(s: seq<T>)
    requires |s| > 0
    ensures forall k :: 0 <= k < |s| - 1 ==> s[..|s| - 1][k] == s[k]
  {
  }

  /** `model`: absent means `"llama"`; otherwise one of the seven kind names. */
  function ParseModel(v: Option<Json>): (r: Option<ModelKind>)
    ensures v.None? ==> r == Some(Llama)
    ensures v.Some? && r.Some? ==> v.value == JStr(KindName(r.value))
  {
    match v
    case None => Some(Llama)
    case Some(JStr(name)) => KindNamed(name)
    case Some(_) => None
  }

  /** `chatId`: absent, or a string (possibly empty). */
  function ParseChatId(v: Option<Json>): (r: Option<Option<string>>)
    ensures v.None? ==> r == Some(None)
    ensures r.Some? && r.value.Some? ==> v == Some(JStr(r.value.value))
    ensures v.Some? && v.value.JStr? ==> r == Some(Some(v.value.s))
  {
    match v
    case None => Some(None)
    case Some(JStr(id)) => Some(Some(id))
    case Some(_) => None
  }

  /** `chatSchema.safeParse`: an object with a non-empty array of valid messages, a known model and an optional string id. */
  function ParseChatBody(body: Json): (r: Option<ChatRequest>)
    ensures r.Some? ==> body.JObj?
    ensures r.Some? ==> |r.value.messages| > 0 && forall k :: 0 <= k < |r.value.messages| ==> r.value.messages[k].content != ""
    ensures r.Some? && Get(body, "model").None? ==> r.value.model == Llama
  {
    if !body.JObj? then None
    else
      match (ParseChatId(Get(body, "chatId")), ParseModel(Get(body, "model")), Get(body, "messages"))
      case (Some(id), Some(model), Some(JArr(items))) =>
        if |items| > 0 && ParseMessages(items).Some? then Some(ChatRequest(id, model, ParseMessages(items).value))
        else None
      case _ => None
  }

  // ---------------------------------------------------------------------------
  // The body the client sends, and its acceptance
  // ---------------------------------------------------------------------------

  /** `JSON.stringify({ model, messages, chatId })` as the client builds it: an undefined id is left out. */
  function RequestBody(req: ChatRequest): Json
  {
    var items := seq(|req.messages|, k requires 0 <= k < |req.messages| => ChatService.MessageJson(req.messages[k]));
    var base := [Member("model", JStr(KindName(req.model))), Member("messages", JArr(items))];
    JObj(if req.chatId.Some? then base + [Member("chatId", JStr(req.chatId.value))] else base)
  }

  lemma MessageRoundTrip(m: Message)
    requires m.content != ""
    ensures ParseMessage(ChatService.MessageJson(m)) == Some(m)
  {
    var j := ChatService.MessageJson(m);
    var role := Member("role", JStr(RoleName(m.role)));
    var content := Member("content", JStr(m.content));
    LookupSnoc([role], content, "role");
    LookupSnoc([role], content, "content");
    LookupSnoc([], role, "role");
    assert [role] == [] + [role];
    assert [role, content] == [role] + [content];
  }

  /**
   * Every request the client can build from non-empty messages is accepted
   * as exactly that request, so nothing the client sends is altered by the
   * schema; the empty history and an empty message are what it rejects.
   */
  lemma RequestAccepted(req: ChatRequest)
    requires |req.messages| > 0 && forall k :: 0 <= k < |req.messages| ==> req.messages[k].content != ""
    ensures ParseChatBody(RequestBody(req)) == Some(req)
  {
    var items := seq(|req.messages|, k requires 0 <= k < |req.messages| => ChatService.MessageJson(req.messages[k]));
    forall k | 0 <= k < |items|
      ensures ParseMessage(items[k]) == Some(req.messages[k])
    {
      MessageRoundTrip(req.messages[k]);
    }
    assert ParseMessages(items).value == req.messages;
    var m0 := Member("model", JStr(KindName(req.model)));
    var m1 := Member("messages", JArr(items));
    var base := [m0, m1];
    assert base == [m0] + [m1];
    assert [m0] == [] + [m0];
    LookupSnoc([], m0, "model");
    LookupSnoc([], m0, "messages");
    LookupSnoc([], m0, "chatId");
    LookupSnoc([m0], m1, "model");
    LookupSnoc([m0], m1, "messages");
    LookupSnoc([m0], m1, "chatId");
    KindNameRoundTrip(req.model);
    if req.chatId.Some? {
      var m2 := Member("chatId", JStr(req.chatId.value));
      LookupSnoc(base, m2, "model");
      LookupSnoc(base, m2, "messages");
      LookupSnoc(base, m2, "chatId");
    }
  }

  /** The same holds for the body as it travels: serialised by the client, parsed by the server. */
  lemma WireRequestAccepted(req: ChatRequest)
    requires |req.messages| > 0 && forall k :: 0 <= k < |req.messages| ==> req.messages[k].content != ""
    ensures Parse(Ser(RequestBody(req))).Some?
    ensures ParseChatBody(Parse(Ser(RequestBody(req))).value) == Some(req)
  {
    ParseSer(RequestBody(req));
    RequestAccepted(req);
  }

  // ---------------------------------------------------------------------------
  // Handlers
  // ---------------------------------------------------------------------------

  /** A truthy `chatId` names a chat to append to; an absent or empty one starts a new chat. */
  predicate AppendsTo(req: ChatRequest)
  {
    req.chatId.Some? && req.chatId.value != ""
  }

  /** The service call a valid request dispatches to. */
  function Dispatch(b: ChatService.Backend, user: AuthUser, req: ChatRequest, ask: (string, string) -> Providers.Upstream)
    : (out: (ChatService.Backend, Result<ChatView, string>))
  {
    var language := LanguageOf(UserLanguage(Some(user)));
    if AppendsTo(req) then ChatService.AddMessageToChat(b, user.id, req.chatId.value, req.model, req.messages, language, ask)
    else ChatService.CreateChatWithAI(b, user.id, req.model, req.messages, language, ask)
  }

  /** What `createChat` answers once the service has run: the chat with the translated `chat_saved` message, or 500 when the service threw. */
  function SavedResponse(r: Result<ChatView, string>, t: string -> string): (resp: Response)
    ensures resp.status == ServerError <==> r.Err?
    ensures r.Ok? ==> resp.status == Ok200 && Get(resp.body, "chat") == Some(ChatService.ChatJson(r.value))
  {
    match r
    case Err(e) => AsyncHandler(Err(e), t)
    case Ok(v) =>
      var chat := Member("chat", ChatService.ChatJson(v));
      LookupSnoc([], chat, "chat");
      assert [chat] == [] + [chat];
      AsyncHandler(Ok(SendSuccess([chat], Some(t("chat_saved")))), t)
  }

  /**
   * `createChat`: a rejected body is answered with 400 and nothing else
   * happens; a valid one is dispatched, a service failure becomes a 500, and
   * success answers with the chat and the translated `chat_saved` message.
   */
  function CreateChat(b: ChatService.Backend, user: AuthUser, body: Json, t: string -> string,
                      ask: (string, string) -> Providers.Upstream): (out: (ChatService.Backend, Response))
    ensures ParseChatBody(body).None? ==> out == (b, SendError(BadRequest, t("error_invalid_input")))
    ensures ParseChatBody(body).Some? ==>
      var (b2, r) := Dispatch(b, user, ParseChatBody(body).value, ask);
      && out.0 == b2
      && (out.1.status == ServerError <==> r.Err?)
      && (r.Ok? ==> out.1.status == Ok200 && Get(out.1.body, "chat") == Some(ChatService.ChatJson(r.value)))
    ensures out.1.status in {Ok200, BadRequest, ServerError}
  {
    var (resp, data) := ValidateRequest(ParseChatBody(body), t);
    if resp.Some? then (b, resp.value)
    else
      var (b2, r) := Dispatch(b, user, data.value, ask);
      (b2, SavedResponse(r, t))
  }

  /** A valid request for a new chat always succeeds and stores exactly one new chat, owned by the caller. */
  lemma NewChatSaved(b: ChatService.Backend, user: AuthUser, body: Json, t: string -> string,
                     ask: (string, string) -> Providers.Upstream)
    requires ParseChatBody(body).Some? && !AppendsTo(ParseChatBody(body).value)
    ensures CreateChat(b, user, body, t, ask).1.status == Ok200
    ensures var after := CreateChat(b, user, body, t, ask).0.store.chats;
      |after| == |b.store.chats| + 1 && after[..|b.store.chats|] == b.store.chats && after[|b.store.chats|].userId == user.id
  {
    var after := CreateChat(b, user, body, t, ask).0.store.chats;
    var v := Dispatch(b, user, ParseChatBody(body).value, ask).1.value;
    assert after == b.store.chats + [v.chat];
    assert after[..|b.store.chats|] == b.store.chats;
  }

  /** Appending to a chat the caller does not own is a 500 and leaves the store as it was. */
  lemma ForeignAppendRefused(b: ChatService.Backend, user: AuthUser, body: Json, t: string -> string,
                             ask: (string, string) -> Providers.Upstream)
    requires ParseChatBody(body).Some? && AppendsTo(ParseChatBody(body).value)
    requires !Owned(b.store.chats, ParseChatBody(body).value.chatId.value, user.id)
    ensures CreateChat(b, user, body, t, ask).1.status == ServerError
    ensures CreateChat(b, user, body, t, ask).0.store == b.store
  {
  }

  /** `listChats`: the service's list under `chats`, or 500 when reading it fails. */
  function ListChats(b: ChatService.Backend, user: AuthUser, t: string -> string): (out: (ChatService.Backend, Response))
    ensures out.0 == ChatService.ListUserChats(b, user.id).0
    ensures ChatService.ListUserChats(b, user.id).1.Ok? ==>
      out.1.status == Ok200 && Get(out.1.body, "chats") == Some(ChatService.ListUserChats(b, user.id).1.value)
    ensures ChatService.ListUserChats(b, user.id).1.Err? ==> out.1.status == ServerError
  {
    var (b2, r) := ChatService.ListUserChats(b, user.id);
    match r
    case Err(e) => (b2, AsyncHandler(Err(e), t))
    case Ok(list) =>
      LookupSnoc([], Member("chats", list), "chats");
      assert [Member("chats", list)] == [] + [Member("chats", list)];
      (b2, AsyncHandler(Ok(SendSuccess([Member("chats", list)], None)), t))
  }

  /** After a new chat is saved the list the caller gets is the repository's, the new chat included. */
  lemma ListAfterCreate(b: ChatService.Backend, user: AuthUser, body: Json, t: string -> string,
                        ask: (string, string) -> Providers.Upstream)
    requires ParseChatBody(body).Some? && !AppendsTo(ParseChatBody(body).value)
    ensures var b2 := CreateChat(b, user, body, t, ask).0;
      Get(ListChats(b2, user, t).1.body, "chats") == Some(ChatService.ChatsJson(ListByUser(b2.store, user.id)))
  {
    var req := ParseChatBody(body).value;
    ChatService.ListFreshAfterCreate(b, user.id, req.model, req.messages, LanguageOf(UserLanguage(Some(user))), ask);
  }

  /**
   * `deleteChat`: a missing id is a 400; a failed delete is a 404 whatever
   * the reason; success answers with the translated `chat_deleted` message.
   */
  function DeleteChat(b: ChatService.Backend, user: AuthUser, chatId: string, t: string -> string): (out: (ChatService.Backend, Response))
    ensures chatId == "" ==> out == (b, SendError(BadRequest, t("error_invalid_input")))
    ensures chatId != "" ==> out.0 == ChatService.DeleteChat(b, chatId, user.id).0
    ensures chatId != "" ==> (out.1.status == NotFound <==> !Owned(b.store.chats, chatId, user.id))
    ensures chatId != "" && Owned(b.store.chats, chatId, user.id) ==>
      out.1 == SendSuccess([], Some(t("chat_deleted")))
    ensures out.1.status in {Ok200, BadRequest, NotFound}
  {
    if chatId == "" then (b, SendError(BadRequest, t("error_invalid_input")))
    else
      var (b2, r) := ChatService.DeleteChat(b, chatId, user.id);
      if r.Ok? then (b2, AsyncHandler(Ok(SendSuccess([], Some(t("chat_deleted")))), t))
      else (b2, AsyncHandler(Ok(SendError(NotFound, t("error_not_found"))), t))
  }
}
