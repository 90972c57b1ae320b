/**
 * The chat service: answers from the reply cache or the provider, persists
 * through the repository, and invalidates the user's cached profile and chat
 * list after every successful write. The backend state is the repository's
 * store together with the cache.
 */
module ChatService {
  import opened Wrappers
  import opened Text
  import opened Domain
  import Json
  import Cache
  import Providers
  import opened ChatRepo

  datatype Backend = Backend(store: Store, cache: Cache.Cache)

  const NoMessages: string := "No messages provided"

  /** The ttl the list is cached with; the service passes it explicitly. */
  const ListTtl: nat := 600

  // ---------------------------------------------------------------------------
  // The JSON form of a chat list, as it is cached and sent
  // ---------------------------------------------------------------------------

  function MessageJson(m: Message): Json.Json
  {
    Json.JObj([Json.Member("role", Json.JStr(RoleName(m.role))), Json.Member("content", Json.JStr(m.content))])
  }

  function ChatJson(v: ChatView): Json.Json
  {
    Json.JObj([
      Json.Member("id", Json.JStr(v.chat.id)),
      Json.Member("userId", Json.JStr(v.chat.userId)),
      Json.Member("title", Json.JStr(v.chat.title)),
      Json.Member("model", Json.JStr(KindName(v.chat.model))),
      Json.Member("language", Json.JStr(LanguageCode(v.chat.language))),
      Json.Member("createdAt", Json.JStr(NatToString(v.chat.createdAt))),
      Json.Member("messages", Json.JArr(seq(|v.messages|, k requires 0 <= k < |v.messages| => MessageJson(v.messages[k]))))
    ])
  }

  function ChatsJson(vs: seq<ChatView>): (j: Json.Json)
    ensures j.JArr? && |j.items| == |vs|
  {
    Json.JArr(seq(|vs|, k requires 0 <= k < |vs| => ChatJson(vs[k])))
  }

  // ---------------------------------------------------------------------------
  // The reply
  // ---------------------------------------------------------------------------

  /** A cached reply counts only when it is a non-empty string. */
  predicate Hit(cached: Option<string>)
  {
    cached.Some? && cached.value != ""
  }

  /** The key a history's reply is cached under: model, language and the last message's digest. */
  function ReplyKey(model: ModelKind, msgs: seq<Message>, language: Language): string
    requires |msgs| > 0
  {
    Cache.AiKey(KindName(model), LanguageCode(language), msgs[|msgs| - 1].content)
  }

  function CachedReply(c: Cache.Cache, model: ModelKind, msgs: seq<Message>, language: Language): Option<string>
    requires |msgs| > 0
  {
    Cache.GetCachedAiResponse(c, KindName(model), msgs[|msgs| - 1].content, LanguageCode(language))
  }

  /**
   * The reply for a non-empty history: the cached reply for the last message
   * (whatever its role) when there is a non-empty one; otherwise the provider's
   * reply, which is then cached for an hour under the same key.
   */
  function Reply(c: Cache.Cache, model: ModelKind, msgs: seq<Message>, language: Language,
                 ask: (string, string) -> Providers.Upstream): (out: (Cache.Cache, string))
    requires |msgs| > 0
    ensures out.1 != ""
    ensures Hit(CachedReply(c, model, msgs, language)) ==> out == (c, CachedReply(c, model, msgs, language).value)
    ensures !Hit(CachedReply(c, model, msgs, language)) ==> out.1 == Providers.Generate(Providers.ProviderFor(model), msgs, language, ask)
    ensures Cache.Live(c) ==> CachedReply(out.0, model, msgs, language) == Some(out.1)
    ensures out.0.connected == c.connected && out.0.failing == c.failing
    ensures forall k :: k != ReplyKey(model, msgs, language) ==> Cache.Get(out.0, k) == Cache.Get(c, k)
  {
    var cached := CachedReply(c, model, msgs, language);
    if Hit(cached) then (c, cached.value)
    else
      var reply := Providers.Generate(Providers.ProviderFor(model), msgs, language, ask);
      (Cache.CacheAiResponse(c, KindName(model), msgs[|msgs| - 1].content, reply, LanguageCode(language), AiResponseTtl), reply)
  }

  /** On a cache hit the provider is never consulted: any two runtimes give the same outcome. */
  lemma HitSkipsProvider(c: Cache.Cache, model: ModelKind, msgs: seq<Message>, language: Language,
                         ask: (string, string) -> Providers.Upstream, other: (string, string) -> Providers.Upstream)
    requires |msgs| > 0 && Hit(CachedReply(c, model, msgs, language))
    ensures Reply(c, model, msgs, language, ask) == Reply(c, model, msgs, language, other)
  {
  }

  /** Writing the reply cache never touches a user's profile or list entry. */
  lemma ReplyKeepsUserKeys(c: Cache.Cache, model: ModelKind, msgs: seq<Message>, language: Language,
                           ask: (string, string) -> Providers.Upstream, userId: string)
    requires |msgs| > 0
    ensures Cache.Get(Reply(c, model, msgs, language, ask).0, Cache.ChatsKey(userId)) == Cache.Get(c, Cache.ChatsKey(userId))
    ensures Cache.Get(Reply(c, model, msgs, language, ask).0, Cache.ProfileKey(userId)) == Cache.Get(c, Cache.ProfileKey(userId))
  {
    Cache.KeysDisjoint(userId, userId, KindName(model), LanguageCode(language), msgs[|msgs| - 1].content);
  }

  // ---------------------------------------------------------------------------
  // Operations
  // ---------------------------------------------------------------------------

  /**
   * `createChatWithAI`: fails on an empty history before touching anything;
   * otherwise stores a new chat holding the history and one assistant message
   * with the reply, then invalidates the user's cache.
   */
  function CreateChatWithAI(b: Backend, userId: string, model: ModelKind, msgs: seq<Message>, language: Language,
                            ask: (string, string) -> Providers.Upstream): (out: (Backend, Result<ChatView, string>))
    ensures |msgs| == 0 <==> out.1.Err?
    ensures out.1.Err? ==> out == (b, Err(NoMessages))
    ensures out.1.Ok? ==> var v := out.1.value;
      && |v.messages| == |msgs| + 1 && v.messages[..|msgs|] == msgs
      && v.messages[|msgs|].role == Assistant && v.messages[|msgs|].content != ""
      && v.chat.userId == userId && v.chat.model == model && v.chat.language == language
      && out.0.store.chats == b.store.chats + [v.chat]
  {
    if |msgs| == 0 then (b, Err(NoMessages))
    else
      var (c, reply) := Reply(b.cache, model, msgs, language, ask);
      var all := msgs + [Message(Assistant, reply)];
      var (t, v) := CreateWithMessages(b.store, userId, model, language, all, ask);
      assert all[..|msgs|] == msgs;
      (Backend(t, Cache.InvalidateUserCache(c, userId)), Ok(v))
  }

  /**
   * `addMessageToChat`: fails on an empty history before touching anything;
   * otherwise appends only the last message and the reply to the chat. An
   * ownership failure leaves the store and the user's cache entries as they
   * were.
   */
  function AddMessageToChat(b: Backend, userId: string, chatId: string, model: ModelKind, msgs: seq<Message>, language: Language,
                            ask: (string, string) -> Providers.Upstream): (out: (Backend, Result<ChatView, string>))
    ensures |msgs| == 0 ==> out == (b, Err(NoMessages))
    ensures |msgs| > 0 ==> (out.1.Err? <==> !Owned(b.store.chats, chatId, userId))
    ensures |msgs| > 0 && out.1.Err? ==> out.1.error == AccessDenied && out.0.store == b.store
    ensures out.1.Ok? ==> (
      && |msgs| > 0
      && MessagesOf(out.0.store.messages, chatId) == MessagesOf(b.store.messages, chatId) + [msgs[|msgs| - 1], Message(Assistant, Reply(b.cache, model, msgs, language, ask).1)]
      && out.0.store.chats == b.store.chats)
  {
    if |msgs| == 0 then (b, Err(NoMessages))
    else
      var (c, reply) := Reply(b.cache, model, msgs, language, ask);
      var added := [msgs[|msgs| - 1], Message(Assistant, reply)];
      match AddMessagesToChat(b.store, chatId, userId, added)
      case Err(e) => (Backend(b.store, c), Err(e))
      case Ok((t, v)) =>
        MessagesOfAppend(b.store.messages, Tag(chatId, added), chatId);
        MessagesOfTag(chatId, added, chatId + "x");
        (Backend(t, Cache.InvalidateUserCache(c, userId)), Ok(v))
  }

  /** `deleteChat`: the repository's two-step delete, with invalidation only when it succeeds. */
  function DeleteChat(b: Backend, chatId: string, userId: string): (out: (Backend, Result<ChatRow, string>))
    ensures out.0.store == Delete(b.store, chatId, userId).0
    ensures out.1 == Delete(b.store, chatId, userId).1
    ensures out.1.Ok? ==> out.0.cache == Cache.InvalidateUserCache(b.cache, userId)
    ensures out.1.Err? ==> out.0.cache == b.cache
  {
    var (t, r) := Delete(b.store, chatId, userId);
    if r.Ok? then (Backend(t, Cache.InvalidateUserCache(b.cache, userId)), r)
    else (Backend(t, b.cache), r)
  }

  /**
   * `listUserChats`: a truthy cached list is returned as it is; a cache miss
   * reads the repository and caches that list for 600 seconds. A cached text
   * that does not parse makes the call fail.
   */
  function ListUserChats(b: Backend, userId: string): (out: (Backend, Result<Json.Json, string>))
    ensures out.0.store == b.store
    ensures var cached := Cache.GetCachedChatHistory(b.cache, userId);
      cached.Err? ==> out == (b, Err(cached.error))
    ensures var cached := Cache.GetCachedChatHistory(b.cache, userId);
      cached.Ok? && cached.value.Some? && Json.Truthy(cached.value.value) ==> out == (b, Ok(cached.value.value))
    ensures var cached := Cache.GetCachedChatHistory(b.cache, userId);
      var list := ChatsJson(ListByUser(b.store, userId));
      cached.Ok? && (cached.value.None? || !Json.Truthy(cached.value.value)) ==>
        out == (Backend(b.store, Cache.CacheChatHistory(b.cache, userId, list, ListTtl)), Ok(list))
  {
    match Cache.GetCachedChatHistory(b.cache, userId)
    case Err(e) => (b, Err(e))
    case Ok(cached) =>
      if cached.Some? && Json.Truthy(cached.value) then (b, Ok(cached.value))
      else
        var list := ChatsJson(ListByUser(b.store, userId));
        (Backend(b.store, Cache.CacheChatHistory(b.cache, userId, list, ListTtl)), Ok(list))
  }

  // ---------------------------------------------------------------------------
  // Freshness
  // ---------------------------------------------------------------------------

  /** Right after invalidation the list is read from the repository. */
  lemma ListAfterInvalidate(store: Store, c: Cache.Cache, userId: string)
    ensures ListUserChats(Backend(store, Cache.InvalidateUserCache(c, userId)), userId).1 == Ok(ChatsJson(ListByUser(store, userId)))
  {
  }

  /** After a successful create the list holds the new chat: no stale cached list is served. */
  lemma ListFreshAfterCreate(b: Backend, userId: string, model: ModelKind, msgs: seq<Message>, language: Language,
                             ask: (string, string) -> Providers.Upstream)
    requires CreateChatWithAI(b, userId, model, msgs, language, ask).1.Ok?
    ensures var t := CreateChatWithAI(b, userId, model, msgs, language, ask).0;
      ListUserChats(t, userId).1 == Ok(ChatsJson(ListByUser(t.store, userId)))
  {
    var (c, reply) := Reply(b.cache, model, msgs, language, ask);
    var all := msgs + [Message(Assistant, reply)];
    var (t, v) := CreateWithMessages(b.store, userId, model, language, all, ask);
    ListAfterInvalidate(t, c, userId);
  }

  /** After a successful append the list is read from the repository. */
  lemma ListFreshAfterAdd(b: Backend, userId: string, chatId: string, model: ModelKind, msgs: seq<Message>, language: Language,
                          ask: (string, string) -> Providers.Upstream)
    requires AddMessageToChat(b, userId, chatId, model, msgs, language, ask).1.Ok?
    ensures var t := AddMessageToChat(b, userId, chatId, model, msgs, language, ask).0;
      ListUserChats(t, userId).1 == Ok(ChatsJson(ListByUser(t.store, userId)))
  {
    var (c, reply) := Reply(b.cache, model, msgs, language, ask);
    var added := [msgs[|msgs| - 1], Message(Assistant, reply)];
    var t := AddMessagesToChat(b.store, chatId, userId, added).value.0;
    ListAfterInvalidate(t, c, userId);
  }

  /** After a successful delete the list is read from the repository. */
  lemma ListFreshAfterDelete(b: Backend, chatId: string, userId: string)
    requires DeleteChat(b, chatId, userId).1.Ok?
    ensures var t := DeleteChat(b, chatId, userId).0;
      ListUserChats(t, userId).1 == Ok(ChatsJson(ListByUser(t.store, userId)))
  {
    ListAfterInvalidate(Delete(b.store, chatId, userId).0, b.cache, userId);
  }

  /** A failed append leaves the user's cached list in place. */
  lemma FailedAddKeepsList(b: Backend, userId: string, chatId: string, model: ModelKind, msgs: seq<Message>, language: Language,
                           ask: (string, string) -> Providers.Upstream)
    requires |msgs| > 0 && AddMessageToChat(b, userId, chatId, model, msgs, language, ask).1.Err?
    ensures var t := AddMessageToChat(b, userId, chatId, model, msgs, language, ask).0;
      Cache.Get(t.cache, Cache.ChatsKey(userId)) == Cache.Get(b.cache, Cache.ChatsKey(userId))
  {
    ReplyKeepsUserKeys(b.cache, model, msgs, language, ask, userId);
  }

  /** On a live cache a second listing is served from the cache and returns the same list. */
  lemma ListTwice(b: Backend, userId: string)
    requires Cache.Live(b.cache) && Cache.GetCachedChatHistory(b.cache, userId) == Ok(None)
    ensures var (t, r) := ListUserChats(b, userId);
      ListUserChats(t, userId) == (t, r)
  {
    var list := ChatsJson(ListByUser(b.store, userId));
    Cache.ChatHistoryRoundTrip(b.cache, userId, list, ListTtl);
  }

  /** With the cache unreachable every listing reads the repository and the cache is left alone. */
  lemma ListCacheDown(b: Backend, userId: string)
    requires !Cache.Live(b.cache)
    ensures ListUserChats(b, userId) == (b, Ok(ChatsJson(ListByUser(b.store, userId))))
  {
  }
}
