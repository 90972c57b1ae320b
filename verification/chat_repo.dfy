/**
 * The chat repository over an in-memory store: a table of chats, in creation
 * order, and a table of messages, in insertion order. Database-generated ids
 * are modelled by `FreshId` and timestamps by a counter `clock`.
 */
module ChatRepo {
  import opened Wrappers
  import opened Text
  import opened Domain
  import Cleaning
  import Providers
  import Validation

  datatype ChatRow = ChatRow(id: string, userId: string, title: string, model: ModelKind, language: Language, createdAt: nat)

  datatype MessageRow = MessageRow(chatId: string, message: Message)

  datatype Store = Store(chats: seq<ChatRow>, messages: seq<MessageRow>, clock: nat)

  /** A chat together with its messages, as the queries with `include: { messages: true }` return it. */
  datatype ChatView = ChatView(chat: ChatRow, messages: seq<Message>)

  // ---------------------------------------------------------------------------
  // Store invariant
  // ---------------------------------------------------------------------------

  predicate HasChat(chats: seq<ChatRow>, id: string)
  {
    exists i :: 0 <= i < |chats| && chats[i].id == id
  }

  predicate UniqueIds(chats: seq<ChatRow>)
  {
    forall i, j :: 0 <= i < |chats| && 0 <= j < |chats| && i != j ==> chats[i].id != chats[j].id
  }

  /** Creation times strictly decrease along the sequence. */
  predicate Decreasing(chats: seq<ChatRow>)
  {
    forall i, j :: 0 <= i < j < |chats| ==> chats[i].createdAt > chats[j].createdAt
  }

  /** The table lists chats in strictly increasing creation time. */
  predicate Increasing(chats: seq<ChatRow>)
  {
    forall i, j :: 0 <= i < j < |chats| ==> chats[i].createdAt < chats[j].createdAt
  }

  /**
   * Ids are unique, creation times increase along the table and lie before the
   * clock, and every message belongs to an existing chat.
   */
  predicate WellFormed(s: Store)
  {
    && UniqueIds(s.chats)
    && Increasing(s.chats)
    && (forall i :: 0 <= i < |s.chats| ==> s.chats[i].createdAt < s.clock)
    && Attached(s.chats, s.messages)
  }

  /** Every message row names an existing chat. */
  predicate Attached(chats: seq<ChatRow>, rows: seq<MessageRow>)
  {
    forall k :: 0 <= k < |rows| ==> HasChat(chats, rows[k].chatId)
  }

  // ---------------------------------------------------------------------------
  // Messages of a chat
  // ---------------------------------------------------------------------------

  /** The messages stored for `chatId`, in insertion order. */
  function MessagesOf(rows: seq<MessageRow>, chatId: string): (r: seq<Message>)
    ensures |r| <= |rows|
  {
    if |rows| == 0 then []
    else (if rows[0].chatId == chatId then [rows[0].message] else []) + MessagesOf(rows[1..], chatId)
  }

  /** `messages.map(m => ({ ...m, chatId }))`. */
  function Tag(chatId: string, msgs: seq<Message>): (r: seq<MessageRow>)
    ensures |r| == |msgs|
    ensures forall k :: 0 <= k < |r| ==> r[k] == MessageRow(chatId, msgs[k])
  {
    seq(|msgs|, k requires 0 <= k < |msgs| => MessageRow(chatId, msgs[k]))
  }

  lemma {:induction false} MessagesOfAppend(a: seq<MessageRow>, b: seq<MessageRow>, chatId: string)
    ensures MessagesOf(a + b, chatId) == MessagesOf(a, chatId) + MessagesOf(b, chatId)
  {
    if |a| == 0 {
      assert a + b == b;
    } else {
      var ab := a + b;
      assert ab[0] == a[0];
      assert ab[1..] == a[1..] + b;
      MessagesOfAppend(a[1..], b, chatId);
      assert MessagesOf(ab, chatId) == (if a[0].chatId == chatId then [a[0].message] else []) + MessagesOf(ab[1..], chatId);
    }
  }

  /** Tagged messages are read back, in order, under their own chat and under no other. */
  lemma {:induction false} MessagesOfTag(chatId: string, msgs: seq<Message>, other: string)
    requires other != chatId
    ensures MessagesOf(Tag(chatId, msgs), chatId) == msgs
    ensures MessagesOf(Tag(chatId, msgs), other) == []
  {
    if |msgs| > 0 {
      assert Tag(chatId, msgs)[1..] == Tag(chatId, msgs[1..]);
      MessagesOfTag(chatId, msgs[1..], other);
    }
  }

  /** A chat no message row names has no messages. */
  lemma {:induction false} MessagesOfAbsent(rows: seq<MessageRow>, chatId: string)
    requires forall k :: 0 <= k < |rows| ==> rows[k].chatId != chatId
    ensures MessagesOf(rows, chatId) == []
  {
    if |rows| > 0 {
      MessagesOfAbsent(rows[1..], chatId);
    }
  }

  // ---------------------------------------------------------------------------
  // Fresh ids
  // ---------------------------------------------------------------------------

  function MaxIdLength(chats: seq<ChatRow>): (n: nat)
    ensures forall i :: 0 <= i < |chats| ==> |chats[i].id| <= n
  {
    if |chats| == 0 then 0
    else
      var m := MaxIdLength(chats[1..]);
      assert forall i :: 1 <= i < |chats| ==> chats[i] == chats[1..][i - 1];
      if |chats[0].id| > m then |chats[0].id| else m
  }

  /** An id no existing chat has. */
  function FreshId(chats: seq<ChatRow>): (id: string)
    ensures !HasChat(chats, id)
  {
    Repeat('c', MaxIdLength(chats) + 1)
  }

  // ---------------------------------------------------------------------------
  // Title derivation
  // ---------------------------------------------------------------------------

  /** The content of the first user message, or `"New Chat"` when there is none or it is empty. */
  function TitleSource(msgs: seq<Message>): (r: string)
    ensures r != ""
    ensures r == "New Chat" || exists i :: Validation.IsFirst(msgs, User, i) && r == msgs[i].content
    ensures forall i :: Validation.IsFirst(msgs, User, i) && msgs[i].content != "" ==> r == msgs[i].content
    ensures (forall i :: 0 <= i < |msgs| ==> msgs[i].role != User) ==> r == "New Chat"
  {
    match Validation.FirstWithRole(msgs, User)
    case None => "New Chat"
    case Some(i) =>
      assert forall j :: Validation.IsFirst(msgs, User, j) ==> j == i;
      if msgs[i].content != "" then msgs[i].content else "New Chat"
  }

  /** The text holds a code unit of the Arabic block U+0600 to U+06FF. */
  predicate HasArabic(s: string)
  {
    exists i :: 0 <= i < |s| && '\U{600}' <= s[i] <= '\U{6FF}'
  }

  /**
   * `messageLanguage || data.language`: the detected code is never empty, so
   * the stored preference is never consulted.
   */
  function TitleLanguage(source: string, preference: Language): (code: string)
    ensures code == "ar" <==> HasArabic(source)
    ensures code == "en" <==> !HasArabic(source)
  {
    var detected := if HasArabic(source) then "ar" else "en";
    if detected != "" then detected else LanguageCode(preference)
  }

  /** The instruction asking the model for a three-to-six word title of `source`. */
  function TitlePrompt(code: string, source: string): string
  {
    if code == "ar" then
      "\U{623}\U{646}\U{62A} \U{645}\U{633}\U{627}\U{639}\U{62F} \U{630}\U{643}\U{64A}. \U{627}\U{642}\U{631}\U{623} \U{627}\U{644}\U{633}\U{624}\U{627}\U{644} \U{627}\U{644}\U{62A}\U{627}\U{644}\U{64A} \U{648}\U{623}\U{646}\U{634}\U{626} \U{639}\U{646}\U{648}\U{627}\U{646}\U{627}\U{64B} \U{642}\U{635}\U{64A}\U{631}\U{627}\U{64B} \U{648}\U{627}\U{636}\U{62D}\U{627}\U{64B} (3-6 \U{643}\U{644}\U{645}\U{627}\U{62A} \U{641}\U{642}\U{637}) \U{64A}\U{644}\U{62E}\U{635} \U{627}\U{644}\U{645}\U{648}\U{636}\U{648}\U{639} \U{627}\U{644}\U{631}\U{626}\U{64A}\U{633}\U{64A}. \U{644}\U{627} \U{62A}\U{633}\U{62A}\U{62E}\U{62F}\U{645} \U{639}\U{644}\U{627}\U{645}\U{627}\U{62A} \U{62A}\U{646}\U{635}\U{64A}\U{635} \U{623}\U{648} \U{623}\U{64A} \U{631}\U{645}\U{648}\U{632} \U{62E}\U{627}\U{635}\U{629} \U{645}\U{62B}\U{644} \U{627}\U{644}\U{646}\U{62C}\U{648}\U{645} \U{623}\U{648} \U{627}\U{644}\U{634}\U{631}\U{637}\U{627}\U{62A}. \U{627}\U{644}\U{639}\U{646}\U{648}\U{627}\U{646} \U{641}\U{642}\U{637} \U{628}\U{62F}\U{648}\U{646} \U{623}\U{64A} \U{62A}\U{646}\U{633}\U{64A}\U{642}:\n\n"
      + source
    else
      "You are an AI assistant. Read the following question and generate a short, clear title (3-6 words only) that summarizes the main topic. Do not use quotes, asterisks, dashes, or any special characters or markdown formatting. Just plain text title:\n\n"
      + source
  }

  /** The cleaned model output cut to 60 code units. */
  function GeneratedTitle(text: string): (t: string)
    ensures |t| <= 60
    ensures Cleaning.Markdownless(t) && Cleaning.SingleSpaced(t)
  {
    var c := Cleaning.Clean(text, Cleaning.TitlePrefixes);
    if |c| <= 60 then c
    else
      PrefixKeeps(c, 60);
      c[..60]
  }

  /** A title is the cleaned output itself when that fits, and otherwise its first 60 code units. */
  lemma GeneratedTitleIsPrefix(text: string)
    ensures var c := Cleaning.Clean(text, Cleaning.TitlePrefixes);
      |c| <= 60 ==> GeneratedTitle(text) == c
    ensures var c := Cleaning.Clean(text, Cleaning.TitlePrefixes);
      |c| > 60 ==> |GeneratedTitle(text)| == 60 && GeneratedTitle(text) == c[..60]
  {
  }

  lemma PrefixKeeps(c: string, n: nat)
    requires n <= |c| && Cleaning.Markdownless(c) && Cleaning.SingleSpaced(c)
    ensures Cleaning.Markdownless(c[..n]) && Cleaning.SingleSpaced(c[..n])
  {
    var p := c[..n];
    assert forall i :: 0 <= i < |p| ==> p[i] == c[i];
  }

  /** The title used when generation throws: the source itself, or its first 50 code units and `"..."`. */
  function FallbackTitle(source: string): (t: string)
    ensures |source| <= 50 ==> t == source
    ensures |source| > 50 ==> |t| == 53 && t[..50] == source[..50] && t[50..] == "..."
    ensures |t| <= 53
  {
    if |source| > 50 then source[..50] + "..." else source
  }

  /** The title for a generation outcome: cleaned and capped on success, the fallback on failure. */
  function DeriveTitle(generated: Result<string, string>, source: string): (t: string)
    ensures generated.Ok? ==> |t| <= 60 && Cleaning.Markdownless(t)
    ensures generated.Err? ==> t == FallbackTitle(source)
  {
    match generated
    case Ok(text) => GeneratedTitle(text)
    case Err(_) => FallbackTitle(source)
  }

  /**
   * The title of a new chat. The title is always asked of the `llama`
   * provider, whose `generate` never throws, so the outcome is always `Ok`.
   */
  function TitleFor(msgs: seq<Message>, preference: Language, ask: (string, string) -> Providers.Upstream): string
  {
    DeriveTitle(Ok(TitleReply(msgs, preference, ask)), TitleSource(msgs))
  }

  /** The model's answer to the title prompt, in the language detected from the source. */
  function TitleReply(msgs: seq<Message>, preference: Language, ask: (string, string) -> Providers.Upstream): string
  {
    var source := TitleSource(msgs);
    var code := TitleLanguage(source, preference);
    Providers.Generate(Providers.ProviderFor(Llama), [Message(User, TitlePrompt(code, source))], LanguageOf(code), ask)
  }

  /** Every title is a capped cleaned model output: the fallback branch is never taken. */
  lemma TitleNeverFallsBack(msgs: seq<Message>, preference: Language, ask: (string, string) -> Providers.Upstream)
    ensures exists text :: TitleFor(msgs, preference, ask) == GeneratedTitle(text)
    ensures |TitleFor(msgs, preference, ask)| <= 60
  {
    assert TitleFor(msgs, preference, ask) == GeneratedTitle(TitleReply(msgs, preference, ask));
  }

  /** The user's stored language never influences the title. */
  lemma TitleIgnoresPreference(msgs: seq<Message>, p: Language, q: Language, ask: (string, string) -> Providers.Upstream)
    ensures TitleFor(msgs, p, ask) == TitleFor(msgs, q, ask)
  {
    var source := TitleSource(msgs);
    assert TitleLanguage(source, p) == TitleLanguage(source, q);
  }

  // ---------------------------------------------------------------------------
  // Operations
  // ---------------------------------------------------------------------------

  /**
   * `createWithMessages`: a new chat owned by `userId` with the derived title,
   * the requested model and the user's language, and the given messages stored
   * verbatim and in order.
   */
  function CreateWithMessages(s: Store, userId: string, model: ModelKind, language: Language, msgs: seq<Message>,
                              ask: (string, string) -> Providers.Upstream): (out: (Store, ChatView))
    ensures var (t, v) := out;
      && !HasChat(s.chats, v.chat.id)
      && v.chat.userId == userId && v.chat.model == model && v.chat.language == language
      && v.chat.createdAt == s.clock && t.clock == s.clock + 1
      && |v.chat.title| <= 60
      && t.chats == s.chats + [v.chat]
      && t.messages == s.messages + Tag(v.chat.id, msgs)
      && v.messages == msgs
  {
    TitleNeverFallsBack(msgs, language, ask);
    var row := ChatRow(FreshId(s.chats), userId, TitleFor(msgs, language, ask), model, language, s.clock);
    (Store(s.chats + [row], s.messages + Tag(row.id, msgs), s.clock + 1), ChatView(row, msgs))
  }

  /** The chats of `userId`, newest first. */
  function ChatsOf(chats: seq<ChatRow>, userId: string): (r: seq<ChatRow>)
    ensures forall k :: 0 <= k < |r| ==> r[k].userId == userId && r[k] in chats
    ensures forall i :: 0 <= i < |chats| && chats[i].userId == userId ==> chats[i] in r
  {
    if |chats| == 0 then []
    else
      var last := chats[|chats| - 1];
      var front := chats[..|chats| - 1];
      var rest := ChatsOf(front, userId);
      assert forall i :: 0 <= i < |chats| - 1 ==> chats[i] == front[i];
      (if last.userId == userId then [last] else []) + rest
  }

  /** `listByUser`: each of the user's chats with its messages, newest first. */
  function ListByUser(s: Store, userId: string): (r: seq<ChatView>)
    ensures |r| == |ChatsOf(s.chats, userId)|
    ensures forall k :: 0 <= k < |r| ==> r[k].chat == ChatsOf(s.chats, userId)[k] && r[k].messages == MessagesOf(s.messages, r[k].chat.id)
  {
    var cs := ChatsOf(s.chats, userId);
    seq(|cs|, k requires 0 <= k < |cs| => ChatView(cs[k], MessagesOf(s.messages, cs[k].id)))
  }

  /** In a table of increasing creation times, a user's chats come out in decreasing creation time. */
  lemma {:induction false} ChatsOfNewestFirst(chats: seq<ChatRow>, userId: string)
    requires Increasing(chats)
    ensures Decreasing(ChatsOf(chats, userId))
  {
    if |chats| > 0 {
      var front := chats[..|chats| - 1];
      var last := chats[|chats| - 1];
      assert Increasing(front);
      ChatsOfNewestFirst(front, userId);
      ChatsOfBefore(chats, userId);
      if last.userId == userId {
        ConsDecreasing(last, ChatsOf(front, userId));
      }
    }
  }

  /** Every chat the user owns before the last row was created before it. */
  lemma ChatsOfBefore(chats: seq<ChatRow>, userId: string)
    requires Increasing(chats) && |chats| > 0
    ensures var rest := ChatsOf(chats[..|chats| - 1], userId);
      forall k :: 0 <= k < |rest| ==> rest[k].createdAt < chats[|chats| - 1].createdAt
  {
    var front := chats[..|chats| - 1];
    var rest := ChatsOf(front, userId);
    forall k | 0 <= k < |rest|
      ensures rest[k].createdAt < chats[|chats| - 1].createdAt
    {
      var i :| 0 <= i < |front| && front[i] == rest[k];
      assert front[i] == chats[i];
    }
  }

  lemma ConsDecreasing(head: ChatRow, rest: seq<ChatRow>)
    requires Decreasing(rest)
    requires forall k :: 0 <= k < |rest| ==> rest[k].createdAt < head.createdAt
    ensures Decreasing([head] + rest)
  {
    var r := [head] + rest;
    forall i, j | 0 <= i < j < |r|
      ensures r[i].createdAt > r[j].createdAt
    {
      assert r[j] == rest[j - 1];
      if i > 0 {
        assert r[i] == rest[i - 1];
      }
    }
  }

  /** `listByUser` returns the user's chats newest first. */
  lemma ListNewestFirst(s: Store, userId: string)
    requires WellFormed(s)
    ensures var r := ListByUser(s, userId); forall i, j :: 0 <= i < j < |r| ==> r[i].chat.createdAt > r[j].chat.createdAt
  {
    ChatsOfNewestFirst(s.chats, userId);
    var cs := ChatsOf(s.chats, userId);
    var r := ListByUser(s, userId);
    forall i, j | 0 <= i < j < |r|
      ensures r[i].chat.createdAt > r[j].chat.createdAt
    {
      assert r[i].chat == cs[i] && r[j].chat == cs[j];
      assert cs[i].createdAt > cs[j].createdAt;
    }
  }

  /** A chat just created heads its owner's list, holding exactly the messages it was created with. */
  lemma CreateThenList(s: Store, userId: string, model: ModelKind, language: Language, msgs: seq<Message>,
                       ask: (string, string) -> Providers.Upstream)
    requires WellFormed(s)
    ensures var (t, v) := CreateWithMessages(s, userId, model, language, msgs, ask);
      |ListByUser(t, userId)| > 0 && ListByUser(t, userId)[0] == v
  {
    var (t, v) := CreateWithMessages(s, userId, model, language, msgs, ask);
    assert t.chats[..|t.chats| - 1] == s.chats;
    forall k | 0 <= k < |s.messages|
      ensures s.messages[k].chatId != v.chat.id
    {
      assert HasChat(s.chats, s.messages[k].chatId);
    }
    MessagesOfAbsent(s.messages, v.chat.id);
    MessagesOfAppend(s.messages, Tag(v.chat.id, msgs), v.chat.id);
    MessagesOfTag(v.chat.id, msgs, v.chat.id + "x");
  }

  /** A chat with id `chatId` owned by `userId` exists. */
  predicate Owned(chats: seq<ChatRow>, chatId: string, userId: string)
  {
    exists i :: 0 <= i < |chats| && chats[i].id == chatId && chats[i].userId == userId
  }

  /** `findUnique({ where: { id } })`: the row with that id, if any. */
  function FindById(chats: seq<ChatRow>, id: string): (r: Option<ChatRow>)
    ensures r.Some? <==> HasChat(chats, id)
    ensures r.Some? ==> r.value in chats && r.value.id == id
  {
    if |chats| == 0 then None
    else if chats[0].id == id then Some(chats[0])
    else
      var r := FindById(chats[1..], id);
      assert forall i :: 1 <= i < |chats| ==> chats[i] == chats[1..][i - 1];
      r
  }

  /** `findFirst({ where: { id, userId } })`. */
  function FindOwned(chats: seq<ChatRow>, chatId: string, userId: string): (r: Option<ChatRow>)
    ensures r.Some? <==> Owned(chats, chatId, userId)
    ensures r.Some? ==> r.value in chats && r.value.id == chatId && r.value.userId == userId
  {
    if |chats| == 0 then None
    else if chats[0].id == chatId && chats[0].userId == userId then Some(chats[0])
    else
      var r := FindOwned(chats[1..], chatId, userId);
      assert forall i :: 1 <= i < |chats| ==> chats[i] == chats[1..][i - 1];
      r
  }

  const AccessDenied: string := "Chat not found or access denied"

  /**
   * `addMessagesToChat`: when the chat exists and belongs to `userId`, append
   * the messages in order and return the chat with all its messages; otherwise
   * fail with the access error, writing nothing.
   */
  function AddMessagesToChat(s: Store, chatId: string, userId: string, msgs: seq<Message>): (r: Result<(Store, ChatView), string>)
    ensures r.Err? <==> !Owned(s.chats, chatId, userId)
    ensures r.Err? ==> r.error == AccessDenied
    ensures r.Ok? ==> var (t, v) := r.value;
      && t.chats == s.chats && t.clock == s.clock
      && t.messages == s.messages + Tag(chatId, msgs)
      && v.chat in s.chats && v.chat.id == chatId
      && v.messages == MessagesOf(s.messages, chatId) + msgs
  {
    if FindOwned(s.chats, chatId, userId).None? then Err(AccessDenied)
    else
      var t := s.(messages := s.messages + Tag(chatId, msgs));
      var found := FindById(t.chats, chatId);
      MessagesOfAppend(s.messages, Tag(chatId, msgs), chatId);
      MessagesOfTag(chatId, msgs, chatId + "x");
      Ok((t, ChatView(found.value, MessagesOf(t.messages, chatId))))
  }

  /** With unique ids the chat returned after an append is the caller's own. */
  lemma AddReturnsOwnChat(s: Store, chatId: string, userId: string, msgs: seq<Message>)
    requires UniqueIds(s.chats)
    requires AddMessagesToChat(s, chatId, userId, msgs).Ok?
    ensures AddMessagesToChat(s, chatId, userId, msgs).value.1.chat.userId == userId
  {
    var v := AddMessagesToChat(s, chatId, userId, msgs).value.1;
    var i :| 0 <= i < |s.chats| && s.chats[i].id == chatId && s.chats[i].userId == userId;
    var j :| 0 <= j < |s.chats| && s.chats[j] == v.chat;
    assert i == j;
  }

  /** The rows whose id is not `chatId` or whose owner is not `userId`. */
  function RemoveOwned(chats: seq<ChatRow>, chatId: string, userId: string): (r: seq<ChatRow>)
    ensures |r| <= |chats|
    ensures forall k :: 0 <= k < |r| ==> r[k] in chats && !(r[k].id == chatId && r[k].userId == userId)
    ensures forall i :: 0 <= i < |chats| && !(chats[i].id == chatId && chats[i].userId == userId) ==> chats[i] in r
  {
    if |chats| == 0 then []
    else
      var rest := RemoveOwned(chats[1..], chatId, userId);
      assert forall i :: 1 <= i < |chats| ==> chats[i] == chats[1..][i - 1];
      (if chats[0].id == chatId && chats[0].userId == userId then [] else [chats[0]]) + rest
  }

  /** `deleteMany({ where: { chatId } })`. */
  function DropMessages(rows: seq<MessageRow>, chatId: string): (r: seq<MessageRow>)
    ensures forall k :: 0 <= k < |r| ==> r[k] in rows && r[k].chatId != chatId
  {
    if |rows| == 0 then []
    else (if rows[0].chatId == chatId then [] else [rows[0]]) + DropMessages(rows[1..], chatId)
  }

  /** Dropping one chat's messages leaves every other chat's messages as they were. */
  lemma {:induction false} DropMessagesOthers(rows: seq<MessageRow>, chatId: string, other: string)
    ensures MessagesOf(DropMessages(rows, chatId), chatId) == []
    ensures other != chatId ==> MessagesOf(DropMessages(rows, chatId), other) == MessagesOf(rows, other)
  {
    if |rows| > 0 {
      DropMessagesOthers(rows[1..], chatId, other);
      var rest := DropMessages(rows[1..], chatId);
      if rows[0].chatId == chatId {
        assert DropMessages(rows, chatId) == rest;
      } else {
        assert DropMessages(rows, chatId) == [rows[0]] + rest;
        assert ([rows[0]] + rest)[1..] == rest;
      }
    }
  }

  const RecordMissing: string := "Record to delete does not exist."

  /**
   * `delete`: first every message of `chatId` is deleted, whoever owns the
   * chat; then the chat is deleted if it belongs to `userId`, and otherwise the
   * second step fails.
   */
  function Delete(s: Store, chatId: string, userId: string): (out: (Store, Result<ChatRow, string>))
    ensures out.1.Ok? <==> Owned(s.chats, chatId, userId)
    ensures out.1.Ok? ==> out.1.value in s.chats && out.1.value.id == chatId && out.1.value.userId == userId
    ensures out.1.Err? ==> out.1.error == RecordMissing && out.0.chats == s.chats
    ensures out.1.Ok? ==> out.0.chats == RemoveOwned(s.chats, chatId, userId)
    ensures out.0.messages == DropMessages(s.messages, chatId) && out.0.clock == s.clock
  {
    var t := s.(messages := DropMessages(s.messages, chatId));
    match FindOwned(s.chats, chatId, userId)
    case Some(row) => (t.(chats := RemoveOwned(s.chats, chatId, userId)), Ok(row))
    case None => (t, Err(RecordMissing))
  }

  /**
   * Deleting someone else's chat fails, yet the chat's messages are gone: the
   * chat stays listed for its owner with no messages.
   */
  lemma DeleteForeignChatLosesMessages(s: Store, chatId: string, owner: string, intruder: string)
    requires Owned(s.chats, chatId, owner) && !Owned(s.chats, chatId, intruder)
    ensures var (t, r) := Delete(s, chatId, intruder);
      && r.Err? && t.chats == s.chats
      && MessagesOf(t.messages, chatId) == []
      && exists k :: 0 <= k < |ListByUser(t, owner)| && ListByUser(t, owner)[k].chat.id == chatId && ListByUser(t, owner)[k].messages == []
  {
    var (t, r) := Delete(s, chatId, intruder);
    DropMessagesOthers(s.messages, chatId, chatId + "x");
    var i :| 0 <= i < |s.chats| && s.chats[i].id == chatId && s.chats[i].userId == owner;
    var cs := ChatsOf(t.chats, owner);
    assert s.chats[i] in cs;
    var k :| 0 <= k < |cs| && cs[k] == s.chats[i];
    assert ListByUser(t, owner)[k].chat.id == chatId;
  }

  /** Deleting one chat leaves the messages of every other chat untouched. */
  lemma DeleteKeepsOtherMessages(s: Store, chatId: string, userId: string, other: string)
    requires other != chatId
    ensures MessagesOf(Delete(s, chatId, userId).0.messages, other) == MessagesOf(s.messages, other)
  {
    DropMessagesOthers(s.messages, chatId, other);
  }

  // ---------------------------------------------------------------------------
  // The invariant is preserved
  // ---------------------------------------------------------------------------

  /** Appending a row with a fresh id stamped with the clock keeps the table invariant. */
  lemma AppendRow(chats: seq<ChatRow>, row: ChatRow, clock: nat)
    requires UniqueIds(chats) && Increasing(chats) && !HasChat(chats, row.id)
    requires (forall i :: 0 <= i < |chats| ==> chats[i].createdAt < clock) && row.createdAt == clock
    ensures UniqueIds(chats + [row]) && Increasing(chats + [row])
    ensures forall i :: 0 <= i < |chats + [row]| ==> (chats + [row])[i].createdAt < clock + 1
  {
    var t := chats + [row];
    forall i, j | 0 <= i < |t| && 0 <= j < |t| && i != j
      ensures t[i].id != t[j].id
    {
      if i < |chats| && j < |chats| {
        assert t[i] == chats[i] && t[j] == chats[j];
      } else if i < |chats| {
        assert t[i] == chats[i];
      } else {
        assert t[j] == chats[j];
      }
    }
  }

  lemma AttachedGrow(chats: seq<ChatRow>, more: seq<ChatRow>, rows: seq<MessageRow>, chatId: string, msgs: seq<Message>)
    requires Attached(chats, rows) && HasChat(chats + more, chatId)
    ensures Attached(chats + more, rows + Tag(chatId, msgs))
  {
    var t := rows + Tag(chatId, msgs);
    forall k | 0 <= k < |t|
      ensures HasChat(chats + more, t[k].chatId)
    {
      if k < |rows| {
        assert t[k] == rows[k];
        var i :| 0 <= i < |chats| && chats[i].id == rows[k].chatId;
        assert (chats + more)[i] == chats[i];
      } else {
        assert t[k] == Tag(chatId, msgs)[k - |rows|];
      }
    }
  }

  lemma InsertPreserves(s: Store, row: ChatRow, msgs: seq<Message>)
    requires WellFormed(s) && !HasChat(s.chats, row.id) && row.createdAt == s.clock
    ensures WellFormed(Store(s.chats + [row], s.messages + Tag(row.id, msgs), s.clock + 1))
  {
    AppendRow(s.chats, row, s.clock);
    assert (s.chats + [row])[|s.chats|] == row;
    AttachedGrow(s.chats, [row], s.messages, row.id, msgs);
  }

  lemma CreatePreserves(s: Store, userId: string, model: ModelKind, language: Language, msgs: seq<Message>,
                        ask: (string, string) -> Providers.Upstream)
    requires WellFormed(s)
    ensures WellFormed(CreateWithMessages(s, userId, model, language, msgs, ask).0)
  {
    var out := CreateWithMessages(s, userId, model, language, msgs, ask);
    InsertPreserves(s, out.1.chat, msgs);
    assert out.0 == Store(s.chats + [out.1.chat], s.messages + Tag(out.1.chat.id, msgs), s.clock + 1);
  }

  lemma AddPreserves(s: Store, chatId: string, userId: string, msgs: seq<Message>)
    requires WellFormed(s)
    ensures AddMessagesToChat(s, chatId, userId, msgs).Ok? ==> WellFormed(AddMessagesToChat(s, chatId, userId, msgs).value.0)
  {
    var r := AddMessagesToChat(s, chatId, userId, msgs);
    if r.Ok? {
      var i :| 0 <= i < |s.chats| && s.chats[i].id == chatId && s.chats[i].userId == userId;
      assert s.chats + [] == s.chats;
      AttachedGrow(s.chats, [], s.messages, chatId, msgs);
    }
  }

  /** `RemoveOwned` keeps the relative order of the rows it keeps. */
  lemma {:induction false} RemoveOwnedIncreasing(chats: seq<ChatRow>, chatId: string, userId: string)
    requires Increasing(chats)
    ensures Increasing(RemoveOwned(chats, chatId, userId))
  {
    if |chats| > 0 {
      var tail := chats[1..];
      RemoveOwnedIncreasing(tail, chatId, userId);
      var rest := RemoveOwned(tail, chatId, userId);
      var r := RemoveOwned(chats, chatId, userId);
      assert Increasing(tail) by {
        forall i, j | 0 <= i < j < |tail| ensures tail[i].createdAt < tail[j].createdAt {
          assert tail[i] == chats[i + 1] && tail[j] == chats[j + 1];
        }
      }
      if !(chats[0].id == chatId && chats[0].userId == userId) {
        assert r == [chats[0]] + rest;
        LaterThanHead(chats, rest);
        ConsIncreasing(chats[0], rest);
      } else {
        assert r == rest;
      }
    }
  }

  /** Rows taken from after the head of an increasing table were created after it. */
  lemma LaterThanHead(chats: seq<ChatRow>, rest: seq<ChatRow>)
    requires |chats| > 0 && Increasing(chats)
    requires forall k :: 0 <= k < |rest| ==> rest[k] in chats[1..]
    ensures forall k :: 0 <= k < |rest| ==> chats[0].createdAt < rest[k].createdAt
  {
    forall k | 0 <= k < |rest| ensures chats[0].createdAt < rest[k].createdAt {
      var n :| 0 <= n < |chats[1..]| && chats[1..][n] == rest[k];
      assert chats[n + 1] == rest[k];
    }
  }

  lemma ConsIncreasing(c: ChatRow, rest: seq<ChatRow>)
    requires Increasing(rest)
    requires forall k :: 0 <= k < |rest| ==> c.createdAt < rest[k].createdAt
    ensures Increasing([c] + rest)
  {
    var r := [c] + rest;
    forall i, j | 0 <= i < j < |r| ensures r[i].createdAt < r[j].createdAt {
      assert r[j] == rest[j - 1];
      if i > 0 { assert r[i] == rest[i - 1]; }
    }
  }

  /** `RemoveOwned` keeps ids unique. */
  lemma {:induction false} RemoveOwnedUnique(chats: seq<ChatRow>, chatId: string, userId: string)
    requires UniqueIds(chats)
    ensures UniqueIds(RemoveOwned(chats, chatId, userId))
  {
    if |chats| > 0 {
      var tail := chats[1..];
      assert UniqueIds(tail) by {
        forall i, j | 0 <= i < |tail| && 0 <= j < |tail| && i != j
          ensures tail[i].id != tail[j].id
        {
          assert tail[i] == chats[i + 1] && tail[j] == chats[j + 1];
        }
      }
      RemoveOwnedUnique(tail, chatId, userId);
      var rest := RemoveOwned(tail, chatId, userId);
      if !(chats[0].id == chatId && chats[0].userId == userId) {
        forall k | 0 <= k < |rest|
          ensures chats[0].id != rest[k].id
        {
          var n :| 0 <= n < |tail| && tail[n] == rest[k];
          assert chats[n + 1] == tail[n];
        }
        ConsUnique(chats[0], rest);
      }
    }
  }

  lemma ConsUnique(head: ChatRow, rest: seq<ChatRow>)
    requires UniqueIds(rest)
    requires forall k :: 0 <= k < |rest| ==> head.id != rest[k].id
    ensures UniqueIds([head] + rest)
  {
    var r := [head] + rest;
    forall i, j | 0 <= i < |r| && 0 <= j < |r| && i != j
      ensures r[i].id != r[j].id
    {
      if i > 0 {
        assert r[i] == rest[i - 1];
      }
      if j > 0 {
        assert r[j] == rest[j - 1];
      }
    }
  }

  lemma DeletePreserves(s: Store, chatId: string, userId: string)
    requires WellFormed(s)
    ensures WellFormed(Delete(s, chatId, userId).0)
  {
    var (t, r) := Delete(s, chatId, userId);
    if r.Ok? {
      RemoveOwnedIncreasing(s.chats, chatId, userId);
      RemoveOwnedUnique(s.chats, chatId, userId);
      forall i | 0 <= i < |t.chats|
        ensures t.chats[i].createdAt < t.clock
      {
        assert t.chats[i] in s.chats;
      }
    }
    forall k | 0 <= k < |t.messages|
      ensures HasChat(t.chats, t.messages[k].chatId)
    {
      var m := t.messages[k];
      assert m in s.messages && m.chatId != chatId;
      var n :| 0 <= n < |s.messages| && s.messages[n] == m;
      var i :| 0 <= i < |s.chats| && s.chats[i].id == m.chatId;
      assert s.chats[i] in t.chats;
    }
  }
}
