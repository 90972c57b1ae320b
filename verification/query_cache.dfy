/**
 * The client's query cache: the query keys, the retry policy, the invalidation
 * state of cached queries, and the updaters the mutation hooks apply to the
 * cached chat list and profile. Query functions, stale times and refetching
 * are left to the library and not modelled.
 */
module QueryCache {
  import opened Wrappers
  import opened Domain
  import Json
  import ClientApi

  // ---------------------------------------------------------------------------
  // Keys and retry policy
  // ---------------------------------------------------------------------------

  type Key = seq<string>

  const ProfileKey: Key := ["auth", "profile"]
  const ChatsAll: Key := ["chats"]

  function ChatsList(): Key
  {
    ChatsAll + ["list"]
  }

  function ChatsDetail(id: string): Key
  {
    ChatsAll + ["detail", id]
  }

  predicate HasPrefix(k: Key, p: Key)
  {
    |p| <= |k| && k[..|p|] == p
  }

  /** The chat keys share the `chats` prefix, differ from each other, and are told apart by id. */
  lemma ChatKeys(a: string, b: string)
    ensures HasPrefix(ChatsList(), ChatsAll) && HasPrefix(ChatsDetail(a), ChatsAll)
    ensures ChatsList() != ChatsDetail(a)
    ensures ChatsDetail(a) == ChatsDetail(b) <==> a == b
    ensures !HasPrefix(ProfileKey, ChatsAll)
  {
    if ChatsDetail(a) == ChatsDetail(b) {
      assert ChatsDetail(a)[2] == a && ChatsDetail(b)[2] == b;
    }
    assert ProfileKey[..1] != ChatsAll by {
      assert ProfileKey[..1][0] == "auth";
    }
  }

  /** Whether a failed query is tried again: never on 401 or 403, otherwise while fewer than three failures. */
  function QueryRetry(failureCount: int, status: Option<int>): (r: bool)
    ensures status == Some(401) || status == Some(403) ==> !r
    ensures status != Some(401) && status != Some(403) ==> (r <==> failureCount < 3)
  {
    if status == Some(401) || status == Some(403) then false else failureCount < 3
  }

  /** Mutations are never retried. */
  const MutationRetry: bool := false

  /** Retries stop after at most three failures, whatever the error. */
  lemma RetriesBounded(failureCount: int, status: Option<int>)
    requires failureCount >= 3
    ensures !QueryRetry(failureCount, status)
  {
  }

  /** The status a thrown client error carries, if any (`error?.status`). */
  function StatusOf(e: ClientApi.Thrown): Option<int>
  {
    if e.ApiError? then e.status else None
  }

  /** An authentication failure reported by `authFetch` is never retried. */
  lemma AuthFailureNotRetried(failureCount: int, body: Option<Json.Json>)
    requires body != Some(Json.JNull)
    ensures var r := ClientApi.AuthFetch(ClientApi.Reply(401, body));
      r.Err? && !QueryRetry(failureCount, StatusOf(r.error))
  {
  }

  /**
   * The exception: a 401 whose body is `null` surfaces as the network error,
   * which carries no status, so the query is retried like any other failure.
   */
  lemma NullBodyAuthFailureRetried(failureCount: int)
    ensures var r := ClientApi.AuthFetch(ClientApi.Reply(401, Some(Json.JNull)));
      r == Err(ClientApi.ApiError(ClientApi.NetworkError, None))
      && (QueryRetry(failureCount, StatusOf(r.error)) <==> failureCount < 3)
  {
  }

  // ---------------------------------------------------------------------------
  // Invalidation
  // ---------------------------------------------------------------------------

  /** Which cached queries are present, and whether each is marked for refetching. */
  datatype Queries = Queries(entries: map<Key, bool>)

  /** `invalidateQueries({ queryKey })`: marks every query under the prefix. */
  function Invalidate(q: Queries, prefix: Key): (r: Queries)
    ensures r.entries.Keys == q.entries.Keys
    ensures forall k :: k in r.entries ==> r.entries[k] == (q.entries[k] || HasPrefix(k, prefix))
  {
    Queries(map k | k in q.entries :: q.entries[k] || HasPrefix(k, prefix))
  }

  /** `queryClient.clear()`. */
  function Clear(q: Queries): (r: Queries)
    ensures r.entries == map[]
  {
    Queries(map[])
  }

  /** Invalidating the profile leaves every chat query as it was. */
  lemma ProfileInvalidationSparesChats(q: Queries, id: string)
    ensures var r := Invalidate(q, ProfileKey);
      (ChatsList() in q.entries ==> r.entries[ChatsList()] == q.entries[ChatsList()])
      && (ChatsDetail(id) in q.entries ==> r.entries[ChatsDetail(id)] == q.entries[ChatsDetail(id)])
  {
    assert !HasPrefix(ChatsList(), ProfileKey) by {
      assert ChatsList()[..2][0] == "chats";
    }
    assert !HasPrefix(ChatsDetail(id), ProfileKey) by {
      assert ChatsDetail(id)[..2][0] == "chats";
    }
  }

  /** `useAuth`'s sign-up and login: a success stores the token and invalidates the profile; a failure changes neither. */
  function SignInFlow(q: Queries, s: ClientApi.Session, r: ClientApi.Reply): (out: (Queries, ClientApi.Session))
    ensures ClientApi.SignIn(s, r).1.Ok? ==> out == (Invalidate(q, ProfileKey), ClientApi.SignIn(s, r).0)
    ensures ClientApi.SignIn(s, r).1.Err? ==> out == (q, s)
    ensures ClientApi.AuthFetch(r).Err? || ClientApi.AuthFetch(r) == Ok(Json.JNull) ==> out == (q, s)
  {
    var (t, res) := ClientApi.SignIn(s, r);
    if res.Ok? then (Invalidate(q, ProfileKey), t) else (q, s)
  }

  /** `useAuth`'s sign-out: the token is dropped and the whole cache is cleared. */
  function SignOutFlow(q: Queries, s: ClientApi.Session): (out: (Queries, ClientApi.Session))
    ensures out.0.entries == map[] && !ClientApi.IsAuthenticated(out.1)
  {
    (Clear(q), ClientApi.Logout(s))
  }

  /** `updateLanguage`: the profile is invalidated only after the update request succeeds. */
  function UpdateLanguageFlow(q: Queries, r: ClientApi.Reply): (out: Queries)
    ensures ClientApi.AuthFetch(r).Ok? ==> out == Invalidate(q, ProfileKey)
    ensures ClientApi.AuthFetch(r).Err? ==> out == q
  {
    if ClientApi.AuthFetch(r).Ok? then Invalidate(q, ProfileKey) else q
  }

  // ---------------------------------------------------------------------------
  // Cached chat list
  // ---------------------------------------------------------------------------

  /** A chat as the client caches it; timestamps and message ids are not modelled. */
  datatype ClientChat = ClientChat(id: string, title: string, model: string, language: string, messages: seq<Message>)

  /** `oldData?.chats`: absent when there is no cached list. */
  type ChatList = Option<seq<ClientChat>>

  predicate HasId(chats: seq<ClientChat>, id: string)
  {
    exists i :: 0 <= i < |chats| && chats[i].id == id
  }

  /** `findIndex` by id: the first position holding that id. */
  function FindIndex(chats: seq<ClientChat>, id: string): (r: Option<nat>)
    ensures r.None? <==> !HasId(chats, id)
    ensures r.Some? ==> r.value < |chats| && chats[r.value].id == id && forall j :: 0 <= j < r.value ==> chats[j].id != id
  {
    if |chats| == 0 then None
    else if chats[0].id == id then Some(0)
    else
      match FindIndex(chats[1..], id)
      case None =>
        assert forall i :: 1 <= i < |chats| ==> chats[i] == chats[1..][i - 1];
        None
      case Some(k) => Some(k + 1)
  }

  /**
   * `useCreateChat`'s update: no list becomes the one-chat list; a chat whose
   * id is listed replaces the first such entry in place; otherwise it is
   * prepended.
   */
  function CreateChatUpdate(prev: ChatList, chat: ClientChat): (r: ChatList)
    ensures prev.None? ==> r == Some([chat])
    ensures prev.Some? && !HasId(prev.value, chat.id) ==> r == Some([chat] + prev.value)
    ensures prev.Some? && HasId(prev.value, chat.id) ==>
      var i := FindIndex(prev.value, chat.id).value;
      r.Some? && |r.value| == |prev.value| && r.value[i] == chat
      && forall j :: 0 <= j < |prev.value| && j != i ==> r.value[j] == prev.value[j]
  {
    match prev
    case None => Some([chat])
    case Some(chats) =>
      match FindIndex(chats, chat.id)
      case Some(i) => Some(chats[i := chat])
      case None => Some([chat] + chats)
  }

  /** After a create the list always holds the chat, and grows by at most one entry. */
  lemma CreateChatListed(prev: ChatList, chat: ClientChat)
    ensures var r := CreateChatUpdate(prev, chat); r.Some? && HasId(r.value, chat.id)
    ensures prev.Some? ==> |CreateChatUpdate(prev, chat).value| <= |prev.value| + 1
  {
    var r := CreateChatUpdate(prev, chat);
    if prev.Some? && HasId(prev.value, chat.id) {
      var i := FindIndex(prev.value, chat.id).value;
      assert r.value[i].id == chat.id;
    } else {
      assert r.value[0] == chat;
    }
  }

  /** The chats whose id differs from `id`, in order. */
  function WithoutId(chats: seq<ClientChat>, id: string): (r: seq<ClientChat>)
    ensures |r| <= |chats|
  {
    if |chats| == 0 then []
    else
      var rest := WithoutId(chats[1..], id);
      if chats[0].id == id then rest else [chats[0]] + rest
  }

  /** Exactly the chats with another id survive the removal. */
  lemma {:induction false} WithoutIdMembers(chats: seq<ClientChat>, id: string)
    ensures forall c :: c in WithoutId(chats, id) <==> c in chats && c.id != id
  {
    if |chats| > 0 {
      WithoutIdMembers(chats[1..], id);
      assert chats == [chats[0]] + chats[1..];
    }
  }

  /** `useDeleteChat`'s update: every chat with that id is removed; a missing list stays missing. */
  function DeleteChatUpdate(prev: ChatList, id: string): (r: ChatList)
    ensures prev.None? ==> r.None?
    ensures prev.Some? ==> r == Some(WithoutId(prev.value, id))
  {
    match prev
    case None => None
    case Some(chats) => Some(WithoutId(chats, id))
  }

  /** Removing an id that is not listed changes nothing. */
  lemma {:induction false} WithoutAbsentId(chats: seq<ClientChat>, id: string)
    requires !HasId(chats, id)
    ensures WithoutId(chats, id) == chats
  {
    if |chats| > 0 {
      assert forall i :: 0 <= i < |chats| - 1 ==> chats[1..][i] == chats[i + 1];
      WithoutAbsentId(chats[1..], id);
    }
  }

  /** Removing by id keeps the relative order of the rest: it distributes over concatenation. */
  lemma {:induction false} WithoutIdAppend(a: seq<ClientChat>, b: seq<ClientChat>, id: string)
    ensures WithoutId(a + b, id) == WithoutId(a, id) + WithoutId(b, id)
  {
    if |a| == 0 {
      assert a + b == b;
    } else {
      assert (a + b)[1..] == a[1..] + b;
      WithoutIdAppend(a[1..], b, id);
    }
  }

  // ---------------------------------------------------------------------------
  // Cached profile
  // ---------------------------------------------------------------------------

  /**
   * The cached profile query data: the user's fields, the summary and the
   * stats, whose one field `totalChats` is the user's chat count.
   */
  datatype ProfileData = ProfileData(user: map<string, string>, summary: Option<Json.Json>, stats: Option<nat>)

  /** `useUpdateProfile`'s update: the submitted fields overwrite the user's, everything else is kept. */
  function UpdateProfileData(prev: Option<ProfileData>, updates: map<string, string>): (r: Option<ProfileData>)
    ensures prev.None? ==> r.None?
    ensures prev.Some? ==> r.Some? && r.value.summary == prev.value.summary && r.value.stats == prev.value.stats
    ensures prev.Some? ==> r.value.user.Keys == prev.value.user.Keys + updates.Keys
    ensures prev.Some? ==> forall k :: k in updates ==> r.value.user[k] == updates[k]
    ensures prev.Some? ==> forall k :: k in prev.value.user && k !in updates ==> r.value.user[k] == prev.value.user[k]
  {
    match prev
    case None => None
    case Some(p) => Some(p.(user := p.user + updates))
  }

  /** `useGenerateSummary`'s update: only the summary is replaced. */
  function GenerateSummaryData(prev: Option<ProfileData>, summary: Json.Json): (r: Option<ProfileData>)
    ensures prev.None? ==> r.None?
    ensures prev.Some? ==> r == Some(ProfileData(prev.value.user, Some(summary), prev.value.stats))
  {
    match prev
    case None => None
    case Some(p) => Some(p.(summary := Some(summary)))
  }

  /** Applying the same preference update twice is the same as once. */
  lemma UpdateProfileIdempotent(prev: Option<ProfileData>, updates: map<string, string>)
    ensures UpdateProfileData(UpdateProfileData(prev, updates), updates) == UpdateProfileData(prev, updates)
  {
    if prev.Some? {
      var u := prev.value.user + updates;
      assert u + updates == u;
    }
  }
}
