/**
 * The backend's key/value cache. The store is a map from key to entry; the
 * client is either connected or not, and while connected its calls may still
 * fail (`failing`). No operation ever throws: a failed or disconnected read
 * is a miss and a failed or disconnected write changes nothing. Expiry is
 * recorded but time is not modelled, so entries never lapse here.
 */
module Cache {
  import opened Wrappers
  import opened Text
  import Json
  import Base64

  datatype Entry = Entry(value: string, expiry: Option<nat>)

  datatype Cache = Cache(connected: bool, failing: bool, store: map<string, Entry>)

  /** Calls reach the store and succeed. */
  predicate Live(c: Cache)
  {
    c.connected && !c.failing
  }

  /** `get`: the stored value, or `null` (here `None`) on a miss, when disconnected, or on a client error. */
  function Get(c: Cache, key: string): Option<string>
  {
    if Live(c) && key in c.store then Some(c.store[key].value) else None
  }

  /** `set`: a ttl of 0 (or none) stores without expiry, a positive ttl with that expiry. */
  function Set(c: Cache, key: string, value: string, ttl: nat): (r: Cache)
    ensures r.connected == c.connected && r.failing == c.failing
  {
    if Live(c) then c.(store := c.store[key := Entry(value, if ttl == 0 then None else Some(ttl))]) else c
  }

  /** `del`. */
  function Del(c: Cache, key: string): (r: Cache)
    ensures r.connected == c.connected && r.failing == c.failing
  {
    if Live(c) then c.(store := c.store - {key}) else c
  }

  /** `exists`. */
  function Exists(c: Cache, key: string): bool
  {
    Live(c) && key in c.store
  }

  /** Reading a key just written gives the value written; other keys read as before. */
  lemma GetAfterSet(c: Cache, key: string, value: string, ttl: nat, other: string)
    requires Live(c) && other != key
    ensures Get(Set(c, key, value, ttl), key) == Some(value)
    ensures Get(Set(c, key, value, ttl), other) == Get(c, other)
    ensures Set(c, key, value, ttl).store[key].expiry == (if ttl == 0 then None else Some(ttl))
  {
  }

  /** A deleted key misses; other keys read as before. */
  lemma GetAfterDel(c: Cache, key: string, other: string)
    requires other != key
    ensures Get(Del(c, key), key) == None
    ensures Get(Del(c, key), other) == Get(c, other)
  {
  }

  /** A cache that cannot be reached misses on every read and ignores every write. */
  lemma Unreachable(c: Cache, key: string, value: string, ttl: nat)
    requires !Live(c)
    ensures Get(c, key) == None && !Exists(c, key)
    ensures Set(c, key, value, ttl) == c && Del(c, key) == c
  {
  }

  /** `exists` agrees with `get`. */
  lemma ExistsIffGet(c: Cache, key: string)
    ensures Exists(c, key) <==> Get(c, key).Some?
  {
  }

  function ProfileKey(userId: string): string
  {
    "user:profile:" + userId
  }

  function ChatsKey(userId: string): string
  {
    "user:chats:" + userId
  }

  /** `s.slice(0, n)`. */
  function Take(s: string, n: nat): (r: string)
    ensures |r| == if |s| < n then |s| else n
    ensures r == s[..|r|]
  {
    if |s| <= n then s else s[..n]
  }

  /** The base64 of the prompt's UTF-8 bytes, cut to 50 characters. */
  function PromptDigest(prompt: string): (d: string)
    ensures |d| <= 50
  {
    Take(Base64.Encode(Base64.Utf8(prompt)), 50)
  }

  /** The key under which a model reply is cached. */
  function AiKey(model: string, language: string, prompt: string): string
  {
    "ai:response:" + model + ":" + language + ":" + PromptDigest(prompt)
  }

  /** The three key families never collide, and each user has their own profile and list keys. */
  lemma KeysDisjoint(u: string, v: string, model: string, language: string, prompt: string)
    ensures ProfileKey(u) != ChatsKey(v)
    ensures AiKey(model, language, prompt) != ProfileKey(u)
    ensures AiKey(model, language, prompt) != ChatsKey(v)
    ensures ProfileKey(u) == ProfileKey(v) <==> u == v
    ensures ChatsKey(u) == ChatsKey(v) <==> u == v
  {
    assert ProfileKey(u)[5] == 'p' && ChatsKey(v)[5] == 'c';
    assert AiKey(model, language, prompt)[0] == 'a' && ProfileKey(u)[0] == 'u' && ChatsKey(v)[0] == 'u';
    if ProfileKey(u) == ProfileKey(v) {
      assert u == ProfileKey(u)[13..] == ProfileKey(v)[13..] == v;
    }
    if ChatsKey(u) == ChatsKey(v) {
      assert u == ChatsKey(u)[11..] == ChatsKey(v)[11..] == v;
    }
  }

  /**
   * Prompts agreeing on their first 38 UTF-8 bytes share a key, whatever
   * follows: 50 base64 characters encode only 37.5 bytes.
   */
  lemma AiKeyAliases(model: string, language: string, p: string, q: string)
    requires |Base64.Utf8(p)| >= 38 && |Base64.Utf8(q)| >= 38
    requires Base64.Utf8(p)[..38] == Base64.Utf8(q)[..38]
    ensures AiKey(model, language, p) == AiKey(model, language, q)
  {
    Base64.EncodePrefix50(Base64.Utf8(p), Base64.Utf8(q));
  }

  /** Two different questions that read each other's cached reply. */
  lemma AiKeyAliasExample(model: string, language: string)
    ensures var p := Repeat('a', 38) + "?";
            var q := Repeat('a', 38) + "!";
            p != q && AiKey(model, language, p) == AiKey(model, language, q)
  {
    var a := Repeat('a', 38);
    var p := a + "?";
    var q := a + "!";
    assert p[38] != q[38];
    AsciiUtf8(a);
    Base64.Utf8Append(a, "?");
    Base64.Utf8Append(a, "!");
    assert Base64.Utf8(p)[..38] == Base64.Utf8(a) == Base64.Utf8(q)[..38];
    AiKeyAliases(model, language, p, q);
  }

  /** ASCII text is one byte per character. */
  lemma {:induction false} AsciiUtf8(s: string)
    requires forall i :: 0 <= i < |s| ==> s[i] < '\U{80}'
    ensures |Base64.Utf8(s)| == |s|
  {
    if |s| > 0 {
      AsciiUtf8(s[1..]);
    }
  }

  /** `cacheChatHistory`: the list is stored as JSON text. */
  function CacheChatHistory(c: Cache, userId: string, chats: Json.Json, ttl: nat): Cache
  {
    Set(c, ChatsKey(userId), Json.Ser(chats), ttl)
  }

  /**
   * `getCachedChatHistory`: a non-empty stored text is parsed (a parse failure
   * throws, here `Err`); a miss or an empty text is `null`.
   */
  function GetCachedChatHistory(c: Cache, userId: string): Result<Option<Json.Json>, string>
  {
    ParseCached(Get(c, ChatsKey(userId)))
  }

  function ParseCached(cached: Option<string>): Result<Option<Json.Json>, string>
  {
    if cached.Some? && cached.value != "" then
      match Json.Parse(cached.value)
      case Some(v) => Ok(Some(v))
      case None => Err("Unexpected token in JSON")
    else Ok(None)
  }

  /** A list cached on a live connection is read back exactly. */
  lemma ChatHistoryRoundTrip(c: Cache, userId: string, chats: Json.Json, ttl: nat)
    requires Live(c)
    ensures GetCachedChatHistory(CacheChatHistory(c, userId, chats, ttl), userId) == Ok(Some(chats))
  {
    Json.SerStart(chats);
    Json.ParseSer(chats);
  }

  /** `cacheUserProfile`, with the default ttl of 300 seconds at the call sites. */
  function CacheUserProfile(c: Cache, userId: string, profile: Json.Json, ttl: nat): Cache
  {
    Set(c, ProfileKey(userId), Json.Ser(profile), ttl)
  }

  function GetCachedUserProfile(c: Cache, userId: string): Result<Option<Json.Json>, string>
  {
    ParseCached(Get(c, ProfileKey(userId)))
  }

  /** A profile cached on a live connection is read back exactly. */
  lemma ProfileRoundTrip(c: Cache, userId: string, profile: Json.Json, ttl: nat)
    requires Live(c)
    ensures GetCachedUserProfile(CacheUserProfile(c, userId, profile, ttl), userId) == Ok(Some(profile))
  {
    Json.SerStart(profile);
    Json.ParseSer(profile);
  }

  function CacheAiResponse(c: Cache, model: string, prompt: string, response: string, language: string, ttl: nat): Cache
  {
    Set(c, AiKey(model, language, prompt), response, ttl)
  }

  function GetCachedAiResponse(c: Cache, model: string, prompt: string, language: string): Option<string>
  {
    Get(c, AiKey(model, language, prompt))
  }

  /** Storing and reading a reply use the same key, so a live cache returns what was stored. */
  lemma AiResponseRoundTrip(c: Cache, model: string, prompt: string, response: string, language: string, ttl: nat)
    requires Live(c)
    ensures GetCachedAiResponse(CacheAiResponse(c, model, prompt, response, language, ttl), model, prompt, language) == Some(response)
  {
  }

  /**
   * `invalidateUserCache`: deletes the user's profile and list entries and
   * nothing else.
   */
  function InvalidateUserCache(c: Cache, userId: string): (r: Cache)
    ensures r.connected == c.connected && r.failing == c.failing
    ensures Live(c) ==> r.store == c.store - {ProfileKey(userId), ChatsKey(userId)}
    ensures !Live(c) ==> r == c
    ensures Get(r, ChatsKey(userId)) == None && Get(r, ProfileKey(userId)) == None
    ensures forall k :: k != ProfileKey(userId) && k != ChatsKey(userId) ==> Get(r, k) == Get(c, k)
  {
    Del(Del(c, ProfileKey(userId)), ChatsKey(userId))
  }
}
