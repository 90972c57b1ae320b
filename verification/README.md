# AI chatbot: a Dafny model of the chat pipeline

This project models the chat pipeline of a bilingual (English and Arabic) AI
chatbot. The system has an Express backend in front of a local model runtime and
a React client. The model covers both sides of the wire, and everything outside
the pipeline becomes a value or a parameter:

- the database is an in-memory store of chats and messages;
- the Redis cache is a map with a connection flag;
- the model runtime is a function `ask(model, prompt)` giving the runtime's answer;
- the translator is a function `t(key)`;
- the client's query cache is a map from query keys to entries.

**Backend**

- `Cleaning`: the text cleaner, applied to chat titles and to summaries.
- `ChatRepo`: the chat repository. It derives titles, checks ownership on
  append, lists newest first, and deletes in two steps.
- `ChatService`: the chat service. It answers from the cache or generates,
  persists, and invalidates the cache.
- `Cache`: the soft-failing cache, with its keys. The AI-response key holds
  truncated base64 (RFC 4648 section 4; see `Base64`), so prompts that share a
  prefix share a key.
- `Ollama` and `Providers`: prompt building and provider dispatch, including the
  rule-based fallback.
- `Validation`: the message validators.
- `Sse`: the server-sent events encoder, a subset of section 9.2 of the WHATWG
  HTML Standard.
- `ControllerUtils`, `ChatController`, `ModelsController`, `ProfileController`:
  the controllers' decisions and statuses.
- `Summary` and `SummaryRepo`: the bilingual profile summary.

**Client**

- `ClientApi`: the stream line decoder and the error mapping of authenticated
  requests.
- `StreamingHook`: the streaming accumulator and the chat-list upsert.
- `ChatMessages`: the message-list state.
- `ChatInterface`: the send, rollback and delete handlers.
- `QueryCache`: the query-cache updaters, keys and retry policy.
- `ChatUtils` and `AuthForms`: the small utilities and the form guard chains.

**Shared**

- `Json`: a JSON serialiser and parser, with a round-trip proof.
- `Pipeline`: ties the two sides together. A frame the server writes decodes,
  in the client, to the event it carries. The chunks the client yields
  concatenate to the reply. That reply is what lands in the cached chat list.

Where the source has odd behaviour, the model keeps it as written and a lemma
states it. Examples:

- `ChatRepo.DeleteForeignChatLosesMessages`: deleting another user's chat
  removes its messages.
- `Cache.AiKeyAliases`: prompts that share a prefix share a cache key.
- `ChatRepo.TitleNeverFallsBack`: the title fallback can never run, because
  the provider never fails.
- `Pipeline.ErrorDecodes`: an error event with an empty message reads as a
  normal finish.
- `ProfileController.GenerateSummary`: a regenerated summary is always stored
  as English.

## Model

| member | source | states |
|---|---|---|
| Text.Trim | backend/src/repositories/chat.repo.ts:9 | `trim()` cuts whitespace runs at both ends only: the result is a middle slice of the input with whitespace outside it and no whitespace at either end |
| Text.TrimNoop | backend/src/repositories/chat.repo.ts:25 | trimming already trimmed text changes nothing |
| Text.LowerAscii | backend/src/controllers/models.controller.ts:21 | `toLowerCase()` on the length-preserving ASCII range: upper-case letters become lower-case and every other character stays |
| Text.Split | AI-Chatbot/src/services/api.ts:203 | `split("\n")` gives at least one piece, no piece holds the separator, and joining the pieces with it gives the input back |
| Text.SplitHead | AI-Chatbot/src/services/api.ts:203 | a text ending before the first separator is the first piece |
| Text.NatToString | backend/src/utils/ollama.ts:64 | a status number is printed as decimal digits without a leading zero |
| Text.NatToStringRoundTrip | backend/src/utils/ollama.ts:64 | the printed digits read back as the number |
| Text.NatToStringInjective | backend/src/utils/ollama.ts:64 | distinct statuses print differently |
| Domain.LanguageOf | backend/src/utils/controller.ts:14-16 | a stored language code is served as Arabic exactly when it is "ar" |
| Domain.KindNamed | backend/src/controllers/chat.controller.ts:14-24 | a model name is accepted only when it names one of the seven kinds, and then names that kind |
| Domain.KindNameRoundTrip | backend/src/controllers/chat.controller.ts:14-24 | every kind's name is accepted as that kind |
| Ollama.LastUserMessage | backend/src/utils/ollama.ts:7-9 | the content of the last user message, or "" when no message is from the user |
| Ollama.LastUserIgnoresReplies | backend/src/utils/ollama.ts:7-9 | assistant messages after the last user message do not change it |
| Ollama.FullPrompt | backend/src/utils/ollama.ts:14-34 | the prompt is the general or expert system prompt of the language, "\n\nUser: ", the last user message, and "\n\nAssistant:" |
| Ollama.FullPromptOnlyLastUser | backend/src/utils/ollama.ts:26-34 | two histories give the same prompt exactly when their last user messages agree, so no other history reaches the runtime |
| Ollama.CallError | backend/src/utils/ollama.ts:68-75 | every error thrown by a call starts with the model name |
| Ollama.CallResult | backend/src/utils/ollama.ts:39-76 | a call succeeds exactly when the runtime answered below 400, with non-empty trimmed text; every other outcome is an error naming the model |
| Ollama.CallResultText | backend/src/utils/ollama.ts:67 | a successful answer is the trimmed response, or "No response" when it is missing or blank |
| Providers.SimpleReply | backend/src/services/ai/providers.ts:9-21 | with no last user message the reply asks for a question in the language; otherwise the message is quoted inside the language's fixed sentence; the reply is never empty |
| Providers.SimpleReplyInjective | backend/src/services/ai/providers.ts:17-19 | the echoed question can be read back, so distinct questions get distinct replies |
| Providers.Generate | backend/src/services/ai/providers.ts:27-47 | the runtime-backed provider returns the runtime's text when the call succeeds and the rule-based reply for the same input when it fails, so it never fails and never answers "" |
| Providers.ProviderFor | backend/src/services/ai/providers.ts:53-70 | llama, phi3, gemma, qwen and tinyllama are served by the runtime with their model tag and the general prompt; every other kind by the rule-based provider |
| Providers.RuntimeDownEchoes | backend/src/services/ai/providers.ts:33-46 | with the runtime unreachable every kind answers with the rule-based reply |
| Base64.Utf8Append | backend/src/services/cache.service.ts:120 | the UTF-8 bytes of a concatenation are the bytes of each part, in order |
| Base64.EncodeLength | backend/src/services/cache.service.ts:120-121 | base64 of n bytes has 4 characters per started group of 3 bytes, padding included |
| Base64.EncodeAppend | backend/src/services/cache.service.ts:120-121 | base64 of a whole number of 3-byte groups followed by more bytes is the two encodings concatenated |
| Base64.EncodePrefix50 | backend/src/services/cache.service.ts:120-122 | two byte strings that agree on their first 38 bytes agree on the first 50 base64 characters |
| Base64.HeadOf | backend/src/services/cache.service.ts:120-122 | the first 50 base64 characters are fixed by the first 38 bytes: 48 from the first 36 and 2 from the next two |
| Validation.LastMessage | backend/src/utils/validation.utils.ts:11-17 | the last message whatever its role; an empty list fails with "No user message found" |
| Validation.FirstWithRole | backend/src/utils/validation.utils.ts:25-26 | the position of the first message with the role, or none when no message has it |
| Validation.MessagesForSaving | backend/src/utils/validation.utils.ts:22-35 | succeeds exactly when both roles occur, returning the first user and the first assistant message; otherwise fails with the source's message |
| Cache.GetAfterSet | backend/src/services/cache.service.ts:35-58 | while the client works, reading a key just set gives the value and other keys read as before; ttl 0 or none stores without expiry and a positive ttl with it |
| Cache.GetAfterDel | backend/src/services/cache.service.ts:35-68 | after a delete the key misses and other keys read as before |
| Cache.Unreachable | backend/src/services/cache.service.ts:35-80 | disconnected or failing, reads miss, `exists` is false, and writes and deletes change nothing |
| Cache.ExistsIffGet | backend/src/services/cache.service.ts:35-80 | `exists` holds exactly when `get` finds a value |
| Cache.Take | backend/src/services/cache.service.ts:122 | `slice(0, n)` is the first n characters, or the whole text when it is shorter |
| Cache.PromptDigest | backend/src/services/cache.service.ts:120-122 | the prompt part of the key is at most 50 characters |
| Cache.KeysDisjoint | backend/src/services/cache.service.ts:88-120 | profile, list and reply keys never collide, and distinct users get distinct profile and list keys |
| Cache.AiKeyAliases | backend/src/services/cache.service.ts:120-133 | prompts whose UTF-8 encodings agree on their first 38 bytes share a reply key |
| Cache.AiKeyAliasExample | backend/src/services/cache.service.ts:120-122 | two different 39-character ASCII prompts share a reply key |
| Cache.AsciiUtf8 | backend/src/services/cache.service.ts:120 | ASCII text encodes to one byte per character |
| Cache.ChatHistoryRoundTrip | backend/src/services/cache.service.ts:98-111 | while the client works, a cached chat list is read back as the same JSON value |
| Cache.ProfileRoundTrip | backend/src/services/cache.service.ts:83-96 | while the client works, a cached profile is read back as the same JSON value |
| Cache.AiResponseRoundTrip | backend/src/services/cache.service.ts:113-135 | writing and reading a reply build the same key, so a cached reply is found for the same model, prompt and language |
| Cache.InvalidateUserCache | backend/src/services/cache.service.ts:137-143 | exactly the user's profile and list keys are deleted; every other key reads as before, and nothing changes when the client is down |
| Cleaning.StripMarkup | backend/src/repositories/chat.repo.ts:11-15 | the emphasis, underline, strike-through and code passes leave no `*`, `_`, `~` or backtick and keep every other character, with its multiplicity |
| Cleaning.LeadingHashes | backend/src/repositories/chat.repo.ts:16 | the heading marker is the run of up to six `#` at the current position, and no longer |
| Cleaning.StripHeadings | backend/src/repositories/chat.repo.ts:16 | the heading pass only deletes characters |
| Cleaning.HeadingMarkerDeleted | backend/src/repositories/chat.repo.ts:16 | one to six `#` followed by a whitespace character are deleted together |
| Cleaning.HeadingsAbsent | backend/src/repositories/chat.repo.ts:16 | text without `#` passes the heading pass unchanged |
| Cleaning.IndexOf | backend/src/repositories/chat.repo.ts:17 | the link scanner finds the first occurrence of a character, or reports that there is none |
| Cleaning.LinkAt | backend/src/repositories/chat.repo.ts:17 | a link match at `[` has non-empty text copied from inside the brackets and spans at least the four bracket characters |
| Cleaning.StripLinks | backend/src/repositories/chat.repo.ts:17 | the link pass only deletes characters |
| Cleaning.LinkUnwrapped | backend/src/repositories/chat.repo.ts:17 | `[text](url)` with non-empty text and url becomes `text` |
| Cleaning.LinksAbsent | backend/src/repositories/chat.repo.ts:17 | text without `[` passes the link pass unchanged |
| Cleaning.DropLeading | backend/src/repositories/chat.repo.ts:19 | the leading quote run is removed and nothing after it |
| Cleaning.DropTrailing | backend/src/repositories/chat.repo.ts:19 | the trailing quote run is removed and nothing before it |
| Cleaning.StripQuoteRuns | backend/src/repositories/chat.repo.ts:19-20 | the result is a middle slice of the input with only quote characters cut away at both ends, and it neither starts nor ends with a quote |
| Cleaning.SecondQuotePassNoop | backend/src/repositories/chat.repo.ts:19-20 | the second quote pass, whose class holds only ASCII quotes, never deletes anything after the first |
| Cleaning.StripPrefix | backend/src/repositories/chat.repo.ts:22 | a text starting with none of the labels is unchanged; otherwise the first label that matches, ignoring case, is cut together with the whitespace after it |
| Cleaning.CollapseSpaces | backend/src/repositories/chat.repo.ts:24 | collapsing never lengthens the text and keeps whether it starts with whitespace |
| Cleaning.CollapseSingleSpaced | backend/src/repositories/chat.repo.ts:24 | after collapsing every whitespace character is a single plain space |
| Cleaning.CollapseKeepsVisible | backend/src/repositories/chat.repo.ts:24 | collapsing keeps every non-whitespace character, in order |
| Cleaning.CollapseNoop | backend/src/repositories/chat.repo.ts:24 | already single-spaced text is unchanged by collapsing |
| Cleaning.Clean | backend/src/repositories/chat.repo.ts:6-27 | the cleaned text has no markup characters, no whitespace at either end, only single plain spaces inside, and is never longer than the input |
| Cleaning.CleanKeepsPlain | backend/src/repositories/chat.repo.ts:6-27 | text that none of the passes would touch comes out unchanged |
| ChatRepo.MessagesOfAppend | backend/src/repositories/chat.repo.ts:131-142 | a chat read back after a second batch of rows holds its earlier messages followed by the new ones, in order |
| ChatRepo.MessagesOfTag | backend/src/repositories/chat.repo.ts:99 | rows written for one chat read back as exactly the given messages for that chat and as nothing for any other chat |
| ChatRepo.FreshId | backend/src/repositories/chat.repo.ts:93-102 | the id given to a created chat belongs to no existing chat |
| ChatRepo.TitleSource | backend/src/repositories/chat.repo.ts:49-50 | the title source is never empty; it is the content of the first user message when that is non-empty, and "New Chat" when there is no user message |
| ChatRepo.TitleLanguage | backend/src/repositories/chat.repo.ts:53-57 | the title language is "ar" exactly when the source holds a character in U+0600..U+06FF and "en" otherwise, whatever the preference |
| ChatRepo.GeneratedTitle | backend/src/repositories/chat.repo.ts:81 | a generated title is at most 60 characters, free of markup and single-spaced |
| ChatRepo.GeneratedTitleIsPrefix | backend/src/repositories/chat.repo.ts:81 | the title is the whole cleaned text when that fits in 60 characters, and otherwise exactly its first 60 |
| ChatRepo.FallbackTitle | backend/src/repositories/chat.repo.ts:87-90 | a source of at most 50 characters is kept; a longer one becomes its first 50 characters followed by "..." |
| ChatRepo.DeriveTitle | backend/src/repositories/chat.repo.ts:61-91 | a successful generation gives a title of at most 60 characters without markup; a failure gives the truncation fallback |
| ChatRepo.TitleNeverFallsBack | backend/src/repositories/chat.repo.ts:68-91 | since the llama provider never fails, every title is a cleaned generated text of at most 60 characters |
| ChatRepo.TitleIgnoresPreference | backend/src/repositories/chat.repo.ts:52-57 | the stored language preference never changes the title |
| ChatRepo.CreateWithMessages | backend/src/repositories/chat.repo.ts:42-103 | the new chat has a fresh id, the caller's user, model and language (not the detected title language), a title of at most 60 characters, and exactly the given messages in order; nothing else in the store changes |
| ChatRepo.ChatsOf | backend/src/repositories/chat.repo.ts:106-108 | the selection holds only the user's chats, and every chat of the user |
| ChatRepo.ListByUser | backend/src/repositories/chat.repo.ts:105-111 | one entry per chat of the user, each carrying that chat's messages |
| ChatRepo.ChatsOfNewestFirst | backend/src/repositories/chat.repo.ts:108 | chats stored in creation order are selected newest first |
| ChatRepo.ListNewestFirst | backend/src/repositories/chat.repo.ts:105-111 | in a well-formed store the listing is strictly newest first by creation time |
| ChatRepo.CreateThenList | backend/src/repositories/chat.repo.ts:93-111 | a chat just created heads its owner's listing, with its messages |
| ChatRepo.FindOwned | backend/src/repositories/chat.repo.ts:119-124 | a chat is found exactly when one matches both the chat id and the user id |
| ChatRepo.AddMessagesToChat | backend/src/repositories/chat.repo.ts:113-143 | an unowned or missing chat fails with "Chat not found or access denied" and writes nothing; otherwise the messages are appended in order and the chat comes back with its earlier messages followed by the new ones |
| ChatRepo.AddReturnsOwnChat | backend/src/repositories/chat.repo.ts:119-142 | with unique ids, the chat read back after appending is the caller's own |
| ChatRepo.RemoveOwned | backend/src/repositories/chat.repo.ts:152-157 | the owner-scoped delete removes exactly the chats matching both id and user and keeps every other chat |
| ChatRepo.DropMessagesOthers | backend/src/repositories/chat.repo.ts:147-149 | after the message delete the chat has no messages, and every other chat keeps its messages |
| ChatRepo.Delete | backend/src/repositories/chat.repo.ts:145-158 | the messages of the chat id are always deleted first; the chat row goes only when it is owned, otherwise the delete fails and the chat rows stay |
| ChatRepo.DeleteForeignChatLosesMessages | backend/src/repositories/chat.repo.ts:145-158 | deleting someone else's chat fails but still empties that chat's messages, and the owner's listing shows it with none |
| ChatRepo.DeleteKeepsOtherMessages | backend/src/repositories/chat.repo.ts:147-149 | a delete never changes the messages of another chat |
| ChatRepo.CreatePreserves | backend/src/repositories/chat.repo.ts:93-102 | creating keeps the store well formed: unique ids, creation order, every message row attached to a chat |
| ChatRepo.AddPreserves | backend/src/repositories/chat.repo.ts:131-136 | a successful append keeps the store well formed |
| ChatRepo.DeletePreserves | backend/src/repositories/chat.repo.ts:145-158 | a delete keeps the store well formed |
| Json.ParseSer | backend/src/utils/sse.utils.ts:22 | parsing the serialised text of any value gives the value back |
| Json.ValueRoundTrip | AI-Chatbot/src/services/api.ts:208 | the parser reads back exactly a serialised value and leaves whatever follows it |
| Json.StringRoundTrip | AI-Chatbot/src/services/api.ts:208 | an escaped string body reads back as the original string, whatever characters it holds |
| Json.SerHasNoNewline | backend/src/utils/sse.utils.ts:22 | serialised JSON never holds a raw newline, so a frame's payload stays on one line |
| Json.LookupSnoc | AI-Chatbot/src/services/api.ts:210-219 | a property read on an object finds its last member with that key |
| Sse.SetStreamingHeaders | backend/src/utils/sse.utils.ts:11-16 | exactly the four streaming headers are set, to event-stream, no-cache, keep-alive and no; every other header stays |
| Sse.FrameLines | backend/src/utils/sse.utils.ts:21-22 | a frame split on newlines is one `data: ` line with the JSON and two empty lines |
| Sse.FrameLinePayload | backend/src/utils/sse.utils.ts:22 | the frame's line starts with `data: ` and the text after those six characters parses to the event |
| Sse.SendChunk | backend/src/utils/sse.utils.ts:21-24 | an open stream gets the frame appended; a closed stream is unchanged |
| Sse.SendError | backend/src/utils/sse.utils.ts:29-32 | the error event `{error, done: true}` is written and the stream is ended |
| Sse.NothingAfterError | backend/src/utils/sse.utils.ts:29-32 | once the error is sent, later writes add nothing |
| Sse.SendAllWrites | backend/src/utils/sse.utils.ts:21-24 | writing events one by one appends their frames in order |
| ClientApi.Headers | AI-Chatbot/src/services/api.ts:65-74 | the bearer header is sent exactly when a token is stored; the caller's headers are kept and the content type defaults to JSON |
| ClientApi.FailureError | AI-Chatbot/src/services/api.ts:82-89 | a failed reply throws an ApiError carrying its status, with the body's truthy error or "HTTP <status>" ("Request failed" for an unreadable body); exactly a null body throws a TypeError instead, with no status |
| ClientApi.AuthFetch | AI-Chatbot/src/services/api.ts:65-99 | a non-ok reply becomes an ApiError with the body's error or "HTTP <status>" and the status, except that a null body becomes "Network error occurred" without a status; a network failure becomes "Network error occurred" without a status; an ok reply gives its body; any status an error carries is the reply's own non-ok status |
| ClientApi.ServerErrorReported | AI-Chatbot/src/services/api.ts:82-89 | a failed reply with a non-empty error reports that message and the status |
| ClientApi.BareFailureReported | AI-Chatbot/src/services/api.ts:85-89 | a failed reply without an error field reports "HTTP <status>" |
| ClientApi.SignIn | AI-Chatbot/src/services/api.ts:103-124 | a successful sign-up or login stores the returned token; a failed request keeps the session; an ok body that is null rejects with a TypeError and stores nothing; the call succeeds exactly when the request gives a non-null body |
| ClientApi.NullSignInKeepsSession | AI-Chatbot/src/services/api.ts:109-113 | an ok sign-in reply with a null body fails on reading its token and leaves the session unchanged |
| ClientApi.Logout | AI-Chatbot/src/services/api.ts:126-132 | after logout no token is stored, so the client is not authenticated |
| ClientApi.LoginAuthenticates | AI-Chatbot/src/services/api.ts:117-132 | after a login returning a token the client is authenticated and sends that token as the bearer |
| ClientApi.LogoutDropsBearer | AI-Chatbot/src/services/api.ts:72-128 | after logout no bearer header is sent |
| ClientApi.EventStep | AI-Chatbot/src/services/api.ts:210-223 | a truthy error throws before any chunk of the same event; otherwise a truthy chunk is yielded first, and a truthy done stops, after yielding the chat when present |
| ClientApi.LineStep | AI-Chatbot/src/services/api.ts:205-228 | lines without the `data: ` prefix and lines whose payload does not parse are skipped; other lines are handled as their event |
| ClientApi.Lines | AI-Chatbot/src/services/api.ts:205-230 | everything yielded for a read is truthy |
| ClientApi.StreamStopsEarly | AI-Chatbot/src/services/api.ts:197-231 | after a stop or a throw, later reads are never looked at |
| ClientApi.QuietBodyEnds | AI-Chatbot/src/services/api.ts:199-200 | a body that never stops or throws ends normally, without an error |
| ClientApi.CreateChatStream | AI-Chatbot/src/services/api.ts:161-235 | a non-ok status throws the reported error as an ApiError with the status, except that a null error body throws a TypeError without a status; a missing body throws "Response body is null"; otherwise the reads are decoded |
| ClientApi.SplitFrameDropped | AI-Chatbot/src/services/api.ts:199-205 | any frame whose payload has no line feed, cut between two reads inside its "data: " prefix, is lost: the stream ends with nothing yielded, since each read is split on its own |
| Pipeline.ServerFrameSplitLost | AI-Chatbot/src/services/api.ts:199-231 | every frame the server writes, cut inside its "data: " prefix, is lost, while the same frame in one read decodes to its event |
| ClientApi.QuietFrame | AI-Chatbot/src/services/api.ts:205-206 | a frame whose line lacks the `data: ` prefix yields nothing and does not stop |
| Pipeline.FrameDecodes | backend/src/utils/sse.utils.ts:22 | a frame written by the server and received in one read decodes to exactly the handling of its event |
| Pipeline.FramesDecode | AI-Chatbot/src/services/api.ts:197-231 | a stream of frames, one per read, decodes to the fold of the event handling over the events |
| Pipeline.ChunkEventStep | AI-Chatbot/src/services/api.ts:214-216 | a chunk event yields its text exactly when the text is non-empty and does not stop |
| Pipeline.DoneEventStep | AI-Chatbot/src/services/api.ts:218-222 | the final event yields the chat and stops |
| Pipeline.ReplyDecodes | AI-Chatbot/src/services/api.ts:197-231 | chunk frames followed by the done frame decode to the non-empty chunks in order, then the chat, ending normally |
| Pipeline.YieldsCarryReply | AI-Chatbot/src/hooks/useChatStreaming.ts:63-64 | the texts the client accumulates concatenate to the concatenation of the chunks sent, empty chunks included |
| Pipeline.StreamedReplyCached | AI-Chatbot/src/hooks/useChatStreaming.ts:56-154 | after a reply streamed as frames, completion gets the concatenated reply, the chat, and the request messages plus the reply; the cached list starts with that chat holding the same reply; streaming is over |
| Pipeline.ErrorDecodes | backend/src/utils/sse.utils.ts:29-32 | after an error frame the client has yielded the earlier chunks and throws the message; an empty message is falsy, so done wins and the stream ends normally |
| StreamingHook.ChatRefOf | AI-Chatbot/src/hooks/useChatStreaming.ts:71-84 | chat data is used when its id and title are strings, and then carries them |
| StreamingHook.UpsertFront | AI-Chatbot/src/hooks/useChatStreaming.ts:101-136 | the chat ends up first; a missing list becomes the chat alone, a new id is prepended, an existing entry is taken out of its place and put first with the others in order |
| StreamingHook.UpsertIsDeleteThenPrepend | AI-Chatbot/src/hooks/useChatStreaming.ts:117-134 | on a list with unique ids the upsert equals removing the id and prepending the chat |
| StreamingHook.UpsertKeepsUnique | AI-Chatbot/src/hooks/useChatStreaming.ts:117-134 | the upsert keeps chat ids unique |
| StreamingHook.ChunkStatesShowReply | AI-Chatbot/src/hooks/useChatStreaming.ts:51-68 | streaming starts empty and after each chunk shows the concatenation of the chunks so far |
| StreamingHook.ChunkCallbacksReport | AI-Chatbot/src/hooks/useChatStreaming.ts:69 | each chunk callback gets the chunk and the reply so far, that chunk included |
| StreamingHook.ChunkArrives | AI-Chatbot/src/hooks/useChatStreaming.ts:63-69 | one more chunk extends the reply, the states and the callbacks by exactly one step |
| StreamingHook.Consume | AI-Chatbot/src/hooks/useChatStreaming.ts:58-74 | the loop's reply is the concatenation of the chunk texts and its chat data is the last chat yielded |
| StreamingHook.StreamChat | AI-Chatbot/src/hooks/useChatStreaming.ts:42-165 | on a throw: the error state, the error callback, and the list untouched; otherwise: idle state, completion with the reply and the request messages plus the reply, and the chat upserted first when chat data came |
| StreamingHook.ConcatAppend | AI-Chatbot/src/hooks/useChatStreaming.ts:64 | the reply of two runs of chunks is the two replies concatenated |
| QueryCache.ChatKeys | AI-Chatbot/src/lib/queryClient.ts:24-37 | both chat keys share the `["chats"]` prefix, the list key differs from every detail key, distinct ids give distinct detail keys, and the profile key is outside the chats prefix |
| QueryCache.QueryRetry | AI-Chatbot/src/lib/queryClient.ts:8-14 | a 401 or 403 is never retried; any other failure is retried exactly while fewer than three attempts have failed |
| QueryCache.RetriesBounded | AI-Chatbot/src/lib/queryClient.ts:13 | from the third failure on no query is retried |
| QueryCache.AuthFailureNotRetried | AI-Chatbot/src/lib/queryClient.ts:8-12 | a 401 reply whose body is not null fails the fetch with its status, and that failure is never retried |
| QueryCache.NullBodyAuthFailureRetried | AI-Chatbot/src/lib/queryClient.ts:8-12 | the exception: a 401 reply whose body is null fails as "Network error occurred" with no status, and is retried while fewer than three failures have happened |
| QueryCache.Invalidate | AI-Chatbot/src/hooks/useApi.ts:29-70 | invalidation marks stale exactly the cached queries under the prefix and keeps the rest |
| QueryCache.Clear | AI-Chatbot/src/hooks/useApi.ts:43-45 | clearing drops every cached query |
| QueryCache.ProfileInvalidationSparesChats | AI-Chatbot/src/hooks/useApi.ts:29-70 | invalidating the profile leaves the chat queries as they were |
| QueryCache.SignInFlow | AI-Chatbot/src/hooks/useApi.ts:16-39 | a successful sign-up or login stores the token and invalidates the profile; a failure, including an ok reply whose body is null, changes neither |
| QueryCache.SignOutFlow | AI-Chatbot/src/hooks/useApi.ts:41-46 | signing out empties the query cache and drops the token |
| QueryCache.UpdateLanguageFlow | AI-Chatbot/src/hooks/useApi.ts:68-71 | the profile is invalidated only when the update request succeeds |
| QueryCache.FindIndex | AI-Chatbot/src/hooks/useApi.ts:110-112 | the position of the first chat with the id, or none when no chat has it |
| QueryCache.CreateChatUpdate | AI-Chatbot/src/hooks/useApi.ts:105-121 | a missing list becomes the chat alone; a known id is replaced in place and every other entry keeps its position; a new chat is prepended |
| QueryCache.CreateChatListed | AI-Chatbot/src/hooks/useApi.ts:105-121 | after the update the chat is listed, and the list grew by at most one |
| QueryCache.WithoutIdMembers | AI-Chatbot/src/hooks/useApi.ts:141-143 | the filter keeps exactly the chats with another id |
| QueryCache.DeleteChatUpdate | AI-Chatbot/src/hooks/useApi.ts:137-147 | a missing list stays missing; otherwise every chat with the id is removed |
| QueryCache.WithoutAbsentId | AI-Chatbot/src/hooks/useApi.ts:141-143 | removing an id no chat has changes nothing |
| QueryCache.WithoutIdAppend | AI-Chatbot/src/hooks/useApi.ts:141-143 | the filter keeps the order of the remaining chats |
| QueryCache.UpdateProfileData | AI-Chatbot/src/hooks/useApi.ts:171-183 | a missing profile stays missing; otherwise the submitted fields overwrite the user's, every other user field, the summary and the stats stay |
| QueryCache.GenerateSummaryData | AI-Chatbot/src/hooks/useApi.ts:197-206 | only the summary is replaced, and a missing profile stays missing |
| QueryCache.UpdateProfileIdempotent | AI-Chatbot/src/hooks/useApi.ts:171-183 | applying the same profile update twice is the same as once |
| ChatMessages.SetCurrentChat | AI-Chatbot/src/hooks/useChatMessages.ts:30-59 | selecting the chat already open keeps the messages on screen; selecting another shows its stored messages, and selecting none shows none |
| ChatMessages.SetCurrentChatIdempotent | AI-Chatbot/src/hooks/useChatMessages.ts:30-59 | selecting the same chat twice is the same as once |
| ChatMessages.AddUserMessage | AI-Chatbot/src/hooks/useChatMessages.ts:64-78 | the returned user message is appended after every earlier message and the current chat stays |
| ChatMessages.AddEmptyAssistantMessage | AI-Chatbot/src/hooks/useChatMessages.ts:83-97 | an empty assistant message is appended after every earlier message |
| ChatMessages.UpdateLastAssistantMessage | AI-Chatbot/src/hooks/useChatMessages.ts:102-119 | only a trailing assistant message takes the content; without one the state is unchanged, and every earlier message stays |
| ChatMessages.UpdateLastTwice | AI-Chatbot/src/hooks/useChatMessages.ts:102-119 | streaming overwrites: the last update alone decides the shown content |
| ChatMessages.KeptBySlice | AI-Chatbot/src/hooks/useChatMessages.ts:127 | how many messages `slice(0, -count)` keeps: all but the last `count`, none for `count` 0, and the first `-count` for a negative count |
| ChatMessages.RemoveLastMessages | AI-Chatbot/src/hooks/useChatMessages.ts:124-129 | the kept messages are a prefix of the old ones and the current chat stays |
| ChatMessages.RemoveEdgeCases | AI-Chatbot/src/hooks/useChatMessages.ts:127 | removing zero messages, or at least as many as there are, empties the list |
| ChatMessages.RemoveUndoesAdd | AI-Chatbot/src/hooks/useChatMessages.ts:64-129 | removing one message undoes adding the user message, and removing two undoes adding it with the empty assistant reply |
| ChatMessages.ClearMessages | AI-Chatbot/src/hooks/useChatMessages.ts:134-139 | a new chat has no messages and no current chat |
| ChatMessages.UpdateCurrentChatData | AI-Chatbot/src/hooks/useChatMessages.ts:144-169 | the saved chat becomes current carrying the messages on screen, which stay |
| ChatMessages.AdoptThenSelect | AI-Chatbot/src/hooks/useChatMessages.ts:30-169 | selecting the freshly saved chat again keeps the streamed messages rather than the stored ones |
| ChatUtils.ModelTypeFromList | AI-Chatbot/src/utils/chat.utils.ts:10-16 | an empty list gives the default; otherwise the first model's type |
| ChatUtils.ModelTypeIgnoresRest | AI-Chatbot/src/utils/chat.utils.ts:10-16 | models after the first never change the chosen type |
| ChatUtils.FallbackLeadsWithDefault | AI-Chatbot/src/constants/models.constants.ts:7-15 | the client's fallback list yields the default model type |
| AuthForms.SignUpSubmit | AI-Chatbot/src/components/SignUp.tsx:31-47 | a missing field, a password under six characters and a mismatched confirmation are reported in that order; sign-up is called exactly when all three checks pass, with the entered values and language |
| AuthForms.LoginSubmit | AI-Chatbot/src/components/Login.tsx:26-37 | a missing field, then a password under six characters, is reported; sign-in is called exactly when both checks pass |
| AuthForms.SignUpPassesLogin | AI-Chatbot/src/components/SignUp.tsx:31-47 | credentials the sign-up form accepts are accepted by the login form |
| AuthForms.SignUpErrorIsEarliest | AI-Chatbot/src/components/SignUp.tsx:31-44 | a mismatch is reported only when the fields are filled and the password is long enough |
| ChatInterface.ChunksFillPlaceholder | AI-Chatbot/src/components/ChatInterface.tsx:134-136 | feeding every chunk callback to the open placeholder leaves it holding the concatenation of all chunks, everything before it untouched |
| ChatInterface.Settled | AI-Chatbot/src/components/ChatInterface.tsx:127-150 | after the chunks, an error removes both added messages; completion leaves the user message and the whole reply, and adopts the saved chat only when no chat was open |
| ChatInterface.HandleSendMessage | AI-Chatbot/src/components/ChatInterface.tsx:120-156 | a blank input, a signed-out user or a running stream refuses the send; otherwise the input is cleared, the request carries the shown messages plus the new one and the open chat's id, a failed stream restores the view, and a finished one shows the full reply, adopts and lists the saved chat |
| ChatInterface.HandleKeyPress | AI-Chatbot/src/components/ChatInterface.tsx:158-162 | only Enter without Shift sends, and then exactly as the send button would |
| ChatInterface.HandleDeleteChat | AI-Chatbot/src/components/ChatInterface.tsx:105-118 | an unconfirmed delete changes nothing; a confirmed one clears the view only when that chat is open, and the list loses the chat only when the server deleted it |
| ChatInterface.DeletedChatUnlisted | AI-Chatbot/src/components/ChatInterface.tsx:105-118 | after a confirmed, successful delete no listed chat has the id |
| ChatInterface.HandleCreateNewChat | AI-Chatbot/src/components/ChatInterface.tsx:99-103 | signed out nothing changes; signed in the view and the input are emptied and nothing else |
| ChatInterface.SelectFirstChat | AI-Chatbot/src/components/ChatInterface.tsx:84-89 | the newest chat is opened with its messages only when chats are listed and none is open |
| ChatInterface.RefreshOnMount | AI-Chatbot/src/components/ChatInterface.tsx:76-80 | a signed-in mount marks the chat list stale and keeps every cached query; a signed-out one changes nothing |
| ControllerUtils.UserLanguage | backend/src/utils/controller.ts:14-16 | the caller's stored language when it is non-empty, otherwise English; never empty |
| ControllerUtils.ArabicOnlyWhenStored | backend/src/utils/controller.ts:14-16 | services are asked for Arabic exactly when the caller's stored language is `ar` |
| ControllerUtils.ErrorBody | backend/src/utils/controller.ts:66-68 | the body reads the message under `error` |
| ControllerUtils.SendError | backend/src/utils/controller.ts:66-68 | the response has the given status and the message under `error` |
| ControllerUtils.ValidateRequest | backend/src/utils/controller.ts:22-36 | a rejected body is answered with 400 and the translated invalid-input message, exactly when the schema refuses it; an accepted one passes its data through |
| ControllerUtils.ServerErrorMessage | backend/src/utils/controller.ts:49-50 | the translated server-error text, or a fixed fallback; never empty |
| ControllerUtils.AsyncHandler | backend/src/utils/controller.ts:41-53 | a handler that completes keeps its response; one that throws is answered with 500 and the server-error message |
| ControllerUtils.OverwriteLookupKey | backend/src/utils/controller.ts:59 | overwriting a property makes it read the new value wherever it was present |
| ControllerUtils.OverwriteLookupOther | backend/src/utils/controller.ts:59 | overwriting a property leaves every other property's value alone |
| ControllerUtils.SpreadLookup | backend/src/utils/controller.ts:59 | after `{ ...data, key: value }` the key reads the value and every other key reads as before |
| ControllerUtils.SendSuccess | backend/src/utils/controller.ts:58-61 | status 200; without a message the data is sent unchanged, with one the body reads it under `message` and every other property as in the data |
| ChatController.ParseMessage | backend/src/controllers/chat.controller.ts:27-30 | an accepted message has role `user` or `assistant` and non-empty content, read from the object's own properties |
| ChatController.ParseMessages | backend/src/controllers/chat.controller.ts:25-31 | the array is accepted exactly when every item is a valid message, and then item by item |
| ChatController.ParseModel | backend/src/controllers/chat.controller.ts:14-24 | an absent model defaults to llama; an accepted one is the string naming its kind |
| ChatController.ParseChatId | backend/src/controllers/chat.controller.ts:13 | an absent id is accepted as none; any string, the empty one included, is accepted as itself; anything else is rejected |
| ChatController.ParseChatBody | backend/src/controllers/chat.controller.ts:12-33 | an accepted body is an object with at least one message, every message non-empty, and llama when no model is given |
| ChatController.MessageRoundTrip | backend/src/controllers/chat.controller.ts:27-30 | a non-empty message as the service serialises it is parsed back to itself |
| ChatController.RequestAccepted | backend/src/controllers/chat.controller.ts:12-33 | every body the client builds from non-empty messages is accepted as exactly the request it encodes |
| ChatController.WireRequestAccepted | backend/src/controllers/chat.controller.ts:12-33 | the same holds after the client serialises the body and the server parses it |
| ChatController.SavedResponse | backend/src/controllers/chat.controller.ts:44-55 | a service failure is the only 500; a saved chat is answered with 200 and the chat under `chat` |
| ChatController.CreateChat | backend/src/controllers/chat.controller.ts:37-56 | a rejected body is a 400 that changes nothing; a valid one is dispatched to append or create, and the reply is 200 with the chat or 500 exactly when the service failed |
| ChatController.NewChatSaved | backend/src/controllers/chat.controller.ts:44-55 | a valid request without an id always succeeds and stores exactly one new chat, owned by the caller, after the existing ones |
| ChatController.ForeignAppendRefused | backend/src/controllers/chat.controller.ts:44-55 | appending to a chat the caller does not own is a 500 and leaves the store unchanged |
| ChatController.ListChats | backend/src/controllers/chat.controller.ts:58-61 | the service's list is sent under `chats` with 200, or 500 when reading it fails |
| ChatController.ListAfterCreate | backend/src/controllers/chat.controller.ts:37-61 | after a new chat is saved the caller's list is the repository's current one, the new chat included |
| ChatController.DeleteChat | backend/src/controllers/chat.controller.ts:63-78 | a missing id is a 400 that changes nothing; otherwise 404 exactly when the caller owns no chat with that id, and success carries the translated `chat_deleted` message |
| ChatService.Reply | backend/src/services/chat.service.ts:19-36 | a cache hit is returned with the cache untouched; a miss asks the model's provider; with a live cache the reply is cached under the last message's key and no other key changes; the reply is never empty |
| ChatService.HitSkipsProvider | backend/src/services/chat.service.ts:25-36 | on a hit the provider's behaviour cannot affect the reply |
| ChatService.ReplyKeepsUserKeys | backend/src/services/chat.service.ts:29-35 | caching a reply never touches a user's chat-list or profile entry |
| ChatService.CreateChatWithAI | backend/src/services/chat.service.ts:10-49 | no messages is the only failure and changes nothing; otherwise a new chat owned by the user is appended holding the messages followed by one non-empty assistant reply |
| ChatService.AddMessageToChat | backend/src/services/chat.service.ts:66-104 | it fails exactly when the messages are empty or the user owns no such chat, and then the store is unchanged; on success the chat gains the last message and the reply, and no chat is added |
| ChatService.DeleteChat | backend/src/services/chat.service.ts:106-113 | the repository's delete decides store and result; the user's cache entries are dropped only when the delete succeeded |
| ChatService.ListUserChats | backend/src/services/chat.service.ts:51-64 | a truthy cached list is returned unchanged; otherwise the repository's list is returned and cached; a failing cache read is passed on; the store is never changed |
| ChatService.ListAfterInvalidate | backend/src/services/chat.service.ts:51-64 | after the user's cache is invalidated the list comes from the repository |
| ChatService.ListFreshAfterCreate | backend/src/services/chat.service.ts:45-64 | after a chat is created the next list is the repository's current one |
| ChatService.ListFreshAfterAdd | backend/src/services/chat.service.ts:51-101 | after messages are added the next list is the repository's current one |
| ChatService.ListFreshAfterDelete | backend/src/services/chat.service.ts:51-110 | after a delete the next list is the repository's current one |
| ChatService.FailedAddKeepsList | backend/src/services/chat.service.ts:95-101 | a refused append leaves the user's cached list as it was |
| ChatService.ListTwice | backend/src/services/chat.service.ts:51-64 | listing twice with a live, empty cache gives the same answer and state both times |
| ChatService.ListCacheDown | backend/src/services/chat.service.ts:51-64 | with the cache down the list is read from the repository and nothing changes |
| Summary.RecentChats | backend/src/services/summary.ts:33-38 | the user's newest chats, as many as there are up to fifty, in the listing's order |
| Summary.UserContentsMembers | backend/src/services/summary.ts:45-47 | a text is collected from a history exactly when a user message holds it; assistant messages never contribute |
| Summary.QuestionsMembers | backend/src/services/summary.ts:44-48 | a text is collected exactly when some chat has a user message holding it |
| Summary.Unique | backend/src/services/summary.ts:43-50 | the set's values are without repeats and are exactly the collected texts |
| Summary.UniqueKeepsOrder | backend/src/services/summary.ts:43-50 | the values keep first-insertion order: deduplicating a prefix gives a prefix of the result |
| Summary.UniqueOfDistinct | backend/src/services/summary.ts:43-50 | texts without repeats come out unchanged |
| Summary.CleanSummary | backend/src/services/summary.ts:5-26 | the cleaned summary has no markup, no outer whitespace, no whitespace runs, and is no longer than the input |
| Summary.PlainSummaryKept | backend/src/services/summary.ts:5-26 | a summary that is already plain text passes through the cleaner unchanged |
| Summary.SummarizeUser | backend/src/services/summary.ts:28-73 | both summaries come from the same newest chats, each is the cleaned llama answer to the prompt in its language, and each is free of markup, trimmed and single-spaced |
| Summary.SummaryDependsOnQuestions | backend/src/services/summary.ts:33-72 | stores whose newest chats ask the same questions give the same summaries |
| Summary.SummaryWhenRuntimeDown | backend/src/services/summary.ts:54-72 | with the runtime unreachable each summary is the cleaned fallback reply to the prompt in its language |
| SummaryRepo.FindByUserId | backend/src/repositories/summary.repo.ts:4-6 | a row is found exactly when the user has one, and it is that user's |
| SummaryRepo.Upsert | backend/src/repositories/summary.repo.ts:8-30 | the user's row gets both texts and the given language, English by default, showing the Arabic text exactly when the language is `ar`; every other row is left alone |
| SummaryRepo.UpsertKeyed | backend/src/repositories/summary.repo.ts:14-15 | every row stays under its own user's id, so a user never has two summaries |
| SummaryRepo.UpsertOverwrites | backend/src/repositories/summary.repo.ts:16-28 | update and create write the same fields: a second upsert leaves nothing of the first |
| SummaryRepo.FindAfterUpsert | backend/src/repositories/summary.repo.ts:4-30 | what was upserted is what is found |
| ProfileController.ShownContent | backend/src/controllers/profile.controller.ts:33-37 | an `ar` user sees the Arabic text, anyone else the English one, and the stored content when the chosen text is empty |
| ProfileController.GetProfile | backend/src/controllers/profile.controller.ts:12-57 | 401 without a caller, 404 for an unknown user; otherwise the user's row, a summary exactly when one is stored, shown in the user's language, and the number of the user's chats |
| ProfileController.ParsePreferences | backend/src/controllers/profile.controller.ts:64-74 | a body is accepted exactly when it is an object whose `language` is `en` or `ar`, and that language is what is read |
| ProfileController.UpdatePreferences | backend/src/controllers/profile.controller.ts:65-82 | 401 without a caller and 400 for a rejected body, both changing nothing; a success changes only that user's language; no other status arises |
| ProfileController.PreferenceIsKnown | backend/src/controllers/profile.controller.ts:64-76 | a stored preference is always English or Arabic |
| ProfileController.SaveSummary | backend/src/controllers/profile.controller.ts:96-98 | the row stored and returned holds both texts with the English one as content and language `en`, beside the translated notice; other users' rows stay |
| ProfileController.GenerateSummary | backend/src/controllers/profile.controller.ts:84-103 | 401 without a caller and nothing stored; otherwise the caller's freshly generated summaries are stored as English and returned |
| ProfileController.ProfileAfterSave | backend/src/controllers/profile.controller.ts:33-96 | after a save the profile shows the English summary to everyone but `ar` users, who see the Arabic one or the English one when it is empty |
| ProfileController.SwitchToArabicShowsArabic | backend/src/controllers/profile.controller.ts:33-76 | switching the preference to Arabic makes the profile show the stored Arabic summary without regenerating it |
| ModelsController.FirstFamily | backend/src/controllers/models.controller.ts:27-42 | the first family in the fixed order whose name occurs in the lower-cased name, and none only when no family occurs |
| ModelsController.Classify | backend/src/controllers/models.controller.ts:21-42 | the first matching family decides the type and the display prefix; with none the type is llama and the display name is the name itself |
| ModelsController.ClassifyKeepsName | backend/src/controllers/models.controller.ts:25-42 | the display name always ends with the runtime's name |
| ModelsController.ClassifyIgnoresCase | backend/src/controllers/models.controller.ts:21 | names that agree once lower-cased get the same type |
| ModelsController.LlamaWins | backend/src/controllers/models.controller.ts:27-29 | a name containing `llama` is a llama whatever other family names it contains |
| ModelsController.PhiMeansPhi3 | backend/src/controllers/models.controller.ts:36-38 | `phi` gives the `phi3` type when none of the three earlier families occurs |
| ModelsController.Listed | backend/src/controllers/models.controller.ts:44-50 | an entry keeps the runtime's name as id, size and date, with the classified type and display name |
| ModelsController.ListAvailableModels | backend/src/controllers/models.controller.ts:4-89 | the count is always the number of models; a failed listing or an entry without a name gives the fixed three-model fallback, flagged, and only then; otherwise each runtime model is listed in order |
| ModelsController.ClientTypeFromReply | backend/src/controllers/models.controller.ts:53-87 | the client's model type from the reply is llama for the fallback, its default for an empty listing, and otherwise the first runtime model's classified type |

## Left out

- Network I/O is left out: the HTTP call to the model runtime, the model listing request, every `fetch` of the client, and Redis connect, reconnect and disconnect. Their outcomes are parameters (`ask`, `fetched`, `ClientApi.Outcome`, the cache's `connected` and `failing` flags).
- Database transactions, generated ids and timestamps are not modelled. Ids come from `ChatRepo.FreshId`, and creation time is a counter. Message order within a chat is insertion order.
- Cache expiry, `staleTime`, `Date.now` ids and ISO timestamps are not modelled, because they depend on the clock. TTLs are recorded but never lapse, and the models endpoint's timestamp is a parameter.
- The server-side streaming handler is left out. The routes mount a `createChatStream` handler, but the chat controller does not define one, so there is nothing to model. The events `Pipeline` feeds the encoder are the shapes the SSE event type allows.
- Authentication is not modelled: password hashing, tokens, the auth middleware, and the email format check. The authenticated caller is an `Option<AuthUser>` parameter.
- Rendering, toasts, scrolling and i18n resources are not modelled, nor are routing, the Express wiring, or the float generation settings. React state updates are sequential state transformers; batching and effect scheduling are not modelled.
- The repository's `createChat` and `addMessages` are not modelled. The pipeline never calls them.
- Json: numbers and insignificant whitespace are not modelled, so the parser rejects both. The replies that carry numbers keep them outside `Json.Json`. The profile reply's `stats.totalChats` (backend/src/controllers/profile.controller.ts:56) is the `totalChats` field of `ProfileController.Reply` on the server and `QueryCache.ProfileData`'s `stats` on the client. The models reply's `count` and each model's `size` (backend/src/controllers/models.controller.ts:48-55) are fields of `ModelsController.ModelsReply` and `ModelsController.ListedModel`. `Cache.ChatHistoryRoundTrip` and `Cache.ProfileRoundTrip` hold for number-free values only.
- Text.LowerAscii: lower-cases ASCII letters only. `toLowerCase` on other scripts is not modelled; it can change the length of the text.
- Strings are one `char` per UTF-16 code unit. Length limits (the 60- and 50-unit title caps, the six-character password minimum) are counted in those units. Surrogate pairs are not given their own meaning.
- The title cleaner's `/i` prefix match folds ASCII letters and the few non-ASCII letters that occur in its patterns. Full Unicode case folding is not modelled.
- A stored user language other than `en` or `ar` is served as English, as the controllers' `=== "ar"` tests do.
- The catch-alls that turn a database failure into a 500 are not modelled, because the in-memory store does not fail. The exception is `updatePreferences` on a missing user, which is modelled as a 500.
- A summary row's database id and `updatedAt` are not modelled.
- StreamingHook.StreamChat: the `"Streaming failed"` default for a thrown value that is not an `Error` is not modelled, because everything the stream throws is an `Error`. Most are `ApiError`s. Three are plain errors: the `TypeError` of a `null` error body (AI-Chatbot/src/services/api.ts:184-185, the `OtherError` of `ClientApi.CreateChatStream`), and the rejections of `fetch` (AI-Chatbot/src/services/api.ts:171) and of `reader.read()` (AI-Chatbot/src/services/api.ts:199). The two rejections are not outcomes of `ClientApi.CreateChatStream`, because network I/O is left out. `StreamChat` reports any thrown outcome by its message, as it would report them.
- ChatInterface.HandleSendMessage: the outer `catch` of `handleSendMessage` (AI-Chatbot/src/components/ChatInterface.tsx:151-155, which would remove only one message) is not modelled, because nothing reaches it. `streamChat` catches everything its `try` throws, the chunk and completion callbacks included (AI-Chatbot/src/hooks/useChatStreaming.ts:56-164). The error callback only logs, shows a toast and removes the two added messages. The message additions before the call are state updates.
- StreamingHook.ChatRefOf: a streamed chat whose `id` or `title` is not a string is treated as no chat. The source would store it as it came.
- QueryCache.MutationRetry is a constant (`false`) with no contract, so it has no row above.
- Cache.Set and Cache.Del: their contracts state only that the connection flags stay. `Cache.GetAfterSet`, `Cache.GetAfterDel` and `Cache.Unreachable` state what they store and remove.
- ClientApi.Stream: its contract states only that every yield is truthy. `ClientApi.StreamStopsEarly`, `ClientApi.QuietBodyEnds`, `ClientApi.SplitFrameDropped` and `Pipeline.FramesDecode` state how it decodes.
