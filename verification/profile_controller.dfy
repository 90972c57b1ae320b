/**
 * The profile endpoints: reading the profile with the summary in the user's
 * language and the chat count, changing the language preference, and
 * regenerating the summary. The user table, the summary table and the chat
 * store are in-memory values; the translator and the runtime are parameters.
 */
module ProfileController {
  import opened Wrappers
  import opened Domain
  import opened Json
  import opened ChatRepo
  import Providers
  import Summary
  import opened SummaryRepo
  import opened ControllerUtils

  datatype UserRow = UserRow(id: string, email: string, name: Option<string>, language: string)

  /** The user table, by id. */
  type Users = map<string, UserRow>

  /** The summary as the profile shows it. */
  datatype SummaryView = SummaryView(userId: string, language: string, content: string)

  datatype Reply =
    | Failure(status: nat, error: string)
    | Profile(user: UserRow, summary: Option<SummaryView>, totalChats: nat)
    | UserUpdated(user: UserRow)
    | SummarySaved(saved: SummaryRecord, message: string)

  function Status(r: Reply): nat
  {
    if r.Failure? then r.status else Ok200
  }

  const Unauthorized: nat := 401
  const AuthRequired: string := "Authentication required"

  /**
   * The text shown for a stored summary: for an `"ar"` user the Arabic text,
   * for anyone else the English text, falling back to the stored content
   * when the chosen text is empty.
   */
  function ShownContent(record: SummaryRecord, language: string): (content: string)
    ensures language == "ar" && record.contentAr != "" ==> content == record.contentAr
    ensures language != "ar" && record.contentEn != "" ==> content == record.contentEn
    ensures (if language == "ar" then record.contentAr else record.contentEn) == "" ==> content == record.content
  {
    var chosen := if language == "ar" then record.contentAr else record.contentEn;
    if chosen != "" then chosen else record.content
  }

  /**
   * `getProfile`: 401 without a caller, 404 for an unknown user; otherwise
   * the user, the summary in the user's language (none without a stored
   * row), and the number of the user's chats.
   */
  function GetProfile(auth: Option<AuthUser>, users: Users, summaries: Summaries, store: Store): (r: Reply)
    ensures auth.None? ==> r == Failure(Unauthorized, AuthRequired)
    ensures auth.Some? && auth.value.id !in users ==> r == Failure(NotFound, "User not found")
    ensures auth.Some? && auth.value.id in users ==> var id := auth.value.id;
      && r.Profile? && r.user == users[id]
      && r.totalChats == |ChatsOf(store.chats, id)|
      && (r.summary.Some? <==> id in summaries)
      && (r.summary.Some? ==> r.summary.value == SummaryView(summaries[id].userId, users[id].language,
                                                             ShownContent(summaries[id], users[id].language)))
  {
    if auth.None? then Failure(Unauthorized, AuthRequired)
    else if auth.value.id !in users then Failure(NotFound, "User not found")
    else
      var user := users[auth.value.id];
      var summary := match FindByUserId(summaries, auth.value.id)
        case None => None
        case Some(record) => Some(SummaryView(record.userId, user.language, ShownContent(record, user.language)));
      Profile(user, summary, |ListByUser(store, auth.value.id)|)
  }

  /** `prefSchema`: an object whose `language` is `"en"` or `"ar"`. */
  function ParsePreferences(body: Json): (r: Option<string>)
    ensures r.Some? <==> body.JObj? && Get(body, "language") in {Some(JStr("en")), Some(JStr("ar"))}
    ensures r.Some? ==> Get(body, "language") == Some(JStr(r.value))
  {
    if body.JObj? && Get(body, "language") in {Some(JStr("en")), Some(JStr("ar"))} then Some(Get(body, "language").value.s)
    else None
  }

  /**
   * `updatePreferences`: 401 without a caller, 400 for any language but
   * `"en"` and `"ar"`, 500 when the user row does not exist (the update
   * throws); otherwise only that user's language changes.
   */
  function UpdatePreferences(auth: Option<AuthUser>, users: Users, body: Json): (out: (Users, Reply))
    ensures auth.None? ==> out == (users, Failure(Unauthorized, AuthRequired))
    ensures auth.Some? && ParsePreferences(body).None? ==> out == (users, Failure(BadRequest, "Invalid request data"))
    ensures out.1.Failure? ==> out.0 == users
    ensures out.1.UserUpdated? ==>
      && auth.Some? && auth.value.id in users && ParsePreferences(body).Some?
      && out.1.user == users[auth.value.id].(language := ParsePreferences(body).value)
      && out.0 == users[auth.value.id := out.1.user]
    ensures Status(out.1) in {Ok200, BadRequest, Unauthorized, ServerError}
  {
    if auth.None? then (users, Failure(Unauthorized, AuthRequired))
    else
      match ParsePreferences(body)
      case None => (users, Failure(BadRequest, "Invalid request data"))
      case Some(language) =>
        if auth.value.id !in users then (users, Failure(ServerError, "Internal server error"))
        else
          var row := users[auth.value.id].(language := language);
          (users[auth.value.id := row], UserUpdated(row))
  }

  /** A stored preference is always one of the two languages the interface has. */
  lemma PreferenceIsKnown(auth: Option<AuthUser>, users: Users, body: Json)
    requires UpdatePreferences(auth, users, body).1.UserUpdated?
    ensures UpdatePreferences(auth, users, body).1.user.language in {"en", "ar"}
  {
  }

  /**
   * The storing half of `generateSummary`: the row is upserted without a
   * language, so its content and language are the English ones whatever the
   * user prefers, and the reply carries the row and the translated notice.
   */
  function SaveSummary(summaries: Summaries, userId: string, b: Summary.Bilingual, t: string -> string)
    : (out: (Summaries, Reply))
    ensures out.1 == SummarySaved(SummaryRecord(userId, b.en, b.ar, b.en, "en"), t("summary_updated"))
    ensures out.0.Keys == summaries.Keys + {userId} && out.0[userId] == out.1.saved
    ensures forall u :: u in summaries && u != userId ==> out.0[u] == summaries[u]
  {
    var (m, saved) := Upsert(summaries, userId, b.en, b.ar, None);
    (m, SummarySaved(saved, t("summary_updated")))
  }

  /**
   * `generateSummary`: 401 without a caller; otherwise both summaries of the
   * caller's newest chats are generated and stored as English.
   */
  function GenerateSummary(auth: Option<AuthUser>, store: Store, summaries: Summaries, t: string -> string,
                           ask: (string, string) -> Providers.Upstream): (out: (Summaries, Reply))
    ensures auth.None? ==> out == (summaries, Failure(Unauthorized, AuthRequired))
    ensures auth.Some? ==> var b := Summary.SummarizeUser(store, auth.value.id, ask);
      && out.1 == SummarySaved(SummaryRecord(auth.value.id, b.en, b.ar, b.en, "en"), t("summary_updated"))
      && auth.value.id in out.0 && out.0[auth.value.id] == out.1.saved
  {
    if auth.None? then (summaries, Failure(Unauthorized, AuthRequired))
    else SaveSummary(summaries, auth.value.id, Summary.SummarizeUser(store, auth.value.id, ask), t)
  }

  /**
   * After a summary is saved, the profile shows its English text to everyone
   * but `"ar"` users, who see the Arabic one, or the English one when the
   * Arabic text is empty.
   */
  lemma ProfileAfterSave(auth: AuthUser, users: Users, store: Store, summaries: Summaries, b: Summary.Bilingual,
                         t: string -> string)
    requires auth.id in users
    ensures var after := SaveSummary(summaries, auth.id, b, t).0;
      var shown := GetProfile(Some(auth), users, after, store).summary;
      && shown.Some?
      && (users[auth.id].language != "ar" ==> shown.value.content == b.en)
      && (users[auth.id].language == "ar" ==> shown.value.content == (if b.ar != "" then b.ar else b.en))
  {
  }

  /** Switching to Arabic changes which stored text the profile shows, without regenerating anything. */
  lemma SwitchToArabicShowsArabic(auth: AuthUser, users: Users, body: Json, summaries: Summaries, store: Store)
    requires auth.id in users && auth.id in summaries
    requires ParsePreferences(body) == Some("ar")
    requires summaries[auth.id].contentAr != ""
    ensures var users2 := UpdatePreferences(Some(auth), users, body).0;
      GetProfile(Some(auth), users2, summaries, store).summary.value.content == summaries[auth.id].contentAr
  {
  }
}
