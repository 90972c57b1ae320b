/**
 * The summary table: one row per user, keyed by the user id. `upsert` writes
 * the same fields whether it updates or creates, choosing the displayed
 * content by the language it is given.
 */
module SummaryRepo {
  import opened Wrappers

  datatype SummaryRecord = SummaryRecord(userId: string, contentEn: string, contentAr: string, content: string, language: string)

  /** The table, by user id. */
  type Summaries = map<string, SummaryRecord>

  /** Every row sits under its own user's id. */
  predicate Keyed(m: Summaries)
  {
    forall u :: u in m ==> m[u].userId == u
  }

  /** `findByUserId`: that user's row, or none. */
  function FindByUserId(m: Summaries, userId: string): (r: Option<SummaryRecord>)
    ensures r.Some? <==> userId in m
    ensures r.Some? && Keyed(m) ==> r.value.userId == userId
  {
    if userId in m then Some(m[userId]) else None
  }

  /**
   * `upsert`: the row for the user gets both texts, the Arabic one as its
   * content exactly when the language is `"ar"`, and the language itself,
   * which is `"en"` when none is given; every other row is left alone.
   */
  function Upsert(m: Summaries, userId: string, contentEn: string, contentAr: string, userLanguage: Option<string>)
    : (out: (Summaries, SummaryRecord))
    ensures out.1.userId == userId && out.1.contentEn == contentEn && out.1.contentAr == contentAr
    ensures out.1.language == (if userLanguage.Some? then userLanguage.value else "en")
    ensures out.1.language == "ar" ==> out.1.content == contentAr
    ensures out.1.language != "ar" ==> out.1.content == contentEn
    ensures userId in out.0 && out.0[userId] == out.1
    ensures out.0.Keys == m.Keys + {userId}
    ensures forall u :: u in m && u != userId ==> out.0[u] == m[u]
  {
    var language := userLanguage.GetOr("en");
    var row := SummaryRecord(userId, contentEn, contentAr, if language == "ar" then contentAr else contentEn, language);
    (m[userId := row], row)
  }

  /** The table stays keyed by user, so a user never has more than one summary. */
  lemma UpsertKeyed(m: Summaries, userId: string, contentEn: string, contentAr: string, userLanguage: Option<string>)
    requires Keyed(m)
    ensures Keyed(Upsert(m, userId, contentEn, contentAr, userLanguage).0)
  {
  }

  /** Update and create write the same row: a second upsert leaves nothing of the first. */
  lemma UpsertOverwrites(m: Summaries, userId: string, en1: string, ar1: string, l1: Option<string>,
                         en2: string, ar2: string, l2: Option<string>)
    ensures Upsert(Upsert(m, userId, en1, ar1, l1).0, userId, en2, ar2, l2) == Upsert(m, userId, en2, ar2, l2)
  {
    var first := Upsert(m, userId, en1, ar1, l1);
    var second := Upsert(m, userId, en2, ar2, l2);
    assert first.0[userId := second.1] == second.0;
  }

  /** What was upserted is what is found. */
  lemma FindAfterUpsert(m: Summaries, userId: string, contentEn: string, contentAr: string, userLanguage: Option<string>)
    ensures FindByUserId(Upsert(m, userId, contentEn, contentAr, userLanguage).0, userId)
      == Some(Upsert(m, userId, contentEn, contentAr, userLanguage).1)
  {
  }
}
