/**
 * The helpers every chat controller goes through: the caller's language,
 * schema rejection, the catch-all for thrown errors, and the success and
 * error bodies. A response is a status and a JSON body; the translator is a
 * parameter.
 */
module ControllerUtils {
  import opened Wrappers
  import opened Domain
  import opened Json

  /** What the authentication middleware attaches as `req.user`. */
  datatype AuthUser = AuthUser(id: string, email: string, language: string)

  datatype Response = Response(status: nat, body: Json)

  const Ok200: nat := 200
  const BadRequest: nat := 400
  const NotFound: nat := 404
  const ServerError: nat := 500

  /** `getUserLanguage`: the caller's stored language when it is non-empty, otherwise `"en"`. */
  function UserLanguage(user: Option<AuthUser>): (code: string)
    ensures code != ""
    ensures user.Some? && user.value.language != "" ==> code == user.value.language
    ensures user.None? || user.value.language == "" ==> code == "en"
  {
    if user.Some? && user.value.language != "" then user.value.language else "en"
  }

  /** The services are asked for Arabic exactly when the caller's stored language is `"ar"`. */
  lemma ArabicOnlyWhenStored(user: Option<AuthUser>)
    ensures LanguageOf(UserLanguage(user)) == Ar <==> user.Some? && user.value.language == "ar"
  {
  }

  /** A body holding only an error message. */
  function ErrorBody(message: string): (j: Json)
    ensures Get(j, "error") == Some(JStr(message))
  {
    JObj([Member("error", JStr(message))])
  }

  /** `sendError`: the given status, with the message under `error`. */
  function SendError(status: nat, message: string): (r: Response)
    ensures r.status == status && Get(r.body, "error") == Some(JStr(message))
  {
    Response(status, ErrorBody(message))
  }

  /**
   * `validateRequest`: a body the schema rejects is answered with 400 and no
   * data; an accepted one yields the parsed data and no response.
   */
  function ValidateRequest<T>(parsed: Option<T>, t: string -> string): (out: (Option<Response>, Option<T>))
    ensures parsed.None? <==> out.0.Some?
    ensures out.1 == parsed
    ensures out.0.Some? ==> out.0.value == SendError(BadRequest, t("error_invalid_input"))
  {
    if parsed.None? then (Some(SendError(BadRequest, t("error_invalid_input"))), None)
    else (None, parsed)
  }

  /** The message `asyncHandler` answers a thrown error with: the translation, or `"Server error"` when that is empty. */
  function ServerErrorMessage(t: string -> string): (m: string)
    ensures m != ""
    ensures t("error_server") != "" ==> m == t("error_server")
  {
    if t("error_server") != "" then t("error_server") else "Server error"
  }

  /**
   * `asyncHandler`: a handler that completes keeps its response; one that
   * throws is answered with 500 and a non-empty server-error message.
   */
  function AsyncHandler(run: Result<Response, string>, t: string -> string): (r: Response)
    ensures run.Ok? ==> r == run.value
    ensures run.Err? ==> r.status == ServerError && Get(r.body, "error") == Some(JStr(ServerErrorMessage(t)))
  {
    match run
    case Ok(resp) => resp
    case Err(_) => SendError(ServerError, ServerErrorMessage(t))
  }

  // ---------------------------------------------------------------------------
  // Object spread: `{ ...data, key: value }`
  // ---------------------------------------------------------------------------

  predicate HasKey(ms: seq<Member>, key: string)
  {
    exists i :: 0 <= i < |ms| && ms[i].key == key
  }

  /** Every member named `key` gets the value, in place. */
  function Overwrite(ms: seq<Member>, key: string, value: Json): (r: seq<Member>)
    ensures |r| == |ms|
  {
    if |ms| == 0 then []
    else
      var last := ms[|ms| - 1];
      Overwrite(ms[..|ms| - 1], key, value) + [if last.key == key then Member(key, value) else last]
  }

  /** `{ ...data, key: value }`: an existing property keeps its place and takes the value; a new one goes last. */
  function Spread(ms: seq<Member>, key: string, value: Json): seq<Member>
  {
    if HasKey(ms, key) then Overwrite(ms, key, value) else ms + [Member(key, value)]
  }

  lemma HasKeySnoc(ms: seq<Member>, m: Member, key: string)
    ensures HasKey(ms + [m], key) <==> HasKey(ms, key) || m.key == key
  {
    if HasKey(ms + [m], key) && m.key != key {
      var i :| 0 <= i < |ms| + 1 && (ms + [m])[i].key == key;
      assert ms[i].key == key;
    }
    if HasKey(ms, key) {
      var i :| 0 <= i < |ms| && ms[i].key == key;
      assert (ms + [m])[i].key == key;
    }
    if m.key == key {
      assert (ms + [m])[|ms|].key == key;
    }
  }

  /** Overwriting makes `key` read the value wherever it was present. */
  lemma {:induction false} OverwriteLookupKey(ms: seq<Member>, key: string, value: Json)
    ensures Lookup(Overwrite(ms, key, value), key) == if HasKey(ms, key) then Some(value) else None
  {
    if |ms| > 0 {
      var init := ms[..|ms| - 1];
      var last := ms[|ms| - 1];
      var m := if last.key == key then Member(key, value) else last;
      OverwriteLookupKey(init, key, value);
      LookupSnoc(Overwrite(init, key, value), m, key);
      assert ms == init + [last];
      HasKeySnoc(init, last, key);
    } else {
      assert !HasKey(ms, key);
    }
  }

  /** Overwriting leaves every other key's lookup alone. */
  lemma {:induction false} OverwriteLookupOther(ms: seq<Member>, key: string, value: Json, other: string)
    requires other != key
    ensures Lookup(Overwrite(ms, key, value), other) == Lookup(ms, other)
  {
    if |ms| > 0 {
      var init := ms[..|ms| - 1];
      var last := ms[|ms| - 1];
      var m := if last.key == key then Member(key, value) else last;
      OverwriteLookupOther(init, key, value, other);
      LookupSnoc(Overwrite(init, key, value), m, other);
      assert ms == init + [last];
      LookupSnoc(init, last, other);
    }
  }

  /** After the spread the object reads `value` at `key`, and every other property as before. */
  lemma SpreadLookup(ms: seq<Member>, key: string, value: Json, other: string)
    ensures Get(JObj(Spread(ms, key, value)), key) == Some(value)
    ensures other != key ==> Get(JObj(Spread(ms, key, value)), other) == Get(JObj(ms), other)
  {
    OverwriteLookupKey(ms, key, value);
    if other != key {
      OverwriteLookupOther(ms, key, value, other);
    }
    LookupSnoc(ms, Member(key, value), key);
    LookupSnoc(ms, Member(key, value), other);
  }

  /**
   * `sendSuccess`: status 200; a truthy message is spread into the data under
   * `message`, and without one the data is sent unchanged.
   */
  function SendSuccess(data: seq<Member>, message: Option<string>): (r: Response)
    ensures r.status == Ok200
    ensures message.None? || message.value == "" ==> r.body == JObj(data)
    ensures message.Some? && message.value != "" ==> Get(r.body, "message") == Some(JStr(message.value))
    ensures forall k :: k != "message" ==> Get(r.body, k) == Get(JObj(data), k)
  {
    if message.Some? && message.value != "" then
      var m := message.value;
      assert forall k :: k != "message" ==> Get(JObj(Spread(data, "message", JStr(m))), k) == Get(JObj(data), k) by {
        forall k | k != "message"
          ensures Get(JObj(Spread(data, "message", JStr(m))), k) == Get(JObj(data), k)
        {
          SpreadLookup(data, "message", JStr(m), k);
        }
      }
      SpreadLookup(data, "message", JStr(m), "message");
      Response(Ok200, JObj(Spread(data, "message", JStr(m))))
    else Response(Ok200, JObj(data))
  }
}
