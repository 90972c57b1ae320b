/**
 * The client's API layer: the stored login token, the error mapping of
 * authenticated requests, and the line decoder of the streamed chat reply.
 * Network exchanges are given as their outcomes; the byte-to-text decoder is
 * assumed already applied, so a stream body is a sequence of text pieces, one per read.
 */
module ClientApi {
  import opened Wrappers
  import opened Text
  import Json

  // ---------------------------------------------------------------------------
  // Token
  // ---------------------------------------------------------------------------

  /** The `auth_token` entry of local storage. */
  datatype Session = Session(token: Option<string>)

  /** `isAuthenticated`: a non-empty token is stored. */
  predicate IsAuthenticated(s: Session)
  {
    s.token.Some? && s.token.value != ""
  }

  /**
   * The request headers: JSON content type, overridden by any caller header,
   * and a bearer `Authorization` header when a non-empty token is stored.
   */
  function Headers(s: Session, extra: map<string, string>): (h: map<string, string>)
    ensures IsAuthenticated(s) ==> "Authorization" in h && h["Authorization"] == "Bearer " + s.token.value
    ensures !IsAuthenticated(s) ==> ("Authorization" in h <==> "Authorization" in extra)
    ensures forall k :: k in extra && k != "Authorization" ==> k in h && h[k] == extra[k]
    ensures "Content-Type" in h && ("Content-Type" !in extra ==> h["Content-Type"] == "application/json")
  {
    var base := map["Content-Type" := "application/json"] + extra;
    if IsAuthenticated(s) then base["Authorization" := "Bearer " + s.token.value] else base
  }

  // ---------------------------------------------------------------------------
  // Request outcomes
  // ---------------------------------------------------------------------------

  /** What a `fetch` produced: no response at all, or a status with a body that may not be JSON. */
  datatype Reply = NetworkFailure | Reply(status: int, body: Option<Json.Json>)

  /** A thrown error: an `ApiError` with its optional status, or any other error. */
  datatype Thrown = ApiError(message: string, status: Option<int>) | OtherError(message: string)

  predicate OkStatus(status: int)
  {
    200 <= status <= 299
  }

  const NetworkError: string := "Network error occurred"

  /** The `TypeError` message of reading property `field` of `null`. */
  function NullRead(field: string): string
  {
    "Cannot read properties of null (reading '" + field + "')"
  }

  /**
   * What `throw new ApiError(errorData.error || \`HTTP ${status}\`, status)`
   * throws for a failed response: the body's truthy `error` field, else
   * `"HTTP <status>"`, with the status; an unreadable body counts as
   * `{error: "Request failed"}`. On a `null` body the field read itself
   * throws a `TypeError`, which is not an `ApiError` and has no status.
   */
  function FailureError(status: int, body: Option<Json.Json>): (e: Thrown)
    ensures e.OtherError? <==> body == Some(Json.JNull)
    ensures e.OtherError? ==> e.message == NullRead("error")
    ensures e.ApiError? ==> e.status == Some(status)
    ensures body.None? ==> e.message == "Request failed"
  {
    if body.None? then ApiError("Request failed", Some(status))
    else if body.value.JNull? then OtherError(NullRead("error"))
    else
      var f := Json.Get(body.value, "error");
      ApiError(if Json.TruthyField(f) then Json.ToJsString(f.value) else "HTTP " + IntText(status), Some(status))
  }

  function IntText(n: int): string
  {
    if n < 0 then "-" + NatToString(-n) else NatToString(n)
  }

  /**
   * `authFetch`. A non-ok response throws its `FailureError`; the `catch`
   * passes an `ApiError` on and turns anything else (the `TypeError` of a
   * `null` error body, or a missing response) into the network `ApiError`
   * without a status. The body of an ok response is parsed outside the
   * `try`, so an unreadable one escapes unmapped.
   */
  function AuthFetch(r: Reply): (out: Result<Json.Json, Thrown>)
    ensures r.NetworkFailure? ==> out == Err(ApiError(NetworkError, None))
    ensures r.Reply? && !OkStatus(r.status) && r.body != Some(Json.JNull) ==>
      out == Err(FailureError(r.status, r.body))
    ensures r.Reply? && !OkStatus(r.status) && r.body == Some(Json.JNull) ==> out == Err(ApiError(NetworkError, None))
    ensures r.Reply? && OkStatus(r.status) && r.body.Some? ==> out == Ok(r.body.value)
    ensures r.Reply? && OkStatus(r.status) && r.body.None? ==> out.Err? && out.error.OtherError?
    ensures out.Err? && out.error.ApiError? && out.error.status.Some? ==> r.Reply? && out.error.status.value == r.status && !OkStatus(r.status)
  {
    match r
    case NetworkFailure => Err(ApiError(NetworkError, None))
    case Reply(status, body) =>
      if !OkStatus(status) then
        var e := FailureError(status, body);
        if e.ApiError? then Err(e) else Err(ApiError(NetworkError, None))
      else if body.None? then Err(OtherError("Unexpected token in JSON"))
      else Ok(body.value)
  }

  /** A failed response whose body names an error reports that error with the status. */
  lemma ServerErrorReported(status: int, message: string)
    requires !OkStatus(status) && message != ""
    ensures AuthFetch(Reply(status, Some(Json.JObj([Json.Member("error", Json.JStr(message))]))))
      == Err(ApiError(message, Some(status)))
  {
  }

  /** A failed response without an error field reports `HTTP <status>`. */
  lemma BareFailureReported(status: int)
    requires !OkStatus(status)
    ensures AuthFetch(Reply(status, Some(Json.JObj([])))) == Err(ApiError("HTTP " + IntText(status), Some(status)))
  {
  }

  /** What `setToken(data.token)` stores: an absent token is written as the text `undefined`. */
  function TokenText(data: Json.Json): string
  {
    match Json.Get(data, "token")
    case None => "undefined"
    case Some(t) => Json.ToJsString(t)
  }

  /**
   * `signup` and `login`: a successful call stores the returned token and
   * resolves with the body; a failed one changes nothing. `data.token` is read
   * outside any `try`, so an ok body that is `null` makes the call throw a
   * `TypeError` and nothing is stored.
   */
  function SignIn(s: Session, r: Reply): (out: (Session, Result<Json.Json, Thrown>))
    ensures AuthFetch(r).Err? ==> out == (s, AuthFetch(r))
    ensures AuthFetch(r) == Ok(Json.JNull) ==> out == (s, Err(OtherError(NullRead("token"))))
    ensures AuthFetch(r).Ok? && AuthFetch(r).value != Json.JNull ==>
      out == (Session(Some(TokenText(AuthFetch(r).value))), AuthFetch(r))
    ensures out.1.Ok? <==> AuthFetch(r).Ok? && AuthFetch(r).value != Json.JNull
    ensures out.1.Err? ==> out.0 == s
  {
    match AuthFetch(r)
    case Ok(data) =>
      if data.JNull? then (s, Err(OtherError(NullRead("token"))))
      else (Session(Some(TokenText(data))), Ok(data))
    case Err(e) => (s, Err(e))
  }

  /** An ok reply whose body is `null` fails the sign-in and keeps the session as it was. */
  lemma NullSignInKeepsSession(s: Session, status: int)
    requires OkStatus(status)
    ensures SignIn(s, Reply(status, Some(Json.JNull))) == (s, Err(OtherError(NullRead("token"))))
  {
  }

  /** `logout`. */
  function Logout(s: Session): (r: Session)
    ensures !IsAuthenticated(r)
  {
    Session(None)
  }

  /** A login returning a non-empty string token authenticates every later request with it. */
  lemma LoginAuthenticates(s: Session, status: int, token: string, extra: map<string, string>)
    requires OkStatus(status) && token != ""
    ensures var t := SignIn(s, Reply(status, Some(Json.JObj([Json.Member("token", Json.JStr(token))])))).0;
      IsAuthenticated(t) && Headers(t, extra)["Authorization"] == "Bearer " + token
  {
  }

  /** After logout no request carries a bearer header unless the caller supplies one. */
  lemma LogoutDropsBearer(s: Session, extra: map<string, string>)
    requires "Authorization" !in extra
    ensures "Authorization" !in Headers(Logout(s), extra)
  {
  }

  // ---------------------------------------------------------------------------
  // Stream decoder
  // ---------------------------------------------------------------------------

  /** What the generator yields: `{chunk}` or `{chat}`. */
  datatype Yield = ChunkOut(chunk: Json.Json) | ChatOut(chat: Json.Json)

  /** The effect of one line: keep reading, return, or throw, after yielding `out`. */
  datatype Step = Continue(out: seq<Yield>) | Stop(out: seq<Yield>) | Fail(out: seq<Yield>, message: string)

  /** Every yielded chunk and chat is truthy. */
  predicate TruthyYields(ys: seq<Yield>)
  {
    forall k :: 0 <= k < |ys| ==> (ys[k].ChunkOut? ==> Json.Truthy(ys[k].chunk)) && (ys[k].ChatOut? ==> Json.Truthy(ys[k].chat))
  }

  /**
   * One parsed event: a truthy `error` throws before anything is yielded; a
   * truthy `chunk` is yielded; a truthy `done` yields a truthy `chat` and
   * returns.
   */
  function EventStep(p: Json.Json): (r: Step)
    ensures Json.TruthyField(Json.Get(p, "error")) <==> r.Fail?
    ensures r.Fail? ==> r.out == [] && r.message == Json.ToJsString(Json.Get(p, "error").value)
    ensures r.Stop? <==> !Json.TruthyField(Json.Get(p, "error")) && Json.TruthyField(Json.Get(p, "done"))
    ensures !r.Fail? ==> (|r.out| > 0 && r.out[0].ChunkOut? <==> Json.TruthyField(Json.Get(p, "chunk")))
    ensures !r.Fail? && Json.TruthyField(Json.Get(p, "chunk")) ==> r.out[0] == ChunkOut(Json.Get(p, "chunk").value)
    ensures r.Continue? ==> |r.out| <= 1
    ensures TruthyYields(r.out)
  {
    var e := Json.Get(p, "error");
    if Json.TruthyField(e) then Fail([], Json.ToJsString(e.value))
    else
      var c := Json.Get(p, "chunk");
      var chunk := if Json.TruthyField(c) then [ChunkOut(c.value)] else [];
      if Json.TruthyField(Json.Get(p, "done")) then
        var chat := Json.Get(p, "chat");
        Stop(chunk + (if Json.TruthyField(chat) then [ChatOut(chat.value)] else []))
      else Continue(chunk)
  }

  /** One line: only `data: ` lines holding valid JSON have any effect. */
  function LineStep(line: string): (r: Step)
    ensures !StartsWith(line, "data: ") ==> r == Continue([])
    ensures StartsWith(line, "data: ") && Json.Parse(line[6..]).None? ==> r == Continue([])
    ensures StartsWith(line, "data: ") && Json.Parse(line[6..]).Some? ==> r == EventStep(Json.Parse(line[6..]).value)
  {
    if StartsWith(line, "data: ") then
      match Json.Parse(line[6..])
      case None => Continue([])
      case Some(p) => EventStep(p)
    else Continue([])
  }

  /** `out` yielded in front of a step. */
  function After(out: seq<Yield>, s: Step): (r: Step)
  {
    match s
    case Continue(o) => Continue(out + o)
    case Stop(o) => Stop(out + o)
    case Fail(o, m) => Fail(out + o, m)
  }

  /** The lines of one read, in order, until one returns or throws. */
  function Lines(lines: seq<string>): (r: Step)
    ensures TruthyYields(r.out)
  {
    if |lines| == 0 then Continue([])
    else
      match LineStep(lines[0])
      case Continue(o) => After(o, Lines(lines[1..]))
      case other => other
  }

  /** How the generator finished: after a done event, because the body ended, or by throwing. */
  datatype End = Done | BodyEnded | Threw(error: Thrown)

  datatype Outcome = Outcome(emitted: seq<Yield>, end: End)

  /** The generator over a body given as its successive reads; each read is split on its own. */
  function Stream(parts: seq<string>): (r: Outcome)
    ensures TruthyYields(r.emitted)
  {
    if |parts| == 0 then Outcome([], BodyEnded)
    else
      match Lines(Split(parts[0], '\n'))
      case Continue(o) => var rest := Stream(parts[1..]); Outcome(o + rest.emitted, rest.end)
      case Stop(o) => Outcome(o, Done)
      case Fail(o, m) => Outcome(o, Threw(ApiError(m, None)))
  }

  /** Reads after a done event or an error event are never looked at. */
  lemma {:induction false} StreamStopsEarly(a: seq<string>, b: seq<string>)
    requires Stream(a).end != BodyEnded
    ensures Stream(a + b) == Stream(a)
  {
    assert |a| > 0;
    assert (a + b)[0] == a[0];
    match Lines(Split(a[0], '\n'))
    case Continue(o) =>
      assert (a + b)[1..] == a[1..] + b;
      StreamStopsEarly(a[1..], b);
    case Stop(o) =>
    case Fail(o, m) =>
  }

  /** A body that ends without any done or error event finishes normally. */
  lemma {:induction false} QuietBodyEnds(parts: seq<string>)
    requires forall k :: 0 <= k < |parts| ==> Lines(Split(parts[k], '\n')).Continue?
    ensures Stream(parts).end == BodyEnded
  {
    if |parts| > 0 {
      QuietBodyEnds(parts[1..]);
    }
  }

  /**
   * `createChatStream`: a non-ok response throws its `FailureError` (a
   * `TypeError` for a `null` body, since nothing here catches it), a missing
   * body throws `"Response body is null"`, otherwise the body is decoded.
   */
  function CreateChatStream(status: int, errorBody: Option<Json.Json>, body: Option<seq<string>>): (r: Outcome)
    ensures !OkStatus(status) ==> r == Outcome([], Threw(FailureError(status, errorBody)))
    ensures !OkStatus(status) && errorBody == Some(Json.JNull) ==> r == Outcome([], Threw(OtherError(NullRead("error"))))
    ensures !OkStatus(status) && errorBody != Some(Json.JNull) ==> r.end.Threw? && r.end.error.ApiError? && r.end.error.status == Some(status)
    ensures OkStatus(status) && body.None? ==> r == Outcome([], Threw(ApiError("Response body is null", None)))
    ensures OkStatus(status) && body.Some? ==> r == Stream(body.value)
  {
    if !OkStatus(status) then Outcome([], Threw(FailureError(status, errorBody)))
    else if body.None? then Outcome([], Threw(ApiError("Response body is null", None)))
    else Stream(body.value)
  }

  /**
   * A frame cut in two between reads inside its `data: ` prefix is lost: the
   * first read is a short piece of the prefix and the second read's line
   * starts with what is left of it, so neither is a `data: ` line.
   */
  lemma SplitFrameDropped(payload: string, k: nat)
    requires Lacks(payload, '\n') && 0 < k < 6
    ensures var frame := "data: " + payload + "\n\n";
      Stream([frame[..k], frame[k..]]) == Outcome([], BodyEnded)
  {
    var frame := "data: " + payload + "\n\n";
    var rest := "data: "[k..] + payload;
    assert frame[..k] == "data: "[..k];
    assert frame[k..] == rest + "\n\n";
    PrefixPieceQuiet(k);
    RestPieceQuiet(payload, k);
    QuietReads(frame[..k], frame[k..]);
  }

  /** The first piece of a cut prefix is not a `data: ` line. */
  lemma PrefixPieceQuiet(k: nat)
    requires 0 < k < 6
    ensures Lines(Split("data: "[..k], '\n')) == Continue([])
  {
    QuietLine("data: "[..k]);
  }

  /** The rest of a cut frame starts inside the prefix, so its line is not a `data: ` line. */
  lemma RestPieceQuiet(payload: string, k: nat)
    requires Lacks(payload, '\n') && 0 < k < 6
    ensures Lines(Split("data: "[k..] + payload + "\n\n", '\n')) == Continue([])
  {
    var line := "data: "[k..] + payload;
    assert line[0] != 'd';
    assert !StartsWith(line, "data: ") by {
      if |line| >= 6 { assert line[..6][0] == line[0]; }
    }
    QuietFrame(line);
  }

  /** Two reads that yield nothing and do not stop end the body with nothing yielded. */
  lemma QuietReads(a: string, b: string)
    requires Lines(Split(a, '\n')) == Continue([])
    requires Lines(Split(b, '\n')) == Continue([])
    ensures Stream([a, b]) == Outcome([], BodyEnded)
  {
    QuietRead(b);
    assert [a, b][1..] == [b];
    assert [a, b][0] == a;
  }

  /** One read that yields nothing and does not stop ends the body with nothing yielded. */
  lemma QuietRead(b: string)
    requires Lines(Split(b, '\n')) == Continue([])
    ensures Stream([b]) == Outcome([], BodyEnded)
  {
    var parts := [b];
    assert parts[1..] == [];
    assert Stream(parts[1..]) == Outcome([], BodyEnded);
    assert Lines(Split(parts[0], '\n')) == Continue([]);
  }

  /** A read holding one line that is not a `data: ` line has no effect. */
  lemma QuietLine(line: string)
    requires Lacks(line, '\n') && !StartsWith(line, "data: ")
    ensures Lines(Split(line, '\n')) == Continue([])
  {
    SplitLacks(line, '\n');
  }

  /** A read holding a frame-shaped text whose line is not a `data: ` line has no effect. */
  lemma QuietFrame(line: string)
    requires Lacks(line, '\n') && !StartsWith(line, "data: ")
    ensures Lines(Split(line + "\n\n", '\n')) == Continue([])
  {
    assert line + "\n\n" == line + ['\n'] + ("" + ['\n'] + "");
    SplitHead(line, "" + ['\n'] + "", '\n');
    SplitHead("", "", '\n');
    assert Lines([""]) == Continue([]);
    assert Lines(["", ""]) == Continue([]);
  }

  lemma {:induction false} SplitLacks(s: string, sep: char)
    requires Lacks(s, sep)
    ensures Split(s, sep) == [s]
  {
    if |s| > 0 {
      SplitLacks(s[1..], sep);
    }
  }
}
