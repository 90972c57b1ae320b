/**
 * The server-sent events encoder: every event is one `data:` field holding
 * the JSON text of the event, closed by a blank line, as in section 9.2 of
 * the WHATWG HTML Standard. The response is modelled as the text written so
 * far, whether it has been ended, and its headers.
 */
module Sse {
  import opened Wrappers
  import opened Text
  import Json

  datatype Sink = Sink(headers: map<string, string>, written: string, ended: bool)

  /** `setStreamingHeaders`. */
  function SetStreamingHeaders(h: map<string, string>): (r: map<string, string>)
    ensures r.Keys == h.Keys + {"Content-Type", "Cache-Control", "Connection", "X-Accel-Buffering"}
    ensures r["Content-Type"] == "text/event-stream" && r["Cache-Control"] == "no-cache"
    ensures r["Connection"] == "keep-alive" && r["X-Accel-Buffering"] == "no"
    ensures forall k :: k in h && k !in {"Content-Type", "Cache-Control", "Connection", "X-Accel-Buffering"} ==> r[k] == h[k]
  {
    h["Content-Type" := "text/event-stream"]["Cache-Control" := "no-cache"]["Connection" := "keep-alive"]["X-Accel-Buffering" := "no"]
  }

  /** One event on the wire. */
  function Frame(data: Json.Json): string
  {
    "data: " + Json.Ser(data) + "\n\n"
  }

  /** Split on line feeds, a frame is its one `data:` line followed by two empty lines. */
  lemma FrameLines(data: Json.Json)
    ensures Split(Frame(data), '\n') == ["data: " + Json.Ser(data), "", ""]
  {
    var line := "data: " + Json.Ser(data);
    Json.SerHasNoNewline(data);
    assert Lacks(line, '\n') by {
      forall i | 0 <= i < |line| ensures line[i] != '\n' {
        if i >= 6 {
          assert line[i] == Json.Ser(data)[i - 6];
        }
      }
    }
    assert Frame(data) == line + ['\n'] + ("" + ['\n'] + "");
    SplitHead(line, "" + ['\n'] + "", '\n');
    SplitHead("", "", '\n');
    assert "" + ['\n'] + "" == "" + ['\n'] + "";
  }

  /** The line of a frame carries the event's exact JSON text after the six-character field prefix. */
  lemma FrameLinePayload(data: Json.Json)
    ensures StartsWith("data: " + Json.Ser(data), "data: ")
    ensures Json.Parse(("data: " + Json.Ser(data))[6..]) == Some(data)
  {
    var line := "data: " + Json.Ser(data);
    assert line[..6] == "data: ";
    assert line[6..] == Json.Ser(data);
    Json.ParseSer(data);
  }

  /** `sendSSEChunk`. Writes to an ended response are lost. */
  function SendChunk(s: Sink, data: Json.Json): (r: Sink)
    ensures r.headers == s.headers && r.ended == s.ended
    ensures !s.ended ==> r.written == s.written + Frame(data)
    ensures s.ended ==> r == s
  {
    if s.ended then s else s.(written := s.written + Frame(data))
  }

  /** The event `sendSSEError` writes. */
  function ErrorEvent(message: string): Json.Json
  {
    Json.JObj([Json.Member("error", Json.JStr(message)), Json.Member("done", Json.JBool(true))])
  }

  /** `sendSSEError`: one error event with `done: true`, then the response is ended. */
  function SendError(s: Sink, message: string): (r: Sink)
    ensures r.ended && r.headers == s.headers
    ensures !s.ended ==> r.written == s.written + Frame(ErrorEvent(message))
  {
    SendChunk(s, ErrorEvent(message)).(ended := true)
  }

  /** Nothing reaches the client after an error event. */
  lemma {:induction false} NothingAfterError(s: Sink, message: string, later: seq<Json.Json>)
    ensures SendAll(SendError(s, message), later) == SendError(s, message)
    decreases |later|
  {
    if |later| > 0 {
      NothingAfterError(s, message, later[1..]);
    }
  }

  /** A sequence of `sendSSEChunk` calls. */
  function SendAll(s: Sink, events: seq<Json.Json>): (r: Sink)
    ensures r.headers == s.headers && r.ended == s.ended
    decreases |events|
  {
    if |events| == 0 then s else SendAll(SendChunk(s, events[0]), events[1..])
  }

  /** The frames of a sequence of events, in order. */
  function Frames(events: seq<Json.Json>): string
  {
    if |events| == 0 then "" else Frame(events[0]) + Frames(events[1..])
  }

  /** On an open response the written text grows by exactly the events' frames. */
  lemma {:induction false} SendAllWrites(s: Sink, events: seq<Json.Json>)
    requires !s.ended
    ensures SendAll(s, events).written == s.written + Frames(events)
    decreases |events|
  {
    if |events| > 0 {
      SendAllWrites(SendChunk(s, events[0]), events[1..]);
      assert s.written + Frame(events[0]) + Frames(events[1..]) == s.written + (Frame(events[0]) + Frames(events[1..]));
    } else {
      assert s.written + "" == s.written;
    }
  }
}
