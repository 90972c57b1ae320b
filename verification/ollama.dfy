/**
 * The backend's client for the local model runtime: picking the last user
 * message, building the prompt, and turning the runtime's answer or failure
 * into a reply or an error message. The HTTP exchange itself is a parameter:
 * `ask(model, prompt)` stands for what the runtime answered.
 */
module Ollama {
  import opened Wrappers
  import opened Text
  import opened Domain

  /** `i` is the position of the last user message. */
  predicate LastUserAt(msgs: seq<Message>, i: int)
  {
    0 <= i < |msgs| && msgs[i].role == User && forall j :: i < j < |msgs| ==> msgs[j].role != User
  }

  /** The content of the last user message, or `""` when there is none. */
  function LastUserMessage(msgs: seq<Message>): (r: string)
    ensures (forall i :: 0 <= i < |msgs| ==> msgs[i].role != User) ==> r == ""
    ensures forall i :: LastUserAt(msgs, i) ==> r == msgs[i].content
  {
    if |msgs| == 0 then ""
    else if msgs[|msgs| - 1].role == User then msgs[|msgs| - 1].content
    else
      var r := LastUserMessage(msgs[..|msgs| - 1]);
      LastUserInInit(msgs);
      r
  }

  /** A reply at the end does not move the last user message. */
  lemma LastUserInInit(msgs: seq<Message>)
    requires |msgs| > 0 && msgs[|msgs| - 1].role != User
    ensures forall i :: LastUserAt(msgs, i) ==> LastUserAt(msgs[..|msgs| - 1], i)
  {
    var init := msgs[..|msgs| - 1];
    forall i | LastUserAt(msgs, i) ensures LastUserAt(init, i) {
      forall j | i < j < |init| ensures init[j].role != User { assert init[j] == msgs[j]; }
    }
  }

  /** Messages after the last user message do not change which message is picked. */
  lemma {:induction false} LastUserIgnoresReplies(msgs: seq<Message>, replies: seq<Message>)
    requires forall j :: 0 <= j < |replies| ==> replies[j].role == Assistant
    ensures LastUserMessage(msgs + replies) == LastUserMessage(msgs)
  {
    if |replies| == 0 {
      assert msgs + replies == msgs;
    } else {
      var front := replies[..|replies| - 1];
      assert (msgs + replies)[..|msgs + replies| - 1] == msgs + front;
      LastUserIgnoresReplies(msgs, front);
    }
  }

  /** The prompt sent to the runtime: system instruction, last user message, and the assistant cue. */
  function FullPrompt(msgs: seq<Message>, l: Language, t: PromptType): (r: string)
    ensures |r| == |SystemPrompt(t, l) + "\n\nUser: "| + |LastUserMessage(msgs)| + 12
    ensures StartsWith(r, SystemPrompt(t, l) + "\n\nUser: ")
    ensures r[|SystemPrompt(t, l) + "\n\nUser: "|..|r| - 12] == LastUserMessage(msgs)
    ensures r[|r| - 12..] == "\n\nAssistant:"
  {
    var head := SystemPrompt(t, l) + "\n\nUser: ";
    var r := head + LastUserMessage(msgs) + "\n\nAssistant:";
    assert r[..|head|] == head;
    assert r[|head|..|r| - 12] == LastUserMessage(msgs);
    r
  }

  /** Only the last user message of the history reaches the runtime. */
  lemma FullPromptOnlyLastUser(a: seq<Message>, b: seq<Message>, l: Language, t: PromptType)
    ensures FullPrompt(a, l, t) == FullPrompt(b, l, t) <==> LastUserMessage(a) == LastUserMessage(b)
  {
    var ra := FullPrompt(a, l, t);
    var rb := FullPrompt(b, l, t);
    var n := |SystemPrompt(t, l) + "\n\nUser: "|;
    if ra == rb {
      assert ra[n..|ra| - 12] == rb[n..|rb| - 12];
    } else {
      assert LastUserMessage(a) != LastUserMessage(b);
    }
  }

  /**
   * What the runtime did with one request: it answered with an HTTP status
   * and perhaps a `response` text field, or the request failed with an error
   * code and message (connection refused, timeout, ...).
   */
  datatype Upstream = Responded(status: int, response: Option<string>) | Failed(code: string, message: string)

  /** The error message thrown for a failed call, which always names the model. */
  function CallError(model: string, code: string, message: string): (e: string)
    ensures StartsWith(e, model)
  {
    var e := if code == "ECONNABORTED" || Contains(message, "timeout")
      then model + " timeout - model may be loading (first request takes longer)"
      else model + " error: " + message;
    assert e[..|model|] == model;
    e
  }

  /**
   * The reply of one call: statuses from 500 up are rejected by the HTTP
   * client itself, statuses from 400 up by the explicit check; both, and every
   * transport failure, become an error naming the model. A successful answer
   * is trimmed, and an absent or blank one becomes `"No response"`.
   */
  function CallResult(model: string, up: Upstream): (r: Result<string, string>)
    ensures r.Ok? <==> up.Responded? && up.status < 400
    ensures r.Ok? ==> r.value != "" && Trimmed(r.value)
    ensures r.Err? ==> StartsWith(r.error, model)
  {
    match up
    case Failed(code, message) => Err(CallError(model, code, message))
    case Responded(status, response) =>
      if status >= 500 then Err(CallError(model, "ERR_BAD_RESPONSE", "Request failed with status code " + IntToString(status)))
      else if status >= 400 then Err(CallError(model, "", "Ollama returned status " + IntToString(status)))
      else
        var text := if response.Some? then Trim(response.value) else "";
        if text == "" then Ok("No response") else Ok(text)
  }

  /** The text of a successful call is the trimmed answer, or the placeholder when nothing is left. */
  lemma CallResultText(model: string, status: int, text: string)
    requires status < 400
    ensures CallResult(model, Responded(status, Some(text))) == Ok(if Trim(text) == "" then "No response" else Trim(text))
    ensures CallResult(model, Responded(status, None)) == Ok("No response")
  {
  }

  /** `String(n)` for an integer. */
  function IntToString(n: int): string
  {
    if n < 0 then "-" + NatToString(-n) else NatToString(n)
  }

  /** `generateWithOllama`: build the prompt, ask the runtime, post-process. */
  function GenerateWithOllama(model: string, msgs: seq<Message>, l: Language, t: PromptType,
                              ask: (string, string) -> Upstream): Result<string, string>
  {
    CallResult(model, ask(model, FullPrompt(msgs, l, t)))
  }
}
