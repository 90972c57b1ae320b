/**
 * Reply generation: the rule-based provider that echoes the question, the
 * runtime-backed provider that falls back to it on any failure, and the
 * factory choosing a provider for a model kind.
 */
module Providers {
  import opened Wrappers
  import opened Text
  import opened Domain
  import Ollama

  datatype Provider = OllamaProvider(model: string, promptType: PromptType) | SimpleRule

  const AskEn: string := "Please ask a question."
  const AskAr: string := "من فضلك أدخل سؤالاً."

  function EchoHead(l: Language): string
  {
    match l
    case En => "You asked: \""
    case Ar => "سؤالك كان: \""
  }

  function EchoTail(l: Language): string
  {
    match l
    case En => "\". This is a generic response without a model."
    case Ar => "\". هذه إجابة عامة بدون نموذج."
  }

  /**
   * The rule-based reply: a request for a question when the last user message
   * is empty or absent, otherwise that message quoted inside a fixed sentence
   * of the language.
   */
  function SimpleReply(msgs: seq<Message>, l: Language): (r: string)
    ensures Ollama.LastUserMessage(msgs) == "" ==> r == (if l == Ar then AskAr else AskEn)
    ensures Ollama.LastUserMessage(msgs) != "" ==>
      |r| == |EchoHead(l)| + |Ollama.LastUserMessage(msgs)| + |EchoTail(l)|
      && r[|EchoHead(l)|..|r| - |EchoTail(l)|] == Ollama.LastUserMessage(msgs)
    ensures r != ""
  {
    var last := Ollama.LastUserMessage(msgs);
    if last == "" then (if l == Ar then AskAr else AskEn)
    else
      var r := EchoHead(l) + last + EchoTail(l);
      assert r[|EchoHead(l)|..|r| - |EchoTail(l)|] == last;
      r
  }

  /** The echoed question can be read back: distinct non-empty questions give distinct replies. */
  lemma SimpleReplyInjective(a: seq<Message>, b: seq<Message>, l: Language)
    requires Ollama.LastUserMessage(a) != "" && Ollama.LastUserMessage(b) != ""
    requires SimpleReply(a, l) == SimpleReply(b, l)
    ensures Ollama.LastUserMessage(a) == Ollama.LastUserMessage(b)
  {
    var r := SimpleReply(a, l);
    assert r[|EchoHead(l)|..|r| - |EchoTail(l)|] == Ollama.LastUserMessage(b);
  }

  /**
   * `provider.generate(messages, language)`. It never fails: a runtime-backed
   * provider answers with the rule-based reply for the same input whenever the
   * runtime call fails.
   */
  function Generate(p: Provider, msgs: seq<Message>, l: Language, ask: (string, string) -> Upstream): (r: string)
    ensures p.SimpleRule? ==> r == SimpleReply(msgs, l)
    ensures p.OllamaProvider? ==>
      var call := Ollama.CallResult(p.model, ask(p.model, Ollama.FullPrompt(msgs, l, p.promptType)));
      r == (if call.Ok? then call.value else SimpleReply(msgs, l))
    ensures r != ""
  {
    match p
    case SimpleRule => SimpleReply(msgs, l)
    case OllamaProvider(model, t) =>
      match Ollama.GenerateWithOllama(model, msgs, l, t, ask)
      case Ok(text) => text
      case Err(_) => SimpleReply(msgs, l)
  }

  type Upstream = Ollama.Upstream

  /** `getAIProvider`: five kinds are served by the runtime with the general prompt; the rest get the rule-based provider. */
  function ProviderFor(k: ModelKind): (p: Provider)
    ensures p.OllamaProvider? <==> k in {Llama, Phi3, Gemma, Qwen, Tinyllama}
    ensures p.OllamaProvider? ==> p == OllamaProvider(ModelTag(k), General)
  {
    match k
    case Llama => OllamaProvider(ModelTag(Llama), General)
    case Phi3 => OllamaProvider(ModelTag(Phi3), General)
    case Gemma => OllamaProvider(ModelTag(Gemma), General)
    case Qwen => OllamaProvider(ModelTag(Qwen), General)
    case Tinyllama => OllamaProvider(ModelTag(Tinyllama), General)
    case _ => SimpleRule
  }

  /** With the runtime unreachable, every kind answers with the rule-based reply. */
  lemma RuntimeDownEchoes(k: ModelKind, msgs: seq<Message>, l: Language, ask: (string, string) -> Upstream)
    requires forall m, q :: ask(m, q).Failed?
    ensures Generate(ProviderFor(k), msgs, l, ask) == SimpleReply(msgs, l)
  {
  }
}
