/**
 * The vocabulary shared by the backend and the client: message roles, the two
 * interface languages, the model kinds a request may name, and the constants
 * the backend is configured with.
 */
module Domain {
  import opened Wrappers

  datatype Role = User | Assistant

  function RoleName(r: Role): string
  {
    match r
    case User => "user"
    case Assistant => "assistant"
  }

  /** A chat message as the client sends it and the database stores it. */
  datatype Message = Message(role: Role, content: string)

  datatype Language = En | Ar

  function LanguageCode(l: Language): string
  {
    match l
    case En => "en"
    case Ar => "ar"
  }

  /** A stored language preference: `"ar"` means Arabic, anything else English. */
  function LanguageOf(code: string): (l: Language)
    ensures l == Ar <==> code == "ar"
  {
    if code == "ar" then Ar else En
  }

  /** The model kinds the chat request schema accepts. */
  datatype ModelKind = Llama | Mistral | Deepseek | Phi3 | Gemma | Qwen | Tinyllama

  const AllKinds: seq<ModelKind> := [Llama, Mistral, Deepseek, Phi3, Gemma, Qwen, Tinyllama]

  function KindName(k: ModelKind): string
  {
    match k
    case Llama => "llama"
    case Mistral => "mistral"
    case Deepseek => "deepseek"
    case Phi3 => "phi3"
    case Gemma => "gemma"
    case Qwen => "qwen"
    case Tinyllama => "tinyllama"
  }

  /** The kind whose name is `name`, if any. */
  function KindNamed(name: string): (r: Option<ModelKind>)
    ensures r.Some? ==> KindName(r.value) == name
    ensures r.None? ==> forall k: ModelKind :: KindName(k) != name
  {
    if name == "llama" then Some(Llama)
    else if name == "mistral" then Some(Mistral)
    else if name == "deepseek" then Some(Deepseek)
    else if name == "phi3" then Some(Phi3)
    else if name == "gemma" then Some(Gemma)
    else if name == "qwen" then Some(Qwen)
    else if name == "tinyllama" then Some(Tinyllama)
    else None
  }

  /** The name of each kind is read back as that kind. */
  lemma KindNameRoundTrip(k: ModelKind)
    ensures KindNamed(KindName(k)) == Some(k)
  {
  }

  /** The runtime model tag each kind is served by. */
  function ModelTag(k: ModelKind): string
  {
    match k
    case Llama => "llama3.2:3b"
    case Mistral => "mistral:7b"
    case Deepseek => "deepseek-r1:8b"
    case Phi3 => "phi3:mini"
    case Gemma => "gemma:2b"
    case Qwen => "qwen2.5:3b"
    case Tinyllama => "tinyllama"
  }

  /** Seconds a cached model reply lives. */
  const AiResponseTtl: nat := 3600
  /** Seconds a cached chat list lives (the constant; the chat service passes 600 itself). */
  const ChatHistoryTtl: nat := 300

  datatype PromptType = General | Expert

  /** The system instruction for a prompt type in a language. */
  function SystemPrompt(t: PromptType, l: Language): string
  {
    match (t, l)
    case (General, En) => "You are a helpful AI assistant. Answer clearly and politely in English."
    case (General, Ar) => "أنت مساعد ذكي مفيد. أجب باللغة العربية بطريقة واضحة ومهذبة."
    case (Expert, En) => "You are an expert AI assistant. Answer accurately and professionally in English."
    case (Expert, Ar) => "أنت مساعد ذكي متخصص. أجب باللغة العربية بدقة واحترافية."
  }
}
