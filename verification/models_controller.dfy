/**
 * The models endpoint: each model the local runtime lists is classified by
 * the first family name its lower-cased name contains, and when the listing
 * fails a fixed list of three models is sent instead. The runtime's reply
 * and the clock are parameters.
 */
module ModelsController {
  import opened Wrappers
  import opened Text
  import opened Domain
  import ChatUtils

  /** An entry of the runtime's listing; `name` is `None` when it is missing or not a string. */
  datatype RuntimeModel = RuntimeModel(name: Option<string>, size: int, modified: string)

  /** An entry of the reply. */
  datatype ListedModel = ListedModel(id: string, kind: ModelKind, name: string, size: int, modified: string)

  /** The reply body; `fallback` is true exactly when the fixed list was sent, the only reply that has that field. */
  datatype ModelsReply = ModelsReply(models: seq<ListedModel>, count: nat, fallback: bool)

  /** The families tried in order, with the display prefix each one gives. */
  const Families: seq<(string, ModelKind, string)> := [
    ("llama", Llama, "LLaMA "),
    ("mistral", Mistral, "Mistral "),
    ("deepseek", Deepseek, "DeepSeek "),
    ("phi", Phi3, "Phi-3 "),
    ("gemma", Gemma, "Gemma ")
  ]

  /** The first family whose name occurs in `lower`, searched from position `from` of the list. */
  function FirstFamily(lower: string, from: nat): (r: Option<nat>)
    requires from <= |Families|
    ensures r.Some? ==> from <= r.value < |Families| && Contains(lower, Families[r.value].0)
    ensures r.Some? ==> forall k :: from <= k < r.value ==> !Contains(lower, Families[k].0)
    ensures r.None? ==> forall k :: from <= k < |Families| ==> !Contains(lower, Families[k].0)
    decreases |Families| - from
  {
    if from == |Families| then None
    else if Contains(lower, Families[from].0) then Some(from)
    else FirstFamily(lower, from + 1)
  }

  /**
   * The type and display name for a runtime name: the first family in the
   * order llama, mistral, deepseek, phi, gemma that the lower-cased name
   * contains decides both; with none, the type is llama and the display
   * name is the name itself.
   */
  function Classify(name: string): (r: (ModelKind, string))
    ensures FirstFamily(LowerAscii(name), 0).Some? ==>
      var f := Families[FirstFamily(LowerAscii(name), 0).value];
      r == (f.1, f.2 + name)
    ensures FirstFamily(LowerAscii(name), 0).None? ==> r == (Llama, name)
  {
    match FirstFamily(LowerAscii(name), 0)
    case Some(k) => (Families[k].1, Families[k].2 + name)
    case None => (Llama, name)
  }

  /** The display name always ends with the runtime name, and the type is llama unless a later family matched first. */
  lemma ClassifyKeepsName(name: string)
    ensures var (_, display) := Classify(name);
      |display| >= |name| && display[|display| - |name|..] == name
  {
    var (_, display) := Classify(name);
    if FirstFamily(LowerAscii(name), 0).Some? {
      var f := Families[FirstFamily(LowerAscii(name), 0).value];
      assert display == f.2 + name;
      assert display[|f.2|..] == name;
    }
  }

  /** Classification looks at the name case-blindly: names that agree once lower-cased get the same type. */
  lemma ClassifyIgnoresCase(a: string, b: string)
    requires LowerAscii(a) == LowerAscii(b)
    ensures Classify(a).0 == Classify(b).0
  {
  }

  /** Llama is tried first: a name containing `llama` is a llama whatever other family names it also contains. */
  lemma LlamaWins(name: string)
    requires Contains(LowerAscii(name), "llama")
    ensures Classify(name) == (Llama, "LLaMA " + name)
  {
    assert FirstFamily(LowerAscii(name), 0) == Some(0);
  }

  /** `phi` anywhere in the name gives the `phi3` type, as long as none of the three earlier families occurs. */
  lemma PhiMeansPhi3(name: string)
    requires Contains(LowerAscii(name), "phi")
    requires !Contains(LowerAscii(name), "llama") && !Contains(LowerAscii(name), "mistral") && !Contains(LowerAscii(name), "deepseek")
    ensures Classify(name) == (Phi3, "Phi-3 " + name)
  {
    var q := LowerAscii(name);
    assert FirstFamily(q, 3) == Some(3);
    assert FirstFamily(q, 2) == Some(3);
    assert FirstFamily(q, 1) == Some(3);
    assert FirstFamily(q, 0) == Some(3);
  }

  /** The reply entry for one runtime model. */
  function Listed(m: RuntimeModel): (r: ListedModel)
    requires m.name.Some?
    ensures r.id == m.name.value && (r.kind, r.name) == Classify(m.name.value)
    ensures r.size == m.size && r.modified == m.modified
  {
    var (kind, display) := Classify(m.name.value);
    ListedModel(m.name.value, kind, display, m.size, m.modified)
  }

  predicate AllNamed(models: seq<RuntimeModel>)
  {
    forall k :: 0 <= k < |models| ==> models[k].name.Some?
  }

  /** The fixed list sent when the runtime cannot be listed, stamped with the current time. */
  function FallbackModels(now: string): seq<ListedModel>
  {
    [
      ListedModel("llama3:8b", Llama, "LLaMA 3 8B", 0, now),
      ListedModel("mistral:7b", Mistral, "Mistral 7B", 0, now),
      ListedModel("deepseek-r1:8b", Deepseek, "DeepSeek R1 8B", 0, now)
    ]
  }

  /**
   * `listAvailableModels`: a listing (a missing `models` field counts as an
   * empty one) is mapped entry by entry, and `count` is its length; a failed
   * request, or an entry without a string name (whose lower-casing throws),
   * gives the fixed list with count 3 and `fallback`.
   */
  function ListAvailableModels(fetched: Result<Option<seq<RuntimeModel>>, string>, now: string): (r: ModelsReply)
    ensures r.count == |r.models|
    ensures r.fallback <==> fetched.Err? || !AllNamed(fetched.value.GetOr([]))
    ensures r.fallback ==> r.models == FallbackModels(now) && r.count == 3
    ensures !r.fallback ==> var models := fetched.value.GetOr([]);
      |r.models| == |models| && forall k :: 0 <= k < |models| ==> r.models[k] == Listed(models[k])
  {
    if fetched.Err? || !AllNamed(fetched.value.GetOr([])) then ModelsReply(FallbackModels(now), 3, true)
    else
      var models := fetched.value.GetOr([]);
      var listed := seq(|models|, k requires 0 <= k < |models| => Listed(models[k]));
      ModelsReply(listed, |listed|, false)
  }

  /** An entry as the client's model picker holds it. */
  function ClientEntry(m: ListedModel): ChatUtils.AvailableModel
  {
    ChatUtils.AvailableModel(m.id, KindName(m.kind), m.name)
  }

  /**
   * The client picks the type of the first model the endpoint lists: the
   * classification of the runtime's first model, llama for the fixed list,
   * and the client's default when the runtime lists nothing.
   */
  lemma ClientTypeFromReply(fetched: Result<Option<seq<RuntimeModel>>, string>, now: string, default: string)
    ensures var r := ListAvailableModels(fetched, now);
      var picked := ChatUtils.ModelTypeFromList(seq(|r.models|, k requires 0 <= k < |r.models| => ClientEntry(r.models[k])), default);
      && (r.fallback ==> picked == "llama")
      && (!r.fallback && |fetched.value.GetOr([])| == 0 ==> picked == default)
      && (!r.fallback && |fetched.value.GetOr([])| > 0 ==>
            picked == KindName(Classify(fetched.value.GetOr([])[0].name.value).0))
  {
  }
}
