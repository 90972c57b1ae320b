/** The client's small chat helpers and its fixed model list. */
module ChatUtils {
  /** An entry of the model picker: runtime id, model type and display name. */
  datatype AvailableModel = AvailableModel(id: string, kind: string, name: string)

  const DefaultModel: string := "llama"

  /** The models offered when none are fetched. */
  const FallbackModels: seq<AvailableModel> := [
    AvailableModel("llama3.2:3b", "llama", "Llama"),
    AvailableModel("phi3:mini", "phi3", "Phi-3"),
    AvailableModel("gemma:2b", "gemma", "Gemma"),
    AvailableModel("qwen2.5:3b", "qwen", "Qwen"),
    AvailableModel("tinyllama:latest", "tinyllama", "TinyLlama")
  ]

  /** `getModelTypeFromList`: the default for an empty list, otherwise the first entry's type, unchecked. */
  function ModelTypeFromList(models: seq<AvailableModel>, default: string): (r: string)
    ensures |models| == 0 ==> r == default
    ensures |models| > 0 ==> r == models[0].kind
  {
    if |models| == 0 then default else models[0].kind
  }

  /** Only the first entry matters: appending models never changes the choice of a non-empty list. */
  lemma ModelTypeIgnoresRest(models: seq<AvailableModel>, more: seq<AvailableModel>, default: string)
    requires |models| > 0
    ensures ModelTypeFromList(models + more, default) == ModelTypeFromList(models, default)
  {
    assert (models + more)[0] == models[0];
  }

  /** The fallback list leads with the default model. */
  lemma FallbackLeadsWithDefault(default: string)
    ensures ModelTypeFromList(FallbackModels, default) == DefaultModel
  {
  }

  /** `isEnterWithoutShift`. */
  predicate IsEnterWithoutShift(key: string, shiftKey: bool)
  {
    key == "Enter" && !shiftKey
  }
}
