/** The placement policy: which directory bucket a model type goes to, and which
    optional subfolder its tags select. */
module Placement {

  /** The type table, keyed by the hub's exact, case-sensitive type names. */
  const TypeTable: map<string, string> := map[
    "Checkpoint" := "checkpoints",
    "LoCon" := "loras",
    "LoRA" := "loras",
    "TextualInversion" := "embeddings",
    "Hypernetwork" := "hypernetworks"
  ]

  /** The bucket for every type the table does not list. */
  const OtherBucket: string := "other"

  const NsfwSubfolder: string := "NSFW"
  const ExperimentalSubfolder: string := "experimental"

  /** `comfyui_path_for`: total over all strings; each bucket is reached from
      exactly the listed type names, and everything else lands in `other`. */
  function ComfyUiPathFor(modelType: string): (bucket: string)
    ensures bucket == "checkpoints" <==> modelType == "Checkpoint"
    ensures bucket == "loras" <==> modelType == "LoCon" || modelType == "LoRA"
    ensures bucket == "embeddings" <==> modelType == "TextualInversion"
    ensures bucket == "hypernetworks" <==> modelType == "Hypernetwork"
    ensures bucket == OtherBucket <==>
      modelType !in {"Checkpoint", "LoCon", "LoRA", "TextualInversion", "Hypernetwork"}
  {
    if modelType in TypeTable then TypeTable[modelType] else OtherBucket
  }

  /** Type names are matched exactly: differently-cased spellings fall through to `other`. */
  lemma TypeNamesAreCaseSensitive()
    ensures ComfyUiPathFor("lora") == OtherBucket
    ensures ComfyUiPathFor("checkpoint") == OtherBucket
    ensures ComfyUiPathFor("LORA") == OtherBucket
    ensures ComfyUiPathFor("Unknown") == OtherBucket
  {
  }

  /** `infer_subfolder`: the first rule that applies wins; `nsfw` outranks
      `experimental` and `beta`. */
  function InferSubfolder(tags: seq<string>): (sub: string)
    ensures sub in {NsfwSubfolder, ExperimentalSubfolder, ""}
    ensures sub == NsfwSubfolder <==> "nsfw" in tags
    ensures sub == ExperimentalSubfolder <==>
      "nsfw" !in tags && ("experimental" in tags || "beta" in tags)
    ensures sub == "" <==> "nsfw" !in tags && "experimental" !in tags && "beta" !in tags
  {
    if "nsfw" in tags then NsfwSubfolder
    else if "experimental" in tags || "beta" in tags then ExperimentalSubfolder
    else ""
  }

  /** Only which tags occur matters, not their order or repetition. */
  lemma SubfolderDependsOnTagSet(a: seq<string>, b: seq<string>)
    requires forall t :: t in a <==> t in b
    ensures InferSubfolder(a) == InferSubfolder(b)
  {
  }

  /** Adding a tag `nsfw` always selects the NSFW subfolder, whatever else is present. */
  lemma NsfwOverrides(tags: seq<string>, extra: seq<string>)
    requires "nsfw" in extra
    ensures InferSubfolder(tags + extra) == NsfwSubfolder
  {
  }
}
