/** The program's flow from a link to a file on disk: extract the id, fetch and
    flatten the metadata, place the artifact, download it. */
module Pipeline {
  import opened Wrappers
  import opened Text
  import Reference
  import opened Metadata
  import opened Placement
  import opened Paths
  import opened Download

  /** How a run ends. `InvalidLink` is the usage error. `FetchFailed` and
      `ResolveFailed` are the exceptions raised by the metadata request and by
      the indexing. `DownloadFailed` is the exception `raise_for_status` raises
      on the download request. `Finished` is a run that completed, either by
      skipping an existing file or by downloading it. */
  datatype Status =
    | InvalidLink
    | FetchFailed(modelId: string)
    | ResolveFailed(modelId: string, error: ResolveError)
    | DownloadFailed(modelId: string, info: DownloadInfo, destination: string)
    | Finished(modelId: string, info: DownloadInfo, destination: string, outcome: Outcome)

  /** The status of a run, the download requests it sent, and the filesystem after it. */
  datatype RunResult = RunResult(status: Status, requests: seq<Request>, fs: FileSystem)

  /** The destination of a resolved artifact under `root`. */
  function TargetPath(root: string, info: DownloadInfo): (path: string)
    ensures EndsWith(path, info.filename)
  {
    Destination(root, info.modelType, info.tags, info.baseModel, info.filename)
  }

  /** `main` with its inputs made explicit: the link, the model root, the key,
      the filesystem, the metadata endpoint (`None` for an error status) and the
      download server. Only a finished run with a fresh download adds a file, and
      it adds it at the resolved destination; no run changes an existing file. */
  function Run(link: string, root: string, apiKey: string, fs: FileSystem,
               fetchMetadata: string -> Option<ModelDocument>,
               server: Request -> Response): (r: RunResult)
    ensures Reference.ExtractModelId(link).None? <==> r.status == InvalidLink
    ensures !r.status.InvalidLink? ==> Reference.ExtractModelId(link) == Some(r.status.modelId)
    ensures r.status.InvalidLink? || r.status.FetchFailed? || r.status.ResolveFailed? ==>
      r.requests == [] && r.fs == fs
    ensures r.status.FetchFailed? ==> fetchMetadata(r.status.modelId).None?
    ensures r.status.ResolveFailed? ==>
      && fetchMetadata(r.status.modelId).Some?
      && GetDownloadInfo(fetchMetadata(r.status.modelId).value) == Failure(r.status.error)
    ensures r.status.DownloadFailed? || r.status.Finished? ==>
      && fetchMetadata(r.status.modelId).Some?
      && GetDownloadInfo(fetchMetadata(r.status.modelId).value) == Success(r.status.info)
      && r.status.destination == TargetPath(root, r.status.info)
      && var effect := DownloadFile(fs, r.status.info.downloadUrl, r.status.destination, apiKey, server);
         && r.requests == effect.requests
         && r.fs == effect.fs
         && (r.status.DownloadFailed? <==> effect.outcome == HttpError)
         && (r.status.Finished? ==> r.status.outcome == effect.outcome)
    ensures r.status.DownloadFailed? ==> r.fs == fs
    ensures r.status.Finished? ==> r.status.outcome != HttpError
    ensures forall p :: p in fs ==> p in r.fs && r.fs[p] == fs[p]
    ensures forall p :: p in r.fs && p !in fs ==>
      r.status.Finished? && r.status.outcome == Downloaded && p == r.status.destination
  {
    match Reference.ExtractModelId(link)
    case None => RunResult(InvalidLink, [], fs)
    case Some(id) =>
      match fetchMetadata(id)
      case None => RunResult(FetchFailed(id), [], fs)
      case Some(doc) =>
        match GetDownloadInfo(doc)
        case Failure(e) => RunResult(ResolveFailed(id, e), [], fs)
        case Success(info) =>
          var path := TargetPath(root, info);
          var effect := DownloadFile(fs, info.downloadUrl, path, apiKey, server);
          var status :=
            if effect.outcome == HttpError then DownloadFailed(id, info, path)
            else Finished(id, info, path, effect.outcome);
          RunResult(status, effect.requests, effect.fs)
  }

  /** The base model `SD 1.5` normalizes to `SD1.5`. */
  lemma SpacesRemovedFromExample(base: string)
    requires base == "SD 1.5"
    ensures RemoveSpaces(base) == "SD1.5"
  {
    var a, b := "SD", "1.5";
    assert base == a + " " + b;
    RemoveSpaceBetween(a, b);
  }

  /** A `LoRA` whose first version has base model `SD 1.5`, no tags and the file
      `example.safetensors` lands at `<root>/loras/SD1.5/example.safetensors`. */
  lemma LoraExample(root: string, url: string, doc: ModelDocument)
    requires root != [] && !EndsWithSep(root)
    requires doc == ModelDocument(Some("LoRA"),
                                  [Version(url, Some("SD 1.5"), [File("example.safetensors")])],
                                  None)
    ensures GetDownloadInfo(doc).Success?
    ensures TargetPath(root, GetDownloadInfo(doc).value)
         == root + "/" + "loras" + "/" + "SD1.5" + "/" + "example.safetensors"
  {
    SpacesRemovedFromExample("SD 1.5");
    var info := GetDownloadInfo(doc).value;
    assert info.baseModel == "SD1.5";
    assert info.tags == [];
    var bucket, base, file := "loras", "SD1.5", "example.safetensors";
    assert ComfyUiPathFor(info.modelType) == bucket;
    assert InferSubfolder(info.tags) == "";
    assert !IsAbsolute(base) && !EndsWithSep(base) && !IsAbsolute(file);
    DestinationShape(root, info.modelType, info.tags, base, file);
  }
}
