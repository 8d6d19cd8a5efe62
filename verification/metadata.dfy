/** The artifact resolver: flattens the hub's model document into the five
    values the rest of the program needs. */
module Metadata {
  import opened Wrappers
  import opened Text

  /** One downloadable file of a version; only its name is read. */
  datatype File = File(name: string)

  /** One entry of `modelVersions`. `baseModel` is optional in the document. */
  datatype Version = Version(downloadUrl: string, baseModel: Option<string>, files: seq<File>)

  /** One entry of `tags`: an object with a `name` field. */
  datatype Tag = Tag(name: string)

  /** The model document returned by the hub. The top-level `type` and `tags`
      keys may be absent; `modelVersions` is always present. */
  datatype ModelDocument = ModelDocument(
    modelType: Option<string>,
    versions: seq<Version>,
    tags: Option<seq<Tag>>)

  /** The flattened view: `(download_url, base_model, model_type, filename, tags)`. */
  datatype DownloadInfo = DownloadInfo(
    downloadUrl: string,
    baseModel: string,
    modelType: string,
    filename: string,
    tags: seq<string>)

  /** The indexing failures the resolver can hit: `modelVersions[0]` on an empty
      list, or `files[0]` on an empty list (an `IndexError` in the program). */
  datatype ResolveError = NoVersion | NoFile

  const UnknownBaseModel: string := "unknown"
  const UnknownModelType: string := "Unknown"

  /** The base model with every space removed, `"unknown"` when the key is absent. */
  function NormalizeBaseModel(baseModel: Option<string>): (r: string)
    ensures ' ' !in r
    ensures baseModel.None? ==> r == UnknownBaseModel
    ensures baseModel.Some? ==> forall c :: c != ' ' ==> multiset(r)[c] == multiset(baseModel.value)[c]
    ensures baseModel.Some? && ' ' !in baseModel.value ==> r == baseModel.value
    ensures baseModel.Some? ==> r == RemoveSpaces(baseModel.value)
  {
    var s := baseModel.GetOr(UnknownBaseModel);
    RemoveSpacesKeepsOthers(s);
    RemoveSpaces(s)
  }

  /** Tag names, lower-cased, in document order. */
  function NormalizeTags(tags: seq<Tag>): (names: seq<string>)
    ensures |names| == |tags|
    ensures forall i :: 0 <= i < |tags| ==> names[i] == Lower(tags[i].name)
  {
    if tags == [] then [] else [Lower(tags[0].name)] + NormalizeTags(tags[1..])
  }

  /** `get_download_info`: reads only the first version and its first file. */
  function GetDownloadInfo(doc: ModelDocument): (r: Result<DownloadInfo, ResolveError>)
    ensures r == Failure(NoVersion) <==> |doc.versions| == 0
    ensures r == Failure(NoFile) <==> |doc.versions| > 0 && |doc.versions[0].files| == 0
    ensures r.Success? ==>
      var v := doc.versions[0];
      && r.value.downloadUrl == v.downloadUrl
      && r.value.filename == v.files[0].name
    ensures r.Success? ==> r.value.baseModel == NormalizeBaseModel(doc.versions[0].baseModel)
    ensures r.Success? && doc.modelType.None? ==> r.value.modelType == UnknownModelType
    ensures r.Success? && doc.modelType.Some? ==> r.value.modelType == doc.modelType.value
    ensures r.Success? ==> |r.value.tags| == |doc.tags.GetOr([])|
    ensures r.Success? ==>
      forall i :: 0 <= i < |r.value.tags| ==> r.value.tags[i] == Lower(doc.tags.GetOr([])[i].name)
  {
    if |doc.versions| == 0 then Failure(NoVersion)
    else
      var version := doc.versions[0];
      if |version.files| == 0 then Failure(NoFile)
      else
        Success(DownloadInfo(
          version.downloadUrl,
          NormalizeBaseModel(version.baseModel),
          doc.modelType.GetOr(UnknownModelType),
          version.files[0].name,
          NormalizeTags(doc.tags.GetOr([]))))
  }

  /** The resolved base model is already normalized: removing spaces again leaves it unchanged. */
  lemma BaseModelIsNormalized(doc: ModelDocument)
    requires GetDownloadInfo(doc).Success?
    ensures RemoveSpaces(GetDownloadInfo(doc).value.baseModel) == GetDownloadInfo(doc).value.baseModel
  {
  }

  /** The resolved tags hold no upper-case letter. */
  lemma TagsAreLowerCase(doc: ModelDocument, i: int, k: int)
    requires GetDownloadInfo(doc).Success?
    requires 0 <= i < |GetDownloadInfo(doc).value.tags|
    requires 0 <= k < |GetDownloadInfo(doc).value.tags[i]|
    ensures !IsUpper(GetDownloadInfo(doc).value.tags[i][k])
  {
  }

  /** Versions after the first never affect the result. */
  lemma LaterVersionsIgnored(doc: ModelDocument, more: seq<Version>)
    requires |doc.versions| > 0
    ensures GetDownloadInfo(doc.(versions := doc.versions + more)) == GetDownloadInfo(doc)
  {
  }

  /** Within `modelVersions`, nothing but the first version's download URL,
      base model and first file affects the result. */
  lemma OnlyPrimaryFileMatters(doc: ModelDocument)
    requires |doc.versions| > 0 && |doc.versions[0].files| > 0
    ensures
      var v := doc.versions[0];
      GetDownloadInfo(doc.(versions := [v.(files := [v.files[0]])])) == GetDownloadInfo(doc)
  {
  }
}
