# civitai_downloader — resolution and placement, modelled in Dafny

`civitai_downloader.py` takes a Civitai model link and does four things. It extracts the numeric model id. It fetches the model's metadata document. It flattens that document into `(download_url, base_model, model_type, filename, tags)`. It then picks a ComfyUI model directory from the type and tags and downloads the file there, unless a file already exists at that path.

This project models the pure part of that pipeline as immutable datatypes and functions. It proves what each step promises:

- `reference.dfy` (module `Reference`): the model id is the maximal digit run after the leftmost `/models/` that is directly followed by a digit. `None` is returned exactly when no such occurrence exists.
- `metadata.dfy` (module `Metadata`): the metadata document as a datatype, and `get_download_info`. Only the first version and its first file are read. Spaces are removed from the base model, which defaults to `"unknown"`. The type defaults to `"Unknown"`. Tag names are lower-cased, keeping their order.
- `placement.dfy` (module `Placement`): the closed, case-sensitive type table with its `"other"` fallback, and the subfolder rule `nsfw` > `experimental`/`beta` > none.
- `paths.dfy` (module `Paths`): POSIX `os.path.join` and the destination `root/bucket/base_model[/subfolder]/filename`. Under plain components this equals joining the segments with `/`.
- `download.dfy` (module `Download`): `download_file` over an abstract filesystem (`map<string, seq<byte>>`) and an abstract server. If the path exists, no request is sent and nothing changes. Otherwise the request URL is `url + "&token=" + key`, with a bearer header, and the body is written in chunks.
- `pipeline.dfy` (module `Pipeline`): `main` from the link to the file, with the metadata endpoint and the server as parameters.
- `text.dfy` and `wrappers.dfy`: character helpers, `Option` and `Result`.

Every step is a Dafny function, so the destination is determined by `(root, model_type, tags, base_model, filename)` alone.

The model follows the code as written. In particular:

- Only the `/models/<digits>` link form exists. There are no model-version ids and no query-parameter links.
- Type names are matched exactly. `"lora"` goes to `other`.
- Only `' '` is removed from the base model. Tabs and other whitespace stay.
- Tags must be objects with a `name`. Bare strings are not handled.
- An existing file is trusted as complete. There is no temporary file and no rename.

An empty `modelVersions` or `files` list makes the program raise `IndexError`. The model returns `Failure(NoVersion)` or `Failure(NoFile)` instead, so these cases are stated rather than excluded by a precondition.

## Model

| member | source | states |
|---|---|---|
| Reference.DigitRun | civitai_downloader.py:21 | the greedy `\d+` group: every character of the run is a digit, and the run stops at the end of the string or at a non-digit |
| Reference.FirstMatch | civitai_downloader.py:21 | the returned index is a match of `/models/\d`, and no match starts earlier (from the start position on); `None` means there is no match from there on |
| Reference.ExtractModelId | civitai_downloader.py:20-22 | `None` exactly when `/models/` followed by a digit occurs nowhere; otherwise a non-empty, all-digit, maximal run after the leftmost occurrence |
| Reference.IdFollowsUnique | civitai_downloader.py:21 | the digit run after a given match is unique |
| Reference.ExtractModelIdComplete | civitai_downloader.py:20-22 | conversely, the id after the leftmost match is always the one returned |
| Reference.ExtractAfterPlainPrefix | civitai_downloader.py:20-22 | a match-free prefix, then `/models/`, then digits, then a tail that does not start with a digit, yields exactly those digits |
| Reference.NoDigitNoMatch | civitai_downloader.py:20-22 | a string with no digit yields `None` |
| Reference.ExampleLink | civitai_downloader.py:85 | the usage example `https://civitai.com/models/123456` yields `123456` |
| Text.Lower | civitai_downloader.py:36 | `.lower()`: same length, each character lower-cased, no upper-case letter left |
| Text.LowerIdempotent | civitai_downloader.py:36 | lower-casing twice equals lower-casing once |
| Text.RemoveSpaces | civitai_downloader.py:33 | `.replace(" ", "")`: the result contains no space, and a string without spaces is unchanged |
| Text.RemoveSpacesKeepsOthers | civitai_downloader.py:33 | every non-space character keeps its count, so tabs and other whitespace survive; the length drops by the number of spaces |
| Text.RemoveSpacesAppend | civitai_downloader.py:33 | the surviving characters keep their order: removal distributes over concatenation |
| Text.RemoveSpacesIdempotent | civitai_downloader.py:33 | removing spaces again changes nothing |
| Text.RemoveSpaceBetween | civitai_downloader.py:33 | one space between two space-free words is dropped |
| Metadata.NormalizeBaseModel | civitai_downloader.py:33 | the base model has no space; it is `"unknown"` when the key is absent; otherwise it is the original with every space removed, keeping the other characters, their counts and their order, and it equals the original when that has no space |
| Metadata.NormalizeTags | civitai_downloader.py:36 | same length and order as the tag list; element `i` is the lower-cased `name` of tag `i` |
| Metadata.GetDownloadInfo | civitai_downloader.py:30-37 | fails exactly when the version list, or the first version's file list, is empty; otherwise the URL and file name come from `versions[0]` and `files[0]`, the type defaults to `"Unknown"`, the base model is normalized, and an absent tag list gives no tags |
| Metadata.BaseModelIsNormalized | civitai_downloader.py:33 | the resolved base model is a fixed point of space removal |
| Metadata.TagsAreLowerCase | civitai_downloader.py:36 | no resolved tag contains an upper-case letter |
| Metadata.LaterVersionsIgnored | civitai_downloader.py:31 | appending versions after the first never changes the result |
| Metadata.OnlyPrimaryFileMatters | civitai_downloader.py:31-35 | dropping every version but the first, and every file but its first, never changes the result |
| Placement.ComfyUiPathFor | civitai_downloader.py:39-46 | total; `checkpoints` exactly for `Checkpoint`, `loras` exactly for `LoCon`/`LoRA`, `embeddings` exactly for `TextualInversion`, `hypernetworks` exactly for `Hypernetwork`, `other` for every other string |
| Placement.TypeNamesAreCaseSensitive | civitai_downloader.py:39-46 | `lora`, `LORA`, `checkpoint` and `Unknown` map to `other` |
| Placement.InferSubfolder | civitai_downloader.py:48-53 | the result is one of `NSFW`, `experimental` or empty; `NSFW` iff `nsfw` is a tag; `experimental` iff `nsfw` is absent and `experimental` or `beta` is present; empty iff none of the three is present |
| Placement.SubfolderDependsOnTagSet | civitai_downloader.py:48-53 | two tag lists with the same members give the same subfolder |
| Placement.NsfwOverrides | civitai_downloader.py:49-50 | adding `nsfw` selects `NSFW`, whatever other tags are present |
| Paths.Join | civitai_downloader.py:96-100 | `os.path.join`: the result ends with the second part; an absolute second part replaces the first; otherwise the first part is a prefix, and exactly one `/` is inserted when the first part is non-empty and does not already end in `/`, none otherwise |
| Paths.JoinAll | civitai_downloader.py:96 | a multi-part join ends with its last part |
| Paths.JoinAllOfPlainSegments | civitai_downloader.py:96-100 | on non-empty segments with no absolute later part and no trailing `/` before the last, `os.path.join` is joining with `/` |
| Paths.BucketAndSubfolderArePlain | civitai_downloader.py:39-53 | bucket names and subfolder names are single relative path components |
| Paths.DestinationSegments | civitai_downloader.py:93-100 | the segments are root, bucket, base model, the subfolder only when non-empty, then the file name |
| Paths.Destination | civitai_downloader.py:93-100 | the destination always ends with the file name |
| Paths.DestinationJoinsSegments | civitai_downloader.py:96-100 | joining step by step equals one join of all destination segments |
| Paths.DestinationShape | civitai_downloader.py:93-100 | for a plain root, base model and file name, the destination is `root/bucket/base/filename`, or `root/bucket/base/subfolder/filename` when a subfolder applies |
| Paths.AbsoluteFilenameEscapesRoot | civitai_downloader.py:100 | an absolute file name from the hub becomes the whole destination, outside the root |
| Download.TokenUrl | civitai_downloader.py:61 | the request URL is the download URL, then `&token=`, then the key, with nothing added or lost |
| Download.TokenUrlDeterminesKey | civitai_downloader.py:61 | for a fixed download URL, different keys give different request URLs |
| Download.ConcatAppend | civitai_downloader.py:72-74 | the bytes of consecutive chunk runs are concatenated in order |
| Download.WriteChunks | civitai_downloader.py:72-75 | skipping empty chunks still writes all body bytes in order, and the progress count equals the number of bytes written |
| Download.DownloadFile | civitai_downloader.py:55-62 | an existing path means no request and an unchanged filesystem, and the outcome is `AlreadyExists` exactly then; otherwise one request with the key in the URL and a bearer header; the outcome is `Downloaded` exactly on a success status and `HttpError` otherwise, and the body is written only on a success status; no existing file is changed, and only the output path can be added |
| Download.SecondDownloadIsSkipped | civitai_downloader.py:56-58 | after a call that did not fail, a second call for the same path sends no request and changes nothing |
| Pipeline.TargetPath | civitai_downloader.py:93-100 | the destination of a resolved artifact ends with its file name |
| Pipeline.Run | civitai_downloader.py:82-107 | an invalid link exactly when no id is found; a failed metadata request or resolution sends no download request and writes nothing; otherwise one `download_file` call for the first file of the first version at the composed destination decides the run, and an error status is its own `DownloadFailed` status that writes nothing; existing files never change, and a new file can appear only at that destination |
| Pipeline.SpacesRemovedFromExample | civitai_downloader.py:33 | `SD 1.5` normalizes to `SD1.5` |
| Pipeline.LoraExample | civitai_downloader.py:91-100 | a `LoRA` with base model `SD 1.5`, no tags and file `example.safetensors` lands at `root/loras/SD1.5/example.safetensors` |

## Left out

- `get_model_metadata` (lines 24-28): the HTTP request is a parameter of `Pipeline.Run`, `fetchMetadata: string -> Option<ModelDocument>`. `None` stands for an error status or a network failure. The endpoint URL is not modelled.
- The HTTP request of `download_file` (lines 60-62): the server is a parameter, `Request -> Response`. A failed `raise_for_status` is `ok == false`. Network exceptions other than an error status are not modelled.
- `os.makedirs`, opening the file, the `tqdm` bar and the `content-length` header (lines 63-71): filesystem and console side effects. The write loop keeps only the bytes written and the progress count (`Download.WriteChunks`). The 8192-byte chunk size is not modelled, because chunks can be any size here.
- Download.DownloadFile: a stream that breaks mid-body is not modelled. The program would leave a truncated file, and a later run would skip it as already present.
- Download.DownloadFile: `os.path.exists` also holds for a directory. The abstract filesystem maps paths to file contents only.
- `load_dotenv`, `os.getenv`, the API-key check, `sys.argv`, `.strip()`, `print` and `sys.exit` (lines 10-18, 77-88, 102-108): configuration and command-line handling. The root, the key and the link are plain parameters.
- Reference.ExtractModelId: `\d` is read as the ASCII digits `0`-`9`. Python's `re` on `str` also matches other Unicode decimal digits.
- Text.Lower: only ASCII `A`-`Z` are lower-cased. Python's `str.lower()` also lower-cases non-ASCII letters.
- Metadata.GetDownloadInfo: the program raises `KeyError` when `modelVersions`, `downloadUrl`, `files`, a file's `name` or a tag's `name` is missing. It raises `TypeError` when `modelVersions`, `files` or `tags` is `null`, and `AttributeError` when `baseModel` or a tag's `name` is `null` (lines 33, 36). A `null` file `name` raises `TypeError` only later, in `os.path.join` (line 100). A `null` `downloadUrl` raises `TypeError` at line 61, but only when the destination does not exist yet; otherwise the run ends normally (lines 56-58). The datatype makes every read field present and non-null, so none of these failures can occur.
- Metadata.GetDownloadInfo: a `"type": null` is not an error in the program. Line 34 yields `None`, and line 46 maps it to `other`. `modelType: Option<string>` cannot tell an absent key from a `null` one, and the model reads both as absent, which resolves to `"Unknown"`. Both also land in `other`.
- Paths.Join: only POSIX `os.path.join` is modelled. `..` segments are not normalized, and a hub file name containing `/` or `..` is joined as it is.
