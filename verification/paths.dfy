/** Destination paths: POSIX `os.path.join` and the composition
    `root/bucket/base_model[/subfolder]/filename`. */
module Paths {
  import opened Placement

  const Sep: char := '/'

  predicate IsAbsolute(p: string) {
    |p| > 0 && p[0] == Sep
  }

  predicate EndsWithSep(p: string) {
    |p| > 0 && p[|p| - 1] == Sep
  }

  predicate EndsWith(s: string, suffix: string) {
    |suffix| <= |s| && s[|s| - |suffix|..] == suffix
  }

  /** `os.path.join(a, b)` on POSIX: an absolute `b` replaces `a`; otherwise `b`
      is appended after `a`, with one separator in between exactly when `a` is
      non-empty and does not already end with one. */
  function Join(a: string, b: string): (r: string)
    ensures EndsWith(r, b)
    ensures IsAbsolute(b) ==> r == b
    ensures !IsAbsolute(b) ==> |a| + |b| <= |r| <= |a| + |b| + 1 && r[..|a|] == a
    ensures !IsAbsolute(b) && |r| == |a| + |b| + 1 ==> r[|a|] == Sep
    ensures !IsAbsolute(b) && a != [] && !EndsWithSep(a) ==> |r| == |a| + |b| + 1
    ensures !IsAbsolute(b) && (a == [] || EndsWithSep(a)) ==> |r| == |a| + |b|
  {
    if IsAbsolute(b) then b
    else if a == [] || EndsWithSep(a) then a + b
    else a + [Sep] + b
  }

  /** `os.path.join(p0, p1, ..., pn)`: the components joined from left to right. */
  function JoinAll(parts: seq<string>): (r: string)
    requires |parts| > 0
    ensures EndsWith(r, parts[|parts| - 1])
    decreases |parts|
  {
    if |parts| == 1 then parts[0]
    else Join(JoinAll(parts[..|parts| - 1]), parts[|parts| - 1])
  }

  /** The simple view of a path: the segments with one `/` between neighbours. */
  function SlashJoin(segs: seq<string>): (r: string)
    requires |segs| > 0
    ensures EndsWith(r, segs[|segs| - 1])
    decreases |segs|
  {
    if |segs| == 1 then segs[0]
    else SlashJoin(segs[..|segs| - 1]) + [Sep] + segs[|segs| - 1]
  }

  /** Segments for which `os.path.join` behaves like plain `/`-joining: none is
      empty, none after the first is absolute, none before the last ends with `/`. */
  predicate PlainSegments(segs: seq<string>) {
    && |segs| > 0
    && (forall i :: 0 <= i < |segs| ==> segs[i] != [])
    && (forall i :: 1 <= i < |segs| ==> !IsAbsolute(segs[i]))
    && (forall i :: 0 <= i < |segs| - 1 ==> !EndsWithSep(segs[i]))
  }

  /** On plain segments, `os.path.join` is `/`-joining. */
  lemma {:induction false} JoinAllOfPlainSegments(segs: seq<string>)
    requires PlainSegments(segs)
    ensures JoinAll(segs) == SlashJoin(segs)
    decreases |segs|
  {
    if |segs| > 1 {
      var init := segs[..|segs| - 1];
      var last := segs[|segs| - 1];
      assert PlainSegments(init);
      JoinAllOfPlainSegments(init);
      var prev := init[|init| - 1];
      assert prev != [] && !EndsWithSep(prev);
      var d := JoinAll(init);
      assert d[|d| - 1] == prev[|prev| - 1];
      assert !IsAbsolute(last);
    }
  }

  /** The segments of the destination, in order; the subfolder only when one applies. */
  function DestinationSegments(root: string, modelType: string, tags: seq<string>,
                               baseModel: string, filename: string): (segs: seq<string>)
    ensures |segs| == if InferSubfolder(tags) == "" then 4 else 5
    ensures segs[0] == root && segs[1] == ComfyUiPathFor(modelType) && segs[2] == baseModel
    ensures InferSubfolder(tags) != "" ==> segs[3] == InferSubfolder(tags)
    ensures segs[|segs| - 1] == filename
  {
    var sub := InferSubfolder(tags);
    [root, ComfyUiPathFor(modelType), baseModel] + (if sub == "" then [] else [sub]) + [filename]
  }

  /** The destination as `main` composes it: join root, bucket and base model,
      then the subfolder if it is non-empty, then the file name. */
  function Destination(root: string, modelType: string, tags: seq<string>,
                       baseModel: string, filename: string): (path: string)
    ensures EndsWith(path, filename)
  {
    var dir := JoinAll([root, ComfyUiPathFor(modelType), baseModel]);
    var sub := InferSubfolder(tags);
    var dir' := if sub != "" then Join(dir, sub) else dir;
    Join(dir', filename)
  }

  /** The step-by-step composition is the single join of all destination segments. */
  lemma DestinationJoinsSegments(root: string, modelType: string, tags: seq<string>,
                                 baseModel: string, filename: string)
    ensures Destination(root, modelType, tags, baseModel, filename)
         == JoinAll(DestinationSegments(root, modelType, tags, baseModel, filename))
  {
    var segs := DestinationSegments(root, modelType, tags, baseModel, filename);
    var bucket := ComfyUiPathFor(modelType);
    assert segs[..3] == [root, bucket, baseModel];
    if InferSubfolder(tags) != "" {
      assert segs[..4][..3] == segs[..3];
    }
  }

  /** With a non-empty root that does not end in `/`, and a base model and file
      name that are non-empty and relative (the base model also not ending in
      `/`), the destination is `root/bucket/base_model/filename`, with
      `/subfolder` before the file name exactly when a subfolder applies. */
  lemma DestinationShape(root: string, modelType: string, tags: seq<string>,
                         baseModel: string, filename: string)
    requires root != [] && !EndsWithSep(root)
    requires baseModel != [] && !IsAbsolute(baseModel) && !EndsWithSep(baseModel)
    requires filename != [] && !IsAbsolute(filename)
    ensures
      var bucket := ComfyUiPathFor(modelType);
      var sub := InferSubfolder(tags);
      var path := Destination(root, modelType, tags, baseModel, filename);
      && (sub == "" ==> path == root + "/" + bucket + "/" + baseModel + "/" + filename)
      && (sub != "" ==> path == root + "/" + bucket + "/" + baseModel + "/" + sub + "/" + filename)
  {
    var segs := DestinationSegments(root, modelType, tags, baseModel, filename);
    var bucket := ComfyUiPathFor(modelType);
    var sub := InferSubfolder(tags);
    BucketAndSubfolderArePlain(modelType, tags);
    assert PlainSegments(segs);
    DestinationJoinsSegments(root, modelType, tags, baseModel, filename);
    JoinAllOfPlainSegments(segs);
    SlashJoinOfDestination(root, bucket, baseModel, sub, filename);
    if sub == "" {
      assert segs == [root, bucket, baseModel] + [filename];
    }
  }

  /** Bucket names and subfolder names are single relative path components. */
  lemma BucketAndSubfolderArePlain(modelType: string, tags: seq<string>)
    ensures var bucket := ComfyUiPathFor(modelType);
      bucket != [] && !IsAbsolute(bucket) && !EndsWithSep(bucket)
    ensures var sub := InferSubfolder(tags);
      !IsAbsolute(sub) && !EndsWithSep(sub)
  {
  }

  /** `SlashJoin` of the destination segments, written out. */
  lemma SlashJoinOfDestination(root: string, bucket: string, baseModel: string, sub: string, filename: string)
    ensures
      SlashJoin([root, bucket, baseModel] + [filename]) == root + "/" + bucket + "/" + baseModel + "/" + filename
    ensures
      SlashJoin([root, bucket, baseModel] + [sub] + [filename])
        == root + "/" + bucket + "/" + baseModel + "/" + sub + "/" + filename
  {
    var dir := [root, bucket, baseModel];
    SlashJoinSnoc([root], bucket);
    assert [root] + [bucket] == [root, bucket];
    SlashJoinSnoc([root, bucket], baseModel);
    assert [root, bucket] + [baseModel] == dir;
    SlashJoinSnoc(dir, filename);
    SlashJoinSnoc(dir, sub);
    SlashJoinSnoc(dir + [sub], filename);
  }

  /** Appending a segment appends a separator and the segment. */
  lemma SlashJoinSnoc(segs: seq<string>, x: string)
    requires |segs| > 0
    ensures SlashJoin(segs + [x]) == SlashJoin(segs) + "/" + x
  {
  }

  /** A file name that is itself absolute replaces everything before it, so the
      file lands outside the model root. */
  lemma AbsoluteFilenameEscapesRoot(root: string, modelType: string, tags: seq<string>,
                                    baseModel: string, filename: string)
    requires IsAbsolute(filename)
    ensures Destination(root, modelType, tags, baseModel, filename) == filename
  {
  }
}
