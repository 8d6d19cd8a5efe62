/** The downloader: the skip-if-exists rule, the authenticated request, and the
    chunked write, over an abstract filesystem and an abstract server. */
module Download {

  newtype byte = x: int | 0 <= x < 256

  type Bytes = seq<byte>

  /** The filesystem as the downloader sees it: the paths that exist and their contents. */
  type FileSystem = map<string, Bytes>

  const TokenParam: string := "&token="
  const BearerPrefix: string := "Bearer "

  /** A GET request: its URL and its `Authorization` header. */
  datatype Request = Request(url: string, authorization: string)

  /** The server's answer: `ok` is false when `raise_for_status` raises; `chunks`
      is the body as `iter_content` yields it. */
  datatype Response = Response(ok: bool, chunks: seq<Bytes>)

  /** How a call ended: skipped because the path exists, written, or stopped by
      an error status before anything was written. */
  datatype Outcome = AlreadyExists | Downloaded | HttpError

  /** The effect of one call: its outcome, the requests it sent, the filesystem after it. */
  datatype Effect = Effect(outcome: Outcome, requests: seq<Request>, fs: FileSystem)

  /** The request URL: the download URL, then `&token=`, then the key. */
  function TokenUrl(url: string, apiKey: string): (r: string)
    ensures |r| == |url| + |TokenParam| + |apiKey|
    ensures r[..|url|] == url
    ensures r[|url|..|url| + |TokenParam|] == TokenParam
    ensures r[|url| + |TokenParam|..] == apiKey
  {
    url + TokenParam + apiKey
  }

  /** For a fixed download URL, the request URL determines the key. */
  lemma TokenUrlDeterminesKey(url: string, key1: string, key2: string)
    requires TokenUrl(url, key1) == TokenUrl(url, key2)
    ensures key1 == key2
  {
  }

  /** The bytes of a sequence of chunks, in order. */
  function Concat(chunks: seq<Bytes>): Bytes
    decreases |chunks|
  {
    if chunks == [] then [] else Concat(chunks[..|chunks| - 1]) + chunks[|chunks| - 1]
  }

  /** The bytes of two runs of chunks are the bytes of each, one after the other. */
  lemma {:induction false} ConcatAppend(a: seq<Bytes>, b: seq<Bytes>)
    ensures Concat(a + b) == Concat(a) + Concat(b)
    decreases |b|
  {
    if b == [] {
      assert a + b == a;
    } else {
      var b' := b[..|b| - 1];
      assert (a + b)[..|a + b| - 1] == a + b';
      ConcatAppend(a, b');
    }
  }

  /** The streaming loop: every non-empty chunk is appended to the file and
      advances the progress bar by its length. The file ends up with all the
      body's bytes in order, and the progress count equals the bytes written. */
  method WriteChunks(chunks: seq<Bytes>) returns (written: Bytes, progress: nat)
    ensures written == Concat(chunks)
    ensures progress == |written|
  {
    written := [];
    progress := 0;
    var i := 0;
    while i < |chunks|
      invariant 0 <= i <= |chunks|
      invariant written == Concat(chunks[..i])
      invariant progress == |written|
    {
      var chunk := chunks[i];
      if |chunk| > 0 {
        written := written + chunk;
        progress := progress + |chunk|;
      }
      assert chunks[..i + 1] == chunks[..i] + [chunk];
      ConcatAppend(chunks[..i], [chunk]);
      i := i + 1;
    }
    assert chunks[..i] == chunks;
  }

  /** `download_file`: when the path exists nothing is requested and nothing
      changes; otherwise exactly one request goes out, with the key both in the
      URL and in a bearer header, and the body is written only on a success status. */
  function DownloadFile(fs: FileSystem, url: string, outputPath: string, apiKey: string,
                        server: Request -> Response): (r: Effect)
    ensures outputPath in fs ==> r == Effect(AlreadyExists, [], fs)
    ensures r.outcome == AlreadyExists <==> outputPath in fs
    ensures outputPath !in fs ==>
      r.requests == [Request(url + "&token=" + apiKey, "Bearer " + apiKey)]
    ensures outputPath !in fs ==> (r.outcome == Downloaded <==> server(r.requests[0]).ok)
    ensures r.outcome == Downloaded ==>
      r.fs == fs[outputPath := Concat(server(r.requests[0]).chunks)]
    ensures r.outcome != Downloaded ==> r.fs == fs
    ensures forall p :: p in fs ==> p in r.fs && r.fs[p] == fs[p]
    ensures forall p :: p in r.fs && p !in fs ==> p == outputPath && r.outcome == Downloaded
  {
    if outputPath in fs then Effect(AlreadyExists, [], fs)
    else
      var request := Request(TokenUrl(url, apiKey), BearerPrefix + apiKey);
      var response := server(request);
      if !response.ok then Effect(HttpError, [request], fs)
      else Effect(Downloaded, [request], fs[outputPath := Concat(response.chunks)])
  }

  /** Once a call has left a file at the path, a second call for the same path
      sends no request and changes nothing, whatever its URL, key or server. */
  lemma SecondDownloadIsSkipped(fs: FileSystem, url: string, outputPath: string, apiKey: string,
                                server: Request -> Response,
                                url2: string, apiKey2: string, server2: Request -> Response)
    requires DownloadFile(fs, url, outputPath, apiKey, server).outcome != HttpError
    ensures
      var first := DownloadFile(fs, url, outputPath, apiKey, server);
      DownloadFile(first.fs, url2, outputPath, apiKey2, server2) == Effect(AlreadyExists, [], first.fs)
  {
  }
}
