/** The reference extractor: the model id is the run of digits after the
    leftmost `/models/` that is immediately followed by a digit, which is what
    a search for the pattern `/models/(\d+)` yields. */
module Reference {
  import opened Wrappers
  import opened Text

  const Marker: string := "/models/"

  /** The pattern `/models/\d` matches at index `i` of `s`. */
  predicate MatchAt(s: string, i: int) {
    && 0 <= i
    && i + |Marker| < |s|
    && s[i..i + |Marker|] == Marker
    && IsDigit(s[i + |Marker|])
  }

  /** `i` is where a left-to-right search finds its match. */
  predicate IsLeftmostMatch(s: string, i: int) {
    MatchAt(s, i) && forall k :: 0 <= k < i ==> !MatchAt(s, k)
  }

  /** `id` is the non-empty, maximal run of digits that follows the marker at `i`:
      the greedy `(\d+)` group. */
  predicate IdFollows(s: string, i: int, id: string) {
    && MatchAt(s, i)
    && var j := i + |Marker|;
    && j + |id| <= |s|
    && s[j..j + |id|] == id
    && |id| > 0
    && AllDigits(id)
    && (j + |id| == |s| || !IsDigit(s[j + |id|]))
  }

  /** The length of the run of digits that starts at index `j`. */
  function DigitRun(s: string, j: nat): (n: nat)
    requires j <= |s|
    ensures j + n <= |s|
    ensures forall k :: j <= k < j + n ==> IsDigit(s[k])
    ensures j + n == |s| || !IsDigit(s[j + n])
    decreases |s| - j
  {
    if j < |s| && IsDigit(s[j]) then 1 + DigitRun(s, j + 1) else 0
  }

  /** The leftmost match at or after `from`, if any. */
  function FirstMatch(s: string, from: nat): (r: Option<nat>)
    ensures r.Some? ==> from <= r.value && MatchAt(s, r.value)
    ensures r.Some? ==> forall k :: from <= k < r.value ==> !MatchAt(s, k)
    ensures r.None? ==> forall k :: from <= k ==> !MatchAt(s, k)
    decreases |s| - from
  {
    if from + |Marker| >= |s| then None
    else if MatchAt(s, from) then Some(from)
    else FirstMatch(s, from + 1)
  }

  /** `extract_model_id`: `None` exactly when the pattern matches nowhere;
      otherwise the digits that follow the leftmost match. */
  function ExtractModelId(url: string): (id: Option<string>)
    ensures id.None? <==> forall i :: !MatchAt(url, i)
    ensures id.Some? ==> exists i :: IsLeftmostMatch(url, i) && IdFollows(url, i, id.value)
  {
    match FirstMatch(url, 0)
    case None => None
    case Some(i) =>
      var j := i + |Marker|;
      var n := DigitRun(url, j);
      assert IsLeftmostMatch(url, i);
      assert IdFollows(url, i, url[j..j + n]);
      Some(url[j..j + n])
  }

  /** The digits after a given match are determined by the string. */
  lemma IdFollowsUnique(s: string, i: int, a: string, b: string)
    requires IdFollows(s, i, a) && IdFollows(s, i, b)
    ensures a == b
  {
    var j := i + |Marker|;
    assert forall k :: j <= k < j + |a| ==> s[k] == a[k - j] && IsDigit(s[k]);
    assert forall k :: j <= k < j + |b| ==> s[k] == b[k - j] && IsDigit(s[k]);
    assert j + |a| == |s| || !IsDigit(s[j + |a|]);
    assert j + |b| == |s| || !IsDigit(s[j + |b|]);
    assert |a| == |b|;
  }

  /** Converse of the `Some` half of `ExtractModelId`'s contract: whatever id
      follows the leftmost match is the one returned. */
  lemma ExtractModelIdComplete(url: string, i: int, id: string)
    requires IsLeftmostMatch(url, i) && IdFollows(url, i, id)
    ensures ExtractModelId(url) == Some(id)
  {
  }

  /** A string without a match, followed by the marker, a digit run and a tail
      that does not continue the run, yields exactly that digit run: the id of a
      link such as `https://civitai.com/models/123456?modelVersionId=7`. */
  lemma ExtractAfterPlainPrefix(prefix: string, digits: string, rest: string)
    requires ExtractModelId(prefix) == None
    requires |digits| > 0 && AllDigits(digits)
    requires |rest| == 0 || !IsDigit(rest[0])
    ensures ExtractModelId(prefix + Marker + digits + rest) == Some(digits)
  {
    var s := prefix + Marker + digits + rest;
    var p := |prefix|;
    var j := p + |Marker|;
    assert s[p..j] == Marker;
    assert s[j..j + |digits|] == digits;
    assert s[j] == digits[0];
    assert MatchAt(s, p);
    forall k | 0 <= k < p
      ensures !MatchAt(s, k)
    {
      if k + |Marker| < p {
        assert s[k..k + |Marker| + 1] == prefix[k..k + |Marker| + 1];
        assert !MatchAt(prefix, k);
      } else {
        assert s[k + |Marker|] == Marker[k + |Marker| - p];
      }
    }
    assert IsLeftmostMatch(s, p);
    if j + |digits| < |s| {
      assert s[j + |digits|] == rest[0];
    }
    assert IdFollows(s, p, digits);
    ExtractModelIdComplete(s, p, digits);
  }

  /** A string without digits holds no match. */
  lemma NoDigitNoMatch(s: string)
    requires forall k :: 0 <= k < |s| ==> !IsDigit(s[k])
    ensures ExtractModelId(s) == None
  {
  }

  /** The example link from the program's usage message resolves to its id. */
  lemma ExampleLink(url: string)
    requires url == "https://civitai.com/models/123456"
    ensures ExtractModelId(url) == Some("123456")
  {
    var prefix := "https://civitai.com";
    var digits := "123456";
    assert forall k :: 0 <= k < |prefix| ==> !IsDigit(prefix[k]);
    NoDigitNoMatch(prefix);
    assert AllDigits(digits);
    assert prefix + Marker + digits + "" == url;
    ExtractAfterPlainPrefix(prefix, digits, "");
  }
}
