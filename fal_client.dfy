/** The validators of lib/fal-client.ts. The environment variable `FAL_API_KEY` is a parameter. */
module FalClient {
  import opened Common
  import Constants

  /** The four alternatives of the data-URI pattern, in the order the regular expression tries them. */
  const ImageFormats: seq<string> := ["jpeg", "jpg", "png", "webp"]

  /** The whole prefix the pattern asks for, written in lower case. */
  function DataUriPrefix(format: string): string {
    "data:image/" + format + ";base64,"
  }

  /** `lit` matches `s` at `pos`, ignoring ASCII case (the pattern's `i` flag); `lit` is lower case. */
  predicate MatchesAt(s: string, pos: nat, lit: string) {
    pos + |lit| <= |s| && forall i :: 0 <= i < |lit| ==> LowerChar(s[pos + i]) == lit[i]
  }

  /** One alternative of the group, followed by the rest of the pattern. */
  predicate MatchesFormat(s: string, format: string) {
    MatchesAt(s, 11, format) && MatchesAt(s, 11 + |format|, ";base64,")
  }

  /**
   * `/^data:image\/(jpeg|jpg|png|webp);base64,/i.test(dataUri)`: the pattern is
   * anchored at the start and has no end anchor, so only a prefix is checked.
   * Its meaning: the lower-cased input starts with the prefix for one of the
   * four formats.
   */
  function IsValidBase64DataUri(dataUri: string): (r: bool)
    ensures r <==> exists format :: format in ImageFormats && IsPrefix(DataUriPrefix(format), Lower(dataUri))
  {
    var r := MatchesAt(dataUri, 0, "data:image/")
      && (MatchesFormat(dataUri, "jpeg") || MatchesFormat(dataUri, "jpg")
          || MatchesFormat(dataUri, "png") || MatchesFormat(dataUri, "webp"));
    forall format | format in ImageFormats
      ensures IsPrefix(DataUriPrefix(format), Lower(dataUri)) <==> MatchesAt(dataUri, 0, "data:image/") && MatchesFormat(dataUri, format)
    {
      PrefixMatch(dataUri, format);
    }
    r
  }

  lemma PrefixMatch(s: string, format: string)
    ensures IsPrefix(DataUriPrefix(format), Lower(s)) <==> MatchesAt(s, 0, "data:image/") && MatchesFormat(s, format)
  {
    PrefixOfLower(s, DataUriPrefix(format));
    MatchesAtConcat(s, 0, "data:image/" + format, ";base64,");
    MatchesAtConcat(s, 0, "data:image/", format);
  }

  /** Matching a lower-case text at position 0 is being a prefix of the lower-cased input. */
  lemma PrefixOfLower(s: string, p: string)
    ensures IsPrefix(p, Lower(s)) <==> MatchesAt(s, 0, p)
  {
    if |p| <= |s| {
      assert forall i :: 0 <= i < |p| ==> Lower(s)[..|p|][i] == LowerChar(s[i]);
      if MatchesAt(s, 0, p) {
        assert Lower(s)[..|p|] == p;
      }
    }
  }

  lemma MatchesAtConcat(s: string, pos: nat, a: string, b: string)
    ensures MatchesAt(s, pos, a + b) <==> MatchesAt(s, pos, a) && MatchesAt(s, pos + |a|, b)
  {
    if MatchesAt(s, pos, a) && MatchesAt(s, pos + |a|, b) {
      forall i | 0 <= i < |a + b| ensures LowerChar(s[pos + i]) == (a + b)[i] {
        if i >= |a| {
          assert LowerChar(s[pos + |a| + (i - |a|)]) == b[i - |a|];
        }
      }
    }
    if MatchesAt(s, pos, a + b) {
      forall i | 0 <= i < |a| ensures LowerChar(s[pos + i]) == a[i] {
        assert (a + b)[i] == a[i];
      }
      forall i | 0 <= i < |b| ensures LowerChar(s[pos + |a| + i]) == b[i] {
        assert (a + b)[|a| + i] == b[i];
      }
    }
  }

  /** Whatever follows a correct prefix is accepted, including nothing at all. */
  lemma AcceptsAnySuffix(format: string, rest: string)
    requires format in ImageFormats
    ensures IsValidBase64DataUri(DataUriPrefix(format) + rest)
  {
    var s := DataUriPrefix(format) + rest;
    var p := DataUriPrefix(format);
    forall i | 0 <= i < |p| ensures Lower(s)[i] == p[i] {
      assert s[i] == p[i];
      assert !IsAsciiUpper(p[i]);
    }
    assert Lower(s)[..|p|] == p;
  }

  /** Case is ignored: the all-capitals prefix is accepted. */
  lemma AcceptsUpperCase()
    ensures IsValidBase64DataUri("DATA:IMAGE/PNG;BASE64,")
  {
    var s := "DATA:IMAGE/PNG;BASE64,";
    assert MatchesAt(s, 0, "data:image/");
    assert MatchesFormat(s, "png");
  }

  /** gif and svg+xml data URIs are rejected, whatever follows. */
  lemma RejectsGifAndSvg(rest: string)
    ensures !IsValidBase64DataUri("data:image/gif;base64," + rest)
    ensures !IsValidBase64DataUri("data:image/svg+xml;base64," + rest)
  {
    RejectsAtEleven("data:image/gif;base64," + rest);
    RejectsAtEleven("data:image/svg+xml;base64," + rest);
  }

  lemma RejectsAtEleven(s: string)
    requires |s| > 11 && s[11] in "gs"
    ensures !IsValidBase64DataUri(s)
  {
    if IsValidBase64DataUri(s) {
      FormatLetter(s);
    }
  }

  /** In an accepted string the format starts at position 11 with `j`, `p` or `w`, in either case. */
  lemma FormatLetter(s: string)
    requires IsValidBase64DataUri(s)
    ensures |s| > 11 && LowerChar(s[11]) in "jpw"
  {
    var format :| format in ImageFormats && IsPrefix(DataUriPrefix(format), Lower(s));
    assert Lower(s)[11] == DataUriPrefix(format)[11];
  }

  /** The prefix must start at position 0: an accepted string starts with `d` or `D`. */
  lemma AnchoredAtStart(s: string)
    requires IsValidBase64DataUri(s)
    ensures |s| > 0 && (s[0] == 'd' || s[0] == 'D')
  {
    var format :| format in ImageFormats && IsPrefix(DataUriPrefix(format), Lower(s));
    assert Lower(s)[0] == DataUriPrefix(format)[0];
  }

  /** `validateApiKey`: `!!process.env.FAL_API_KEY`. */
  predicate ValidateApiKey(falApiKey: Option<string>): (r: bool)
    ensures r <==> falApiKey.Some? && |falApiKey.value| > 0
  {
    Truthy(falApiKey)
  }

  /** What `getFalModel` hands to the model factory. */
  datatype FalModel = FalModel(modelName: string, apiKey: string)

  const MissingKeyMessage: string := "FAL_API_KEY is not set in environment variables"

  /** `getFalModel`: throws when the key is absent or empty, and otherwise configures the edit model with that key. */
  function GetFalModel(falApiKey: Option<string>): (r: Result<FalModel>)
    ensures r.Failure? <==> !ValidateApiKey(falApiKey)
    ensures r.Failure? ==> r.error == MissingKeyMessage
    ensures r.Success? ==> r.value == FalModel(Constants.ModelName, falApiKey.value) && r.value.apiKey != ""
  {
    if !Truthy(falApiKey) then Failure(MissingKeyMessage)
    else Success(FalModel(Constants.ModelName, falApiKey.value))
  }

  /** `getFalModel` throws for a missing key and for the empty key, and for nothing else. */
  lemma ApiKeyCases(falApiKey: Option<string>)
    ensures GetFalModel(falApiKey).Failure? <==> falApiKey == None || falApiKey == Some("")
  {
  }
}
