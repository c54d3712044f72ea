/**
 * backend/src/trpc/router/ocr/index.ts: the `extractStudentIds` mutation.
 * It strips a data-URL prefix from the uploaded image and hands the rest to
 * tesseract; tesseract (with the base64 decoding before it) is a parameter.
 */
module OcrRouter {
  import opened Wrappers
  import opened Text
  import opened Trpc

  const ImageUrlRequired := "Image URL is required"
  const ExtractFailed := "Failed to extract student IDs"

  const DataImage := "data:image/"
  const Base64Marker := ";base64,"

  /** The regular expression class `\w`. */
  predicate IsWordChar(c: char) {
    ('a' <= c <= 'z') || ('A' <= c <= 'Z') || ('0' <= c <= '9') || c == '_'
  }

  predicate IsWord(w: string) {
    forall i :: 0 <= i < |w| ==> IsWordChar(w[i])
  }

  /** The number of word characters of `s` from index `i` on, up to the first other one. */
  function WordRun(s: string, i: nat): (n: nat)
    requires i <= |s|
    ensures i + n <= |s|
    ensures IsWord(s[i..i + n])
    ensures i + n < |s| ==> !IsWordChar(s[i + n])
    decreases |s| - i
  {
    if i < |s| && IsWordChar(s[i]) then 1 + WordRun(s, i + 1) else 0
  }

  /** The prefix `data:image/<w>;base64,` for a subtype `w`. */
  function DataPrefix(w: string): string {
    DataImage + w + Base64Marker
  }

  /** The length of the text `^data:image\/\w+;base64,` matches at the start of `s`, if it matches. */
  function PrefixMatch(s: string): Option<nat> {
    if !StartsWith(s, DataImage) then None
    else
      var n := WordRun(s, |DataImage|);
      var j := |DataImage| + n;
      if n > 0 && StartsWith(s[j..], Base64Marker) then Some(j + |Base64Marker|) else None
  }

  /** `s.replace(/^data:image\/\w+;base64,/, "")`: one anchored, non-global replacement. */
  function StripDataUrlPrefix(s: string): string {
    match PrefixMatch(s)
    case None => s
    case Some(k) => if k <= |s| then s[k..] else s
  }

  lemma PrefixMatchBound(s: string)
    ensures PrefixMatch(s).Some? ==> |DataImage| + |Base64Marker| < PrefixMatch(s).value <= |s|
  {
  }

  /** A prefixed string loses exactly its prefix, and nothing after it. */
  lemma StripPrefixed(w: string, rest: string)
    requires w != [] && IsWord(w)
    ensures StripDataUrlPrefix(DataPrefix(w) + rest) == rest
  {
    var s := DataPrefix(w) + rest;
    assert s[..|DataImage|] == DataImage;
    WordRunOf(s, |DataImage|, w);
    var j := |DataImage| + |w|;
    assert s[j..][..|Base64Marker|] == Base64Marker;
    assert s[j + |Base64Marker|..] == rest;
  }

  /** `WordRun` stops exactly at the end of a word followed by a `;`. */
  lemma {:induction false} WordRunOf(s: string, i: nat, w: string)
    requires i + |w| < |s| && s[i..i + |w|] == w && IsWord(w) && s[i + |w|] == ';'
    ensures WordRun(s, i) == |w|
    decreases |w|
  {
    if w != [] {
      assert s[i] == w[0];
      assert s[i + 1..i + 1 + |w[1..]|] == w[1..];
      WordRunOf(s, i + 1, w[1..]);
    }
  }

  /**
   * A string the prefix does not match is unchanged, and one it changes is
   * a prefix `data:image/<w>;base64,` followed by the result.
   */
  lemma StripShape(s: string)
    ensures var r := StripDataUrlPrefix(s);
      && |r| <= |s| && r == s[|s| - |r|..]
      && (PrefixMatch(s).None? <==> r == s)
      && (r != s ==>
            var k := |s| - |r|;
            var w := s[|DataImage|..k - |Base64Marker|];
            k > |DataImage| + |Base64Marker| && IsWord(w) && s == DataPrefix(w) + r)
  {
    PrefixMatchBound(s);
    var r := StripDataUrlPrefix(s);
    if PrefixMatch(s).Some? {
      var k := PrefixMatch(s).value;
      assert |r| < |s|;
      var n := WordRun(s, |DataImage|);
      var i, j := |DataImage|, k - |Base64Marker|;
      assert j == i + n;
      assert s[..i] == DataImage;
      assert s[j..][..|Base64Marker|] == Base64Marker;
      assert s == s[..i] + s[i..j] + s[j..k] + s[k..];
    }
  }

  /** A PNG data URL loses its prefix. */
  lemma StripPngExample()
    ensures StripDataUrlPrefix("data:image/png;base64,iVBORw0K") == "iVBORw0K"
  {
    StripPrefixed("png", "iVBORw0K");
    assert DataPrefix("png") + "iVBORw0K" == "data:image/png;base64,iVBORw0K";
  }

  /** `svg+xml` is not a `\w+` subtype, so an SVG data URL is kept whole. */
  lemma StripSvgExample()
    ensures var s := "data:image/svg+xml;base64,PHN2Zz4=";
      StripDataUrlPrefix(s) == s
  {
    var s := "data:image/svg+xml;base64,PHN2Zz4=";
    assert s[14] == '+';
    assert WordRun(s, 11) == 3 by {
      assert IsWordChar(s[11]) && IsWordChar(s[12]) && IsWordChar(s[13]);
      assert WordRun(s, 14) == 0;
    }
    assert s[14..][0] == '+';
  }

  datatype ExtractReply = ExtractReply(success: bool, text: string)

  /**
   * index.ts:7-48. The zod check rejects an empty `imageUrl` before the
   * body runs; a rejection from the recogniser is rethrown when it is a
   * `TRPCError` and replaced by an internal error otherwise.
   */
  function ExtractStudentIds(imageUrl: string, recognize: string -> Result<string, Thrown>): Outcome<ExtractReply> {
    if |imageUrl| < 1 then Rejected(TrpcError(BadRequest, ImageUrlRequired))
    else
      match recognize(StripDataUrlPrefix(imageUrl))
      case Ok(text) => Resolved(ExtractReply(true, text))
      case Err(ThrownTrpc(e)) => Rejected(e)
      case Err(_) => Rejected(TrpcError(InternalServerError, ExtractFailed))
  }

  /**
   * The outcomes of extractStudentIds: it resolves exactly when the input is
   * non-empty and the recogniser succeeds on the stripped payload, with that
   * text; every other failure is an internal error with a fixed message.
   */
  lemma ExtractStudentIdsOutcomes(imageUrl: string, recognize: string -> Result<string, Thrown>)
    ensures var r := ExtractStudentIds(imageUrl, recognize);
      var t := recognize(StripDataUrlPrefix(imageUrl));
      && (imageUrl == "" ==> r == Rejected(TrpcError(BadRequest, ImageUrlRequired)))
      && (r.Resolved? <==> imageUrl != "" && t.Ok?)
      && (r.Resolved? ==> r.reply == ExtractReply(true, t.value))
      && (imageUrl != "" && t.Err? ==>
            r.Rejected? && (t.error.ThrownTrpc? ==> r.err == t.error.err)
            && (!t.error.ThrownTrpc? ==> r.err == TrpcError(InternalServerError, ExtractFailed)))
  {
  }
}
