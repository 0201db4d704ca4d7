/**
 * Retrieved documents, the citations shown for them, and the source line
 * each citation is rendered with.
 *
 * The metadata of a document is kept opaque (type parameter `M`): the model
 * never looks inside it.
 */
module Citations {
  import opened Wrappers
  import opened S3Uri

  /** A document fragment returned by the knowledge-base retriever. */
  datatype Doc<M> = Doc(pageContent: string, metadata: M)

  /** The citation record built from one retrieved document. */
  datatype Citation<M> = Citation(pageContent: string, metadata: M)

  /** `extract_citations`: one citation per document, in the documents' order. */
  function ExtractCitations<M>(docs: seq<Doc<M>>): (cs: seq<Citation<M>>)
    ensures |cs| == |docs|
    ensures forall i :: 0 <= i < |docs| ==>
      cs[i].pageContent == docs[i].pageContent && cs[i].metadata == docs[i].metadata
  {
    seq(|docs|, i requires 0 <= i < |docs| => Citation(docs[i].pageContent, docs[i].metadata))
  }

  /** The document a citation was built from. */
  function SourceDocs<M>(cs: seq<Citation<M>>): (docs: seq<Doc<M>>)
    ensures |docs| == |cs|
  {
    if cs == [] then [] else [Doc(cs[0].pageContent, cs[0].metadata)] + SourceDocs(cs[1..])
  }

  /** No document is dropped, added or altered: the documents can be read back from the citations. */
  lemma {:induction false} CitationsKeepDocs<M>(docs: seq<Doc<M>>)
    ensures SourceDocs(ExtractCitations(docs)) == docs
    decreases |docs|
  {
    if docs != [] {
      CitationsKeepDocs(docs[1..]);
      assert ExtractCitations(docs)[1..] == ExtractCitations(docs[1..]);
    }
  }

  /** Citing two batches of documents one after the other is citing their concatenation. */
  lemma CitationsOfConcat<M>(a: seq<Doc<M>>, b: seq<Doc<M>>)
    ensures ExtractCitations(a + b) == ExtractCitations(a) + ExtractCitations(b)
  {
  }

  /** How a citation's source is shown: as a link, or as plain text when signing gave no URL. */
  datatype SourceLine = Linked(uri: string, url: string) | PlainText(uri: string)

  /**
   * The source line of a citation stored at `uri`: the URI is parsed with
   * `parse_s3_uri` as written and `presign` stands for `create_presigned_url`
   * on the bucket and key it yields.  `presign` answers `None` when signing
   * raises, `Some("")` when it reports failure by an empty URL, and the line
   * then falls back to the plain URI.  The result is `None` when signing raised.
   */
  function ResolveSource(uri: string, presign: (string, string) -> Option<string>): (line: Option<SourceLine>)
    ensures var loc := ParseS3Uri(uri);
      var answer := presign(loc.bucket, loc.key);
      (line.None? <==> answer.None?) &&
      (line.Some? ==>
         && line.value.uri == uri
         && (line.value.Linked? <==> answer.value != "")
         && (line.value.Linked? ==> line.value.url == answer.value))
  {
    var loc := ParseS3Uri(uri);
    match presign(loc.bucket, loc.key)
    case None => None
    case Some(url) => if url != "" then Some(Linked(uri, url)) else Some(PlainText(uri))
  }

  /**
   * A citation stored at `s3://bucket/key` is signed for exactly that bucket
   * and key, provided `bucket/key` does not itself spell out `s3://` (see
   * `S3Uri.KeyWithSchemeIsCorrupted` for a key where it does).
   */
  lemma ResolveSourceAsksForStoredObject(bucket: string, key: string, presign: (string, string) -> Option<string>)
    requires Slash !in bucket
    requires !Contains(bucket + [Slash] + key, Scheme)
    ensures var line := ResolveSource(Scheme + bucket + [Slash] + key, presign);
      var answer := presign(bucket, key);
      (line.None? <==> answer.None?) &&
      (line.Some? ==>
         && (line.value.Linked? <==> answer.value != "")
         && (line.value.Linked? ==> line.value.url == answer.value))
  {
    ParseS3UriRoundTrip(bucket, key);
  }

  // ---------------------------------------------------------------------
  // Rendering the source details of the citations

  /**
   * Where the source details of a citation come from: `uriOf` is the lookup
   * `metadata['location']['s3Location']['uri']` (`None` when one of the keys
   * is missing), `hasScore` says whether `metadata['score']` exists, and
   * `presign` is the signing service as in `ResolveSource`.
   */
  datatype SourceLookup<-M> = SourceLookup(
    uriOf: M -> Option<string>,
    hasScore: M -> bool,
    presign: (string, string) -> Option<string>)

  /** The exception that stops the rendering loop, raised at citation `index`. */
  datatype RenderError =
    | UriMissing(index: nat)      // `metadata['location']['s3Location']['uri']` raises `KeyError`
    | SigningRaised(index: nat)   // `create_presigned_url` raises
    | ScoreMissing(index: nat)    // `metadata['score']` raises `KeyError`

  /**
   * One iteration of the rendering loop for citation `c` at position `i`:
   * look up the URI, parse it, sign it, show the source line, look up the score.
   */
  function SourceLineOf<M>(c: Citation<M>, i: nat, lookup: SourceLookup<M>): (r: Result<SourceLine, RenderError>)
    ensures r.Failure? ==> r.error.index == i
    ensures lookup.uriOf(c.metadata).None? ==> r == Failure(UriMissing(i))
    ensures var uri := lookup.uriOf(c.metadata);
      uri.Some? && ResolveSource(uri.value, lookup.presign).None? ==> r == Failure(SigningRaised(i))
    ensures var uri := lookup.uriOf(c.metadata);
      uri.Some? && ResolveSource(uri.value, lookup.presign).Some? && !lookup.hasScore(c.metadata) ==>
        r == Failure(ScoreMissing(i))
    ensures r.Success? ==>
      && lookup.uriOf(c.metadata) == Some(r.value.uri)
      && lookup.hasScore(c.metadata)
      && ResolveSource(r.value.uri, lookup.presign) == Some(r.value)
    ensures var uri := lookup.uriOf(c.metadata);
      r.Failure? <==> (uri.None? || ResolveSource(uri.value, lookup.presign).None? || !lookup.hasScore(c.metadata))
  {
    match lookup.uriOf(c.metadata)
    case None => Failure(UriMissing(i))
    case Some(uri) =>
      match ResolveSource(uri, lookup.presign)
      case None => Failure(SigningRaised(i))
      case Some(line) => if lookup.hasScore(c.metadata) then Success(line) else Failure(ScoreMissing(i))
  }

  /**
   * The source lines of all citations in order, or the exception of the first
   * citation whose rendering raises.
   */
  function SourceLines<M>(cs: seq<Citation<M>>, lookup: SourceLookup<M>): (r: Result<seq<SourceLine>, RenderError>)
    ensures r.Success? ==> |r.value| == |cs|
    decreases |cs|
  {
    if cs == [] then Success([])
    else
      var n := |cs| - 1;
      match SourceLines(cs[..n], lookup)
      case Failure(e) => Failure(e)
      case Success(lines) =>
        match SourceLineOf(cs[n], n, lookup)
        case Failure(e) => Failure(e)
        case Success(line) => Success(lines + [line])
  }

  /** Rendering succeeds exactly when every citation renders. */
  lemma {:induction false} SourceLinesSucceedIff<M>(cs: seq<Citation<M>>, lookup: SourceLookup<M>)
    ensures SourceLines(cs, lookup).Success? <==> forall k :: 0 <= k < |cs| ==> SourceLineOf(cs[k], k, lookup).Success?
    decreases |cs|
  {
    if cs != [] {
      var n := |cs| - 1;
      var init := cs[..n];
      SourceLinesSucceedIff(init, lookup);
      assert forall k :: 0 <= k < n ==> init[k] == cs[k];
    }
  }

  /** A successful rendering holds each citation's line at that citation's position. */
  lemma {:induction false} SourceLinesValues<M>(cs: seq<Citation<M>>, lookup: SourceLookup<M>)
    requires SourceLines(cs, lookup).Success?
    ensures forall k :: 0 <= k < |cs| ==>
      SourceLineOf(cs[k], k, lookup) == Success(SourceLines(cs, lookup).value[k])
    decreases |cs|
  {
    if cs != [] {
      var n := |cs| - 1;
      var init := cs[..n];
      SourceLinesValues(init, lookup);
      assert forall k :: 0 <= k < n ==> init[k] == cs[k];
    }
  }

  /** A failed rendering carries the exception of the first citation that raises. */
  lemma {:induction false} SourceLinesFirstFailure<M>(cs: seq<Citation<M>>, lookup: SourceLookup<M>)
    requires SourceLines(cs, lookup).Failure?
    ensures var e := SourceLines(cs, lookup).error;
      && e.index < |cs|
      && SourceLineOf(cs[e.index], e.index, lookup) == Failure(e)
      && forall k :: 0 <= k < e.index ==> SourceLineOf(cs[k], k, lookup).Success?
    decreases |cs|
  {
    var n := |cs| - 1;
    var init := cs[..n];
    assert forall k :: 0 <= k < n ==> init[k] == cs[k];
    if SourceLines(init, lookup).Failure? {
      SourceLinesFirstFailure(init, lookup);
    } else {
      SourceLinesSucceedIff(init, lookup);
    }
  }

  /** Rendering fails at the first citation whose iteration raises. */
  lemma SourceLinesFailAt<M>(cs: seq<Citation<M>>, i: nat, lookup: SourceLookup<M>)
    requires i < |cs| && SourceLineOf(cs[i], i, lookup).Failure?
    requires forall k :: 0 <= k < i ==> SourceLineOf(cs[k], k, lookup).Success?
    ensures SourceLines(cs, lookup) == Failure(SourceLineOf(cs[i], i, lookup).error)
  {
    SourceLinesSucceedIff(cs, lookup);
    var r := SourceLines(cs, lookup);
    SourceLinesFirstFailure(cs, lookup);
    assert r.Failure?;
    assert !(r.error.index < i);
    assert !(i < r.error.index);
  }

  /**
   * After the citations before `i` rendered into `lines`, citation `i` either
   * adds its line or ends the rendering with its exception.
   */
  lemma SourceLinesStep<M>(cs: seq<Citation<M>>, i: nat, lines: seq<SourceLine>, lookup: SourceLookup<M>)
    requires i < |cs| && SourceLines(cs[..i], lookup) == Success(lines)
    ensures var step := SourceLineOf(cs[i], i, lookup);
      step.Success? ==> SourceLines(cs[..i + 1], lookup) == Success(lines + [step.value])
    ensures var step := SourceLineOf(cs[i], i, lookup);
      step.Failure? ==> SourceLines(cs, lookup) == Failure(step.error)
  {
    assert cs[..i + 1][..i] == cs[..i];
    if SourceLineOf(cs[i], i, lookup).Failure? {
      SourceLinesSucceedIff(cs[..i], lookup);
      SourceLinesFailAt(cs, i, lookup);
    }
  }

  /** The `for citation in citations` loop of the source-details expander. */
  method ShowSources<M>(cs: seq<Citation<M>>, lookup: SourceLookup<M>) returns (r: Result<seq<SourceLine>, RenderError>)
    ensures r == SourceLines(cs, lookup)
  {
    var lines: seq<SourceLine> := [];
    var i := 0;
    while i < |cs|
      invariant 0 <= i <= |cs|
      invariant SourceLines(cs[..i], lookup) == Success(lines)
    {
      SourceLinesStep(cs, i, lines, lookup);
      var metadata := cs[i].metadata;
      var uri := lookup.uriOf(metadata);
      if uri.None? {
        return Failure(UriMissing(i));
      }
      var loc := ParseS3Uri(uri.value);
      var url := lookup.presign(loc.bucket, loc.key);
      if url.None? {
        return Failure(SigningRaised(i));
      }
      var line := if url.value != "" then Linked(uri.value, url.value) else PlainText(uri.value);
      if !lookup.hasScore(metadata) {
        return Failure(ScoreMissing(i));
      }
      lines := lines + [line];
      i := i + 1;
    }
    assert cs[..i] == cs;
    return Success(lines);
  }
}
