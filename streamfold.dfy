/**
 * The streaming answer loop: the chain emits chunks, each a dictionary that
 * may carry a `response` piece of the answer text or the `context` documents
 * the answer was based on.  The loop appends every `response` piece to the
 * answer text and lets every other chunk overwrite the context; a chunk with
 * neither key raises a `KeyError`, and a stream that never delivered a context
 * leaves the context variable unbound when the citations are extracted.
 */
module StreamFold {
  import opened Wrappers
  import opened Citations

  /** One streamed chunk; `None` means the dictionary has no such key. */
  datatype Chunk<M> = Chunk(response: Option<string>, context: Option<seq<Doc<M>>>)

  /** What a completed stream amounts to: the answer text and the documents behind it. */
  datatype Answer<M> = Answer(text: string, context: seq<Doc<M>>)

  /** The ways the loop and the citation step after it fail. */
  datatype StreamError =
    | MissingContextKey(index: nat)   // chunk `index` has neither key: `chunk['context']` raises
    | ContextUnbound                  // no context chunk arrived: `full_context` is never assigned

  /** A chunk that contributes answer text. */
  predicate IsResponse<M>(c: Chunk<M>) {
    c.response.Some?
  }

  /** A chunk that overwrites the context. */
  predicate IsContext<M>(c: Chunk<M>) {
    c.response.None? && c.context.Some?
  }

  /** A chunk on which the loop raises. */
  predicate IsMalformed<M>(c: Chunk<M>) {
    c.response.None? && c.context.None?
  }

  /** The text a single chunk adds to the answer. */
  function TextOf<M>(c: Chunk<M>): string {
    if c.response.Some? then c.response.value else ""
  }

  /** The answer pieces of the response chunks, concatenated in arrival order. */
  function ResponseText<M>(chunks: seq<Chunk<M>>): string
  {
    if chunks == [] then ""
    else ResponseText(chunks[..|chunks| - 1]) + TextOf(chunks[|chunks| - 1])
  }

  /** The documents of the last context chunk, if there is one. */
  function LastContext<M>(chunks: seq<Chunk<M>>): Option<seq<Doc<M>>>
  {
    if chunks == [] then None
    else if IsContext(chunks[|chunks| - 1]) then Some(chunks[|chunks| - 1].context.value)
    else LastContext(chunks[..|chunks| - 1])
  }

  /** The position of the first chunk on which the loop raises. */
  function FirstMalformed<M>(chunks: seq<Chunk<M>>): (r: Option<nat>)
    ensures r.Some? ==> r.value < |chunks| && IsMalformed(chunks[r.value])
    ensures r.Some? ==> forall k :: 0 <= k < r.value ==> !IsMalformed(chunks[k])
    ensures r.None? ==> forall k :: 0 <= k < |chunks| ==> !IsMalformed(chunks[k])
  {
    if chunks == [] then None
    else if IsMalformed(chunks[0]) then Some(0)
    else match FirstMalformed(chunks[1..])
      case None => None
      case Some(j) => Some(j + 1)
  }

  /** The outcome of draining the whole stream and reading `full_response` and `full_context`. */
  function StreamAnswer<M>(chunks: seq<Chunk<M>>): Result<Answer<M>, StreamError>
  {
    match FirstMalformed(chunks)
    case Some(i) => Failure(MissingContextKey(i))
    case None =>
      match LastContext(chunks)
      case None => Failure(ContextUnbound)
      case Some(docs) => Success(Answer(ResponseText(chunks), docs))
  }

  /** The `for chunk in ...` loop followed by the read of `full_context`. */
  method FoldStream<M>(chunks: seq<Chunk<M>>) returns (r: Result<Answer<M>, StreamError>)
    ensures r == StreamAnswer(chunks)
  {
    var fullResponse := "";
    var fullContext: Option<seq<Doc<M>>> := None;
    var i := 0;
    while i < |chunks|
      invariant 0 <= i <= |chunks|
      invariant forall k :: 0 <= k < i ==> !IsMalformed(chunks[k])
      invariant fullResponse == ResponseText(chunks[..i])
      invariant fullContext == LastContext(chunks[..i])
    {
      var chunk := chunks[i];
      assert chunks[..i + 1][..i] == chunks[..i];
      if chunk.response.Some? {
        fullResponse := fullResponse + chunk.response.value;
      } else if chunk.context.Some? {
        fullContext := Some(chunk.context.value);
      } else {
        FirstMalformedAt(chunks, i);
        return Failure(MissingContextKey(i));
      }
      i := i + 1;
    }
    assert chunks[..i] == chunks;
    if fullContext.None? {
      return Failure(ContextUnbound);
    }
    return Success(Answer(fullResponse, fullContext.value));
  }

  /** A malformed chunk with none before it is the first malformed one. */
  lemma FirstMalformedAt<M>(chunks: seq<Chunk<M>>, i: nat)
    requires i < |chunks| && IsMalformed(chunks[i])
    requires forall k :: 0 <= k < i ==> !IsMalformed(chunks[k])
    ensures FirstMalformed(chunks) == Some(i)
  {
    var r := FirstMalformed(chunks);
    assert r.Some?;
    assert !(r.value < i);
    assert !(i < r.value);
  }

  // ---------------------------------------------------------------------
  // Properties of the answer text

  /** The answer text of two stretches of the stream is the text of the first followed by the second. */
  lemma {:induction false} ResponseTextAppend<M>(a: seq<Chunk<M>>, b: seq<Chunk<M>>)
    ensures ResponseText(a + b) == ResponseText(a) + ResponseText(b)
    decreases |b|
  {
    if b == [] {
      assert a + b == a;
    } else {
      var b' := b[..|b| - 1];
      assert (a + b)[..|a + b| - 1] == a + b';
      assert (a + b)[|a + b| - 1] == b[|b| - 1];
      ResponseTextAppend(a, b');
    }
  }

  /** Context chunks add nothing to the answer text. */
  lemma {:induction false} ResponseTextSkipsContext<M>(chunks: seq<Chunk<M>>)
    requires forall k :: 0 <= k < |chunks| ==> !IsResponse(chunks[k])
    ensures ResponseText(chunks) == ""
    decreases |chunks|
  {
    if chunks != [] {
      ResponseTextSkipsContext(chunks[..|chunks| - 1]);
    }
  }

  // ---------------------------------------------------------------------
  // Properties of the context

  /** The last context chunk wins, whatever came before it. */
  lemma {:induction false} LastContextAt<M>(chunks: seq<Chunk<M>>, j: nat)
    requires j < |chunks| && IsContext(chunks[j])
    requires forall k :: j < k < |chunks| ==> !IsContext(chunks[k])
    ensures LastContext(chunks) == Some(chunks[j].context.value)
    decreases |chunks|
  {
    if j < |chunks| - 1 {
      LastContextAt(chunks[..|chunks| - 1], j);
    }
  }

  /** The context is missing exactly when no chunk is a context chunk. */
  lemma {:induction false} LastContextNone<M>(chunks: seq<Chunk<M>>)
    ensures LastContext(chunks).None? <==> forall k :: 0 <= k < |chunks| ==> !IsContext(chunks[k])
    decreases |chunks|
  {
    if chunks != [] {
      var init := chunks[..|chunks| - 1];
      LastContextNone(init);
      assert forall k :: 0 <= k < |init| ==> init[k] == chunks[k];
    }
  }

  /**
   * A stream whose chunks all carry a key fails for want of context exactly
   * when every chunk is a response chunk.
   */
  lemma ContextUnboundIff<M>(chunks: seq<Chunk<M>>)
    requires FirstMalformed(chunks).None?
    ensures StreamAnswer(chunks) == Failure(ContextUnbound) <==>
      forall k :: 0 <= k < |chunks| ==> IsResponse(chunks[k])
  {
    LastContextNone(chunks);
  }

  /** A successful stream's context is that of a context chunk after which no other context chunk came. */
  lemma {:induction false} SuccessContextIsLast<M>(chunks: seq<Chunk<M>>)
    requires StreamAnswer(chunks).Success?
    ensures exists j :: 0 <= j < |chunks| && IsContext(chunks[j])
                        && chunks[j].context.value == StreamAnswer(chunks).value.context
                        && (forall k :: j < k < |chunks| ==> !IsContext(chunks[k]))
    decreases |chunks|
  {
    var j := |chunks| - 1;
    var init := chunks[..j];
    if !IsContext(chunks[j]) {
      assert LastContext(chunks) == LastContext(init);
      assert FirstMalformed(init).None? by {
        assert forall k :: 0 <= k < |init| ==> init[k] == chunks[k];
      }
      SuccessContextIsLast(init);
      var i :| 0 <= i < |init| && IsContext(init[i]) &&
        init[i].context.value == StreamAnswer(init).value.context &&
        (forall k :: i < k < |init| ==> !IsContext(init[k]));
      assert chunks[i] == init[i];
      assert forall k :: i < k < |chunks| ==> !IsContext(chunks[k]) by {
        forall k | i < k < |chunks| ensures !IsContext(chunks[k]) {
          if k < j { assert chunks[k] == init[k]; }
        }
      }
    }
  }

  // ---------------------------------------------------------------------
  // Streaming and blocking agree

  /** A response chunk for each piece of text. */
  function ResponseChunks<M>(pieces: seq<string>): (cs: seq<Chunk<M>>)
    ensures |cs| == |pieces|
    ensures forall k :: 0 <= k < |cs| ==> IsResponse(cs[k]) && cs[k].response.value == pieces[k]
  {
    if pieces == [] then [] else [Chunk(Some(pieces[0]), None)] + ResponseChunks(pieces[1..])
  }

  /** The pieces of text, concatenated. */
  function Concat(pieces: seq<string>): string
  {
    if pieces == [] then "" else pieces[0] + Concat(pieces[1..])
  }

  /** The response chunks of some pieces carry exactly their concatenation. */
  lemma {:induction false} ResponseChunksText<M>(pieces: seq<string>)
    ensures ResponseText(ResponseChunks<M>(pieces)) == Concat(pieces)
    decreases |pieces|
  {
    if pieces != [] {
      var head: seq<Chunk<M>> := [Chunk(Some(pieces[0]), None)];
      ResponseChunksText<M>(pieces[1..]);
      ResponseTextAppend(head, ResponseChunks<M>(pieces[1..]));
      assert ResponseText(head) == pieces[0] by {
        assert head[..0] == [];
      }
    }
  }

  /** No chunk of `x + [c] + y` is malformed when none of `x`, `c`, `y` is. */
  lemma WellFormedAround<M>(x: seq<Chunk<M>>, c: Chunk<M>, y: seq<Chunk<M>>)
    requires forall k :: 0 <= k < |x| ==> IsResponse(x[k])
    requires forall k :: 0 <= k < |y| ==> IsResponse(y[k])
    requires !IsMalformed(c)
    ensures FirstMalformed(x + [c] + y).None?
  {
    var chunks := x + [c] + y;
    forall k | 0 <= k < |chunks| ensures !IsMalformed(chunks[k]) {
      if k < |x| { assert chunks[k] == x[k]; }
      else if k > |x| { assert chunks[k] == y[k - |x| - 1]; }
    }
  }

  /** A context chunk followed only by response chunks is the one that counts. */
  lemma ContextBeforeResponses<M>(x: seq<Chunk<M>>, c: Chunk<M>, y: seq<Chunk<M>>)
    requires forall k :: 0 <= k < |y| ==> IsResponse(y[k])
    requires IsContext(c)
    ensures LastContext(x + [c] + y) == Some(c.context.value)
  {
    var chunks := x + [c] + y;
    forall k | |x| < k < |chunks| ensures !IsContext(chunks[k]) {
      assert chunks[k] == y[k - |x| - 1];
    }
    LastContextAt(chunks, |x|);
  }

  /** A chunk without a response adds nothing to the text around it. */
  lemma TextAround<M>(x: seq<Chunk<M>>, c: Chunk<M>, y: seq<Chunk<M>>)
    requires !IsResponse(c)
    ensures ResponseText(x + [c] + y) == ResponseText(x) + ResponseText(y)
  {
    var one := [c];
    var xc := x + one;
    ResponseTextAppend(xc, y);
    ResponseTextAppend(x, one);
    assert ResponseText(one) == "" by {
      assert one[..0] == [];
      assert ResponseText(one) == ResponseText(one[..0]) + TextOf(c);
    }
  }

  /** One context chunk among response chunks: the text of both sides, and that context. */
  lemma ContextAmongResponses<M>(x: seq<Chunk<M>>, docs: seq<Doc<M>>, y: seq<Chunk<M>>)
    requires forall k :: 0 <= k < |x| ==> IsResponse(x[k])
    requires forall k :: 0 <= k < |y| ==> IsResponse(y[k])
    ensures StreamAnswer(x + [Chunk(None, Some(docs))] + y)
      == Success(Answer(ResponseText(x) + ResponseText(y), docs))
  {
    var c: Chunk<M> := Chunk(None, Some(docs));
    var chunks := x + [c] + y;
    WellFormedAround(x, c, y);
    ContextBeforeResponses(x, c, y);
    TextAround(x, c, y);
    assert StreamAnswer(chunks) == Success(Answer(ResponseText(chunks), docs));
  }

  /**
   * A stream that delivers the answer text in any number of pieces and the
   * context once, at any point, ends with the same answer text and context as
   * the blocking call that returns them whole.
   */
  lemma StreamMatchesBlocking<M>(before: seq<string>, docs: seq<Doc<M>>, after: seq<string>)
    ensures StreamAnswer(ResponseChunks<M>(before) + [Chunk(None, Some(docs))] + ResponseChunks<M>(after))
      == Success(Answer(Concat(before) + Concat(after), docs))
  {
    ContextAmongResponses(ResponseChunks<M>(before), docs, ResponseChunks<M>(after));
    ResponseChunksText<M>(before);
    ResponseChunksText<M>(after);
  }
}
