/**
 * One run of the chat page: the knowledge-base selection, the creation of
 * the log, and the turn that a submitted prompt triggers, in streaming or
 * in blocking mode.  The chain itself (retrieval and model call) is remote:
 * its output is an input here.
 */
module ChatApp {
  import opened Wrappers
  import opened Citations
  import opened StreamFold
  import opened Session
  import StreamlitUi

  /** The knowledge-base labels in the order the radio buttons list them. */
  const KbLabels: seq<string> := ["Metadata", "StarBurst Data", "Usage"]

  /** The fixed label-to-identifier table `KB_IDS`. */
  const KbIds: map<string, string> :=
    map["Metadata" := "VKMO0RRXJY", "StarBurst Data" := "QM100Z4RFN", "Usage" := "KRND7WLJHM"]

  /**
   * `selected_kb_id`: the radio buttons offer exactly the table's labels, so
   * the `choice`-th button names a label that the table maps.
   */
  function SelectedKbId(choice: nat): (id: string)
    requires choice < |KbLabels|
    ensures KbLabels[choice] in KbIds && id == KbIds[KbLabels[choice]]
    ensures id in KbIds.Values
  {
    KbIds[KbLabels[choice]]
  }

  /** The buttons list every label of the table once, and different buttons select different knowledge bases. */
  lemma KbSelectionIsOneToOne(i: nat, j: nat)
    requires i < |KbLabels| && j < |KbLabels|
    ensures (set l | l in KbLabels) == KbIds.Keys
    ensures i != j ==> KbLabels[i] != KbLabels[j] && SelectedKbId(i) != SelectedKbId(j)
  {
    assert KbLabels[0] == "Metadata" && KbLabels[1] == "StarBurst Data" && KbLabels[2] == "Usage";
    assert "Metadata" in KbIds && "StarBurst Data" in KbIds && "Usage" in KbIds;
  }

  /**
   * What the chain call returned for the prompt in the chosen mode: a stream
   * of chunks or one complete response; `None` when the call raised (a
   * service error, before or while the stream was drained).
   */
  datatype ChainOutput<M> = Streamed(stream: Option<seq<Chunk<M>>>) | Invoked(response: Option<Answer<M>>)

  /** The exception that ends a turn before the assistant entry is appended. */
  datatype TurnError =
    | ChainRaised                            // the chain call raised
    | StreamFailed(streamError: StreamError) // the streaming loop or the read of `full_context` raised
    | RenderFailed(renderError: RenderError) // the source-details loop raised

  /** What a completed turn shows: the answer text, its citations and their source lines. */
  datatype Reply<M> = Reply(text: string, citations: seq<Citation<M>>, sources: seq<SourceLine>)

  /** The answer the chain output amounts to, or the exception that drained it. */
  function AnswerOf<M>(output: ChainOutput<M>): Result<Answer<M>, TurnError>
  {
    match output
    case Streamed(None) => Failure(ChainRaised)
    case Invoked(None) => Failure(ChainRaised)
    case Streamed(Some(chunks)) =>
      (match StreamAnswer(chunks)
       case Failure(e) => Failure(StreamFailed(e))
       case Success(answer) => Success(answer))
    case Invoked(Some(answer)) => Success(answer)
  }

  /** The outcome of a turn: the answer, its citations and their source lines, or the exception raised first. */
  function TurnOutcome<M>(output: ChainOutput<M>, lookup: SourceLookup<M>): Result<Reply<M>, TurnError>
  {
    match AnswerOf(output)
    case Failure(e) => Failure(e)
    case Success(answer) =>
      var citations := ExtractCitations(answer.context);
      match SourceLines(citations, lookup)
      case Failure(e) => Failure(RenderFailed(e))
      case Success(lines) => Success(Reply(answer.text, citations, lines))
  }

  /** The text the assistant entry is appended with, `None` when the turn raised first. */
  function ReplyText<M>(r: Result<Reply<M>, TurnError>): Option<string>
  {
    if r.Success? then Some(r.value.text) else None
  }

  /**
   * A turn shows a reply exactly when the chain answered, the stream (if any)
   * was well formed, and every citation rendered; the reply then carries the
   * answer text, one citation per context document and one source line per citation.
   */
  lemma TurnOutcomeIff<M>(output: ChainOutput<M>, lookup: SourceLookup<M>)
    ensures TurnOutcome(output, lookup).Success? <==>
      && AnswerOf(output).Success?
      && var cs := ExtractCitations(AnswerOf(output).value.context);
         forall k :: 0 <= k < |cs| ==> SourceLineOf(cs[k], k, lookup).Success?
    ensures TurnOutcome(output, lookup).Success? ==>
      && TurnOutcome(output, lookup).value.text == AnswerOf(output).value.text
      && TurnOutcome(output, lookup).value.citations == ExtractCitations(AnswerOf(output).value.context)
      && |TurnOutcome(output, lookup).value.sources| == |AnswerOf(output).value.context|
  {
    if AnswerOf(output).Success? {
      SourceLinesSucceedIff(ExtractCitations(AnswerOf(output).value.context), lookup);
    }
  }

  /**
   * The streaming branch of a turn: append the prompt, drain the stream,
   * extract the citations of the last context, render their sources, append
   * the answer text.  Whatever raises leaves only the user entry.
   */
  method StreamingTurn<M>(state: SessionState, prompt: string, stream: Option<seq<Chunk<M>>>, lookup: SourceLookup<M>)
    returns (r: Result<Reply<M>, TurnError>)
    requires state.messages.Some?
    modifies state
    ensures r == TurnOutcome(Streamed(stream), lookup)
    ensures state.messages == Some(AfterTurn(old(state.messages).value, prompt, ReplyText(r)))
  {
    ghost var log := state.messages.value;
    state.Append(Message(UserRole, prompt));
    assert AfterTurn(log, prompt, None) == log + [Message(UserRole, prompt)];
    if stream.None? {
      return Failure(ChainRaised);
    }
    var answer := FoldStream(stream.value);
    if answer.Failure? {
      return Failure(StreamFailed(answer.error));
    }
    var citations := ExtractCitations(answer.value.context);
    var sources := ShowSources(citations, lookup);
    if sources.Failure? {
      return Failure(RenderFailed(sources.error));
    }
    state.Append(Message(AssistantRole, answer.value.text));
    return Success(Reply(answer.value.text, citations, sources.value));
  }

  /**
   * The blocking branch of a turn: append the prompt, take the complete
   * response, extract its citations, render their sources, append its
   * `response` text.  Whatever raises leaves only the user entry.
   */
  method BlockingTurn<M>(state: SessionState, prompt: string, response: Option<Answer<M>>, lookup: SourceLookup<M>)
    returns (r: Result<Reply<M>, TurnError>)
    requires state.messages.Some?
    modifies state
    ensures r == TurnOutcome(Invoked(response), lookup)
    ensures state.messages == Some(AfterTurn(old(state.messages).value, prompt, ReplyText(r)))
  {
    ghost var log := state.messages.value;
    state.Append(Message(UserRole, prompt));
    assert AfterTurn(log, prompt, None) == log + [Message(UserRole, prompt)];
    if response.None? {
      return Failure(ChainRaised);
    }
    var citations := ExtractCitations(response.value.context);
    var sources := ShowSources(citations, lookup);
    if sources.Failure? {
      return Failure(RenderFailed(sources.error));
    }
    state.Append(Message(AssistantRole, response.value.text));
    return Success(Reply(response.value.text, citations, sources.value));
  }

  /**
   * The test `if prompt := st.chat_input():`: the input widget answers `None`
   * when nothing was submitted, and an empty answer is falsy as well.
   */
  predicate Submitted(prompt: Option<string>) {
    prompt.Some? && prompt.value != ""
  }

  /**
   * One run of the page script: create the log when absent, then, if a
   * prompt was submitted, run the turn in the mode the chain output belongs
   * to.  The result is what the turn showed or raised, `None` without a prompt.
   */
  method RunPage<M>(state: SessionState, prompt: Option<string>, output: ChainOutput<M>, lookup: SourceLookup<M>)
    returns (shown: Option<Result<Reply<M>, TurnError>>)
    modifies state
    ensures var log := SetUp(old(state.messages)).value;
      state.messages == Some(if !Submitted(prompt) then log else AfterTurn(log, prompt.value, ReplyText(TurnOutcome(output, lookup))))
    ensures !Submitted(prompt) ==> shown.None?
    ensures Submitted(prompt) ==> shown == Some(TurnOutcome(output, lookup))
  {
    StreamlitUi.SetupSessionState(state);
    if !Submitted(prompt) {
      return None;
    }
    match output {
      case Streamed(stream) =>
        var r := StreamingTurn(state, prompt.value, stream, lookup);
        shown := Some(r);
      case Invoked(response) =>
        var r := BlockingTurn(state, prompt.value, response, lookup);
        shown := Some(r);
    }
  }

  /**
   * Given the same answer text and context, the streaming and the blocking
   * branch reach the same outcome, so they leave the same log and show the
   * same citations and source lines.
   */
  lemma StreamingAgreesWithBlocking<M>(before: seq<string>, docs: seq<Doc<M>>, after: seq<string>, lookup: SourceLookup<M>)
    ensures var chunks := ResponseChunks<M>(before) + [Chunk(None, Some(docs))] + ResponseChunks<M>(after);
      TurnOutcome(Streamed(Some(chunks)), lookup) == TurnOutcome(Invoked(Some(Answer(Concat(before) + Concat(after), docs))), lookup)
  {
    StreamMatchesBlocking(before, docs, after);
  }
}
