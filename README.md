# GenAI Data Assistant: chat-turn logic in Dafny

This project models the local logic of the retrieval-augmented chat page of
the GenAI Data Assistant. The page comes in two forms, the single-file script
`app/complete_code.py` and the modular `app/main.py` with `app/streamlit_ui.py`.
Retrieval, the chat model, presigned-URL signing and rendering are remote
services or UI. The model treats their results as inputs. What remains is
modelled and proved:

- **S3 URI parsing** (`S3Uri`). `parse_s3_uri` deletes every `s3://`, splits on
  `/`, takes the first segment as the bucket and re-joins the rest as the key.
  `Split` and `Join` follow Python's `str.split` and `str.join`, and both round
  trips are proved.
- **Citations** (`Citations`). `extract_citations` builds one citation per
  retrieved document, in order. The source-details loop then renders each
  citation in turn: it looks up the URI in the metadata, parses it with
  `parse_s3_uri`, signs it, shows a link (or plain text when signing gave
  `""`), and looks up the score. The method `ShowSources` is proved against
  `SourceLines`. Rendering stops at the first citation whose lookup or signing
  raises, and the model keeps that citation's position and exception.
- **Stream folding** (`StreamFold`). The `for chunk in ...` loop appends every
  `response` piece to the answer text, and any other chunk overwrites the
  context. The method `FoldStream` is proved against `StreamAnswer`. Two error
  paths are explicit:
  - a chunk with neither key raises `KeyError`, modelled as `MissingContextKey`;
  - a stream without a context chunk leaves `full_context` unbound, modelled
    as `ContextUnbound`.
- **Session log** (`Session`, `StreamlitUi`, `CompleteCode`, `ChatApp`). The
  `messages` entry of the session state and the LangChain history are classes.
  The set-up and turn methods are proved against the pure functions `SetUp`
  and `AfterTurn`, and the clear methods against the greeting log
  `GreetingLog`. Lemmas about `Replay` extend `AfterTurn` to a series of
  turns. Each turn appends the user entry. It appends the assistant
  entry only when nothing raised before it: the chain call, the stream, and
  every step of the source-details loop must all succeed. Clearing restarts the log from one greeting and empties
  the history. The two programs greet under different roles after a clear, and
  the model keeps both. `complete_code.py` uses `3DP Data Assistant` and
  `streamlit_ui.py` uses `assistant`.

A reader of `parse_s3_uri` might expect it to remove only a leading `s3://`.
The code deletes every occurrence. `ParseS3Uri` follows the code, and the
difference is recorded under Findings.

Source paths below are relative to the repository root.

## Model

| member | source | states |
|---|---|---|
| `S3Uri.ParseS3Uri` | GenAI-DataAssistant-main/GenAI-DataAssistant-main/app/complete_code.py:100-105 | the parser as written; the bucket it returns never contains `/` |
| `S3Uri.RemoveAll` | GenAI-DataAssistant-main/GenAI-DataAssistant-main/app/complete_code.py:102 | `uri.replace("s3://", "")`: one left-to-right scan that deletes each occurrence it meets; the result is never longer than the input, and `RemoveAllFirst` with `RemoveAllWithoutMatch` pin down its output on every string |
| `S3Uri.RemoveAllWithoutMatch` | GenAI-DataAssistant-main/GenAI-DataAssistant-main/app/complete_code.py:102 | deleting `s3://` leaves a string in which it does not occur unchanged |
| `S3Uri.RemoveAllFirst` | GenAI-DataAssistant-main/GenAI-DataAssistant-main/app/complete_code.py:102 | the first `s3://` is deleted wherever it sits: the text before it is kept unchanged and the scan resumes right after it |
| `S3Uri.RemoveAllLeavesScheme` | GenAI-DataAssistant-main/GenAI-DataAssistant-main/app/complete_code.py:102 | one deleting pass can create a new `s3://`: `s3s3://://` becomes `s3://`, so the output may still contain the scheme |
| `S3Uri.Split` | GenAI-DataAssistant-main/GenAI-DataAssistant-main/app/complete_code.py:102 | `split("/")` yields at least one part and no part contains the separator |
| `S3Uri.JoinSplit` | GenAI-DataAssistant-main/GenAI-DataAssistant-main/app/complete_code.py:102-104 | joining the parts of a split with the separator gives back the string |
| `S3Uri.SplitJoin` | GenAI-DataAssistant-main/GenAI-DataAssistant-main/app/complete_code.py:102-104 | splitting joined separator-free parts gives back the parts |
| `S3Uri.BucketAndKey` | GenAI-DataAssistant-main/GenAI-DataAssistant-main/app/complete_code.py:103-104 | the bucket (first segment) never contains `/` |
| `S3Uri.Join` | GenAI-DataAssistant-main/GenAI-DataAssistant-main/app/complete_code.py:104 | `"/".join(parts)`: no parts give `""`; the result starts with the first part, and with two or more parts the separator follows it (`JoinSplit` and `SplitJoin` make it the inverse of `Split`) |
| `S3Uri.SplitAtFirstSlash` | GenAI-DataAssistant-main/GenAI-DataAssistant-main/app/complete_code.py:102-104 | the bucket is the text before the first `/` and the key the text after it; without `/` the key is empty |
| `S3Uri.BucketAndKeyRoundTrip` | GenAI-DataAssistant-main/GenAI-DataAssistant-main/app/complete_code.py:102-104 | when the stripped string has a `/`, `bucket + "/" + key` equals it; the key is empty exactly when the stripped string is the bucket or the bucket followed by one `/` |
| `S3Uri.BucketAndKeyOfJoined` | GenAI-DataAssistant-main/GenAI-DataAssistant-main/app/complete_code.py:102-104 | any `/`-free bucket and any key are recovered from `bucket + "/" + key` |
| `S3Uri.ParseS3UriRoundTrip` | GenAI-DataAssistant-main/GenAI-DataAssistant-main/app/complete_code.py:100-105 | the parser as written returns bucket and key of `s3://bucket/key` when `bucket/key` holds no `s3://`, including across the separator |
| `S3Uri.ParseS3UriExample` | GenAI-DataAssistant-main/GenAI-DataAssistant-main/app/complete_code.py:100-105 | `s3://bucket-a/path/to/obj.pdf` gives bucket `bucket-a` and key `path/to/obj.pdf` |
| `S3Uri.KeyWithSchemeIsCorrupted` | GenAI-DataAssistant-main/GenAI-DataAssistant-main/app/complete_code.py:102 | for `s3://b/s3://k` the parser as written returns key `k`, the corrected parser key `s3://k` |
| `S3Uri.SchemeDeletedFromKey` | GenAI-DataAssistant-main/GenAI-DataAssistant-main/app/complete_code.py:102 | the deleting pass turns `s3://b/s3://k` into `b/k` |
| `S3Uri.ParseS3UriPrefix` | GenAI-DataAssistant-main/GenAI-DataAssistant-main/app/complete_code.py:100-105 | the corrected parser (leading scheme only); its bucket never contains `/` |
| `S3Uri.ParseS3UriPrefixRoundTrip` | GenAI-DataAssistant-main/GenAI-DataAssistant-main/app/complete_code.py:100-105 | the corrected parser returns exactly the bucket and key of `s3://bucket/key`, for every key |
| `S3Uri.ParseS3UriPrefixRebuild` | GenAI-DataAssistant-main/GenAI-DataAssistant-main/app/complete_code.py:100-105 | for a URI starting with `s3://` whose rest holds a `/`, `s3:// + bucket + "/" + key` rebuilds the URI |
| `Citations.ExtractCitations` | GenAI-DataAssistant-main/GenAI-DataAssistant-main/app/complete_code.py:82-83 | one citation per document, same length, each with the page content and metadata of the document at the same position |
| `Citations.CitationsKeepDocs` | GenAI-DataAssistant-main/GenAI-DataAssistant-main/app/complete_code.py:82-83 | the documents can be read back from the citations: nothing dropped, added, altered or reordered |
| `Citations.CitationsOfConcat` | GenAI-DataAssistant-main/GenAI-DataAssistant-main/app/complete_code.py:82-83 | citing a concatenation is concatenating the citations, so order is kept |
| `Citations.ResolveSource` | GenAI-DataAssistant-main/GenAI-DataAssistant-main/app/complete_code.py:194-200 | the URI is parsed as written and signed; nothing is shown when signing raised; otherwise the line keeps the URI and is a link exactly when signing returned a non-empty URL, and then links that URL |
| `Citations.ResolveSourceAsksForStoredObject` | GenAI-DataAssistant-main/GenAI-DataAssistant-main/app/complete_code.py:194-200 | for `s3://bucket/key` whose `bucket/key` holds no `s3://`, signing is asked for exactly that bucket and key |
| `Citations.SourceLineOf` | GenAI-DataAssistant-main/GenAI-DataAssistant-main/app/main.py:70-79 | one iteration of the source-details loop fails exactly when the URI lookup, the signing or the score lookup raises, with `UriMissing`, `SigningRaised` or `ScoreMissing` for the first of them and its own position; when it succeeds, its line is the link or plain-text line `ResolveSource` makes for the URI found in the metadata, and the metadata has a score |
| `Citations.SourceLines` | GenAI-DataAssistant-main/GenAI-DataAssistant-main/app/main.py:70-79 | a completed rendering has one line per citation |
| `Citations.SourceLinesSucceedIff` | GenAI-DataAssistant-main/GenAI-DataAssistant-main/app/main.py:70-79 | rendering completes exactly when every citation's iteration succeeds |
| `Citations.SourceLinesValues` | GenAI-DataAssistant-main/GenAI-DataAssistant-main/app/main.py:70-79 | a completed rendering holds each citation's line at that citation's position |
| `Citations.SourceLinesFirstFailure` | GenAI-DataAssistant-main/GenAI-DataAssistant-main/app/main.py:70-79 | a failed rendering carries the exception of the first citation that raises; every citation before it rendered |
| `Citations.ShowSources` | GenAI-DataAssistant-main/GenAI-DataAssistant-main/app/main.py:70-79 | the loop yields exactly `SourceLines`: all lines in order, or the first exception |
| `StreamFold.FirstMalformed` | GenAI-DataAssistant-main/GenAI-DataAssistant-main/app/main.py:62-66 | the index of the first chunk with neither `response` nor `context`, on which `chunk['context']` raises; `None` exactly when every chunk has a key |
| `StreamFold.FoldStream` | GenAI-DataAssistant-main/GenAI-DataAssistant-main/app/main.py:57-68 | the loop yields the text of all response pieces in order and the last context; it fails at the first keyless chunk, or with an unbound context when no context chunk came |
| `StreamFold.ResponseTextAppend` | GenAI-DataAssistant-main/GenAI-DataAssistant-main/app/main.py:62-63 | the answer text of a stream is the in-order concatenation of the texts of its parts |
| `StreamFold.ResponseTextSkipsContext` | GenAI-DataAssistant-main/GenAI-DataAssistant-main/app/main.py:62-66 | chunks without `response` contribute nothing to the answer text |
| `StreamFold.LastContextAt` | GenAI-DataAssistant-main/GenAI-DataAssistant-main/app/main.py:65-66 | the context is that of the last context chunk, whatever came before |
| `StreamFold.LastContextNone` | GenAI-DataAssistant-main/GenAI-DataAssistant-main/app/main.py:65-68 | the context is missing exactly when no chunk is a context chunk |
| `StreamFold.ContextUnboundIff` | GenAI-DataAssistant-main/GenAI-DataAssistant-main/app/main.py:57-68 | a stream of keyed chunks fails with an unbound context exactly when every chunk carries a response |
| `StreamFold.SuccessContextIsLast` | GenAI-DataAssistant-main/GenAI-DataAssistant-main/app/main.py:65-66 | a successful stream's context is that of a context chunk with no context chunk after it |
| `StreamFold.StreamMatchesBlocking` | GenAI-DataAssistant-main/GenAI-DataAssistant-main/app/main.py:57-68 | response pieces plus one context chunk anywhere give the concatenated text and that context |
| `Session.SetUpKeepsExisting` | GenAI-DataAssistant-main/GenAI-DataAssistant-main/app/streamlit_ui.py:25 | set-up leaves an existing log unchanged, whatever it holds |
| `Session.SetUpIdempotent` | GenAI-DataAssistant-main/GenAI-DataAssistant-main/app/streamlit_ui.py:24-26 | setting up twice is the same as setting up once |
| `Session.AfterTurn` | GenAI-DataAssistant-main/GenAI-DataAssistant-main/app/main.py:47-100 | a turn keeps all earlier entries, adds the user entry with the prompt, then (unless it raised) the assistant entry with the answer |
| `Session.ReplayAppends` | GenAI-DataAssistant-main/GenAI-DataAssistant-main/app/main.py:47-100 | over any series of turns the log is the old log followed by each turn's entries in order; one or two entries per turn |
| `Session.ReplayConcat` | GenAI-DataAssistant-main/GenAI-DataAssistant-main/app/main.py:47-100 | replaying turns in two batches equals replaying them at once |
| `Session.SessionState.Append` | GenAI-DataAssistant-main/GenAI-DataAssistant-main/app/main.py:48 | appending adds the entry at the end and leaves the rest |
| `Session.SessionState.Assign` | GenAI-DataAssistant-main/GenAI-DataAssistant-main/app/streamlit_ui.py:22 | assigning `st.session_state.messages` makes the log exactly the assigned list, whether or not one existed (also streamlit_ui.py:26 and complete_code.py:117, 159) |
| `Session.ChatHistory.Clear` | GenAI-DataAssistant-main/GenAI-DataAssistant-main/app/streamlit_ui.py:21 | the history is empty afterwards |
| `StreamlitUi.SetupSessionState` | GenAI-DataAssistant-main/GenAI-DataAssistant-main/app/streamlit_ui.py:24-26 | an absent log becomes the one greeting `("assistant", "How may I assist you today?")`; an existing log is unchanged (the script's lines 158-159 do the same) |
| `StreamlitUi.ClearChatHistory` | GenAI-DataAssistant-main/GenAI-DataAssistant-main/app/streamlit_ui.py:20-22 | the history is emptied and the log is exactly the `assistant` greeting, whatever it held |
| `StreamlitUi.SetUpAfterClear` | GenAI-DataAssistant-main/GenAI-DataAssistant-main/app/streamlit_ui.py:20-26 | after a clear, the next set-up changes nothing |
| `CompleteCode.ClearChatHistory` | GenAI-DataAssistant-main/GenAI-DataAssistant-main/app/complete_code.py:115-117 | the history is emptied and the log is exactly the greeting under the role `3DP Data Assistant` |
| `CompleteCode.ScriptGreetingKeptBySetUp` | GenAI-DataAssistant-main/GenAI-DataAssistant-main/app/complete_code.py:115-159 | the script's cleared log survives the next set-up and differs from the `assistant` greeting |
| `ChatApp.SelectedKbId` | GenAI-DataAssistant-main/GenAI-DataAssistant-main/app/main.py:21-22 | the selected button names a key of `KB_IDS` and the identifier is what the table maps it to |
| `ChatApp.KbSelectionIsOneToOne` | GenAI-DataAssistant-main/GenAI-DataAssistant-main/app/config.py:21-25 | the buttons list exactly the table's keys, and different buttons select different identifiers |
| `ChatApp.TurnOutcomeIff` | GenAI-DataAssistant-main/GenAI-DataAssistant-main/app/main.py:54-100 | a turn shows a reply exactly when the chain answered, the stream was well formed and every citation rendered; the reply has the answer text, the citations `extract_citations` builds from the context (one per document, in order) and one source line per document |
| `ChatApp.StreamingTurn` | GenAI-DataAssistant-main/GenAI-DataAssistant-main/app/main.py:47-80 | the result is the turn's outcome: raised by the chain call, the stream or the source-details loop, or the reply; the user entry is appended, then the assistant entry with `full_response` only when nothing raised |
| `ChatApp.BlockingTurn` | GenAI-DataAssistant-main/GenAI-DataAssistant-main/app/main.py:81-100 | the result is the turn's outcome: raised by the chain call or the source-details loop, or the reply built from `response`; the user entry is appended, then the assistant entry with `response['response']` only when nothing raised |
| `ChatApp.RunPage` | GenAI-DataAssistant-main/GenAI-DataAssistant-main/app/main.py:19-100 | a page run sets the log up, then applies the turn of a submitted prompt in the chosen mode; without a prompt, or with an empty one (which `if prompt := ...` treats as false), nothing is shown and the log is only set up; otherwise the turn's outcome, failure included, is shown |
| `ChatApp.StreamingAgreesWithBlocking` | GenAI-DataAssistant-main/GenAI-DataAssistant-main/app/main.py:54-100 | with the same answer text and context, both modes reach the same outcome, so the same log, the same citations and the same source lines |

## Findings

| source | as written | input that shows it | evidently intended | confidence | as-written member | corrected member |
|---|---|---|---|---|---|---|
| GenAI-DataAssistant-main/GenAI-DataAssistant-main/app/complete_code.py:102 | `uri.replace("s3://", "")` deletes the scheme wherever it occurs in the URI, not only at its start | `s3://b/s3://k` parses to bucket `b` and key `k`, so the link is signed for the wrong object | remove only the leading `s3://`, giving key `s3://k` | medium, not executed | `S3Uri.KeyWithSchemeIsCorrupted` | `S3Uri.ParseS3UriPrefixRoundTrip` |

## Left out

- The Bedrock and boto3 clients, the knowledge-base retriever and the LangChain chain are remote services and foreign libraries. Their output is an input to the model (`ChatApp.ChainOutput`).
- `create_presigned_url` is the `presign` field of `Citations.SourceLookup`. It answers `None` when it raises and a URL otherwise. The empty URL is the intended answer for missing credentials. In `complete_code.py` that answer cannot occur: the handler names `NoCredentialsError`, which the file never imports, so any signing error becomes a `NameError`. The model covers this as `None`. The `s3_utils.py` version that `main.py` uses is not part of this model.
- The metadata of a document is opaque. The two lookups into it are the `uriOf` and `hasScore` fields of `Citations.SourceLookup`. The relevance `score` is a float, and only its presence is modelled.
- A stream that raises part way through is modelled as `ChainOutput.Streamed(None)`. It leaves the same log and shows the same failure as a call that raised at once. The partial text in the placeholder is rendering.
- The writes to the LangChain history that `RunnableWithMessageHistory` makes after a turn are library behaviour. The turn methods do not take the history object.
- ChatApp.StreamingTurn: requires the log to exist, because both scripts create it earlier in the same run. `ChatApp.RunPage` covers the full run without that precondition.
- ChatApp.BlockingTurn: requires the log to exist, for the same reason.
- Streamlit callbacks run before the rerun they trigger. `RunPage` does not include the clear button's callback, which is modelled on its own.
- Rendering is UI and is not modelled: placeholder updates, chat bubbles, expanders and the sidebar.
- Cancelling a stream is not modelled. The source has no handling for it.
- `utils.py` and `s3_utils.py` are not part of this model. `main.py` imports `extract_citations` and `parse_s3_uri` from them, and the model takes them to be the definitions in `complete_code.py`.
- The model parameters (`temperature`, `top_p` and the rest) are opaque configuration. The CSV summarisation pipeline and `test_bedrock.py` are not part of the chat page.
