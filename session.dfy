/**
 * The per-session state of the chat page: the displayed message log kept
 * under the key `messages` (absent until a script run creates it), and the
 * LangChain chat history store that the chain reads and writes.
 *
 * The pure functions `SetUp` and `AfterTurn` say what the log becomes after
 * the set-up step and after one turn; the set-up and turn methods of the page
 * modules are proved against them and the clear methods against
 * `GreetingLog`, and `Replay` extends `AfterTurn` to a series of turns.
 */
module Session {
  import opened Wrappers

  /** One displayed chat entry, `{"role": ..., "content": ...}`. */
  datatype Message = Message(role: string, content: string)

  const AssistantRole: string := "assistant"
  const UserRole: string := "user"
  const GreetingText: string := "How may I assist you today?"

  /** The log holding only the greeting, shown under `role`. */
  function GreetingLog(role: string): seq<Message> {
    [Message(role, GreetingText)]
  }

  /** The log after the "create it when absent" step; `None` stands for an absent key. */
  function SetUp(messages: Option<seq<Message>>): (r: Option<seq<Message>>)
    ensures r.Some?
  {
    if messages.None? then Some(GreetingLog(AssistantRole)) else messages
  }

  /** Setting up an existing log keeps it as it is, whatever it holds. */
  lemma SetUpKeepsExisting(log: seq<Message>)
    ensures SetUp(Some(log)) == Some(log)
  {
  }

  /** Setting up twice is setting up once. */
  lemma SetUpIdempotent(messages: Option<seq<Message>>)
    ensures SetUp(SetUp(messages)) == SetUp(messages)
  {
  }

  /**
   * The log after one chat turn: the user's prompt, then, unless the turn
   * raised before reaching it, the assistant's answer.
   */
  function AfterTurn(log: seq<Message>, prompt: string, reply: Option<string>): (r: seq<Message>)
    ensures |r| == |log| + (if reply.Some? then 2 else 1)
    ensures r[..|log|] == log
    ensures r[|log|] == Message(UserRole, prompt)
    ensures reply.Some? ==> r[|log| + 1] == Message(AssistantRole, reply.value)
  {
    log + [Message(UserRole, prompt)] + (if reply.Some? then [Message(AssistantRole, reply.value)] else [])
  }

  /** One submitted prompt and the answer text it got, `None` when the turn raised. */
  datatype Turn = Turn(prompt: string, reply: Option<string>)

  /** The log after a series of turns. */
  function Replay(log: seq<Message>, turns: seq<Turn>): seq<Message>
    decreases |turns|
  {
    if turns == [] then log
    else Replay(AfterTurn(log, turns[0].prompt, turns[0].reply), turns[1..])
  }

  /** The entries a series of turns adds: per turn the user entry and then the assistant entry. */
  function Transcript(turns: seq<Turn>): seq<Message>
  {
    if turns == [] then []
    else AfterTurn([], turns[0].prompt, turns[0].reply) + Transcript(turns[1..])
  }

  /** The number of entries a series of turns adds. */
  function EntryCount(turns: seq<Turn>): nat
  {
    if turns == [] then 0
    else (if turns[0].reply.Some? then 2 else 1) + EntryCount(turns[1..])
  }

  /** The log is append-only: turns only add their transcript after the entries already there. */
  lemma {:induction false} ReplayAppends(log: seq<Message>, turns: seq<Turn>)
    ensures Replay(log, turns) == log + Transcript(turns)
    ensures |Transcript(turns)| == EntryCount(turns)
    decreases |turns|
  {
    if turns != [] {
      var t := turns[0];
      var next := AfterTurn(log, t.prompt, t.reply);
      ReplayAppends(next, turns[1..]);
      assert next == log + AfterTurn([], t.prompt, t.reply);
    }
  }

  /** Replaying two series of turns one after the other is replaying them together. */
  lemma {:induction false} ReplayConcat(log: seq<Message>, first: seq<Turn>, second: seq<Turn>)
    ensures Replay(log, first + second) == Replay(Replay(log, first), second)
    decreases |first|
  {
    if first != [] {
      assert (first + second)[0] == first[0];
      assert (first + second)[1..] == first[1..] + second;
      ReplayConcat(AfterTurn(log, first[0].prompt, first[0].reply), first[1..], second);
    } else {
      assert first + second == second;
    }
  }

  /** The session state's `messages` entry. */
  class SessionState {
    /** `None` while the key `messages` is absent. */
    var messages: Option<seq<Message>>

    /** A fresh session, before any script run. */
    constructor ()
      ensures messages.None?
    {
      messages := None;
    }

    /** `st.session_state.messages.append(m)`. */
    method Append(m: Message)
      requires messages.Some?
      modifies this
      ensures messages == Some(old(messages).value + [m])
    {
      messages := Some(messages.value + [m]);
    }

    /** `st.session_state.messages = log`. */
    method Assign(log: seq<Message>)
      modifies this
      ensures messages == Some(log)
    {
      messages := Some(log);
    }
  }

  /**
   * The LangChain history store.  Its entries (type `E`) are written by the
   * chain library after each turn and are opaque here; only clearing is modelled.
   */
  class ChatHistory<E> {
    var messages: seq<E>

    constructor ()
      ensures messages == []
    {
      messages := [];
    }

    /** `history.clear()`. */
    method Clear()
      modifies this
      ensures messages == []
    {
      messages := [];
    }
  }
}
