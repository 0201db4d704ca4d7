/**
 * The session set-up and the "Clear Chat History" callback of the modular
 * application's UI helpers.
 */
module StreamlitUi {
  import opened Wrappers
  import opened Session

  /** `setup_session_state`: create the greeting log when the session has none. */
  method SetupSessionState(state: SessionState)
    modifies state
    ensures state.messages == SetUp(old(state.messages))
    ensures old(state.messages).None? ==> state.messages == Some([Message(AssistantRole, GreetingText)])
    ensures old(state.messages).Some? ==> state.messages == old(state.messages)
  {
    if state.messages.None? {
      state.Assign(GreetingLog(AssistantRole));
    }
  }

  /** `clear_chat_history`: empty the LangChain history and restart the log from the greeting. */
  method ClearChatHistory<E>(state: SessionState, history: ChatHistory<E>)
    modifies state, history
    ensures history.messages == []
    ensures state.messages == Some([Message(AssistantRole, GreetingText)])
  {
    history.Clear();
    state.Assign(GreetingLog(AssistantRole));
  }

  /** After a clear, the next set-up leaves the greeting log alone. */
  lemma SetUpAfterClear()
    ensures SetUp(Some(GreetingLog(AssistantRole))) == Some(GreetingLog(AssistantRole))
  {
  }
}
