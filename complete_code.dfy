/**
 * The parts of the single-file script that differ from the modular
 * application: its "Clear Chat History" callback greets under the role
 * `3DP Data Assistant`, whereas the log it creates when absent greets under
 * `assistant` (that creation is `StreamlitUi.SetupSessionState`).
 */
module CompleteCode {
  import opened Wrappers
  import opened Session

  const ScriptAssistantRole: string := "3DP Data Assistant"

  /** `clear_chat_history` of the script: empty the history and restart the log from its greeting. */
  method ClearChatHistory<E>(state: SessionState, history: ChatHistory<E>)
    modifies state, history
    ensures history.messages == []
    ensures state.messages == Some([Message(ScriptAssistantRole, GreetingText)])
  {
    history.Clear();
    state.Assign(GreetingLog(ScriptAssistantRole));
  }

  /**
   * A log restarted by the script's clear is kept by the next set-up, so the
   * greeting stays under the script's role and is not the `assistant` greeting.
   */
  lemma ScriptGreetingKeptBySetUp()
    ensures SetUp(Some(GreetingLog(ScriptAssistantRole))) == Some(GreetingLog(ScriptAssistantRole))
    ensures GreetingLog(ScriptAssistantRole) != GreetingLog(AssistantRole)
  {
    assert GreetingLog(ScriptAssistantRole)[0].role != GreetingLog(AssistantRole)[0].role;
  }
}
