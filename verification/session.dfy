/**
 * The per-browser-session state that `main` keeps: the chat bot, the displayed
 * conversation and the `initialized` flag. Each method is one user action on the
 * page; rendering does nothing to the state and is not modelled.
 */
module SessionState {
  import opened Wrappers
  import opened Calls
  import opened ChatBot

  datatype Role = User | Assistant

  /** One entry of `st.session_state.messages`: `{"role": …, "content": …}`. */
  datatype Turn = Turn(role: Role, content: string)

  /** The conversation is user turn, assistant turn, user turn, … and ends on an answer. */
  ghost predicate Alternating(messages: seq<Turn>) {
    |messages| % 2 == 0
    && forall k :: 0 <= k < |messages| ==> messages[k].role == (if k % 2 == 0 then User else Assistant)
  }

  /** A question and its answer, appended together, keep the conversation alternating. */
  lemma ExchangeKeepsAlternating(messages: seq<Turn>, question: string, answer: string)
    requires Alternating(messages)
    ensures Alternating(messages + [Turn(User, question), Turn(Assistant, answer)])
  {
    var m := messages + [Turn(User, question), Turn(Assistant, answer)];
    forall k | 0 <= k < |m|
      ensures m[k].role == if k % 2 == 0 then User else Assistant
    {
      if k >= |messages| {
        assert k == |messages| || k == |messages| + 1;
      }
    }
  }

  class ChatSession {
    var chatbot: ReActChatBot
    var messages: seq<Turn>
    var initialized: bool

    ghost predicate Valid()
      reads this, chatbot
    {
      chatbot.Valid()
      && (initialized ==> chatbot.agent.Some?)
      && Alternating(messages)
    }

    /** The first run of `main` in a session: a fresh bot, no messages, not initialised. */
    constructor ()
      ensures Valid() && fresh(chatbot)
      ensures chatbot.pdfFolder == DEFAULT_PDF_FOLDER && chatbot.index.None? && chatbot.agent.None?
      ensures messages == [] && !initialized
    {
      chatbot := new ReActChatBot(DEFAULT_PDF_FOLDER);
      messages := [];
      initialized := false;
    }

    /**
     * The initialisation button, shown only while the session is not initialised:
     * the flag becomes true exactly when loading the folder succeeds.
     */
    method PressInitialize(env: LoadEnv) returns (ok: bool)
      requires Valid()
      modifies this, chatbot
      ensures Valid() && chatbot == old(chatbot) && messages == old(messages)
      ensures ok == (!old(initialized) && LoadSucceeds(env))
      ensures initialized == (old(initialized) || ok)
      ensures ok ==> chatbot.agent == Some(QueryEngine(Index(env.documents.value), AGENT_TOP_K))
      ensures !ok ==> chatbot.agent == old(chatbot.agent)
      ensures !old(initialized) ==>
        chatbot.index == if IndexBuilt(env) then Some(Index(env.documents.value)) else old(chatbot.index)
      ensures old(initialized) ==> chatbot.index == old(chatbot.index) && chatbot.agent == old(chatbot.agent)
    {
      if initialized {
        return false;
      }
      ok := chatbot.LoadPdfs(env);
      if ok {
        initialized := true;
      }
    }

    /**
     * A chat submission, possible only once initialised: the user turn, then the
     * bot's answer as the assistant turn. An empty input submits nothing.
     */
    method Submit(prompt: string, env: Backend) returns (reply: Option<Traced>)
      requires Valid()
      modifies this`messages
      ensures Valid()
      ensures initialized && prompt != "" ==>
        reply == Some(chatbot.Ask(prompt, env))
        && messages == old(messages) + [Turn(User, prompt), Turn(Assistant, reply.value.text)]
      ensures !(initialized && prompt != "") ==> reply == None && messages == old(messages)
    {
      if !initialized || prompt == "" {
        return None;
      }
      var response := chatbot.Ask(prompt, env);
      ExchangeKeepsAlternating(messages, prompt, response.text);
      messages := messages + [Turn(User, prompt), Turn(Assistant, response.text)];
      reply := Some(response);
    }

    /** The clear button, shown only once initialised: the conversation becomes empty. */
    method ClearHistory()
      requires Valid()
      modifies this`messages
      ensures Valid()
      ensures messages == if initialized then [] else old(messages)
    {
      if initialized {
        messages := [];
      }
    }
  }

  /**
   * A session whose folder loads, then a question, a clear and another question:
   * the conversation restarts from the new question and the bot's answer to it, and
   * the first call made for that answer is the primary query.
   */
  method ClearThenAsk(env: LoadEnv, first: string, second: string, backend: Backend)
    returns (session: ChatSession, loaded: bool, reply: Option<Traced>)
    requires first != "" && second != ""
    ensures fresh(session) && session.Valid()
    ensures loaded == LoadSucceeds(env) && session.initialized == loaded
    ensures loaded ==> session.chatbot.agent == Some(QueryEngine(Index(env.documents.value), AGENT_TOP_K))
    ensures loaded ==> reply == Some(session.chatbot.Ask(second, backend))
    ensures loaded ==> session.messages == [Turn(User, second), Turn(Assistant, reply.value.text)]
    ensures loaded ==> |reply.value.calls| > 0 && reply.value.calls[0] == Query(second, AGENT_TOP_K)
    ensures !loaded ==> session.messages == [] && reply == None
  {
    session := new ChatSession();
    loaded := session.PressInitialize(env);
    var _ := session.Submit(first, backend);
    session.ClearHistory();
    reply := session.Submit(second, backend);
    if loaded {
      ReadyAskQueriesThenCites(session.chatbot, second, backend);
    }
  }
}
