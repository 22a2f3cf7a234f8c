/**
 * The chat bot object (`StreamlitReActChatBot`): loading the PDF folder into an
 * index, creating the query engine ("agent"), and answering a question through the
 * primary engine or, when that raises, through the fallback search.
 *
 * The file system, the index library and the language model are outside the model:
 * what they return or raise for one load or one question is passed in.
 */
module ChatBot {
  import opened Wrappers
  import opened Calls
  import opened EnglishDetection
  import opened Conformance
  import opened Citations

  const DEFAULT_PDF_FOLDER := "pdfs"
  /** `as_query_engine(similarity_top_k=3)` for the agent. */
  const AGENT_TOP_K: nat := 3
  /** `as_query_engine(similarity_top_k=5)` for the fallback search. */
  const FALLBACK_TOP_K: nat := 5
  const NOT_INITIALIZED_REPLY := "エラー: エージェントが初期化されていません。PDFファイルの読み込みボタンを押してください。"
  const FALLBACK_MARKER := "【直接検索による回答】"
  const SEARCH_ERROR_PREFIX := "❌ 検索エラー: "

  /** A vector index, known by how many documents it was built from. */
  datatype Index = Index(documentCount: nat)

  /** A query engine over an index. */
  datatype QueryEngine = QueryEngine(index: Index, topK: nat)

  /** What the file system and the index library do during one load of the folder. */
  datatype LoadEnv = LoadEnv(
    folderExists: bool,               // os.path.exists(folder)
    listing: Result<seq<string>>,     // os.listdir(folder)
    documents: Result<nat>,           // SimpleDirectoryReader(...).load_data(): how many documents
    buildError: Option<string>,       // VectorStoreIndex.from_documents raising
    engineError: Option<string>)      // as_query_engine raising while the agent is created

  /** What the engines, the language model and the retriever give for one question. */
  datatype Backend = Backend(
    primary: Result<string>,          // the agent's query(question)
    fallback: Result<string>,         // the fallback engine's query(question)
    rewrite: Result<string>,          // Settings.llm.complete on the rewrite prompt
    retrieved: Result<seq<Node>>)     // the retriever's retrieve(question)

  predicate EndsWith(s: string, suffix: string) {
    |suffix| <= |s| && s[|s| - |suffix|..] == suffix
  }

  /** `[f for f in os.listdir(folder) if f.endswith('.pdf')]`: case-sensitive, order kept. */
  function PdfFiles(names: seq<string>): (pdfs: seq<string>)
    ensures forall f :: f in pdfs <==> f in names && EndsWith(f, ".pdf")
    ensures |pdfs| <= |names|
  {
    if names == [] then []
    else (if EndsWith(names[0], ".pdf") then [names[0]] else []) + PdfFiles(names[1..])
  }

  /** The load gets as far as building the index. */
  predicate IndexBuilt(env: LoadEnv) {
    env.folderExists && env.listing.Ok? && |PdfFiles(env.listing.value)| > 0
    && env.documents.Ok? && env.buildError.None?
  }

  /** The load returns true: the index is built and the agent created. */
  predicate LoadSucceeds(env: LoadEnv) {
    IndexBuilt(env) && env.engineError.None?
  }

  /** A folder with no file whose name ends in ".pdf" never loads. */
  lemma NoPdfNoLoad(env: LoadEnv)
    requires env.listing.Ok?
    requires forall f :: f in env.listing.value ==> !EndsWith(f, ".pdf")
    ensures !LoadSucceeds(env)
  {
    var pdfs := PdfFiles(env.listing.value);
    if |pdfs| > 0 {
      assert pdfs[0] in env.listing.value;
    }
  }

  /**
   * The answer for one successful query: the conformed answer, a blank line and the
   * source block, which comes from a retrieval of its own.
   */
  function Reply(question: string, answer: string, rewrite: Result<string>, sources: string): (r: Traced)
    ensures EndsWith(r.text, "\n\n" + sources)
    ensures |r.calls| > 0 && r.calls[|r.calls| - 1] == Retrieve(question, SOURCES_TOP_K)
  {
    var conformed := ForceJapanese(answer, rewrite);
    var tail := "\n\n" + sources;
    assert (conformed.text + tail)[|conformed.text|..] == tail;
    Traced(conformed.text + tail,
           conformed.calls + [Retrieve(question, SOURCES_TOP_K)])
  }

  /** `_fallback_search`: any exception inside it becomes the search-error text. */
  function FallbackSearch(question: string, env: Backend): (r: Traced)
    ensures |r.calls| > 0 && r.calls[0] == Query(question, FALLBACK_TOP_K)
    ensures env.fallback.Err? ==> r.calls == [Query(question, FALLBACK_TOP_K)]
  {
    var query := Query(question, FALLBACK_TOP_K);
    match env.fallback
    case Err(e) => Traced(SEARCH_ERROR_PREFIX + e, [query])
    case Ok(answer) =>
      var reply := Reply(question, answer, env.rewrite, SourceInfo(env.retrieved));
      Traced(FALLBACK_MARKER + "\n" + reply.text, [query] + reply.calls)
  }

  /** The answer text a query produced for the question, whichever engine gave it. */
  function QueryAnswer(env: Backend): Option<string> {
    if env.primary.Ok? then Some(env.primary.value)
    else if env.fallback.Ok? then Some(env.fallback.value)
    else None
  }

  class ReActChatBot {
    const pdfFolder: string
    var index: Option<Index>
    var agent: Option<QueryEngine>

    /** The agent is only ever created over an index, as a top-3 engine. */
    ghost predicate Valid()
      reads this
    {
      agent.Some? ==> index.Some? && agent.value.topK == AGENT_TOP_K
    }

    constructor (pdfFolder: string)
      ensures Valid()
      ensures this.pdfFolder == pdfFolder && index.None? && agent.None?
    {
      this.pdfFolder := pdfFolder;
      index := None;
      agent := None;
    }

    /** `_create_react_agent`: a query engine over the current index becomes the agent. */
    method CreateAgent(engineError: Option<string>) returns (ok: bool)
      requires Valid()
      modifies this`agent
      ensures Valid()
      ensures ok == (index.Some? && engineError.None?)
      ensures agent == if ok then Some(QueryEngine(index.value, AGENT_TOP_K)) else old(agent)
    {
      if index.None? {
        return false;
      }
      if engineError.Some? {
        return false;
      }
      agent := Some(QueryEngine(index.value, AGENT_TOP_K));
      ok := true;
    }

    /**
     * `load_pdfs_with_react`. The index is replaced as soon as it is built, even when
     * creating the agent then fails.
     */
    method LoadPdfs(env: LoadEnv) returns (ok: bool)
      requires Valid()
      modifies this`index, this`agent
      ensures Valid()
      ensures ok == LoadSucceeds(env)
      ensures index == if IndexBuilt(env) then Some(Index(env.documents.value)) else old(index)
      ensures agent == if ok then Some(QueryEngine(Index(env.documents.value), AGENT_TOP_K)) else old(agent)
    {
      if !env.folderExists {
        return false;
      }
      if env.listing.Err? {
        return false;
      }
      var pdfFiles := PdfFiles(env.listing.value);
      if |pdfFiles| == 0 {
        return false;
      }
      if env.documents.Err? {
        return false;
      }
      if env.buildError.Some? {
        return false;
      }
      index := Some(Index(env.documents.value));
      ok := CreateAgent(env.engineError);
    }

    /** `ask_with_react`: every exception of the primary query goes to the fallback search. */
    function Ask(question: string, env: Backend): (r: Traced)
      reads this
      ensures agent.None? ==> r.calls == []
      ensures agent.Some? ==> |r.calls| > 0 && r.calls[0] == Query(question, agent.value.topK)
    {
      if agent.None? then Traced(NOT_INITIALIZED_REPLY, [])
      else
        var query := Query(question, agent.value.topK);
        match env.primary
        case Ok(answer) =>
          var reply := Reply(question, answer, env.rewrite, SourceInfo(env.retrieved));
          Traced(reply.text, [query] + reply.calls)
        case Err(_) =>
          var fallback := FallbackSearch(question, env);
          Traced(fallback.text, [query] + fallback.calls)
    }
  }

  /** Without an agent the bot answers with the initialisation error and calls nothing. */
  lemma UninitializedAskCallsNothing(bot: ReActChatBot, question: string, env: Backend)
    requires bot.agent.None?
    ensures bot.Ask(question, env) == Traced(NOT_INITIALIZED_REPLY, [])
  {
  }

  /** Whatever the primary query's exception says, the answer is the fallback search's. */
  lemma AnyPrimaryErrorFallsBack(bot: ReActChatBot, question: string, env: Backend, message: string)
    requires bot.agent.Some? && env.primary.Err?
    ensures bot.Ask(question, env) == bot.Ask(question, env.(primary := Err(message)))
    ensures bot.Ask(question, env).text == FallbackSearch(question, env).text
    ensures bot.Ask(question, env).calls == [Query(question, bot.agent.value.topK)] + FallbackSearch(question, env).calls
  {
  }

  /** The fallback answer starts with the direct-search marker exactly when its query succeeded. */
  lemma FallbackMarkedIffAnswered(question: string, env: Backend)
    ensures FALLBACK_MARKER <= FallbackSearch(question, env).text <==> env.fallback.Ok?
    ensures env.fallback.Err? ==> FallbackSearch(question, env).text == SEARCH_ERROR_PREFIX + env.fallback.error
  {
    if env.fallback.Err? {
      assert FallbackSearch(question, env).text[0] != FALLBACK_MARKER[0];
    }
  }

  /** A reply makes one rewrite call exactly when the detector flags its answer. */
  lemma RewritesOfReply(question: string, answer: string, rewrite: Result<string>, sources: string)
    ensures Rewrites(Reply(question, answer, rewrite, sources).calls) == if ContainsEnglish(answer) then 1 else 0
  {
    var conformed := ForceJapanese(answer, rewrite);
    var retrieve := [Retrieve(question, SOURCES_TOP_K)];
    RewritesAppend(conformed.calls, retrieve);
    assert Rewrites(retrieve) == 0 by {
      assert retrieve[1..] == [];
    }
    ForceJapaneseRewrites(answer, rewrite);
  }

  /** The fallback search makes one rewrite call exactly when its query answered with English. */
  lemma RewritesOfFallback(question: string, env: Backend)
    ensures Rewrites(FallbackSearch(question, env).calls) ==
      if env.fallback.Ok? && ContainsEnglish(env.fallback.value) then 1 else 0
  {
    var query := Query(question, FALLBACK_TOP_K);
    if env.fallback.Ok? {
      var reply := Reply(question, env.fallback.value, env.rewrite, SourceInfo(env.retrieved));
      RewritesOfReply(question, env.fallback.value, env.rewrite, SourceInfo(env.retrieved));
      RewritesAppend([query], reply.calls);
    } else {
      assert FallbackSearch(question, env).calls == [query];
    }
  }

  /**
   * One question makes at most one rewrite call, and makes one exactly when an engine
   * answered and the detector found English in that answer.
   */
  lemma RewriteAtMostOnce(bot: ReActChatBot, question: string, env: Backend)
    ensures Rewrites(bot.Ask(question, env).calls) ==
      if bot.agent.Some? && QueryAnswer(env).Some? && ContainsEnglish(QueryAnswer(env).value) then 1 else 0
  {
    if bot.agent.Some? {
      var query := Query(question, bot.agent.value.topK);
      if env.primary.Ok? {
        var reply := Reply(question, env.primary.value, env.rewrite, SourceInfo(env.retrieved));
        RewritesOfReply(question, env.primary.value, env.rewrite, SourceInfo(env.retrieved));
        RewritesAppend([query], reply.calls);
      } else {
        RewritesOfFallback(question, env);
        RewritesAppend([query], FallbackSearch(question, env).calls);
      }
    }
  }

  lemma EndsWithAppended(prefix: string, s: string, suffix: string)
    requires EndsWith(s, suffix)
    ensures EndsWith(prefix + s, suffix)
  {
    assert (prefix + s)[|prefix + s| - |suffix|..] == s[|s| - |suffix|..];
  }

  /**
   * An initialised bot always issues the primary top-3 query first, and when an engine
   * answered, the reply ends with the source block of a separate retrieval for the same
   * question.
   */
  lemma ReadyAskQueriesThenCites(bot: ReActChatBot, question: string, env: Backend)
    requires bot.Valid() && bot.agent.Some?
    ensures var r := bot.Ask(question, env);
      |r.calls| > 0 && r.calls[0] == Query(question, AGENT_TOP_K)
      && (QueryAnswer(env).Some? ==>
            r.calls[|r.calls| - 1] == Retrieve(question, SOURCES_TOP_K)
            && EndsWith(r.text, "\n\n" + SourceInfo(env.retrieved)))
  {
    var r := bot.Ask(question, env);
    var query := Query(question, bot.agent.value.topK);
    var sources := SourceInfo(env.retrieved);
    if env.primary.Ok? {
      var reply := Reply(question, env.primary.value, env.rewrite, sources);
      assert r == Traced(reply.text, [query] + reply.calls);
    } else if env.fallback.Ok? {
      var reply := Reply(question, env.fallback.value, env.rewrite, sources);
      var fallback := FallbackSearch(question, env);
      assert fallback.text == FALLBACK_MARKER + "\n" + reply.text;
      assert fallback.calls == [Query(question, FALLBACK_TOP_K)] + reply.calls;
      assert r == Traced(fallback.text, [query] + fallback.calls);
      EndsWithAppended(FALLBACK_MARKER + "\n", reply.text, "\n\n" + sources);
    }
  }

  /**
   * A reply is the answer, rewritten once if it has a foreign run and the rewrite
   * succeeded, then a blank line and the source block.
   */
  lemma ReplyText(question: string, answer: string, rewrite: Result<string>, sources: string)
    ensures var text := Reply(question, answer, rewrite, sources).text;
      (!HasForeignRun(answer, JAPANESE_EXCEPTIONS) ==> text == answer + "\n\n" + sources)
      && (HasForeignRun(answer, JAPANESE_EXCEPTIONS) && rewrite.Ok? ==> text == rewrite.value + "\n\n" + sources)
      && (HasForeignRun(answer, JAPANESE_EXCEPTIONS) && rewrite.Err? ==> text == answer + "\n\n" + sources)
  {
    var conformed := ForceJapanese(answer, rewrite);
    assert Reply(question, answer, rewrite, sources).text == conformed.text + ("\n\n" + sources);
    assert conformed.text + ("\n\n" + sources) == conformed.text + "\n\n" + sources;
    if HasForeignRun(answer, JAPANESE_EXCEPTIONS) {
      LeakRewrittenOnce(answer, rewrite);
    } else {
      ConformingAnswerUnchanged(answer, rewrite);
    }
  }

  /**
   * When the primary engine answers, the reply is that answer, rewritten once if it
   * has a foreign run and the rewrite succeeded, then a blank line and the source block.
   */
  lemma AnsweredAskText(bot: ReActChatBot, question: string, env: Backend)
    requires bot.agent.Some? && env.primary.Ok?
    ensures var a, s := env.primary.value, SourceInfo(env.retrieved);
      var text := bot.Ask(question, env).text;
      (!HasForeignRun(a, JAPANESE_EXCEPTIONS) ==> text == a + "\n\n" + s)
      && (HasForeignRun(a, JAPANESE_EXCEPTIONS) && env.rewrite.Ok? ==> text == env.rewrite.value + "\n\n" + s)
      && (HasForeignRun(a, JAPANESE_EXCEPTIONS) && env.rewrite.Err? ==> text == a + "\n\n" + s)
  {
    var a, s := env.primary.value, SourceInfo(env.retrieved);
    assert bot.Ask(question, env).text == Reply(question, a, env.rewrite, s).text;
    ReplyText(question, a, env.rewrite, s);
  }

  /**
   * When the fallback query answers, its text is the marker line, then that answer
   * (rewritten once under the same conditions), a blank line and the source block.
   */
  lemma AnsweredFallbackText(question: string, env: Backend)
    requires env.fallback.Ok?
    ensures var a, s := env.fallback.value, SourceInfo(env.retrieved);
      var text := FallbackSearch(question, env).text;
      (!HasForeignRun(a, JAPANESE_EXCEPTIONS) ==> text == FALLBACK_MARKER + "\n" + a + "\n\n" + s)
      && (HasForeignRun(a, JAPANESE_EXCEPTIONS) && env.rewrite.Ok? ==>
            text == FALLBACK_MARKER + "\n" + env.rewrite.value + "\n\n" + s)
      && (HasForeignRun(a, JAPANESE_EXCEPTIONS) && env.rewrite.Err? ==>
            text == FALLBACK_MARKER + "\n" + a + "\n\n" + s)
  {
    var a, s := env.fallback.value, SourceInfo(env.retrieved);
    var reply := Reply(question, a, env.rewrite, s);
    var marker := FALLBACK_MARKER + "\n";
    assert FallbackSearch(question, env).text == marker + reply.text;
    ReplyText(question, a, env.rewrite, s);
    var x := if HasForeignRun(a, JAPANESE_EXCEPTIONS) && env.rewrite.Ok? then env.rewrite.value else a;
    assert reply.text == x + "\n\n" + s;
    PrefixedReply(marker, x, s);
  }

  lemma PrefixedReply(prefix: string, x: string, sources: string)
    ensures prefix + (x + "\n\n" + sources) == prefix + x + "\n\n" + sources
  {
  }
}
