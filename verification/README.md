# Verified model of the Streamlit PDF chat bot

This project models the application logic of a single-file Streamlit chat bot
(`streamlit_app.py`). The bot answers questions about a folder of PDF files. It
queries a vector index, then checks the answer for leaked English. When it finds
some, it asks the language model once to rewrite the answer into Japanese. It
then appends a numbered list of the documents a separate retrieval returned.

The index library, the language model and the file system are outside the model.
What they return or raise for one load or one question is an input:

- `LoadEnv`: folder existence, the directory listing, the document count, index and engine failures.
- `Backend`: the primary query, the fallback query, the rewrite call and the retriever.

While answering a question, every outward call is recorded as a `Call` in a trace:
the queries, the rewrite and the retrieval. This lets the model state what is asked of the
outside world, and how often. The calls of the load path (`os.listdir`, `load_data`,
`from_documents`, `as_query_engine` in `_create_react_agent`) are not traced; their
outcomes are the fields of `LoadEnv`.

Modules, one per component of the file:

- `EnglishDetection` (`english_detection.dfy`): `_contains_english`. The greedy `re.findall(r'[a-zA-Z]{3,}')`
  is written as an explicit scan. The scan is proved to find exactly the maximal runs of at least three ASCII
  letters, a regex-free reference (the same strings; their order is not stated).
- `Conformance` (`conformance.dfy`): `_force_japanese_response`.
- `Citations` (`citations.dfy`): `_get_source_info`. A loop method is proved equal to a specification
  function. Lemmas cover line numbering, the page suffix and the line count of the block.
- `ChatBot` (`chatbot.dfy`): the class `StreamlitReActChatBot`, named `ReActChatBot` in the model. Its `index` and `agent` fields are set by
  `load_pdfs_with_react` and `_create_react_agent`. The module also covers `ask_with_react` and
  `_fallback_search`.
- `SessionState` (`session.dfy`): the session state that `main` keeps. This is the `initialized` flag and
  the `messages` list, with one method per button or chat submission.
- `Calls` and `Wrappers`: the call trace and the `Option`/`Result` types.

Behaviour of the code worth knowing:

- Loading does not check that at least one document was read. A folder with PDF files that yield no
  documents still builds an index (streamlit_app.py:77-84).
- When creating the agent fails after the index was built, the new index stays in `self.index`. So a
  failed load can leave partial state (streamlit_app.py:84-92).
- Both branches of the exception handler in `ask_with_react` call the fallback. The message text never
  matters (streamlit_app.py:219-227).
- A retrieved node whose `score` is `None` makes `:.3f` formatting raise. The whole citation block then
  becomes the error text (streamlit_app.py:285-293). The model keeps this path as `Score.NullScore`.

## Model

| member | source | states |
|---|---|---|
| EnglishDetection.RunEnd | streamlit_app.py:166-167 | the run of letters that starts at a position ends at the first non-letter after it; everything before that is a letter |
| EnglishDetection.FindAllFrom | streamlit_app.py:166-167 | every match of the pattern is at least three characters long and made only of ASCII letters |
| EnglishDetection.FindAllFromSound | streamlit_app.py:166-167 | every match found from a run boundary is a maximal run of three or more letters |
| EnglishDetection.FindAllFromComplete | streamlit_app.py:166-167 | every maximal run of three or more letters after a run boundary is among the matches |
| EnglishDetection.MatchesAreLongMaximalRuns | streamlit_app.py:166-167 | a string is a match exactly when it is a maximal run of at least three ASCII letters in the text |
| EnglishDetection.WithoutExceptions | streamlit_app.py:170-171 | the filtered list holds exactly the matches that are not in the exception list |
| EnglishDetection.ContainsEnglishWith | streamlit_app.py:166-173 | the detector reports English exactly when some match of the pattern is not in the exception list |
| EnglishDetection.ContainsEnglish | streamlit_app.py:163-173 | `_contains_english` reports English exactly when some match is none of 'pdf', 'PDF' and 'API' (the other listed exceptions can never be matches) |
| EnglishDetection.ContainsEnglishWithIff | streamlit_app.py:166-173 | the detector reports English iff some maximal run of at least three letters is not an exception |
| EnglishDetection.ContainsEnglishIff | streamlit_app.py:163-173 | the same equivalence, for the source's own exception list |
| EnglishDetection.OnlyThreeExceptionsMatter | streamlit_app.py:170-171 | 'au', 'DC' and 'auコマース' never change the verdict: the list acts like ['pdf', 'PDF', 'API'] |
| EnglishDetection.NoThreeLettersNoEnglish | streamlit_app.py:166-173 | text with no three consecutive ASCII letters is never flagged |
| EnglishDetection.ForeignRunIsEnglish | streamlit_app.py:171-173 | one maximal run of three or more letters outside the list is enough to flag the text |
| EnglishDetection.PluralPdfIsEnglish | streamlit_app.py:170-171 | the exceptions match exactly: "PDFs" is English |
| EnglishDetection.CapitalisedPdfIsEnglish | streamlit_app.py:170-171 | the exceptions are case-sensitive: "Pdf" is English |
| EnglishDetection.PdfAloneIsNotEnglish | streamlit_app.py:170-173 | "PDF" on its own is not English |
| EnglishDetection.TwoRunsAreEnglish | streamlit_app.py:166-173 | "abc ABC" is English |
| EnglishDetection.ShortWordsAreNotEnglish | streamlit_app.py:166-170 | "au DC" is not English: its words are too short to match |
| Conformance.ForceJapanese | streamlit_app.py:175-197 | the result is the original answer or the rewrite call's output; without a call the answer is unchanged; at most one call is made, and it rewrites this answer |
| Conformance.ForceJapaneseRewrites | streamlit_app.py:175-197 | the filter makes exactly one rewrite call when it detects English and none otherwise |
| Conformance.ConformingAnswerUnchanged | streamlit_app.py:177-178 | an answer without a foreign run comes back unchanged and no rewrite call is made |
| Conformance.LeakRewrittenOnce | streamlit_app.py:180-197 | an answer with a foreign run causes one rewrite call; the result is the call's output, or the original answer if the call raised |
| Conformance.OutputConforms | streamlit_app.py:175-197 | if the rewrite output has no English, the filtered answer has none unless the rewrite call raised |
| Conformance.ChangedOnlyByRewrite | streamlit_app.py:175-197 | the answer is changed only by a successful rewrite call, and then it is that call's output |
| Citations.Decimal | streamlit_app.py:280-282 | the rank is written as a non-empty string of decimal digits, with no leading zero for a positive rank |
| Citations.DecimalRoundTrip | streamlit_app.py:280-282 | reading the decimal rank back gives the rank |
| Citations.SourceInfo | streamlit_app.py:263-293 | when the retriever raised, or a node's score is `None`, the block starts with 📚 【出典情報取得エラー】; when nodes were found and every score is set, it starts with the header line 📚 【参考文書・出典情報】 |
| Citations.NotFoundIffNoNodes | streamlit_app.py:270-271 | the block is the not-found message exactly when the retriever returned no nodes |
| Citations.GetSourceInfo | streamlit_app.py:263-293 | the loop's output is the specified block: the error text, the not-found message for no nodes, the error text for a `None` score, else the header and one line per node in order |
| Citations.LineStartsWithRank | streamlit_app.py:274-282 | each line starts with "{rank}. {file name}" (the file name defaults to 不明な文書), and the rank can be read back from the line |
| Citations.PageSuffixIffPage | streamlit_app.py:277-282 | " (ページ: " follows the file name exactly when the page label is present and non-empty |
| Citations.SplitJoin | streamlit_app.py:290 | splitting the newline-joined lines at newlines gives the lines back when none holds a newline |
| Citations.SourceBlockLayout | streamlit_app.py:273-290 | when nodes were found, every score is set and no file name, page label or rendered score contains a newline, the block is the header line followed by exactly one line per node, numbered 1..n in retrieval order |
| ChatBot.PdfFiles | streamlit_app.py:66 | the PDF list holds exactly the listed names ending in ".pdf" (case-sensitive) |
| ChatBot.NoPdfNoLoad | streamlit_app.py:61-69 | a folder with no ".pdf" file never loads |
| ChatBot.ReActChatBot.constructor | streamlit_app.py:42-45 | a new bot has its folder and neither an index nor an agent |
| ChatBot.ReActChatBot.CreateAgent | streamlit_app.py:98-161 | without an index, or when building the engine raises, it returns false and the agent is unchanged; otherwise the agent is a top-3 engine over the index |
| ChatBot.ReActChatBot.LoadPdfs | streamlit_app.py:58-96 | it returns true only after every step succeeds; the index is replaced once built; the agent is set only on success |
| ChatBot.UninitializedAskCallsNothing | streamlit_app.py:199-203 | without an agent the answer is the initialisation error and nothing is queried |
| ChatBot.AnyPrimaryErrorFallsBack | streamlit_app.py:219-227 | any exception from the primary query leads to the fallback search, whatever its message |
| ChatBot.FallbackMarkedIffAnswered | streamlit_app.py:229-261 | the fallback answer starts with 【直接検索による回答】 exactly when its query succeeded; otherwise it is "❌ 検索エラー: " followed by the error |
| ChatBot.RewritesOfReply | streamlit_app.py:208-215 | a reply makes one rewrite call exactly when its answer is flagged |
| ChatBot.RewritesOfFallback | streamlit_app.py:252-258 | the fallback makes one rewrite call exactly when its query answered with English |
| ChatBot.RewriteAtMostOnce | streamlit_app.py:199-261 | one question makes at most one rewrite call, and exactly one when the answering engine's text has English |
| ChatBot.Reply | streamlit_app.py:208-217 | a reply ends with a blank line and the source block, and its last call is the top-3 retrieval for the question |
| ChatBot.FallbackSearch | streamlit_app.py:229-261 | the fallback's first call is the top-5 query for the question; when that query fails, it is the only call |
| ChatBot.ReActChatBot.Ask | streamlit_app.py:199-227 | without an agent nothing is called; with one, the first call is the agent's query for the question |
| ChatBot.ReplyText | streamlit_app.py:211-215 | a reply is the answer, or the rewrite's output when the answer has a foreign run and the rewrite succeeded, followed by a blank line and the source block |
| ChatBot.AnsweredAskText | streamlit_app.py:205-217 | when the primary query answers, the bot's text is that answer (rewritten exactly when it has a foreign run and the rewrite succeeded), a blank line and the source block |
| ChatBot.AnsweredFallbackText | streamlit_app.py:246-258 | when the fallback query answers, its text is 【直接検索による回答】, a newline, that answer (rewritten under the same conditions), a blank line and the source block |
| ChatBot.ReadyAskQueriesThenCites | streamlit_app.py:205-258 | an initialised bot first issues the primary top-3 query; when an engine answered, the reply ends with the source block from a separate top-3 retrieval of the same question |
| SessionState.ChatSession.constructor | streamlit_app.py:328-335 | a new session has a fresh bot, no messages and `initialized` false |
| SessionState.ChatSession.PressInitialize | streamlit_app.py:337-344 | `initialized` becomes true only when loading succeeds, and then stays true; on success the agent is a top-3 engine over the new index; a failed press leaves the agent as it was; a first press replaces the index exactly when one was built; a press once initialised changes nothing |
| SessionState.ChatSession.Submit | streamlit_app.py:351-372 | an initialised session appends the user turn and then the assistant turn with the bot's answer, keeping the turns alternating |
| SessionState.ChatSession.ClearHistory | streamlit_app.py:374-376 | clearing empties the conversation |
| SessionState.ClearThenAsk | streamlit_app.py:337-376 | on a fresh session: after a successful load, a question, a clear and another question, the session is initialised with a top-3 agent over the loaded index, the reply is that session's bot's answer to the second question for the given backend, the conversation is exactly that question and that reply, and the reply's first call is the primary top-3 query; a failed load leaves no messages and no reply |

## Left out

- Streamlit rendering, spinners, `st.error`/`st.success`/`st.warning` messages, `st.rerun` and `st.stop`. They do not change the modelled state.
- The `OPENAI_API_KEY` check and the `Settings.llm` configuration, because they are environment and library setup.
- Reading the PDF files, building the vector index, the query engines, the retriever and the language model. They are external library and network calls; their results are inputs (`LoadEnv`, `Backend`).
- The wording of the three prompt templates and of the rewrite prompt. A rewrite call is recorded with the answer it embeds (`Complete(original)`).
- The results of external calls are fixed inputs per question. Any nondeterminism of the model or the index is not represented, and nothing bounds the retriever to return at most three nodes. Only the requested top-k is recorded.
- Citations.GetSourceInfo: the `:.3f` rendering of a score is floating point and is taken as given text (`Scored(rendered)`).
- The English-ratio percentage shown in the sidebar (streamlit_app.py:363-370), because it is floating point and display only.
- SessionState.ChatSession.ClearHistory: the duck-typed reset of the agent's memory (streamlit_app.py:377-393) is not modelled. It probes the shape of an external object; only the emptying of `messages` is.
- A `Backend` error stands both for the call raising and for building the engine or retriever raising (`as_query_engine`, streamlit_app.py:246; `as_retriever`, streamlit_app.py:267). The trace records the `Query` or `Retrieve` call in both cases.
- Python truthiness of the index and engine objects is taken as "present". The response objects are taken as their string form.
