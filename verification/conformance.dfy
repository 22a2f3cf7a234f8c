/**
 * The language-conformance filter (`_force_japanese_response`): an answer in which
 * the detector finds English is sent once to the language model for rewriting; if
 * that call raises, the answer is kept as it was.
 */
module Conformance {
  import opened Wrappers
  import opened Calls
  import opened EnglishDetection

  /** `_force_japanese_response(response)`, where `rewrite` is what the rewrite call would give. */
  function ForceJapanese(response: string, rewrite: Result<string>): (r: Traced)
    ensures r.text == response || (rewrite.Ok? && r.text == rewrite.value)
    ensures r.calls == [] ==> r.text == response
    ensures |r.calls| <= 1 && forall c :: c in r.calls ==> c == Complete(response)
  {
    if !ContainsEnglish(response) then Traced(response, [])
    else Traced(if rewrite.Ok? then rewrite.value else response, [Complete(response)])
  }

  /** An answer whose every run of three or more letters is an exception comes back untouched, with no call. */
  lemma ConformingAnswerUnchanged(response: string, rewrite: Result<string>)
    requires !HasForeignRun(response, JAPANESE_EXCEPTIONS)
    ensures ForceJapanese(response, rewrite) == Traced(response, [])
  {
    ContainsEnglishIff(response);
  }

  /**
   * An answer with a foreign run causes exactly one rewrite call, whose output is
   * returned as it is; if the call raises, the original answer is returned.
   */
  lemma LeakRewrittenOnce(response: string, rewrite: Result<string>)
    requires HasForeignRun(response, JAPANESE_EXCEPTIONS)
    ensures ForceJapanese(response, rewrite).calls == [Complete(response)]
    ensures rewrite.Ok? ==> ForceJapanese(response, rewrite).text == rewrite.value
    ensures rewrite.Err? ==> ForceJapanese(response, rewrite).text == response
  {
    ContainsEnglishIff(response);
  }

  /** The filter makes one rewrite call when it finds English, and none otherwise. */
  lemma ForceJapaneseRewrites(response: string, rewrite: Result<string>)
    ensures Rewrites(ForceJapanese(response, rewrite).calls) == if ContainsEnglish(response) then 1 else 0
  {
    if ContainsEnglish(response) {
      assert ForceJapanese(response, rewrite).calls[1..] == [];
    }
  }

  /** The filter's output is free of English unless the answer had English and the rewrite raised or kept some. */
  lemma OutputConforms(response: string, rewrite: Result<string>)
    requires rewrite.Ok? ==> !ContainsEnglish(rewrite.value)
    ensures ContainsEnglish(ForceJapanese(response, rewrite).text) ==> ContainsEnglish(response) && rewrite.Err?
  {
  }

  /** The text changes only through a successful rewrite call. */
  lemma ChangedOnlyByRewrite(response: string, rewrite: Result<string>)
    ensures ForceJapanese(response, rewrite).text != response ==>
      rewrite.Ok? && ForceJapanese(response, rewrite).text == rewrite.value && Rewrites(ForceJapanese(response, rewrite).calls) == 1
  {
  }
}
