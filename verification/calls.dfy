/**
 * The calls the chat bot makes into the index library and the language model.
 * Their results are inputs of the model; the calls themselves are recorded so
 * that what is asked of the outside world, and how often, can be stated.
 */
module Calls {

  datatype Call =
    | Query(question: string, topK: nat)      // a query engine's `query(question)`
    | Complete(original: string)              // `Settings.llm.complete` with the rewrite prompt for `original`
    | Retrieve(question: string, topK: nat)   // a retriever's `retrieve(question)`

  /** A text together with the calls made, in order, to produce it. */
  datatype Traced = Traced(text: string, calls: seq<Call>)

  /** How many rewrite calls a trace holds. */
  function Rewrites(calls: seq<Call>): nat {
    if calls == [] then 0
    else (if calls[0].Complete? then 1 else 0) + Rewrites(calls[1..])
  }

  lemma {:induction false} RewritesAppend(a: seq<Call>, b: seq<Call>)
    ensures Rewrites(a + b) == Rewrites(a) + Rewrites(b)
  {
    if a == [] {
      assert a + b == b;
    } else {
      assert (a + b)[1..] == a[1..] + b;
      RewritesAppend(a[1..], b);
    }
  }
}
