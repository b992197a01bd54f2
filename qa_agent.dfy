/** The general question-answering agent (`agents/qa_agent.py`): it uses every
    retrieved hit, reranked to the best three, and when retrieval gives nothing
    it asks the generator directly. */
module QaAgent {
  import opened Wrappers
  import opened Records
  import opened BaseAgent
  import Llm

  const Name: string := "QAAgent"
  const Description: string := "Handles general questions and provides context-aware answers"
  const SystemPrompt: string :=
    "You are a helpful AI assistant. Your role is to:\n"
    + "1. Answer questions clearly and concisely\n"
    + "2. Use provided context when available\n"
    + "3. Admit when you don't have enough information\n"
    + "4. Be helpful and informative\n\n"
    + "Provide accurate and useful responses."
  const ErrorAnswer: string := "I encountered an error while processing your question."

  const QuestionTag: string := "\n\nQuestion: "
  const AnswerTag: string := "\n\nAnswer:"

  /** The prompt of the direct call: the system prompt, the question, and an
      answer cue. */
  function DirectPrompt(query: string): (r: string)
    ensures |r| == |SystemPrompt| + |query| + 21
    ensures r[..|SystemPrompt|] == SystemPrompt
    ensures r[|SystemPrompt|..|SystemPrompt| + 12] == QuestionTag
    ensures r[|SystemPrompt| + 12..|r| - 9] == query && r[|r| - 9..] == AnswerTag
  {
    SystemPrompt + QuestionTag + query + AnswerTag
  }

  /** The retrieved hits, with `top_k` 5 when absent. */
  function Retrieved(o: Oracles, query: string, topK: Option<int>): seq<Hit> {
    RetrieveContext(o, query, topK.GetOr(5))
  }

  /** The retrieved hits reranked to the best three. */
  function Kept(o: Oracles, query: string, topK: Option<int>): seq<Hit> {
    Rerank(query, Retrieved(o, query, topK), 3)
  }

  /** `process_query`. Every result carries a source list. */
  function ProcessQuery(o: Oracles, query: string, topK: Option<int>): (r: AgentResult)
    ensures r.agent == Name && r.error.None? && r.dataType.None? && r.sources.Some?
    ensures r.routerDecision.None? && r.availableAgents.None?
  {
    if Retrieved(o, query, topK) == [] then
      AgentResult(Llm.Generate(o.gen, DirectPrompt(query), 0.7, 512), [], Name, 0.0,
                  Some([]), None, None, None, None)
    else
      var kept := Kept(o, query, topK);
      AgentResult(AgentAnswer(o, query, kept, SystemPrompt), kept, Name, MeanScore(kept),
                  Some(Sources(kept)), None, None, None, None)
  }

  /** Without retrieved hits the answer is the generator's reply to the direct
      prompt (or its failure message), with no context, confidence 0 and no
      sources; it is never a fixed "not found" text. */
  lemma NoContext(o: Oracles, query: string, topK: Option<int>)
    requires Retrieved(o, query, topK) == []
    ensures ProcessQuery(o, query, topK).context == []
    ensures ProcessQuery(o, query, topK).confidence == 0.0
    ensures ProcessQuery(o, query, topK).sources == Some([])
    ensures o.gen(DirectPrompt(query)).Some? ==>
      ProcessQuery(o, query, topK).answer == o.gen(DirectPrompt(query)).value
    ensures o.gen(DirectPrompt(query)).None? ==>
      ProcessQuery(o, query, topK).answer == Llm.GenerationFailed
  {
  }

  /** With retrieved hits the context is the best three of them, never empty. */
  lemma AnsweredContext(o: Oracles, query: string, topK: Option<int>)
    requires Retrieved(o, query, topK) != []
    ensures ProcessQuery(o, query, topK).context == Kept(o, query, topK)
    ensures |Kept(o, query, topK)| == Min(3, |Retrieved(o, query, topK)|)
    ensures ProcessQuery(o, query, topK).confidence == MeanScore(Kept(o, query, topK))
  {
  }

  /** The context is empty exactly when retrieval gives nothing. */
  lemma ContextEmptyExactly(o: Oracles, query: string, topK: Option<int>)
    ensures ProcessQuery(o, query, topK).context == [] <==> Retrieved(o, query, topK) == []
  {
    if Retrieved(o, query, topK) != [] {
      AnsweredContext(o, query, topK);
    }
  }

  /** The kept hits are drawn from the retrieved hits, in score order, each
      scoring at least as high as every retrieved hit left out. */
  lemma KeptSpec(o: Oracles, query: string, topK: Option<int>)
    ensures multiset(Kept(o, query, topK)) <= multiset(Retrieved(o, query, topK))
    ensures ByScore(Kept(o, query, topK))
    ensures forall i, j :: 0 <= i < |Kept(o, query, topK)| <= j < |Retrieved(o, query, topK)| ==>
      Score(Kept(o, query, topK)[i]) >= Score(SortByScore(Retrieved(o, query, topK))[j])
  {
    RerankSpec(query, Retrieved(o, query, topK), 3);
  }

  /** The confidence lies within any bounds on the context's scores, and is 0
      without context. */
  lemma Confidence(o: Oracles, query: string, topK: Option<int>, lo: real, hi: real)
    ensures ProcessQuery(o, query, topK).context == [] ==> ProcessQuery(o, query, topK).confidence == 0.0
    ensures (ProcessQuery(o, query, topK).context != [] &&
             forall i :: 0 <= i < |ProcessQuery(o, query, topK).context| ==>
               lo <= Score(ProcessQuery(o, query, topK).context[i]) <= hi)
      ==> lo <= ProcessQuery(o, query, topK).confidence <= hi
  {
    ContextEmptyExactly(o, query, topK);
    if Retrieved(o, query, topK) != [] {
      AnsweredContext(o, query, topK);
      if forall i :: 0 <= i < |Kept(o, query, topK)| ==> lo <= Score(Kept(o, query, topK)[i]) <= hi {
        MeanScoreBetween(Kept(o, query, topK), lo, hi);
      }
    }
  }

  /** The sources name the source of every context hit once, and nothing else;
      without context they are empty. */
  lemma ContextSources(o: Oracles, query: string, topK: Option<int>)
    ensures ProcessQuery(o, query, topK).sources == Some(Sources(ProcessQuery(o, query, topK).context))
    ensures NoDuplicates(ProcessQuery(o, query, topK).sources.value)
    ensures forall i :: 0 <= i < |ProcessQuery(o, query, topK).context| ==>
      Source(ProcessQuery(o, query, topK).context[i]) in ProcessQuery(o, query, topK).sources.value
    ensures forall m :: m in ProcessQuery(o, query, topK).sources.value ==>
      exists i :: 0 <= i < |ProcessQuery(o, query, topK).context| && Source(ProcessQuery(o, query, topK).context[i]) == m
  {
    SourcesSpec(ProcessQuery(o, query, topK).context);
  }

  /** The record the `except` branch returns. */
  function ErrorResult(e: string): (r: AgentResult)
    ensures r.context == [] && r.confidence == 0.0 && r.agent == Name && r.error == Some(e)
  {
    AgentResult(ErrorAnswer, [], Name, 0.0, None, Some(e), None, None, None)
  }
}
