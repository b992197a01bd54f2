/** The agent for general documents (`agents/document_agent.py`): it keeps the
    retrieved hits that come from PDF, Word, PowerPoint or text files, reranks
    them to the best three, and answers from those. */
module DocumentAgent {
  import opened Wrappers
  import opened Records
  import opened BaseAgent

  const Name: string := "DocumentAgent"
  const Description: string := "Specialized in answering questions from PDF, DOCX, PPTX, and text documents"
  const SystemPrompt: string :=
    "You are a document analysis expert. Your role is to:\n"
    + "1. Carefully read and understand the provided document context\n"
    + "2. Answer questions accurately based on the context\n"
    + "3. Cite specific sources when possible\n"
    + "4. Indicate when information is not available in the context\n\n"
    + "Be precise, factual, and helpful in your responses."

  const DocumentTypes: seq<string> := [".pdf", ".docx", ".pptx", ".txt"]
  const NotFound: string := "I couldn't find any relevant information in the documents to answer your question."
  const ErrorAnswer: string := "I encountered an error while processing your question about the documents."

  /** The hit's `file_type` is one of the document extensions. */
  predicate IsDocument(h: Hit) {
    FileType(h).Some? && FileType(h).value.Str? && FileType(h).value.s in DocumentTypes
  }

  /** The hits that survive the file-type filter. */
  function Candidates(o: Oracles, query: string, topK: Option<int>): seq<Hit> {
    Filter(RetrieveContext(o, query, topK.GetOr(5)), IsDocument)
  }

  /** The candidates reranked to the best three. */
  function Kept(o: Oracles, query: string, topK: Option<int>): seq<Hit> {
    Rerank(query, Candidates(o, query, topK), 3)
  }

  /** `process_query`. `topK` is the `top_k` keyword argument, 5 when absent;
      retrieval runs unfiltered and the file types are checked afterwards. */
  function ProcessQuery(o: Oracles, query: string, topK: Option<int>): (r: AgentResult)
    ensures r.agent == Name && r.error.None? && r.dataType.None?
    ensures r.routerDecision.None? && r.availableAgents.None?
  {
    var context := Candidates(o, query, topK);
    if context == [] then Plain(NotFound, [], Name, 0.0)
    else
      var kept := Kept(o, query, topK);
      AgentResult(AgentAnswer(o, query, kept, SystemPrompt), kept, Name, MeanScore(kept),
                  Some(Sources(kept)), None, None, None, None)
  }

  /** The fixed "not found" record comes back exactly when no retrieved hit is a
      document; it is the only result without a source list. */
  lemma NotFoundExactly(o: Oracles, query: string, topK: Option<int>)
    ensures var hits := RetrieveContext(o, query, topK.GetOr(5));
      (forall i :: 0 <= i < |hits| ==> !IsDocument(hits[i]))
      <==> ProcessQuery(o, query, topK).sources.None?
    ensures ProcessQuery(o, query, topK).sources.None? ==>
      ProcessQuery(o, query, topK) == Plain(NotFound, [], Name, 0.0)
  {
    FilterEmpty(RetrieveContext(o, query, topK.GetOr(5)), IsDocument);
  }

  /** An answered query keeps the reranked candidates, at least one and at most
      three of them. */
  lemma AnsweredContext(o: Oracles, query: string, topK: Option<int>)
    requires ProcessQuery(o, query, topK).sources.Some?
    ensures ProcessQuery(o, query, topK).context == Kept(o, query, topK)
    ensures 1 <= |Kept(o, query, topK)| <= 3
  {
  }

  /** The kept hits are all documents drawn from the retrieved hits, in score
      order, each scoring at least as high as every candidate left out. */
  lemma KeptSpec(o: Oracles, query: string, topK: Option<int>)
    ensures forall i :: 0 <= i < |Kept(o, query, topK)| ==> IsDocument(Kept(o, query, topK)[i])
    ensures multiset(Kept(o, query, topK)) <= multiset(RetrieveContext(o, query, topK.GetOr(5)))
    ensures ByScore(Kept(o, query, topK))
    ensures forall i, j :: 0 <= i < |Kept(o, query, topK)| <= j < |Candidates(o, query, topK)| ==>
      Score(Kept(o, query, topK)[i]) >= Score(SortByScore(Candidates(o, query, topK))[j])
  {
    RerankSpec(query, Candidates(o, query, topK), 3);
    RerankFiltered(query, RetrieveContext(o, query, topK.GetOr(5)), IsDocument, 3);
  }

  /** The confidence of an answered query is the mean score of the kept hits, so
      it lies within any bounds on their scores; otherwise it is 0. */
  lemma Confidence(o: Oracles, query: string, topK: Option<int>, lo: real, hi: real)
    ensures var r := ProcessQuery(o, query, topK);
      r.sources.None? ==> r.confidence == 0.0
    ensures var r := ProcessQuery(o, query, topK);
      r.sources.Some? ==> r.context != [] && r.confidence == MeanScore(r.context)
    ensures var r := ProcessQuery(o, query, topK);
      r.sources.Some? && (forall i :: 0 <= i < |r.context| ==> lo <= Score(r.context[i]) <= hi) ==>
      lo <= r.confidence <= hi
  {
    var r := ProcessQuery(o, query, topK);
    if r.sources.Some? && forall i :: 0 <= i < |r.context| ==> lo <= Score(r.context[i]) <= hi {
      MeanScoreBetween(r.context, lo, hi);
    }
  }

  /** The sources of an answered query name the source of every kept hit once,
      and nothing else. */
  lemma AnsweredSources(o: Oracles, query: string, topK: Option<int>)
    requires ProcessQuery(o, query, topK).sources.Some?
    ensures ProcessQuery(o, query, topK).sources == Some(Sources(ProcessQuery(o, query, topK).context))
    ensures NoDuplicates(ProcessQuery(o, query, topK).sources.value)
    ensures forall i :: 0 <= i < |ProcessQuery(o, query, topK).context| ==>
      Source(ProcessQuery(o, query, topK).context[i]) in ProcessQuery(o, query, topK).sources.value
    ensures forall m :: m in ProcessQuery(o, query, topK).sources.value ==>
      exists i :: 0 <= i < |ProcessQuery(o, query, topK).context| && Source(ProcessQuery(o, query, topK).context[i]) == m
  {
    SourcesSpec(ProcessQuery(o, query, topK).context);
  }

  /** The record the `except` branch returns. */
  function ErrorResult(e: string): (r: AgentResult)
    ensures r.context == [] && r.confidence == 0.0 && r.agent == Name && r.error == Some(e)
  {
    AgentResult(ErrorAnswer, [], Name, 0.0, None, Some(e), None, None, None)
  }
}
