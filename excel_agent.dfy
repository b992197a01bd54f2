/** The agent for spreadsheets (`agents/excel_agent.py`): it keeps the retrieved
    hits that come from `.xlsx` files, reranks them to the best three, and
    answers from those, marking its answers as spreadsheet data. */
module ExcelAgent {
  import opened Wrappers
  import opened Records
  import opened BaseAgent

  const Name: string := "ExcelAgent"
  const Description: string := "Specialized in analyzing and answering questions about Excel spreadsheet data"
  const SystemPrompt: string :=
    "You are a data analysis expert specializing in spreadsheet data. Your role is to:\n"
    + "1. Analyze tabular data and statistics from Excel files\n"
    + "2. Answer questions about data trends, patterns, and specific values\n"
    + "3. Perform calculations and comparisons when needed\n"
    + "4. Provide insights based on the data presented\n\n"
    + "Be analytical, precise with numbers, and clear in your explanations."

  const NotFound: string := "I couldn't find any relevant information in the Excel files to answer your question."
  const ErrorAnswer: string := "I encountered an error while analyzing the Excel data."
  const DataType: string := "spreadsheet"

  /** The hit's `file_type` is `.xlsx`. */
  predicate IsSpreadsheet(h: Hit) {
    FileType(h) == Some(Str(".xlsx"))
  }

  /** The hits that survive the `.xlsx` filter. */
  function Candidates(o: Oracles, query: string, topK: Option<int>): seq<Hit> {
    Filter(RetrieveContext(o, query, topK.GetOr(5)), IsSpreadsheet)
  }

  /** The candidates reranked to the best three. */
  function Kept(o: Oracles, query: string, topK: Option<int>): seq<Hit> {
    Rerank(query, Candidates(o, query, topK), 3)
  }

  /** `process_query`. `topK` is the `top_k` keyword argument, 5 when absent;
      retrieval runs unfiltered and the file types are checked afterwards. */
  function ProcessQuery(o: Oracles, query: string, topK: Option<int>): (r: AgentResult)
    ensures r.agent == Name && r.error.None?
    ensures r.routerDecision.None? && r.availableAgents.None?
    ensures r.dataType.Some? <==> r.sources.Some?
    ensures r.dataType.Some? ==> r.dataType.value == DataType
  {
    var context := Candidates(o, query, topK);
    if context == [] then Plain(NotFound, [], Name, 0.0)
    else
      var kept := Kept(o, query, topK);
      AgentResult(AgentAnswer(o, query, kept, SystemPrompt), kept, Name, MeanScore(kept),
                  Some(Sources(kept)), None, Some(DataType), None, None)
  }

  /** The fixed "not found" record comes back exactly when no retrieved hit is
      from a spreadsheet; it is the only result without a source list. */
  lemma NotFoundExactly(o: Oracles, query: string, topK: Option<int>)
    ensures var hits := RetrieveContext(o, query, topK.GetOr(5));
      (forall i :: 0 <= i < |hits| ==> !IsSpreadsheet(hits[i]))
      <==> ProcessQuery(o, query, topK).sources.None?
    ensures ProcessQuery(o, query, topK).sources.None? ==>
      ProcessQuery(o, query, topK) == Plain(NotFound, [], Name, 0.0)
  {
    FilterEmpty(RetrieveContext(o, query, topK.GetOr(5)), IsSpreadsheet);
  }

  /** An answered query keeps the reranked candidates, at least one and at most
      three of them. */
  lemma AnsweredContext(o: Oracles, query: string, topK: Option<int>)
    requires ProcessQuery(o, query, topK).sources.Some?
    ensures ProcessQuery(o, query, topK).context == Kept(o, query, topK)
    ensures 1 <= |Kept(o, query, topK)| <= 3
  {
  }

  /** The kept hits are all spreadsheet hits drawn from the retrieved hits, in score
      order, each scoring at least as high as every candidate left out. */
  lemma KeptSpec(o: Oracles, query: string, topK: Option<int>)
    ensures forall i :: 0 <= i < |Kept(o, query, topK)| ==> IsSpreadsheet(Kept(o, query, topK)[i])
    ensures multiset(Kept(o, query, topK)) <= multiset(RetrieveContext(o, query, topK.GetOr(5)))
    ensures ByScore(Kept(o, query, topK))
    ensures forall i, j :: 0 <= i < |Kept(o, query, topK)| <= j < |Candidates(o, query, topK)| ==>
      Score(Kept(o, query, topK)[i]) >= Score(SortByScore(Candidates(o, query, topK))[j])
  {
    RerankSpec(query, Candidates(o, query, topK), 3);
    RerankFiltered(query, RetrieveContext(o, query, topK.GetOr(5)), IsSpreadsheet, 3);
  }

  /** The confidence of an answered query is the mean score of the kept hits, so
      it lies within any bounds on their scores; otherwise it is 0. */
  lemma Confidence(o: Oracles, query: string, topK: Option<int>, lo: real, hi: real)
    ensures var r := ProcessQuery(o, query, topK);
      r.sources.None? ==> r.confidence == 0.0
    ensures var r := ProcessQuery(o, query, topK);
      r.sources.Some? ==> r.context != [] && r.confidence == MeanScore(r.context)
    ensures var r := ProcessQuery(o, query, topK);
      r.sources.Some? && (forall i :: 0 <= i < |r.context| ==> lo <= Score(r.context[i]) <= hi) ==>
      lo <= r.confidence <= hi
  {
    var r := ProcessQuery(o, query, topK);
    if r.sources.Some? && forall i :: 0 <= i < |r.context| ==> lo <= Score(r.context[i]) <= hi {
      MeanScoreBetween(r.context, lo, hi);
    }
  }

  /** The sources of an answered query (the sheets' files) name the source of
      every kept hit once, and nothing else. */
  lemma AnsweredSources(o: Oracles, query: string, topK: Option<int>)
    requires ProcessQuery(o, query, topK).sources.Some?
    ensures ProcessQuery(o, query, topK).sources == Some(Sources(ProcessQuery(o, query, topK).context))
    ensures NoDuplicates(ProcessQuery(o, query, topK).sources.value)
    ensures forall i :: 0 <= i < |ProcessQuery(o, query, topK).context| ==>
      Source(ProcessQuery(o, query, topK).context[i]) in ProcessQuery(o, query, topK).sources.value
    ensures forall m :: m in ProcessQuery(o, query, topK).sources.value ==>
      exists i :: 0 <= i < |ProcessQuery(o, query, topK).context| && Source(ProcessQuery(o, query, topK).context[i]) == m
  {
    SourcesSpec(ProcessQuery(o, query, topK).context);
  }

  /** The record the `except` branch returns. */
  function ErrorResult(e: string): (r: AgentResult)
    ensures r.context == [] && r.confidence == 0.0 && r.agent == Name && r.error == Some(e)
  {
    AgentResult(ErrorAnswer, [], Name, 0.0, None, Some(e), None, None, None)
  }
}
