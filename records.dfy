/** The dictionaries the agents pass around: search hits and agent results. */
module Records {
  import opened Wrappers

  /** A metadata value; ingestion stores strings and integers. */
  datatype MetaValue = Str(s: string) | Int(n: int)

  type Metadata = map<string, MetaValue>

  /** One search hit `{text, metadata, score}`. The store reads the text with
      `entity.get("text")`, which may give no value. */
  datatype Hit = Hit(text: Option<string>, metadata: Metadata, score: Option<real>)

  /** `hit.get('score', 0)`: a missing score counts as 0. */
  function Score(h: Hit): real {
    h.score.GetOr(0.0)
  }

  /** `hit.get('metadata', {}).get('source', 'Unknown')`. */
  function Source(h: Hit): MetaValue {
    if "source" in h.metadata then h.metadata["source"] else Str("Unknown")
  }

  /** `hit.get('metadata', {}).get('file_type')`. */
  function FileType(h: Hit): Option<MetaValue> {
    if "file_type" in h.metadata then Some(h.metadata["file_type"]) else None
  }

  /** The result dictionary of an agent. Keys a result does not carry are `None`. */
  datatype AgentResult = AgentResult(
    answer: string,
    context: seq<Hit>,
    agent: string,
    confidence: real,
    sources: Option<seq<MetaValue>>,
    error: Option<string>,
    dataType: Option<string>,
    routerDecision: Option<string>,
    availableAgents: Option<seq<string>>)

  /** A result with only the keys every agent writes. */
  function Plain(answer: string, context: seq<Hit>, agent: string, confidence: real): AgentResult {
    AgentResult(answer, context, agent, confidence, None, None, None, None, None)
  }
}
