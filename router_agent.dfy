/** The router (`agents/router_agent.py`): it asks the generator which
    specialist should answer, reads the reply as one of `document`, `excel` or
    `qa`, runs that specialist and tags its result with the decision. */
module RouterAgent {
  import opened Wrappers
  import opened PyStr
  import opened Records
  import BaseAgent
  import Llm
  import DocumentAgent
  import ExcelAgent
  import QaAgent

  const Name: string := "RouterAgent"
  const Description: string := "Routes queries to the most appropriate specialized agent"
  const ErrorAnswer: string := "I encountered an error while routing your question."

  /** The choices the router recognises, in the order it looks for them. */
  const ValidAgents: seq<string> := ["document", "excel", "qa"]

  const PromptHead: string :=
    "Analyze the following user query and determine which type of agent should handle it.\n\n"
    + "Available agent types:\n"
    + "1. document - For questions about general documents (PDF, Word, PowerPoint, text files)\n"
    + "2. excel - For questions about spreadsheet data, tables, statistics, or numerical analysis\n"
    + "3. qa - For general questions that don't require specific document analysis\n\n"
    + "Query: "
  const PromptTail: string :=
    "\n\nImportant guidelines:\n"
    + "- Choose 'excel' if the query mentions data, numbers, statistics, tables, sheets, or analysis\n"
    + "- Choose 'document' if the query asks about text content, policies, presentations, or written information\n"
    + "- Choose 'qa' for general questions or when the type is unclear\n\n"
    + "Respond with ONLY one word: document, excel, or qa"

  /** The classification prompt: fixed instructions with the query in the middle. */
  function ClassificationPrompt(query: string): (r: string)
    ensures |r| == |PromptHead| + |query| + |PromptTail|
    ensures r[..|PromptHead|] == PromptHead
    ensures r[|PromptHead|..|PromptHead| + |query|] == query
    ensures r[|PromptHead| + |query|..] == PromptTail
  {
    PromptHead + query + PromptTail
  }

  // ---------------------------------------------------------------------------
  // Reading the reply

  /** The first of `names` that occurs in `response`, if any. */
  function FirstContained(response: string, names: seq<string>): (r: Option<string>)
    ensures r.Some? ==> r.value in names && Contains(response, r.value)
    ensures r.Some? ==> exists i :: (0 <= i < |names| && names[i] == r.value &&
                                     forall j :: 0 <= j < i ==> !Contains(response, names[j]))
    ensures r.None? ==> forall i :: 0 <= i < |names| ==> !Contains(response, names[i])
  {
    if names == [] then None
    else if Contains(response, names[0]) then Some(names[0])
    else
      var r := FirstContained(response, names[1..]);
      if r.Some? then
        var i :| (0 <= i < |names| - 1 && names[1..][i] == r.value &&
                  forall j :: 0 <= j < i ==> !Contains(response, names[1..][j]));
        assert names[i + 1] == r.value;
        assert forall j :: 0 < j <= i ==> names[j] == names[1..][j - 1];
        r
      else r
  }

  /** The reply as `_route_query` reads it: stripped and lower-cased. */
  function Normalize(reply: string): string {
    Lower(Strip(reply))
  }

  /** `_route_query` after the generator call: `None` stands for an exception
      (routed to `qa`); otherwise the first valid name the normalised reply
      contains, or `document` when it contains none. */
  function RouteReply(reply: Option<string>): (choice: string)
    ensures choice in ValidAgents
  {
    match reply
    case None => "qa"
    case Some(text) => FirstContained(Normalize(text), ValidAgents).GetOr("document")
  }

  /** The search over the three names, written out. */
  lemma RouteChoice(text: string)
    ensures RouteReply(Some(text)) ==
      if Contains(Normalize(text), "document") then "document"
      else if Contains(Normalize(text), "excel") then "excel"
      else if Contains(Normalize(text), "qa") then "qa"
      else "document"
  {
    var r := Normalize(text);
    assert ValidAgents[0] == "document" && ValidAgents[1..] == ["excel", "qa"];
    assert ["excel", "qa"][0] == "excel" && ["excel", "qa"][1..] == ["qa"];
    assert ["qa"][0] == "qa" && ["qa"][1..] == [];
    assert FirstContained(r, ["qa"]) == if Contains(r, "qa") then Some("qa") else None;
    assert FirstContained(r, ["excel", "qa"]) ==
      if Contains(r, "excel") then Some("excel") else FirstContained(r, ["qa"]);
    assert FirstContained(r, ValidAgents) ==
      if Contains(r, "document") then Some("document") else FirstContained(r, ["excel", "qa"]);
  }

  /** A reply is routed to `document` exactly when it mentions `document`, or
      mentions neither of the other two names. */
  lemma RouteDocument(text: string)
    ensures RouteReply(Some(text)) == "document" <==>
      Contains(Normalize(text), "document") ||
      (!Contains(Normalize(text), "excel") && !Contains(Normalize(text), "qa"))
  {
    RouteChoice(text);
  }

  /** A reply is routed to `excel` exactly when it mentions `excel` but not
      `document`, so `document` wins over `excel`. */
  lemma RouteExcel(text: string)
    ensures RouteReply(Some(text)) == "excel" <==>
      !Contains(Normalize(text), "document") && Contains(Normalize(text), "excel")
  {
    RouteChoice(text);
  }

  /** A reply is routed to `qa` exactly when it mentions `qa` and neither of the
      other two names. */
  lemma RouteQa(text: string)
    ensures RouteReply(Some(text)) == "qa" <==>
      !Contains(Normalize(text), "document") && !Contains(Normalize(text), "excel") &&
      Contains(Normalize(text), "qa")
  {
    RouteChoice(text);
  }

  /** A failing classification is routed to `qa`. */
  lemma RouteFailure()
    ensures RouteReply(None) == "qa"
  {
  }

  /** `_route_query`: `generate` catches the generator's failure itself, so the
      reply is always some text. */
  function RouteQuery(gen: Llm.Generator, query: string): (choice: string)
    ensures choice in ValidAgents
  {
    RouteReply(Some(Llm.Generate(gen, ClassificationPrompt(query), 0.1, 10)))
  }

  /** When the generator fails, the reply is "Generation failed.", which names no
      agent, so the query goes to `document` (not to the `qa` fallback). */
  lemma GeneratorFailureRoutesToDocument(gen: Llm.Generator, query: string)
    requires gen(ClassificationPrompt(query)).None?
    ensures RouteQuery(gen, query) == "document"
  {
    Llm.FailureMessageStripped();
    Llm.FailureMessageLetters();
    NoLetterRoutesToDocument(Llm.GenerationFailed);
  }

  /** A reply without `u`, `x` and `q` in either case, such as the failure
      message, names no agent and so goes to `document`. */
  lemma NoLetterRoutesToDocument(text: string)
    requires IsStripped(text)
    requires 'u' !in text && 'U' !in text && 'x' !in text && 'X' !in text
    requires 'q' !in text && 'Q' !in text
    ensures RouteReply(Some(text)) == "document"
  {
    NoLetterNoAgent(text);
    RouteChoice(text);
  }

  /** Normalising a reply without `u`, `x` and `q` in either case leaves none of
      the three names in it. */
  lemma NoLetterNoAgent(text: string)
    requires IsStripped(text)
    requires 'u' !in text && 'U' !in text && 'x' !in text && 'X' !in text
    requires 'q' !in text && 'Q' !in text
    ensures !Contains(Normalize(text), "document")
    ensures !Contains(Normalize(text), "excel")
    ensures !Contains(Normalize(text), "qa")
  {
    StrippedFixed(text);
    LowerKeepsOut(text, 'u');
    LowerKeepsOut(text, 'x');
    LowerKeepsOut(text, 'q');
    NoLetterNoName(Lower(text));
  }

  /** A reply without `u`, `x` and `q` names no agent. */
  lemma NoLetterNoName(response: string)
    requires 'u' !in response && 'x' !in response && 'q' !in response
    ensures !Contains(response, "document") && !Contains(response, "excel") && !Contains(response, "qa")
  {
    ContainedCharsOccur(response, "document", 3);
    ContainedCharsOccur(response, "excel", 1);
    ContainedCharsOccur(response, "qa", 0);
  }

  // ---------------------------------------------------------------------------
  // The registry and dispatch

  datatype AgentKind = DocumentKind | ExcelKind | QaKind

  /** `self.agents`, in registration order. */
  const Registry: seq<(string, AgentKind)> := [("document", DocumentKind), ("excel", ExcelKind), ("qa", QaKind)]

  /** `dict.get(key, default)` on an association list: the value of the first
      entry with that key, or the default. */
  function LookupIn(reg: seq<(string, AgentKind)>, key: string, default: AgentKind): (k: AgentKind)
    ensures (forall i :: 0 <= i < |reg| ==> reg[i].0 != key) ==> k == default
    ensures (exists i :: 0 <= i < |reg| && reg[i].0 == key) ==>
      exists i :: 0 <= i < |reg| && reg[i].0 == key && reg[i].1 == k &&
        forall j :: 0 <= j < i ==> reg[j].0 != key
  {
    if reg == [] then default
    else if reg[0].0 == key then reg[0].1
    else
      var k := LookupIn(reg[1..], key, default);
      assert forall i :: 1 <= i < |reg| ==> reg[i] == reg[1..][i - 1];
      k
  }

  /** `self.agents.get(agent_choice, qa_agent)`. */
  function Lookup(choice: string): AgentKind {
    LookupIn(Registry, choice, QaKind)
  }

  /** Each choice is dispatched to its own specialist; anything else goes to
      the QA agent. */
  lemma LookupSpec(choice: string)
    ensures choice == "document" <==> Lookup(choice) == DocumentKind
    ensures choice == "excel" <==> Lookup(choice) == ExcelKind
    ensures choice !in ValidAgents ==> Lookup(choice) == QaKind
  {
    if choice !in ValidAgents {
      assert forall i :: 0 <= i < |Registry| ==> Registry[i].0 != choice;
    }
  }

  /** `list(self.agents.keys())`. */
  function AgentKeys(): (keys: seq<string>)
    ensures |keys| == |Registry|
    ensures forall i :: 0 <= i < |keys| ==> keys[i] == Registry[i].0
  {
    seq(|Registry|, i requires 0 <= i < |Registry| => Registry[i].0)
  }

  /** The registered keys are exactly the router's choices, in the same order. */
  lemma KeysAreChoices()
    ensures AgentKeys() == ValidAgents
  {
    assert AgentKeys() == ValidAgents;
  }

  /** Every choice the router makes has its own registry entry, so the default
      of the lookup is never taken. */
  lemma ChoiceRegistered(gen: Llm.Generator, query: string)
    ensures exists i :: 0 <= i < |Registry| && Registry[i].0 == RouteQuery(gen, query)
  {
    KeysAreChoices();
    assert RouteQuery(gen, query) in AgentKeys();
  }

  function KindName(kind: AgentKind): string {
    match kind
    case DocumentKind => DocumentAgent.Name
    case ExcelKind => ExcelAgent.Name
    case QaKind => QaAgent.Name
  }

  function KindDescription(kind: AgentKind): string {
    match kind
    case DocumentKind => DocumentAgent.Description
    case ExcelKind => ExcelAgent.Description
    case QaKind => QaAgent.Description
  }

  /** The specialist's `process_query`. */
  function Specialist(kind: AgentKind, o: BaseAgent.Oracles, query: string, topK: Option<int>): (r: AgentResult)
    ensures r.agent == KindName(kind)
    ensures r.routerDecision.None? && r.availableAgents.None?
  {
    match kind
    case DocumentKind => DocumentAgent.ProcessQuery(o, query, topK)
    case ExcelKind => ExcelAgent.ProcessQuery(o, query, topK)
    case QaKind => QaAgent.ProcessQuery(o, query, topK)
  }

  /** `process_query`: route, run the chosen specialist, then add the routing
      decision and the registered keys to its result. Nothing else of the
      specialist's result changes. */
  method ProcessQuery(o: BaseAgent.Oracles, query: string, topK: Option<int>) returns (result: AgentResult)
    ensures result.routerDecision == Some(RouteQuery(o.gen, query))
    ensures result.availableAgents == Some(ValidAgents)
    ensures result == Specialist(Lookup(RouteQuery(o.gen, query)), o, query, topK)
      .(routerDecision := result.routerDecision, availableAgents := result.availableAgents)
  {
    var choice := RouteQuery(o.gen, query);
    result := Specialist(Lookup(choice), o, query, topK);
    result := result.(routerDecision := Some(choice));
    KeysAreChoices();
    result := result.(availableAgents := Some(AgentKeys()));
  }

  /** The record the `except` branch of `process_query` returns. */
  function ErrorResult(e: string): (r: AgentResult)
    ensures r.context == [] && r.confidence == 0.0 && r.agent == Name && r.error == Some(e)
  {
    AgentResult(ErrorAnswer, [], Name, 0.0, None, Some(e), None, None, None)
  }

  /** `get_agent_info`: the name and description of every registered agent, in
      registration order. */
  function GetAgentInfo(): (info: seq<(string, string)>)
    ensures |info| == |Registry|
    ensures forall i :: 0 <= i < |info| ==>
      info[i] == (KindName(Registry[i].1), KindDescription(Registry[i].1))
  {
    seq(|Registry|, i requires 0 <= i < |Registry| => (KindName(Registry[i].1), KindDescription(Registry[i].1)))
  }

  /** The names listed are the ones each specialist puts in its results, and no
      two registered agents share a name. */
  lemma AgentInfoNames(o: BaseAgent.Oracles, query: string, topK: Option<int>)
    ensures forall i :: 0 <= i < |GetAgentInfo()| ==>
      GetAgentInfo()[i].0 == Specialist(Registry[i].1, o, query, topK).agent
    ensures forall i, j :: 0 <= i < j < |GetAgentInfo()| ==> GetAgentInfo()[i].0 != GetAgentInfo()[j].0
  {
  }
}
