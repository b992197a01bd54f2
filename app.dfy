/** The two presentation helpers of the web front end (`app.py`): the CSS class
    for a confidence score and the HTML badge for the agent that answered. */
module App {
  import RouterAgent

  const High: string := "confidence-high"
  const Medium: string := "confidence-medium"
  const Low: string := "confidence-low"

  /** `get_confidence_class`: three tiers split at 0.7 and 0.4. */
  function ConfidenceClass(confidence: real): (cls: string)
    ensures cls in {High, Medium, Low}
  {
    if confidence >= 0.7 then High
    else if confidence >= 0.4 then Medium
    else Low
  }

  /** Each tier is taken on exactly its interval; anything below 0.4, negative
      scores included, is low. */
  lemma ConfidenceClassSpec(confidence: real)
    ensures ConfidenceClass(confidence) == High <==> 0.7 <= confidence
    ensures ConfidenceClass(confidence) == Medium <==> 0.4 <= confidence < 0.7
    ensures ConfidenceClass(confidence) == Low <==> confidence < 0.4
  {
  }

  /** The tiers in increasing order. */
  function TierRank(cls: string): nat {
    if cls == High then 2 else if cls == Medium then 1 else 0
  }

  /** A higher confidence never gets a lower tier. */
  lemma ConfidenceClassMonotone(a: real, b: real)
    requires a <= b
    ensures TierRank(ConfidenceClass(a)) <= TierRank(ConfidenceClass(b))
  {
    ConfidenceClassSpec(a);
    ConfidenceClassSpec(b);
  }

  /** `agent_classes`. */
  const AgentClasses: map<string, string> :=
    map["DocumentAgent" := "document-agent", "ExcelAgent" := "excel-agent", "QAAgent" := "qa-agent"]

  /** `agent_classes.get(agent_name, 'qa-agent')`. */
  function AgentClass(name: string): (cls: string)
    ensures name in AgentClasses ==> cls == AgentClasses[name]
    ensures name !in AgentClasses ==> cls == "qa-agent"
  {
    if name in AgentClasses then AgentClasses[name] else "qa-agent"
  }

  /** The three specialists get their own classes, named after the router's key
      for them; every other name, the router's own included, gets `qa-agent`. */
  lemma AgentClassSpec(name: string)
    ensures forall i :: 0 <= i < |RouterAgent.Registry| ==>
      AgentClass(RouterAgent.KindName(RouterAgent.Registry[i].1)) == RouterAgent.Registry[i].0 + "-agent"
    ensures name !in {"DocumentAgent", "ExcelAgent", "QAAgent"} ==> AgentClass(name) == "qa-agent"
    ensures AgentClass(name) in {"document-agent", "excel-agent", "qa-agent"}
  {
  }

  const BadgeOpen: string := "<span class=\"agent-badge "
  const BadgeMid: string := "\">"
  const BadgeClose: string := "</span>"

  /** `get_agent_badge`: a `span` whose class list holds the agent's class and
      whose content is the name exactly as given, not escaped. */
  function AgentBadge(name: string): (badge: string)
    ensures |badge| == |BadgeOpen| + |AgentClass(name)| + |BadgeMid| + |name| + |BadgeClose|
    ensures badge[..|BadgeOpen|] == BadgeOpen
    ensures badge[|BadgeOpen|..|BadgeOpen| + |AgentClass(name)|] == AgentClass(name)
    ensures badge[|BadgeOpen| + |AgentClass(name)|..|badge| - |name| - |BadgeClose|] == BadgeMid
    ensures badge[|badge| - |name| - |BadgeClose|..|badge| - |BadgeClose|] == name
    ensures badge[|badge| - |BadgeClose|..] == BadgeClose
  {
    BadgeOpen + AgentClass(name) + BadgeMid + name + BadgeClose
  }

  /** Different names give different badges: the first letter of the class tells
      the classes apart, and the name follows the class. */
  lemma AgentBadgeInjective(n1: string, n2: string)
    requires AgentBadge(n1) == AgentBadge(n2)
    ensures n1 == n2
  {
    var b := AgentBadge(n1);
    var c1, c2 := AgentClass(n1), AgentClass(n2);
    AgentClassSpec(n1);
    AgentClassSpec(n2);
    assert b[|BadgeOpen|] == c1[0] == c2[0];
    assert c1 == c2;
  }
}
