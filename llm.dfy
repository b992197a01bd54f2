/** The text generator's interface (`core/llm.py`): the failure fallback of
    `generate`, the answer prompt and its context string, `classify_query` and
    `extract_keywords`. The model behind the pipeline is an oracle. */
module Llm {
  import opened Wrappers
  import opened PyStr
  import opened Records

  /** The generation pipeline: `Some(text)` when it produces text, `None` when it
      raises. */
  type Generator = string -> Option<string>

  const GenerationFailed: string := "Generation failed."

  /** `generate`: the pipeline's text, or the fixed failure message when the
      pipeline raises. Temperature and token limit are not passed on. */
  function Generate(gen: Generator, prompt: string, temperature: real, maxTokens: int): (r: string)
    ensures gen(prompt).Some? ==> r == gen(prompt).value
    ensures gen(prompt).None? ==> r == GenerationFailed
  {
    match gen(prompt)
    case Some(text) => text
    case None => GenerationFailed
  }

  /** The failure message has no whitespace at either end. */
  lemma FailureMessageStripped()
    ensures IsStripped(GenerationFailed)
  {
  }

  /** The failure message has none of the letters `u`, `x` and `q`, in either
      case. */
  lemma FailureMessageLetters()
    ensures 'u' !in GenerationFailed && 'U' !in GenerationFailed
    ensures 'x' !in GenerationFailed && 'X' !in GenerationFailed
    ensures 'q' !in GenerationFailed && 'Q' !in GenerationFailed
  {
    var m := GenerationFailed;
    assert forall i :: 0 <= i < |m| ==> m[i] != 'u' && m[i] != 'U' && m[i] != 'x';
    assert forall i :: 0 <= i < |m| ==> m[i] != 'X' && m[i] != 'q' && m[i] != 'Q';
  }

  /** Whatever temperature and token limit are asked for, the same prompt gives
      the same text. */
  lemma GenerateIgnoresSettings(gen: Generator, prompt: string, t1: real, m1: int, t2: real, m2: int)
    ensures Generate(gen, prompt, t1, m1) == Generate(gen, prompt, t2, m2)
  {
  }

  /** `chunk["text"] for chunk in context`: every text, or `None` when some hit
      has none (the lookup or the join then raises). */
  function Texts(context: seq<Hit>): (r: Option<seq<string>>)
    ensures r.Some? ==> |r.value| == |context|
  {
    if forall i :: 0 <= i < |context| ==> context[i].text.Some? then
      Some(seq(|context|, i requires 0 <= i < |context| => context[i].text.value))
    else None
  }

  /** `"\n\n".join(...)` over the hits' texts. */
  function ContextString(context: seq<Hit>): (r: Option<string>)
    ensures r.Some? <==> Texts(context).Some?
  {
    match Texts(context)
    case Some(ts) => Some(Join("\n\n", ts))
    case None => None
  }

  /** The context string keeps the hits in their input order: the string of
      `a + b` is that of `a`, a blank line, then that of `b`. */
  lemma ContextStringAppend(a: seq<Hit>, b: seq<Hit>)
    requires a != [] && b != []
    requires ContextString(a).Some? && ContextString(b).Some?
    ensures ContextString(a + b) == Some(ContextString(a).value + "\n\n" + ContextString(b).value)
  {
    TextsAppend(a, b);
    JoinAppend("\n\n", Texts(a).value, Texts(b).value);
  }

  lemma TextsAppend(a: seq<Hit>, b: seq<Hit>)
    requires Texts(a).Some? && Texts(b).Some?
    ensures Texts(a + b) == Some(Texts(a).value + Texts(b).value)
  {
    var ab := a + b;
    forall i | 0 <= i < |ab|
      ensures ab[i].text.Some?
    {
      if i < |a| {
        assert ab[i] == a[i];
      } else {
        assert ab[i] == b[i - |a|];
      }
    }
    var t, u := Texts(ab).value, Texts(a).value + Texts(b).value;
    assert |t| == |u|;
    forall i | 0 <= i < |t|
      ensures t[i] == u[i]
    {
      if i < |a| {
        assert ab[i] == a[i];
      } else {
        assert ab[i] == b[i - |a|];
      }
    }
    assert t == u;
  }

  /** The context string of one hit is its text; its length is that of all the
      texts plus two for each blank line between them. */
  lemma ContextStringLength(context: seq<Hit>)
    requires context != [] && ContextString(context).Some?
    ensures |ContextString(context).value| == TotalLength(Texts(context).value) + 2 * (|context| - 1)
    ensures |context| == 1 ==> ContextString(context).value == context[0].text.value
  {
    JoinLength("\n\n", Texts(context).value);
  }

  const ContextHeader: string := "\nContext:\n"
  const QuestionHeader: string := "\n\nQuestion:\n"
  const AnswerHeader: string := "\n\nAnswer:\n"

  /** The answer prompt: a context header, the context, a question header, the
      query and an answer header, each on its own lines. */
  function AnswerPrompt(context: string, query: string): (r: string)
    ensures |r| == |context| + |query| + 32
    ensures r[..10] == ContextHeader && r[10..10 + |context|] == context
    ensures r[10 + |context|..22 + |context|] == QuestionHeader
    ensures r[22 + |context|..|r| - 10] == query && r[|r| - 10..] == AnswerHeader
  {
    ContextHeader + context + QuestionHeader + query + AnswerHeader
  }

  /** `generate_answer`: the generator's text for the answer prompt, or `None`
      when building the context string raises. The system prompt is accepted but
      not used. */
  function GenerateAnswer(gen: Generator, query: string, context: seq<Hit>, systemPrompt: Option<string>): (r: Option<string>)
    ensures r.Some? <==> forall i :: 0 <= i < |context| ==> context[i].text.Some?
    ensures r.Some? ==> r.value == Generate(gen, AnswerPrompt(ContextString(context).value, query), 0.7, 512)
  {
    match ContextString(context)
    case Some(ctx) => Some(Generate(gen, AnswerPrompt(ctx, query), 0.7, 512))
    case None => None
  }

  /** The system prompt has no effect on the answer. */
  lemma SystemPromptIgnored(gen: Generator, query: string, context: seq<Hit>, s1: Option<string>, s2: Option<string>)
    ensures GenerateAnswer(gen, query, context, s1) == GenerateAnswer(gen, query, context, s2)
  {
  }

  /** `classify_query`: the first category; indexing an empty list raises. */
  function ClassifyQuery(query: string, categories: seq<string>): (r: Option<string>)
    ensures r.Some? <==> categories != []
    ensures r.Some? ==> r.value in categories && r.value == categories[0]
  {
    if categories == [] then None else Some(categories[0])
  }

  /** `extract_keywords`: the first `maxKeywords` words of the whitespace split
      (`words[:maxKeywords]`, so a negative limit drops that many from the end). */
  function ExtractKeywords(text: string, maxKeywords: int): (r: seq<string>)
    ensures r <= Split(text)
    ensures maxKeywords >= 0 ==>
      |r| == if maxKeywords < |Split(text)| then maxKeywords else |Split(text)|
    ensures maxKeywords < 0 ==>
      |r| == if |Split(text)| + maxKeywords > 0 then |Split(text)| + maxKeywords else 0
  {
    SliceTo(Split(text), maxKeywords)
  }

  /** The keywords are whole words in text order: non-empty, without whitespace,
      and, put back together, a prefix of the text's non-space characters. With
      a limit at least the number of words, every word is a keyword. */
  lemma ExtractKeywordsSpec(text: string, maxKeywords: int)
    ensures forall i :: 0 <= i < |ExtractKeywords(text, maxKeywords)| ==>
      ExtractKeywords(text, maxKeywords)[i] != [] && NoSpace(ExtractKeywords(text, maxKeywords)[i])
    ensures Concat(ExtractKeywords(text, maxKeywords)) <= NonSpace(text)
    ensures maxKeywords >= |Split(text)| ==> Concat(ExtractKeywords(text, maxKeywords)) == NonSpace(text)
  {
    var words := Split(text);
    var r := ExtractKeywords(text, maxKeywords);
    SplitKeepsContent(text);
    assert words == r + words[|r|..];
    ConcatAppend(r, words[|r|..]);
  }
}
