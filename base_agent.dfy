/** What every agent shares (`agents/base_agent.py`): retrieval with its
    fallback, reranking by score, answer generation with its fallback, and the
    confidence and source lists the specialists compute from the kept hits. */
module BaseAgent {
  import opened Wrappers
  import opened PyStr
  import opened Records
  import Llm

  /** The embedding model: a vector for the query, or `None` when it raises. */
  type Embedder = string -> Option<seq<real>>

  /** The vector store's search: the hits for a query vector and a `top_k`, or
      `None` when it raises. */
  type Searcher = (seq<real>, int) -> Option<seq<Hit>>

  /** The three external services an agent calls. */
  datatype Oracles = Oracles(embed: Embedder, search: Searcher, gen: Llm.Generator)

  /** `retrieve_context`: the store's hits for the query's embedding, or no hits
      when embedding or search raises. */
  function RetrieveContext(o: Oracles, query: string, topK: int): (r: seq<Hit>)
    ensures o.embed(query).None? ==> r == []
    ensures o.embed(query).Some? && o.search(o.embed(query).value, topK).None? ==> r == []
    ensures r == [] || (o.embed(query).Some? && o.search(o.embed(query).value, topK) == Some(r))
  {
    match o.embed(query)
    case None => []
    case Some(v) =>
      match o.search(v, topK)
      case None => []
      case Some(hits) => hits
  }

  /** `[c for c in hits if keep(c)]`. */
  function Filter(hs: seq<Hit>, keep: Hit -> bool): (r: seq<Hit>)
    ensures |r| <= |hs| && forall i :: 0 <= i < |r| ==> keep(r[i])
  {
    if hs == [] then []
    else (if keep(hs[0]) then [hs[0]] else []) + Filter(hs[1..], keep)
  }

  /** The filter keeps every hit that passes, as often as it occurs, drops every
      other hit, and keeps the input order. */
  lemma {:induction false} FilterSpec(hs: seq<Hit>, keep: Hit -> bool)
    ensures forall h :: multiset(Filter(hs, keep))[h] == if keep(h) then multiset(hs)[h] else 0
  {
    if hs != [] {
      FilterSpec(hs[1..], keep);
      var first := if keep(hs[0]) then [hs[0]] else [];
      assert multiset(hs) == multiset{hs[0]} + multiset(hs[1..]) by {
        assert hs == [hs[0]] + hs[1..];
      }
      assert multiset(Filter(hs, keep)) == multiset(first) + multiset(Filter(hs[1..], keep));
    }
  }

  /** The filter keeps nothing exactly when no hit passes. */
  lemma {:induction false} FilterEmpty(hs: seq<Hit>, keep: Hit -> bool)
    ensures Filter(hs, keep) == [] <==> forall i :: 0 <= i < |hs| ==> !keep(hs[i])
  {
    if hs != [] {
      FilterEmpty(hs[1..], keep);
      if !keep(hs[0]) {
        assert forall i :: 1 <= i < |hs| ==> hs[i] == hs[1..][i - 1];
      }
    }
  }

  lemma {:induction false} FilterAppend(a: seq<Hit>, b: seq<Hit>, keep: Hit -> bool)
    ensures Filter(a + b, keep) == Filter(a, keep) + Filter(b, keep)
  {
    if a == [] {
      assert a + b == b;
    } else {
      assert (a + b)[0] == a[0] && (a + b)[1..] == a[1..] + b;
      FilterAppend(a[1..], b, keep);
      var h := if keep(a[0]) then [a[0]] else [];
      calc {
        Filter(a + b, keep);
        h + Filter(a[1..] + b, keep);
        h + (Filter(a[1..], keep) + Filter(b, keep));
        (h + Filter(a[1..], keep)) + Filter(b, keep);
      }
    }
  }

  // ---------------------------------------------------------------------------
  // Reranking: `sorted(results, key=score, reverse=True)[:top_k]`

  /** Scores never increase along `hs`. */
  predicate ByScore(hs: seq<Hit>) {
    forall i, j :: 0 <= i < j < |hs| ==> Score(hs[i]) >= Score(hs[j])
  }

  /** Inserts `h`, which came before every hit of `hs` in the input, in front of
      the first hit whose score is not higher, so that it stays ahead of the hits
      it ties with. */
  function InsertByScore(h: Hit, hs: seq<Hit>): (r: seq<Hit>)
    ensures |r| == |hs| + 1 && multiset(r) == multiset(hs) + multiset{h}
  {
    if hs == [] || Score(h) >= Score(hs[0]) then [h] + hs
    else
      assert hs == [hs[0]] + hs[1..];
      [hs[0]] + InsertByScore(h, hs[1..])
  }

  /** Python's `sorted` on the score, descending: an insertion sort from the
      back, which keeps tied hits in their input order. */
  function SortByScore(hs: seq<Hit>): (r: seq<Hit>)
    ensures |r| == |hs| && multiset(r) == multiset(hs)
  {
    if hs == [] then []
    else
      assert hs == [hs[0]] + hs[1..];
      InsertByScore(hs[0], SortByScore(hs[1..]))
  }

  lemma {:induction false} InsertByScoreSorted(h: Hit, hs: seq<Hit>)
    requires ByScore(hs)
    ensures ByScore(InsertByScore(h, hs))
    ensures InsertByScore(h, hs)[0] == h || InsertByScore(h, hs)[0] == hs[0]
  {
    if hs != [] && Score(h) < Score(hs[0]) {
      InsertByScoreSorted(h, hs[1..]);
    }
  }

  /** The sorted hits are in non-increasing score order. */
  lemma {:induction false} SortByScoreSorted(hs: seq<Hit>)
    ensures ByScore(SortByScore(hs))
  {
    if hs != [] {
      SortByScoreSorted(hs[1..]);
      InsertByScoreSorted(hs[0], SortByScore(hs[1..]));
    }
  }

  /** The hits of `hs` whose score is `v`, in order. */
  function WithScore(hs: seq<Hit>, v: real): seq<Hit> {
    if hs == [] then []
    else (if Score(hs[0]) == v then [hs[0]] else []) + WithScore(hs[1..], v)
  }

  lemma {:induction false} InsertByScoreStable(h: Hit, hs: seq<Hit>, v: real)
    requires ByScore(hs)
    ensures WithScore(InsertByScore(h, hs), v) == (if Score(h) == v then [h] else []) + WithScore(hs, v)
  {
    var r := InsertByScore(h, hs);
    if hs == [] || Score(h) >= Score(hs[0]) {
      assert r[0] == h && r[1..] == hs;
    } else {
      InsertByScoreStable(h, hs[1..], v);
      assert r[0] == hs[0] && r[1..] == InsertByScore(h, hs[1..]);
      if Score(h) == v {
        // Every hit ahead of the insertion point scores higher than `h`.
        assert Score(hs[0]) != v;
      }
    }
  }

  /** The sort is stable: for every score, the hits with that score come out in
      the order they went in. */
  lemma {:induction false} SortByScoreStable(hs: seq<Hit>, v: real)
    ensures WithScore(SortByScore(hs), v) == WithScore(hs, v)
  {
    if hs != [] {
      SortByScoreStable(hs[1..], v);
      SortByScoreSorted(hs[1..]);
      InsertByScoreStable(hs[0], SortByScore(hs[1..]), v);
    }
  }

  /** `rerank_results`: no hits give no hits; otherwise the `topK` best-scored
      hits, best first (see `RerankSpec`). */
  function Rerank(query: string, results: seq<Hit>, topK: int): (r: seq<Hit>)
    ensures r <= SortByScore(results)
    ensures topK >= 0 ==> |r| == Min(topK, |results|)
  {
    if results == [] then [] else SliceTo(SortByScore(results), topK)
  }

  /** With a negative `topK`, `rerank_results` follows Python's slice rule and
      drops that many of the lowest-scored hits. */
  lemma RerankNegative(query: string, results: seq<Hit>, topK: int)
    requires topK < 0
    ensures |Rerank(query, results, topK)| == Max(|results| + topK, 0)
  {
  }

  function Min(a: int, b: int): int {
    if a < b then a else b
  }

  function Max(a: int, b: int): int {
    if a < b then b else a
  }

  /** The kept hits are in score order, are drawn from the input, and score at
      least as high as every hit left out (the rest of the sorted input); hits
      with equal scores keep their input order. */
  lemma RerankSpec(query: string, results: seq<Hit>, topK: int)
    ensures ByScore(Rerank(query, results, topK))
    ensures multiset(Rerank(query, results, topK)) <= multiset(results)
    ensures multiset(Rerank(query, results, topK)) + multiset(SortByScore(results)[|Rerank(query, results, topK)|..])
      == multiset(results)
    ensures forall i, j :: 0 <= i < |Rerank(query, results, topK)| <= j < |results| ==>
      Score(Rerank(query, results, topK)[i]) >= Score(SortByScore(results)[j])
    ensures forall v :: WithScore(Rerank(query, results, topK), v) <= WithScore(results, v)
  {
    var s := SortByScore(results);
    var r := Rerank(query, results, topK);
    SortByScoreSorted(results);
    assert s == r + s[|r|..];
    MultisetPrefix(r, s);
    forall v
      ensures WithScore(r, v) <= WithScore(results, v)
    {
      SortByScoreStable(results, v);
      WithScoreAppend(r, s[|r|..], v);
    }
  }

  /** Reranking the hits that pass a filter keeps only hits that pass it, drawn
      from the unfiltered hits. */
  lemma RerankFiltered(query: string, hits: seq<Hit>, keep: Hit -> bool, topK: int)
    ensures forall i :: 0 <= i < |Rerank(query, Filter(hits, keep), topK)| ==>
      keep(Rerank(query, Filter(hits, keep), topK)[i])
    ensures multiset(Rerank(query, Filter(hits, keep), topK)) <= multiset(hits)
  {
    var context := Filter(hits, keep);
    var kept := Rerank(query, context, topK);
    RerankSpec(query, context, topK);
    FilterSpec(hits, keep);
    forall i | 0 <= i < |kept|
      ensures keep(kept[i])
    {
      assert kept[i] in multiset(context);
    }
    forall h
      ensures multiset(kept)[h] <= multiset(hits)[h]
    {
      assert multiset(kept)[h] <= multiset(context)[h];
    }
  }

  lemma MultisetPrefix(r: seq<Hit>, s: seq<Hit>)
    requires r <= s
    ensures multiset(r) <= multiset(s)
  {
    assert s == r + s[|r|..];
  }

  lemma {:induction false} WithScoreAppend(a: seq<Hit>, b: seq<Hit>, v: real)
    ensures WithScore(a + b, v) == WithScore(a, v) + WithScore(b, v)
  {
    if a == [] {
      assert a + b == b;
    } else {
      assert (a + b)[0] == a[0] && (a + b)[1..] == a[1..] + b;
      WithScoreAppend(a[1..], b, v);
      var h := if Score(a[0]) == v then [a[0]] else [];
      calc {
        WithScore(a + b, v);
        h + WithScore(a[1..] + b, v);
        h + (WithScore(a[1..], v) + WithScore(b, v));
        (h + WithScore(a[1..], v)) + WithScore(b, v);
      }
    }
  }

  // ---------------------------------------------------------------------------
  // Confidence and sources of the kept hits

  function SumScores(hs: seq<Hit>): real {
    if hs == [] then 0.0 else Score(hs[0]) + SumScores(hs[1..])
  }

  /** `sum(c.get('score', 0) for c in context) / len(context)`, on a non-empty
      context. */
  function MeanScore(hs: seq<Hit>): real
    requires hs != []
  {
    SumScores(hs) / (|hs| as real)
  }

  lemma {:induction false} SumScoresBounds(hs: seq<Hit>, lo: real, hi: real)
    requires forall i :: 0 <= i < |hs| ==> lo <= Score(hs[i]) <= hi
    ensures (|hs| as real) * lo <= SumScores(hs) <= (|hs| as real) * hi
  {
    if hs != [] {
      SumScoresBounds(hs[1..], lo, hi);
      assert (|hs| as real) * lo == lo + (|hs[1..]| as real) * lo;
      assert (|hs| as real) * hi == hi + (|hs[1..]| as real) * hi;
    }
  }

  /** The mean of the scores is not clamped: it lies between any lower and upper
      bound of the scores, so between the lowest and the highest score. */
  lemma MeanScoreBetween(hs: seq<Hit>, lo: real, hi: real)
    requires hs != []
    requires forall i :: 0 <= i < |hs| ==> lo <= Score(hs[i]) <= hi
    ensures lo <= MeanScore(hs) <= hi
  {
    SumScoresBounds(hs, lo, hi);
    var n := |hs| as real;
    assert SumScores(hs) / n >= lo by {
      assert SumScores(hs) >= n * lo;
    }
    assert SumScores(hs) / n <= hi by {
      assert SumScores(hs) <= n * hi;
    }
  }

  /** `list(set(xs))`: each value once (see `DistinctSpec`). */
  function Distinct<T(==)>(xs: seq<T>): (r: seq<T>)
  {
    if xs == [] then []
    else if xs[0] in xs[1..] then Distinct(xs[1..])
    else [xs[0]] + Distinct(xs[1..])
  }

  predicate NoDuplicates<T(==)>(xs: seq<T>) {
    forall i, j :: 0 <= i < j < |xs| ==> xs[i] != xs[j]
  }

  /** The distinct list holds exactly the values of the input, each once. */
  lemma {:induction false} DistinctSpec<T>(xs: seq<T>)
    ensures forall x :: x in Distinct(xs) <==> x in xs
    ensures NoDuplicates(Distinct(xs))
  {
    if xs != [] {
      DistinctSpec(xs[1..]);
      assert xs == [xs[0]] + xs[1..];
    }
  }

  /** The source names of the hits, in order. */
  function SourceList(hs: seq<Hit>): (r: seq<MetaValue>)
    ensures |r| == |hs| && forall i :: 0 <= i < |hs| ==> r[i] == Source(hs[i])
  {
    seq(|hs|, i requires 0 <= i < |hs| => Source(hs[i]))
  }

  /** `list(set(c.get('metadata', {}).get('source', 'Unknown') for c in context))`. */
  function Sources(hs: seq<Hit>): seq<MetaValue> {
    Distinct(SourceList(hs))
  }

  /** Every kept hit's source is listed exactly once, `Unknown` standing for a
      hit without one, and nothing else is listed. */
  lemma SourcesSpec(hs: seq<Hit>)
    ensures NoDuplicates(Sources(hs))
    ensures forall i :: 0 <= i < |hs| ==> Source(hs[i]) in Sources(hs)
    ensures forall m :: m in Sources(hs) ==> exists i :: 0 <= i < |hs| && Source(hs[i]) == m
  {
    var l := SourceList(hs);
    DistinctSpec(l);
    forall i | 0 <= i < |hs|
      ensures Source(hs[i]) in Sources(hs)
    {
      assert l[i] == Source(hs[i]);
    }
    forall m | m in Sources(hs)
      ensures exists i :: 0 <= i < |hs| && Source(hs[i]) == m
    {
      var i :| 0 <= i < |l| && l[i] == m;
      assert Source(hs[i]) == m;
    }
  }

  // ---------------------------------------------------------------------------
  // Answer generation

  const Apology: string := "I apologize, but I encountered an error while generating the answer."

  /** `generate_answer`: the generator's answer, or the fixed apology when
      building the prompt raises. */
  function AgentAnswer(o: Oracles, query: string, context: seq<Hit>, systemPrompt: string): (r: string)
    ensures (forall i :: 0 <= i < |context| ==> context[i].text.Some?) ==>
      r == Llm.Generate(o.gen, Llm.AnswerPrompt(Llm.ContextString(context).value, query), 0.7, 512)
    ensures (exists i :: 0 <= i < |context| && context[i].text.None?) ==> r == Apology
  {
    match Llm.GenerateAnswer(o.gen, query, context, Some(systemPrompt))
    case Some(answer) => answer
    case None => Apology
  }
}
