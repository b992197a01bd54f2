/** Text cleaning, chunking and per-chunk metadata of the document processor. */
module DocumentProcessor {
  import opened Wrappers
  import opened PyStr
  import opened Records

  /** The two settings of a processor. */
  datatype Processor = Processor(chunkSize: int, chunkOverlap: int)

  /** The settings under which the chunking loop makes progress: the source has no
      guard of its own, and an overlap of more than half a window can move the
      start backwards after a sentence cut. */
  predicate WellFormed(p: Processor) {
    0 < p.chunkSize && 0 <= p.chunkOverlap && 2 * p.chunkOverlap <= p.chunkSize
  }

  /** `given or fallback`: no value and 0 both fall back. */
  function Setting(given: Option<int>, fallback: int): (v: int)
    ensures given.Some? && given.value != 0 ==> v == given.value
    ensures given.None? || given.value == 0 ==> v == fallback
  {
    if given.Some? && given.value != 0 then given.value else fallback
  }

  /** The constructor: each setting falls back to the configured one. */
  function NewProcessor(chunkSize: Option<int>, chunkOverlap: Option<int>,
                        configChunkSize: int, configChunkOverlap: int): (p: Processor)
    ensures p.chunkSize == Setting(chunkSize, configChunkSize)
    ensures p.chunkOverlap == Setting(chunkOverlap, configChunkOverlap)
  {
    Processor(Setting(chunkSize, configChunkSize), Setting(chunkOverlap, configChunkOverlap))
  }

  const DefaultChunkSize := 1000
  const DefaultChunkOverlap := 200

  lemma DefaultsWellFormed(chunkSize: Option<int>, chunkOverlap: Option<int>)
    requires chunkSize.None? && chunkOverlap.None?
    ensures WellFormed(NewProcessor(chunkSize, chunkOverlap, DefaultChunkSize, DefaultChunkOverlap))
  {
  }

  // ---------------------------------------------------------------------------
  // Cleaning

  /** `re.sub(r'\s+', ' ', s)`: every maximal whitespace run becomes one space. */
  function CollapseSpace(s: string): (r: string)
    ensures r == [] <==> s == []
    ensures s != [] && !IsSpace(s[0]) ==> r[0] == s[0]
    decreases |s|
  {
    if s == [] then []
    else if IsSpace(s[0]) then
      var n := LeadingSpace(s);
      " " + CollapseSpace(s[n..])
    else [s[0]] + CollapseSpace(s[1..])
  }

  /** Where a match of `\n\s*\n` that starts at index 0 of `s` ends, or 0 when
      none starts there. `\s*` is greedy, so the match runs to the last newline
      of the whitespace run that follows the first newline. */
  function BlankLineMatchEnd(s: string): (e: nat)
    ensures e == 0 || (2 <= e <= |s| && s[0] == '\n' && s[e - 1] == '\n')
  {
    if s == [] || s[0] != '\n' then 0
    else
      var run := LeadingSpace(s[1..]);
      var p := RFind(s[1..1 + run], "\n");
      RFindSpec(s[1..1 + run], "\n");
      if p >= 0 then
        assert s[1..1 + run][p] == s[1 + p];
        p + 2
      else 0
  }

  /** `re.sub(r'\n\s*\n', '\n\n', s)`, scanning left to right. */
  function SubBlankLines(s: string): string
    decreases |s|
  {
    if s == [] then []
    else
      var e := BlankLineMatchEnd(s);
      if e > 0 then "\n\n" + SubBlankLines(s[e..])
      else [s[0]] + SubBlankLines(s[1..])
  }

  /** `_clean_text`. */
  function CleanText(s: string): string {
    Strip(SubBlankLines(CollapseSpace(s)))
  }

  /** Whitespace occurs only as single spaces. */
  predicate SingleSpaced(s: string) {
    forall i :: 0 <= i < |s| && IsSpace(s[i]) ==> s[i] == ' ' && (i + 1 < |s| ==> !IsSpace(s[i + 1]))
  }

  lemma {:induction false} CollapseSpaceSingleSpaced(s: string)
    ensures SingleSpaced(CollapseSpace(s))
    decreases |s|
  {
    if s != [] {
      if IsSpace(s[0]) {
        var t := s[LeadingSpace(s)..];
        LeadingSpaceSpec(s);
        CollapseSpaceSingleSpaced(t);
        SingleSpacedCons(' ', CollapseSpace(t));
      } else {
        CollapseSpaceSingleSpaced(s[1..]);
        SingleSpacedCons(s[0], CollapseSpace(s[1..]));
      }
    }
  }

  lemma SingleSpacedCons(c: char, r: string)
    requires SingleSpaced(r)
    requires IsSpace(c) ==> c == ' ' && (r == [] || !IsSpace(r[0]))
    ensures SingleSpaced([c] + r)
  {
    var cr := [c] + r;
    forall i | 0 <= i < |cr| && IsSpace(cr[i])
      ensures cr[i] == ' ' && (i + 1 < |cr| ==> !IsSpace(cr[i + 1]))
    {
      if i > 0 {
        assert cr[i] == r[i - 1];
        if i + 1 < |cr| {
          assert cr[i + 1] == r[i];
        }
      } else if |cr| > 1 {
        assert cr[1] == r[0];
      }
    }
  }

  lemma {:induction false} CollapseSpaceKeeps(s: string)
    ensures NonSpace(CollapseSpace(s)) == NonSpace(s)
    decreases |s|
  {
    if s != [] {
      var r := CollapseSpace(s);
      if IsSpace(s[0]) {
        var n := LeadingSpace(s);
        LeadingSpaceSpec(s);
        var t := s[n..];
        CollapseSpaceKeeps(t);
        assert r == " " + CollapseSpace(t);
        assert s == s[..n] + t;
        NonSpaceAppend(s[..n], t);
        NonSpaceOfSpace(s[..n]);
        NonSpaceAppend(" ", CollapseSpace(t));
        assert NonSpace(" ") == [];
      } else {
        CollapseSpaceKeeps(s[1..]);
        assert r == [s[0]] + CollapseSpace(s[1..]);
        assert s == [s[0]] + s[1..];
        NonSpaceAppend([s[0]], s[1..]);
        NonSpaceAppend([s[0]], CollapseSpace(s[1..]));
      }
    }
  }

  /** A string already single-spaced is left alone by the first substitution. */
  lemma {:induction false} CollapseSpaceFixes(s: string)
    requires SingleSpaced(s)
    ensures CollapseSpace(s) == s
    decreases |s|
  {
    if s != [] {
      if IsSpace(s[0]) {
        assert LeadingSpace(s) == 1;
        CollapseSpaceFixes(s[1..]);
      } else {
        CollapseSpaceFixes(s[1..]);
      }
    }
  }

  /** A word in front passes through the first substitution unchanged. */
  lemma {:induction false} CollapseSpaceWord(w: string, b: string)
    requires NoSpace(w)
    ensures CollapseSpace(w + b) == w + CollapseSpace(b)
    decreases |w|
  {
    if w != [] {
      var t := w[1..];
      assert NoSpace(t) by {
        forall i | 0 <= i < |t| ensures !IsSpace(t[i]) {
          assert t[i] == w[i + 1];
        }
      }
      CollapseSpaceWord(t, b);
      assert (w + b)[0] == w[0] && !IsSpace(w[0]);
      assert (w + b)[1..] == t + b;
      assert CollapseSpace(w + b) == [w[0]] + CollapseSpace(t + b);
      assert w == [w[0]] + t;
      assert [w[0]] + (t + CollapseSpace(b)) == w + CollapseSpace(b);
    } else {
      assert w + b == b;
    }
  }

  /** The first substitution keeps the words: `CollapseSpace(s).split()` is
      `s.split()`. */
  lemma {:induction false} SplitCollapseSpace(s: string)
    ensures Split(CollapseSpace(s)) == Split(s)
    decreases |s|
  {
    if s != [] {
      if IsSpace(s[0]) {
        var n := LeadingSpace(s);
        LeadingSpaceSpec(s);
        var t := s[n..];
        SplitCollapseSpace(t);
        SplitSkip(s, n);
        CollapseSpaceSpaceStep(s, n);
      } else {
        var k := WordLength(s);
        var w, t := s[..k], s[k..];
        assert s == w + t;
        CollapseSpaceWord(w, t);
        if k == |s| {
          SplitWord(w);
        } else {
          var m := LeadingSpace(t);
          assert t[0] == s[k];
          LeadingSpaceSpec(t);
          SplitCollapseSpace(t[m..]);
          SplitCollapseSpaceWord(w, t, m);
        }
      }
    }
  }

  /** A leading run of `n` whitespace characters becomes one space, which
      leaves the words alone. */
  lemma CollapseSpaceSpaceStep(s: string, n: nat)
    requires s != [] && IsSpace(s[0]) && n == LeadingSpace(s)
    ensures Split(CollapseSpace(s)) == Split(CollapseSpace(s[n..]))
  {
    var x := CollapseSpace(s[n..]);
    assert CollapseSpace(s) == " " + x;
    assert AllSpace((" " + x)[..1]);
    SplitSkip(" " + x, 1);
    assert (" " + x)[1..] == x;
  }

  /** The step of `SplitCollapseSpace` for a text that starts with the word `w`
      and continues with `t`, whose `m` leading whitespace characters are a
      nonempty run. */
  lemma SplitCollapseSpaceWord(w: string, t: string, m: nat)
    requires t != [] && IsSpace(t[0])
    requires m == LeadingSpace(t) && AllSpace(t[..m])
    requires Split(CollapseSpace(t[m..])) == Split(t[m..])
    ensures Split(w + CollapseSpace(t)) == Split(w + t)
  {
    SplitWordThenCollapsed(w, t, m);
    SplitWordThenSpace(w, t, m);
  }

  lemma SplitWordThenCollapsed(w: string, t: string, m: nat)
    requires t != [] && IsSpace(t[0]) && m == LeadingSpace(t)
    ensures Split(w + CollapseSpace(t)) == Split(w) + Split(CollapseSpace(t[m..]))
  {
    var x := CollapseSpace(t[m..]);
    assert CollapseSpace(t) == " " + x;
    assert w + CollapseSpace(t) == w + [' '] + x;
    SplitAtSpace(w, ' ', x);
  }

  lemma SplitWordThenSpace(w: string, t: string, m: nat)
    requires t != [] && IsSpace(t[0]) && m <= |t| && 0 < m && AllSpace(t[..m])
    ensures Split(w + t) == Split(w) + Split(t[m..])
  {
    assert Split(w + t) == Split(w) + Split(t[1..]) by {
      SplitThree(t, 0, 1);
      assert w + t == w + [t[0]] + t[1..];
      SplitAtSpace(w, t[0], t[1..]);
    }
    SplitSkipOne(t);
    SplitSkip(t, m);
  }

  /** Without a newline the second substitution changes nothing. */
  lemma {:induction false} SubBlankLinesWithoutNewline(s: string)
    requires '\n' !in s
    ensures SubBlankLines(s) == s
    decreases |s|
  {
    if s != [] {
      assert s[1..] <= s[1..] && '\n' !in s[1..];
      SubBlankLinesWithoutNewline(s[1..]);
    }
  }

  lemma SingleSpacedSlice(s: string, lo: nat, hi: nat)
    requires SingleSpaced(s) && lo <= hi <= |s|
    ensures SingleSpaced(s[lo..hi])
  {
    forall i | 0 <= i < hi - lo && IsSpace(s[lo..hi][i])
      ensures s[lo..hi][i] == ' ' && (i + 1 < hi - lo ==> !IsSpace(s[lo..hi][i + 1]))
    {
      assert s[lo..hi][i] == s[lo + i];
    }
  }

  /** After `_clean_text` the text has no whitespace at either end, whitespace
      only as single spaces (so no newline is left), and the same non-space
      characters in the same order as before. */
  lemma CleanTextNormalForm(s: string)
    ensures IsStripped(CleanText(s))
    ensures SingleSpaced(CleanText(s))
    ensures '\n' !in CleanText(s)
    ensures NonSpace(CleanText(s)) == NonSpace(s)
  {
    var c := CollapseSpace(s);
    CollapseSpaceSingleSpaced(s);
    CollapseSpaceKeeps(s);
    assert '\n' !in c by {
      forall i | 0 <= i < |c| ensures c[i] != '\n' {
        assert IsSpace('\n');
      }
    }
    SubBlankLinesWithoutNewline(c);
    StripSpec(c);
    var (lo, hi) := StripBounds(c);
    SingleSpacedSlice(c, lo, hi);
    var r := CleanText(s);
    assert r == c[lo..hi];
    forall i | 0 <= i < |r| ensures r[i] != '\n' {
      assert r[i] == c[lo + i];
    }
  }

  /** `_clean_text` keeps the words of the text and nothing else: the result is
      `' '.join(s.split())`. */
  lemma CleanTextWords(s: string)
    ensures Split(CleanText(s)) == Split(s)
    ensures CleanText(s) == Join(" ", Split(s))
  {
    var c := CollapseSpace(s);
    CleanTextNormalForm(s);
    SplitCollapseSpace(s);
    CollapseSpaceSingleSpaced(s);
    assert '\n' !in c by {
      forall i | 0 <= i < |c| ensures c[i] != '\n' {
        assert IsSpace('\n');
      }
    }
    SubBlankLinesWithoutNewline(c);
    SplitStrip(c);
    JoinSplit(CleanText(s));
  }

  /** A stripped, single-spaced string is the join of its words with one space. */
  lemma {:induction false} JoinSplit(u: string)
    requires IsStripped(u) && SingleSpaced(u)
    ensures u == Join(" ", Split(u))
    decreases |u|
  {
    if u != [] {
      var k := WordLength(u);
      var w := u[..k];
      assert k > 0 by {
        assert !IsSpace(u[0]);
      }
      if k == |u| {
        assert w == u;
        SplitWord(u);
      } else {
        var rest := u[k + 1..];
        JoinSplitRest(u, k);
        JoinSplit(rest);
        JoinSplitStep(u, k, w, rest);
      }
    }
  }

  lemma JoinSplitStep(u: string, k: nat, w: string, rest: string)
    requires 0 < k < |u| && w == u[..k] && NoSpace(w) && IsSpace(u[k]) && u[k..k + 1] == " "
    requires rest == u[k + 1..] && rest != [] && rest == Join(" ", Split(rest))
    ensures u == Join(" ", Split(u))
  {
    var words := Split(rest);
    SplitFirstWord(u, k);
    assert words != [];
    JoinCons(" ", w, words);
    SplitThree(u, k, k + 1);
  }

  /** What follows the first word and its single space is again stripped,
      single-spaced and not empty, and the space is a plain one. */
  lemma JoinSplitRest(u: string, k: nat)
    requires IsStripped(u) && SingleSpaced(u)
    requires 0 < k < |u| && IsSpace(u[k])
    ensures k + 1 < |u| && u[k..k + 1] == " "
    ensures u[k + 1..] != [] && IsStripped(u[k + 1..]) && SingleSpaced(u[k + 1..])
  {
    SingleSpacedSlice(u, k + 1, |u|);
    assert u[k + 1..|u|] == u[k + 1..];
  }

  /** Cleaning a cleaned text changes nothing. */
  lemma CleanTextIdempotent(s: string)
    ensures CleanText(CleanText(s)) == CleanText(s)
  {
    var r := CleanText(s);
    CleanTextNormalForm(s);
    CollapseSpaceFixes(r);
    SubBlankLinesWithoutNewline(r);
    StrippedFixed(r);
  }

  // ---------------------------------------------------------------------------
  // Chunking

  /** A half-open range `[lo, hi)` of text positions. */
  datatype Span = Span(lo: nat, hi: nat)

  /** A sentence break starts at index `k` of window `w`: a newline, or a period
      followed by a space. */
  predicate BreakAt(w: string, k: int) {
    0 <= k < |w| && (w[k] == '\n' || (k + 1 < |w| && w[k] == '.' && w[k + 1] == ' '))
  }

  /** `max(w.rfind('. '), w.rfind('\n'))`: where the last break starts, or -1
      when `w` has none (see `LastBreakSpec`). */
  function LastBreak(w: string): (r: int)
    ensures -1 <= r < |w|
  {
    var period := RFind(w, ". ");
    var newline := RFind(w, "\n");
    if period >= newline then period else newline
  }

  /** The two `rfind` calls find the last break: a break starts at the result,
      and none starts after it. */
  lemma LastBreakSpec(w: string)
    ensures LastBreak(w) == -1 || BreakAt(w, LastBreak(w))
    ensures forall k :: LastBreak(w) < k < |w| ==> !BreakAt(w, k)
  {
    RFindSpec(w, ". ");
    RFindSpec(w, "\n");
    PeriodMatches(w);
    NewlineMatches(w);
  }

  /** `". "` starts at `k` exactly when a period followed by a space does. */
  lemma PeriodMatches(w: string)
    ensures forall k :: 0 <= k < |w| ==>
      ((". " <= w[k..]) <==> (k + 1 < |w| && w[k] == '.' && w[k + 1] == ' '))
  {
    forall k | 0 <= k < |w|
      ensures (". " <= w[k..]) <==> (k + 1 < |w| && w[k] == '.' && w[k + 1] == ' ')
    {
      if k + 1 < |w| {
        assert w[k..][0] == w[k] && w[k..][1] == w[k + 1];
      }
    }
  }

  /** `"\n"` starts at `k` exactly when a newline is at `k`. */
  lemma NewlineMatches(w: string)
    ensures forall k :: 0 <= k < |w| ==> (("\n" <= w[k..]) <==> w[k] == '\n')
  {
    forall k | 0 <= k < |w|
      ensures ("\n" <= w[k..]) <==> w[k] == '\n'
    {
      assert w[k..][0] == w[k];
    }
  }

  /** The last index at or below `i` where a break starts in `w`, or -1: the
      same value as `LastBreak` (see `LastBreakSearch`), found by a backward scan. */
  function LastBreakAtOrBelow(w: string, i: int): (r: int)
    requires -1 <= i < |w|
    ensures -1 <= r <= i
    decreases i + 1
  {
    if i < 0 then -1
    else if BreakAt(w, i) then i
    else LastBreakAtOrBelow(w, i - 1)
  }

  lemma {:induction false} LastBreakAtOrBelowSpec(w: string, i: int)
    requires -1 <= i < |w|
    ensures LastBreakAtOrBelow(w, i) == -1 || BreakAt(w, LastBreakAtOrBelow(w, i))
    ensures forall k :: LastBreakAtOrBelow(w, i) < k <= i ==> !BreakAt(w, k)
    decreases i + 1
  {
    if i >= 0 && !BreakAt(w, i) {
      LastBreakAtOrBelowSpec(w, i - 1);
    }
  }

  /** `LastBreak`, as the two `rfind` calls compute it, is the last break. */
  lemma LastBreakSearch(w: string)
    ensures LastBreak(w) == LastBreakAtOrBelow(w, |w| - 1)
  {
    var r := LastBreakAtOrBelow(w, |w| - 1);
    LastBreakAtOrBelowSpec(w, |w| - 1);
    LastBreakSpec(w);
    var l := LastBreak(w);
    assert l == -1 || BreakAt(w, l);
    assert r == -1 || BreakAt(w, r);
  }

  /** Where the window that starts at `start` ends (before clamping to the text):
      a full `chunkSize` window, or, when the window does not reach the end of the
      text and its last break lies strictly past half of `chunkSize`, just after
      that break's first character. */
  function WindowEnd(p: Processor, text: string, start: nat): (e: int)
    requires WellFormed(p) && start < |text|
    ensures start < e <= start + p.chunkSize
    ensures e - p.chunkOverlap > start
    ensures start + p.chunkSize >= |text| ==> e == start + p.chunkSize
    ensures e < |text| ==> 2 * (e - start) > p.chunkSize
  {
    var end := start + p.chunkSize;
    if end < |text| then
      var lb := LastBreakAtOrBelow(text[start..end], p.chunkSize - 1);
      if 2 * lb > p.chunkSize then start + lb + 1 else end
    else end
  }

  /** A window that does not reach the end of the text is cut just after its last
      break when that break lies strictly past half of `chunkSize`, and is a full
      `chunkSize` window otherwise. */
  lemma WindowEndCut(p: Processor, text: string, start: nat)
    requires WellFormed(p) && start + p.chunkSize < |text|
    ensures 2 * LastBreak(text[start..start + p.chunkSize]) > p.chunkSize ==>
      WindowEnd(p, text, start) == start + LastBreak(text[start..start + p.chunkSize]) + 1
    ensures 2 * LastBreak(text[start..start + p.chunkSize]) <= p.chunkSize ==>
      WindowEnd(p, text, start) == start + p.chunkSize
  {
    var w := text[start..start + p.chunkSize];
    LastBreakSearch(w);
    assert LastBreak(w) == LastBreakAtOrBelow(w, p.chunkSize - 1);
  }

  function Min(a: int, b: int): int {
    if a < b then a else b
  }

  /** The windows of the chunking loop from `start` on, clamped to the text. */
  function Windows(p: Processor, text: string, start: nat): seq<Span>
    requires WellFormed(p) && start < |text|
    decreases |text| - start
  {
    var e := WindowEnd(p, text, start);
    var w := Span(start, Min(e, |text|));
    if e >= |text| then [w] else [w] + Windows(p, text, e - p.chunkOverlap)
  }

  /** One step of `Windows`. */
  lemma WindowsUnfold(p: Processor, text: string, start: nat)
    requires WellFormed(p) && start < |text|
    ensures |Windows(p, text, start)| >= 1
    ensures Windows(p, text, start)[0] == Span(start, Min(WindowEnd(p, text, start), |text|))
    ensures WindowEnd(p, text, start) >= |text| ==> |Windows(p, text, start)| == 1
    ensures WindowEnd(p, text, start) < |text| ==>
      Windows(p, text, start)[1..] == Windows(p, text, WindowEnd(p, text, start) - p.chunkOverlap)
  {
  }

  /** Window `w` lies in the text from `start` on, is non-empty, at most
      `chunkSize` long, and ends where `WindowEnd` says. */
  predicate WindowOk(p: Processor, text: string, start: nat, w: Span)
    requires WellFormed(p)
  {
    start <= w.lo < w.hi <= |text| && w.hi - w.lo <= p.chunkSize &&
    w.hi == Min(WindowEnd(p, text, w.lo), |text|)
  }

  predicate BoundedWindows(p: Processor, text: string, start: nat, ws: seq<Span>)
    requires WellFormed(p)
  {
    forall i :: 0 <= i < |ws| ==> WindowOk(p, text, start, ws[i])
  }

  /** Consecutive windows overlap by `chunkOverlap`, and every window but the
      last stops short of the end of the text and is more than half of
      `chunkSize` long. */
  predicate LinkedWindows(p: Processor, text: string, ws: seq<Span>) {
    forall i :: 0 <= i < |ws| - 1 ==>
      ws[i].hi < |text| && ws[i + 1].lo == ws[i].hi - p.chunkOverlap &&
      2 * (ws[i].hi - ws[i].lo) > p.chunkSize
  }

  lemma {:induction false} WindowsBounds(p: Processor, text: string, start: nat)
    requires WellFormed(p) && start < |text|
    ensures BoundedWindows(p, text, start, Windows(p, text, start))
    decreases |text| - start
  {
    var ws := Windows(p, text, start);
    var e := WindowEnd(p, text, start);
    WindowsUnfold(p, text, start);
    if e < |text| {
      var rest := Windows(p, text, e - p.chunkOverlap);
      WindowsBounds(p, text, e - p.chunkOverlap);
      forall i | 1 <= i < |ws|
        ensures WindowOk(p, text, start, ws[i])
      {
        assert ws[i] == rest[i - 1];
      }
    }
  }

  lemma {:induction false} WindowsEnds(p: Processor, text: string, start: nat)
    requires WellFormed(p) && start < |text|
    ensures |Windows(p, text, start)| >= 1 && Windows(p, text, start)[0].lo == start
    ensures Windows(p, text, start)[|Windows(p, text, start)| - 1].hi == |text|
    decreases |text| - start
  {
    var ws := Windows(p, text, start);
    var e := WindowEnd(p, text, start);
    WindowsUnfold(p, text, start);
    if e < |text| {
      WindowsEnds(p, text, e - p.chunkOverlap);
      assert ws[|ws| - 1] == ws[1..][|ws| - 2];
    }
  }

  lemma {:induction false} WindowsLinked(p: Processor, text: string, start: nat)
    requires WellFormed(p) && start < |text|
    ensures LinkedWindows(p, text, Windows(p, text, start))
    decreases |text| - start
  {
    var ws := Windows(p, text, start);
    var e := WindowEnd(p, text, start);
    WindowsUnfold(p, text, start);
    if e < |text| {
      var next := e - p.chunkOverlap;
      var rest := Windows(p, text, next);
      WindowsLinked(p, text, next);
      WindowsEnds(p, text, next);
      forall i | 0 <= i < |ws| - 1
        ensures ws[i].hi < |text| && ws[i + 1].lo == ws[i].hi - p.chunkOverlap &&
          2 * (ws[i].hi - ws[i].lo) > p.chunkSize
      {
        assert ws[i + 1] == rest[i];
        if i > 0 {
          assert ws[i] == rest[i - 1];
        }
      }
    }
  }

  /** The windows tile the text: the first starts at `start`, each next one starts
      exactly `chunkOverlap` before the previous one ends, only the last one
      reaches the end of the text, each is non-empty, at most `chunkSize` long and
      ends where `WindowEnd` says, and every window but the last is more than half
      of `chunkSize` long. */
  lemma WindowsShape(p: Processor, text: string, start: nat)
    requires WellFormed(p) && start < |text|
    ensures |Windows(p, text, start)| >= 1 && Windows(p, text, start)[0].lo == start
    ensures Windows(p, text, start)[|Windows(p, text, start)| - 1].hi == |text|
    ensures BoundedWindows(p, text, start, Windows(p, text, start))
    ensures LinkedWindows(p, text, Windows(p, text, start))
  {
    WindowsEnds(p, text, start);
    WindowsBounds(p, text, start);
    WindowsLinked(p, text, start);
  }

  /** Every position of the text, from `start` on, lies in some window. */
  lemma {:induction false} WindowsCover(p: Processor, text: string, start: nat, k: nat)
    requires WellFormed(p) && start <= k < |text|
    ensures exists i :: 0 <= i < |Windows(p, text, start)| && Windows(p, text, start)[i].lo <= k < Windows(p, text, start)[i].hi
    decreases |text| - start
  {
    var ws := Windows(p, text, start);
    var e := WindowEnd(p, text, start);
    WindowsUnfold(p, text, start);
    if k < Min(e, |text|) {
      assert ws[0].lo <= k < ws[0].hi;
    } else {
      var next := e - p.chunkOverlap;
      WindowsCover(p, text, next, k);
      var rest := Windows(p, text, next);
      var i :| 0 <= i < |rest| && rest[i].lo <= k < rest[i].hi;
      assert ws[i + 1] == rest[i];
    }
  }

  /** The part of window `w` that `strip()` keeps (see `StripSpanSpec`). */
  function StripSpan(text: string, w: Span): (r: Span)
    requires w.lo <= w.hi <= |text|
    ensures w.lo <= r.lo <= r.hi <= w.hi
  {
    var (a, b) := StripBounds(text[w.lo..w.hi]);
    Span(w.lo + a, w.lo + b)
  }

  /** The span `StripSpan` picks holds exactly the stripped window, and what it
      drops at either end is whitespace. */
  lemma StripSpanSpec(text: string, w: Span)
    requires w.lo <= w.hi <= |text|
    ensures text[StripSpan(text, w).lo..StripSpan(text, w).hi] == Strip(text[w.lo..w.hi])
    ensures forall j :: w.lo <= j < StripSpan(text, w).lo ==> IsSpace(text[j])
    ensures forall j :: StripSpan(text, w).hi <= j < w.hi ==> IsSpace(text[j])
  {
    var s := text[w.lo..w.hi];
    var (a, b) := StripBounds(s);
    SliceOfSlice(text, w.lo, w.hi, a, b);
    StripBoundsSpec(s);
    SpaceBefore(text, w.lo, w.hi, a);
    SpaceAfter(text, w.lo, w.hi, b);
  }

  lemma SpaceBefore(text: string, lo: nat, hi: nat, a: nat)
    requires lo <= hi <= |text| && a <= hi - lo && AllSpace(text[lo..hi][..a])
    ensures forall j :: lo <= j < lo + a ==> IsSpace(text[j])
  {
    forall j | lo <= j < lo + a
      ensures IsSpace(text[j])
    {
      assert text[lo..hi][..a][j - lo] == text[j];
    }
  }

  lemma SpaceAfter(text: string, lo: nat, hi: nat, b: nat)
    requires lo <= hi <= |text| && b <= hi - lo && AllSpace(text[lo..hi][b..])
    ensures forall j :: lo + b <= j < hi ==> IsSpace(text[j])
  {
    forall j | lo + b <= j < hi
      ensures IsSpace(text[j])
    {
      assert text[lo..hi][b..][j - lo - b] == text[j];
    }
  }

  predicate InText(text: string, ws: seq<Span>) {
    forall i :: 0 <= i < |ws| ==> ws[i].lo <= ws[i].hi <= |text|
  }

  /** Each window stripped, with the windows that strip to nothing left out. */
  function KeptSpans(text: string, ws: seq<Span>): (r: seq<Span>)
    requires InText(text, ws)
    ensures InText(text, r) && |r| <= |ws|
  {
    if ws == [] then []
    else
      var s := StripSpan(text, ws[0]);
      (if s.lo < s.hi then [s] else []) + KeptSpans(text, ws[1..])
  }

  function Slices(text: string, ss: seq<Span>): (r: seq<string>)
    requires InText(text, ss)
    ensures |r| == |ss|
    ensures forall i :: 0 <= i < |ss| ==> r[i] == text[ss[i].lo..ss[i].hi]
  {
    if ss == [] then [] else [text[ss[0].lo..ss[0].hi]] + Slices(text, ss[1..])
  }

  lemma WindowsInText(p: Processor, text: string)
    requires WellFormed(p) && text != []
    ensures InText(text, Windows(p, text, 0))
  {
    WindowsBounds(p, text, 0);
  }

  /** The spans of the chunks in the text. */
  function ChunkSpans(p: Processor, text: string): (r: seq<Span>)
    requires WellFormed(p)
    ensures InText(text, r)
  {
    if text == [] then []
    else
      WindowsInText(p, text);
      KeptSpans(text, Windows(p, text, 0))
  }

  /** What `_create_chunks` returns. */
  function Chunks(p: Processor, text: string): seq<string>
    requires WellFormed(p)
  {
    Slices(text, ChunkSpans(p, text))
  }

  /** The chunks of each window, stripped, before blank ones are removed. */
  function StrippedWindows(text: string, ws: seq<Span>): (r: seq<string>)
    requires InText(text, ws)
    ensures |r| == |ws|
  {
    if ws == [] then [] else [Strip(text[ws[0].lo..ws[0].hi])] + StrippedWindows(text, ws[1..])
  }

  /** `[c for c in chunks if c.strip()]`. */
  function DropBlank(chunks: seq<string>): seq<string> {
    if chunks == [] then []
    else (if Strip(chunks[0]) != [] then [chunks[0]] else []) + DropBlank(chunks[1..])
  }

  /** A stripped window is the text of its kept span, and it is blank exactly
      when that span is empty. */
  lemma StrippedWindow(text: string, w: Span)
    requires w.lo <= w.hi <= |text|
    ensures Strip(text[w.lo..w.hi]) == text[StripSpan(text, w).lo..StripSpan(text, w).hi]
    ensures Strip(Strip(text[w.lo..w.hi])) != [] <==> StripSpan(text, w).lo < StripSpan(text, w).hi
  {
    var s := StripSpan(text, w);
    StripSpanSpec(text, w);
    var c := text[s.lo..s.hi];
    StripSpec(text[w.lo..w.hi]);
    StrippedFixed(c);
  }

  lemma {:induction false} DropBlankStripped(text: string, ws: seq<Span>)
    requires InText(text, ws)
    ensures DropBlank(StrippedWindows(text, ws)) == Slices(text, KeptSpans(text, ws))
  {
    if ws != [] {
      DropBlankStripped(text, ws[1..]);
      var s := StripSpan(text, ws[0]);
      StrippedWindow(text, ws[0]);
      var sw := StrippedWindows(text, ws);
      assert sw == [text[s.lo..s.hi]] + StrippedWindows(text, ws[1..]);
      var rest := KeptSpans(text, ws[1..]);
      if s.lo < s.hi {
        assert KeptSpans(text, ws) == [s] + rest;
        assert ([s] + rest)[1..] == rest;
      } else {
        assert KeptSpans(text, ws) == rest;
      }
    }
  }

  lemma {:induction false} StrippedWindowsAppend(text: string, ws: seq<Span>, w: Span)
    requires InText(text, ws) && w.lo <= w.hi <= |text|
    ensures InText(text, ws + [w])
    ensures StrippedWindows(text, ws + [w]) == StrippedWindows(text, ws) + [Strip(text[w.lo..w.hi])]
  {
    if ws != [] {
      assert (ws + [w])[1..] == ws[1..] + [w];
      StrippedWindowsAppend(text, ws[1..], w);
    }
  }

  /** The next window: the window's end, moved back to a
      sentence or line break when one lies in its second half. */
  method NextWindow(p: Processor, text: string, start: nat) returns (end: int, chunk: string)
    requires WellFormed(p) && start < |text|
    ensures end == WindowEnd(p, text, start)
    ensures start < end && chunk == text[start..Min(end, |text|)]
  {
    end := start + p.chunkSize;
    chunk := text[start..Min(end, |text|)];
    if end < |text| {
      var lastBreak := LastBreak(chunk);
      if 2 * lastBreak > p.chunkSize {
        PrefixOfSlice(text, start, end, lastBreak + 1);
        chunk := chunk[..lastBreak + 1];
        end := start + lastBreak + 1;
      }
      WindowEndCut(p, text, start);
    }
  }

  /** The `k`-th window is the one a pass of the chunking loop cuts from its
      start: it ends where `WindowEnd` says, it is the last window exactly when
      it reaches the end of the text, and otherwise the next window starts
      `chunkOverlap` before its end. */
  lemma ChunkLoopStep(p: Processor, text: string, k: nat, end: int)
    requires WellFormed(p) && text != [] && k < |Windows(p, text, 0)| && Windows(p, text, 0)[k].lo < |text|
    requires end == WindowEnd(p, text, Windows(p, text, 0)[k].lo)
    ensures Windows(p, text, 0)[k] == Span(Windows(p, text, 0)[k].lo, Min(end, |text|))
    ensures end >= |text| ==> k + 1 == |Windows(p, text, 0)|
    ensures end < |text| ==>
      k + 1 < |Windows(p, text, 0)| && Windows(p, text, 0)[k + 1].lo == end - p.chunkOverlap
  {
    WindowsShape(p, text, 0);
    var ws := Windows(p, text, 0);
    assert WindowOk(p, text, 0, ws[k]);
  }

  /** Stripping every window and dropping the blank results gives the chunks. */
  lemma ChunksOfWindows(p: Processor, text: string)
    requires WellFormed(p) && text != []
    ensures InText(text, Windows(p, text, 0))
    ensures DropBlank(StrippedWindows(text, Windows(p, text, 0))) == Chunks(p, text)
  {
    WindowsInText(p, text);
    DropBlankStripped(text, Windows(p, text, 0));
  }

  /** One pass of the chunking loop: cut the `k`-th window, strip it and record
      it. */
  method ChunkStep(p: Processor, text: string, start: nat, raw: seq<string>, ghost k: nat)
    returns (end: int, raw': seq<string>)
    requires WellFormed(p) && text != [] && InText(text, Windows(p, text, 0))
    requires k < |Windows(p, text, 0)| && Windows(p, text, 0)[k].lo == start && start < |text|
    requires raw == StrippedWindows(text, Windows(p, text, 0)[..k])
    ensures raw' == StrippedWindows(text, Windows(p, text, 0)[..k + 1])
    ensures start < end - p.chunkOverlap
    ensures end >= |text| ==> k + 1 == |Windows(p, text, 0)|
    ensures end < |text| ==>
      k + 1 < |Windows(p, text, 0)| && Windows(p, text, 0)[k + 1].lo == end - p.chunkOverlap
  {
    var chunk;
    end, chunk := NextWindow(p, text, start);
    ChunkLoopStep(p, text, k, end);
    ghost var ws := Windows(p, text, 0);
    ghost var w := ws[k];
    assert chunk == text[w.lo..w.hi];
    assert InText(text, ws[..k]) by {
      forall i | 0 <= i < k ensures ws[..k][i].lo <= ws[..k][i].hi <= |text| {
        assert ws[..k][i] == ws[i];
      }
    }
    assert ws[..k + 1] == ws[..k] + [w];
    StrippedWindowsAppend(text, ws[..k], w);
    raw' := raw + [Strip(chunk)];
  }

  /** `_create_chunks`: slide a window of `chunkSize` characters over the text,
      cut it after the last sentence break when that lies past half the window,
      keep the window stripped, and start the next one `chunkOverlap` characters
      before the end of this one. */
  method CreateChunks(p: Processor, text: string) returns (chunks: seq<string>)
    requires WellFormed(p)
    ensures chunks == Chunks(p, text)
  {
    if text == [] {
      EmptyTextNoChunks(p);
      return [];
    }
    WindowsShape(p, text, 0);
    WindowsInText(p, text);
    var raw: seq<string> := [];
    var start := 0;
    var textLength := |text|;
    ghost var k := 0;
    while start < textLength
      invariant 0 <= start < textLength
      invariant k < |Windows(p, text, 0)| && Windows(p, text, 0)[k].lo == start
      invariant raw == StrippedWindows(text, Windows(p, text, 0)[..k])
      decreases textLength - start
    {
      var end;
      end, raw := ChunkStep(p, text, start, raw, k);
      k := k + 1;
      if end >= textLength {
        break;
      }
      start := end - p.chunkOverlap;
    }
    assert Windows(p, text, 0)[..k] == Windows(p, text, 0);
    ChunksOfWindows(p, text);
    chunks := DropBlank(raw);
  }


  /** No text, no chunks. */
  lemma EmptyTextNoChunks(p: Processor)
    requires WellFormed(p)
    ensures Chunks(p, []) == []
  {
  }

  /** A chunk's span: non-empty, inside the text, at most `bound` long, and with
      no whitespace at either end. */
  predicate ChunkSpanOk(text: string, s: Span, bound: nat) {
    s.lo < s.hi <= |text| && s.hi - s.lo <= bound && IsStripped(text[s.lo..s.hi])
  }

  lemma StripSpanShape(text: string, w: Span, bound: nat)
    requires w.lo <= w.hi <= |text| && w.hi - w.lo <= bound
    ensures StripSpan(text, w).lo < StripSpan(text, w).hi ==> ChunkSpanOk(text, StripSpan(text, w), bound)
  {
    StripSpanSpec(text, w);
    StripSpec(text[w.lo..w.hi]);
  }

  lemma {:induction false} KeptSpansShape(text: string, ws: seq<Span>, bound: nat)
    requires InText(text, ws)
    requires forall i :: 0 <= i < |ws| ==> ws[i].hi - ws[i].lo <= bound
    ensures forall i :: 0 <= i < |KeptSpans(text, ws)| ==> ChunkSpanOk(text, KeptSpans(text, ws)[i], bound)
  {
    if ws != [] {
      KeptSpansShape(text, ws[1..], bound);
      var s := StripSpan(text, ws[0]);
      StripSpanShape(text, ws[0], bound);
      var rest := KeptSpans(text, ws[1..]);
      var ks := KeptSpans(text, ws);
      if s.lo < s.hi {
        assert ks == [s] + rest;
        forall i | 0 <= i < |ks|
          ensures ChunkSpanOk(text, ks[i], bound)
        {
          if i > 0 {
            assert ks[i] == rest[i - 1];
          }
        }
      } else {
        assert ks == rest;
      }
    }
  }

  /** Every chunk is a non-empty substring of the text with no whitespace at
      either end and at most `chunkSize` characters. */
  lemma ChunksShape(p: Processor, text: string)
    requires WellFormed(p)
    ensures |Chunks(p, text)| == |ChunkSpans(p, text)|
    ensures forall i :: 0 <= i < |Chunks(p, text)| ==> ChunkSpanOk(text, ChunkSpans(p, text)[i], p.chunkSize)
    ensures forall i :: 0 <= i < |Chunks(p, text)| ==>
      Chunks(p, text)[i] == text[ChunkSpans(p, text)[i].lo..ChunkSpans(p, text)[i].hi] &&
      0 < |Chunks(p, text)[i]| <= p.chunkSize && IsStripped(Chunks(p, text)[i])
  {
    if text != [] {
      var ws := Windows(p, text, 0);
      WindowsBounds(p, text, 0);
      assert forall i :: 0 <= i < |ws| ==> ws[i].hi - ws[i].lo <= p.chunkSize;
      KeptSpansShape(text, ws, p.chunkSize);
    }
  }

  lemma StripSpanKeeps(text: string, w: Span, k: nat)
    requires w.lo <= k < w.hi <= |text| && !IsSpace(text[k])
    ensures StripSpan(text, w).lo <= k < StripSpan(text, w).hi
  {
    StripSpanSpec(text, w);
  }

  /** The kept spans of all windows but the first end the kept spans of all
      windows. */
  lemma KeptSpansTail(text: string, ws: seq<Span>)
    requires InText(text, ws) && ws != []
    ensures |KeptSpans(text, ws[1..])| <= |KeptSpans(text, ws)|
    ensures KeptSpans(text, ws)[|KeptSpans(text, ws)| - |KeptSpans(text, ws[1..])|..] == KeptSpans(text, ws[1..])
  {
    var s := StripSpan(text, ws[0]);
    var rest := KeptSpans(text, ws[1..]);
    if s.lo < s.hi {
      assert KeptSpans(text, ws) == [s] + rest;
    } else {
      assert KeptSpans(text, ws) == rest;
    }
  }

  /** The non-empty stripped span of every window is one of the kept spans: the
      `j`-th. */
  lemma {:induction false} KeptSpansKeep(text: string, ws: seq<Span>, i: nat) returns (j: nat)
    requires InText(text, ws) && i < |ws| && StripSpan(text, ws[i]).lo < StripSpan(text, ws[i]).hi
    ensures j < |KeptSpans(text, ws)| && KeptSpans(text, ws)[j] == StripSpan(text, ws[i])
  {
    var ks := KeptSpans(text, ws);
    var rest := KeptSpans(text, ws[1..]);
    if i == 0 {
      assert ks == [StripSpan(text, ws[0])] + rest;
      j := 0;
    } else {
      assert ws[1..][i - 1] == ws[i];
      var r := KeptSpansKeep(text, ws[1..], i - 1);
      KeptSpansTail(text, ws);
      j := |ks| - |rest| + r;
      assert ks[j] == rest[r];
    }
  }

  /** Nothing but whitespace is lost: every non-space character of the text lies
      inside some chunk. */
  lemma ChunksCoverContent(p: Processor, text: string, k: nat)
    requires WellFormed(p) && k < |text| && !IsSpace(text[k])
    ensures exists j :: 0 <= j < |ChunkSpans(p, text)| && ChunkSpans(p, text)[j].lo <= k < ChunkSpans(p, text)[j].hi
  {
    WindowsCover(p, text, 0, k);
    var ws := Windows(p, text, 0);
    var i :| 0 <= i < |ws| && ws[i].lo <= k < ws[i].hi;
    WindowsInText(p, text);
    StripSpanKeeps(text, ws[i], k);
    var j := KeptSpansKeep(text, ws, i);
    assert ChunkSpans(p, text)[j].lo <= k < ChunkSpans(p, text)[j].hi;
  }

  // ---------------------------------------------------------------------------
  // Files

  /** `path` without its trailing slashes. */
  function TrimSlashes(path: string): (r: string)
    ensures r == [] || r[|r| - 1] != '/'
    decreases |path|
  {
    if path != [] && path[|path| - 1] == '/' then TrimSlashes(path[..|path| - 1]) else path
  }

  /** `Path(path).name`: the last component, trailing slashes ignored. */
  function FileName(path: string): string {
    var t := TrimSlashes(path);
    t[RFind(t, "/") + 1..]
  }

  /** The name is the part of the trimmed path after its last slash: it ends
      the trimmed path, holds no slash, and a slash precedes it unless it is the
      whole trimmed path. */
  lemma FileNameSpec(path: string)
    ensures TailAfter(TrimSlashes(path), '/', FileName(path))
  {
    var t := TrimSlashes(path);
    assert FileName(path) == t[RFind(t, ['/']) + 1..];
    AfterLast(t, '/', FileName(path));
  }

  /** `Path(name).suffix`: from the last period on, when that period is neither
      the first nor the last character; otherwise empty. */
  function Suffix(name: string): string {
    var i := RFind(name, ".");
    if 0 < i < |name| - 1 then name[i..] else []
  }

  /** A suffix is empty, or a period followed by at least one character, none of
      them a period, that ends the name and does not make up all of it. */
  lemma SuffixSpec(name: string)
    ensures Suffix(name) == [] ||
      (Suffix(name)[0] == '.' && 2 <= |Suffix(name)| < |name| &&
       Suffix(name) == name[|name| - |Suffix(name)|..] && '.' !in Suffix(name)[1..])
    ensures forall i :: 0 < i < |name| - 1 && name[i] == '.' && '.' !in name[i + 1..] ==>
      Suffix(name) == name[i..]
    ensures (forall i :: 0 < i < |name| - 1 && name[i] == '.' ==> '.' in name[i + 1..]) ==>
      Suffix(name) == []
  {
    forall k | 0 < k < |name| - 1 && name[k] == '.' && '.' !in name[k + 1..]
      ensures RFind(name, ['.']) == k
    {
      RFindLastChar(name, '.', k);
    }
    var i := RFind(name, ['.']);
    assert Suffix(name) == if 0 < i < |name| - 1 then name[i..] else [];
    if 0 < i < |name| - 1 {
      AfterLast(name, '.', name[i + 1..]);
      RFindChar(name, '.');
      var r := name[i..];
      assert r[0] == name[i];
      assert r[1..] == name[i + 1..];
    }
  }

  /** `Path(path).suffix.lower()`. */
  function FileExtension(path: string): string {
    Lower(Suffix(FileName(path)))
  }

  /** The five formats the processor reads. */
  datatype FileKind = Pdf | Docx | Pptx | Xlsx | Txt

  /** The extension dispatch of `process_file`; other extensions are refused. */
  function KindOf(ext: string): (k: Option<FileKind>)
    ensures k.Some? <==> ext in {".pdf", ".docx", ".pptx", ".xlsx", ".txt"}
    ensures k == Some(Xlsx) <==> ext == ".xlsx"
  {
    if ext == ".pdf" then Some(Pdf)
    else if ext == ".docx" then Some(Docx)
    else if ext == ".pptx" then Some(Pptx)
    else if ext == ".xlsx" then Some(Xlsx)
    else if ext == ".txt" then Some(Txt)
    else None
  }

  /** The metadata list: one entry per chunk with its index, the chunk count,
      the file name and the extension. */
  function ChunkMetadata(fileName: string, fileType: string, count: nat): (ms: seq<Metadata>)
    ensures |ms| == count
    ensures forall i :: 0 <= i < count ==>
      ms[i].Keys == {"source", "file_type", "chunk_index", "total_chunks"} &&
      ms[i]["source"] == Str(fileName) && ms[i]["file_type"] == Str(fileType) &&
      ms[i]["chunk_index"] == Int(i) && ms[i]["total_chunks"] == Int(count)
  {
    seq(count, i requires 0 <= i < count =>
      map["source" := Str(fileName), "file_type" := Str(fileType),
          "chunk_index" := Int(i), "total_chunks" := Int(count)])
  }

  datatype Processed = Processed(
    text: string, chunks: seq<string>, metadatas: seq<Metadata>, fileName: string, fileType: string)

  datatype ProcessError = UnsupportedFileType(ext: string) | ExtractionFailed(kind: FileKind)

  /** `process_file`. The format extractors are the oracle `extract`, which gives
      no text when the underlying library raises; the error is passed on. */
  method ProcessFile(p: Processor, path: string, extract: (FileKind, string) -> Option<string>)
    returns (r: Result<Processed, ProcessError>)
    requires WellFormed(p)
    ensures var ext := FileExtension(path);
      match KindOf(ext)
      case None => r == Failure(UnsupportedFileType(ext))
      case Some(kind) =>
        match extract(kind, path)
        case None => r == Failure(ExtractionFailed(kind))
        case Some(raw) =>
          r.Success? && r.value.text == CleanText(raw) &&
          r.value.chunks == Chunks(p, CleanText(raw)) &&
          r.value.metadatas == ChunkMetadata(FileName(path), ext, |r.value.chunks|) &&
          r.value.fileName == FileName(path) && r.value.fileType == ext
  {
    var ext := FileExtension(path);
    var name := FileName(path);
    var kind := KindOf(ext);
    if kind.None? {
      return Failure(UnsupportedFileType(ext));
    }
    var extracted := extract(kind.value, path);
    if extracted.None? {
      return Failure(ExtractionFailed(kind.value));
    }
    var text := CleanText(extracted.value);
    var chunks := CreateChunks(p, text);
    var metadatas := ChunkMetadata(name, ext, |chunks|);
    return Success(Processed(text, chunks, metadatas, name, ext));
  }
}
