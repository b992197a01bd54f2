/** The Python `str` operations the core relies on. A Dafny `char` is a Unicode
    scalar value, so indices count code points exactly as Python's do. */
module PyStr {

  /** `c.isspace()`. The same set is what `\s` matches in a `re` pattern and what
      the argument-less `strip()` and `split()` treat as whitespace. */
  const SpaceChars: set<char> := {
    '\t', '\n', '\U{000b}', '\U{000c}', '\r', '\U{001c}', '\U{001d}', '\U{001e}', '\U{001f}', ' ',
    '\U{0085}', '\U{00a0}', '\U{1680}',
    '\U{2000}', '\U{2001}', '\U{2002}', '\U{2003}', '\U{2004}', '\U{2005}', '\U{2006}',
    '\U{2007}', '\U{2008}', '\U{2009}', '\U{200a}',
    '\U{2028}', '\U{2029}', '\U{202f}', '\U{205f}', '\U{3000}'
  }

  predicate IsSpace(c: char) {
    c in SpaceChars
  }

  predicate AllSpace(s: string) {
    forall i :: 0 <= i < |s| ==> IsSpace(s[i])
  }

  predicate NoSpace(s: string) {
    forall i :: 0 <= i < |s| ==> !IsSpace(s[i])
  }

  /** What `strip()` returns: no whitespace at either end. */
  predicate IsStripped(s: string) {
    s == [] || (!IsSpace(s[0]) && !IsSpace(s[|s| - 1]))
  }

  /** The characters of `s` that are not whitespace, in order. */
  function NonSpace(s: string): string {
    if s == [] then []
    else (if IsSpace(s[0]) then [] else [s[0]]) + NonSpace(s[1..])
  }

  lemma {:induction false} NonSpaceAppend(a: string, b: string)
    ensures NonSpace(a + b) == NonSpace(a) + NonSpace(b)
  {
    if a == [] {
      assert a + b == b;
    } else {
      assert (a + b)[0] == a[0] && (a + b)[1..] == a[1..] + b;
      NonSpaceAppend(a[1..], b);
    }
  }

  lemma {:induction false} NonSpaceOfSpace(s: string)
    requires AllSpace(s)
    ensures NonSpace(s) == []
  {
    if s != [] {
      NonSpaceOfSpace(s[1..]);
    }
  }

  lemma {:induction false} NonSpaceOfWord(s: string)
    requires NoSpace(s)
    ensures NonSpace(s) == s
  {
    if s != [] {
      NonSpaceOfWord(s[1..]);
    }
  }

  /** The length of the whitespace prefix of `s` (see `LeadingSpaceSpec`). */
  function LeadingSpace(s: string): (n: nat)
    ensures n <= |s|
  {
    if s == [] || !IsSpace(s[0]) then 0 else LeadingSpace(s[1..]) + 1
  }

  /** The prefix is all whitespace and is followed by a non-space, if anything. */
  lemma {:induction false} LeadingSpaceSpec(s: string)
    ensures AllSpace(s[..LeadingSpace(s)])
    ensures LeadingSpace(s) < |s| ==> !IsSpace(s[LeadingSpace(s)])
  {
    if s != [] && IsSpace(s[0]) {
      var m := LeadingSpace(s[1..]);
      LeadingSpaceSpec(s[1..]);
      assert s[..m + 1] == [s[0]] + s[1..][..m];
    }
  }

  /** The length of the whitespace suffix of `s` (see `TrailingSpaceSpec`). */
  function TrailingSpace(s: string): (n: nat)
    ensures n <= |s|
  {
    SpaceBefore(s, |s|)
  }

  /** The number of whitespace characters that end `s[..hi]`. */
  function SpaceBefore(s: string, hi: nat): (n: nat)
    requires hi <= |s|
    ensures n <= hi
  {
    if hi == 0 || !IsSpace(s[hi - 1]) then 0 else SpaceBefore(s, hi - 1) + 1
  }

  lemma {:induction false} SpaceBeforeSpec(s: string, hi: nat)
    requires hi <= |s|
    ensures forall i :: hi - SpaceBefore(s, hi) <= i < hi ==> IsSpace(s[i])
    ensures SpaceBefore(s, hi) < hi ==> !IsSpace(s[hi - 1 - SpaceBefore(s, hi)])
  {
    if hi > 0 && IsSpace(s[hi - 1]) {
      SpaceBeforeSpec(s, hi - 1);
    }
  }

  /** The suffix is all whitespace and is preceded by a non-space, if anything. */
  lemma TrailingSpaceSpec(s: string)
    ensures AllSpace(s[|s| - TrailingSpace(s)..])
    ensures TrailingSpace(s) < |s| ==> !IsSpace(s[|s| - 1 - TrailingSpace(s)])
  {
    SpaceBeforeSpec(s, |s|);
    var u := s[|s| - TrailingSpace(s)..];
    forall j | 0 <= j < |u|
      ensures IsSpace(u[j])
    {
      assert u[j] == s[|s| - |u| + j];
    }
  }

  /** When `s` is not all whitespace, its whitespace prefix and suffix do not meet. */
  lemma SpaceEndsApart(s: string)
    requires LeadingSpace(s) < |s|
    ensures LeadingSpace(s) + TrailingSpace(s) < |s|
  {
    var lo, t := LeadingSpace(s), TrailingSpace(s);
    LeadingSpaceSpec(s);
    TrailingSpaceSpec(s);
  }

  /** The bounds `[lo, hi)` of `s.strip()` inside `s` (see `StripBoundsSpec`). */
  function StripBounds(s: string): (b: (nat, nat))
    ensures b.0 <= b.1 <= |s|
  {
    var lo := LeadingSpace(s);
    if lo == |s| then (|s|, |s|)
    else
      SpaceEndsApart(s);
      (lo, |s| - TrailingSpace(s))
  }

  /** Everything outside the strip bounds is whitespace, and what is inside
      them starts and ends with a non-space. */
  lemma StripBoundsSpec(s: string)
    ensures AllSpace(s[..StripBounds(s).0]) && AllSpace(s[StripBounds(s).1..])
    ensures IsStripped(s[StripBounds(s).0..StripBounds(s).1])
    ensures StripBounds(s).0 == StripBounds(s).1 <==> AllSpace(s)
  {
    var lo := LeadingSpace(s);
    LeadingSpaceSpec(s);
    if lo < |s| {
      var t := TrailingSpace(s);
      TrailingSpaceSpec(s);
      forall k | |s| - t <= k < |s|
        ensures IsSpace(s[k])
      {
        assert s[|s| - t..][k - (|s| - t)] == s[k];
      }
      assert !AllSpace(s) by { assert !IsSpace(s[lo]); }
    }
  }

  /** `s.strip()`. */
  function Strip(s: string): (r: string)
    ensures |r| <= |s|
  {
    var (lo, hi) := StripBounds(s);
    s[lo..hi]
  }

  /** `strip()` leaves no whitespace at either end, gives the empty string
      exactly for an all-whitespace input, and loses only whitespace. */
  lemma StripSpec(s: string)
    ensures IsStripped(Strip(s))
    ensures Strip(s) == [] <==> AllSpace(s)
    ensures NonSpace(Strip(s)) == NonSpace(s)
  {
    StripBoundsSpec(s);
    NonSpaceBetween(s, StripBounds(s).0, StripBounds(s).1);
  }

  /** Cutting whitespace off both ends keeps the non-space characters. */
  lemma NonSpaceBetween(s: string, lo: nat, hi: nat)
    requires lo <= hi <= |s| && AllSpace(s[..lo]) && AllSpace(s[hi..])
    ensures NonSpace(s[lo..hi]) == NonSpace(s)
  {
    SplitThree(s, lo, hi);
    NonSpaceAppend(s[..lo] + s[lo..hi], s[hi..]);
    NonSpaceAppend(s[..lo], s[lo..hi]);
    NonSpaceOfSpace(s[..lo]);
    NonSpaceOfSpace(s[hi..]);
  }

  lemma SplitThree<T>(s: seq<T>, lo: nat, hi: nat)
    requires lo <= hi <= |s|
    ensures s == s[..lo] + s[lo..hi] + s[hi..]
  {
  }

  lemma SliceOfSlice<T>(t: seq<T>, lo: nat, hi: nat, a: nat, b: nat)
    requires lo <= hi <= |t| && a <= b <= hi - lo
    ensures t[lo..hi][a..b] == t[lo + a..lo + b]
  {
    var l, r := t[lo..hi][a..b], t[lo + a..lo + b];
    assert |l| == |r|;
    forall j | 0 <= j < |l|
      ensures l[j] == r[j]
    {
      assert l[j] == t[lo..hi][a + j];
    }
  }

  lemma PrefixOfSlice<T>(t: seq<T>, lo: nat, hi: nat, k: nat)
    requires lo <= hi <= |t| && k <= hi - lo
    ensures t[lo..hi][..k] == t[lo..lo + k]
  {
  }

  /** A stripped string is its own strip. */
  lemma StrippedFixed(s: string)
    requires IsStripped(s)
    ensures Strip(s) == s
  {
    if s != [] {
      assert LeadingSpace(s) == 0;
      assert TrailingSpace(s) == 0;
    }
  }

  /** `needle in hay` for strings. */
  predicate Contains(hay: string, needle: string) {
    exists i :: 0 <= i <= |hay| - |needle| && needle <= hay[i..]
  }

  /** Every character of a needle that occurs in `hay` occurs in `hay`; so a
      needle with a character `hay` lacks is not contained in it. */
  lemma ContainedCharsOccur(hay: string, needle: string, k: nat)
    requires k < |needle|
    ensures Contains(hay, needle) ==> needle[k] in hay
  {
    if Contains(hay, needle) {
      var i :| 0 <= i <= |hay| - |needle| && needle <= hay[i..];
      assert hay[i + k] == needle[k];
    }
  }

  /** `s.rfind(sub)` for a non-empty `sub`: the last index where `sub` starts,
      or -1 (see `RFindSpec`). */
  function RFind(s: string, sub: string): (r: int)
    requires sub != []
    ensures r == -1 || 0 <= r <= |s| - |sub|
  {
    if |sub| > |s| then -1 else RFindAtOrBelow(s, sub, |s| - |sub|)
  }

  function RFindAtOrBelow(s: string, sub: string, i: int): (r: int)
    requires sub != [] && -1 <= i <= |s| - |sub|
    ensures -1 <= r <= i
    decreases i + 1
  {
    if i < 0 then -1
    else if sub <= s[i..] then i
    else RFindAtOrBelow(s, sub, i - 1)
  }

  lemma {:induction false} RFindAtOrBelowSpec(s: string, sub: string, i: int)
    requires sub != [] && -1 <= i <= |s| - |sub|
    ensures RFindAtOrBelow(s, sub, i) >= 0 ==> sub <= s[RFindAtOrBelow(s, sub, i)..]
    ensures forall j :: RFindAtOrBelow(s, sub, i) < j <= i ==> !(sub <= s[j..])
    decreases i + 1
  {
    if i >= 0 && !(sub <= s[i..]) {
      RFindAtOrBelowSpec(s, sub, i - 1);
    }
  }

  /** `sub` starts where `rfind` says, and nowhere after it. */
  lemma RFindSpec(s: string, sub: string)
    requires sub != []
    ensures RFind(s, sub) >= 0 ==> sub <= s[RFind(s, sub)..]
    ensures forall j :: RFind(s, sub) < j <= |s| - |sub| ==> !(sub <= s[j..])
  {
    if |sub| <= |s| {
      RFindAtOrBelowSpec(s, sub, |s| - |sub|);
    }
  }

  /** `rfind` of a single character: it occurs where `rfind` says, and at no
      later index. */
  lemma RFindChar(s: string, c: char)
    ensures RFind(s, [c]) >= 0 ==> s[RFind(s, [c])] == c
    ensures forall j :: RFind(s, [c]) < j < |s| ==> s[j] != c
  {
    var r := RFind(s, [c]);
    RFindSpec(s, [c]);
    if r >= 0 {
      assert s[r..][0] == s[r];
    }
    forall j | r < j < |s|
      ensures s[j] != c
    {
      assert s[j..][0] == s[j];
    }
  }

  /** `rfind` of a character finds its last occurrence. */
  lemma RFindLastChar(s: string, c: char, k: nat)
    requires k < |s| && s[k] == c && c !in s[k + 1..]
    ensures RFind(s, [c]) == k
  {
    var r := RFind(s, [c]);
    RFindChar(s, c);
  }

  /** `r` ends `s`, holds no `c`, and is all of `s` or comes right after a `c`. */
  predicate TailAfter(s: string, c: char, r: string) {
    |r| <= |s| && r == s[|s| - |r|..] && c !in r && (|r| < |s| ==> s[|s| - |r| - 1] == c)
  }

  /** What follows the last `c` in `s` (all of `s` when there is none): a tail
      of `s` without `c`, preceded by `c` unless it is all of `s`. */
  lemma AfterLast(s: string, c: char, r: string)
    requires r == s[RFind(s, [c]) + 1..]
    ensures TailAfter(s, c, r)
  {
    RFindChar(s, c);
    TailWithout(s, c, RFind(s, [c]));
  }

  lemma TailWithout(s: string, c: char, i: int)
    requires -1 <= i < |s| && (i >= 0 ==> s[i] == c)
    requires forall j :: i < j < |s| ==> s[j] != c
    ensures c !in s[i + 1..]
    ensures s[i + 1..] == s[|s| - |s[i + 1..]|..]
    ensures |s[i + 1..]| < |s| ==> s[|s| - |s[i + 1..]| - 1] == c
  {
  }

  /** ASCII lower-casing of one character. */
  function LowerChar(c: char): char {
    if 'A' <= c <= 'Z' then (c as int + 32) as char else c
  }

  /** `s.lower()`, restricted to ASCII letters. */
  function Lower(s: string): (r: string)
    ensures |r| == |s|
    ensures forall i :: 0 <= i < |s| ==> r[i] == LowerChar(s[i])
  {
    seq(|s|, i requires 0 <= i < |s| => LowerChar(s[i]))
  }

  /** A lower-case letter that occurs in `s` in neither case does not occur in
      `s.lower()`. */
  lemma LowerKeepsOut(s: string, c: char)
    requires 'a' <= c <= 'z'
    requires c !in s && (c as int - 32) as char !in s
    ensures c !in Lower(s)
  {
    forall i | 0 <= i < |s|
      ensures Lower(s)[i] != c
    {
      assert s[i] in s;
    }
  }

  /** `s[:n]` for any integer `n`: a negative `n` drops the last `-n` elements. */
  function SliceTo<T>(s: seq<T>, n: int): (r: seq<T>)
    ensures r <= s
    ensures n >= 0 ==> |r| == if n < |s| then n else |s|
    ensures n < 0 ==> |r| == if |s| + n > 0 then |s| + n else 0
  {
    if n >= 0 then (if n < |s| then s[..n] else s)
    else if |s| + n > 0 then s[..|s| + n] else []
  }

  /** `sep.join(parts)`. */
  function Join(sep: string, parts: seq<string>): string
    decreases |parts|
  {
    if parts == [] then []
    else if |parts| == 1 then parts[0]
    else parts[0] + sep + Join(sep, parts[1..])
  }

  function TotalLength(parts: seq<string>): nat {
    if parts == [] then 0 else |parts[0]| + TotalLength(parts[1..])
  }

  lemma {:induction false} JoinLength(sep: string, parts: seq<string>)
    requires parts != []
    ensures |Join(sep, parts)| == TotalLength(parts) + (|parts| - 1) * |sep|
    decreases |parts|
  {
    if |parts| > 1 {
      JoinLength(sep, parts[1..]);
      assert Join(sep, parts) == parts[0] + sep + Join(sep, parts[1..]);
    }
  }

  /** Joining two non-empty lists one after the other is joining each and putting
      one separator between the results. */
  lemma {:induction false} JoinAppend(sep: string, a: seq<string>, b: seq<string>)
    requires a != [] && b != []
    ensures Join(sep, a + b) == Join(sep, a) + sep + Join(sep, b)
    decreases |a|
  {
    var ab := a + b;
    assert ab[0] == a[0];
    if |a| == 1 {
      assert ab[1..] == b;
      assert Join(sep, ab) == a[0] + sep + Join(sep, b);
    } else {
      assert ab[1..] == a[1..] + b;
      JoinAppend(sep, a[1..], b);
      assert Join(sep, ab) == a[0] + sep + Join(sep, a[1..] + b);
      assert Join(sep, a) == a[0] + sep + Join(sep, a[1..]);
    }
  }

  lemma JoinCons(sep: string, w: string, parts: seq<string>)
    requires parts != []
    ensures Join(sep, [w] + parts) == w + sep + Join(sep, parts)
  {
    var wp := [w] + parts;
    assert wp[0] == w && wp[1..] == parts;
  }

  /** Each part sits in the joined string between the join of the parts before
      it and the join of the parts after it, with one separator on each side. */
  lemma JoinAround(sep: string, parts: seq<string>, i: nat)
    requires 0 < i < |parts| - 1
    ensures Join(sep, parts) ==
      Join(sep, parts[..i]) + sep + parts[i] + sep + Join(sep, parts[i + 1..])
  {
    assert parts == parts[..i] + parts[i..];
    JoinAppend(sep, parts[..i], parts[i..]);
    assert parts[i..] == [parts[i]] + parts[i + 1..];
    JoinAppend(sep, [parts[i]], parts[i + 1..]);
  }

  /** The length of the non-space prefix of `s`. */
  function WordLength(s: string): (n: nat)
    ensures n <= |s|
    ensures NoSpace(s[..n])
    ensures n < |s| ==> IsSpace(s[n])
  {
    if s == [] || IsSpace(s[0]) then 0
    else
      var m := WordLength(s[1..]);
      assert s[..m + 1] == [s[0]] + s[1..][..m];
      m + 1
  }

  /** `s.split()`: the maximal runs of non-whitespace characters, in order. */
  function Split(s: string): (words: seq<string>)
    ensures forall i :: 0 <= i < |words| ==> words[i] != [] && NoSpace(words[i])
    decreases |s|
  {
    LeadingSpaceSpec(s);
    var t := s[LeadingSpace(s)..];
    if t == [] then []
    else
      var n := WordLength(t);
      [t[..n]] + Split(t[n..])
  }

  function Concat(parts: seq<string>): string {
    if parts == [] then [] else parts[0] + Concat(parts[1..])
  }

  lemma {:induction false} ConcatAppend(a: seq<string>, b: seq<string>)
    ensures Concat(a + b) == Concat(a) + Concat(b)
  {
    if a != [] {
      assert (a + b)[0] == a[0] && (a + b)[1..] == a[1..] + b;
      ConcatAppend(a[1..], b);
      calc {
        Concat(a + b);
        a[0] + Concat(a[1..] + b);
        a[0] + (Concat(a[1..]) + Concat(b));
        (a[0] + Concat(a[1..])) + Concat(b);
      }
    } else {
      assert a + b == b;
    }
  }

  /** Splitting loses only the whitespace: the words, put back together, are the
      non-space characters of the input. */
  lemma {:induction false} SplitKeepsContent(s: string)
    ensures Concat(Split(s)) == NonSpace(s)
    decreases |s|
  {
    var t := s[LeadingSpace(s)..];
    SkipLeadingSpace(s);
    if t != [] {
      var n := WordLength(t);
      var rest := t[n..];
      assert Split(s) == [t[..n]] + Split(rest);
      SplitKeepsContent(rest);
      FirstWord(t, n);
      calc {
        Concat(Split(s));
        { assert ([t[..n]] + Split(rest))[1..] == Split(rest); }
        t[..n] + Concat(Split(rest));
        t[..n] + NonSpace(rest);
        NonSpace(t);
      }
    }
  }

  /** Leading whitespace adds nothing to the non-space characters. */
  lemma SkipLeadingSpace(s: string)
    ensures NonSpace(s) == NonSpace(s[LeadingSpace(s)..])
  {
    var lead := LeadingSpace(s);
    LeadingSpaceSpec(s);
    assert s == s[..lead] + s[lead..];
    NonSpaceAppend(s[..lead], s[lead..]);
    NonSpaceOfSpace(s[..lead]);
  }

  /** A word followed by the rest: the word's characters all count. */
  lemma FirstWord(t: string, n: nat)
    requires n <= |t| && NoSpace(t[..n])
    ensures NonSpace(t) == t[..n] + NonSpace(t[n..])
  {
    assert t == t[..n] + t[n..];
    NonSpaceAppend(t[..n], t[n..]);
    NonSpaceOfWord(t[..n]);
  }

  /** `LeadingSpace` is the one length whose prefix is whitespace and is
      followed by a non-space, if anything. */
  lemma {:induction false} LeadingSpaceIs(s: string, k: nat)
    requires k <= |s| && AllSpace(s[..k]) && (k < |s| ==> !IsSpace(s[k]))
    ensures LeadingSpace(s) == k
  {
    if k > 0 {
      assert IsSpace(s[..k][0]);
      var v := s[1..][..k - 1];
      forall i | 0 <= i < |v|
        ensures IsSpace(v[i])
      {
        assert v[i] == s[..k][i + 1];
      }
      LeadingSpaceIs(s[1..], k - 1);
    }
  }

  /** `WordLength` is the one length whose prefix has no whitespace and is
      followed by whitespace, if anything. */
  lemma {:induction false} WordLengthIs(s: string, n: nat)
    requires n <= |s| && NoSpace(s[..n]) && (n < |s| ==> IsSpace(s[n]))
    ensures WordLength(s) == n
  {
    if n > 0 {
      assert !IsSpace(s[..n][0]);
      var v := s[1..][..n - 1];
      forall i | 0 <= i < |v|
        ensures !IsSpace(v[i])
      {
        assert v[i] == s[..n][i + 1];
      }
      WordLengthIs(s[1..], n - 1);
    }
  }

  /** Leading whitespace does not change the words. */
  lemma SplitSkip(s: string, k: nat)
    requires k <= |s| && AllSpace(s[..k])
    ensures Split(s) == Split(s[k..])
  {
    LeadingSpaceAfter(s, k);
    assert s[LeadingSpace(s)..] == s[k..][LeadingSpace(s[k..])..];
    SplitRest(s);
    SplitRest(s[k..]);
  }

  /** Whitespace in front adds to the leading whitespace. */
  lemma {:induction false} LeadingSpaceAfter(s: string, k: nat)
    requires k <= |s| && AllSpace(s[..k])
    ensures LeadingSpace(s) == k + LeadingSpace(s[k..])
  {
    if k > 0 {
      assert IsSpace(s[..k][0]);
      var v := s[1..][..k - 1];
      forall i | 0 <= i < |v|
        ensures IsSpace(v[i])
      {
        assert v[i] == s[..k][i + 1];
      }
      LeadingSpaceAfter(s[1..], k - 1);
      assert s[1..][k - 1..] == s[k..];
    }
  }

  /** One step of `Split`: the words of what follows the leading whitespace. */
  lemma SplitRest(s: string)
    ensures Split(s) == SplitWords(s[LeadingSpace(s)..])
  {
  }

  /** The words of a string that does not start with whitespace: its first
      word, then the words of the rest. */
  function SplitWords(t: string): seq<string> {
    if t == [] then [] else [t[..WordLength(t)]] + Split(t[WordLength(t)..])
  }

  /** A string of whitespace has no words. */
  lemma SplitAllSpace(s: string)
    requires AllSpace(s)
    ensures Split(s) == []
  {
    assert s[..|s|] == s;
    SplitSkip(s, |s|);
    assert s[|s|..] == [];
  }

  /** A non-empty string without whitespace is one word. */
  lemma SplitWord(w: string)
    requires w != [] && NoSpace(w)
    ensures Split(w) == [w]
  {
    LeadingSpaceIs(w, 0);
    assert w[..|w|] == w;
    WordLengthIs(w, |w|);
    assert w[0..] == w && w[|w|..] == [];
  }

  /** A whitespace character separates words: the words of `a`, a whitespace
      character and `b` are those of `a` followed by those of `b`, so no word
      runs across it and none is lost. */
  lemma {:induction false} SplitAtSpace(a: string, c: char, b: string)
    requires IsSpace(c)
    ensures Split(a + [c] + b) == Split(a) + Split(b)
    decreases |a|
  {
    if LeadingSpace(a) == |a| {
      SplitAtSpaceBlank(a, c, b);
    } else {
      var w, r := SplitAtSpaceWord(a, c, b);
      SplitAtSpace(r, c, b);
      SplitPrepend(w, Split(a + [c] + b), Split(r + [c] + b), Split(a), Split(r), Split(b));
    }
  }

  lemma SplitPrepend(w: string, x: seq<string>, y: seq<string>, p: seq<string>, q: seq<string>, z: seq<string>)
    requires x == [w] + y && p == [w] + q && y == q + z
    ensures x == p + z
  {
  }

  lemma SplitAtSpaceBlank(a: string, c: char, b: string)
    requires IsSpace(c) && LeadingSpace(a) == |a|
    ensures Split(a + [c] + b) == Split(b)
    ensures Split(a) == []
  {
    LeadingSpaceSpec(a);
    assert a[..|a|] == a;
    SplitAllSpace(a);
    var s := a + [c] + b;
    var p := s[..|a| + 1];
    forall i | 0 <= i < |p|
      ensures IsSpace(p[i])
    {
      if i < |a| {
        assert p[i] == a[i];
      }
    }
    SplitSkip(s, |a| + 1);
    assert s[|a| + 1..] == b;
  }

  /** The first word `w` of `a` is the first word of `a + [c] + b`; `r` is what
      follows it in `a`. */
  lemma SplitAtSpaceWord(a: string, c: char, b: string) returns (w: string, r: string)
    requires IsSpace(c) && LeadingSpace(a) < |a|
    ensures |r| < |a|
    ensures Split(a + [c] + b) == [w] + Split(r + [c] + b)
    ensures Split(a) == [w] + Split(r)
  {
    var l := LeadingSpace(a);
    LeadingSpaceSpec(a);
    var s := a + [c] + b;
    var t := a[l..];
    var n := WordLength(t);
    assert t[0] == a[l];
    w, r := t[..n], t[n..];
    var u := t + [c] + b;
    assert s[..l] == a[..l];
    assert s[l] == a[l];
    LeadingSpaceIs(s, l);
    assert s[l..] == u;
    assert u[..n] == t[..n];
    assert n < |t| ==> u[n] == t[n];
    assert n == |t| ==> u[n] == c;
    WordLengthIs(u, n);
    assert u[n..] == r + [c] + b;
    SplitRest(s);
    SplitRest(a);
  }

  /** The first word of `u` ends at the space at `k`. */
  lemma SplitFirstWord(u: string, k: nat)
    requires 0 < k < |u| && IsSpace(u[k]) && NoSpace(u[..k])
    ensures Split(u) == [u[..k]] + Split(u[k + 1..])
  {
    LeadingSpaceIs(u, 0);
    WordLengthIs(u, k);
    SplitRest(u);
    assert u[0..] == u;
    SplitSkipOne(u[k..]);
    assert u[k..][1..] == u[k + 1..];
  }

  lemma SplitSkipOne(t: string)
    requires t != [] && IsSpace(t[0])
    ensures Split(t) == Split(t[1..])
  {
    assert AllSpace(t[..1]);
    SplitSkip(t, 1);
  }

  /** Trailing whitespace does not change the words. */
  lemma SplitAppendSpace(x: string, sp: string)
    requires AllSpace(sp)
    ensures Split(x + sp) == Split(x)
  {
    if sp == [] {
      assert x + sp == x;
    } else {
      assert x + sp == x + [sp[0]] + sp[1..];
      SplitAtSpace(x, sp[0], sp[1..]);
      SplitAllSpace(sp[1..]);
    }
  }

  /** `strip()` does not change the words. */
  lemma SplitStrip(s: string)
    ensures Split(Strip(s)) == Split(s)
  {
    var (lo, hi) := StripBounds(s);
    StripBoundsSpec(s);
    assert s == s[..hi] + s[hi..];
    SplitAppendSpace(s[..hi], s[hi..]);
    assert s[..hi][..lo] == s[..lo];
    SplitSkip(s[..hi], lo);
    assert s[..hi][lo..] == s[lo..hi];
  }
}
