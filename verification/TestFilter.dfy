/** Test filters of gtest (gtest.cc): wildcard patterns, colon-separated lists of them, and the dash. */
module TestFilter {
  import opened CStrings

  // ---- the language of a wildcard pattern

  /** What one character of a pattern stands for. */
  predicate Stands(p: char, part: string) {
    match p
    case '?' => |part| == 1
    case '*' => true
    case _ => part == [p]
  }

  predicate Splits(pattern: string, parts: seq<string>) {
    |parts| == |pattern| && forall i :: 0 <= i < |parts| ==> Stands(pattern[i], parts[i])
  }

  ghost predicate InGlob(pattern: string, s: string) {
    exists parts :: Splits(pattern, parts) && Concat(parts) == s
  }

  /** The recursive matcher; a ':' in the pattern ends it. */
  predicate PatternMatchesString(pattern: string, str: string)
    decreases |pattern| + |str|
  {
    if pattern == "" || pattern[0] == ':' then str == ""
    else if pattern[0] == '?' then str != "" && PatternMatchesString(pattern[1..], str[1..])
    else if pattern[0] == '*' then
      (str != "" && PatternMatchesString(pattern, str[1..])) || PatternMatchesString(pattern[1..], str)
    else str != "" && pattern[0] == str[0] && PatternMatchesString(pattern[1..], str[1..])
  }

  lemma PrependPart(pattern: string, part: string, parts: seq<string>)
    requires pattern != "" && Stands(pattern[0], part) && Splits(pattern[1..], parts)
    ensures InGlob(pattern, part + Concat(parts))
  {
    var all := [part] + parts;
    assert all[1..] == parts;
    forall i | 0 <= i < |all| ensures Stands(pattern[i], all[i]) {
      if i > 0 {
        assert pattern[i] == pattern[1..][i - 1] && all[i] == parts[i - 1];
      }
    }
    assert Splits(pattern, all);
  }

  lemma FirstPart(pattern: string, parts: seq<string>)
    requires pattern != "" && Splits(pattern, parts)
    ensures Stands(pattern[0], parts[0]) && Splits(pattern[1..], parts[1..])
    ensures Concat(parts) == parts[0] + Concat(parts[1..])
  {
  }

  /** The pattern up to the first colon. */
  function Segment(pattern: string): string {
    pattern[..Find(pattern, ':')]
  }

  lemma SegmentNext(pattern: string)
    ensures (pattern == "" || pattern[0] == ':') <==> Segment(pattern) == ""
    ensures Segment(pattern) != "" ==>
      Segment(pattern)[0] == pattern[0] && Segment(pattern)[1..] == Segment(pattern[1..])
  {
  }

  /** What matches is in the language. */
  lemma {:induction false} MatchIsInGlob(pattern: string, str: string)
    requires PatternMatchesString(pattern, str)
    ensures InGlob(Segment(pattern), str)
    decreases |pattern| + |str|
  {
    hide Segment, InGlob;
    var g := Segment(pattern);
    SegmentNext(pattern);
    if g == "" {
      EmptyGlob();
    } else if pattern[0] == '*' && str != "" && PatternMatchesString(pattern, str[1..]) {
      MatchIsInGlob(pattern, str[1..]);
      LongerStar(g, str);
    } else if pattern[0] == '*' {
      MatchIsInGlob(pattern[1..], str);
      TakeFirst(g, "", str);
      assert "" + str == str;
    } else {
      MatchIsInGlob(pattern[1..], str[1..]);
      TakeFirst(g, str[..1], str[1..]);
      assert str == str[..1] + str[1..];
    }
  }

  lemma EmptyGlob()
    ensures InGlob("", "")
    ensures forall s :: InGlob("", s) ==> s == ""
  {
    assert Splits("", []) && Concat([]) == "";
  }

  lemma TakeFirst(g: string, part: string, rest: string)
    requires g != "" && Stands(g[0], part) && InGlob(g[1..], rest)
    ensures InGlob(g, part + rest)
  {
    var parts :| Splits(g[1..], parts) && Concat(parts) == rest;
    PrependPart(g, part, parts);
  }

  lemma LongerStar(g: string, str: string)
    requires g != "" && g[0] == '*' && str != "" && InGlob(g, str[1..])
    ensures InGlob(g, str)
  {
    var parts :| Splits(g, parts) && Concat(parts) == str[1..];
    FirstPart(g, parts);
    PrependPart(g, [str[0]] + parts[0], parts[1..]);
    assert str == [str[0]] + parts[0] + Concat(parts[1..]);
  }

  /** What is in the language matches. */
  lemma {:induction false} GlobIsMatched(pattern: string, str: string, parts: seq<string>)
    requires Splits(Segment(pattern), parts) && Concat(parts) == str
    ensures PatternMatchesString(pattern, str)
    decreases |pattern| + |str|
  {
    hide Segment;
    var g := Segment(pattern);
    SegmentNext(pattern);
    if g != "" {
      FirstPart(g, parts);
      if g[0] == '*' && parts[0] != "" {
        assert str[1..] == parts[0][1..] + Concat(parts[1..]);
        var shorter := [parts[0][1..]] + parts[1..];
        assert shorter[1..] == parts[1..];
        GlobIsMatched(pattern, str[1..], shorter);
      } else if g[0] == '*' {
        assert str == Concat(parts[1..]);
        GlobIsMatched(pattern[1..], str, parts[1..]);
      } else {
        assert |parts[0]| == 1 && str[1..] == Concat(parts[1..]);
        GlobIsMatched(pattern[1..], str[1..], parts[1..]);
      }
    }
  }

  /** The matcher decides the language of the pattern up to its first colon. */
  lemma PatternIsGlob(pattern: string, str: string)
    ensures PatternMatchesString(pattern, str) <==> InGlob(Segment(pattern), str)
  {
    if PatternMatchesString(pattern, str) {
      MatchIsInGlob(pattern, str);
    }
    if InGlob(Segment(pattern), str) {
      var parts :| Splits(Segment(pattern), parts) && Concat(parts) == str;
      GlobIsMatched(pattern, str, parts);
    }
  }

  // ---- lists of patterns

  /** Some pattern of the list matches. */
  ghost predicate InSomeGlob(patterns: seq<string>, name: string) {
    exists i :: 0 <= i < |patterns| && InGlob(patterns[i], name)
  }

  /** The loop over the patterns of a filter. */
  method MatchesFilter(name: string, filter: string) returns (r: bool)
    ensures r <==> InSomeGlob(Split(filter, ':'), name)
  {
    hide InGlob, InSomeGlob, Split, Segment, PatternMatchesString, Find;
    var cur := filter;
    while true
      invariant InSomeGlob(Split(filter, ':'), name) <==> InSomeGlob(Split(cur, ':'), name)
      decreases |cur|
    {
      PatternIsGlob(cur, name);
      SplitFirst(cur, name);
      if PatternMatchesString(cur, name) {
        return true;
      }
      var colon := Find(cur, ':');
      if colon == |cur| {
        return false;
      }
      cur := cur[colon + 1..];
    }
  }

  lemma SplitFirst(cur: string, name: string)
    ensures
      var n := Find(cur, ':');
      InSomeGlob(Split(cur, ':'), name)
      <==> InGlob(Segment(cur), name) || (n < |cur| && InSomeGlob(Split(cur[n + 1..], ':'), name))
  {
    hide InGlob, InSomeGlob, Split, Find;
    var n := Find(cur, ':');
    SplitParts(cur);
    if n == |cur| {
      OneGlob(Segment(cur), name);
    } else {
      MoreGlobs(Segment(cur), Split(cur[n + 1..], ':'), name);
    }
  }

  lemma SplitParts(cur: string)
    ensures
      var n := Find(cur, ':');
      Split(cur, ':') == if n == |cur| then [Segment(cur)] else [Segment(cur)] + Split(cur[n + 1..], ':')
  {
    hide Find;
    var n := Find(cur, ':');
    if n == |cur| {
      assert cur[..n] == cur;
    }
  }

  lemma OneGlob(pattern: string, name: string)
    ensures InSomeGlob([pattern], name) <==> InGlob(pattern, name)
  {
    hide InGlob;
    assert [pattern][0] == pattern;
  }

  lemma MoreGlobs(pattern: string, rest: seq<string>, name: string)
    ensures InSomeGlob([pattern] + rest, name) <==> InGlob(pattern, name) || InSomeGlob(rest, name)
  {
    hide InGlob;
    var all := [pattern] + rest;
    assert all[0] == pattern;
    assert forall i :: 0 <= i < |rest| ==> all[i + 1] == rest[i];
    assert forall i :: 1 <= i < |all| ==> all[i] == rest[i - 1];
  }

  // ---- the filter flag

  const UNIVERSAL_FILTER := "*"

  const FORMAT_BUFFER := 4096

  /** String::Format of "case.test": it has a buffer of fixed size. */
  function FullName(testCase: string, test: string): string {
    var name := testCase + "." + test;
    if |name| >= FORMAT_BUFFER then "<formatting error or buffer exceeded>" else name
  }

  /** The patterns before the first dash; none at all stands for everything. */
  function Positive(filter: string): string {
    var dash := Find(filter, '-');
    if dash < |filter| && dash == 0 then UNIVERSAL_FILTER else filter[..dash]
  }

  function Negative(filter: string): string {
    var dash := Find(filter, '-');
    if dash < |filter| then filter[dash + 1..] else ""
  }

  /** Some positive pattern matches the full name and no negative one does. */
  ghost predicate Selects(filter: string, testCase: string, test: string) {
    && InSomeGlob(Split(Positive(filter), ':'), FullName(testCase, test))
    && !InSomeGlob(Split(Negative(filter), ':'), FullName(testCase, test))
  }

  method FilterMatchesTest(filter: string, testCase: string, test: string) returns (r: bool)
    ensures r <==> Selects(filter, testCase, test)
  {
    hide InSomeGlob, FullName;
    var fullName := FullName(testCase, test);
    var dash := Find(filter, '-');
    var positive, negative;
    if dash == |filter| {
      positive := filter;
      negative := "";
      assert filter[..dash] == filter;
    } else {
      positive := filter[..dash];
      negative := filter[dash + 1..];
      if positive == "" {
        positive := UNIVERSAL_FILTER;
      }
    }
    r := MatchesFilter(fullName, positive);
    if r {
      var excluded := MatchesFilter(fullName, negative);
      r := !excluded;
    }
  }

  /** A filter that is only a dash and a list selects the complement of the list. */
  lemma NegativeOnly(list: string, name: string)
    ensures InSomeGlob(Split(Positive("-" + list), ':'), name)
    ensures Negative("-" + list) == list
  {
    assert Find("-" + list, '-') == 0;
    assert Split("*", ':') == ["*"];
    assert Splits("*", [name]) && Concat([name]) == name;
    assert InGlob(Split("*", ':')[0], name);
  }

  /** Without a dash nothing is excluded: a full name is not empty, and the empty pattern matches only the empty name. */
  lemma NoDashExcludesNothing(filter: string, testCase: string, test: string)
    requires '-' !in filter
    ensures Positive(filter) == filter
    ensures !InSomeGlob(Split(Negative(filter), ':'), FullName(testCase, test))
  {
    EmptyGlob();
    assert Split("", ':') == [""];
    assert FullName(testCase, test) != "";
  }

  /** The first dash divides a filter. */
  lemma DashDivides(p: string, n: string)
    requires '-' !in p
    ensures Negative(p + "-" + n) == n
    ensures Positive(p + "-" + n) == if p == "" then "*" else p
  {
    var filter := p + "-" + n;
    assert filter[|p|] == '-' && filter[..|p|] == p && filter[|p| + 1..] == n;
    assert forall i :: 0 <= i < |p| ==> filter[i] == p[i];
    assert Find(filter, '-') == |p|;
  }

  /**
   * A filter with a dash selects what the list in front of it matches, everything if that is empty, and the list behind
   * it does not; a filter without a dash selects what it matches.
   */
  lemma SelectsIff(p: string, n: string, testCase: string, test: string)
    requires '-' !in p && |testCase + "." + test| < 4096
    ensures
      var name := testCase + "." + test;
      && (Selects(p + "-" + n, testCase, test) <==>
           (p == "" || InSomeGlob(Split(p, ':'), name)) && !InSomeGlob(Split(n, ':'), name))
      && (Selects(p, testCase, test) <==> InSomeGlob(Split(p, ':'), name))
  {
    hide InSomeGlob, Positive, Negative, Split;
    var name := testCase + "." + test;
    DashDivides(p, n);
    NoDashExcludesNothing(p, testCase, test);
    if p == "" {
      NegativeOnly(n, name);
      assert p + "-" + n == "-" + n;
    }
  }

  // ---- what common patterns match

  predicate Literal(p: string) {
    '?' !in p && '*' !in p
  }

  predicate StartsWith(s: string, p: string) {
    |p| <= |s| && s[..|p|] == p
  }

  predicate EndsWith(s: string, p: string) {
    |p| <= |s| && s[|s| - |p|..] == p
  }

  predicate Contains(s: string, p: string) {
    exists k :: 0 <= k <= |s| && StartsWith(s[k..], p)
  }

  /** A word of two patterns in a row is a word of the first and one of the second. */
  lemma GlobOfTwo(p: string, q: string, s: string)
    ensures InGlob(p + q, s) <==> exists k :: 0 <= k <= |s| && InGlob(p, s[..k]) && InGlob(q, s[k..])
  {
    hide Splits, Concat;
    if InGlob(p + q, s) {
      var parts :| Splits(p + q, parts) && Concat(parts) == s;
      SplitsApart(p, q, parts);
      var a, b := parts[..|p|], parts[|p|..];
      assert parts == a + b;
      ConcatOfTwo(a, b);
      var k := |Concat(a)|;
      assert s[..k] == Concat(a) && s[k..] == Concat(b);
    }
    if k :| 0 <= k <= |s| && InGlob(p, s[..k]) && InGlob(q, s[k..]) {
      var a :| Splits(p, a) && Concat(a) == s[..k];
      var b :| Splits(q, b) && Concat(b) == s[k..];
      SplitsTogether(p, q, a, b);
      ConcatOfTwo(a, b);
      assert s == s[..k] + s[k..];
    }
  }

  lemma SplitsApart(p: string, q: string, parts: seq<string>)
    requires Splits(p + q, parts)
    ensures |parts| == |p| + |q| && Splits(p, parts[..|p|]) && Splits(q, parts[|p|..])
  {
    hide Stands;
    assert forall i :: 0 <= i < |p| ==> (p + q)[i] == p[i];
    assert forall i :: 0 <= i < |q| ==> (p + q)[|p| + i] == q[i];
  }

  lemma SplitsTogether(p: string, q: string, a: seq<string>, b: seq<string>)
    requires Splits(p, a) && Splits(q, b)
    ensures Splits(p + q, a + b)
  {
    hide Stands;
  }

  lemma NoConcat()
    ensures Concat([]) == ""
  {
  }

  lemma ConcatFirst(a: seq<string>)
    requires a != []
    ensures Concat(a) == a[0] + Concat(a[1..])
  {
  }

  lemma {:induction false} ConcatOfTwo(a: seq<string>, b: seq<string>)
    ensures Concat(a + b) == Concat(a) + Concat(b)
  {
    hide Concat;
    if a == [] {
      assert a + b == b;
      NoConcat();
    } else {
      ConcatOfTwo(a[1..], b);
      assert (a + b)[1..] == a[1..] + b;
      ConcatFirst(a);
      ConcatFirst(a + b);
      assert a[0] + (Concat(a[1..]) + Concat(b)) == a[0] + Concat(a[1..]) + Concat(b);
    }
  }

  lemma {:induction false} LiteralGlob(p: string, s: string)
    requires Literal(p)
    ensures InGlob(p, s) <==> s == p
  {
    hide InGlob;
    if p == "" {
      EmptyGlob();
    } else {
      assert p == p[..1] + p[1..];
      GlobOfTwo(p[..1], p[1..], s);
      forall k | 0 <= k <= |s| ensures InGlob(p[..1], s[..k]) && InGlob(p[1..], s[k..]) <==> k == 1 && s == p {
        OneLiteral(p[..1], s[..k]);
        LiteralGlob(p[1..], s[k..]);
        assert s == s[..k] + s[k..];
      }
    }
  }

  lemma OneLiteral(p: string, s: string)
    requires Literal(p) && |p| == 1
    ensures InGlob(p, s) <==> s == p
  {
    if s == p {
      assert Splits(p, [p]) && Concat([p]) == p;
    }
    if InGlob(p, s) {
      var parts :| Splits(p, parts) && Concat(parts) == s;
      FirstPart(p, parts);
      assert parts[1..] == [];
    }
  }

  lemma StarGlob(s: string)
    ensures InGlob("*", s)
  {
    assert Splits("*", [s]) && Concat([s]) == s;
  }

  lemma PrefixGlob(p: string, s: string)
    requires Literal(p)
    ensures InGlob(p + "*", s) <==> StartsWith(s, p)
  {
    hide InGlob;
    GlobOfTwo(p, "*", s);
    forall k | 0 <= k <= |s| ensures InGlob(p, s[..k]) && InGlob("*", s[k..]) <==> s[..k] == p {
      LiteralGlob(p, s[..k]);
      StarGlob(s[k..]);
    }
  }

  lemma SuffixGlob(p: string, s: string)
    requires Literal(p)
    ensures InGlob("*" + p, s) <==> EndsWith(s, p)
  {
    hide InGlob;
    GlobOfTwo("*", p, s);
    forall k | 0 <= k <= |s| ensures InGlob("*", s[..k]) && InGlob(p, s[k..]) <==> s[k..] == p {
      LiteralGlob(p, s[k..]);
      StarGlob(s[..k]);
    }
  }

  lemma InfixGlob(p: string, s: string)
    requires Literal(p)
    ensures InGlob("*" + p + "*", s) <==> Contains(s, p)
  {
    hide InGlob, StartsWith;
    assert "*" + p + "*" == "*" + (p + "*");
    GlobOfTwo("*", p + "*", s);
    forall k | 0 <= k <= |s| ensures InGlob("*", s[..k]) && InGlob(p + "*", s[k..]) <==> StartsWith(s[k..], p) {
      PrefixGlob(p, s[k..]);
      StarGlob(s[..k]);
    }
  }

  /** A list of two patterns. */
  lemma TwoPatterns(p: string, q: string, name: string)
    requires ':' !in p && ':' !in q
    ensures InSomeGlob(Split(p + ":" + q, ':'), name) <==> InGlob(p, name) || InGlob(q, name)
  {
    hide InGlob, InSomeGlob, Split;
    var list := p + ":" + q;
    assert list[|p|] == ':' && list[..|p|] == p && list[|p| + 1..] == q;
    assert forall i :: 0 <= i < |p| ==> list[i] == p[i];
    assert Find(list, ':') == |p| && Find(q, ':') == |q| && q[..|q|] == q;
    SplitFirst(list, name);
    SplitFirst(q, name);
  }
}
