/** The wildcard filters that tell death tests from other tests. */
module TestFilters {
  import opened Errors

  const DEATH_TEST_CASE_FILTER := "*DeathTest:*DeathTest/*"

  /** A colon ends the pattern as the end of the string does. */
  predicate PatternMatchesString(pattern: string, str: string)
    decreases |pattern| + |str|
  {
    if pattern == [] || pattern[0] == ':' then str == []
    else if pattern[0] == '?' then str != [] && PatternMatchesString(pattern[1..], str[1..])
    else if pattern[0] == '*' then
      (str != [] && PatternMatchesString(pattern, str[1..])) || PatternMatchesString(pattern[1..], str)
    else str != [] && pattern[0] == str[0] && PatternMatchesString(pattern[1..], str[1..])
  }

  /** Where the next pattern of a filter begins. */
  function NextPattern(filter: string): Option<string> {
    if filter == [] then None else if filter[0] == ':' then Some(filter[1..]) else NextPattern(filter[1..])
  }

  lemma {:induction false} NextIsShorter(filter: string)
    ensures NextPattern(filter).Some? ==> |NextPattern(filter).value| < |filter|
  {
    if filter != [] && filter[0] != ':' {
      NextIsShorter(filter[1..]);
    }
  }

  predicate MatchesAny(name: string, filter: string)
    decreases |filter|
  {
    PatternMatchesString(filter, name)
    || (NextIsShorter(filter); match NextPattern(filter) case None => false case Some(rest) => MatchesAny(name, rest))
  }

  method MatchesFilter(name: string, filter: string) returns (matches: bool)
    ensures matches == MatchesAny(name, filter)
  {
    var curPattern := filter;
    while true
      invariant MatchesAny(name, curPattern) == MatchesAny(name, filter)
      decreases |curPattern|
    {
      if PatternMatchesString(curPattern, name) {
        return true;
      }
      NextIsShorter(curPattern);
      match NextPattern(curPattern) {
        case None => return false;
        case Some(rest) => curPattern := rest;
      }
    }
  }

  // ----- what a filter means

  /** One character of a pattern against a part of the string. */
  predicate PartMatches(c: char, part: string) { c == '*' || (|part| == 1 && (c == '?' || part[0] == c)) }

  function Joined(parts: seq<string>): string { if parts == [] then "" else parts[0] + Joined(parts[1..]) }

  /** The string is cut into parts, one for each character of the pattern. */
  predicate Cut(pattern: string, str: string, parts: seq<string>) {
    && |parts| == |pattern| && Joined(parts) == str
    && forall i | 0 <= i < |pattern| :: PartMatches(pattern[i], parts[i])
  }

  /** The first part, and a cut of what follows it. */
  lemma CutMore(pattern: string, str: string, k: nat, parts: seq<string>)
    requires pattern != [] && k <= |str| && PartMatches(pattern[0], str[..k]) && Cut(pattern[1..], str[k..], parts)
    ensures Cut(pattern, str, [str[..k]] + parts)
  {
    var all := [str[..k]] + parts;
    assert all[1..] == parts && str == str[..k] + str[k..];
    forall i | 0 <= i < |pattern| ensures PartMatches(pattern[i], all[i]) {
      if i > 0 {
        assert pattern[1..][i - 1] == pattern[i];
      }
    }
  }

  lemma CutLess(pattern: string, str: string, all: seq<string>)
    requires pattern != [] && Cut(pattern, str, all)
    ensures var k := |all[0]|;
            k <= |str| && str[..k] == all[0] && PartMatches(pattern[0], str[..k]) && Cut(pattern[1..], str[k..], all[1..])
  {
    var k := |all[0]|;
    assert str == all[0] + Joined(all[1..]);
    assert str[..k] == all[0] && str[k..] == Joined(all[1..]);
  }

  /** Glob matching: a pattern matches exactly the strings that can be cut into
      parts, any one for a star, one character for a question mark, and the
      character itself for any other. */
  lemma {:induction false} PatternMeans(pattern: string, str: string)
    requires ':' !in pattern
    ensures PatternMatchesString(pattern, str) <==> exists parts :: Cut(pattern, str, parts)
    decreases |pattern|, 1
  {
    if pattern == [] {
      assert Cut([], [], []);
    } else if pattern[0] == '*' {
      StarMeans(pattern, str);
    } else {
      OneMeans(pattern, str);
    }
  }

  lemma {:induction false} OneMeans(pattern: string, str: string)
    requires ':' !in pattern && pattern != [] && pattern[0] != '*'
    ensures PatternMatchesString(pattern, str) <==> exists parts :: Cut(pattern, str, parts)
    decreases |pattern|, 0
  {
    if str != [] {
      PatternMeans(pattern[1..], str[1..]);
      if PatternMatchesString(pattern, str) {
        var parts :| Cut(pattern[1..], str[1..], parts);
        CutMore(pattern, str, 1, parts);
      }
    }
    if all :| Cut(pattern, str, all) {
      CutLess(pattern, str, all);
      assert str[1..] == str[|all[0]|..] && Cut(pattern[1..], str[1..], all[1..]);
    }
  }

  lemma {:induction false} StarMeans(pattern: string, str: string)
    requires ':' !in pattern && pattern != [] && pattern[0] == '*'
    ensures PatternMatchesString(pattern, str) <==> exists parts :: Cut(pattern, str, parts)
    decreases |pattern|, 0
  {
    var rest := pattern[1..];
    assert pattern == "*" + rest;
    StarMatches(rest, str);
    forall k | 0 <= k <= |str| ensures PatternMatchesString(rest, str[k..]) <==> exists parts :: Cut(rest, str[k..], parts) {
      PatternMeans(rest, str[k..]);
    }
    if PatternMatchesString(pattern, str) {
      var k :| 0 <= k <= |str| && PatternMatchesString(rest, str[k..]);
      var parts :| Cut(rest, str[k..], parts);
      CutMore(pattern, str, k, parts);
    }
    if all :| Cut(pattern, str, all) {
      CutLess(pattern, str, all);
    }
  }

  /** The patterns of a filter, between its colons. */
  function Patterns(filter: string): seq<string>
    decreases |filter|
  {
    var n := ColonAt(filter);
    if n == |filter| then [filter] else [filter[..n]] + Patterns(filter[n + 1..])
  }

  function ColonAt(filter: string): (n: nat)
    ensures n <= |filter| && ':' !in filter[..n] && (n < |filter| ==> filter[n] == ':')
  {
    if filter == [] || filter[0] == ':' then 0
    else
      assert forall n | 0 <= n < |filter| :: filter[..n + 1] == [filter[0]] + filter[1..][..n];
      1 + ColonAt(filter[1..])
  }

  /** A pattern ends at its colon. */
  lemma {:induction false} UpToColon(pattern: string, rest: string, str: string)
    requires ':' !in pattern
    ensures PatternMatchesString(pattern + (":" + rest), str) <==> PatternMatchesString(pattern, str)
    decreases |pattern| + |str|
  {
    var p := pattern + (":" + rest);
    if pattern == [] {
      assert p == ":" + rest;
      EndOfPattern(rest, str);
    } else {
      assert p[0] == pattern[0] && p[1..] == pattern[1..] + (":" + rest);
      if str != [] {
        UpToColon(pattern[1..], rest, str[1..]);
        if pattern[0] == '*' {
          UpToColon(pattern, rest, str[1..]);
        }
      }
      UpToColon(pattern[1..], rest, str);
    }
  }

  predicate Selects(patterns: seq<string>, name: string) {
    exists i | 0 <= i < |patterns| :: ':' !in patterns[i] && PatternMatchesString(patterns[i], name)
  }

  lemma SelectsMore(pattern: string, patterns: seq<string>, name: string)
    requires ':' !in pattern
    ensures Selects([pattern] + patterns, name) <==> PatternMatchesString(pattern, name) || Selects(patterns, name)
  {
    var all := [pattern] + patterns;
    assert all[0] == pattern;
    if i :| 0 <= i < |patterns| && ':' !in patterns[i] && PatternMatchesString(patterns[i], name) {
      assert all[i + 1] == patterns[i];
    }
  }

  lemma PatternsUnfold(filter: string, n: nat)
    requires n == ColonAt(filter)
    ensures n == |filter| ==> Patterns(filter) == [filter]
    ensures n < |filter| ==> Patterns(filter) == [filter[..n]] + Patterns(filter[n + 1..])
  {
    hide ColonAt;
  }

  lemma ColonSplits(filter: string, n: nat)
    requires n < |filter| && filter[n] == ':'
    ensures filter == filter[..n] + (":" + filter[n + 1..]) && filter == filter[..n] + ":" + filter[n + 1..]
  {
    assert filter[n..] == [filter[n]] + filter[n + 1..];
    assert filter == filter[..n] + filter[n..];
  }

  /** A filter selects the names that one of its patterns matches. */
  lemma {:induction false} FilterMeans(name: string, filter: string)
    ensures MatchesAny(name, filter) <==> Selects(Patterns(filter), name)
    decreases |filter|
  {
    hide PatternMatchesString, Patterns, Selects;
    var n := ColonAt(filter);
    PatternsUnfold(filter, n);
    if n == |filter| {
      assert filter[..n] == filter && [filter] + [] == [filter];
      NoMorePatterns(filter);
      SelectsMore(filter, [], name);
      assert !Selects([], name) by { SelectsNone(name); }
    } else {
      var rest := filter[n + 1..];
      ColonSplits(filter, n);
      UpToColon(filter[..n], rest, name);
      SkipPattern(filter[..n], rest);
      FilterMeans(name, rest);
      SelectsMore(filter[..n], Patterns(rest), name);
    }
  }

  lemma SelectsNone(name: string)
    ensures !Selects([], name)
  {
  }

  // ----- what the filter of death tests means

  predicate Plain(s: string) { forall i | 0 <= i < |s| :: s[i] != ':' && s[i] != '?' && s[i] != '*' }

  /** Plain characters match themselves. */
  lemma {:induction false} PlainMatches(plain: string, rest: string, str: string)
    requires Plain(plain)
    ensures PatternMatchesString(plain + rest, str) <==> plain <= str && PatternMatchesString(rest, str[|plain|..])
  {
    if plain == [] {
      assert plain + rest == rest && str[0..] == str;
    } else {
      var p := plain + rest;
      assert p[0] == plain[0] && p[1..] == plain[1..] + rest;
      if str != [] && str[0] == plain[0] {
        PlainMatches(plain[1..], rest, str[1..]);
        assert plain <= str <==> plain[1..] <= str[1..];
        if plain <= str {
          assert str[1..][|plain| - 1..] == str[|plain|..];
        }
      }
    }
  }

  /** A star matches any characters. */
  lemma {:induction false} StarMatches(rest: string, str: string)
    ensures PatternMatchesString("*" + rest, str)
       <==> exists k | 0 <= k <= |str| :: PatternMatchesString(rest, str[k..])
    decreases |str|
  {
    var p := "*" + rest;
    assert p[0] == '*' && p[1..] == rest && str[0..] == str;
    if str != [] {
      StarMatches(rest, str[1..]);
      if k :| 0 <= k <= |str[1..]| && PatternMatchesString(rest, str[1..][k..]) {
        assert str[1..][k..] == str[k + 1..];
      }
      if k :| 1 <= k <= |str| && PatternMatchesString(rest, str[k..]) {
        assert str[1..][k - 1..] == str[k..];
      }
    }
  }

  predicate At(s: string, part: string, i: nat) { i + |part| <= |s| && s[i..i + |part|] == part }

  /** The name ends with DeathTest, or DeathTest/ is somewhere in it. */
  ghost predicate IsDeathName(name: string) {
    (|name| >= 9 && At(name, "DeathTest", |name| - 9)) || exists i | 0 <= i <= |name| :: At(name, "DeathTest/", i)
  }

  lemma EndOfPattern(rest: string, str: string)
    ensures PatternMatchesString(":" + rest, str) <==> str == []
  {
    assert (":" + rest)[0] == ':';
  }

  lemma SuffixFrom(rest: string, name: string, k: nat)
    requires k <= |name|
    ensures PatternMatchesString("DeathTest" + (":" + rest), name[k..]) <==> |name| == k + 9 && At(name, "DeathTest", k)
  {
    hide PatternMatchesString;
    PlainMatches("DeathTest", ":" + rest, name[k..]);
    if "DeathTest" <= name[k..] {
      EndOfPattern(rest, name[k..][9..]);
      assert name[k..][..9] == name[k..k + 9];
    }
    if |name| == k + 9 && At(name, "DeathTest", k) {
      assert name[k..] == name[k..k + 9];
    }
  }

  lemma SuffixPattern(rest: string, name: string)
    ensures PatternMatchesString("*" + ("DeathTest" + (":" + rest)), name)
       <==> |name| >= 9 && At(name, "DeathTest", |name| - 9)
  {
    hide PatternMatchesString;
    StarMatches("DeathTest" + (":" + rest), name);
    forall k | 0 <= k <= |name|
      ensures PatternMatchesString("DeathTest" + (":" + rest), name[k..]) <==> |name| == k + 9 && At(name, "DeathTest", k)
    {
      SuffixFrom(rest, name, k);
    }
    if |name| >= 9 && At(name, "DeathTest", |name| - 9) {
      assert PatternMatchesString("DeathTest" + (":" + rest), name[|name| - 9..]);
    }
  }

  lemma FilterParts()
    ensures DEATH_TEST_CASE_FILTER == "*" + ("DeathTest" + (":" + "*DeathTest/*"))
    ensures DEATH_TEST_CASE_FILTER == "*DeathTest" + ":" + "*DeathTest/*"
  {
    assert ":" + "*DeathTest/*" == ":*DeathTest/*";
    assert "DeathTest" + ":*DeathTest/*" == "DeathTest:*DeathTest/*";
    assert "*" + "DeathTest:*DeathTest/*" == DEATH_TEST_CASE_FILTER;
    assert "*DeathTest" + ":" == "*DeathTest:";
    assert "*DeathTest:" + "*DeathTest/*" == DEATH_TEST_CASE_FILTER;
  }

  lemma {:induction false} AnythingMatches(str: string)
    ensures PatternMatchesString("*", str)
  {
    StarMatches("", str);
    assert str[|str|..] == [] && "*" + "" == "*";
  }

  lemma InfixPattern(name: string)
    ensures PatternMatchesString("*DeathTest/*", name) <==> exists i | 0 <= i <= |name| :: At(name, "DeathTest/", i)
  {
    hide PatternMatchesString;
    assert "*DeathTest/*" == "*" + ("DeathTest/" + "*");
    StarMatches("DeathTest/" + "*", name);
    forall k | 0 <= k <= |name|
      ensures PatternMatchesString("DeathTest/" + "*", name[k..]) <==> At(name, "DeathTest/", k)
    {
      PlainMatches("DeathTest/", "*", name[k..]);
      if "DeathTest/" <= name[k..] {
        assert name[k..][..10] == name[k..k + 10];
        AnythingMatches(name[k..][10..]);
      }
      if At(name, "DeathTest/", k) {
        assert name[k..][..10] == name[k..k + 10];
      }
    }
  }

  /** The filter selects exactly the names that end with DeathTest or contain
      DeathTest followed by a slash. */
  lemma DeathTestFilter(name: string)
    ensures MatchesAny(name, DEATH_TEST_CASE_FILTER) <==> IsDeathName(name)
  {
    hide PatternMatchesString;
    FilterParts();
    SuffixPattern("*DeathTest/*", name);
    InfixPattern(name);
    SkipPattern("*DeathTest", "*DeathTest/*");
    NoMorePatterns("*DeathTest/*");
  }

  lemma {:induction false} SkipPattern(a: string, b: string)
    requires ':' !in a
    ensures NextPattern(a + ":" + b) == Some(b)
  {
    var s := a + ":" + b;
    if a == [] {
      assert s[0] == ':' && s[1..] == b;
    } else {
      assert s[0] == a[0] && s[1..] == a[1..] + ":" + b;
      SkipPattern(a[1..], b);
    }
  }

  lemma {:induction false} NoMorePatterns(s: string)
    requires ':' !in s
    ensures NextPattern(s) == None
  {
    if s != [] {
      NoMorePatterns(s[1..]);
    }
  }
}
