/** The regular expression object: what a full match and a partial match of it
    mean. */
module RegularExpressions {
  import opened Errors
  import opened RegexLanguage
  import opened RegexMatcher

  /** Expressions whose last character is a dollar sign that is no anchor. */
  predicate EndsInEscapedDollar(p: Pattern) {
    !p.tail && p.items != [] && p.items[|p.items| - 1] == One(Atom(true, '$'))
  }

  /** The expression a full match is made with. */
  function Full(p: Pattern): Pattern { Pattern(true, p.items, p.tail || !EndsInEscapedDollar(p)) }

  class RE {
    var pattern: Option<seq<char>>
    var fullPattern: Option<seq<char>>
    var isValid: bool
    /** What the pattern writes, when it is valid. */
    ghost var expression: Pattern

    ghost predicate Valid()
      reads this
    {
      && Pointer(pattern) && Pointer(fullPattern)
      && (isValid <==> pattern.Some? && IsExpression(Text(pattern.value)))
      && (isValid ==>
            && Wf(expression.items) && Render(expression) == Text(pattern.value)
            && fullPattern.Some? && Text(fullPattern.value) == Render(Full(expression)))
    }

    constructor (regex: Option<seq<char>>)
      requires Pointer(regex)
      ensures Valid() && pattern == regex
    {
      new;
      Init(regex);
    }

    method Init(regex: Option<seq<char>>)
      requires Pointer(regex)
      modifies this
      ensures Valid() && pattern == regex
    {
      hide IsExpression, AtomOk;
      pattern, fullPattern := regex, None;
      isValid := ValidateRegex(regex);
      if !isValid {
        return;
      }
      assert IsExpression(Text(regex.value));
      expression := Written(Text(regex.value));
      AnchorsOf(regex.value, expression);
      RenderedNoNul(Full(expression));
      var full := Anchored(regex.value);
      fullPattern := Some(full);
    }

    /** Fills a buffer in place with the expression for full matches: an anchor
        in front and one behind, unless the expression has them. */
    static method Anchored(r: seq<char>) returns (full: seq<char>)
      requires CString(r)
      ensures full == Front(r) + Text(r) + Back(r) + "\0"
    {
      var len := |r| - 1;
      var buffer := new char[len + 3];
      var at := 0;
      if r[0] != '^' {
        buffer[0], at := '^', 1;
      }
      assert buffer[..at] == Front(r);
      forall i | 0 <= i < len { buffer[at + i] := r[i]; }
      assert buffer[..at + len] == Front(r) + Text(r);
      at := at + len;
      if len == 0 || r[len - 1] != '$' {
        buffer[at], at := '$', at + 1;
      }
      assert buffer[..at] == Front(r) + Text(r) + Back(r);
      buffer[at] := '\0';
      full := buffer[..at + 1];
    }

    static method FullMatch(str: Option<seq<char>>, re: RE) returns (matched: bool)
      requires re.Valid() && Pointer(str) && (str.Some? ==> |Text(str.value)| <= MAX_COUNT)
      ensures matched <==> re.isValid && str.Some? && Matches(Full(re.expression), Text(str.value))
    {
      matched := false;
      if re.isValid {
        matched := MatchRegexAnywhere(re.fullPattern, str, Full(re.expression));
      }
    }

    static method PartialMatch(str: Option<seq<char>>, re: RE) returns (matched: bool)
      requires re.Valid() && Pointer(str) && (str.Some? ==> |Text(str.value)| <= MAX_COUNT)
      ensures matched <==> re.isValid && str.Some? && Matches(re.expression, Text(str.value))
    {
      matched := false;
      if re.isValid {
        matched := MatchRegexAnywhere(re.pattern, str, re.expression);
      }
    }
  }

  ghost function Written(s: string): (p: Pattern)
    requires IsExpression(s)
    ensures Wf(p.items) && Render(p) == s
  {
    var p: Pattern :| Wf(p.items) && Render(p) == s; p
  }

  // ----- the anchors

  function Front(r: seq<char>): string
    requires CString(r)
  {
    if r[0] != '^' then "^" else ""
  }

  function Back(r: seq<char>): string
    requires CString(r)
  {
    if |r| == 1 || r[|r| - 2] != '$' then "$" else ""
  }

  lemma {:induction false} LastRendered(items: seq<Item>, tail: bool)
    requires Wf(items)
    ensures var t := RenderItems(items, tail);
            t != [] && t[|t| - 1] == '$'
            <==> tail || (items != [] && items[|items| - 1] == One(Atom(true, '$')))
  {
    if items != [] {
      var t, rest := RenderItems(items, tail), RenderItems(items[1..], tail);
      LastRendered(items[1..], tail);
      if items[1..] != [] || tail {
        assert rest != [];
        assert t[|t| - 1] == rest[|rest| - 1];
      } else {
        LastOfItem(items[0]);
        assert t == RenderAtom(items[0].a) + Suffix(items[0]);
      }
    }
  }

  lemma LastOfItem(item: Item)
    requires AtomOk(item.a)
    ensures var t := RenderAtom(item.a) + Suffix(item);
            t[|t| - 1] == '$' <==> item == One(Atom(true, '$'))
  {
    if !item.a.escaped {
      PlainAtom(item.a);
    }
  }

  lemma {:induction false} TailAppended(items: seq<Item>)
    ensures RenderItems(items, true) == RenderItems(items, false) + "$"
  {
    if items != [] {
      TailAppended(items[1..]);
      JoinStrings(RenderAtom(items[0].a) + Suffix(items[0]), RenderItems(items[1..], false), "$");
    }
  }

  lemma BackOf(r: seq<char>, p: Pattern)
    requires CString(r) && Wf(p.items) && Render(p) == Text(r)
    ensures Back(r) == if p.tail || EndsInEscapedDollar(p) then "" else "$"
  {
    hide AtomOk;
    LastRendered(p.items, p.tail);
    var t, head := RenderItems(p.items, p.tail), if p.head then "^" else "";
    assert Text(r) == head + t;
    if |r| > 1 {
      assert r[|r| - 2] == Text(r)[|r| - 2];
    }
    if t != [] {
      assert (head + t)[|head + t| - 1] == t[|t| - 1];
    }
  }

  /** Where the full expression differs from the expression itself. */
  lemma AnchorsOf(r: seq<char>, p: Pattern)
    requires CString(r) && Wf(p.items) && Render(p) == Text(r)
    ensures Render(Full(p)) == Front(r) + Text(r) + Back(r)
  {
    hide AtomOk, Back, Front, RenderItems;
    FrontOf(r, p);
    BackOf(r, p);
    TailAppended(p.items);
    var t := RenderItems(p.items, p.tail);
    assert Front(r) + Text(r) == "^" + t;
    JoinStrings("^", t, Back(r));
  }

  lemma FrontOf(r: seq<char>, p: Pattern)
    requires CString(r) && Wf(p.items) && Render(p) == Text(r)
    ensures Front(r) == if p.head then "" else "^"
  {
    HeadRendered(r, p);
  }

  lemma {:induction false} ItemsNoNul(items: seq<Item>, tail: bool)
    requires Wf(items)
    ensures NoNul(RenderItems(items, tail))
  {
    if items != [] {
      ItemsNoNul(items[1..], tail);
    }
  }

  lemma RenderedNoNul(p: Pattern)
    requires Wf(p.items)
    ensures NoNul(Render(p))
  {
    ItemsNoNul(p.items, p.tail);
  }

  // ----- the meaning of a full match

  /** The end anchor makes a full match a match of the whole string. */
  lemma FullMatchIsWhole(p: Pattern, u: string)
    requires !EndsInEscapedDollar(p)
    ensures Matches(Full(p), u) <==> InLanguage(p.items, u)
  {
    assert u[0..|u|] == u;
  }

  /** Without it a full match only finds a prefix. */
  lemma FullMatchIsPrefix(p: Pattern, u: string)
    requires EndsInEscapedDollar(p)
    ensures Matches(Full(p), u) <==> exists j | 0 <= j <= |u| :: InLanguage(p.items, u[..j])
  {
    if Matches(Full(p), u) {
      var i, j :| 0 <= i <= j <= |u| && i == 0 && InLanguage(p.items, u[i..j]);
      assert u[i..j] == u[..j];
    }
    if j :| 0 <= j <= |u| && InLanguage(p.items, u[..j]) {
      assert u[0..j] == u[..j];
    }
  }

  /** A character an atom matches. */
  function Sample(a: Atom): char {
    if !a.escaped then a.c
    else match a.c
         case 'd' => '0'
         case 'D' => 'a'
         case 'f' => '\U{C}'
         case 'n' => '\n'
         case 'r' => '\r'
         case 's' => ' '
         case 'S' => 'a'
         case 't' => '\t'
         case 'v' => '\U{B}'
         case 'w' => 'a'
         case 'W' => ' '
         case _ => a.c
  }

  lemma SampleMatches(a: Atom)
    requires AtomOk(a)
    ensures AtomMatchesChar(a.escaped, a.c, Sample(a))
  {
  }

  function SomeWord(items: seq<Item>): string {
    if items == [] then [] else [Sample(items[0].a)] + SomeWord(items[1..])
  }

  /** No language is empty. */
  lemma {:induction false} WordInLanguage(items: seq<Item>)
    requires Wf(items)
    ensures InLanguage(items, SomeWord(items))
  {
    if items != [] {
      assert AtomOk(items[0].a);
      SampleMatches(items[0].a);
      WordInLanguage(items[1..]);
      var w := SomeWord(items);
      assert w[..1] == [Sample(items[0].a)] && w[1..] == SomeWord(items[1..]);
      assert InItem(items[0], w[..1]);
    }
  }

  lemma OneDollar(w: string)
    requires InLanguage([One(Atom(true, '$'))], w)
    ensures w == "$"
  {
    var k :| 0 <= k <= |w| && InItem(One(Atom(true, '$')), w[..k]) && InLanguage([], w[k..]);
    assert w[..1][0] == w[0];
  }

  lemma {:induction false} LastIsDollar(items: seq<Item>, w: string)
    requires items != [] && items[|items| - 1] == One(Atom(true, '$')) && InLanguage(items, w)
    ensures w != [] && w[|w| - 1] == '$'
  {
    if |items| == 1 {
      assert items == [One(Atom(true, '$'))];
      OneDollar(w);
    } else {
      var k :| 0 <= k <= |w| && InItem(items[0], w[..k]) && InLanguage(items[1..], w[k..]);
      LastIsDollar(items[1..], w[k..]);
    }
  }

  /** A full match is a match of the whole string, whatever the string, if and
      only if the expression does not end in an escaped dollar sign. */
  lemma FullMatchIffNoEscapedDollar(p: Pattern)
    requires Wf(p.items)
    ensures (forall u: string :: Matches(Full(p), u) <==> InLanguage(p.items, u)) <==> !EndsInEscapedDollar(p)
  {
    if EndsInEscapedDollar(p) {
      var w := SomeWord(p.items);
      var u := w + "x";
      WordInLanguage(p.items);
      assert u[..|w|] == w;
      FullMatchIsPrefix(p, u);
      assert Matches(Full(p), u);
      if InLanguage(p.items, u) {
        LastIsDollar(p.items, u);
      }
    } else {
      forall u: string ensures Matches(Full(p), u) <==> InLanguage(p.items, u) {
        FullMatchIsWhole(p, u);
      }
    }
  }
}
