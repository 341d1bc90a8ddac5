/** The validator and the backtracking matcher, working on C strings: arrays of
    characters whose terminator is part of the memory, so that every access is
    shown to stay at or before it. */
module RegexMatcher {
  import opened Errors
  import opened RegexLanguage

  /** The largest repetition count that is tried: one less than what a size_t
      of 64 bits can hold. */
  const MAX_COUNT := 0xFFFF_FFFF_FFFF_FFFE

  predicate CString(m: seq<char>) {
    |m| > 0 && m[|m| - 1] == '\0' && NoNul(m[..|m| - 1])
  }

  function Text(m: seq<char>): string
    requires CString(m)
  {
    m[..|m| - 1]
  }

  /** A null pointer is None. */
  predicate Pointer(p: Option<seq<char>>) { p.Some? ==> CString(p.value) }

  /** True exactly for the strings that write some expression. */
  method ValidateRegex(regex: Option<seq<char>>) returns (isValid: bool)
    requires Pointer(regex)
    ensures isValid <==> regex.Some? && IsExpression(Text(regex.value))
  {
    if regex.None? {
      return false;
    }
    var r := regex.value;
    ghost var s := Text(r);
    ValidIffExpression(s);
    isValid := true;
    var prevRepeatable := false;
    var i := 0;
    while r[i] != '\0'
      invariant i <= |s|
      invariant isValid && ValidFrom(s, i, prevRepeatable) <==> ValidFrom(s, 0, false)
      decreases |r| - i
    {
      assert r[i] == s[i];
      if r[i] == '\\' {
        i := i + 1;
        if r[i] == '\0' {
          return false;
        }
        if !IsValidEscape(r[i]) {
          isValid := false;
        }
        prevRepeatable := true;
      } else {
        if r[i] == '^' && i > 0 {
          isValid := false;
        } else if r[i] == '$' && r[i + 1] != '\0' {
          isValid := false;
        } else if IsInSet(r[i], "()[]{}|") {
          isValid := false;
        } else if IsRepeat(r[i]) && !prevRepeatable {
          isValid := false;
        }
        prevRepeatable := !IsInSet(r[i], "^$?*+");
      }
      i := i + 1;
    }
  }

  function MinCount(repeat: char): nat { if repeat == '+' then 1 else 0 }

  function MaxCount(repeat: char): nat { if repeat == '?' then 1 else MAX_COUNT }

  /** The words of a repetition are those of as many matching characters as it
      admits. */
  lemma RepetitionWords(a: Atom, repeat: char, w: string)
    requires IsRepeat(repeat) && |w| <= MAX_COUNT
    ensures InItem(Repeated(a, [repeat]), w) <==> All(a, w) && MinCount(repeat) <= |w| <= MaxCount(repeat)
  {
  }

  /** Matches a repeated atom and what follows it in the expression, which is
      `items` and maybe the end anchor. */
  method MatchRepetitionAndRegexAtHead(escaped: bool, c: char, repeat: char, regex: seq<char>, r: nat,
                                       str: seq<char>, s: nat, ghost items: seq<Item>, ghost tail: bool)
      returns (matched: bool)
    requires CString(regex) && CString(str) && r <= |Text(regex)| && s <= |Text(str)| <= MAX_COUNT
    requires IsRepeat(repeat) && Wf(items) && Text(regex)[r..] == RenderItems(items, tail)
    ensures matched <==> AtHead([Repeated(Atom(escaped, c), [repeat])] + items, tail, Text(str)[s..])
    decreases |regex| - r, 1
  {
    ghost var a, u := Atom(escaped, c), Text(str)[s..];
    ghost var item := Repeated(a, [repeat]);
    AtHeadSplits(item, items, tail, u);
    var minCount := MinCount(repeat);
    var maxCount := MaxCount(repeat);
    var i := 0;
    while i <= maxCount
      invariant i <= |u| && i <= maxCount + 1 && All(a, u[..i])
      invariant forall k | minCount <= k < i :: !AtHead(items, tail, u[k..])
      decreases maxCount + 1 - i
    {
      assert u[i..] == Text(str)[s + i..];
      if i >= minCount {
        var rest := MatchRegexAtHead(regex, r, str, s + i, items, tail);
        if rest {
          RepetitionWords(a, repeat, u[..i]);
          return true;
        }
      }
      if str[s + i] == '\0' || !AtomMatchesChar(escaped, c, str[s + i]) {
        NoLongerWord(a, repeat, items, tail, u, i);
        return false;
      }
      assert u[i] == str[s + i] && u[..i + 1] == u[..i] + [u[i]];
      i := i + 1;
    }
    NoLongerWord(a, repeat, items, tail, u, i - 1);
    return false;
  }

  lemma AllAt(a: Atom, u: string, k: nat, i: nat)
    requires i < k <= |u| && All(a, u[..k])
    ensures AtomMatchesChar(a.escaped, a.c, u[i])
  {
    assert u[..k][i] == u[i];
  }

  /** When no count up to `i` matches and the atom stops matching there, or the
      repetition admits no more, nothing matches. */
  lemma NoLongerWord(a: Atom, repeat: char, items: seq<Item>, tail: bool, u: string, i: nat)
    requires IsRepeat(repeat) && i <= |u| <= MAX_COUNT
    requires forall k | MinCount(repeat) <= k <= i :: !AtHead(items, tail, u[k..])
    requires i == |u| || !AtomMatchesChar(a.escaped, a.c, u[i]) || i == MaxCount(repeat)
    ensures !AtHead([Repeated(a, [repeat])] + items, tail, u)
  {
    var item := Repeated(a, [repeat]);
    AtHeadSplits(item, items, tail, u);
    forall k | 0 <= k <= |u| && InItem(item, u[..k]) ensures k <= i {
      RepetitionWords(a, repeat, u[..k]);
      if k > i {
        AllAt(a, u, k, i);
      }
    }
    forall k | 0 <= k <= |u| && InItem(item, u[..k]) ensures !AtHead(items, tail, u[k..]) {
      RepetitionWords(a, repeat, u[..k]);
    }
  }

  /** True exactly when a prefix of the string is in the language of the rest of
      the expression, respecting its end anchor. */
  method MatchRegexAtHead(regex: seq<char>, r: nat, str: seq<char>, s: nat, ghost items: seq<Item>, ghost tail: bool)
      returns (matched: bool)
    requires CString(regex) && CString(str) && r <= |Text(regex)| && s <= |Text(str)| <= MAX_COUNT
    requires Wf(items) && Text(regex)[r..] == RenderItems(items, tail)
    ensures matched <==> AtHead(items, tail, Text(str)[s..])
    decreases |regex| - r, 0
  {
    hide AtHead, Wf, IsRepeat, AtomMatchesChar, RenderItems;
    ghost var u := Text(str)[s..];
    TextFrom(regex, r);
    TextFrom(str, s);
    if regex[r] == '\0' {
      RenderedEmpty(items, tail);
      AtHeadOfNone(tail, u);
      return true;
    }
    if regex[r] == '$' {
      RenderedAnchor(items, tail);
      AtHeadOfNone(tail, u);
      return str[s] == '\0';
    }
    var escaped := regex[r] == '\\';
    var q := if escaped then r + 1 else r;
    AtomRendered(regex, r, items, tail);
    ghost var item, rest := items[0], items[1..];
    if IsRepeat(regex[q + 1]) {
      RepeatRendered(regex, q, item, rest, tail);
      matched := MatchRepetitionAndRegexAtHead(escaped, regex[q], regex[q + 1], regex, q + 2, str, s, rest, tail);
    } else {
      OneRendered(regex, q, item, rest, tail);
      OneAtHead(item.a, rest, tail, u);
      matched := str[s] != '\0' && AtomMatchesChar(escaped, regex[q], str[s]);
      if matched {
        matched := MatchRegexAtHead(regex, q + 1, str, s + 1, rest, tail);
      }
    }
  }

  /** What a C string holds at a position and after it. */
  lemma TextFrom(m: seq<char>, i: nat)
    requires CString(m) && i <= |Text(m)|
    ensures m[i] == '\0' <==> Text(m)[i..] == []
    ensures m[i] != '\0' ==> i < |Text(m)| && Text(m)[i..][0] == m[i] && Text(m)[i..][1..] == Text(m)[i + 1..]
  {
    if i < |Text(m)| {
      assert m[i] == Text(m)[i];
    }
  }

  lemma OneAtHead(a: Atom, rest: seq<Item>, tail: bool, u: string)
    ensures AtHead([One(a)] + rest, tail, u)
       <==> u != [] && AtomMatchesChar(a.escaped, a.c, u[0]) && AtHead(rest, tail, u[1..])
  {
    AtHeadSplits(One(a), rest, tail, u);
    if u != [] && AtomMatchesChar(a.escaped, a.c, u[0]) && AtHead(rest, tail, u[1..]) {
      assert InItem(One(a), u[..1]);
    }
    forall k | 0 <= k <= |u| && InItem(One(a), u[..k]) && AtHead(rest, tail, u[k..])
      ensures k == 1 && AtomMatchesChar(a.escaped, a.c, u[0])
    {
      assert u[..1][0] == u[0];
    }
  }

  /** What stands at `r` when neither the end nor the anchor does. */
  lemma AtomRendered(regex: seq<char>, r: nat, items: seq<Item>, tail: bool)
    requires CString(regex) && r <= |Text(regex)| && Wf(items) && Text(regex)[r..] == RenderItems(items, tail)
    requires regex[r] != '\0' && regex[r] != '$'
    ensures items != [] && Wf(items[1..]) && items == [items[0]] + items[1..]
    ensures var a, q := items[0].a, if regex[r] == '\\' then r + 1 else r;
            && a.escaped == (regex[r] == '\\') && q < |Text(regex)| && a.c == regex[q]
            && Text(regex)[q + 1..] == Suffix(items[0]) + RenderItems(items[1..], tail)
  {
    hide AtomOk, Suffix;
    TextFrom(regex, r);
    RenderedAtom(items, tail);
    var t, a := Text(regex)[r..], items[0].a;
    if a.escaped {
      assert regex[r + 1] == t[1] && Text(regex)[r + 2..] == t[2..];
    } else {
      assert Text(regex)[r + 1..] == t[1..];
    }
  }

  /** After a repeated atom stand its repetition character and the rest. */
  lemma RepeatRendered(regex: seq<char>, q: nat, item: Item, rest: seq<Item>, tail: bool)
    requires CString(regex) && q < |Text(regex)| && Wf(rest)
    requires Text(regex)[q + 1..] == Suffix(item) + RenderItems(rest, tail) && IsRepeat(regex[q + 1])
    ensures q + 2 <= |Text(regex)| && Text(regex)[q + 2..] == RenderItems(rest, tail)
    ensures item == Repeated(item.a, [regex[q + 1]])
  {
    TextFrom(regex, q + 1);
    var t := Text(regex)[q + 1..];
    if item.One? {
      assert t == RenderItems(rest, tail);
      RestNotRepeat(rest, tail);
    } else {
      assert t[0] == Suffix(item)[0] && t[1..] == RenderItems(rest, tail);
    }
  }

  lemma SuffixFirst(item: Item, rest: string)
    ensures !item.One? ==> IsRepeat((Suffix(item) + rest)[0])
    ensures item.One? ==> Suffix(item) + rest == rest
  {
  }

  lemma OneRendered(regex: seq<char>, q: nat, item: Item, rest: seq<Item>, tail: bool)
    requires CString(regex) && q < |Text(regex)|
    requires Text(regex)[q + 1..] == Suffix(item) + RenderItems(rest, tail) && !IsRepeat(regex[q + 1])
    ensures item == One(item.a) && Text(regex)[q + 1..] == RenderItems(rest, tail)
  {
    TextFrom(regex, q + 1);
    SuffixFirst(item, RenderItems(rest, tail));
  }

  /** No repetition character begins an expression. */
  lemma RestNotRepeat(rest: seq<Item>, tail: bool)
    requires Wf(rest)
    ensures RenderItems(rest, tail) != [] ==> !IsRepeat(RenderItems(rest, tail)[0])
  {
    if rest != [] {
      hide AtomOk;
      var a := rest[0].a;
      if !a.escaped {
        PlainAtom(a);
      }
      assert RenderItems(rest, tail)[0] == RenderAtom(a)[0];
    }
  }

  lemma RenderedEmpty(items: seq<Item>, tail: bool)
    requires RenderItems(items, tail) == []
    ensures items == [] && !tail
  {
  }

  lemma RenderedAnchor(items: seq<Item>, tail: bool)
    requires Wf(items) && RenderItems(items, tail) != [] && RenderItems(items, tail)[0] == '$'
    ensures items == [] && tail
  {
  }

  lemma PlainAtom(a: Atom)
    requires AtomOk(a) && !a.escaped
    ensures a.c != '\\' && a.c != '$' && !IsRepeat(a.c)
  {
  }

  lemma RenderedAtom(items: seq<Item>, tail: bool)
    requires Wf(items)
    requires var t := RenderItems(items, tail); t != [] && t[0] != '$'
    ensures items != [] && AtomOk(items[0].a)
    ensures var t, a := RenderItems(items, tail), items[0].a;
            && a.escaped == (t[0] == '\\')
            && (a.escaped ==> |t| > 1)
            && a.c == (if a.escaped then t[1] else t[0])
            && t[if a.escaped then 2 else 1..] == Suffix(items[0]) + RenderItems(items[1..], tail)
  {
    hide AtomOk;
    var a := items[0].a;
    if !a.escaped {
      PlainAtom(a);
    }
    JoinStrings(RenderAtom(a), Suffix(items[0]), RenderItems(items[1..], tail));
    Cut(RenderItems(items, tail), 0, RenderAtom(a), Suffix(items[0]) + RenderItems(items[1..], tail));
  }

  /** True exactly when some substring of the string, respecting the anchors, is
      in the language of the expression `p` that `regex` writes. */
  method MatchRegexAnywhere(regex: Option<seq<char>>, str: Option<seq<char>>, ghost p: Pattern)
      returns (matched: bool)
    requires Pointer(regex) && Pointer(str) && (str.Some? ==> |Text(str.value)| <= MAX_COUNT)
    requires regex.Some? ==> Wf(p.items) && Text(regex.value) == Render(p)
    ensures matched <==> regex.Some? && str.Some? && Matches(p, Text(str.value))
  {
    if regex.None? || str.None? {
      return false;
    }
    hide AtHead, Matches;
    var r, t := regex.value, str.value;
    ghost var u := Text(t);
    MatchesFrom(p, u);
    HeadRendered(r, p);
    if r[0] == '^' {
      matched := MatchRegexAtHead(r, 1, t, 0, p.items, p.tail);
      assert u[0..] == u;
      return;
    }
    var s := 0;
    while true
      invariant s <= |u| && forall k | 0 <= k < s :: !AtHead(p.items, p.tail, u[k..])
      decreases |u| - s
    {
      assert Text(r)[0..] == Text(r);
      matched := MatchRegexAtHead(r, 0, t, s, p.items, p.tail);
      if matched {
        return;
      }
      TextFrom(t, s);
      if t[s] == '\0' {
        break;
      }
      s := s + 1;
    }
  }

  lemma HeadRendered(r: seq<char>, p: Pattern)
    requires CString(r) && Wf(p.items) && Text(r) == Render(p)
    ensures r[0] == '^' <==> p.head
    ensures p.head ==> Text(r)[1..] == RenderItems(p.items, p.tail)
    ensures !p.head ==> Text(r) == RenderItems(p.items, p.tail)
  {
    TextFrom(r, 0);
    assert Text(r)[0..] == Text(r);
    if !p.head {
      NoCaretFirst(p.items, p.tail);
    }
  }

  lemma NoCaretFirst(items: seq<Item>, tail: bool)
    requires Wf(items)
    ensures RenderItems(items, tail) != [] ==> RenderItems(items, tail)[0] != '^'
  {
    if items != [] {
      assert AtomOk(items[0].a);
      assert RenderItems(items, tail)[0] == RenderAtom(items[0].a)[0];
    }
  }
}
