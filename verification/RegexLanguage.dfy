/** Simple regular expressions: their characters, their grammar and the language
    each of them stands for. */
module RegexLanguage {
  // ----- characters

  predicate IsInSet(ch: char, chars: string) { ch != '\0' && ch in chars }

  predicate IsAsciiDigit(ch: char) { '0' <= ch <= '9' }

  predicate IsAsciiPunct(ch: char) { IsInSet(ch, "^-!\"#$%&'()*+,./:;<=>?@[\\]_`{|}~") }

  predicate IsRepeat(ch: char) { IsInSet(ch, "?*+") }

  predicate IsAsciiWhiteSpace(ch: char) { IsInSet(ch, " \U{C}\n\r\t\U{B}") }

  predicate IsAsciiWordChar(ch: char) {
    'a' <= ch <= 'z' || 'A' <= ch <= 'Z' || '0' <= ch <= '9' || ch == '_'
  }

  predicate IsValidEscape(c: char) { IsAsciiPunct(c) || IsInSet(c, "dDfnrsStvwW") }

  predicate AtomMatchesChar(escaped: bool, patternChar: char, ch: char) {
    if escaped then
      match patternChar
      case 'd' => IsAsciiDigit(ch)
      case 'D' => !IsAsciiDigit(ch)
      case 'f' => ch == '\U{C}'
      case 'n' => ch == '\n'
      case 'r' => ch == '\r'
      case 's' => IsAsciiWhiteSpace(ch)
      case 'S' => !IsAsciiWhiteSpace(ch)
      case 't' => ch == '\t'
      case 'v' => ch == '\U{B}'
      case 'w' => IsAsciiWordChar(ch)
      case 'W' => !IsAsciiWordChar(ch)
      case _ => IsAsciiPunct(patternChar) && patternChar == ch
    else
      (patternChar == '.' && ch != '\n') || patternChar == ch
  }

  predicate IsLetter(c: char) { 'a' <= c <= 'z' || 'A' <= c <= 'Z' }

  /** The sets of characters are those of the ASCII tables. */
  lemma CharacterClasses(c: char)
    ensures IsAsciiPunct(c) <==> '!' <= c <= '~' && !IsLetter(c) && !IsAsciiDigit(c)
    ensures IsAsciiWordChar(c) <==> IsLetter(c) || IsAsciiDigit(c) || c == '_'
    ensures IsAsciiWhiteSpace(c) <==> '\t' <= c <= '\r' || c == ' '
  {
  }

  /** What an escape stands for: a class or its complement, one control character,
      or the punctuation mark itself. */
  lemma EscapeMeans(c: char, ch: char)
    ensures AtomMatchesChar(true, c, ch)
       <==> || (c == 'd' && IsAsciiDigit(ch)) || (c == 'D' && !IsAsciiDigit(ch))
            || (c == 's' && ('\t' <= ch <= '\r' || ch == ' ')) || (c == 'S' && !('\t' <= ch <= '\r' || ch == ' '))
            || (c == 'w' && (IsLetter(ch) || IsAsciiDigit(ch) || ch == '_'))
            || (c == 'W' && !(IsLetter(ch) || IsAsciiDigit(ch) || ch == '_'))
            || (c == 't' && ch as int == 9) || (c == 'n' && ch as int == 10) || (c == 'v' && ch as int == 11)
            || (c == 'f' && ch as int == 12) || (c == 'r' && ch as int == 13)
            || ('!' <= c <= '~' && !IsLetter(c) && !IsAsciiDigit(c) && ch == c)
  {
    CharacterClasses(c);
    CharacterClasses(ch);
  }

  /** An escape is valid exactly if it stands for some character. */
  lemma ValidEscapeMatches(c: char)
    ensures IsValidEscape(c) <==> exists ch :: AtomMatchesChar(true, c, ch)
  {
    if IsValidEscape(c) {
      var ch := if c == 'd' || c == 'w' || c == 'S' then '0' else if c == 'D' || c == 's' || c == 'W' then ' '
                else if c == 't' then '\t' else if c == 'n' then '\n' else if c == 'r' then '\r'
                else if c == 'v' then '\U{B}' else if c == 'f' then '\U{C}' else c;
      EscapeMeans(c, ch);
      CharacterClasses(c);
      assert AtomMatchesChar(true, c, ch);
    }
    if ch :| AtomMatchesChar(true, c, ch) {
      EscapeMeans(c, ch);
      CharacterClasses(c);
    }
  }

  // ----- the grammar

  datatype Atom = Atom(escaped: bool, c: char)

  datatype Item = One(a: Atom) | Opt(a: Atom) | Star(a: Atom) | Plus(a: Atom)

  /** An expression: repeated atoms, maybe tied to the begin and to the end. */
  datatype Pattern = Pattern(head: bool, items: seq<Item>, tail: bool)

  predicate AtomOk(a: Atom) {
    if a.escaped then IsValidEscape(a.c) else a.c != '\0' && !IsInSet(a.c, "\\^$?*+()[]{}|")
  }

  predicate Wf(items: seq<Item>) { forall i | 0 <= i < |items| :: AtomOk(items[i].a) }

  function RenderAtom(a: Atom): string { if a.escaped then ['\\', a.c] else [a.c] }

  function Suffix(item: Item): string {
    match item
    case One(_) => ""
    case Opt(_) => "?"
    case Star(_) => "*"
    case Plus(_) => "+"
  }

  function RenderItems(items: seq<Item>, tail: bool): string {
    if items == [] then if tail then "$" else ""
    else RenderAtom(items[0].a) + Suffix(items[0]) + RenderItems(items[1..], tail)
  }

  function Render(p: Pattern): string { (if p.head then "^" else "") + RenderItems(p.items, p.tail) }

  // ----- the language

  predicate All(a: Atom, w: string) { forall i | 0 <= i < |w| :: AtomMatchesChar(a.escaped, a.c, w[i]) }

  predicate InItem(item: Item, w: string) {
    && All(item.a, w)
    && match item
       case One(_) => |w| == 1
       case Opt(_) => |w| <= 1
       case Star(_) => true
       case Plus(_) => |w| >= 1
  }

  /** `w` is made of one word of each item, in order. */
  ghost predicate InLanguage(items: seq<Item>, w: string) {
    if items == [] then w == []
    else exists k | 0 <= k <= |w| :: InItem(items[0], w[..k]) && InLanguage(items[1..], w[k..])
  }

  /** A prefix of `u` is in the language; all of it when tied to the end. */
  ghost predicate AtHead(items: seq<Item>, tail: bool, u: string) {
    exists j | 0 <= j <= |u| :: (tail ==> j == |u|) && InLanguage(items, u[..j])
  }

  /** A substring of `u` that respects the anchors is in the language. */
  ghost predicate Matches(p: Pattern, u: string) {
    exists i, j | 0 <= i <= j <= |u| ::
      (p.head ==> i == 0) && (p.tail ==> j == |u|) && InLanguage(p.items, u[i..j])
  }

  /** Matching an item and what follows it, one after the other. */
  lemma AtHeadSplits(item: Item, items: seq<Item>, tail: bool, u: string)
    ensures AtHead([item] + items, tail, u)
       <==> exists k | 0 <= k <= |u| :: InItem(item, u[..k]) && AtHead(items, tail, u[k..])
  {
    assert ([item] + items)[1..] == items;
    if AtHead([item] + items, tail, u) {
      var j :| 0 <= j <= |u| && (tail ==> j == |u|) && InLanguage([item] + items, u[..j]);
      var k :| 0 <= k <= j && InItem(item, u[..j][..k]) && InLanguage(items, u[..j][k..]);
      assert u[..j][..k] == u[..k] && u[..j][k..] == u[k..][..j - k];
      assert AtHead(items, tail, u[k..]);
    }
    if k :| 0 <= k <= |u| && InItem(item, u[..k]) && AtHead(items, tail, u[k..]) {
      var i :| 0 <= i <= |u[k..]| && (tail ==> i == |u[k..]|) && InLanguage(items, u[k..][..i]);
      var w := u[..k + i];
      assert w[..k] == u[..k] && w[k..] == u[k..][..i];
      assert InLanguage([item] + items, w);
    }
  }

  lemma AtHeadOfNone(tail: bool, u: string)
    ensures AtHead([], tail, u) <==> (tail ==> u == [])
  {
    if tail ==> u == [] {
      assert InLanguage([], u[..0]);
    }
  }

  /** A match anywhere begins at some position. */
  lemma MatchesFrom(p: Pattern, u: string)
    ensures Matches(p, u)
       <==> exists i | 0 <= i <= |u| :: (p.head ==> i == 0) && AtHead(p.items, p.tail, u[i..])
  {
    if Matches(p, u) {
      var i, j :| 0 <= i <= j <= |u| && (p.head ==> i == 0) && (p.tail ==> j == |u|) && InLanguage(p.items, u[i..j]);
      assert u[i..j] == u[i..][..j - i];
      assert AtHead(p.items, p.tail, u[i..]);
    }
    if i :| 0 <= i <= |u| && (p.head ==> i == 0) && AtHead(p.items, p.tail, u[i..]) {
      var j :| 0 <= j <= |u[i..]| && (p.tail ==> j == |u[i..]|) && InLanguage(p.items, u[i..][..j]);
      assert u[i..][..j] == u[i..i + j];
    }
  }

  // ----- which strings are expressions

  /** Whether the rest of `s` from `i` is well formed, when the character before
      it may be repeated or not. */
  predicate ValidFrom(s: string, i: nat, repeatable: bool)
    requires i <= |s|
    decreases |s| - i
  {
    if i == |s| then true
    else if s[i] == '\\' then
      i + 1 < |s| && IsValidEscape(s[i + 1]) && ValidFrom(s, i + 2, true)
    else
      && !(s[i] == '^' && i > 0) && !(s[i] == '$' && i + 1 < |s|)
      && !IsInSet(s[i], "()[]{}|") && !(IsRepeat(s[i]) && !repeatable)
      && ValidFrom(s, i + 1, !IsInSet(s[i], "^$?*+"))
  }

  predicate NoNul(s: string) { forall i | 0 <= i < |s| :: s[i] != '\0' }

  /** Some expression is written `s`. */
  ghost predicate IsExpression(s: string) { exists p: Pattern :: Wf(p.items) && Render(p) == s }

  /** An atom is scanned as one token that may be repeated. */
  lemma AtomScanned(s: string, i: nat, a: Atom, repeatable: bool)
    requires AtomOk(a) && i + |RenderAtom(a)| <= |s| && s[i..i + |RenderAtom(a)|] == RenderAtom(a)
    ensures ValidFrom(s, i, repeatable) == ValidFrom(s, i + |RenderAtom(a)|, true)
  {
    var r := RenderAtom(a);
    assert s[i] == r[0] && (|r| == 2 ==> s[i + 1] == r[1]);
  }

  lemma RepeatScanned(s: string, j: nat)
    requires j < |s| && (s[j] == '?' || s[j] == '*' || s[j] == '+')
    ensures ValidFrom(s, j, true) == ValidFrom(s, j + 1, false)
  {
  }

  lemma EndScanned(s: string, i: nat, tail: bool, repeatable: bool)
    requires i <= |s| && s[i..] == if tail then "$" else ""
    ensures ValidFrom(s, i, repeatable)
  {
    if tail {
      assert s[i] == s[i..][0] == '$';
      assert ValidFrom(s, i + 1, false);
    }
  }

  lemma JoinStrings(a: string, b: string, c: string)
    ensures a + (b + c) == (a + b) + c
  {
  }

  lemma Cut(s: string, i: nat, a: string, b: string)
    requires i <= |s| && s[i..] == a + b
    ensures i + |a| <= |s| && s[i..i + |a|] == a && s[i + |a|..] == b
  {
    assert s[i..][..|a|] == a && s[i..][|a|..] == b;
  }

  lemma {:induction false} RenderedIsValid(s: string, i: nat, items: seq<Item>, tail: bool, repeatable: bool)
    requires i <= |s| && s[i..] == RenderItems(items, tail) && Wf(items)
    ensures ValidFrom(s, i, repeatable)
    decreases |items|
  {
    hide IsInSet, ValidFrom, AtomOk;
    if items == [] {
      EndScanned(s, i, tail, repeatable);
    } else {
      var a, x, rest := RenderAtom(items[0].a), Suffix(items[0]), RenderItems(items[1..], tail);
      var j := i + |a|;
      JoinStrings(a, x, rest);
      Cut(s, i, a, x + rest);
      AtomScanned(s, i, items[0].a, repeatable);
      if x == "" {
        RenderedIsValid(s, j, items[1..], tail, true);
      } else {
        assert s[j] == s[j..][0] == x[0];
        Cut(s, j, x, rest);
        RepeatScanned(s, j);
        RenderedIsValid(s, j + 1, items[1..], tail, false);
      }
    }
  }

  function Repeated(a: Atom, x: string): Item {
    if x == "?" then Opt(a) else if x == "*" then Star(a) else if x == "+" then Plus(a) else One(a)
  }

  function AtomAt(s: string, i: nat): Atom
    requires i < |s| && (s[i] == '\\' ==> i + 1 < |s|)
  {
    if s[i] == '\\' then Atom(true, s[i + 1]) else Atom(false, s[i])
  }

  /** What is neither the end, nor an anchor, nor a repetition is an atom. */
  lemma AtomAhead(s: string, i: nat, repeatable: bool)
    requires i < |s| && NoNul(s) && ValidFrom(s, i, repeatable)
    requires s[i] != '$' && s[i] != '^' && !IsRepeat(s[i])
    ensures s[i] == '\\' ==> i + 1 < |s|
    ensures var a := AtomAt(s, i);
            var j := i + |RenderAtom(a)|;
            AtomOk(a) && j <= |s| && s[i..j] == RenderAtom(a) && ValidFrom(s, j, true)
  {
  }

  lemma ItemAhead(s: string, i: nat, j: nat, a: Atom, x: string, rest: seq<Item>, tail: bool)
    requires i <= j <= |s| && s[i..j] == RenderAtom(a) && s[j..] == x + RenderItems(rest, tail)
    requires x == "" || x == "?" || x == "*" || x == "+"
    ensures s[i..] == RenderItems([Repeated(a, x)] + rest, tail)
  {
    var items := [Repeated(a, x)] + rest;
    assert items[1..] == rest && Suffix(items[0]) == x && items[0].a == a;
    assert s[i..] == s[i..j] + s[j..];
    JoinStrings(RenderAtom(a), x, RenderItems(rest, tail));
  }

  /** What a valid rest stands for: a repetition of the atom before it, if that
      may be repeated, then items, then maybe the end anchor. */
  lemma {:induction false} ValidIsRendered(s: string, i: nat, repeatable: bool)
      returns (x: string, items: seq<Item>, tail: bool)
    requires i <= |s| && NoNul(s) && ValidFrom(s, i, repeatable) && (i == 0 && s != [] ==> s[0] != '^')
    ensures s[i..] == x + RenderItems(items, tail) && Wf(items)
    ensures x == "" || (repeatable && (x == "?" || x == "*" || x == "+"))
    decreases |s| - i, 1
  {
    hide IsInSet, AtomOk;
    if i == |s| {
      x, items, tail := "", [], false;
    } else if s[i] == '$' {
      x, items, tail := "", [], true;
      assert i + 1 == |s|;
    } else if IsRepeat(s[i]) {
      RepeatAhead(s, i, repeatable);
      x, items, tail := ValidIsRendered(s, i + 1, false);
      x := [s[i]];
    } else {
      NoCaretAhead(s, i, repeatable);
      AtomAhead(s, i, repeatable);
      x, items, tail := ItemRendered(s, i);
    }
  }

  lemma {:induction false} ItemRendered(s: string, i: nat) returns (x: string, items: seq<Item>, tail: bool)
    requires i < |s| && NoNul(s) && (s[i] == '\\' ==> i + 1 < |s|)
    requires var a := AtomAt(s, i);
             var j := i + |RenderAtom(a)|;
             AtomOk(a) && j <= |s| && s[i..j] == RenderAtom(a) && ValidFrom(s, j, true)
    ensures x == "" && s[i..] == RenderItems(items, tail) && Wf(items)
    decreases |s| - i, 0
  {
    hide AtomOk, ValidFrom;
    var a := AtomAt(s, i);
    var j := i + |RenderAtom(a)|;
    var y, rest;
    y, rest, tail := ValidIsRendered(s, j, true);
    ItemAhead(s, i, j, a, y, rest, tail);
    x, items := "", [Repeated(a, y)] + rest;
  }

  lemma RepeatAhead(s: string, i: nat, repeatable: bool)
    requires i < |s| && ValidFrom(s, i, repeatable) && IsRepeat(s[i])
    ensures repeatable && ValidFrom(s, i + 1, false) && (s[i] == '?' || s[i] == '*' || s[i] == '+')
  {
  }

  lemma NoCaretAhead(s: string, i: nat, repeatable: bool)
    requires i < |s| && ValidFrom(s, i, repeatable) && (i == 0 ==> s[0] != '^')
    ensures s[i] != '^'
  {
  }

  /** The scan accepts exactly the strings that write some expression. */
  lemma ValidIffExpression(s: string)
    requires NoNul(s)
    ensures ValidFrom(s, 0, false) <==> IsExpression(s)
  {
    if ValidFrom(s, 0, false) {
      if s != [] && s[0] == '^' {
        var _, items, tail := ValidIsRendered(s, 1, false);
        assert Render(Pattern(true, items, tail)) == s;
      } else {
        var _, items, tail := ValidIsRendered(s, 0, false);
        assert Render(Pattern(false, items, tail)) == s;
      }
    }
    if p: Pattern :| Wf(p.items) && Render(p) == s {
      if p.head {
        assert s[0] == '^' && s[1..] == RenderItems(p.items, p.tail);
        RenderedIsValid(s, 1, p.items, p.tail, false);
      } else {
        RenderedIsValid(s, 0, p.items, p.tail, false);
      }
    }
  }
}
