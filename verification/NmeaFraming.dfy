/** Cutting a byte stream into frames: each one stands between a head and a tail,
    and what stands between a tail and the next head is garbage. */
module NmeaFraming {
  import opened Errors

  /** What separates the frames. */
  datatype Marks = Marks(head: string, tail: string)

  datatype Mode = InGarbage | InFrame

  function Mark(m: Marks, mode: Mode): string { if mode.InGarbage? then m.head else m.tail }

  predicate Occurs(s: string, d: string, i: nat) { i + |d| <= |s| && s[i..i + |d|] == d }

  /** The end of the first occurrence of `d` at or after `i`. */
  function FirstFrom(s: string, d: string, i: nat): (r: Option<nat>)
    requires i <= |s|
    ensures r.Some? ==> i + |d| <= r.value <= |s| && Occurs(s, d, r.value - |d|)
    ensures forall j | i <= j && Occurs(s, d, j) :: r.Some? && r.value <= j + |d|
    decreases |s| - i
  {
    if Occurs(s, d, i) then Some(i + |d|)
    else if i == |s| then None
    else FirstFrom(s, d, i + 1)
  }

  function First(s: string, d: string): (r: Option<nat>)
    ensures r.Some? ==> |d| <= r.value <= |s|
  {
    FirstFrom(s, d, 0)
  }

  /** The frames of a stream, what remains of it, and how it goes on. */
  datatype Parsed = Parsed(frames: seq<string>, rest: string, mode: Mode)

  function Join(frames: seq<string>, p: Parsed): Parsed { p.(frames := frames + p.frames) }

  function Rank(m: Marks, mode: Mode): nat {
    if (m.tail == []) == mode.InFrame? then 1 else 0
  }

  function Parse(m: Marks, s: string, mode: Mode): Parsed
    requires m.head != [] || m.tail != []
    decreases |s|, Rank(m, mode)
  {
    match First(s, Mark(m, mode))
    case None => Parsed([], s, mode)
    case Some(n) =>
      if mode.InGarbage? then Parse(m, s[n..], InFrame)
      else Join([s[..n - |m.tail|]], Parse(m, s[n..], InGarbage))
  }

  // ----- the order in which bytes arrive does not matter

  lemma OccursStays(s: string, x: string, d: string, i: nat)
    requires i + |d| <= |s|
    ensures Occurs(s + x, d, i) <==> Occurs(s, d, i)
  {
    assert (s + x)[i..i + |d|] == s[i..i + |d|];
  }

  /** More bytes do not move the first occurrence. */
  lemma FirstStays(s: string, x: string, d: string)
    requires First(s, d).Some?
    ensures First(s + x, d) == First(s, d)
  {
    hide Occurs;
    var n := First(s, d).value;
    OccursStays(s, x, d, n - |d|);
    assert Occurs(s + x, d, n - |d|);
    var k := First(s + x, d).value;
    OccursStays(s, x, d, k - |d|);
    assert Occurs(s, d, k - |d|);
  }

  lemma JoinTwice(a: seq<string>, b: seq<string>, p: Parsed)
    ensures Join(a, Join(b, p)) == Join(a + b, p)
  {
    assert a + (b + p.frames) == (a + b) + p.frames;
  }

  lemma {:induction false} ParseGoesOn(m: Marks, s: string, mode: Mode, x: string)
    requires m.head != [] || m.tail != []
    ensures var p := Parse(m, s, mode);
            Parse(m, s + x, mode) == Join(p.frames, Parse(m, p.rest + x, p.mode))
    decreases |s|, Rank(m, mode), 1
  {
    hide First;
    if First(s, Mark(m, mode)).None? {
      assert Parse(m, s, mode) == Parsed([], s, mode);
    } else {
      var n := First(s, Mark(m, mode)).value;
      FirstStays(s, x, Mark(m, mode));
      assert (s + x)[n..] == s[n..] + x;
      if mode.InGarbage? {
        ParseGoesOn(m, s[n..], InFrame, x);
      } else {
        FrameGoesOn(m, s, n, x);
      }
    }
  }

  lemma {:induction false} FrameGoesOn(m: Marks, s: string, n: nat, x: string)
    requires m.head != [] || m.tail != []
    requires First(s, m.tail) == First(s + x, m.tail) == Some(n) && |m.tail| <= n <= |s|
    ensures var p := Parse(m, s, InFrame);
            Parse(m, s + x, InFrame) == Join(p.frames, Parse(m, p.rest + x, p.mode))
    decreases |s|, Rank(m, InFrame), 0
  {
    hide First;
    var f := s[..n - |m.tail|];
    assert (s + x)[..n - |m.tail|] == f && (s + x)[n..] == s[n..] + x;
    var q := Parse(m, s[n..], InGarbage);
    ParseGoesOn(m, s[n..], InGarbage, x);
    JoinTwice([f], q.frames, Parse(m, q.rest + x, q.mode));
  }

  /** When the frames so far and what is buffered account for a stream, they
      account for the longer stream after more bytes were buffered. */
  lemma MoreBytes(m: Marks, stream: string, frames: seq<string>, buffer: string, mode: Mode, x: string)
    requires m.head != [] || m.tail != []
    requires Parse(m, stream, InGarbage) == Join(frames, Parse(m, buffer, mode))
    ensures Parse(m, stream + x, InGarbage) == Join(frames, Parse(m, buffer + x, mode))
  {
    ParseGoesOn(m, stream, InGarbage, x);
    ParseGoesOn(m, buffer, mode, x);
    var p := Parse(m, buffer, mode);
    JoinTwice(frames, p.frames, Parse(m, p.rest + x, p.mode));
  }

  // ----- the round trip

  /** Garbage and the frame after it. */
  datatype Piece = Piece(garbage: string, frame: string)

  /** The mark after each part is the first one that can be seen. */
  predicate Clean(m: Marks, p: Piece) {
    && First(p.garbage + m.head, m.head) == Some(|p.garbage + m.head|)
    && First(p.frame + m.tail, m.tail) == Some(|p.frame + m.tail|)
  }

  function Encode(m: Marks, pieces: seq<Piece>): string {
    if pieces == [] then []
    else (pieces[0].garbage + m.head) + ((pieces[0].frame + m.tail) + Encode(m, pieces[1..]))
  }

  function Frames(pieces: seq<Piece>): seq<string> {
    if pieces == [] then [] else [pieces[0].frame] + Frames(pieces[1..])
  }

  lemma AfterMark(a: string, x: string, d: string)
    requires First(a, d) == Some(|a|)
    ensures First(a + x, d) == Some(|a|) && (a + x)[|a|..] == x
  {
    FirstStays(a, x, d);
  }

  /** Cutting an encoded stream gives back exactly its frames. */
  lemma {:induction false} RoundTrip(m: Marks, pieces: seq<Piece>)
    requires (m.head != [] || m.tail != []) && (forall i | 0 <= i < |pieces| :: Clean(m, pieces[i]))
    ensures var p := Parse(m, Encode(m, pieces), InGarbage); p.frames == Frames(pieces) && p.rest == []
  {
    if pieces != [] {
      hide First;
      var rest := Encode(m, pieces[1..]);
      assert Clean(m, pieces[0]);
      PieceParsed(m, pieces[0], rest);
      RoundTrip(m, pieces[1..]);
    } else {
      EndOfStream(m);
    }
  }

  lemma EndOfStream(m: Marks)
    requires m.head != [] || m.tail != []
    ensures Parse(m, [], InGarbage).frames == [] && Parse(m, [], InGarbage).rest == []
  {
    if m.head == [] {
      assert First([], m.head) == Some(0) && First([], m.tail).None?;
      assert ""[0..] == "";
    } else {
      assert First([], m.head).None?;
    }
  }

  lemma PieceParsed(m: Marks, p: Piece, rest: string)
    requires (m.head != [] || m.tail != []) && Clean(m, p)
    ensures Parse(m, (p.garbage + m.head) + ((p.frame + m.tail) + rest), InGarbage)
         == Join([p.frame], Parse(m, rest, InGarbage))
  {
    hide First;
    var a, b := p.garbage + m.head, p.frame + m.tail;
    AfterMark(a, b + rest, m.head);
    AfterMark(b, rest, m.tail);
    assert (b + rest)[..|p.frame|] == p.frame;
    assert Parse(m, b + rest, InFrame) == Join([p.frame], Parse(m, rest, InGarbage));
  }
}
