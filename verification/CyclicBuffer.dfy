/** The circular byte buffer a session echoes through: a fixed array cut into a
    filled and a nonfilled sequence, each made of at most two blocks. */
module CyclicBuffer {
  newtype Byte = x: int | 0 <= x < 256

  /** A contiguous block of the array lent to a socket operation. */
  datatype Block = Block(start: nat, len: nat)

  /** The position `len` places after `start` on a ring of `size` places. */
  function Advance(size: nat, start: nat, len: nat): (r: nat)
    requires start <= size && len <= size
    ensures r <= size && (len < size ==> r < size)
  {
    if len < size - start then start + len else len - (size - start)
  }

  /** The `len` elements of the ring `d` that begin at `start`. */
  function Ring(d: seq<Byte>, start: nat, len: nat): (r: seq<Byte>)
    requires start <= |d| && len <= |d|
    ensures |r| == len
    ensures forall i {:trigger r[i]} | 0 <= i < len :: r[i] == d[Advance(|d|, start, i)]
  {
    seq(len, i requires 0 <= i < len => d[Advance(|d|, start, i)])
  }

  /** The blocks covering `len` places from `start`; none when `len` is zero. */
  function Blocks(size: nat, start: nat, len: nat): (r: seq<Block>)
    requires start <= size && len <= size
    ensures len == 0 <==> r == []
    ensures |r| <= 2
  {
    if len == 0 then []
    else if len <= size - start then [Block(start, len)]
    else [Block(start, size - start), Block(0, len - (size - start))]
  }

  ghost predicate InBounds(d: seq<Byte>, blocks: seq<Block>) {
    forall b | b in blocks :: b.start + b.len <= |d|
  }

  /** What a socket operation reads when it walks at most two blocks in order. */
  function Gather(d: seq<Byte>, blocks: seq<Block>): seq<Byte>
    requires InBounds(d, blocks) && |blocks| <= 2
  {
    if |blocks| == 0 then []
    else
      var first := d[blocks[0].start..blocks[0].start + blocks[0].len];
      if |blocks| == 1 then first
      else first + d[blocks[1].start..blocks[1].start + blocks[1].len]
  }

  /** The lent blocks are exactly the ring range they were cut from. */
  lemma BlocksCoverRing(d: seq<Byte>, start: nat, len: nat)
    requires start <= |d| && len <= |d|
    ensures InBounds(d, Blocks(|d|, start, len))
    ensures Gather(d, Blocks(|d|, start, len)) == Ring(d, start, len)
  {
  }

  /** Two ring ranges that follow one another and do not meet are disjoint:
      changing only the second leaves the first as it was. */
  lemma RingFrame(d: seq<Byte>, e: seq<Byte>, start: nat, len: nat, from: nat, k: nat)
    requires |d| == |e| && start <= |d| && len + k <= |d| && from == Advance(|d|, start, len)
    requires forall i | 0 <= i < |d| && !InRange(|d|, from, k, i) :: e[i] == d[i]
    ensures Ring(e, start, len) == Ring(d, start, len)
  {
  }

  /** Position `i` lies in the `k` places that follow `from` on the ring. */
  predicate InRange(size: nat, from: nat, k: nat, i: nat) {
    from <= i < from + k || i + size < from + k
  }

  /** The two sequences as they lie in memory. */
  ghost predicate Laid(d: seq<Byte>, start: nat, filled: seq<Byte>, nonfilledStart: nat, nonfilled: seq<Byte>) {
    && |filled| + |nonfilled| == |d| && start <= |d| && nonfilledStart <= |d|
    && (|d| > 0 ==> start < |d|)
    && nonfilledStart == Advance(|d|, start, |filled|)
    && filled == Ring(d, start, |filled|)
    && nonfilled == Ring(d, nonfilledStart, |nonfilled|)
  }

  lemma CommitLaid(d: seq<Byte>, start: nat, filled: seq<Byte>, nonfilledStart: nat, nonfilled: seq<Byte>, k: nat)
    requires Laid(d, start, filled, nonfilledStart, nonfilled) && k <= |filled|
    ensures var s := if k < |d| - start then start + k else k - (|d| - start);
            Laid(d, s, filled[k..], nonfilledStart, nonfilled + filled[..k])
  {
  }

  lemma ConsumeLaid(d: seq<Byte>, start: nat, filled: seq<Byte>, nonfilledStart: nat, nonfilled: seq<Byte>, k: nat)
    requires Laid(d, start, filled, nonfilledStart, nonfilled) && k <= |nonfilled|
    ensures var s := if k < |d| - nonfilledStart then nonfilledStart + k else k - (|d| - nonfilledStart);
            Laid(d, start, filled + nonfilled[..k], s, nonfilled[k..])
  {
  }

  lemma StoredAhead(d: seq<Byte>, start: nat, len: nat, bytes: seq<Byte>)
    requires start <= |d| && |bytes| <= len <= |d|
    requires forall i | 0 <= i < |bytes| :: d[Advance(|d|, start, i)] == bytes[i]
    ensures Ring(d, start, len)[..|bytes|] == bytes
  {
  }

  /** The bytes lent to a write are the first filled ones. */
  lemma LentBytes(d: seq<Byte>, start: nat, filled: seq<Byte>, nonfilledStart: nat, nonfilled: seq<Byte>, k: nat)
    requires Laid(d, start, filled, nonfilledStart, nonfilled) && k <= |filled|
    ensures InBounds(d, Blocks(|d|, start, k)) && Gather(d, Blocks(|d|, start, k)) == filled[..k]
  {
    BlocksCoverRing(d, start, k);
  }

  /** The bytes lent to a read are the first nonfilled ones. */
  lemma FreeBytes(d: seq<Byte>, start: nat, filled: seq<Byte>, nonfilledStart: nat, nonfilled: seq<Byte>, k: nat)
    requires Laid(d, start, filled, nonfilledStart, nonfilled) && k <= |nonfilled|
    ensures InBounds(d, Blocks(|d|, nonfilledStart, k)) && Gather(d, Blocks(|d|, nonfilledStart, k)) == nonfilled[..k]
  {
    BlocksCoverRing(d, nonfilledStart, k);
  }

  class CyclicBuffer {
    const data: array<Byte>
    var nonfilledStart: nat
    var nonfilledSize: nat
    var filledStart: nat
    var filledSize: nat

    /** The bytes of the filled sequence, oldest first. */
    ghost var filled: seq<Byte>
    /** What the memory of the nonfilled sequence holds at the moment. */
    ghost var nonfilled: seq<Byte>

    ghost predicate Valid()
      reads this, data
    {
      && filledSize == |filled| && nonfilledSize == |nonfilled|
      && Laid(data[..], filledStart, filled, nonfilledStart, nonfilled)
    }

    constructor (size: nat)
      ensures Valid() && fresh(data) && data.Length == size && filled == []
    {
      data := new Byte[size];
      nonfilledStart, nonfilledSize := 0, size;
      filledStart, filledSize := 0, 0;
      new;
      filled, nonfilled := [], data[..];
    }

    method Reset()
      requires Valid()
      modifies this
      ensures Valid() && filled == []
    {
      nonfilledSize := data.Length;
      nonfilledStart, filledStart, filledSize := 0, 0, 0;
      filled, nonfilled := [], data[..];
    }

    /** Gives the first `size` filled bytes back to the nonfilled sequence.
        A `false` result stands for the length_error the source throws. */
    method Commit(size: nat) returns (ok: bool)
      requires Valid()
      modifies this
      ensures Valid()
      ensures ok == (size <= old(filledSize))
      ensures ok ==> filled == old(filled)[size..] && nonfilled == old(nonfilled) + old(filled)[..size]
      ensures nonfilledStart == old(nonfilledStart)
      ensures !ok ==> unchanged(this)
    {
      if size > filledSize {
        return false;
      }
      CommitLaid(data[..], filledStart, filled, nonfilledStart, nonfilled, size);
      filledSize := filledSize - size;
      nonfilledSize := nonfilledSize + size;
      var d := data.Length - filledStart;
      if size < d {
        filledStart := filledStart + size;
      } else {
        filledStart := size - d;
      }
      filled, nonfilled := filled[size..], nonfilled + filled[..size];
      return true;
    }

    /** Marks the first `size` nonfilled bytes as filled. */
    method Consume(size: nat) returns (ok: bool)
      requires Valid()
      modifies this
      ensures Valid()
      ensures ok == (size <= old(nonfilledSize))
      ensures ok ==> filled == old(filled) + old(nonfilled)[..size] && nonfilled == old(nonfilled)[size..]
      ensures filledStart == old(filledStart)
      ensures !ok ==> unchanged(this)
    {
      if size > nonfilledSize {
        return false;
      }
      ConsumeLaid(data[..], filledStart, filled, nonfilledStart, nonfilled, size);
      filledSize := filledSize + size;
      nonfilledSize := nonfilledSize - size;
      var d := data.Length - nonfilledStart;
      if size < d {
        nonfilledStart := nonfilledStart + size;
      } else {
        nonfilledStart := size - d;
      }
      filled, nonfilled := filled + nonfilled[..size], nonfilled[size..];
      return true;
    }

    /** The blocks of at most `maxSize` filled bytes, for a socket write. */
    method Data(maxSize: nat) returns (blocks: seq<Block>)
      requires Valid()
      ensures blocks == Blocks(data.Length, filledStart, Min(filledSize, maxSize))
      ensures blocks == [] <==> Min(filledSize, maxSize) == 0
      ensures InBounds(data[..], blocks) && |blocks| <= 2
      ensures Gather(data[..], blocks) == filled[..Min(filledSize, maxSize)]
    {
      var n := Min(filledSize, maxSize);
      blocks := Blocks(data.Length, filledStart, n);
      LentBytes(data[..], filledStart, filled, nonfilledStart, nonfilled, n);
    }

    /** The blocks of at most `maxSize` nonfilled bytes, for a socket read. */
    method Prepared(maxSize: nat) returns (blocks: seq<Block>)
      requires Valid()
      ensures blocks == Blocks(data.Length, nonfilledStart, Min(nonfilledSize, maxSize))
      ensures blocks == [] <==> Min(nonfilledSize, maxSize) == 0
      ensures InBounds(data[..], blocks) && |blocks| <= 2
      ensures Gather(data[..], blocks) == nonfilled[..Min(nonfilledSize, maxSize)]
    {
      var n := Min(nonfilledSize, maxSize);
      blocks := Blocks(data.Length, nonfilledStart, n);
      FreeBytes(data[..], filledStart, filled, nonfilledStart, nonfilled, n);
    }

    /** The socket read storing `bytes` through the blocks it was lent.  The
        filled bytes are not touched, and `bytes` begin the nonfilled sequence. */
    method Store(ghost lent: nat, blocks: seq<Block>, bytes: seq<Byte>)
      requires Valid() && lent <= nonfilledSize && |bytes| <= lent
      requires blocks == Blocks(data.Length, nonfilledStart, lent)
      modifies data, this`nonfilled
      ensures Valid()
      ensures nonfilled[..|bytes|] == bytes && |nonfilled| == |old(nonfilled)|
    {
      var n := if blocks == [] then 0 else Min(blocks[0].len, |bytes|);
      if n > 0 {
        forall i | 0 <= i < n { data[blocks[0].start + i] := bytes[i]; }
      }
      if n < |bytes| {
        forall i | 0 <= i < |bytes| - n { data[blocks[1].start + i] := bytes[n + i]; }
      }
      RingFrame(old(data[..]), data[..], filledStart, filledSize, nonfilledStart, |bytes|);
      nonfilled := Ring(data[..], nonfilledStart, nonfilledSize);
      StoredAhead(data[..], nonfilledStart, nonfilledSize, bytes);
    }
  }

  function Min(a: nat, b: nat): nat { if a <= b then a else b }
}
