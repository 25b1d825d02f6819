/** Byte streams.  What a connection will deliver is a list of chunks, one per
    read, ended by end-of-file; every way of cutting the bytes into reads is one
    such list.  What it accepts is bounded by the room it has before it breaks. */
module Streams {
  import opened Basics

  newtype byte = x: int | 0 <= x < 256

  type Bytes = seq<byte>

  const NEWLINE: byte := 10

  function Flatten(chunks: seq<Bytes>): Bytes {
    if chunks == [] then [] else chunks[0] + Flatten(chunks[1..])
  }

  /** The part of b that still fits into room. */
  function Fitting(b: Bytes, room: nat): Bytes { b[..Min(|b|, room)] }

  lemma FittingConcat(a: Bytes, b: Bytes, room: nat)
    ensures Fitting(a, room) + Fitting(b, room - |Fitting(a, room)|) == Fitting(a + b, room)
  {
  }

  class Source {
    var chunks: seq<Bytes>

    constructor (chunks: seq<Bytes>)
      ensures this.chunks == chunks
    {
      this.chunks := chunks;
    }
  }

  class Sink {
    var data: Bytes
    var room: nat

    constructor (room: nat)
      ensures data == [] && this.room == room
    {
      data, this.room := [], room;
    }

    /** Accepts what fits; the write failed when that is not everything. */
    method Write(b: Bytes) returns (n: nat)
      modifies this
      ensures n == |Fitting(b, old(room))|
      ensures data == old(data) + Fitting(b, old(room)) && room == old(room) - n
    {
      n := Min(|b|, room);
      data, room := data + b[..n], room - n;
    }
  }

  /** Position of the first newline, or the length. */
  function LineEnd(b: Bytes): (i: nat)
    ensures i <= |b|
    ensures forall k :: 0 <= k < i ==> b[k] != NEWLINE
    ensures i < |b| ==> b[i] == NEWLINE
  {
    if b == [] || b[0] == NEWLINE then 0 else 1 + LineEnd(b[1..])
  }

  /** The outcome of reading one line: the line with its newline, what the
      reader has buffered beyond it, and the reads still to come. */
  datatype LineRead = Eof | Line(line: Bytes, buffered: Bytes, chunks: seq<Bytes>)

  /** Reads are made only while no newline is buffered. */
  function NextLine(buf: Bytes, chunks: seq<Bytes>): LineRead
    decreases |chunks|
  {
    var i := LineEnd(buf);
    if i < |buf| then Line(buf[..i + 1], buf[i + 1..], chunks)
    else if chunks == [] then Eof
    else NextLine(buf + chunks[0], chunks[1..])
  }

  /** What a reader has buffered, and the reads still to come. */
  datatype Feed = Feed(buffered: Bytes, chunks: seq<Bytes>) {
    function All(): Bytes { buffered + Flatten(chunks) }
  }

  /** The feed after n more bytes have been taken: reads are made only while
      fewer than n bytes are buffered. */
  function Advance(f: Feed, n: nat): Feed
    decreases |f.chunks|
  {
    if n <= |f.buffered| then Feed(f.buffered[n..], f.chunks)
    else if f.chunks == [] then Feed([], [])
    else Advance(Feed(f.buffered + f.chunks[0], f.chunks[1..]), n)
  }

  /** So exactly the reads are made that are needed to have n bytes. */
  lemma {:induction false} AdvanceReadsWhatItNeeds(f: Feed, n: nat) returns (k: nat)
    requires n <= |f.All()|
    ensures k <= |f.chunks| && n <= |f.buffered + Flatten(f.chunks[..k])|
    ensures 0 < k ==> |f.buffered + Flatten(f.chunks[..k - 1])| < n
    ensures Advance(f, n) == Feed((f.buffered + Flatten(f.chunks[..k]))[n..], f.chunks[k..])
    decreases |f.chunks|
  {
    k := 0;
    if n <= |f.buffered| {
      assert f.chunks[..0] == [] && f.chunks[0..] == f.chunks;
      assert f.buffered + Flatten(f.chunks[..0]) == f.buffered;
    } else {
      var first, rest := f.chunks[0], f.chunks[1..];
      assert f.buffered + first + Flatten(rest) == f.All();
      var j := AdvanceReadsWhatItNeeds(Feed(f.buffered + first, rest), n);
      k := j + 1;
      FlattenPrefix(f.buffered, f.chunks, j);
      if 0 < j { FlattenPrefix(f.buffered, f.chunks, j - 1); } else { assert f.chunks[..0] == []; }
      assert f.chunks[k..] == rest[j..];
    }
  }

  lemma FlattenPrefix(buf: Bytes, chunks: seq<Bytes>, j: nat)
    requires chunks != [] && j < |chunks|
    ensures buf + Flatten(chunks[..j + 1]) == buf + chunks[0] + Flatten(chunks[1..][..j])
  {
    assert chunks[..j + 1][1..] == chunks[1..][..j];
  }

  lemma {:induction false} AdvanceTwice(f: Feed, n: nat, m: nat)
    requires n <= |f.All()|
    ensures Advance(Advance(f, n), m) == Advance(f, n + m)
    decreases |f.chunks|
  {
    if n <= |f.buffered| {
      AdvanceBuffered(f, n, m);
    } else {
      assert f.buffered + f.chunks[0] + Flatten(f.chunks[1..]) == f.All();
      AdvanceTwice(Feed(f.buffered + f.chunks[0], f.chunks[1..]), n, m);
    }
  }

  lemma {:induction false} AdvanceBuffered(f: Feed, n: nat, m: nat)
    requires n <= |f.buffered|
    ensures Advance(Feed(f.buffered[n..], f.chunks), m) == Advance(f, n + m)
    decreases |f.chunks|
  {
    if |f.buffered| < n + m && f.chunks != [] {
      assert (f.buffered + f.chunks[0])[n..] == f.buffered[n..] + f.chunks[0];
      AdvanceBuffered(Feed(f.buffered + f.chunks[0], f.chunks[1..]), n, m);
    }
  }

  /** bufio.Reader. */
  class BufReader {
    const source: Source
    var buf: Bytes

    constructor (source: Source)
      ensures this.source == source && buf == []
    {
      this.source, buf := source, [];
    }

    /** Everything this reader will ever deliver. */
    function Pending(): Bytes
      reads this, source
    {
      buf + Flatten(source.chunks)
    }

    function Fed(): Feed
      reads this, source
    {
      Feed(buf, source.chunks)
    }

    method Fill()
      requires source.chunks != []
      modifies this, source
      ensures buf == old(buf) + old(source.chunks)[0] && source.chunks == old(source.chunks)[1..]
      ensures Pending() == old(Pending())
    {
      var chunks := source.chunks;
      buf := buf + chunks[0];
      source.chunks := chunks[1..];
    }

    /** io.ReadFull: all n bytes, or failure at end-of-file. */
    method ReadFull(n: nat) returns (ok: bool, data: Bytes)
      modifies this, source
      ensures ok <==> n <= |old(Pending())|
      ensures ok ==> data == old(Pending())[..n] && Pending() == old(Pending())[n..]
      ensures ok ==> Fed() == Advance(old(Fed()), n)
      ensures n <= |old(buf)| ==> buf == old(buf)[n..] && source.chunks == old(source.chunks)
    {
      while |buf| < n && source.chunks != []
        invariant Pending() == old(Pending()) && Advance(Fed(), n) == Advance(old(Fed()), n)
        invariant n <= |old(buf)| ==> buf == old(buf) && source.chunks == old(source.chunks)
        decreases |source.chunks|
      {
        Fill();
      }
      ok := n <= |buf|;
      if ok {
        data, buf := buf[..n], buf[n..];
      } else {
        data, buf := buf, [];
      }
    }

    /** Exactly the bytes that are gone have been taken, read by read. */
    twostate predicate Advanced()
      reads this, source
    {
      |Pending()| <= old(|Pending()|) && Fed() == Advance(old(Fed()), old(|Pending()|) - |Pending()|)
    }

    /** Reader.ReadBytes with the newline as delimiter. */
    method ReadLine() returns (ok: bool, line: Bytes)
      modifies this, source
      ensures ok <==> NextLine(old(buf), old(source.chunks)).Line?
      ensures ok ==> NextLine(old(buf), old(source.chunks)) == Line(line, buf, source.chunks)
    {
      while LineEnd(buf) == |buf| && source.chunks != []
        invariant NextLine(buf, source.chunks) == NextLine(old(buf), old(source.chunks))
        decreases |source.chunks|
      {
        Fill();
      }
      var i := LineEnd(buf);
      ok := i < |buf|;
      if ok {
        line, buf := buf[..i + 1], buf[i + 1..];
      } else {
        line, buf := buf, [];
      }
    }
  }

  // What a line reader finds does not depend on the chunks; what it has
  // buffered afterwards does.

  predicate IsLine(line: Bytes) {
    line != [] && LineEnd(line) == |line| - 1
  }

  lemma LineEndOfConcat(line: Bytes, rest: Bytes)
    requires IsLine(line)
    ensures LineEnd(line + rest) == |line| - 1
  {
    var s := line + rest;
    assert s[|line| - 1] == NEWLINE;
    assert forall k :: 0 <= k < |line| - 1 ==> s[k] == line[k];
  }

  /** The line and what follows it depend only on the bytes. */
  lemma {:induction false} NextLineIsChunkIndependent(buf: Bytes, chunks: seq<Bytes>, line: Bytes, rest: Bytes)
    requires IsLine(line) && buf + Flatten(chunks) == line + rest
    ensures var r := NextLine(buf, chunks);
            r.Line? && r.line == line && r.buffered + Flatten(r.chunks) == rest
    decreases |chunks|
  {
    LineEndOfConcat(line, rest);
    var s := line + rest;
    var i := LineEnd(buf);
    assert forall k :: 0 <= k < |buf| ==> buf[k] == s[k];
    if i < |buf| {
      assert i == |line| - 1;
      assert buf[..i + 1] == line;
      assert buf[i + 1..] + Flatten(chunks) == (buf + Flatten(chunks))[i + 1..] == rest;
    } else {
      assert |line| <= |s| && s[|line| - 1] == NEWLINE;
      assert buf + [] == buf;
      assert chunks != [];
      assert buf + chunks[0] + Flatten(chunks[1..]) == s;
      NextLineIsChunkIndependent(buf + chunks[0], chunks[1..], line, rest);
    }
  }

  /** Some read ends exactly where the line ends. */
  ghost predicate BoundaryAfter(buf: Bytes, chunks: seq<Bytes>, line: Bytes) {
    exists k :: 0 <= k <= |chunks| && buf + Flatten(chunks[..k]) == line
  }

  /** Nothing is left in the buffer exactly when a read ended with the line. */
  lemma {:induction false} BufferedIffNoBoundary(buf: Bytes, chunks: seq<Bytes>, line: Bytes, rest: Bytes)
    requires IsLine(line) && buf + Flatten(chunks) == line + rest
    ensures NextLine(buf, chunks).Line?
    ensures NextLine(buf, chunks).buffered == [] <==> BoundaryAfter(buf, chunks, line)
    decreases |chunks|
  {
    NextLineIsChunkIndependent(buf, chunks, line, rest);
    LineEndOfConcat(line, rest);
    var s := line + rest;
    assert forall k :: 0 <= k < |buf| ==> buf[k] == s[k];
    var i := LineEnd(buf);
    if i < |buf| {
      assert i == |line| - 1 && buf[..i + 1] == line;
      LineInBuffer(buf, chunks, line);
    } else {
      assert buf + chunks[0] + Flatten(chunks[1..]) == s;
      BufferedIffNoBoundary(buf + chunks[0], chunks[1..], line, rest);
      BoundaryShift(buf, chunks, line);
    }
  }

  lemma LineInBuffer(buf: Bytes, chunks: seq<Bytes>, line: Bytes)
    requires |line| <= |buf| && buf[..|line|] == line
    ensures BoundaryAfter(buf, chunks, line) <==> buf[|line|..] == []
  {
    if buf[|line|..] == [] {
      assert buf + Flatten(chunks[..0]) == line;
    } else {
      assert forall k :: 0 <= k <= |chunks| ==> |line| < |buf + Flatten(chunks[..k])|;
    }
  }

  lemma BoundaryShift(buf: Bytes, chunks: seq<Bytes>, line: Bytes)
    requires chunks != [] && buf != line
    ensures BoundaryAfter(buf, chunks, line) <==> BoundaryAfter(buf + chunks[0], chunks[1..], line)
  {
    assert forall k :: 0 < k <= |chunks| ==> chunks[..k][0] == chunks[0] && chunks[..k][1..] == chunks[1..][..k - 1];
    assert forall k :: 0 < k <= |chunks| ==> Flatten(chunks[..k]) == chunks[0] + Flatten(chunks[1..][..k - 1]);
    assert forall k :: 0 < k <= |chunks| ==>
             buf + Flatten(chunks[..k]) == buf + chunks[0] + Flatten(chunks[1..][..k - 1]);
    assert buf + Flatten(chunks[..0]) == buf;
    if BoundaryAfter(buf + chunks[0], chunks[1..], line) {
      var k :| 0 <= k <= |chunks[1..]| && buf + chunks[0] + Flatten(chunks[1..][..k]) == line;
      assert buf + Flatten(chunks[..k + 1]) == line;
    }
    if BoundaryAfter(buf, chunks, line) {
      var k :| 0 <= k <= |chunks| && buf + Flatten(chunks[..k]) == line;
      assert 0 < k;
      assert buf + chunks[0] + Flatten(chunks[1..][..k - 1]) == line;
    }
  }
}
