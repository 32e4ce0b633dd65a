/** The splitter as it is meant to work (not the code of instance/src/host.rs): every newline of a
    read ends a line, and the whole rest is moved to the front. The buffer, the read slice and the
    overflow marker are those of the source. */
module IntendedSplitter {
  import opened Protocol
  import opened Lines
  import opened Splitter
  import opened ByteBuffer

  /** The unterminated piece in the buffer, and the lines sent. */
  datatype Intended = Intended(piece: seq<byte>, sent: seq<seq<byte>>)

  function ReadAll(s: Intended, chunk: seq<byte>): Intended {
    var w := s.piece + chunk;
    Intended(Clip(Pending(w)), s.sent + CompleteLines(w))
  }

  function AfterReads(chunks: seq<seq<byte>>): Intended {
    if chunks == [] then Intended([], [])
    else ReadAll(AfterReads(chunks[..|chunks| - 1]), chunks[|chunks| - 1])
  }

  function LogAtEof(s: Intended): seq<seq<byte>> {
    s.sent + if s.piece == [] then [] else [s.piece]
  }

  /** Main result for the intended splitter: for every byte stream whose lines are shorter than 1024
      bytes and every way reads chunk it, the log is exactly the newline split of the stream. */
  lemma {:induction false} IntendedIsExact(chunks: seq<seq<byte>>)
    requires ShortLines(SplitLines(Concat(chunks)))
    ensures AfterReads(chunks) == Intended(Pending(Concat(chunks)), CompleteLines(Concat(chunks)))
    ensures LogAtEof(AfterReads(chunks)) == SplitLines(Concat(chunks))
  {
    if chunks != [] {
      var n := |chunks| - 1;
      var s := Concat(chunks[..n]);
      ShortPrefix(s, chunks[n]);
      IntendedIsExact(chunks[..n]);
      SplitMore(s, chunks[n]);
      assert Concat(chunks) + [] == Concat(chunks);
      ShortPrefix(Concat(chunks), []);
    }
  }

  /** The log of the intended splitter does not depend on the chunking. */
  lemma ChunkingIsIrrelevant(chunks: seq<seq<byte>>, others: seq<seq<byte>>)
    requires Concat(chunks) == Concat(others) && ShortLines(SplitLines(Concat(chunks)))
    ensures LogAtEof(AfterReads(chunks)) == LogAtEof(AfterReads(others))
  {
    IntendedIsExact(chunks);
    IntendedIsExact(others);
  }

  /** One read of the intended splitter in the source's array buffer: the first `pos` bytes are the
      unterminated piece, `chunk` is what `read` delivers behind it. */
  method ReadInPlace(buf: array<byte>, pos: nat, chunk: seq<byte>) returns (pos': nat, lines: seq<seq<byte>>)
    requires buf.Length == BUFFER_LEN && pos + |chunk| <= BUFFER_LEN
    modifies buf
    ensures pos' <= KEEP + |OVERFLOW|
    ensures Intended(buf[..pos'], lines) == ReadAll(Intended(old(buf[..pos]), []), chunk)
  {
    Fill(buf, pos, chunk);
    assert buf[..pos + |chunk|] == old(buf[..pos]) + chunk;
    pos', lines := SendLines(buf, pos + |chunk|);
    if pos' >= KEEP {
      ghost var piece := buf[..pos'];
      assert piece[..KEEP] == buf[..KEEP];
      Fill(buf, KEEP, OVERFLOW);
      pos' := KEEP + |OVERFLOW|;
    }
  }

  /** Sends every complete line among the first `n` bytes and moves the rest to the front. */
  method SendLines(buf: array<byte>, n: nat) returns (filled: nat, lines: seq<seq<byte>>)
    requires n <= buf.Length
    modifies buf
    ensures filled <= n && buf[..filled] == Pending(old(buf[..n]))
    ensures lines == CompleteLines(old(buf[..n]))
  {
    lines, filled := [], n;
    var k := FindNewline(buf, 0, filled);
    while k < filled
      invariant k <= filled <= n && k == FirstNewline(buf[..filled])
      invariant CompleteLines(old(buf[..n])) == lines + CompleteLines(buf[..filled])
      invariant Pending(old(buf[..n])) == Pending(buf[..filled])
      decreases filled
    {
      ghost var w := buf[..filled];
      assert w[..k] == buf[..k];
      Regroup(lines, w[..k], CompleteLines(w[k + 1..]));
      lines := lines + [buf[..k]];
      CopyWithin(buf, k + 1, filled);
      filled := filled - k - 1;
      assert buf[..filled] == w[k + 1..];
      k := FindNewline(buf, 0, filled);
    }
  }
}
