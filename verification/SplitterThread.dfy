/** The splitter thread over its array buffer, as written, proved against `Splitter.Read`. */
module SplitterThread {
  import opened Protocol
  import opened Lines
  import opened Splitter
  import opened ByteBuffer

  class LineBuffer {
    const buf: array<byte>
    var pos: nat
    var sent: seq<seq<byte>>

    ghost predicate Valid()
      reads this, buf
    {
      buf.Length == BUFFER_LEN && pos < BUFFER_LEN
    }

    ghost function Value(): Pipe
      reads this, buf
    {
      Pipe(buf[..], pos, sent)
    }

    constructor ()
      ensures Valid() && fresh(buf) && Value() == START
    {
      buf := new byte[BUFFER_LEN](_ => 0);
      pos, sent := 0, [];
      new;
      assert buf[..] == Zeros(BUFFER_LEN);
    }

    /** The `Ok(n)` arm. */
    method OnData(chunk: seq<byte>)
      requires Valid() && Fits(Value(), chunk)
      modifies this, buf
      ensures Valid() && Value() == Read(old(Value()), chunk)
    {
      ghost var before := Value();
      pos := if pos <= BUFFER_SIZE then pos else BUFFER_SIZE;
      Fill(buf, pos, chunk);
      assert buf[..] == Filled(before, chunk);
      assert buf[pos..pos + |chunk|] == chunk;
      var newlineIndex := FindNewline(buf, pos, pos + |chunk|);
      if newlineIndex < |chunk| {
        OnLine(before, chunk, newlineIndex);
      } else {
        OnPiece(before, chunk);
      }
    }

    /** `before` is the state before the read that delivered `chunk`. */
    ghost predicate HasRead(before: Pipe, chunk: seq<byte>)
      reads this, buf
    {
      && Valid() && InBounds(before) && Fits(before, chunk)
      && buf[..] == Filled(before, chunk) && pos == Min(before.pos, BUFFER_SIZE) && sent == before.sent
    }

    method OnLine(ghost before: Pipe, chunk: seq<byte>, newlineIndex: nat)
      requires HasRead(before, chunk) && newlineIndex < |chunk|
      modifies this, buf
      ensures Valid() && Value() == LineRead(before, chunk, newlineIndex)
    {
      var index := pos + newlineIndex;
      var nextLineBuffered := |chunk| - newlineIndex - 1;
      sent := sent + [buf[..index]];
      assert buf[..index] == buf[..][..index];
      if nextLineBuffered > 0 {
        CopyWithin(buf, index + 1, index + nextLineBuffered);
        pos := nextLineBuffered;
      } else {
        pos := 0;
      }
    }

    method OnPiece(ghost before: Pipe, chunk: seq<byte>)
      requires HasRead(before, chunk)
      modifies this, buf
      ensures Valid() && Value() == PieceRead(before, chunk)
    {
      pos := pos + |chunk|;
      if pos >= KEEP {
        ghost var was := buf[..];
        assert buf[..KEEP] == was[..KEEP] && buf[KEEP + |OVERFLOW|..] == was[KEEP + |OVERFLOW|..];
        Fill(buf, KEEP, OVERFLOW);
        pos := KEEP + |OVERFLOW|;
      }
    }

    /** The `Ok(0)` arm. */
    method OnEof()
      requires Valid()
      modifies this
      ensures sent == AtEof(old(Value()))
    {
      pos := if pos <= BUFFER_SIZE then pos else BUFFER_SIZE;
      if pos > 0 {
        sent := sent + [buf[..pos]];
      }
    }
  }

  /** The whole thread on a pipe whose reads return these chunks and then end in the given way. */
  method PipeToLog(chunks: seq<seq<byte>>, end: PipeEnd) returns (log: seq<seq<byte>>)
    requires After(chunks).Some?
    ensures log == LogAt(After(chunks).value, end)
  {
    var buffer := new LineBuffer();
    var i := 0;
    assert chunks[..0] == [];
    while i < |chunks|
      invariant 0 <= i <= |chunks|
      invariant fresh(buffer) && fresh(buffer.buf) && buffer.Valid()
      invariant After(chunks[..i]) == Some(buffer.Value())
    {
      LastRead(chunks, i);
      buffer.OnData(chunks[i]);
      i := i + 1;
    }
    assert chunks[..i] == chunks;
    if end.EndOfFile? {
      buffer.OnEof();
    }
    log := buffer.sent;
  }
}
