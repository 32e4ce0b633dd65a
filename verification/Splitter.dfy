/** The guest's pipe-to-log splitter exactly as written (instance/src/host.rs, `spawn_pipe_to_log`):
    a fixed 3072-byte buffer, one newline search per read, an in-place copy of what follows the
    newline, and an overflow marker. */
module Splitter {
  import opened Protocol
  import opened Lines

  const BUFFER_SIZE: nat := 2048
  const BUFFER_LEN: nat := 3072 // BUFFER_SIZE + 1024
  const KEEP: nat := 1024       // BUFFER_SIZE - 1024
  const OVERFLOW: seq<byte> := [63, 63, 63, 46, 46, 46, 63, 63, 63] // "???...???"

  // ---- The thread's state, as a value ----

  datatype Pipe = Pipe(buf: seq<byte>, pos: nat, sent: seq<seq<byte>>)

  /** What an end of file now would flush: the buffer up to `pos.min(BUFFER_SIZE)`. */
  function View(p: Pipe): seq<byte>
    requires InBounds(p)
  {
    p.buf[..Min(p.pos, BUFFER_SIZE)]
  }

  predicate InBounds(p: Pipe) {
    |p.buf| == BUFFER_LEN && p.pos < BUFFER_LEN
  }

  /** `read` returns between one byte and the length of the slice it is given. */
  predicate Fits(p: Pipe, chunk: seq<byte>) {
    1 <= |chunk| <= BUFFER_LEN - Min(p.pos, BUFFER_SIZE)
  }

  /** `buf.copy_within(from..to, 0)` */
  function CopyToFront(buf: seq<byte>, from: nat, to: nat): (r: seq<byte>)
    requires from <= to <= |buf|
    ensures |r| == |buf|
  {
    buf[from..to] + buf[to - from..]
  }

  /** The buffer right after the read. */
  function Filled(p: Pipe, chunk: seq<byte>): (buf: seq<byte>)
    requires InBounds(p) && Fits(p, chunk)
    ensures |buf| == BUFFER_LEN
  {
    View(p) + chunk + p.buf[Min(p.pos, BUFFER_SIZE) + |chunk|..]
  }

  /** A read whose first newline is at `newlineIndex`: send the line, move up what follows. The
      copied range ends one byte short of the read. */
  function LineRead(p: Pipe, chunk: seq<byte>, newlineIndex: nat): (p': Pipe)
    requires InBounds(p) && Fits(p, chunk) && newlineIndex < |chunk|
    ensures InBounds(p')
  {
    var buf := Filled(p, chunk);
    var index := Min(p.pos, BUFFER_SIZE) + newlineIndex;
    var nextLineBuffered := |chunk| - newlineIndex - 1;
    if nextLineBuffered > 0 then
      Pipe(CopyToFront(buf, index + 1, index + nextLineBuffered), nextLineBuffered, p.sent + [buf[..index]])
    else
      Pipe(buf, 0, p.sent + [buf[..index]])
  }

  /** A read without a newline: keep it, or write the overflow marker. */
  function PieceRead(p: Pipe, chunk: seq<byte>): (p': Pipe)
    requires InBounds(p) && Fits(p, chunk)
    ensures InBounds(p')
  {
    var buf := Filled(p, chunk);
    var pos := Min(p.pos, BUFFER_SIZE) + |chunk|;
    if pos >= KEEP then
      Pipe(buf[..KEEP] + OVERFLOW + buf[KEEP + |OVERFLOW|..], KEEP + |OVERFLOW|, p.sent)
    else
      Pipe(buf, pos, p.sent)
  }

  /** One successful read. */
  function Read(p: Pipe, chunk: seq<byte>): (p': Pipe)
    requires InBounds(p) && Fits(p, chunk)
    ensures InBounds(p')
  {
    var newlineIndex := FirstNewline(chunk);
    if newlineIndex < |chunk| then LineRead(p, chunk, newlineIndex) else PieceRead(p, chunk)
  }

  function Zeros(n: nat): (s: seq<byte>)
    ensures |s| == n
  {
    seq(n, i requires 0 <= i < n => 0)
  }

  const START: Pipe := Pipe(Zeros(BUFFER_LEN), 0, [])

  /** The state after a sequence of reads, or `None` if some read returned more than its slice. */
  function After(chunks: seq<seq<byte>>): (p: Option<Pipe>)
    ensures p.Some? ==> InBounds(p.value)
  {
    if chunks == [] then Some(START)
    else
      var n := |chunks| - 1;
      var before := After(chunks[..n]);
      if before.Some? && Fits(before.value, chunks[n]) then Some(Read(before.value, chunks[n])) else None
  }

  /** The log lines of a pipe that ends after these reads. */
  function AtEof(p: Pipe): seq<seq<byte>>
    requires InBounds(p)
  {
    p.sent + if View(p) == [] then [] else [View(p)]
  }

  /** How a pipe's reads end: `Ok(0)` or `Err`. */
  datatype PipeEnd = EndOfFile | ReadError

  /** The log lines of a pipe that ends in this way; a read error flushes nothing. */
  function LogAt(p: Pipe, end: PipeEnd): seq<seq<byte>>
    requires InBounds(p)
  {
    if end.EndOfFile? then AtEof(p) else p.sent
  }

  // ---- Bounds ----

  /** Every line has fewer than 3072 raw bytes, on every schedule; and the slice handed to `read`
      always has room for at least 1024 bytes, so `Ok(0)` can only mean end of file. */
  lemma {:induction false} EveryLineIsBounded(chunks: seq<seq<byte>>)
    requires After(chunks).Some?
    ensures forall line :: line in AtEof(After(chunks).value) ==> |line| < 3072
    ensures 1024 <= 3072 - Min(After(chunks).value.pos, BUFFER_SIZE)
  {
    if chunks != [] {
      EveryLineIsBounded(chunks[..|chunks| - 1]);
    }
  }

  // ---- When is the code as written exact? ----

  /** Up to now the thread has sent exactly the lines that are complete, and an end of file now
      would flush exactly the unterminated rest. */
  predicate Exact(p: Pipe, stream: seq<byte>)
    requires InBounds(p)
  {
    p.sent == CompleteLines(stream) && View(p) == Pending(stream)
  }

  /** The same through the log alone: what has been sent, and what an end of file would send. */
  lemma ExactIsObservable(p: Pipe, stream: seq<byte>)
    requires InBounds(p)
    ensures Exact(p, stream) <==> p.sent == CompleteLines(stream) && AtEof(p) == SplitLines(stream)
  {
    if p.sent == CompleteLines(stream) && AtEof(p) == SplitLines(stream) {
      var n := |p.sent|;
      assert AtEof(p)[n..] == if View(p) == [] then [] else [View(p)];
      assert SplitLines(stream)[n..] == if Pending(stream) == [] then [] else [Pending(stream)];
    }
  }

  /** A read the code handles exactly, given the unterminated piece before it. Without a newline the
      piece must stay below 1024 bytes (or already equal what the overflow branch writes). With one,
      nothing may follow it, or at most 2048 bytes without a further newline whose last byte is the
      byte that the short copy leaves in its place. */
  predicate CleanRead(pending: seq<byte>, chunk: seq<byte>) {
    var w := pending + chunk;
    var k := FirstNewline(w);
    if k == |w| then
      |w| < KEEP || (|w| == KEEP + |OVERFLOW| && w[KEEP..] == OVERFLOW)
    else
      CleanRest(w, w[k + 1..])
  }

  predicate CleanRest(w: seq<byte>, rest: seq<byte>)
    requires |rest| <= |w|
  {
    rest == [] || (|rest| <= BUFFER_SIZE && FirstNewline(rest) == |rest| && w[|rest| - 1] == rest[|rest| - 1])
  }

  lemma FilledWith(p: Pipe, chunk: seq<byte>, k: nat)
    requires InBounds(p) && Fits(p, chunk) && k <= |View(p) + chunk|
    ensures Filled(p, chunk)[..k] == (View(p) + chunk)[..k]
    ensures |View(p)| == Min(p.pos, BUFFER_SIZE)
  {
  }

  lemma PieceReadFacts(p: Pipe, chunk: seq<byte>)
    requires InBounds(p) && Fits(p, chunk)
    ensures var w := View(p) + chunk;
            && PieceRead(p, chunk).sent == p.sent
            && View(PieceRead(p, chunk)) == if |w| < KEEP then w else w[..KEEP] + OVERFLOW
  {
    var w := View(p) + chunk;
    if |w| < KEEP {
      FilledWith(p, chunk, |w|);
      assert w[..|w|] == w;
    } else {
      FilledWith(p, chunk, KEEP);
      var left := Filled(p, chunk)[..KEEP] + OVERFLOW;
      var right := Filled(p, chunk)[KEEP + |OVERFLOW|..];
      assert (left + right)[..|left|] == left;
    }
  }

  lemma ReadWithoutNewline(p: Pipe, stream: seq<byte>, chunk: seq<byte>)
    requires InBounds(p) && Fits(p, chunk) && Exact(p, stream)
    requires FirstNewline(chunk) == |chunk|
    ensures Exact(Read(p, chunk), stream + chunk) <==> CleanRead(Pending(stream), chunk)
  {
    var w := Pending(stream) + chunk;
    SplitMore(stream, chunk);
    FirstNewlineOfConcat(Pending(stream), chunk);
    PieceReadFacts(p, chunk);
    assert Pending(stream + chunk) == w && CompleteLines(w) == [];
    assert CompleteLines(stream) + [] == CompleteLines(stream);
    if |w| >= KEEP {
      ClippedIsWhole(w);
    }
  }

  lemma ClippedIsWhole(w: seq<byte>)
    requires KEEP <= |w|
    ensures w[..KEEP] + OVERFLOW == w <==> |w| == KEEP + |OVERFLOW| && w[KEEP..] == OVERFLOW
  {
    var clipped := w[..KEEP] + OVERFLOW;
    assert clipped[KEEP..] == OVERFLOW;
    assert w == w[..KEEP] + w[KEEP..];
  }

  /** What the copy leaves at the front: all but the last byte, then the byte that was there. */
  lemma ShortCopy(w: seq<byte>, buf: seq<byte>, k: nat)
    requires |w| <= |buf| && buf[..|w|] == w && k + 1 < |w|
    ensures var next := |w| - k - 1;
            var rest := w[k + 1..];
            CopyToFront(buf, k + 1, k + next)[..next] == rest[..next - 1] + [w[next - 1]]
  {
    var next := |w| - k - 1;
    var rest := w[k + 1..];
    var front := CopyToFront(buf, k + 1, k + next)[..next];
    assert forall i :: 0 <= i < |w| ==> buf[i] == buf[..|w|][i] == w[i];
    assert front[next - 1] == buf[next - 1];
    assert forall i :: 0 <= i < next - 1 ==> front[i] == buf[k + 1 + i] == rest[i];
  }

  /** The state after a read with a newline, in terms of the flushable piece and the read. */
  lemma LineReadFacts(p: Pipe, chunk: seq<byte>, newlineIndex: nat)
    requires InBounds(p) && Fits(p, chunk) && newlineIndex < |chunk|
    ensures var w := View(p) + chunk;
            var k := |View(p)| + newlineIndex;
            var p' := LineRead(p, chunk, newlineIndex);
            && p'.sent == p.sent + [w[..k]] && p'.pos == |w| - k - 1
            && (p'.pos > 0 ==> p'.buf[..p'.pos] == w[k + 1..][..p'.pos - 1] + [w[p'.pos - 1]])
  {
    var w := View(p) + chunk;
    var k := |View(p)| + newlineIndex;
    FilledWith(p, chunk, k);
    if k + 1 < |w| {
      FilledWith(p, chunk, |w|);
      assert w[..|w|] == w;
      ShortCopy(w, Filled(p, chunk), k);
    }
  }

  lemma ReadWithNewline(p: Pipe, stream: seq<byte>, chunk: seq<byte>)
    requires InBounds(p) && Fits(p, chunk) && Exact(p, stream)
    requires FirstNewline(chunk) < |chunk|
    ensures Exact(Read(p, chunk), stream + chunk) <==> CleanRead(Pending(stream), chunk)
  {
    var w := Pending(stream) + chunk;
    var k := |Pending(stream)| + FirstNewline(chunk);
    FirstNewlineOfConcat(Pending(stream), chunk);
    LineReadFacts(p, chunk, FirstNewline(chunk));
    AfterLine(stream, chunk, w, k, LineRead(p, chunk, FirstNewline(chunk)));
  }

  lemma AfterLine(stream: seq<byte>, chunk: seq<byte>, w: seq<byte>, k: nat, p: Pipe)
    requires InBounds(p) && w == Pending(stream) + chunk && k == FirstNewline(w) < |w|
    requires p.sent == CompleteLines(stream) + [w[..k]] && p.pos == |w| - k - 1
    requires p.pos > 0 ==> p.buf[..p.pos] == w[k + 1..][..p.pos - 1] + [w[p.pos - 1]]
    ensures Exact(p, stream + chunk) <==> CleanRest(w, w[k + 1..])
  {
    SplitMore(stream, chunk);
    var rest := w[k + 1..];
    SentIsExact(CompleteLines(stream), w[..k], CompleteLines(rest));
    NoLineIffNoNewline(rest);
    if rest != [] {
      ViewAfterNewline(p, w, k);
    }
  }

  lemma SentIsExact<T>(before: seq<T>, x: T, more: seq<T>)
    ensures before + [x] == before + ([x] + more) <==> more == []
  {
    assert |before + ([x] + more)| == |before + [x]| + |more|;
  }

  lemma NoLineIffNoNewline(rest: seq<byte>)
    ensures CompleteLines(rest) == [] <==> FirstNewline(rest) == |rest|
    ensures CompleteLines(rest) == [] ==> Pending(rest) == rest
  {
  }

  lemma ViewAfterNewline(p: Pipe, w: seq<byte>, k: nat)
    requires InBounds(p) && k + 1 < |w| && p.pos == |w| - k - 1
    requires p.buf[..p.pos] == w[k + 1..][..p.pos - 1] + [w[p.pos - 1]]
    ensures View(p) == w[k + 1..] <==> p.pos <= BUFFER_SIZE && w[p.pos - 1] == w[k + 1..][p.pos - 1]
  {
    var rest := w[k + 1..];
    if p.pos <= BUFFER_SIZE {
      assert rest == rest[..p.pos - 1] + [rest[p.pos - 1]];
      assert View(p)[p.pos - 1] == w[p.pos - 1];
    } else {
      assert |View(p)| != |rest|;
    }
  }

  /** One read, in full: from an exact state the next state is exact if and only if the read is
      clean. */
  lemma ReadIsExactIff(p: Pipe, stream: seq<byte>, chunk: seq<byte>)
    requires InBounds(p) && Fits(p, chunk) && Exact(p, stream)
    ensures Exact(Read(p, chunk), stream + chunk) <==> CleanRead(Pending(stream), chunk)
  {
    if FirstNewline(chunk) < |chunk| {
      ReadWithNewline(p, stream, chunk);
    } else {
      ReadWithoutNewline(p, stream, chunk);
    }
  }

  /** The log is exact after each of the reads. */
  ghost predicate ExactThroughout(chunks: seq<seq<byte>>)
    requires After(chunks).Some?
  {
    forall n :: 0 <= n <= |chunks| ==>
      After(chunks[..n]).Some? && Exact(After(chunks[..n]).value, Concat(chunks[..n]))
  }

  predicate AllClean(chunks: seq<seq<byte>>) {
    forall n :: 0 <= n < |chunks| ==> CleanRead(Pending(Concat(chunks[..n])), chunks[n])
  }

  lemma {:induction false} AfterPrefix(chunks: seq<seq<byte>>, n: nat)
    requires After(chunks).Some? && n <= |chunks|
    ensures After(chunks[..n]).Some?
  {
    if n < |chunks| {
      var m := |chunks| - 1;
      AfterPrefix(chunks[..m], n);
      assert chunks[..m][..n] == chunks[..n];
    } else {
      assert chunks[..n] == chunks;
    }
  }

  /** Main result for the code as written, over every byte stream and every way of chunking it: the
      log is the newline split at every moment if and only if every read is clean. */
  lemma AsWrittenExactIff(chunks: seq<seq<byte>>)
    requires After(chunks).Some?
    ensures ExactThroughout(chunks) <==> AllClean(chunks)
  {
    if AllClean(chunks) {
      forall n | 0 <= n <= |chunks|
        ensures After(chunks[..n]).Some? && Exact(After(chunks[..n]).value, Concat(chunks[..n]))
      {
        CleanPrefixIsExact(chunks, n);
      }
    }
    if ExactThroughout(chunks) {
      forall n | 0 <= n < |chunks| ensures CleanRead(Pending(Concat(chunks[..n])), chunks[n]) {
        LastRead(chunks, n);
        ReadIsExactIff(After(chunks[..n]).value, Concat(chunks[..n]), chunks[n]);
      }
    }
  }

  lemma LastRead(chunks: seq<seq<byte>>, n: nat)
    requires After(chunks).Some? && n < |chunks|
    ensures After(chunks[..n]).Some? && Fits(After(chunks[..n]).value, chunks[n])
    ensures After(chunks[..n + 1]) == Some(Read(After(chunks[..n]).value, chunks[n]))
    ensures Concat(chunks[..n + 1]) == Concat(chunks[..n]) + chunks[n]
  {
    AfterPrefix(chunks, n);
    AfterPrefix(chunks, n + 1);
    assert chunks[..n + 1][..n] == chunks[..n];
  }

  lemma {:induction false} CleanPrefixIsExact(chunks: seq<seq<byte>>, n: nat)
    requires After(chunks).Some? && AllClean(chunks) && n <= |chunks|
    ensures After(chunks[..n]).Some? && Exact(After(chunks[..n]).value, Concat(chunks[..n]))
    decreases n
  {
    if n > 0 {
      CleanPrefixIsExact(chunks, n - 1);
      LastRead(chunks, n - 1);
      ReadIsExactIff(After(chunks[..n - 1]).value, Concat(chunks[..n - 1]), chunks[n - 1]);
    }
  }

  /** On clean reads, a pipe that ends has the newline split of its stream as its log, and a pipe
      whose read fails has lost just the unterminated rest. */
  lemma CleanReadsSplitExactly(chunks: seq<seq<byte>>)
    requires After(chunks).Some? && AllClean(chunks)
    ensures LogAt(After(chunks).value, EndOfFile) == SplitLines(Concat(chunks))
    ensures LogAt(After(chunks).value, ReadError) == CompleteLines(Concat(chunks))
  {
    CleanPrefixIsExact(chunks, |chunks|);
    assert chunks[..|chunks|] == chunks;
    ExactIsObservable(After(chunks).value, Concat(chunks));
  }

  // ---- Short lines ----

  predicate ShortLines(lines: seq<seq<byte>>) {
    forall line :: line in lines ==> |line| < KEEP
  }

  /** If all lines of a stream are short, so are the lines and the rest of every prefix. */
  lemma ShortPrefix(s: seq<byte>, more: seq<byte>)
    requires ShortLines(SplitLines(s + more))
    ensures ShortLines(SplitLines(s)) && |Pending(s)| < KEEP
  {
    SplitMore(s, more);
    var w := Pending(s) + more;
    FirstNewlineOfConcat(Pending(s), more);
    var k := FirstNewline(w);
    forall line | line in CompleteLines(s) ensures |line| < KEEP {
      assert line in SplitLines(s + more);
    }
    if Pending(s) != [] {
      if k < |w| {
        assert w[..k] in CompleteLines(w);
        assert w[..k] in SplitLines(s + more);
      } else {
        assert Pending(s + more) == w;
        assert w in SplitLines(s + more);
      }
    }
  }

  /** A read with two newlines is never clean: after it a complete line has not been sent yet. When
      the log of the whole pipe is right nevertheless is said in `WholeLog`. */
  lemma TwoNewlinesNeverClean(pending: seq<byte>, chunk: seq<byte>, i: nat, j: nat)
    requires FirstNewline(pending) == |pending|
    requires i < j < |chunk| && chunk[i] == chunk[j] == NEWLINE
    ensures !CleanRead(pending, chunk)
  {
    var w := pending + chunk;
    NewlineAt(w, |pending| + i);
    NewlineInRest(w, FirstNewline(w), |pending| + j);
  }

  lemma NewlineInRest(w: seq<byte>, k: nat, j: nat)
    requires k < j < |w| && w[j] == NEWLINE
    ensures FirstNewline(w[k + 1..]) < |w[k + 1..]|
  {
    NewlineAt(w[k + 1..], j - k - 1);
  }

  /** The smallest failing stream: the single read "a\nbc" logs "a" and "b\n", not "a" and "bc". */
  lemma SingleReadFails()
    ensures var chunk: seq<byte> := [97, 10, 98, 99];
            && After([chunk]).Some?
            && AtEof(After([chunk]).value) == [[97], [98, 10]]
            && SplitLines(chunk) == [[97], [98, 99]]
            && !CleanRead([], chunk)
  {
    var chunk: seq<byte> := [97, 10, 98, 99];
    assert [chunk][..0] == [];
    assert After([]) == Some(START);
    assert FirstNewline(chunk) == 1;
    var buf := Filled(START, chunk);
    assert buf[..4] == chunk;
    assert buf[..1] == [97];
    ShortCopy(chunk, buf, 1);
    var p := Read(START, chunk);
    assert After([chunk]) == Some(p);
    assert p.pos == 2 && p.sent == [[97]];
    assert View(p) == [98, 10];
    var rest := chunk[2..];
    assert FirstNewline(rest) == 2 && chunk[..1] == [97] && rest == [98, 99];
    assert [] + chunk == chunk;
  }

  // ---- Reads that end at newlines ----

  /** A newline occurs at most as the last byte of a read. */
  predicate NewlineOnlyLast(chunk: seq<byte>) {
    |chunk| > 0 && FirstNewline(chunk) >= |chunk| - 1
  }

  /** What the overflow branch makes of an unterminated piece. */
  function Clip(piece: seq<byte>): seq<byte> {
    if |piece| < KEEP then piece else piece[..KEEP] + OVERFLOW
  }

  /** Line by line: each logged line is the clipped part read before its last chunk, then that last
      chunk up to the newline. `piece` is the part of the current line read so far. */
  function LoggedLines(piece: seq<byte>, chunks: seq<seq<byte>>): seq<seq<byte>>
    decreases |chunks|
  {
    if chunks == [] then
      if piece == [] then [] else [Clip(piece)]
    else if FirstNewline(chunks[0]) < |chunks[0]| then
      [Clip(piece) + chunks[0][..FirstNewline(chunks[0])]] + LoggedLines([], chunks[1..])
    else
      LoggedLines(piece + chunks[0], chunks[1..])
  }

  lemma ClippedLine(p: Pipe, piece: seq<byte>, chunk: seq<byte>)
    requires InBounds(p) && Fits(p, chunk) && NewlineOnlyLast(chunk) && View(p) == Clip(piece)
    requires FirstNewline(chunk) < |chunk|
    ensures View(Read(p, chunk)) == []
    ensures Read(p, chunk).sent == p.sent + [Clip(piece) + chunk[..FirstNewline(chunk)]]
  {
    var n := FirstNewline(chunk);
    LineReadFacts(p, chunk, n);
    assert (View(p) + chunk)[..|View(p)| + n] == View(p) + chunk[..n];
  }

  lemma ClippedPiece(p: Pipe, piece: seq<byte>, chunk: seq<byte>)
    requires InBounds(p) && Fits(p, chunk) && View(p) == Clip(piece)
    requires FirstNewline(chunk) == |chunk|
    ensures View(Read(p, chunk)) == Clip(piece + chunk) && Read(p, chunk).sent == p.sent
  {
    PieceReadFacts(p, chunk);
    if |piece| >= KEEP {
      assert (Clip(piece) + chunk)[..KEEP] == piece[..KEEP] == (piece + chunk)[..KEEP];
    }
  }

  /** For every schedule whose reads contain a newline only as their last byte, overflow included:
      an overlong line is logged as its first 1024 bytes, the marker, and the part of its last read
      before the newline; nothing follows the marker if the pipe ends first. */
  lemma NewlineTerminatedReads(chunks: seq<seq<byte>>)
    requires After(chunks).Some?
    requires forall c :: c in chunks ==> NewlineOnlyLast(c)
    ensures AtEof(After(chunks).value) == LoggedLines([], chunks)
  {
    assert chunks[..0] == [];
    ClippedRun(chunks, 0, []);
    assert START.sent == [];
  }

  lemma ClippedNext(chunks: seq<seq<byte>>, n: nat, piece: seq<byte>)
    requires After(chunks).Some? && n < |chunks| && NewlineOnlyLast(chunks[n])
    requires After(chunks[..n]).Some? && View(After(chunks[..n]).value) == Clip(piece)
    ensures After(chunks[..n + 1]).Some?
    ensures var p := After(chunks[..n]).value;
            var p' := After(chunks[..n + 1]).value;
            var k := FirstNewline(chunks[n]);
            if k < |chunks[n]|
            then View(p') == Clip([]) && p'.sent == p.sent + [Clip(piece) + chunks[n][..k]]
            else View(p') == Clip(piece + chunks[n]) && p'.sent == p.sent
  {
    LastRead(chunks, n);
    if FirstNewline(chunks[n]) < |chunks[n]| {
      ClippedLine(After(chunks[..n]).value, piece, chunks[n]);
    } else {
      ClippedPiece(After(chunks[..n]).value, piece, chunks[n]);
    }
  }

  lemma {:induction false} ClippedRun(chunks: seq<seq<byte>>, n: nat, piece: seq<byte>)
    requires After(chunks).Some? && n <= |chunks|
    requires forall c :: c in chunks ==> NewlineOnlyLast(c)
    requires After(chunks[..n]).Some? && View(After(chunks[..n]).value) == Clip(piece)
    ensures AtEof(After(chunks).value) == After(chunks[..n]).value.sent + LoggedLines(piece, chunks[n..])
    decreases |chunks| - n
  {
    if n == |chunks| {
      assert chunks[..n] == chunks;
    } else {
      ClippedNext(chunks, n, piece);
      LoggedLinesOfNext(piece, chunks[n], chunks[n + 1..]);
      assert chunks[n..] == [chunks[n]] + chunks[n + 1..];
      var k := FirstNewline(chunks[n]);
      if k < |chunks[n]| {
        ClippedRun(chunks, n + 1, []);
        Regroup(After(chunks[..n]).value.sent, Clip(piece) + chunks[n][..k], LoggedLines([], chunks[n + 1..]));
      } else {
        ClippedRun(chunks, n + 1, piece + chunks[n]);
      }
    }
  }

  lemma Regroup<T>(a: seq<T>, x: T, b: seq<T>)
    ensures a + [x] + b == a + ([x] + b)
  {
  }

  lemma LoggedLinesOfNext(piece: seq<byte>, chunk: seq<byte>, later: seq<seq<byte>>)
    ensures LoggedLines(piece, [chunk] + later) ==
            if FirstNewline(chunk) < |chunk|
            then [Clip(piece) + chunk[..FirstNewline(chunk)]] + LoggedLines([], later)
            else LoggedLines(piece + chunk, later)
  {
    assert ([chunk] + later)[1..] == later;
  }
}
