/** When the whole log of a pipe that ends is right, for the splitter as written (instance/src/host.rs,
    `spawn_pipe_to_log`): a log can be wrong for a while and still come out right, in two ways. */
module WholeLog {
  import opened Protocol
  import opened Lines
  import opened Splitter

  // ---- What a read leaves ----

  /** The state goes wrong, but only behind byte 1024 of a piece shorter than a clipped one: the
      overflow branch may yet overwrite what is wrong. */
  predicate DormantRead(pending: seq<byte>, chunk: seq<byte>) {
    var w := pending + chunk;
    var k := FirstNewline(w);
    if k == |w| then Middling(w)
    else FirstNewline(w[k + 1..]) == |w[k + 1..]| && KEEP < |w[k + 1..]| && Middling(w[k + 1..])
  }

  predicate Middling(piece: seq<byte>) {
    KEEP <= |piece| < KEEP + |OVERFLOW|
  }

  /** Two lines end in the read, and the second fills the part of the buffer that an end of file
      flushes exactly, without its newline. */
  predicate LateRead(pending: seq<byte>, chunk: seq<byte>) {
    var w := pending + chunk;
    var k := FirstNewline(w);
    k < |w| && |w[k + 1..]| == BUFFER_SIZE + 1 && FirstNewline(w[k + 1..]) == BUFFER_SIZE
  }

  predicate HasNewline(chunk: seq<byte>) {
    FirstNewline(chunk) < |chunk|
  }

  // ---- Three kinds of state that can still lead to a right log ----

  /** Wrong for now, but not for good. */
  predicate Dormant(p: Pipe, stream: seq<byte>)
    requires InBounds(p)
  {
    && p.sent == CompleteLines(stream)
    && Middling(Pending(stream)) && KEEP <= |View(p)|
    && View(p)[..KEEP] == Pending(stream)[..KEEP] && View(p) != Pending(stream)
  }

  /** One line behind, with that line in the buffer and nothing else. */
  predicate Late(p: Pipe, stream: seq<byte>)
    requires InBounds(p)
  {
    CompleteLines(stream) == p.sent + [View(p)] && View(p) != [] && Pending(stream) == []
  }

  /** What holds in every state: no line is sent that is not complete, and while none is missing the
      buffer holds as much of the unterminated piece as matters. */
  predicate Keeps(p: Pipe, stream: seq<byte>)
    requires InBounds(p)
  {
    |p.sent| <= |CompleteLines(stream)| &&
    (|p.sent| == |CompleteLines(stream)| ==> SameExtent(View(p), Pending(stream)))
  }

  predicate SameExtent(view: seq<byte>, pending: seq<byte>) {
    if |pending| < KEEP then |view| == |pending| else KEEP <= |view|
  }

  lemma RightAtEofIff(p: Pipe, stream: seq<byte>)
    requires InBounds(p) && Keeps(p, stream)
    ensures AtEof(p) == SplitLines(stream) <==> Exact(p, stream) || Late(p, stream)
  {
    var n := |p.sent|;
    var lines := CompleteLines(stream);
    assert AtEof(p)[..n] == p.sent;
    if AtEof(p) == SplitLines(stream) {
      assert p.sent == lines[..n] by {
        assert SplitLines(stream)[..n] == lines[..n];
      }
      if n == |lines| {
        assert lines[..n] == lines;
        ExactIsObservable(p, stream);
      } else {
        assert |AtEof(p)| <= n + 1 && |SplitLines(stream)| >= n + 1;
        assert SplitLines(stream) == lines;
        assert lines[n] == AtEof(p)[n] == View(p);
      }
    } else if Exact(p, stream) {
      ExactIsObservable(p, stream);
    }
  }

  // ---- A read with a newline ----

  /** What the stream gains. */
  lemma StreamAfterLine(stream: seq<byte>, chunk: seq<byte>)
    requires HasNewline(chunk)
    ensures var i := FirstNewline(chunk);
            var q := Pending(stream);
            && FirstNewline(q + chunk) == |q| + i && (q + chunk)[|q| + i + 1..] == chunk[i + 1..]
            && CompleteLines(stream + chunk) == CompleteLines(stream) + [q + chunk[..i]] + CompleteLines(chunk[i + 1..])
            && Pending(stream + chunk) == Pending(chunk[i + 1..])
  {
    var i := FirstNewline(chunk);
    var q := Pending(stream);
    var w := q + chunk;
    SplitMore(stream, chunk);
    FirstNewlineOfConcat(q, chunk);
    assert w[..|q| + i] == q + chunk[..i];
    assert w[|q| + i + 1..] == chunk[i + 1..];
    Regroup(CompleteLines(stream), q + chunk[..i], CompleteLines(chunk[i + 1..]));
  }

  /** What the thread does. */
  lemma ThreadAfterLine(p: Pipe, chunk: seq<byte>)
    requires InBounds(p) && Fits(p, chunk) && HasNewline(chunk)
    ensures var i := FirstNewline(chunk);
            var rest := chunk[i + 1..];
            var p' := Read(p, chunk);
            && p'.sent == p.sent + [View(p) + chunk[..i]]
            && |View(p')| == Min(|rest|, BUFFER_SIZE)
            && (0 < |rest| <= BUFFER_SIZE ==>
                  View(p') == rest[..|rest| - 1] + [(View(p) + chunk)[|rest| - 1]])
            && (BUFFER_SIZE < |rest| ==> View(p') == rest[..BUFFER_SIZE])
  {
    var i := FirstNewline(chunk);
    var rest := chunk[i + 1..];
    var w := View(p) + chunk;
    LineReadFacts(p, chunk, i);
    assert w[..|View(p)| + i] == View(p) + chunk[..i];
    assert w[|View(p)| + i + 1..] == rest;
    var p' := LineRead(p, chunk, i);
    if BUFFER_SIZE < |rest| {
      assert View(p') == p'.buf[..p'.pos][..BUFFER_SIZE];
      assert (rest[..p'.pos - 1] + [w[p'.pos - 1]])[..BUFFER_SIZE] == rest[..BUFFER_SIZE];
    }
  }

  /** After a newline nothing is missing if and only if nothing was wrong and it was the only one. */
  lemma SentAfterLine(sent: seq<seq<byte>>, lines: seq<seq<byte>>, x: seq<byte>, y: seq<byte>, more: seq<seq<byte>>)
    requires |sent| <= |lines|
    ensures sent + [x] == lines + [y] + more <==> sent == lines && x == y && more == []
  {
    if sent + [x] == lines + [y] + more {
      assert |sent + [x]| == |lines + [y] + more|;
      assert sent == (sent + [x])[..|sent|] == (lines + [y] + more)[..|sent|] == lines;
      assert x == (sent + [x])[|sent|] == (lines + [y] + more)[|sent|] == y;
    }
  }

  lemma SentOneShort(sent: seq<seq<byte>>, lines: seq<seq<byte>>, x: seq<byte>, y: seq<byte>, more: seq<seq<byte>>, v: seq<byte>)
    requires |sent| <= |lines|
    ensures more != [] ==>
              (lines + [y] + more == sent + [x] + [v] <==> sent == lines && x == y && more == [v])
  {
    if more != [] && lines + [y] + more == sent + [x] + [v] {
      var all := lines + [y] + more;
      assert |all| == |sent + [x] + [v]|;
      assert sent == (sent + [x] + [v])[..|sent|] == all[..|sent|] == lines;
      assert x == (sent + [x] + [v])[|sent|] == all[|sent|] == y;
      assert more[0] == all[|sent| + 1] == v;
    }
  }

  lemma SameSuffix(a: seq<byte>, b: seq<byte>, c: seq<byte>)
    ensures a + c == b + c <==> a == b
  {
    if a + c == b + c {
      assert |a| == |b|;
      assert a == (a + c)[..|a|] == (b + c)[..|a|] == b;
    }
  }

  /** The rest of an exact state's read, as it stands in the buffer. */
  predicate Moved(view: seq<byte>, rest: seq<byte>, stale: byte) {
    && |view| == Min(|rest|, BUFFER_SIZE)
    && (0 < |rest| <= BUFFER_SIZE ==> view == rest[..|rest| - 1] + [stale])
    && (BUFFER_SIZE < |rest| ==> view == rest[..BUFFER_SIZE])
  }

  lemma MovedRest(view: seq<byte>, rest: seq<byte>, stale: byte)
    requires Moved(view, rest, stale)
    ensures view == rest <==> rest == [] || (|rest| <= BUFFER_SIZE && stale == rest[|rest| - 1])
    ensures Middling(rest) && view[..KEEP] == rest[..KEEP] && view != rest ==> KEEP < |rest|
    ensures Middling(rest) && KEEP < |rest| ==> KEEP <= |view| && view[..KEEP] == rest[..KEEP]
    ensures SameExtent(view, rest)
  {
    if 0 < |rest| <= BUFFER_SIZE {
      var last := |rest| - 1;
      assert rest == rest[..last] + [rest[last]];
      assert view[last] == stale;
      if |rest| == KEEP {
        assert view[..KEEP] == view && rest[..KEEP] == rest;
      }
    } else if BUFFER_SIZE < |rest| {
      assert |view| != |rest|;
    }
  }

  lemma MovedLine(view: seq<byte>, rest: seq<byte>, stale: byte)
    requires Moved(view, rest, stale)
    ensures CompleteLines(rest) == [view] && Pending(rest) == [] && view != []
            <==> |rest| == BUFFER_SIZE + 1 && FirstNewline(rest) == BUFFER_SIZE
  {
    var j := FirstNewline(rest);
    if j < |rest| {
      var tail := rest[j + 1..];
      NoLineIffNoNewline(tail);
      var first, later := [rest[..j]], CompleteLines(tail);
      assert CompleteLines(rest) == first + later && Pending(rest) == Pending(tail);
      if first + later == [view] && Pending(rest) == [] {
        assert |first + later| == 1 + |later|;
        assert later == [] && tail == [];
        assert view == (first + later)[0] == rest[..j];
      }
    }
  }

  lemma ExactAfterLineIff(p: Pipe, stream: seq<byte>, chunk: seq<byte>)
    requires InBounds(p) && Fits(p, chunk) && Keeps(p, stream) && HasNewline(chunk)
    ensures Exact(Read(p, chunk), stream + chunk) <==> Exact(p, stream) && CleanRead(Pending(stream), chunk)
  {
    if Exact(p, stream) {
      ReadIsExactIff(p, stream, chunk);
    } else {
      SentLineIsRight(p, stream, chunk);
    }
  }

  lemma SentLineIsRight(p: Pipe, stream: seq<byte>, chunk: seq<byte>)
    requires InBounds(p) && Fits(p, chunk) && Keeps(p, stream) && HasNewline(chunk)
    ensures Read(p, chunk).sent == CompleteLines(stream + chunk)
            <==> Exact(p, stream) && !HasNewline(chunk[FirstNewline(chunk) + 1..])
  {
    var i := FirstNewline(chunk);
    var rest := chunk[i + 1..];
    var v, q := View(p), Pending(stream);
    StreamAfterLine(stream, chunk);
    ThreadAfterLine(p, chunk);
    SentAfterLine(p.sent, CompleteLines(stream), v + chunk[..i], q + chunk[..i], CompleteLines(rest));
    SameSuffix(v, q, chunk[..i]);
    NoLineIffNoNewline(rest);
  }

  /** From an exact state, the rest of the read stands in the buffer with a stale last byte. */
  lemma MovedFromExact(p: Pipe, stream: seq<byte>, chunk: seq<byte>) returns (stale: byte)
    requires InBounds(p) && Fits(p, chunk) && HasNewline(chunk)
    ensures var rest := chunk[FirstNewline(chunk) + 1..];
            Moved(View(Read(p, chunk)), rest, stale)
  {
    var rest := chunk[FirstNewline(chunk) + 1..];
    ThreadAfterLine(p, chunk);
    stale := if 0 < |rest| <= BUFFER_SIZE then (View(p) + chunk)[|rest| - 1] else 0;
  }

  lemma DormantRestIff(view: seq<byte>, rest: seq<byte>, stale: byte)
    requires Moved(view, rest, stale)
    ensures Middling(rest) && KEEP <= |view| && view[..KEEP] == rest[..KEEP] && view != rest
            <==> Middling(rest) && KEEP < |rest| && stale != rest[|rest| - 1]
  {
    MovedRest(view, rest, stale);
  }

  lemma DormantReadOfLine(pending: seq<byte>, chunk: seq<byte>)
    requires FirstNewline(pending) == |pending| && HasNewline(chunk)
    ensures var rest := chunk[FirstNewline(chunk) + 1..];
            DormantRead(pending, chunk) <==> !HasNewline(rest) && KEEP < |rest| && Middling(rest)
  {
    FirstNewlineOfConcat(pending, chunk);
    assert (pending + chunk)[|pending| + FirstNewline(chunk) + 1..] == chunk[FirstNewline(chunk) + 1..];
  }

  lemma DormantAfterLineIff(p: Pipe, stream: seq<byte>, chunk: seq<byte>)
    requires InBounds(p) && Fits(p, chunk) && Keeps(p, stream) && HasNewline(chunk)
    ensures Dormant(Read(p, chunk), stream + chunk)
            <==> Exact(p, stream) && !CleanRead(Pending(stream), chunk) && DormantRead(Pending(stream), chunk)
  {
    var rest := chunk[FirstNewline(chunk) + 1..];
    var stale := MovedFromExact(p, stream, chunk);
    SentLineIsRight(p, stream, chunk);
    StreamAfterLine(stream, chunk);
    NoLineIffNoNewline(rest);
    DormantReadOfLine(Pending(stream), chunk);
    if Exact(p, stream) && !HasNewline(rest) {
      DormantRestIff(View(Read(p, chunk)), rest, stale);
      MovedRest(View(Read(p, chunk)), rest, stale);
      ReadIsExactIff(p, stream, chunk);
    }
  }

  lemma LateAfterLineIff(p: Pipe, stream: seq<byte>, chunk: seq<byte>)
    requires InBounds(p) && Fits(p, chunk) && Keeps(p, stream) && HasNewline(chunk)
    ensures Late(Read(p, chunk), stream + chunk) <==> Exact(p, stream) && LateRead(Pending(stream), chunk)
  {
    var i := FirstNewline(chunk);
    var rest := chunk[i + 1..];
    var v, q := View(p), Pending(stream);
    var view := View(Read(p, chunk));
    var stale := MovedFromExact(p, stream, chunk);
    StreamAfterLine(stream, chunk);
    ThreadAfterLine(p, chunk);
    NoLineIffNoNewline(rest);
    SentOneShort(p.sent, CompleteLines(stream), v + chunk[..i], q + chunk[..i], CompleteLines(rest), view);
    SameSuffix(v, q, chunk[..i]);
    MovedLine(view, rest, stale);
  }

  lemma KeepsAfterLine(p: Pipe, stream: seq<byte>, chunk: seq<byte>)
    requires InBounds(p) && Fits(p, chunk) && Keeps(p, stream) && HasNewline(chunk)
    ensures Keeps(Read(p, chunk), stream + chunk)
  {
    var rest := chunk[FirstNewline(chunk) + 1..];
    var stale := MovedFromExact(p, stream, chunk);
    StreamAfterLine(stream, chunk);
    ThreadAfterLine(p, chunk);
    NoLineIffNoNewline(rest);
    MovedRest(View(Read(p, chunk)), rest, stale);
  }

  // ---- A read without a newline ----

  lemma AfterPiece(p: Pipe, stream: seq<byte>, chunk: seq<byte>)
    requires InBounds(p) && Fits(p, chunk) && !HasNewline(chunk)
    ensures var p' := Read(p, chunk);
            && p'.sent == p.sent && View(p') == Clip(View(p) + chunk)
            && CompleteLines(stream + chunk) == CompleteLines(stream)
            && Pending(stream + chunk) == Pending(stream) + chunk
            && FirstNewline(Pending(stream) + chunk) == |Pending(stream) + chunk|
  {
    var w := Pending(stream) + chunk;
    PieceReadFacts(p, chunk);
    SplitMore(stream, chunk);
    FirstNewlineOfConcat(Pending(stream), chunk);
    assert CompleteLines(stream) + [] == CompleteLines(stream);
  }

  /** The buffer agrees with the piece as far as it must. */
  predicate Alike(view: seq<byte>, pending: seq<byte>) {
    view == pending || (Middling(pending) && KEEP <= |view| && view[..KEEP] == pending[..KEEP])
  }

  lemma ClippedAlike(view: seq<byte>, pending: seq<byte>, chunk: seq<byte>)
    requires SameExtent(view, pending) && chunk != []
    requires KEEP <= |pending + chunk| <= KEEP + |OVERFLOW|
    ensures KEEP <= |view + chunk|
    ensures (view + chunk)[..KEEP] == (pending + chunk)[..KEEP] <==> Alike(view, pending)
  {
    if |pending| < KEEP {
      if (view + chunk)[..KEEP] == (pending + chunk)[..KEEP] {
        assert view == (view + chunk)[..KEEP][..|view|] == (pending + chunk)[..KEEP][..|view|] == pending;
      }
    } else {
      assert (view + chunk)[..KEEP] == view[..KEEP] && (pending + chunk)[..KEEP] == pending[..KEEP];
    }
  }

  lemma ExactClipIff(view: seq<byte>, pending: seq<byte>, chunk: seq<byte>)
    requires SameExtent(view, pending) && chunk != []
    ensures var w := pending + chunk;
            Clip(view + chunk) == w <==>
            Alike(view, pending) && (|w| < KEEP || (|w| == KEEP + |OVERFLOW| && w[KEEP..] == OVERFLOW))
  {
    var w := pending + chunk;
    if |w| < KEEP {
      SameSuffix(view, pending, chunk);
    } else {
      var clipped := (view + chunk)[..KEEP] + OVERFLOW;
      assert |view + chunk| >= KEEP;
      assert Clip(view + chunk) == clipped;
      if |w| == KEEP + |OVERFLOW| {
        ClippedAlike(view, pending, chunk);
        assert w == w[..KEEP] + w[KEEP..];
        assert clipped[..KEEP] == (view + chunk)[..KEEP] && clipped[KEEP..] == OVERFLOW;
      }
    }
  }

  lemma DormantClipIff(view: seq<byte>, pending: seq<byte>, chunk: seq<byte>)
    requires SameExtent(view, pending) && chunk != [] && Middling(pending + chunk)
    ensures var w := pending + chunk;
            var view' := Clip(view + chunk);
            KEEP <= |view'| && view' != w && (view'[..KEEP] == w[..KEEP] <==> Alike(view, pending))
  {
    ClippedAlike(view, pending, chunk);
    var clipped := (view + chunk)[..KEEP] + OVERFLOW;
    assert clipped[..KEEP] == (view + chunk)[..KEEP];
  }

  lemma AlikeIff(p: Pipe, stream: seq<byte>)
    requires InBounds(p)
    ensures p.sent == CompleteLines(stream) && Alike(View(p), Pending(stream)) <==> Exact(p, stream) || Dormant(p, stream)
  {
  }

  lemma ExactAfterPieceIff(p: Pipe, stream: seq<byte>, chunk: seq<byte>)
    requires InBounds(p) && Fits(p, chunk) && Keeps(p, stream) && !HasNewline(chunk)
    ensures Exact(Read(p, chunk), stream + chunk)
            <==> (Exact(p, stream) || Dormant(p, stream)) && CleanRead(Pending(stream), chunk)
  {
    AfterPiece(p, stream, chunk);
    AlikeIff(p, stream);
    if p.sent == CompleteLines(stream) {
      ExactClipIff(View(p), Pending(stream), chunk);
    }
  }

  lemma DormantAfterPieceIff(p: Pipe, stream: seq<byte>, chunk: seq<byte>)
    requires InBounds(p) && Fits(p, chunk) && Keeps(p, stream) && !HasNewline(chunk)
    ensures Dormant(Read(p, chunk), stream + chunk)
            <==> (Exact(p, stream) || Dormant(p, stream)) && !CleanRead(Pending(stream), chunk)
                 && DormantRead(Pending(stream), chunk)
  {
    AfterPiece(p, stream, chunk);
    AlikeIff(p, stream);
    if p.sent == CompleteLines(stream) && Middling(Pending(stream) + chunk) {
      DormantClipIff(View(p), Pending(stream), chunk);
    }
  }

  lemma PieceIsNeverLate(p: Pipe, stream: seq<byte>, chunk: seq<byte>)
    requires InBounds(p) && Fits(p, chunk) && !HasNewline(chunk)
    ensures !Late(Read(p, chunk), stream + chunk) && !LateRead(Pending(stream), chunk)
  {
    AfterPiece(p, stream, chunk);
  }

  lemma KeepsAfterPiece(p: Pipe, stream: seq<byte>, chunk: seq<byte>)
    requires InBounds(p) && Fits(p, chunk) && Keeps(p, stream) && !HasNewline(chunk)
    ensures Keeps(Read(p, chunk), stream + chunk)
  {
    AfterPiece(p, stream, chunk);
  }

  // ---- Runs ----

  /** What stood before read `n`, and whether it is clean or dormant. */
  function Before(chunks: seq<seq<byte>>, n: nat): seq<byte>
    requires n <= |chunks|
  {
    Pending(Concat(chunks[..n]))
  }

  predicate CleanAt(chunks: seq<seq<byte>>, n: nat)
    requires n < |chunks|
  {
    CleanRead(Before(chunks, n), chunks[n])
  }

  predicate DormantAt(chunks: seq<seq<byte>>, n: nat)
    requires n < |chunks|
  {
    DormantRead(Before(chunks, n), chunks[n])
  }

  /** A read that does not spoil the log of the whole pipe: it is clean; or it is dormant and the next
      read has no newline; or it is late and the last. */
  predicate Harmless(chunks: seq<seq<byte>>, n: nat)
    requires n < |chunks|
  {
    || CleanAt(chunks, n)
    || (DormantAt(chunks, n) && n + 1 < |chunks| && !HasNewline(chunks[n + 1]))
    || (LateRead(Before(chunks, n), chunks[n]) && n + 1 == |chunks|)
  }

  predicate AllHarmless(chunks: seq<seq<byte>>) {
    forall n :: 0 <= n < |chunks| ==> Harmless(chunks, n)
  }

  /** The first `n` reads are clean, or dormant and not followed by a newline among them. */
  predicate Bearable(chunks: seq<seq<byte>>, n: nat)
    requires n <= |chunks|
  {
    forall m :: 0 <= m < n ==>
      CleanAt(chunks, m) || (DormantAt(chunks, m) && (m + 1 < n ==> !HasNewline(chunks[m + 1])))
  }

  predicate LastClean(chunks: seq<seq<byte>>, n: nat)
    requires n <= |chunks|
  {
    n == 0 || CleanAt(chunks, n - 1)
  }

  lemma {:induction false} RunKeeps(chunks: seq<seq<byte>>, n: nat)
    requires After(chunks).Some? && n <= |chunks|
    ensures After(chunks[..n]).Some? && Keeps(After(chunks[..n]).value, Concat(chunks[..n]))
  {
    AfterPrefix(chunks, n);
    if n == 0 {
      assert chunks[..0] == [];
    } else {
      LastRead(chunks, n - 1);
      RunKeeps(chunks, n - 1);
      var p := After(chunks[..n - 1]).value;
      if HasNewline(chunks[n - 1]) {
        KeepsAfterLine(p, Concat(chunks[..n - 1]), chunks[n - 1]);
      } else {
        KeepsAfterPiece(p, Concat(chunks[..n - 1]), chunks[n - 1]);
      }
    }
  }

  /** The kinds of state after one more read. */
  lemma KindsAfterRead(chunks: seq<seq<byte>>, n: nat)
    requires After(chunks).Some? && n < |chunks|
    ensures After(chunks[..n]).Some? && After(chunks[..n + 1]).Some?
    ensures var p, p' := After(chunks[..n]).value, After(chunks[..n + 1]).value;
            var s, s' := Concat(chunks[..n]), Concat(chunks[..n + 1]);
            var good := Exact(p, s) || (Dormant(p, s) && !HasNewline(chunks[n]));
            && (Exact(p', s') <==> good && CleanAt(chunks, n))
            && (Dormant(p', s') <==> good && !CleanAt(chunks, n) && DormantAt(chunks, n))
            && (Late(p', s') <==> Exact(p, s) && LateRead(Before(chunks, n), chunks[n]))
  {
    LastRead(chunks, n);
    RunKeeps(chunks, n);
    var p, s := After(chunks[..n]).value, Concat(chunks[..n]);
    if HasNewline(chunks[n]) {
      ExactAfterLineIff(p, s, chunks[n]);
      DormantAfterLineIff(p, s, chunks[n]);
      LateAfterLineIff(p, s, chunks[n]);
    } else {
      ExactAfterPieceIff(p, s, chunks[n]);
      DormantAfterPieceIff(p, s, chunks[n]);
      PieceIsNeverLate(p, s, chunks[n]);
    }
  }

  lemma BearableNext(chunks: seq<seq<byte>>, n: nat)
    requires n < |chunks|
    ensures Bearable(chunks, n + 1) <==>
              Bearable(chunks, n) && (CleanAt(chunks, n) || DormantAt(chunks, n))
              && (LastClean(chunks, n) || !HasNewline(chunks[n]))
  {
    if Bearable(chunks, n + 1) {
      forall m | 0 <= m < n
        ensures CleanAt(chunks, m) || (DormantAt(chunks, m) && (m + 1 < n ==> !HasNewline(chunks[m + 1])))
      {
      }
      assert n > 0 ==> CleanAt(chunks, n - 1) || !HasNewline(chunks[n - 1 + 1]);
    }
  }

  /** Every state of every run, by its reads. */
  lemma {:induction false} KindsOfState(chunks: seq<seq<byte>>, n: nat)
    requires After(chunks).Some? && n <= |chunks|
    ensures After(chunks[..n]).Some?
    ensures var p, s := After(chunks[..n]).value, Concat(chunks[..n]);
            && (Exact(p, s) <==> Bearable(chunks, n) && LastClean(chunks, n))
            && (Dormant(p, s) <==> Bearable(chunks, n) && !LastClean(chunks, n))
  {
    if n == 0 {
      assert chunks[..0] == [];
    } else {
      KindsOfState(chunks, n - 1);
      KindsAfterRead(chunks, n - 1);
      BearableNext(chunks, n - 1);
    }
  }

  lemma LateReadHasNewlines(chunks: seq<seq<byte>>, n: nat)
    requires n < |chunks| && LateRead(Before(chunks, n), chunks[n])
    ensures HasNewline(chunks[n]) && !CleanAt(chunks, n) && !DormantAt(chunks, n)
  {
    FirstNewlineOfConcat(Before(chunks, n), chunks[n]);
  }

  lemma HarmlessIsBearable(chunks: seq<seq<byte>>)
    requires chunks != [] && AllHarmless(chunks)
    ensures var last := |chunks| - 1;
            Bearable(chunks, last) && (LastClean(chunks, last) || !HasNewline(chunks[last]))
  {
    var last := |chunks| - 1;
    forall m | 0 <= m < last
      ensures CleanAt(chunks, m) || (DormantAt(chunks, m) && !HasNewline(chunks[m + 1]))
    {
      assert Harmless(chunks, m);
    }
    if last > 0 && !CleanAt(chunks, last - 1) {
      assert Harmless(chunks, last - 1);
    }
  }

  lemma BearableIsHarmless(chunks: seq<seq<byte>>, n: nat)
    requires n < |chunks| && Bearable(chunks, n) && (LastClean(chunks, n) || !HasNewline(chunks[n]))
    ensures forall m :: 0 <= m < n ==> Harmless(chunks, m)
  {
    forall m | 0 <= m < n ensures Harmless(chunks, m) {
      assert CleanAt(chunks, m) || (DormantAt(chunks, m) && (m + 1 < n ==> !HasNewline(chunks[m + 1])));
    }
  }

  lemma AllHarmlessIff(chunks: seq<seq<byte>>)
    requires chunks != []
    ensures var last := |chunks| - 1;
            AllHarmless(chunks) <==>
              && Bearable(chunks, last)
              && if CleanAt(chunks, last) then LastClean(chunks, last) || !HasNewline(chunks[last])
                 else LastClean(chunks, last) && LateRead(Before(chunks, last), chunks[last])
  {
    var last := |chunks| - 1;
    if LateRead(Before(chunks, last), chunks[last]) {
      LateReadHasNewlines(chunks, last);
    }
    if AllHarmless(chunks) {
      HarmlessIsBearable(chunks);
      assert Harmless(chunks, last);
    } else if Bearable(chunks, last) && (LastClean(chunks, last) || !HasNewline(chunks[last])) {
      BearableIsHarmless(chunks, last);
    }
  }

  /** Main result for the whole log, over every byte stream and every way of chunking it: the log of a
      pipe that ends is the newline split of its stream if and only if every read is harmless. */
  lemma WholeLogIsRightIff(chunks: seq<seq<byte>>)
    requires After(chunks).Some?
    ensures LogAt(After(chunks).value, EndOfFile) == SplitLines(Concat(chunks)) <==> AllHarmless(chunks)
  {
    var n := |chunks|;
    assert chunks[..n] == chunks;
    RunKeeps(chunks, n);
    RightAtEofIff(After(chunks).value, Concat(chunks));
    if n > 0 {
      KindsAfterRead(chunks, n - 1);
      KindsOfState(chunks, n - 1);
      AllHarmlessIff(chunks);
    }
  }

  // ---- A pipe whose read fails ----

  /** Exactly one line ends in the read, and nothing was wrong before it. */
  predicate SendsRightLine(chunks: seq<seq<byte>>, n: nat)
    requires n < |chunks|
  {
    && Bearable(chunks, n) && LastClean(chunks, n)
    && HasNewline(chunks[n]) && !HasNewline(chunks[n][FirstNewline(chunks[n]) + 1..])
  }

  lemma SentAfterRead(chunks: seq<seq<byte>>, n: nat)
    requires After(chunks).Some? && n < |chunks|
    ensures After(chunks[..n]).Some? && After(chunks[..n + 1]).Some?
    ensures After(chunks[..n + 1]).value.sent == CompleteLines(Concat(chunks[..n + 1])) <==>
            if HasNewline(chunks[n]) then SendsRightLine(chunks, n)
            else After(chunks[..n]).value.sent == CompleteLines(Concat(chunks[..n]))
  {
    LastRead(chunks, n);
    RunKeeps(chunks, n);
    KindsOfState(chunks, n);
    var p, s := After(chunks[..n]).value, Concat(chunks[..n]);
    if HasNewline(chunks[n]) {
      SentLineIsRight(p, s, chunks[n]);
    } else {
      AfterPiece(p, s, chunks[n]);
    }
  }

  /** ... at each of the first `n` reads with a newline. */
  predicate AllSentRight(chunks: seq<seq<byte>>, n: nat)
    requires n <= |chunks|
  {
    forall m :: 0 <= m < n && HasNewline(chunks[m]) ==> SendsRightLine(chunks, m)
  }

  lemma AllSentRightNext(chunks: seq<seq<byte>>, n: nat)
    requires n < |chunks|
    ensures AllSentRight(chunks, n + 1) <==>
            AllSentRight(chunks, n) && (HasNewline(chunks[n]) ==> SendsRightLine(chunks, n))
  {
  }

  lemma RightLineMeansRightBefore(chunks: seq<seq<byte>>, n: nat)
    requires After(chunks).Some? && n < |chunks| && SendsRightLine(chunks, n)
    ensures After(chunks[..n]).Some? && After(chunks[..n]).value.sent == CompleteLines(Concat(chunks[..n]))
  {
    KindsOfState(chunks, n);
  }

  lemma {:induction false} SentIsRightIff(chunks: seq<seq<byte>>, n: nat)
    requires After(chunks).Some? && n <= |chunks|
    ensures After(chunks[..n]).Some?
    ensures After(chunks[..n]).value.sent == CompleteLines(Concat(chunks[..n])) <==> AllSentRight(chunks, n)
  {
    if n == 0 {
      assert chunks[..0] == [];
    } else {
      SentAfterRead(chunks, n - 1);
      SentIsRightIff(chunks, n - 1);
      AllSentRightNext(chunks, n - 1);
      if SendsRightLine(chunks, n - 1) {
        RightLineMeansRightBefore(chunks, n - 1);
      }
    }
  }

  /** The log of a pipe whose read fails holds exactly the complete lines of its stream if and only if
      each read with a newline has just one and meets a buffer that is right. */
  lemma ErrorLogIsRightIff(chunks: seq<seq<byte>>)
    requires After(chunks).Some?
    ensures LogAt(After(chunks).value, ReadError) == CompleteLines(Concat(chunks)) <==> AllSentRight(chunks, |chunks|)
  {
    assert chunks[..|chunks|] == chunks;
    SentIsRightIff(chunks, |chunks|);
  }

  // ---- Consequences ----

  lemma TwoNewlinesNeverDormant(pending: seq<byte>, chunk: seq<byte>, i: nat, j: nat)
    requires i < j < |chunk| && chunk[i] == chunk[j] == NEWLINE
    ensures !DormantRead(pending, chunk)
  {
    var w := pending + chunk;
    NewlineAt(w, |pending| + i);
    NewlineInRest(w, FirstNewline(w), |pending| + j);
  }

  /** A read with two newlines leaves the log of the whole pipe wrong, unless it is the last read, and
      the late one. */
  lemma TwoNewlinesOnlyAtTheEnd(chunks: seq<seq<byte>>, n: nat, i: nat, j: nat)
    requires After(chunks).Some? && n < |chunks|
    requires i < j < |chunks[n]| && chunks[n][i] == chunks[n][j] == NEWLINE
    requires AtEof(After(chunks).value) == SplitLines(Concat(chunks))
    ensures n + 1 == |chunks| && LateRead(Before(chunks, n), chunks[n])
  {
    WholeLogIsRightIff(chunks);
    assert Harmless(chunks, n);
    TwoNewlinesNeverClean(Before(chunks, n), chunks[n], i, j);
    TwoNewlinesNeverDormant(Before(chunks, n), chunks[n], i, j);
  }

  lemma ShortPieceIsClean(pending: seq<byte>, chunk: seq<byte>)
    requires FirstNewline(pending) == |pending| && NewlineOnlyLast(chunk)
    requires !HasNewline(chunk) ==> |pending + chunk| < KEEP
    ensures CleanRead(pending, chunk)
  {
    var w := pending + chunk;
    FirstNewlineOfConcat(pending, chunk);
    if HasNewline(chunk) {
      assert FirstNewline(w) == |w| - 1;
      assert w[|w|..] == [];
    }
  }

  lemma ShortRead(stream: seq<byte>, chunk: seq<byte>, later: seq<byte>)
    requires NewlineOnlyLast(chunk) && ShortLines(SplitLines(stream + chunk + later))
    ensures CleanRead(Pending(stream), chunk)
  {
    ShortPrefix(stream + chunk, later);
    if !HasNewline(chunk) {
      SplitMore(stream, chunk);
      FirstNewlineOfConcat(Pending(stream), chunk);
    }
    ShortPieceIsClean(Pending(stream), chunk);
  }

  lemma {:induction false} ConcatPrefix(chunks: seq<seq<byte>>, n: nat)
    requires n <= |chunks|
    ensures Concat(chunks[..n]) <= Concat(chunks)
  {
    if n < |chunks| {
      var m := |chunks| - 1;
      ConcatPrefix(chunks[..m], n);
      assert chunks[..m][..n] == chunks[..n];
    } else {
      assert chunks[..n] == chunks;
    }
  }

  lemma ConcatParts(chunks: seq<seq<byte>>, n: nat) returns (later: seq<byte>)
    requires n < |chunks|
    ensures Concat(chunks) == Concat(chunks[..n]) + chunks[n] + later
  {
    var all, now := Concat(chunks), Concat(chunks[..n + 1]);
    ConcatPrefix(chunks, n + 1);
    assert chunks[..n + 1][..n] == chunks[..n];
    later := all[|now|..];
  }

  lemma ShortReadAt(chunks: seq<seq<byte>>, n: nat)
    requires n < |chunks| && NewlineOnlyLast(chunks[n]) && ShortLines(SplitLines(Concat(chunks)))
    ensures CleanAt(chunks, n)
  {
    var later := ConcatParts(chunks, n);
    ShortRead(Concat(chunks[..n]), chunks[n], later);
  }

  /** Reads that end at newlines, and lines shorter than 1024 bytes: the log is the newline split. */
  lemma ShortLinesReadWhole(chunks: seq<seq<byte>>)
    requires After(chunks).Some?
    requires forall c :: c in chunks ==> NewlineOnlyLast(c)
    requires forall line :: line in SplitLines(Concat(chunks)) ==> |line| < 1024
    ensures AtEof(After(chunks).value) == SplitLines(Concat(chunks))
  {
    forall n | 0 <= n < |chunks| ensures Harmless(chunks, n) {
      ShortReadAt(chunks, n);
    }
    WholeLogIsRightIff(chunks);
  }

  lemma OneRead(chunk: seq<byte>)
    requires 1 <= |chunk| <= BUFFER_LEN
    ensures After([chunk]).Some? && Before([chunk], 0) == []
    ensures LateRead([], chunk) ==> AtEof(After([chunk]).value) == SplitLines(Concat([chunk]))
  {
    var chunks: seq<seq<byte>> := [chunk];
    assert chunks[..0] == [];
    assert After([]) == Some(START);
    if LateRead([], chunk) {
      assert Harmless(chunks, 0);
    }
    WholeLogIsRightIff(chunks);
  }

  /** Two kinds of reads that are not clean and still give the right log. The first: the last line has
      2048 bytes and arrives whole with its newline and the end of the line before it. */
  lemma LateReadLogsRight(line: seq<byte>)
    requires |line| == 2048 && FirstNewline(line) == |line|
    ensures var chunk := [NEWLINE] + line + [NEWLINE];
            && After([chunk]).Some?
            && AtEof(After([chunk]).value) == SplitLines(Concat([chunk]))
            && !CleanRead([], chunk)
  {
    var chunk: seq<byte> := [NEWLINE] + line + [NEWLINE];
    var none: seq<byte> := [];
    assert none + chunk == chunk;
    FirstNewlineIs(chunk, 0);
    assert chunk[1..] == line + [NEWLINE];
    FirstNewlineOfConcat(line, [NEWLINE]);
    OneRead(chunk);
  }

  /** The second: an unterminated piece whose bytes behind 1024 are the overflow marker, in two
      reads. */
  lemma MarkerLogsRight(head: seq<byte>)
    requires |head| == 1024 && FirstNewline(head) == |head|
    ensures var chunks: seq<seq<byte>> := [head + [63, 63], [63, 46, 46, 46, 63, 63, 63]];
            && After(chunks).Some?
            && AtEof(After(chunks).value) == SplitLines(Concat(chunks))
            && !CleanRead([], chunks[0])
  {
    var first: seq<byte>, second: seq<byte> := head + [63, 63], [63, 46, 46, 46, 63, 63, 63];
    var chunks, one: seq<seq<byte>> := [first, second], [first];
    var whole := head + OVERFLOW;
    assert chunks[..0] == [] && chunks[..1] == one && one[..0] == [];
    FirstNewlineIs([63, 63], 2);
    FirstNewlineIs(second, |second|);
    FirstNewlineOfConcat(head, [63, 63]);
    var none: seq<byte> := [];
    assert none + first == first;
    assert Before(chunks, 0) == [] && Before(chunks, 1) == first;
    assert first + second == whole;
    FirstNewlineOfConcat(first, second);
    assert whole[KEEP..] == OVERFLOW;
    assert After([]) == Some(START);
    assert After(one) == Some(Read(START, first));
    assert Harmless(chunks, 0) && Harmless(chunks, 1);
    WholeLogIsRightIff(chunks);
  }
}
