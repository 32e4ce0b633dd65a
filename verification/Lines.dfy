/** The reference: splitting a byte stream on newlines. */
module Lines {
  import opened Protocol

  const NEWLINE: byte := 10

  /** Index of the first newline, or the length if there is none. */
  function FirstNewline(s: seq<byte>): (k: nat)
    ensures k <= |s|
  {
    ScanFrom(s, 0)
  }

  function ScanFrom(s: seq<byte>, i: nat): (k: nat)
    requires i <= |s|
    ensures i <= k <= |s|
    decreases |s| - i
  {
    if i == |s| || s[i] == NEWLINE then i else ScanFrom(s, i + 1)
  }

  /** The newline-terminated lines of a stream, without their newlines. */
  function CompleteLines(s: seq<byte>): seq<seq<byte>> {
    var k := FirstNewline(s);
    if k == |s| then [] else [s[..k]] + CompleteLines(s[k + 1..])
  }

  /** What follows the last newline. */
  function Pending(s: seq<byte>): (p: seq<byte>)
    ensures FirstNewline(p) == |p|
  {
    var k := FirstNewline(s);
    if k == |s| then s else Pending(s[k + 1..])
  }

  /** All lines of a stream that has ended; an empty unterminated piece is not a line. */
  function SplitLines(s: seq<byte>): seq<seq<byte>> {
    CompleteLines(s) + if Pending(s) == [] then [] else [Pending(s)]
  }

  lemma {:induction false} ScanFacts(s: seq<byte>, i: nat)
    requires i <= |s|
    ensures forall j :: i <= j < ScanFrom(s, i) ==> s[j] != NEWLINE
    ensures ScanFrom(s, i) < |s| ==> s[ScanFrom(s, i)] == NEWLINE
    decreases |s| - i
  {
    if i < |s| && s[i] != NEWLINE {
      ScanFacts(s, i + 1);
    }
  }

  /** The first newline is the only position with this property. */
  lemma FirstNewlineIs(s: seq<byte>, k: nat)
    requires k <= |s| && (forall j :: 0 <= j < k ==> s[j] != NEWLINE) && (k < |s| ==> s[k] == NEWLINE)
    ensures FirstNewline(s) == k
  {
    ScanFacts(s, 0);
  }

  lemma NewlineAt(s: seq<byte>, i: nat)
    requires i < |s| && s[i] == NEWLINE
    ensures FirstNewline(s) <= i
  {
    ScanFacts(s, 0);
  }

  lemma FirstNewlineOfConcat(a: seq<byte>, b: seq<byte>)
    ensures FirstNewline(a + b) == if FirstNewline(a) < |a| then FirstNewline(a) else |a| + FirstNewline(b)
  {
    ScanFacts(a, 0);
    ScanFacts(b, 0);
    FirstNewlineIs(a + b, if FirstNewline(a) < |a| then FirstNewline(a) else |a| + FirstNewline(b));
  }

  lemma FirstNewlineOfPrefix(s: seq<byte>, n: nat)
    requires n <= FirstNewline(s)
    ensures FirstNewline(s[..n]) == n
  {
    ScanFacts(s, 0);
    FirstNewlineIs(s[..n], n);
  }

  lemma Assoc<T>(a: seq<T>, b: seq<T>, c: seq<T>)
    ensures a + b + c == a + (b + c)
  {
  }

  /** Splitting is incremental: reading `more` completes the lines of the unterminated piece. */
  lemma {:induction false} SplitMore(s: seq<byte>, more: seq<byte>)
    ensures CompleteLines(s + more) == CompleteLines(s) + CompleteLines(Pending(s) + more)
    ensures Pending(s + more) == Pending(Pending(s) + more)
    decreases |s|
  {
    var k := FirstNewline(s);
    FirstNewlineOfConcat(s, more);
    if k < |s| {
      var first, later := s[..k], s[k + 1..];
      assert (s + more)[..k] == first && (s + more)[k + 1..] == later + more;
      SplitMore(later, more);
      assert CompleteLines(s + more) == [first] + CompleteLines(later + more);
      assert Pending(s + more) == Pending(later + more) && Pending(s) == Pending(later);
      Assoc([first], CompleteLines(later), CompleteLines(Pending(s) + more));
    }
  }

  /** Joining the lines with newlines and appending the rest gives the stream back. */
  lemma {:induction false} SplitLosesNothing(s: seq<byte>)
    ensures Unsplit(CompleteLines(s)) + Pending(s) == s
    decreases |s|
  {
    var k := FirstNewline(s);
    if k < |s| {
      ScanFacts(s, 0);
      SplitLosesNothing(s[k + 1..]);
      UnsplitCons(s[..k], CompleteLines(s[k + 1..]));
      Rejoin(s, k, Unsplit(CompleteLines(s[k + 1..])), Pending(s));
    }
  }

  lemma Rejoin(s: seq<byte>, k: nat, joined: seq<byte>, last: seq<byte>)
    requires k < |s| && s[k] == NEWLINE && joined + last == s[k + 1..]
    ensures s[..k] + [NEWLINE] + joined + last == s
  {
    assert s[..k] + [NEWLINE] + joined + last == s[..k] + [NEWLINE] + (joined + last);
  }

  /** No line contains a newline. */
  lemma {:induction false} LinesHaveNoNewline(s: seq<byte>)
    ensures forall line :: line in CompleteLines(s) ==> FirstNewline(line) == |line|
    decreases |s|
  {
    var k := FirstNewline(s);
    if k < |s| {
      FirstNewlineOfPrefix(s, k);
      LinesHaveNoNewline(s[k + 1..]);
    }
  }

  lemma UnsplitCons(line: seq<byte>, rest: seq<seq<byte>>)
    ensures Unsplit([line] + rest) == line + [NEWLINE] + Unsplit(rest)
  {
    assert ([line] + rest)[1..] == rest;
  }

  function Unsplit(lines: seq<seq<byte>>): seq<byte> {
    if lines == [] then [] else lines[0] + [NEWLINE] + Unsplit(lines[1..])
  }

  function Concat(chunks: seq<seq<byte>>): seq<byte> {
    if chunks == [] then [] else Concat(chunks[..|chunks| - 1]) + chunks[|chunks| - 1]
  }
}
