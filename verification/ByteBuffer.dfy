/** The array operations of the splitter's buffer (instance/src/host.rs, `spawn_pipe_to_log`). */
module ByteBuffer {
  import opened Protocol
  import opened Lines
  import opened Splitter

  /** `pipe.read(&mut buf[at..])` delivering `chunk`, or `copy_from_slice` of it. */
  method Fill(buf: array<byte>, at: nat, chunk: seq<byte>)
    requires at + |chunk| <= buf.Length
    modifies buf
    ensures buf[..] == old(buf[..at]) + chunk + old(buf[at + |chunk|..])
  {
    for i := 0 to |chunk|
      invariant forall k :: 0 <= k < i ==> buf[at + k] == chunk[k]
      invariant forall k :: 0 <= k < buf.Length && !(at <= k < at + i) ==> buf[k] == old(buf[k])
    {
      buf[at + i] := chunk[i];
    }
  }

  /** `buf[from..to].iter().position(|&b| b == b'\n')`, or the length if there is none. */
  method FindNewline(buf: array<byte>, from: nat, to: nat) returns (k: nat)
    requires from <= to <= buf.Length
    ensures k == FirstNewline(buf[from..to])
  {
    k := 0;
    while k < to - from && buf[from + k] != NEWLINE
      invariant k <= to - from && ScanFrom(buf[from..to], 0) == ScanFrom(buf[from..to], k)
    {
      k := k + 1;
    }
  }

  /** `buf.copy_within(from..to, 0)` */
  method CopyWithin(buf: array<byte>, from: nat, to: nat)
    requires from <= to <= buf.Length
    modifies buf
    ensures buf[..] == CopyToFront(old(buf[..]), from, to)
  {
    var i := 0;
    while i < to - from
      invariant 0 <= i <= to - from
      invariant forall k :: 0 <= k < i ==> buf[k] == old(buf[from + k])
      invariant forall k :: i <= k < buf.Length ==> buf[k] == old(buf[k])
    {
      buf[i] := buf[from + i];
      i := i + 1;
    }
  }
}
