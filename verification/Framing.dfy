/** Length-prefixed framing on both directions of the vsock stream (instance/src/host.rs,
    `write_without_flush` and `read_packet`; nodemanager/src/machine/vsock.rs, `write` and
    `read_from_stream`). The bitcode codec is a parameter. */
module Framing {
  import opened Protocol

  const MAX_PACKET_SIZE: nat := 1024 * 1024
  const GUEST_READ_LIMIT: nat := 2048 // BUFFER_SIZE in instance/src/host.rs
  const U32: nat := 0x1_0000_0000

  // ---- Big-endian u32 ----

  /** `(n as u32).to_be_bytes()`; the cast keeps the low 32 bits. */
  function ToBe(n: nat): (b: seq<byte>)
    ensures |b| == 4
  {
    var m := n % U32;
    [m / 0x100_0000, m / 0x1_0000 % 256, m / 256 % 256, m % 256]
  }

  /** `u32::from_be_bytes` */
  function FromBe(b: seq<byte>): (n: nat)
    requires |b| == 4
    ensures n < U32
  {
    var b0: nat, b1: nat, b2: nat, b3: nat := b[0], b[1], b[2], b[3];
    ((b0 * 256 + b1) * 256 + b2) * 256 + b3
  }

  lemma BeRoundTrip(n: nat)
    ensures FromBe(ToBe(n)) == n % U32
  {
    var m := n % U32;
    assert m / 0x100_0000 * 256 + m / 0x1_0000 % 256 == m / 0x1_0000;
    assert m / 0x1_0000 * 256 + m / 256 % 256 == m / 256;
  }

  /** Big-endian: the first byte carries 2^24, the last one 1. */
  lemma BeOnto(b: seq<byte>)
    requires |b| == 4
    ensures ToBe(FromBe(b)) == b
    ensures var b0: nat, b1: nat, b2: nat, b3: nat := b[0], b[1], b[2], b[3];
            FromBe(b) == b0 * 0x100_0000 + b1 * 0x1_0000 + b2 * 256 + b3
    ensures ToBe(0x0102_0304) == [1, 2, 3, 4]
  {
    var n := FromBe(b);
    assert n % U32 == n;
    var b0: nat, b1: nat, b2: nat, b3: nat := b[0], b[1], b[2], b[3];
    assert n / 256 == (b0 * 256 + b1) * 256 + b2 && n % 256 == b3;
    assert n / 0x1_0000 == b0 * 256 + b1 && n / 256 % 256 == b2;
    assert n / 0x100_0000 == b0 && n / 0x1_0000 % 256 == b1;
  }

  // ---- The codec ----

  datatype Codec<!P> = Codec(encode: P -> seq<byte>, decode: seq<byte> -> Option<P>)

  /** What is assumed of the codec for the packets in hand: decoding inverts encoding. */
  ghost predicate Inverts<P>(codec: Codec<P>, packets: seq<P>) {
    forall p :: p in packets ==> codec.decode(codec.encode(p)) == Some(p)
  }

  /** ... and an encoding passes the host's length check. */
  ghost predicate FitsHost<P>(codec: Codec<P>, packets: seq<P>) {
    forall p :: p in packets ==> 0 < |codec.encode(p)| <= MAX_PACKET_SIZE
  }

  // ---- Writing ----

  function Frame<P>(codec: Codec<P>, p: P): seq<byte> {
    ToBe(|codec.encode(p)|) + codec.encode(p)
  }

  function Frames<P>(codec: Codec<P>, packets: seq<P>): seq<byte> {
    if packets == [] then [] else Frame(codec, packets[0]) + Frames(codec, packets[1..])
  }

  // ---- Reading ----

  datatype ReadResult<+P> = Failed | Received(packet: P, rest: seq<byte>)

  /** One frame from what the stream still holds. `least` and `most` are the reader's length check:
      the host refuses length 0 and more than 1 MB, the guest only more than 2048. */
  function ReadFrame<P>(codec: Codec<P>, stream: seq<byte>, least: nat, most: nat): (r: ReadResult<P>)
    ensures r.Received? ==> |r.rest| < |stream|
  {
    if |stream| < 4 then Failed
    else
      var len := FromBe(stream[..4]);
      if len < least || len > most || |stream| < 4 + len then Failed
      else
        var packet := codec.decode(stream[4..4 + len]);
        if packet.None? then Failed else Received(packet.value, stream[4 + len..])
  }

  function ReadFromStream(codec: Codec<GuestPacket>, stream: seq<byte>): ReadResult<GuestPacket> {
    ReadFrame(codec, stream, 1, MAX_PACKET_SIZE)
  }

  function ReadPacket(codec: Codec<HostPacket>, stream: seq<byte>): ReadResult<HostPacket> {
    ReadFrame(codec, stream, 0, GUEST_READ_LIMIT)
  }

  /** All packets the host's handler reads: up to the first `Exited`, or to the first failure. */
  function Packets(codec: Codec<GuestPacket>, stream: seq<byte>): seq<GuestPacket>
    decreases |stream|
  {
    match ReadFromStream(codec, stream)
    case Failed => []
    case Received(p, rest) => if p.Exited? then [p] else [p] + Packets(codec, rest)
  }

  /** The packets up to and including the first `Exited`. */
  function UpToExit(packets: seq<GuestPacket>): seq<GuestPacket> {
    if packets == [] then []
    else if packets[0].Exited? then [packets[0]]
    else [packets[0]] + UpToExit(packets[1..])
  }

  // ---- One frame ----

  /** A frame that is not there in full is not read. */
  lemma CutFrameFails<P>(codec: Codec<P>, p: P, k: nat, least: nat, most: nat)
    requires |codec.encode(p)| < U32 && k < |Frame(codec, p)|
    ensures ReadFrame(codec, Frame(codec, p)[..k], least, most) == Failed
  {
    var body := codec.encode(p);
    if 4 <= k {
      BeRoundTrip(|body|);
      assert Frame(codec, p)[..k][..4] == ToBe(|body|);
    }
  }

  lemma FrameAcceptedIff<P>(codec: Codec<P>, p: P, tail: seq<byte>, least: nat, most: nat)
    requires codec.decode(codec.encode(p)) == Some(p) && |codec.encode(p)| < U32
    ensures ReadFrame(codec, Frame(codec, p) + tail, least, most) == Received(p, tail)
            <==> least <= |codec.encode(p)| <= most
  {
    var body := codec.encode(p);
    var stream := Frame(codec, p) + tail;
    BeRoundTrip(|body|);
    assert stream[..4] == ToBe(|body|);
    assert stream[4..4 + |body|] == body;
    assert stream[4 + |body|..] == tail;
  }

  lemma FrameRoundTrip<P>(codec: Codec<P>, p: P, tail: seq<byte>, least: nat, most: nat)
    requires codec.decode(codec.encode(p)) == Some(p)
    requires least <= |codec.encode(p)| <= most < U32
    ensures ReadFrame(codec, Frame(codec, p) + tail, least, most) == Received(p, tail)
  {
    FrameAcceptedIff(codec, p, tail, least, most);
  }

  /** The two length checks differ: from host to guest an empty encoding is a valid frame, and at most
      2048 bytes are; from guest to host an empty encoding is not, and up to 1 MB is. */
  lemma LengthChecksDiffer(host: Codec<HostPacket>, h: HostPacket, guest: Codec<GuestPacket>, g: GuestPacket,
                           tail: seq<byte>)
    requires host.decode(host.encode(h)) == Some(h) && |host.encode(h)| < U32
    requires guest.decode(guest.encode(g)) == Some(g) && |guest.encode(g)| < U32
    ensures ReadPacket(host, Frame(host, h) + tail) == Received(h, tail) <==> |host.encode(h)| <= 2048
    ensures ReadFromStream(guest, Frame(guest, g) + tail) == Received(g, tail)
            <==> 1 <= |guest.encode(g)| <= 1024 * 1024
  {
    FrameAcceptedIff(host, h, tail, 0, GUEST_READ_LIMIT);
    FrameAcceptedIff(guest, g, tail, 1, MAX_PACKET_SIZE);
  }

  // ---- The stream ----

  /** How many of the frames lie within the first `k` bytes. */
  function WholeFrames<P>(codec: Codec<P>, packets: seq<P>, k: nat): (n: nat)
    ensures n <= |packets|
  {
    if packets == [] || k < |Frame(codec, packets[0])| then 0
    else 1 + WholeFrames(codec, packets[1..], k - |Frame(codec, packets[0])|)
  }

  /** `WholeFrames` is the largest number of frames that fit. */
  lemma {:induction false} WholeFramesIsLargest<P>(codec: Codec<P>, packets: seq<P>, k: nat, n: nat)
    requires n <= |packets|
    ensures |Frames(codec, packets[..n])| <= k <==> n <= WholeFrames(codec, packets, k)
  {
    if n > 0 {
      var first := |Frame(codec, packets[0])|;
      assert packets[..n][0] == packets[0] && packets[..n][1..] == packets[1..][..n - 1];
      if first <= k {
        WholeFramesIsLargest(codec, packets[1..], k - first, n - 1);
      }
    }
  }

  /** Main result: cutting the stream of written frames at any byte yields exactly the packets of
      the whole frames before the cut, up to and including the first `Exited`. */
  lemma {:induction false} CutStreamYieldsWholeFrames(codec: Codec<GuestPacket>, packets: seq<GuestPacket>, k: nat)
    requires Inverts(codec, packets) && FitsHost(codec, packets)
    requires k <= |Frames(codec, packets)|
    ensures Packets(codec, Frames(codec, packets)[..k]) == UpToExit(packets[..WholeFrames(codec, packets, k)])
  {
    var stream := Frames(codec, packets)[..k];
    if packets == [] {
      assert stream == [];
    } else {
      var frame := Frame(codec, packets[0]);
      var later := Frames(codec, packets[1..]);
      assert packets[0] in packets;
      if k < |frame| {
        assert stream == frame[..k];
        CutFrameFails(codec, packets[0], k, 1, MAX_PACKET_SIZE);
      } else {
        var j := k - |frame|;
        assert stream == frame + later[..j];
        FrameRoundTrip(codec, packets[0], later[..j], 1, MAX_PACKET_SIZE);
        assert forall p :: p in packets[1..] ==> p in packets;
        CutStreamYieldsWholeFrames(codec, packets[1..], j);
        var n := WholeFrames(codec, packets[1..], j);
        assert packets[..1 + n][0] == packets[0] && packets[..1 + n][1..] == packets[1..][..n];
      }
    }
  }

  lemma AllFramesAreWhole<P>(codec: Codec<P>, packets: seq<P>)
    ensures WholeFrames(codec, packets, |Frames(codec, packets)|) == |packets|
  {
    WholeFramesIsLargest(codec, packets, |Frames(codec, packets)|, |packets|);
    assert packets[..|packets|] == packets;
  }

  /** Reading back everything that was written. */
  lemma StreamRoundTrip(codec: Codec<GuestPacket>, packets: seq<GuestPacket>)
    requires Inverts(codec, packets) && FitsHost(codec, packets)
    ensures Packets(codec, Frames(codec, packets)) == UpToExit(packets)
  {
    var all := Frames(codec, packets);
    CutStreamYieldsWholeFrames(codec, packets, |all|);
    AllFramesAreWhole(codec, packets);
    assert all[..|all|] == all && packets[..|packets|] == packets;
  }

  /** Whatever follows the frame of an `Exited` packet is never read. */
  lemma {:induction false} NothingReadAfterExit(codec: Codec<GuestPacket>, packets: seq<GuestPacket>, tail: seq<byte>)
    requires Inverts(codec, packets) && FitsHost(codec, packets)
    requires exists p :: p in packets && p.Exited?
    ensures Packets(codec, Frames(codec, packets) + tail) == UpToExit(packets)
  {
    var later := Frames(codec, packets[1..]);
    assert packets[0] in packets;
    assert Frames(codec, packets) + tail == Frame(codec, packets[0]) + (later + tail);
    FrameRoundTrip(codec, packets[0], later + tail, 1, MAX_PACKET_SIZE);
    if !packets[0].Exited? {
      assert forall p :: p in packets[1..] ==> p in packets;
      NothingReadAfterExit(codec, packets[1..], tail);
    }
  }

  lemma {:induction false} FramesOfConcat<P>(codec: Codec<P>, a: seq<P>, b: seq<P>)
    ensures Frames(codec, a + b) == Frames(codec, a) + Frames(codec, b)
  {
    if a == [] {
      assert a + b == b;
    } else {
      assert (a + b)[1..] == a[1..] + b;
      FramesOfConcat(codec, a[1..], b);
    }
  }
}
