/** The host task that reads one machine's stream and feeds its log hub
    (nodemanager/src/machine/vsock.rs, `packet_handler` and `read_from_stream`). */
module PacketHandler {
  import opened Protocol
  import opened Framing
  import opened LogHub

  /** `Unknown` unless the packets end in `Exited`. */
  function ExitOf(packets: seq<GuestPacket>): MachineExit {
    if packets != [] && packets[|packets| - 1].Exited? then FromGuest(packets[|packets| - 1].exitCode) else Unknown
  }

  lemma {:induction false} LogsOfConcat(a: seq<GuestPacket>, b: seq<GuestPacket>)
    ensures LogsOf(a + b) == LogsOf(a) + LogsOf(b)
  {
    if b == [] {
      assert a + b == a;
    } else {
      assert (a + b)[..|a + b| - 1] == a + b[..|b| - 1];
      LogsOfConcat(a, b[..|b| - 1]);
    }
  }

  /** The handler stops reading at `Exited`, so only the last packet it sees can be one. */
  lemma {:induction false} OnlyLastIsExit(codec: Codec<GuestPacket>, stream: seq<byte>)
    ensures NoExitBeforeLast(Packets(codec, stream))
    decreases |stream|
  {
    var r := ReadFromStream(codec, stream);
    if r.Received? && !r.packet.Exited? {
      OnlyLastIsExit(codec, r.rest);
      var later := Packets(codec, r.rest);
      assert NoExitBeforeLast([r.packet] + later);
    }
  }

  predicate NoExitBeforeLast(packets: seq<GuestPacket>) {
    forall i :: 0 <= i < |packets| - 1 ==> !packets[i].Exited?
  }

  class GuestStream {
    var data: seq<byte> // what has not been read yet

    constructor (data: seq<byte>)
      ensures this.data == data
    {
      this.data := data;
    }

    method ReadExact(n: nat) returns (bytes: Option<seq<byte>>)
      modifies this
      ensures if n <= |old(data)| then bytes == Some(old(data)[..n]) && data == old(data)[n..] else bytes == None
    {
      if n <= |data| {
        bytes, data := Some(data[..n]), data[n..];
      } else {
        bytes, data := None, [];
      }
    }

    method ReadFromStream(codec: Codec<GuestPacket>) returns (packet: Option<GuestPacket>)
      modifies this
      ensures match Framing.ReadFromStream(codec, old(data))
              case Failed => packet == None
              case Received(p, rest) => packet == Some(p) && data == rest
    {
      var lenBuf := ReadExact(4);
      if lenBuf.None? {
        return None;
      }
      var len := FromBe(lenBuf.value);
      if len == 0 || len > MAX_PACKET_SIZE {
        return None;
      }
      var buf := ReadExact(len);
      if buf.None? {
        return None;
      }
      assert old(data)[4..][..len] == old(data)[4..4 + len];
      packet := codec.decode(buf.value);
    }
  }

  /** From the first byte to the end of the handler: the history grows by exactly the log and state
      packets before `Exited`, and the exit is what the guest reported, or `Unknown`. `lockFree` says
      whether the final `try_lock` finds the communicator unlocked. */
  method PacketHandlerTask(codec: Codec<GuestPacket>, stream: GuestStream, comm: MachineCommunicator, lockFree: bool)
    returns (exit: MachineExit)
    requires comm.Valid() && comm.state == CurrentState(comm.History())
    modifies stream, comm`logSubscribers, comm`state, comm.logBuffer, comm.logBuffer.items, comm.logSubscribers
    ensures comm.Valid() && Among(comm.logSubscribers, old(comm.logSubscribers))
    ensures lockFree ==> comm.logSubscribers == []
    ensures comm.History() == old(comm.History()) + LogsOf(Packets(codec, old(stream.data)))
    ensures exit == ExitOf(Packets(codec, old(stream.data)))
    ensures comm.state == if exit == Unknown then CurrentState(comm.History()) else None
  {
    exit := HandleAll(codec, stream, comm);
    if lockFree {
      comm.DropSubscribers();
    }
  }

  /** The loop. */
  method HandleAll(codec: Codec<GuestPacket>, stream: GuestStream, comm: MachineCommunicator)
    returns (exit: MachineExit)
    requires Hub(comm, comm.History(), Unknown)
    modifies stream, comm`logSubscribers, comm`state, comm.logBuffer, comm.logBuffer.items, comm.logSubscribers
    ensures Hub(comm, old(comm.History()) + LogsOf(Packets(codec, old(stream.data))), exit)
    ensures exit == ExitOf(Packets(codec, old(stream.data)))
    ensures Among(comm.logSubscribers, old(comm.logSubscribers))
  {
    exit := Unknown;
    ghost var seen: seq<GuestPacket> := [];
    ghost var history := comm.History();
    ghost var all := Packets(codec, stream.data);
    var running := true;
    while running
      invariant Hub(comm, history, exit)
      invariant history == old(comm.History()) + LogsOf(seen) && exit == ExitOf(seen)
      invariant if running then exit == Unknown && seen + Packets(codec, stream.data) == all else seen == all
      invariant Among(comm.logSubscribers, old(comm.logSubscribers))
      decreases running, |stream.data|
    {
      SeenStep(codec, all, old(comm.History()), seen, stream.data);
      var packet := HandleNext(codec, stream, comm);
      running := packet.Some? && !packet.value.Exited?;
      if packet.Some? {
        seen, history := seen + [packet.value], history + LogsOf([packet.value]);
        exit := if packet.value.Exited? then FromGuest(packet.value.exitCode) else Unknown;
      }
    }
  }

  ghost predicate Hub(comm: MachineCommunicator, history: seq<MachineLog>, exit: MachineExit)
    reads comm, comm.logBuffer, comm.logBuffer.items
  {
    && comm.Valid() && comm.History() == history
    && comm.state == if exit == Unknown then CurrentState(history) else None
  }

  predicate Among(some: seq<Channel>, all: seq<Channel>) {
    forall i :: 0 <= i < |some| ==> some[i] in all
  }

  /** The handler has seen `seen` of the packets `all`, and `data` is unread. */
  lemma SeenStep(codec: Codec<GuestPacket>, all: seq<GuestPacket>, before: seq<MachineLog>, seen: seq<GuestPacket>,
                 data: seq<byte>)
    requires seen + Packets(codec, data) == all
    ensures var r := Framing.ReadFromStream(codec, data);
            if r.Failed? then seen == all
            else
              && before + LogsOf(seen + [r.packet]) == before + LogsOf(seen) + LogsOf([r.packet])
              && ExitOf(seen + [r.packet]) == (if r.packet.Exited? then FromGuest(r.packet.exitCode) else Unknown)
              && if r.packet.Exited? then seen + [r.packet] == all
                 else seen + [r.packet] + Packets(codec, r.rest) == all
  {
    match Framing.ReadFromStream(codec, data)
    case Failed =>
      assert seen + [] == seen;
    case Received(p, rest) =>
      LogsOfConcat(seen, [p]);
      assert before + (LogsOf(seen) + LogsOf([p])) == before + LogsOf(seen) + LogsOf([p]);
      if !p.Exited? {
        assert seen + ([p] + Packets(codec, rest)) == seen + [p] + Packets(codec, rest);
      }
  }

  /** One turn of the loop. */
  method HandleNext(codec: Codec<GuestPacket>, stream: GuestStream, comm: MachineCommunicator)
    returns (packet: Option<GuestPacket>)
    requires Hub(comm, comm.History(), Unknown)
    modifies stream, comm`logSubscribers, comm`state, comm.logBuffer, comm.logBuffer.items, comm.logSubscribers
    ensures match Framing.ReadFromStream(codec, old(stream.data))
            case Failed => packet == None
            case Received(p, rest) => packet == Some(p) && stream.data == rest
    ensures Hub(comm,
                old(comm.History()) + (if packet.Some? then LogsOf([packet.value]) else []),
                if packet.Some? && packet.value.Exited? then FromGuest(packet.value.exitCode) else Unknown)
    ensures Among(comm.logSubscribers, old(comm.logSubscribers))
  {
    packet := stream.ReadFromStream(codec);
    if packet.Some? {
      LogsOfOne(packet.value);
      if packet.value.Exited? {
        comm.state := None;
      } else {
        HandlePacket(comm, packet.value);
      }
    }
  }

  lemma LogsOfOne(packet: GuestPacket)
    ensures LogsOf([packet]) ==
            match packet
            case Log(m) => [VmLog(m)]
            case VmState(s, ts) => [State(s, ts)]
            case Exited(_) => []
  {
    assert [packet][..0] == [];
  }

  lemma CurrentStateOfNext(history: seq<MachineLog>, entry: MachineLog)
    ensures CurrentState(history + [entry]) ==
            match entry
            case State(s, ts) => Some((s, ts))
            case VmLog(_) => CurrentState(history)
  {
    assert (history + [entry])[..|history|] == history;
  }

  method HandlePacket(comm: MachineCommunicator, packet: GuestPacket)
    requires comm.Valid() && comm.state == CurrentState(comm.History()) && !packet.Exited?
    modifies comm`logSubscribers, comm`state, comm.logBuffer, comm.logBuffer.items, comm.logSubscribers
    ensures comm.Valid() && comm.state == CurrentState(comm.History())
    ensures comm.History() == old(comm.History()) + LogsOf([packet])
    ensures Among(comm.logSubscribers, old(comm.logSubscribers))
  {
    LogsOfOne(packet);
    var entry;
    match packet {
      case Log(m) =>
        entry := VmLog(m);
      case VmState(s, ts) =>
        comm.state := Some((s, ts));
        entry := State(s, ts);
    }
    CurrentStateOfNext(comm.History(), entry);
    comm.PushLog(entry);
  }
}
